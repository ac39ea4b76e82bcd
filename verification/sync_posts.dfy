/**
 * The pure logic of `DBVC_Sync_Posts` (includes/class-sync-posts.php; the CLI
 * calls the same class under the name `SRDT_Sync_Posts`): the supported
 * post types, the guards and file naming of the per-post export, the shape
 * of the sanitised meta and options, the post count, and the cursor
 * arithmetic of the export and import batches.
 */
module SyncPosts {
  import opened Wrappers
  import opened PhpStrings
  import opened Seqs
  import opened JsonData
  import opened PhpArrays
  import opened SyncPath
  import opened Batches

  /** A post as WordPress hands it to the exporter, with its meta from `get_post_meta`. */
  datatype Post = Post(
    id: int,
    title: string,
    content: string,
    excerpt: string,
    postType: string,
    status: string,
    isRevision: bool,
    meta: seq<Pair<seq<string>>>)

  /**
   * The WordPress services the class calls and this model does not look
   * inside, passed in as values.
   */
  datatype WordPress = WordPress(
    paths: PathConfig,
    /** `get_option('dbvc_post_types')` */
    selectedTypes: seq<string>,
    /** the `WP_CLI` constant */
    isCli: bool,
    /** `get_post_type_object` exists and `current_user_can(read_post, id)` */
    canRead: (string, int) -> bool,
    /** `current_user_can('manage_options')` */
    canManageOptions: bool,
    /** `sanitize_text_field` */
    textField: string -> string,
    /** `sanitize_textarea_field` */
    textareaField: string -> string,
    /** `wp_kses_post` */
    kses: string -> string,
    /** `is_serialized` and `maybe_unserialize`: `Some` of the value when the text is serialised */
    unserialize: string -> Option<Json>,
    /** the `realpath` containment test inside `dbvc_is_safe_file_path` */
    underRoot: string -> bool)

  /** A JSON document the exporter writes, and where. */
  datatype ExportFile = ExportFile(path: string, data: Json)

  // ---------------------------------------------------------------------
  // get_supported_post_types
  // ---------------------------------------------------------------------

  const DefaultPostTypes: seq<string> := ["post", "page"]

  /** `get_supported_post_types` with the filter taken as the identity. */
  function SupportedPostTypes(selected: seq<string>): (r: seq<string>)
    ensures |r| > 0
    ensures selected == [] ==> r == DefaultPostTypes
    ensures selected != [] ==> r == selected
  {
    if selected == [] then DefaultPostTypes else selected
  }

  // ---------------------------------------------------------------------
  // export_post_to_json
  // ---------------------------------------------------------------------

  /**
   * Lines 45-68: every guard that makes the export return without writing.
   * An allowed post has a positive id and a type among the selected ones, or
   * among `post` and `page` when nothing is selected.
   */
  predicate ExportAllowed(wp: WordPress, post: Post)
    ensures ExportAllowed(wp, post) ==> post.id > 0 && post.status == "publish"
    ensures ExportAllowed(wp, post) ==>
      if wp.selectedTypes == [] then post.postType == "post" || post.postType == "page"
      else post.postType in wp.selectedTypes
  {
    && post.id > 0
    && !post.isRevision
    && post.status == "publish"
    && post.postType in SupportedPostTypes(wp.selectedTypes)
    && (wp.isCli || wp.canRead(post.postType, post.id))
  }

  /** `<post_type>-<id>.json`, before `sanitize_file_name`. */
  function PostFileName(post: Post): (r: string)
    requires post.id > 0
  {
    post.postType + "-" + NatToString(post.id) + ".json"
  }

  /** Lines 86 and 95: the type's subfolder followed by the sanitised file name. */
  function PostFilePath(wp: WordPress, post: Post): (r: string)
    requires post.id > 0
    ensures StartsWith(r, GetSyncPath(wp.paths, post.postType))
  {
    StartsWithConcat(GetSyncPath(wp.paths, post.postType), wp.paths.sanitizeFileName(PostFileName(post)));
    GetSyncPath(wp.paths, post.postType) + wp.paths.sanitizeFileName(PostFileName(post))
  }

  /** `maybe_unserialize` turns the stored text into a value holding no PHP object, or leaves it text. */
  predicate UnserialisesObjectFree(wp: WordPress, v: string) {
    wp.unserialize(v).Some? ==> NoObjects(wp.unserialize(v).value)
  }

  /** No stored meta value unserialises to a value holding an object. */
  predicate MetaObjectFree(wp: WordPress, meta: seq<Pair<seq<string>>>) {
    forall i, j :: 0 <= i < |meta| && 0 <= j < |meta[i].value| ==> UnserialisesObjectFree(wp, meta[i].value[j])
  }

  /**
   * One meta value: unserialised and sanitised if serialised, else passed
   * through `sanitize_textarea_field`. It holds an object exactly when the
   * unserialised value does.
   */
  function SanitizeMetaValue(wp: WordPress, v: string): (r: Json)
    ensures wp.unserialize(v).Some? ==> StrippedCopy(wp.unserialize(v).value, r)
    ensures wp.unserialize(v).None? ==> r.JStr?
    ensures NoObjects(r) <==> UnserialisesObjectFree(wp, v)
  {
    match wp.unserialize(v)
    case Some(u) => SanitizeJson(u)
    case None => JStr(wp.textareaField(v))
  }

  function SanitizeMetaValues(wp: WordPress, vs: seq<string>): (r: seq<Json>)
    ensures |r| == |vs|
  {
    seq(|vs|, i requires 0 <= i < |vs| => SanitizeMetaValue(wp, vs[i]))
  }

  /** The keys of `meta` after `sanitize_text_field`. */
  function SanitizedKeys(wp: WordPress, meta: seq<Pair<seq<string>>>): set<string> {
    set i | 0 <= i < |meta| :: wp.textField(meta[i].key)
  }

  /**
   * `sanitize_post_meta`. Each key is sanitised and assigned a fresh list, so
   * when two keys sanitise to the same text the later one replaces the earlier
   * one's list (in the earlier one's position).
   */
  function SanitizePostMeta(wp: WordPress, meta: seq<Pair<seq<string>>>): (r: seq<Pair<seq<Json>>>)
    ensures DistinctKeys(r)
    ensures Keys(r) == SanitizedKeys(wp, meta)
  {
    if |meta| == 0 then []
    else
      var init := meta[..|meta| - 1];
      var last := meta[|meta| - 1];
      assert SanitizedKeys(wp, meta) == SanitizedKeys(wp, init) + {wp.textField(last.key)} by {
        assert forall i :: 0 <= i < |init| ==> init[i] == meta[i];
      }
      Put(SanitizePostMeta(wp, init), wp.textField(last.key), SanitizeMetaValues(wp, last.value))
  }

  /**
   * The list stored under a sanitised key is the one of the last input key
   * that sanitises to it: it holds as many values as that input list.
   */
  lemma {:induction false} MetaKeepsValueCounts(wp: WordPress, meta: seq<Pair<seq<string>>>, i: nat)
    requires i < |meta|
    requires forall j :: i < j < |meta| ==> wp.textField(meta[j].key) != wp.textField(meta[i].key)
    ensures var v := Get(SanitizePostMeta(wp, meta), wp.textField(meta[i].key));
      v.Some? && |v.value| == |meta[i].value|
  {
    var init := meta[..|meta| - 1];
    var last := meta[|meta| - 1];
    var k := wp.textField(meta[i].key);
    var prev := SanitizePostMeta(wp, init);
    var vs := SanitizeMetaValues(wp, last.value);
    assert SanitizePostMeta(wp, meta) == Put(prev, wp.textField(last.key), vs);
    if i < |meta| - 1 {
      assert init[i] == meta[i];
      MetaKeepsValueCounts(wp, init, i);
      PutKeepsOther(prev, wp.textField(last.key), vs, k);
    } else {
      PutFinds(prev, k, vs);
    }
  }

  /** When no stored value unserialises to an object, no sanitised meta list holds one. */
  lemma {:induction false} MetaValuesObjectFree(wp: WordPress, meta: seq<Pair<seq<string>>>, k: string)
    requires k in Keys(SanitizePostMeta(wp, meta))
    ensures MetaObjectFree(wp, meta) ==>
      var vs := Get(SanitizePostMeta(wp, meta), k).value;
      forall j :: 0 <= j < |vs| ==> NoObjects(vs[j])
  {
    if MetaObjectFree(wp, meta) {
      var init := meta[..|meta| - 1];
      var last := meta[|meta| - 1];
      var prev := SanitizePostMeta(wp, init);
      var vs := SanitizeMetaValues(wp, last.value);
      assert SanitizePostMeta(wp, meta) == Put(prev, wp.textField(last.key), vs);
      if k != wp.textField(last.key) {
        PutKeepsOther(prev, wp.textField(last.key), vs, k);
        assert MetaObjectFree(wp, init) by {
          assert forall i :: 0 <= i < |init| ==> init[i] == meta[i];
        }
        MetaValuesObjectFree(wp, init, k);
      } else {
        PutFinds(prev, k, vs);
        forall j | 0 <= j < |vs| ensures NoObjects(vs[j]) {
          assert UnserialisesObjectFree(wp, last.value[j]);
        }
      }
    }
  }

  /** With no two keys sanitising alike, every input key maps to a list of the same length as its input list. */
  lemma MetaShape(wp: WordPress, meta: seq<Pair<seq<string>>>)
    requires forall i, j :: 0 <= i < j < |meta| ==> wp.textField(meta[i].key) != wp.textField(meta[j].key)
    ensures forall i :: 0 <= i < |meta| ==>
      var v := Get(SanitizePostMeta(wp, meta), wp.textField(meta[i].key));
      v.Some? && |v.value| == |meta[i].value|
  {
    forall i | 0 <= i < |meta|
      ensures var v := Get(SanitizePostMeta(wp, meta), wp.textField(meta[i].key));
        v.Some? && |v.value| == |meta[i].value|
    {
      MetaKeepsValueCounts(wp, meta, i);
    }
  }

  /** A PHP list: keys 0, 1, 2, ... */
  function ListToJson(vs: seq<Json>): (r: Json) {
    JArr(seq(|vs|, i requires 0 <= i < |vs| => Entry(IntKey(i), vs[i])))
  }

  function MetaToJson(m: seq<Pair<seq<Json>>>): (r: Json) {
    JArr(seq(|m|, i requires 0 <= i < |m| => Entry(StrKey(m[i].key), ListToJson(m[i].value))))
  }

  /**
   * The seven fields of lines 70-78, in their order, for given field values.
   * The document holds an object only when `meta` does.
   */
  function PostFields(id: int, title: string, content: string, excerpt: string,
                      postType: string, status: string, meta: Json): (r: Json)
    ensures r.JArr? && |r.entries| == 7
    ensures NoObjects(r) <==> NoObjects(meta)
  {
    var r := JArr([
      Entry(StrKey("ID"), JInt(id)),
      Entry(StrKey("post_title"), JStr(title)),
      Entry(StrKey("post_content"), JStr(content)),
      Entry(StrKey("post_excerpt"), JStr(excerpt)),
      Entry(StrKey("post_type"), JStr(postType)),
      Entry(StrKey("post_status"), JStr(status)),
      Entry(StrKey("meta"), meta)
    ]);
    assert r.entries[6].value == meta;
    assert forall i :: 0 <= i < 6 ==> r.entries[i].value.JInt? || r.entries[i].value.JStr?;
    r
  }

  /** A document whose `ID`, `post_title` and `post_type` entries sit where `PostFields` puts them. */
  lemma ReadBackFields(es: seq<Entry>, id: int, title: string, postType: string)
    requires |es| == 7
    requires es[0] == Entry(StrKey("ID"), JInt(id))
    requires es[1] == Entry(StrKey("post_title"), JStr(title))
    requires es[2].key == StrKey("post_content") && es[3].key == StrKey("post_excerpt")
    requires es[4] == Entry(StrKey("post_type"), JStr(postType))
    ensures Importable(JArr(es))
    ensures Lookup(es, StrKey("ID")) == Some(JInt(id))
    ensures Lookup(es, StrKey("post_type")) == Some(JStr(postType))
    ensures Lookup(es, StrKey("post_title")) == Some(JStr(title))
  {
    LookupAt(es, 0, StrKey("ID"));
    LookupAt(es, 4, StrKey("post_type"));
    LookupAt(es, 1, StrKey("post_title"));
  }

  /**
   * Sanitising a document laid out as `PostFields` lays it out keeps the
   * three required fields where they are, with the type and title stripped.
   */
  lemma SanitizedReadBack(r: Json, id: int, title: string, postType: string)
    requires r.JArr? && |r.entries| == 7
    requires r.entries[0] == Entry(StrKey("ID"), JInt(id))
    requires r.entries[1] == Entry(StrKey("post_title"), JStr(title))
    requires r.entries[2].key == StrKey("post_content") && r.entries[3].key == StrKey("post_excerpt")
    requires r.entries[4] == Entry(StrKey("post_type"), JStr(postType))
    ensures var d := SanitizeJson(r);
      && Importable(d)
      && Lookup(d.entries, StrKey("ID")) == Some(JInt(id))
      && Lookup(d.entries, StrKey("post_type")) == Some(JStr(StripControl(postType)))
      && Lookup(d.entries, StrKey("post_title")) == Some(JStr(StripControl(title)))
  {
    var d := SanitizeJson(r);
    assert StrippedCopy(r, d);
    assert forall i :: 0 <= i < 7 ==>
      d.entries[i].key == r.entries[i].key && StrippedCopy(r.entries[i].value, d.entries[i].value);
    ReadBackFields(d.entries, id, StripControl(title), StripControl(postType));
  }

  /**
   * The seven-field document carries the three fields the importer requires:
   * the id, type and title as given.
   */
  lemma PostFieldsReadBack(id: int, title: string, content: string, excerpt: string,
                           postType: string, status: string, meta: Json)
    ensures var r := PostFields(id, title, content, excerpt, postType, status, meta);
      && Importable(r)
      && Lookup(r.entries, StrKey("ID")) == Some(JInt(id))
      && Lookup(r.entries, StrKey("post_type")) == Some(JStr(postType))
      && Lookup(r.entries, StrKey("post_title")) == Some(JStr(title))
  {
    var r := PostFields(id, title, content, excerpt, postType, status, meta);
    ReadBackFields(r.entries, id, title, postType);
  }

  /** Lines 70-78: the document built for one post, before the final sanitising pass. */
  function PostDocument(wp: WordPress, post: Post): (r: Json)
    ensures r.JArr? && |r.entries| == 7
  {
    PostFields(if post.id < 0 then -post.id else post.id,
      wp.textField(post.title), wp.kses(post.content), wp.textareaField(post.excerpt),
      wp.textField(post.postType), wp.textField(post.status),
      MetaToJson(SanitizePostMeta(wp, post.meta)))
  }

  /** When no meta value unserialises to an object, the document holds none. */
  lemma PostDocumentObjectFree(wp: WordPress, post: Post)
    ensures MetaObjectFree(wp, post.meta) ==> NoObjects(PostDocument(wp, post))
  {
    if MetaObjectFree(wp, post.meta) {
      var m := SanitizePostMeta(wp, post.meta);
      forall i | 0 <= i < |m| ensures NoObjects(ListToJson(m[i].value)) {
        GetAt(m, i);
        assert m[i].key in Keys(m);
        MetaValuesObjectFree(wp, post.meta, m[i].key);
      }
      assert NoObjects(MetaToJson(m));
    }
  }

  /**
   * The document written for an allowed post has seven top-level fields; its
   * strings are free of control characters when no meta value unserialises to
   * an object (`dbvc_sanitize_json_data` leaves objects as they are).
   */
  lemma ExportedDocument(wp: WordPress, post: Post)
    ensures var d := SanitizeJson(PostDocument(wp, post));
      d.JArr? && |d.entries| == 7 && (MetaObjectFree(wp, post.meta) ==> Clean(d))
  {
    PostDocumentObjectFree(wp, post);
  }

  /**
   * Export, then read back: the written document passes the importer's
   * required-fields test, and its `ID`, `post_type` and `post_title` are the
   * post's id and its sanitised type and title.
   */
  lemma ExportReadsBack(wp: WordPress, post: Post)
    ensures var d := SanitizeJson(PostDocument(wp, post));
      && Importable(d)
      && Lookup(d.entries, StrKey("ID")) == Some(JInt(if post.id < 0 then -post.id else post.id))
      && Lookup(d.entries, StrKey("post_type")) == Some(JStr(StripControl(wp.textField(post.postType))))
      && Lookup(d.entries, StrKey("post_title")) == Some(JStr(StripControl(wp.textField(post.title))))
  {
    var r := PostDocument(wp, post);
    SanitizedReadBack(r, if post.id < 0 then -post.id else post.id, wp.textField(post.title), wp.textField(post.postType));
  }

  /**
   * `export_post_to_json`: the file it writes, or `None` when it returns
   * early. Directory creation, JSON encoding and the write itself are taken
   * to succeed.
   */
  function ExportPost(wp: WordPress, post: Post): (r: Option<ExportFile>)
    ensures r.Some? <==> ExportAllowed(wp, post) && IsSafeFilePath(PostFilePath(wp, post), wp.underRoot)
    ensures r.Some? ==> r.value.path == PostFilePath(wp, post)
    ensures r.Some? ==> r.value.data == SanitizeJson(PostDocument(wp, post))
    ensures r.Some? ==> Importable(r.value.data)
    ensures r.Some? && MetaObjectFree(wp, post.meta) ==> Clean(r.value.data)
  {
    if !ExportAllowed(wp, post) then None
    else
      var path := PostFilePath(wp, post);
      if !IsSafeFilePath(path, wp.underRoot) then None
      else
        ExportedDocument(wp, post);
        ExportReadsBack(wp, post);
        Some(ExportFile(path, SanitizeJson(PostDocument(wp, post))))
  }

  /** `<type>-<id>.json` holds no slash when the type holds none, and ends in `.json`. */
  lemma PostFileNameShape(post: Post)
    requires post.id > 0 && Slash !in post.postType
    ensures Slash !in PostFileName(post) && EndsWith(PostFileName(post), ".json")
  {
    var name := PostFileName(post);
    var digits := NatToString(post.id);
    var tail := "-" + digits + ".json";
    assert name == post.postType + tail;
    assert Slash !in tail by {
      forall k | 0 <= k < |tail| ensures tail[k] != Slash {
        if 1 <= k < 1 + |digits| {
          assert tail[k] == digits[k - 1];
        }
      }
    }
    assert name[|name| - 5..] == ".json";
  }

  lemma ConcatAssoc(a: string, b: string, c: string, d: string, e: string)
    ensures a + (b + c + d + e) == a + b + c + d + e
  {
  }

  lemma ToLowerJson()
    ensures ToLower("json") == "json"
  {
    assert ToLower("json")[0] == 'j';
    assert ToLower("json")[1] == 's';
    assert ToLower("json")[2] == 'o';
    assert ToLower("json")[3] == 'n';
  }

  /**
   * With `sanitize_file_name` leaving the name alone, the post lands in
   * `<sync>/<type>/<type>-<id>.json`, and the extension check passes.
   */
  lemma PostFileNaming(wp: WordPress, post: Post)
    requires post.id > 0 && Slash !in post.postType
    requires wp.paths.sanitizeFileName(PostFileName(post)) == PostFileName(post)
    ensures PostFilePath(wp, post)
      == GetSyncPath(wp.paths, post.postType) + post.postType + "-" + NatToString(post.id) + ".json"
    ensures ToLower(Extension(PostFilePath(wp, post))) == "json"
  {
    var dir := GetSyncPath(wp.paths, post.postType);
    var name := PostFileName(post);
    var digits := NatToString(post.id);
    assert PostFilePath(wp, post) == dir + name;
    ConcatAssoc(dir, post.postType, "-", digits, ".json");
    PostFileNameShape(post);
    ExtensionOfJsonFile(dir, name);
    ToLowerJson();
  }

  /** Two posts of one type with different ids get different file names. */
  lemma PostFileNamesDistinct(p: Post, q: Post)
    requires p.id > 0 && q.id > 0 && p.postType == q.postType && p.id != q.id
    ensures PostFileName(p) != PostFileName(q)
  {
    var a := NatToString(p.id);
    var b := NatToString(q.id);
    var n := |p.postType| + 1;
    if PostFileName(p) == PostFileName(q) {
      assert PostFileName(p)[n..|PostFileName(p)| - 5] == a;
      assert PostFileName(q)[n..|PostFileName(q)| - 5] == b;
      NatToStringInjective(p.id, q.id);
    }
  }

  // ---------------------------------------------------------------------
  // export_options_to_json
  // ---------------------------------------------------------------------

  /** Lines 180-188: option keys never exported. */
  const ExcludedOptionKeys: seq<string> := [
    "siteurl", "home", "blogname", "blogdescription",
    "admin_email", "users_can_register", "start_of_week", "upload_path",
    "upload_url_path", "cron", "recently_edited", "rewrite_rules",
    "auth_key", "auth_salt", "logged_in_key", "logged_in_salt",
    "nonce_key", "nonce_salt", "secure_auth_key", "secure_auth_salt",
    "secret_key", "db_version", "initial_db_version"
  ]

  /** No stored option value unserialises to a value holding an object. */
  predicate OptionsObjectFree(wp: WordPress, opts: seq<Pair<string>>) {
    forall i :: 0 <= i < |opts| ==> UnserialisesObjectFree(wp, opts[i].value)
  }

  /**
   * One option value: unserialised when serialised, then sanitised. Plain
   * text loses exactly its control characters; an unserialised value is
   * clean unless it holds an object.
   */
  function SanitizeOptionValue(wp: WordPress, v: string): (r: Json)
    ensures wp.unserialize(v).None? ==> r == JStr(StripControl(v))
    ensures wp.unserialize(v).Some? ==> StrippedCopy(wp.unserialize(v).value, r)
    ensures UnserialisesObjectFree(wp, v) ==> Clean(r)
  {
    match wp.unserialize(v)
    case Some(u) => SanitizeJson(u)
    case None => SanitizeJson(JStr(v))
  }

  /** `sanitize_options_data`: keys through `sanitize_text_field`, a later colliding key overwriting. */
  function SanitizeOptions(wp: WordPress, opts: seq<Pair<string>>): (r: seq<Pair<Json>>)
    ensures DistinctKeys(r)
    ensures Keys(r) == set i | 0 <= i < |opts| :: wp.textField(opts[i].key)
  {
    if |opts| == 0 then []
    else
      var init := opts[..|opts| - 1];
      var last := opts[|opts| - 1];
      assert (set i | 0 <= i < |opts| :: wp.textField(opts[i].key))
        == (set i | 0 <= i < |init| :: wp.textField(init[i].key)) + {wp.textField(last.key)} by {
        assert forall i :: 0 <= i < |init| ==> init[i] == opts[i];
      }
      Put(SanitizeOptions(wp, init), wp.textField(last.key), SanitizeOptionValue(wp, last.value))
  }

  function OptionsToJson(m: seq<Pair<Json>>): (r: Json) {
    JArr(seq(|m|, i requires 0 <= i < |m| => Entry(StrKey(m[i].key), m[i].value)))
  }

  /** The options that survive the exclusion list, sanitised. */
  function ExportedOptions(wp: WordPress, all: seq<Pair<string>>): (r: seq<Pair<Json>>) {
    SanitizeOptions(wp, DiffKeys(all, ExcludedOptionKeys))
  }

  /**
   * The exported keys are exactly the sanitised keys of the options not on
   * the exclusion list.
   */
  lemma ExportedOptionKeys(wp: WordPress, all: seq<Pair<string>>)
    ensures Keys(ExportedOptions(wp, all))
      == set k | k in Keys(all) && k !in ExcludedOptionKeys :: wp.textField(k)
  {
    SanitizedDiffKeys(wp, all, ExcludedOptionKeys);
  }

  /** The keys left by `array_diff_key` against any list, then sanitised. */
  lemma SanitizedDiffKeys(wp: WordPress, all: seq<Pair<string>>, excluded: seq<string>)
    ensures Keys(SanitizeOptions(wp, DiffKeys(all, excluded)))
      == set k | k in Keys(all) && k !in excluded :: wp.textField(k)
  {
    var d := DiffKeys(all, excluded);
    var lhs := Keys(SanitizeOptions(wp, d));
    var rhs := set k | k in Keys(all) && k !in excluded :: wp.textField(k);
    forall x | x in lhs ensures x in rhs {
      var i :| 0 <= i < |d| && wp.textField(d[i].key) == x;
      assert d[i].key in Keys(d);
    }
    forall x | x in rhs ensures x in lhs {
      var k :| k in Keys(all) && k !in excluded && wp.textField(k) == x;
      assert k in Keys(d);
      var i :| 0 <= i < |d| && d[i].key == k;
    }
  }

  /**
   * When `sanitize_text_field` leaves the keys alone, no excluded option is
   * exported and every other option is, exactly the difference of the key sets.
   */
  lemma ExcludedOptionsNeverExported(wp: WordPress, all: seq<Pair<string>>)
    requires forall k :: k in Keys(all) ==> wp.textField(k) == k
    ensures Keys(ExportedOptions(wp, all)) == Keys(all) - set x | x in ExcludedOptionKeys
  {
    ExportedOptionKeys(wp, all);
  }

  /**
   * Every value the options export holds has been through the sanitiser:
   * it is clean when no option unserialises to an object.
   */
  lemma {:induction false} OptionValuesClean(wp: WordPress, opts: seq<Pair<string>>, k: string)
    requires k in Keys(SanitizeOptions(wp, opts))
    ensures OptionsObjectFree(wp, opts) ==> Clean(Get(SanitizeOptions(wp, opts), k).value)
  {
    if OptionsObjectFree(wp, opts) {
      var init := opts[..|opts| - 1];
      var last := opts[|opts| - 1];
      if k != wp.textField(last.key) {
        assert OptionsObjectFree(wp, init) by {
          assert forall i :: 0 <= i < |init| ==> init[i] == opts[i];
        }
        OptionValuesClean(wp, init, k);
      } else {
        assert UnserialisesObjectFree(wp, opts[|opts| - 1].value);
      }
    }
  }

  /** Dropping options keeps the remaining ones free of objects. */
  lemma DiffKeysObjectFree(wp: WordPress, all: seq<Pair<string>>, excluded: seq<string>)
    requires OptionsObjectFree(wp, all)
    ensures OptionsObjectFree(wp, DiffKeys(all, excluded))
  {
    var d := DiffKeys(all, excluded);
    forall i | 0 <= i < |d| ensures UnserialisesObjectFree(wp, d[i].value) {
      DiffKeysSubset(all, excluded, d[i]);
      var j :| 0 <= j < |all| && all[j] == d[i];
      assert UnserialisesObjectFree(wp, all[j].value);
    }
  }

  /** The options document holds no control character in any string when no option unserialises to an object. */
  lemma OptionsDocumentClean(wp: WordPress, all: seq<Pair<string>>)
    ensures OptionsObjectFree(wp, all) ==> Clean(OptionsToJson(ExportedOptions(wp, all)))
  {
    if OptionsObjectFree(wp, all) {
      var m := ExportedOptions(wp, all);
      DiffKeysObjectFree(wp, all, ExcludedOptionKeys);
      forall i | 0 <= i < |m| ensures Clean(m[i].value) {
        GetAt(m, i);
        assert m[i].key in Keys(m);
        OptionValuesClean(wp, DiffKeys(all, ExcludedOptionKeys), m[i].key);
      }
    }
  }

  /**
   * A serialised option holding an object whose string property carries a
   * control character is written with that character.
   */
  lemma OptionObjectKeepsControl(wp: WordPress, v: string, ps: seq<Entry>, i: nat)
    requires wp.unserialize(v) == Some(JObject(ps))
    requires i < |ps| && ps[i].value.JStr? && !NoControl(ps[i].value.s)
    ensures !Clean(SanitizeOptionValue(wp, v))
  {
    ObjectKeepsControl(ps, i);
  }

  /** The file `export_options_to_json` writes. */
  function OptionsFilePath(wp: WordPress): (r: string) {
    GetSyncPath(wp.paths, "") + "options.json"
  }

  /** `export_options_to_json`: `None` when it returns early. */
  function ExportOptions(wp: WordPress, all: seq<Pair<string>>): (r: Option<ExportFile>)
    ensures r.Some? <==> (wp.isCli || wp.canManageOptions) && IsSafeFilePath(OptionsFilePath(wp), wp.underRoot)
    ensures r.Some? ==> r.value.path == SyncBase(wp.paths) + "options.json"
    ensures r.Some? ==> r.value.data == OptionsToJson(ExportedOptions(wp, all))
    ensures r.Some? && OptionsObjectFree(wp, all) ==> Clean(r.value.data)
  {
    if !wp.isCli && !wp.canManageOptions then None
    else
      var path := OptionsFilePath(wp);
      if !IsSafeFilePath(path, wp.underRoot) then None
      else
        OptionsDocumentClean(wp, all);
        Some(ExportFile(path, OptionsToJson(ExportedOptions(wp, all))))
  }

  // ---------------------------------------------------------------------
  // wp_count_posts_by_type
  // ---------------------------------------------------------------------

  /**
   * `wp_count_posts_by_type`: `counts(t)` stands for the per-status numbers
   * `wp_count_posts(t)` reports; every status is added up.
   */
  function CountPostsByType(types: seq<string>, counts: string -> seq<nat>): (r: nat)
    ensures forall i :: 0 <= i < |types| ==> Sum(counts(types[i])) <= r
  {
    if |types| == 0 then 0
    else CountPostsByType(types[..|types| - 1], counts) + Sum(counts(types[|types| - 1]))
  }

  /** The count is the sum of all per-status numbers of all types, taken together. */
  lemma {:induction false} CountIsFlatSum(types: seq<string>, counts: string -> seq<nat>)
    ensures CountPostsByType(types, counts)
      == Sum(Flatten(seq(|types|, i requires 0 <= i < |types| => counts(types[i]))))
  {
    if |types| > 0 {
      var init := types[..|types| - 1];
      var all := seq(|types|, i requires 0 <= i < |types| => counts(types[i]));
      var front := seq(|init|, i requires 0 <= i < |init| => counts(init[i]));
      assert all[..|all| - 1] == front;
      CountIsFlatSum(init, counts);
      SumAppend(Flatten(front), counts(types[|types| - 1]));
    }
  }

  // ---------------------------------------------------------------------
  // export_posts_batch
  // ---------------------------------------------------------------------

  /** The files `export_post_to_json` writes for a list of posts, in order. */
  function ExportPosts(wp: WordPress, posts: seq<Post>): (r: seq<ExportFile>)
    ensures |r| <= |posts|
  {
    Collect((p: Post) => ExportPost(wp, p), posts)
  }

  /**
   * The list export misses no post and keeps their order: extending the list
   * by one post adds exactly that post's file, if `export_post_to_json`
   * writes one, at the end.
   */
  lemma ExportPostsInOrder(wp: WordPress, posts: seq<Post>, i: nat)
    requires i < |posts|
    ensures ExportPosts(wp, posts[..i + 1]) == ExportPosts(wp, posts[..i])
      + (if ExportPost(wp, posts[i]).Some? then [ExportPost(wp, posts[i]).value] else [])
  {
    CollectSnoc((p: Post) => ExportPost(wp, p), posts, i);
  }

  /** Every post `export_post_to_json` writes a file for has that file in the list export. */
  lemma ExportPostsComplete(wp: WordPress, posts: seq<Post>, i: nat)
    requires i < |posts| && ExportPost(wp, posts[i]).Some?
    ensures ExportPost(wp, posts[i]).value in ExportPosts(wp, posts)
  {
    CollectComplete((p: Post) => ExportPost(wp, p), posts, i);
  }

  /** Every file the list export writes is one `export_post_to_json` writes for a post of the list. */
  lemma {:induction false} ExportPostsSound(wp: WordPress, posts: seq<Post>)
    ensures forall f :: f in ExportPosts(wp, posts) ==> exists i :: 0 <= i < |posts| && ExportPost(wp, posts[i]) == Some(f)
  {
    if |posts| > 0 {
      ExportPostsSound(wp, posts[1..]);
      forall f | f in ExportPosts(wp, posts)
        ensures exists i :: 0 <= i < |posts| && ExportPost(wp, posts[i]) == Some(f)
      {
        if ExportPost(wp, posts[0]) == Some(f) {
        } else {
          assert f in ExportPosts(wp, posts[1..]);
          var j :| 0 <= j < |posts[1..]| && ExportPost(wp, posts[1..][j]) == Some(f);
          assert posts[j + 1] == posts[1..][j];
        }
      }
    }
  }

  /**
   * `export_posts_batch($batch_size, $offset)`. `posts` is the full ordered
   * result of the `get_posts` query over the supported types with status
   * `any`, which the call pages through; `counts` feeds the total. Every
   * post of the page counts as processed, exported or not.
   */
  function ExportBatch(wp: WordPress, posts: seq<Post>, counts: string -> seq<nat>, batchSize: nat, offset: nat)
    : (r: Batch<ExportFile>)
    requires batchSize > 0
    ensures r.cursor == PageCursor(|posts|, CountPostsByType(SupportedPostTypes(wp.selectedTypes), counts), batchSize, offset)
    ensures r.output == ExportPosts(wp, Slice(posts, offset, batchSize))
  {
    var page := Slice(posts, offset, batchSize);
    var total := CountPostsByType(SupportedPostTypes(wp.selectedTypes), counts);
    Batch(Advance(|page|, total, offset), ExportPosts(wp, page))
  }

  // ---------------------------------------------------------------------
  // import_posts_batch
  // ---------------------------------------------------------------------

  /**
   * Lines 454-461: a decoded file that is imported rather than skipped. Such
   * a file is an array with a non-null `ID` entry.
   */
  predicate Importable(doc: Json)
    ensures Importable(doc) ==>
      && doc.JArr?
      && exists i :: 0 <= i < |doc.entries| && doc.entries[i].key == StrKey("ID") && doc.entries[i].value != JNull
  {
    !PhpEmpty(doc) && IsSet(doc, "ID") && IsSet(doc, "post_type") && IsSet(doc, "post_title")
  }

  /** The `empty($json)` test is implied by the required-fields test. */
  lemma RequiredFieldsImplyNonEmpty(doc: Json)
    requires IsSet(doc, "ID")
    ensures !PhpEmpty(doc)
  {
  }

  /**
   * Lines 440-446: the files of every supported type's folder, one folder
   * after another. A file is collected exactly when some supported type's
   * folder lists it.
   */
  function CollectFiles(wp: WordPress, listing: string -> seq<string>): (r: seq<string>)
    ensures forall f :: f in r <==>
      exists i :: 0 <= i < |SupportedPostTypes(wp.selectedTypes)|
        && f in listing(GetSyncPath(wp.paths, SupportedPostTypes(wp.selectedTypes)[i]))
  {
    FlatMap((t: string) => listing(GetSyncPath(wp.paths, t)), SupportedPostTypes(wp.selectedTypes))
  }

  /**
   * Lines 449-493 on the decoded files: the page is `array_slice(docs,
   * offset, batchSize)`, and only the importable documents of it are
   * inserted and counted.
   */
  function ImportPage(docs: seq<Json>, batchSize: nat, offset: nat): (r: Batch<Json>)
    ensures r.output == Filter(Importable, Slice(docs, offset, batchSize))
    ensures r.cursor.processed == |r.output| <= Min(batchSize, Max0(|docs| - offset))
    ensures r.cursor.total == |docs|
    ensures r.cursor.offset == offset + r.cursor.processed
    ensures r.cursor.remaining == Max0(|docs| - r.cursor.offset)
  {
    var page := Slice(docs, offset, batchSize);
    var imported := Filter(Importable, page);
    Batch(Advance(|imported|, |docs|, offset), imported)
  }

  /**
   * The collected files, decoded: `read(file)` stands for
   * `json_decode(file_get_contents(file), true)` (`JNull` when the file does
   * not decode).
   */
  function DecodedFiles(wp: WordPress, listing: string -> seq<string>, read: string -> Json): (r: seq<Json>)
    ensures |r| == |CollectFiles(wp, listing)|
  {
    var files := CollectFiles(wp, listing);
    seq(|files|, i requires 0 <= i < |files| => read(files[i]))
  }

  /**
   * `import_posts_batch($batch_size, $offset)`. `listing(dir)` stands for
   * `glob(dir . '*.json')`.
   */
  function ImportBatch(wp: WordPress, listing: string -> seq<string>, read: string -> Json,
                       batchSize: nat, offset: nat): (r: Batch<Json>)
    ensures r.cursor.total == |CollectFiles(wp, listing)|
    ensures r.cursor.processed <= batchSize
  {
    ImportPage(DecodedFiles(wp, listing, read), batchSize, offset)
  }

  /**
   * A page in which no file is importable leaves the cursor where it was,
   * with `processed` 0 even though files remain.
   */
  lemma SkippedPageStalls(docs: seq<Json>, batchSize: nat, offset: nat)
    requires offset < |docs|
    requires forall i :: 0 <= i < |Slice(docs, offset, batchSize)| ==> !Importable(Slice(docs, offset, batchSize)[i])
    ensures ImportPage(docs, batchSize, offset).cursor.processed == 0
    ensures ImportPage(docs, batchSize, offset).cursor.offset == offset
    ensures ImportPage(docs, batchSize, offset).cursor.remaining > 0
  {
    FilterAllOrNone(Importable, Slice(docs, offset, batchSize));
  }

  /**
   * `import_all_json_files`, the single-pass import: every file that decodes
   * to something non-empty is inserted, with no required-fields check.
   */
  function ImportAllFiles(docs: seq<Json>): (r: seq<Json>)
    ensures forall i :: 0 <= i < |r| ==> !PhpEmpty(r[i]) && r[i] in docs
    ensures forall i :: 0 <= i < |docs| && !PhpEmpty(docs[i]) ==> docs[i] in r
  {
    FilterSound((d: Json) => !PhpEmpty(d), docs);
    forall i | 0 <= i < |docs| && !PhpEmpty(docs[i])
      ensures docs[i] in Filter((d: Json) => !PhpEmpty(d), docs)
    {
      FilterComplete((d: Json) => !PhpEmpty(d), docs, i);
    }
    Filter((d: Json) => !PhpEmpty(d), docs)
  }

  /** The batch import's test is stricter: it never inserts more files than the single-pass import. */
  lemma BatchImportStricter(docs: seq<Json>)
    ensures |Filter(Importable, docs)| <= |ImportAllFiles(docs)|
  {
    FilterWeaker(Importable, (d: Json) => !PhpEmpty(d), docs);
  }

  // ---------------------------------------------------------------------
  // The import batch as evidently intended
  // ---------------------------------------------------------------------

  /**
   * The import page with every examined file counted as processed, as
   * `export_posts_batch` counts every post of its page: the cursor moves past
   * skipped files instead of reading them again.
   */
  function CorrectedImportPage(docs: seq<Json>, batchSize: nat, offset: nat): (r: Batch<Json>)
    ensures r.output == Filter(Importable, Slice(docs, offset, batchSize))
    ensures r.cursor.processed == Min(batchSize, Max0(|docs| - offset))
    ensures r.cursor.offset == offset + r.cursor.processed
    ensures r.cursor.remaining == Max0(|docs| - r.cursor.offset)
    ensures r.cursor == PageCursor(|docs|, |docs|, batchSize, offset)
  {
    var page := Slice(docs, offset, batchSize);
    Batch(Advance(|page|, |docs|, offset), Filter(Importable, page))
  }
}
