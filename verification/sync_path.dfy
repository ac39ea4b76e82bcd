/**
 * The sync-path resolver of includes/functions.php: `dbvc_validate_sync_path`
 * (sanitise and confine a configured folder), `dbvc_get_sync_path` (compose
 * the base directory and an optional per-type subfolder) and the string
 * checks of `dbvc_is_safe_file_path`.
 */
module SyncPath {
  import opened PhpStrings
  import opened Seqs

  /** `string|false`: what `dbvc_validate_sync_path` returns. */
  datatype Validated = Rejected | Accepted(path: string)

  /** The denylist, in source order; the last entry is `chr(0)`. */
  const DangerousChars: seq<char> := ['<', '>', '"', '|', '?', '*', NUL]

  const AllowedPrefixes: seq<string> :=
    ["wp-content/", "wp-content/plugins/", "wp-content/uploads/", "wp-content/themes/"]

  /** The first six denylist entries: the ones a path can still hold once null bytes are gone. */
  predicate HasVisibleDangerousChar(p: string) {
    exists i :: 0 <= i < 6 && DangerousChars[i] in p
  }

  /** The `foreach` over the denylist finds a character of `list` in `p`. */
  predicate HasListedChar(p: string, list: seq<char>) {
    exists i :: 0 <= i < |list| && list[i] in p
  }

  /** The `foreach` over the allowed prefixes succeeds for `ltrim(p, '/')`. */
  predicate HasAllowedPrefix(p: string) {
    exists i :: 0 <= i < |AllowedPrefixes| && StartsWith(LtrimChar(p, Slash), AllowedPrefixes[i])
  }

  /** The boundary rule: an allowed prefix, or a path that does not start with `/`. */
  predicate IsAllowed(p: string) {
    HasAllowedPrefix(p) || !StartsWith(p, "/")
  }

  /** Backslashes turned into slashes, then runs of slashes collapsed. */
  function Normalize(p: string): (q: string)
    ensures Backslash !in q && !HasDoubleSlash(q)
    ensures |p| > 0 ==> |q| > 0 && (q[0] == Slash <==> IsSlashLike(p[0]))
  {
    var m := ReplaceChar(p, Backslash, Slash);
    CollapseSlashesKeepsChars(m, Backslash);
    CollapseSlashes(m)
  }

  /** `dbvc_validate_sync_path`. */
  function ValidateSyncPath(path: string): (r: Validated)
    ensures PhpEmptyString(path) ==> r == Accepted("")
    ensures r.Accepted? ==> NUL !in r.path && Backslash !in r.path && !HasDoubleSlash(r.path)
    ensures r.Accepted? ==> !HasDotDot(r.path) && !HasListedChar(r.path, DangerousChars)
    ensures r.Accepted? ==> IsAllowed(r.path)
  {
    if PhpEmptyString(path) then Accepted("")
    else
      var p := RemoveChar(path, NUL);
      if HasDotDot(p) then Rejected
      else if HasListedChar(p, DangerousChars) then Rejected
      else
        var q := Normalize(p);
        NormalizeKeepsSafe(p);
        assert DangerousChars[6] == NUL;
        if IsAllowed(q) then Accepted(q) else Rejected
  }

  /** Normalising neither creates `..` nor brings in a denylisted character or a null byte. */
  lemma NormalizeKeepsSafe(p: string)
    requires !HasDotDot(p) && !HasListedChar(p, DangerousChars)
    ensures !HasDotDot(Normalize(p)) && !HasListedChar(Normalize(p), DangerousChars)
  {
    var m := ReplaceChar(p, Backslash, Slash);
    ReplaceCharNoDotDot(p, Backslash, Slash);
    CollapseSlashesNoDotDot(m);
    var q := Normalize(p);
    DangerousCharsAreNotSlashes();
    forall i | 0 <= i < |DangerousChars|
      ensures DangerousChars[i] in q ==> DangerousChars[i] in p
    {
      NormalizeKeepsChars(p, DangerousChars[i]);
    }
    ListedCharsKept(p, q, DangerousChars);
  }

  lemma DangerousCharsAreNotSlashes()
    ensures forall i :: 0 <= i < |DangerousChars| ==> DangerousChars[i] != Slash && DangerousChars[i] != Backslash
  {
  }

  /** A string whose listed characters all come from `p` has a listed character only if `p` has. */
  lemma ListedCharsKept(p: string, q: string, list: seq<char>)
    requires forall i :: 0 <= i < |list| ==> (list[i] in q ==> list[i] in p)
    ensures HasListedChar(q, list) ==> HasListedChar(p, list)
  {
  }

  /** Normalising keeps every character other than the two slashes. */
  lemma NormalizeKeepsChars(p: string, c: char)
    requires c != Slash && c != Backslash
    ensures c in Normalize(p) <==> c in p
  {
    ReplaceCharKeepsChars(p, Backslash, Slash, c);
    CollapseSlashesKeepsChars(ReplaceChar(p, Backslash, Slash), c);
  }

  /** A path holding `..` once null bytes are gone, or one of `< > " | ? *`, is rejected. */
  lemma RejectsTraversalAndDenylisted(path: string)
    requires !PhpEmptyString(path)
    requires HasDotDot(RemoveChar(path, NUL)) || HasVisibleDangerousChar(path)
    ensures ValidateSyncPath(path) == Rejected
  {
    var p := RemoveChar(path, NUL);
    if !HasDotDot(p) {
      var i :| 0 <= i < 6 && DangerousChars[i] in path;
      RemoveCharKeepsChars(path, NUL, DangerousChars[i]);
      assert HasListedChar(p, DangerousChars);
    }
  }

  // ---------------------------------------------------------------------
  // Properties of the validator
  // ---------------------------------------------------------------------

  /**
   * Null bytes are stripped before the denylist is consulted, so the `chr(0)`
   * entry can never fire: the six visible entries decide alone.
   */
  lemma NulEntryUnreachable(path: string)
    ensures var p := RemoveChar(path, NUL);
      HasListedChar(p, DangerousChars) <==> HasVisibleDangerousChar(p)
  {
  }

  /** Of the four allowed prefixes only `wp-content/` matters: the other three start with it. */
  lemma AllowedPrefixesSubsumed(p: string)
    ensures HasAllowedPrefix(p) <==> StartsWith(LtrimChar(p, Slash), "wp-content/")
  {
    var t := LtrimChar(p, Slash);
    if HasAllowedPrefix(p) {
      var i :| 0 <= i < |AllowedPrefixes| && StartsWith(t, AllowedPrefixes[i]);
      AllowedPrefixesStartWithContent(i);
      StartsWithTrans(t, AllowedPrefixes[i], "wp-content/");
    }
    if StartsWith(t, "wp-content/") {
      assert StartsWith(t, AllowedPrefixes[0]);
    }
  }

  /** Every allowed prefix starts with `wp-content/`. */
  lemma AllowedPrefixesStartWithContent(i: nat)
    requires i < |AllowedPrefixes|
    ensures StartsWith(AllowedPrefixes[i], "wp-content/")
  {
    assert AllowedPrefixes[i][..11] == "wp-content/";
  }

  /**
   * The acceptance rule, stated on the input: once null bytes are removed, a
   * non-empty path is accepted exactly when it has no `..`, none of
   * `< > " | ? *`, and either does not start with `/` or `\`, or, normalised
   * and without its leading slashes, starts with `wp-content/`.
   */
  lemma AcceptanceRule(path: string)
    requires !PhpEmptyString(path)
    ensures var p := RemoveChar(path, NUL);
      ValidateSyncPath(path).Accepted? <==>
        && !HasDotDot(p)
        && !HasVisibleDangerousChar(p)
        && (!(|p| > 0 && IsSlashLike(p[0])) || StartsWith(LtrimChar(Normalize(p), Slash), "wp-content/"))
  {
    var p := RemoveChar(path, NUL);
    NulEntryUnreachable(path);
    AllowedPrefixesSubsumed(Normalize(p));
  }

  /** The length of the run of `/` and `\` that starts `s`. */
  function LeadingSeparators(s: string): (n: nat)
    ensures n <= |s|
    ensures forall i :: 0 <= i < n ==> IsSlashLike(s[i])
    ensures n == |s| || !IsSlashLike(s[n])
    ensures |s| > 0 && IsSlashLike(s[0]) ==> n > 0
  {
    if |s| > 0 && IsSlashLike(s[0]) then 1 + LeadingSeparators(s[1..]) else 0
  }

  /**
   * A reference for the two normalising steps, read run by run: each maximal
   * run of `/` and `\` is written as one `/`, every other character is kept
   * in order.
   */
  function OneSlashPerRun(s: string): string
    decreases |s|
  {
    if |s| == 0 then ""
    else if IsSlashLike(s[0]) then "/" + OneSlashPerRun(s[LeadingSeparators(s)..])
    else [s[0]] + OneSlashPerRun(s[1..])
  }

  /** A path that starts with a separator normalises to one `/` and the normalised rest after the run. */
  lemma {:induction false} NormalizeSeparatorHead(s: string)
    requires |s| > 0 && IsSlashLike(s[0])
    ensures Normalize(s) == "/" + Normalize(s[LeadingSeparators(s)..])
    decreases |s|
  {
    var m := ReplaceChar(s, Backslash, Slash);
    var t := s[1..];
    assert s == [s[0]] + t;
    assert m == [Slash] + ReplaceChar(t, Backslash, Slash);
    if |t| > 0 && IsSlashLike(t[0]) {
      assert m[1] == Slash;
      assert m[1..] == ReplaceChar(t, Backslash, Slash);
      NormalizeSeparatorHead(t);
      assert s[LeadingSeparators(s)..] == t[LeadingSeparators(t)..];
    } else {
      assert LeadingSeparators(s) == 1;
      assert m[1..] == ReplaceChar(t, Backslash, Slash);
    }
  }

  /**
   * Normalising is the reference: turning `\` into `/` and collapsing runs of
   * `/` writes every run of separators as exactly one `/` and changes nothing else.
   */
  lemma {:induction false} NormalizeIsOneSlashPerRun(s: string)
    ensures Normalize(s) == OneSlashPerRun(s)
    decreases |s|
  {
    if |s| > 0 {
      if IsSlashLike(s[0]) {
        NormalizeSeparatorHead(s);
        NormalizeIsOneSlashPerRun(s[LeadingSeparators(s)..]);
      } else {
        var m := ReplaceChar(s, Backslash, Slash);
        assert s == [s[0]] + s[1..];
        assert m == [s[0]] + ReplaceChar(s[1..], Backslash, Slash);
        assert m[1..] == ReplaceChar(s[1..], Backslash, Slash);
        NormalizeIsOneSlashPerRun(s[1..]);
      }
    }
  }

  /**
   * The accepted path is the input without its null bytes and with each run
   * of `/` and `\` written as one `/`; nothing else of it changes.
   */
  lemma AcceptedIsNormalized(path: string)
    requires !PhpEmptyString(path) && ValidateSyncPath(path).Accepted?
    ensures ValidateSyncPath(path).path == OneSlashPerRun(RemoveChar(path, NUL))
  {
    NormalizeIsOneSlashPerRun(RemoveChar(path, NUL));
  }

  /**
   * Re-validating an accepted path gives it back unchanged, except for the
   * result "0", which PHP's `empty()` turns into "" on the second pass.
   */
  lemma ValidateIdempotent(path: string)
    requires ValidateSyncPath(path).Accepted?
    requires ValidateSyncPath(path).path != "0"
    ensures ValidateSyncPath(ValidateSyncPath(path).path) == ValidateSyncPath(path)
  {
    var q := ValidateSyncPath(path).path;
    if !PhpEmptyString(q) {
      assert RemoveChar(q, NUL) == q;
      ReplaceCharAbsent(q, Backslash, Slash);
      CollapseSlashesNoop(q);
      assert Normalize(q) == q;
    }
  }

  /** The exception: a path that validates to "0" validates to "" the second time. */
  lemma ZeroIsNotRevalidated()
    ensures ValidateSyncPath(['0', NUL]) == Accepted("0")
    ensures ValidateSyncPath("0") == Accepted("")
  {
    ZeroIsSafe();
  }

  /** "0" with a null byte after it is cleaned to "0", which has nothing to reject and nothing to normalise. */
  lemma ZeroIsSafe()
    ensures RemoveChar(['0', NUL], NUL) == "0"
    ensures !HasDotDot("0") && !HasListedChar("0", DangerousChars)
    ensures Normalize("0") == "0"
  {
    assert ['0', NUL] == ['0'] + [NUL];
    RemoveCharCons('0', [NUL], NUL);
    assert [NUL] == [NUL] + [];
    RemoveCharCons(NUL, [], NUL);
    ZeroHasNoListedChar();
    NormalizeZero();
  }

  lemma ZeroHasNoListedChar()
    ensures !HasListedChar("0", DangerousChars)
  {
    forall i | 0 <= i < |DangerousChars| ensures DangerousChars[i] !in "0" {
      assert DangerousChars[i] != '0';
    }
  }

  lemma NormalizeZero()
    ensures Normalize("0") == "0"
  {
    ReplaceCharAbsent("0", Backslash, Slash);
    CollapseSlashesNoop("0");
  }

  // ---------------------------------------------------------------------
  // dbvc_get_sync_path
  // ---------------------------------------------------------------------

  /**
   * The installation facts `dbvc_get_sync_path` reads: `ABSPATH`, the
   * plugin's own directory, the stored `dbvc_sync_path` option and
   * WordPress's `sanitize_file_name`, which this model does not look inside.
   */
  datatype PathConfig = PathConfig(
    abspath: string,
    pluginPath: string,
    customPath: string,
    sanitizeFileName: string -> string)

  /** The plugin's own `sync/` folder, used when no valid custom folder is configured. */
  function DefaultBase(cfg: PathConfig): (r: string) {
    cfg.pluginPath + "sync/"
  }

  /** A custom folder is in use: the option is non-empty and passes validation. */
  predicate UsesCustomPath(cfg: PathConfig) {
    !PhpEmptyString(cfg.customPath) && ValidateSyncPath(cfg.customPath).Accepted?
  }

  /** Lines 23-41: the base directory, with exactly one trailing slash added. */
  function SyncBase(cfg: PathConfig): (r: string)
    ensures |r| > 0 && r[|r| - 1] == Slash
  {
    var base :=
      if !UsesCustomPath(cfg) then DefaultBase(cfg)
      else TrailingSlashIt(cfg.abspath) + LtrimChar(ValidateSyncPath(cfg.customPath).path, Slash);
    TrailingSlashIt(base)
  }

  /** `dbvc_get_sync_path($subfolder)`. */
  function GetSyncPath(cfg: PathConfig, subfolder: string): (r: string)
    ensures |r| > 0 && r[|r| - 1] == Slash
    ensures StartsWith(r, SyncBase(cfg))
    ensures PhpEmptyString(subfolder) ==> r == SyncBase(cfg)
  {
    var base := SyncBase(cfg);
    if PhpEmptyString(subfolder) then base
    else base + TrailingSlashIt(cfg.sanitizeFileName(subfolder))
  }

  /** With no custom folder, or an invalid one, the base is the plugin's `sync/` folder. */
  lemma InvalidCustomFallsBack(cfg: PathConfig)
    requires PhpEmptyString(cfg.customPath) || ValidateSyncPath(cfg.customPath) == Rejected
    ensures SyncBase(cfg) == DefaultBase(cfg)
  {
    RtrimSlashesAppend(cfg.pluginPath, "sync/", 0);
    assert RtrimSlashes("sync/") == "sync" by {
      assert "sync/"[..4] == "sync";
    }
    assert TrailingSlashIt(DefaultBase(cfg)) == cfg.pluginPath + "sync" + "/";
  }

  /**
   * A valid custom folder `v` is placed under `ABSPATH`: its leading slashes
   * are dropped, its trailing slashes are replaced by one, and nothing else of
   * it changes.
   */
  lemma ValidCustomUnderAbspath(cfg: PathConfig)
    requires UsesCustomPath(cfg)
    ensures var rel := LtrimChar(ValidateSyncPath(cfg.customPath).path, Slash);
      && StartsWith(SyncBase(cfg), TrailingSlashIt(cfg.abspath))
      && (rel == "" ==> SyncBase(cfg) == TrailingSlashIt(cfg.abspath))
      && (rel != "" ==> SyncBase(cfg) == TrailingSlashIt(cfg.abspath) + RtrimSlashes(rel) + "/")
      && (rel != "" ==> rel[0] != Slash && |RtrimSlashes(rel)| > 0)
  {
    var v := ValidateSyncPath(cfg.customPath).path;
    assert SyncBase(cfg) == TrailingSlashIt(TrailingSlashIt(cfg.abspath) + LtrimChar(v, Slash));
    BaseUnderRoot(cfg.abspath, v);
  }

  /** `trailingslashit(trailingslashit(root) . ltrim(v, '/'))` for a folder `v` without backslashes. */
  lemma BaseUnderRoot(root: string, v: string)
    requires Backslash !in v
    ensures var rel := LtrimChar(v, Slash);
      var base := TrailingSlashIt(TrailingSlashIt(root) + rel);
      && StartsWith(base, TrailingSlashIt(root))
      && (rel == "" ==> base == TrailingSlashIt(root))
      && (rel != "" ==> base == TrailingSlashIt(root) + RtrimSlashes(rel) + "/")
      && (rel != "" ==> rel[0] != Slash && |RtrimSlashes(rel)| > 0)
  {
    if LtrimChar(v, Slash) == "" {
      EmptyRelativeBase(root, v);
    } else {
      RelativeBase(root, v);
    }
  }

  lemma EmptyRelativeBase(root: string, v: string)
    requires LtrimChar(v, Slash) == ""
    ensures TrailingSlashIt(TrailingSlashIt(root) + LtrimChar(v, Slash)) == TrailingSlashIt(root)
  {
    var a := TrailingSlashIt(root);
    assert a + LtrimChar(v, Slash) == a;
    TrailingSlashItIdempotent(root);
  }

  lemma RelativeBase(root: string, v: string)
    requires Backslash !in v && LtrimChar(v, Slash) != ""
    ensures var base := TrailingSlashIt(TrailingSlashIt(root) + LtrimChar(v, Slash));
      && base == TrailingSlashIt(root) + RtrimSlashes(LtrimChar(v, Slash)) + "/"
      && StartsWith(base, TrailingSlashIt(root))
      && |RtrimSlashes(LtrimChar(v, Slash))| > 0
  {
    var a := TrailingSlashIt(root);
    RelativeStartsPlain(v);
    TrailingSlashItAppend(a, LtrimChar(v, Slash));
    var t := RtrimSlashes(LtrimChar(v, Slash));
    assert (a + t + "/")[..|a|] == a;
  }

  /** Without backslashes, what is left after `ltrim(v, '/')` starts with a character that is no slash. */
  lemma RelativeStartsPlain(v: string)
    requires Backslash !in v && LtrimChar(v, Slash) != ""
    ensures !IsSlashLike(LtrimChar(v, Slash)[0])
  {
    LtrimCharKeepsAbsent(v, Slash, Backslash);
    var rel := LtrimChar(v, Slash);
    assert rel[0] in rel;
  }

  /** A non-empty subfolder is appended as its sanitised name followed by one `/`. */
  lemma SubfolderAppended(cfg: PathConfig, subfolder: string)
    requires !PhpEmptyString(subfolder)
    requires var name := cfg.sanitizeFileName(subfolder); |name| > 0 && !IsSlashLike(name[|name| - 1])
    ensures GetSyncPath(cfg, subfolder) == SyncBase(cfg) + cfg.sanitizeFileName(subfolder) + "/"
  {
    TrailingSlashItAppends(cfg.sanitizeFileName(subfolder));
    AppendAssoc(SyncBase(cfg), cfg.sanitizeFileName(subfolder), "/");
  }

  // ---------------------------------------------------------------------
  // dbvc_is_safe_file_path
  // ---------------------------------------------------------------------

  /**
   * `dbvc_is_safe_file_path`. `underRoot` stands for the `realpath`
   * containment test of lines 152-157 (the resolved directory of the path lies
   * under the resolved `ABSPATH`), which depends on the filesystem.
   */
  function IsSafeFilePath(path: string, underRoot: string -> bool): (r: bool)
    ensures r ==> NUL !in path && !HasDotDot(path) && underRoot(path)
    ensures r ==> ToLower(Extension(path)) == "json"
  {
    if NUL in path then false
    else if HasDotDot(path) then false
    else if !underRoot(path) then false
    else ToLower(Extension(path)) == "json"
  }

  /**
   * The converse direction for the extension test: a path found safe has a
   * base name ending in `.` and four characters that lower-case to `json`.
   */
  lemma SafePathIsJsonFile(path: string, underRoot: string -> bool)
    requires IsSafeFilePath(path, underRoot)
    ensures var b := Basename(path);
      |b| >= 5 && b[|b| - 5] == '.' && ToLower(b[|b| - 4..]) == "json"
  {
    var e := Extension(path);
    var b := Basename(path);
    assert |e| == 4;
    assert b[|b| - 5..] == "." + e;
    assert b[|b| - 4..] == e;
  }

  /**
   * A `.json` file name placed in a directory is safe exactly when the
   * combined path has no null byte, no `..` and resolves under `ABSPATH`.
   */
  lemma JsonFileSafety(dir: string, name: string, underRoot: string -> bool)
    requires |dir| > 0 && dir[|dir| - 1] == Slash
    requires Slash !in name && EndsWith(name, ".json")
    ensures IsSafeFilePath(dir + name, underRoot) <==>
      NUL !in dir + name && !HasDotDot(dir + name) && underRoot(dir + name)
  {
    ExtensionOfJsonFile(dir, name);
    assert ToLower("json") == "json";
  }
}
