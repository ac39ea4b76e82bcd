/**
 * PHP values as they travel through the exporter: the associative arrays
 * that `json_decode(..., true)` produces and `wp_json_encode` consumes, and
 * `dbvc_sanitize_json_data`, which strips control characters from every
 * string inside such a value (includes/functions.php).
 */
module JsonData {
  import opened Wrappers
  import opened PhpStrings

  /** A PHP array key: an integer or a string. */
  datatype Key = IntKey(i: int) | StrKey(s: string)

  /**
   * A PHP value. Arrays and objects are ordered lists of key/value entries
   * (an object's entries are its public properties). Decoding a file with
   * `json_decode(..., true)` never yields an object; `maybe_unserialize` on a
   * stored meta or option value can.
   */
  datatype Json =
    | JNull
    | JBool(b: bool)
    | JInt(i: int)
    | JStr(s: string)
    | JArr(entries: seq<Entry>)
    | JObject(props: seq<Entry>)

  datatype Entry = Entry(key: Key, value: Json)

  /** PHP's `empty()`: null, false, 0, "", "0" and the empty array. */
  predicate PhpEmpty(j: Json) {
    match j
    case JNull => true
    case JBool(b) => !b
    case JInt(i) => i == 0
    case JStr(s) => PhpEmptyString(s)
    case JArr(es) => es == []
    case JObject(_) => false
  }

  /** `$a[k]`: the value stored under the first entry with key `k`. */
  function Lookup(es: seq<Entry>, k: Key): (r: Option<Json>)
    ensures r.Some? <==> exists i :: 0 <= i < |es| && es[i].key == k
    ensures r.Some? ==> exists i :: 0 <= i < |es| && es[i] == Entry(k, r.value)
  {
    if |es| == 0 then None
    else if es[0].key == k then Some(es[0].value)
    else
      var r := Lookup(es[1..], k);
      assert forall i :: 1 <= i < |es| ==> es[i] == es[1..][i - 1];
      r
  }

  /** The entry found is the first one carrying the key. */
  lemma {:induction false} LookupAt(es: seq<Entry>, i: nat, k: Key)
    requires i < |es| && es[i].key == k
    requires forall j :: 0 <= j < i ==> es[j].key != k
    ensures Lookup(es, k) == Some(es[i].value)
  {
    if i > 0 {
      assert es[1..][i - 1] == es[i];
      LookupAt(es[1..], i - 1, k);
    }
  }

  /** `isset($j[k])` for a string key: `$j` is an array and holds a non-null value under `k`. */
  predicate IsSet(j: Json, k: string) {
    j.JArr? && var v := Lookup(j.entries, StrKey(k)); v.Some? && v.value != JNull
  }

  // ---------------------------------------------------------------------
  // preg_replace('/[\x00-\x08\x0B\x0C\x0E-\x1F\x7F]/', '', s)
  // ---------------------------------------------------------------------

  /** The characters the sanitiser deletes; tab (0x09), LF (0x0A) and CR (0x0D) are not among them. */
  predicate IsControl(c: char) {
    c as int <= 0x08 || c as int == 0x0B || c as int == 0x0C
    || (0x0E <= c as int <= 0x1F) || c as int == 0x7F
  }

  predicate NoControl(s: string) {
    forall i :: 0 <= i < |s| ==> !IsControl(s[i])
  }

  /** The string with every control character removed. */
  function StripControl(s: string): (r: string)
    ensures NoControl(r)
    ensures forall c :: multiset(r)[c] == if IsControl(c) then 0 else multiset(s)[c]
    ensures NoControl(s) ==> r == s
  {
    if |s| == 0 then ""
    else
      assert s == [s[0]] + s[1..];
      var t := StripControl(s[1..]);
      if IsControl(s[0]) then t else [s[0]] + t
  }

  /**
   * Stripping works character by character: the result for `a + b` is the
   * result for `a` followed by the result for `b`. With the ensures of
   * `StripControl` on single characters this fixes the order of what survives.
   */
  lemma {:induction false} StripControlAppend(a: string, b: string)
    ensures StripControl(a + b) == StripControl(a) + StripControl(b)
  {
    if |a| > 0 {
      var x, t := a[0], a[1..];
      assert a == [x] + t;
      assert a + b == [x] + (t + b);
      StripControlCons(x, t);
      StripControlCons(x, t + b);
      StripControlAppend(t, b);
    } else {
      assert a + b == b;
    }
  }

  /** Stripping a string with a first character in front. */
  lemma StripControlCons(x: char, t: string)
    ensures StripControl([x] + t) == (if IsControl(x) then "" else [x]) + StripControl(t)
  {
    assert ([x] + t)[1..] == t;
  }

  lemma StripControlIdempotent(s: string)
    ensures StripControl(StripControl(s)) == StripControl(s)
  {
  }

  // ---------------------------------------------------------------------
  // dbvc_sanitize_json_data
  // ---------------------------------------------------------------------

  /**
   * `b` is `a` with every string leaf reached through arrays replaced by its
   * stripped text: the same constructors, the same keys in the same order at
   * every array level, objects and non-string scalars equal.
   */
  predicate StrippedCopy(a: Json, b: Json)
    decreases a
  {
    match a
    case JStr(s) => b == JStr(StripControl(s))
    case JArr(es) =>
      b.JArr? && |b.entries| == |es|
      && forall i :: 0 <= i < |es| ==>
        b.entries[i].key == es[i].key && StrippedCopy(es[i].value, b.entries[i].value)
    case _ => b == a
  }

  /** No object anywhere in the value. */
  predicate NoObjects(j: Json)
    decreases j
  {
    match j
    case JArr(es) => forall i :: 0 <= i < |es| ==> NoObjects(es[i].value)
    case JObject(_) => false
    case _ => true
  }

  /**
   * No string value anywhere in the value, inside arrays or objects, holds a
   * control character. Keys are not looked at: the sanitiser never touches them.
   */
  predicate Clean(j: Json)
    decreases j
  {
    match j
    case JStr(s) => NoControl(s)
    case JArr(es) => forall i :: 0 <= i < |es| ==> Clean(es[i].value)
    case JObject(ps) => forall i :: 0 <= i < |ps| ==> Clean(ps[i].value)
    case _ => true
  }

  /**
   * `dbvc_sanitize_json_data`: arrays are mapped entry by entry with their
   * keys kept (`array_map` on one array), strings lose their control
   * characters, everything else, objects included, is returned as it is.
   * The result is clean only when the input holds no object.
   */
  function SanitizeJson(j: Json): (r: Json)
    ensures StrippedCopy(j, r)
    ensures NoObjects(r) == NoObjects(j)
    ensures NoObjects(j) ==> Clean(r)
    ensures Clean(j) ==> r == j
    decreases j
  {
    match j
    case JStr(s) => JStr(StripControl(s))
    case JArr(es) =>
      var es' := seq(|es|, i requires 0 <= i < |es| => Entry(es[i].key, SanitizeJson(es[i].value)));
      assert Clean(j) ==> es' == es;
      JArr(es')
    case _ => j
  }

  /**
   * An object is passed through untouched, so a control character inside one
   * of its string properties reaches the written file.
   */
  lemma ObjectKeepsControl(ps: seq<Entry>, i: nat)
    requires i < |ps| && ps[i].value.JStr? && !NoControl(ps[i].value.s)
    ensures SanitizeJson(JObject(ps)) == JObject(ps)
    ensures !Clean(SanitizeJson(JObject(ps)))
  {
  }

  /** A string leaf loses exactly its control characters. */
  lemma SanitizeString(s: string)
    ensures SanitizeJson(JStr(s)).JStr?
    ensures var t := SanitizeJson(JStr(s)).s;
      forall c :: multiset(t)[c] == if IsControl(c) then 0 else multiset(s)[c]
  {
  }

  /** Sanitising twice is sanitising once. */
  lemma SanitizeJsonIdempotent(j: Json)
    ensures SanitizeJson(SanitizeJson(j)) == SanitizeJson(j)
  {
  }
}
