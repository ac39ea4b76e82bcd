/**
 * The PHP string primitives the sync-path code relies on, restated over
 * `seq<char>`: prefix tests (`strpos(...) === 0`), one-character
 * `str_replace`, `ltrim`/`rtrim` with a character list, the run-collapsing
 * `preg_replace('#/+#', '/')`, decimal rendering of a positive integer and
 * `pathinfo(..., PATHINFO_EXTENSION)`.
 */
module PhpStrings {

  const NUL: char := 0 as char
  const Slash: char := '/'
  const Backslash: char := '\\'

  /** `strpos(s, p) === 0` for a non-empty needle `p`. */
  predicate StartsWith(s: string, p: string) {
    |p| <= |s| && s[..|p|] == p
  }

  /** A prefix of a prefix is a prefix. */
  lemma StartsWithTrans(s: string, a: string, b: string)
    requires StartsWith(s, a) && StartsWith(a, b)
    ensures StartsWith(s, b)
  {
    assert s[..|b|] == s[..|a|][..|b|];
  }

  predicate EndsWith(s: string, p: string) {
    |p| <= |s| && s[|s| - |p|..] == p
  }

  /** A concatenation starts with its first part. */
  lemma StartsWithConcat(a: string, b: string)
    ensures StartsWith(a + b, a)
  {
    assert (a + b)[..|a|] == a;
  }

  /** `strpos(s, '..') !== false`. */
  predicate HasDotDot(s: string) {
    exists i :: 0 <= i < |s| - 1 && s[i] == '.' && s[i + 1] == '.'
  }

  /** Two consecutive forward slashes somewhere in `s`. */
  predicate HasDoubleSlash(s: string) {
    exists i :: 0 <= i < |s| - 1 && s[i] == Slash && s[i + 1] == Slash
  }

  /** PHP's `empty()` on a string: true for "" and for "0". */
  predicate PhpEmptyString(s: string) {
    s == "" || s == "0"
  }

  // ---------------------------------------------------------------------
  // str_replace with one-character needles
  // ---------------------------------------------------------------------

  /** `str_replace(c, '', s)`: every occurrence of `c` removed, the rest kept in order. */
  function RemoveChar(s: string, c: char): (r: string)
    ensures c !in r
    ensures forall x :: x != c ==> multiset(r)[x] == multiset(s)[x]
    ensures c !in s ==> r == s
    ensures |r| <= |s|
  {
    if |s| == 0 then ""
    else
      assert s == [s[0]] + s[1..];
      (if s[0] == c then "" else [s[0]]) + RemoveChar(s[1..], c)
  }

  /** `str_replace(a, b, s)` for one-character `a` and `b`. */
  function ReplaceChar(s: string, a: char, b: char): (r: string)
    ensures |r| == |s|
    ensures forall i :: 0 <= i < |s| ==> r[i] == (if s[i] == a then b else s[i])
    ensures a !in r || a == b
  {
    if |s| == 0 then ""
    else [if s[0] == a then b else s[0]] + ReplaceChar(s[1..], a, b)
  }

  /** Replacing one character by another, neither of them a dot, creates no `..`. */
  lemma ReplaceCharNoDotDot(s: string, a: char, b: char)
    requires a != '.' && b != '.' && !HasDotDot(s)
    ensures !HasDotDot(ReplaceChar(s, a, b))
  {
  }

  lemma ReplaceCharAbsent(s: string, a: char, b: char)
    requires a !in s
    ensures ReplaceChar(s, a, b) == s
  {
    var r := ReplaceChar(s, a, b);
    assert forall i :: 0 <= i < |s| ==> r[i] == s[i];
  }

  // ---------------------------------------------------------------------
  // ltrim / rtrim
  // ---------------------------------------------------------------------

  /** `ltrim(s, c)`: the leading run of `c` dropped. */
  function LtrimChar(s: string, c: char): (r: string)
    ensures |r| <= |s| && r == s[|s| - |r|..]
    ensures r == [] || r[0] != c
    ensures forall i :: 0 <= i < |s| - |r| ==> s[i] == c
  {
    if |s| > 0 && s[0] == c then LtrimChar(s[1..], c) else s
  }

  /** `ltrim` only drops characters, so a character absent before is absent after. */
  lemma LtrimCharKeepsAbsent(s: string, c: char, x: char)
    requires x !in s
    ensures x !in LtrimChar(s, c)
  {
  }

  predicate IsSlashLike(c: char) {
    c == Slash || c == Backslash
  }

  /** `rtrim(s, '/\\')`, the first half of WordPress's `trailingslashit`. */
  function RtrimSlashes(s: string): (r: string)
    ensures |r| <= |s| && r == s[..|r|]
    ensures r == [] || !IsSlashLike(r[|r| - 1])
    ensures forall i :: |r| <= i < |s| ==> IsSlashLike(s[i])
  {
    if |s| > 0 && IsSlashLike(s[|s| - 1]) then RtrimSlashes(s[..|s| - 1]) else s
  }

  /** WordPress's `trailingslashit`: trailing slashes and backslashes replaced by exactly one `/`. */
  function TrailingSlashIt(s: string): (r: string)
    ensures |r| >= 1 && r[|r| - 1] == Slash
    ensures |r| - 1 <= |s| && r[..|r| - 1] == s[..|r| - 1]
    ensures |r| == 1 || !IsSlashLike(r[|r| - 2])
    ensures forall i :: |r| - 1 <= i < |s| ==> IsSlashLike(s[i])
  {
    RtrimSlashes(s) + [Slash]
  }

  /** Trimming only removes slash-like characters, so a string ending in another character is kept whole. */
  lemma RtrimSlashesNoop(s: string)
    requires |s| > 0 && !IsSlashLike(s[|s| - 1])
    ensures RtrimSlashes(s) == s
  {
  }

  /** A string that does not end in a slash just gets one `/` appended. */
  lemma TrailingSlashItAppends(s: string)
    requires |s| > 0 && !IsSlashLike(s[|s| - 1])
    ensures TrailingSlashIt(s) == s + "/"
  {
    RtrimSlashesNoop(s);
  }

  /**
   * Appending to a string that ends in `/` and trimming: when the suffix holds
   * a character that is not a slash, the trim never reaches into the prefix.
   */
  lemma {:induction false} RtrimSlashesAppend(a: string, b: string, k: nat)
    requires k < |b| && !IsSlashLike(b[k])
    ensures RtrimSlashes(a + b) == a + RtrimSlashes(b)
    decreases |b|
  {
    if IsSlashLike(b[|b| - 1]) {
      assert (a + b)[..|a + b| - 1] == a + b[..|b| - 1];
      RtrimSlashesAppend(a, b[..|b| - 1], k);
    } else {
      assert (a + b)[|a + b| - 1] == b[|b| - 1];
    }
  }

  /** `trailingslashit(a . b)` when `b` starts with a character that is not a slash. */
  lemma TrailingSlashItAppend(a: string, b: string)
    requires b != "" && !IsSlashLike(b[0])
    ensures TrailingSlashIt(a + b) == a + RtrimSlashes(b) + "/"
    ensures |RtrimSlashes(b)| > 0
  {
    RtrimSlashesAppend(a, b, 0);
  }

  /** Trimming twice is trimming once. */
  lemma TrailingSlashItIdempotent(s: string)
    ensures TrailingSlashIt(TrailingSlashIt(s)) == TrailingSlashIt(s)
  {
    var r := RtrimSlashes(s);
    assert (r + [Slash])[..|r|] == r;
  }

  // ---------------------------------------------------------------------
  // preg_replace('#/+#', '/', s)
  // ---------------------------------------------------------------------

  /** A string with a character in front has no `//` when the rest has none and the front does not start one. */
  lemma DoubleSlashCons(x: char, t: string)
    ensures !HasDoubleSlash([x] + t) <==> !HasDoubleSlash(t) && !(x == Slash && |t| > 0 && t[0] == Slash)
  {
    var r := [x] + t;
    assert forall i :: 1 <= i < |r| ==> r[i] == t[i - 1];
    if HasDoubleSlash(t) {
      var i :| 0 <= i < |t| - 1 && t[i] == Slash && t[i + 1] == Slash;
      assert r[i + 1] == Slash && r[i + 2] == Slash;
    }
    if x == Slash && |t| > 0 && t[0] == Slash {
      assert r[0] == Slash && r[1] == Slash;
    }
    if HasDoubleSlash(r) {
      var i :| 0 <= i < |r| - 1 && r[i] == Slash && r[i + 1] == Slash;
      if i > 0 {
        assert t[i - 1] == Slash && t[i] == Slash;
      } else {
        assert r[0] == x && r[1] == t[0];
      }
    }
  }

  /** A string with a character in front has no `..` when the rest has none and the front does not start one. */
  lemma DotDotCons(x: char, t: string)
    ensures !HasDotDot([x] + t) <==> !HasDotDot(t) && !(x == '.' && |t| > 0 && t[0] == '.')
  {
    var r := [x] + t;
    assert forall i :: 1 <= i < |r| ==> r[i] == t[i - 1];
    if HasDotDot(t) {
      var i :| 0 <= i < |t| - 1 && t[i] == '.' && t[i + 1] == '.';
      assert r[i + 1] == '.' && r[i + 2] == '.';
    }
    if x == '.' && |t| > 0 && t[0] == '.' {
      assert r[0] == '.' && r[1] == '.';
    }
    if HasDotDot(r) {
      var i :| 0 <= i < |r| - 1 && r[i] == '.' && r[i + 1] == '.';
      if i > 0 {
        assert t[i - 1] == '.' && t[i] == '.';
      } else {
        assert r[0] == x && r[1] == t[0];
      }
    }
  }

  lemma RemoveCharCons(x: char, t: string, c: char)
    ensures RemoveChar([x] + t, c) == (if x == c then "" else [x]) + RemoveChar(t, c)
  {
    assert ([x] + t)[1..] == t;
  }

  /**
   * Removal works character by character: the result for `a + b` is the
   * result for `a` followed by the result for `b`, so what survives keeps
   * its order.
   */
  lemma {:induction false} RemoveCharAppend(a: string, b: string, c: char)
    ensures RemoveChar(a + b, c) == RemoveChar(a, c) + RemoveChar(b, c)
  {
    if |a| > 0 {
      var x, t := a[0], a[1..];
      assert a == [x] + t;
      assert a + b == [x] + (t + b);
      RemoveCharCons(x, t, c);
      RemoveCharCons(x, t + b, c);
      RemoveCharAppend(t, b, c);
    } else {
      assert a + b == b;
    }
  }

  /** `preg_replace('#/+#', '/', s)`: every run of `/` written as one `/`. */
  function CollapseSlashes(s: string): (r: string)
    ensures !HasDoubleSlash(r)
    ensures RemoveChar(r, Slash) == RemoveChar(s, Slash)
    ensures |r| <= |s|
    ensures |s| > 0 ==> |r| > 0 && r[0] == s[0]
  {
    if |s| == 0 then ""
    else
      assert s == [s[0]] + s[1..];
      RemoveCharCons(s[0], s[1..], Slash);
      if |s| >= 2 && s[0] == Slash && s[1] == Slash then
        CollapseSlashes(s[1..])
      else
        var t := CollapseSlashes(s[1..]);
        DoubleSlashCons(s[0], t);
        RemoveCharCons(s[0], t, Slash);
        [s[0]] + t
  }

  /** Collapsing only deletes slashes: every other character is present after it exactly when before. */
  lemma CollapseSlashesKeepsChars(s: string, c: char)
    requires c != Slash
    ensures c in CollapseSlashes(s) <==> c in s
  {
    var r := CollapseSlashes(s);
    assert multiset(RemoveChar(r, Slash))[c] == multiset(r)[c];
    assert multiset(RemoveChar(s, Slash))[c] == multiset(s)[c];
  }

  /** Replacing `a` by `b` leaves every third character where it was. */
  lemma ReplaceCharKeepsChars(s: string, a: char, b: char, c: char)
    requires c != a && c != b
    ensures c in ReplaceChar(s, a, b) <==> c in s
  {
    var r := ReplaceChar(s, a, b);
    if c in r {
      var i :| 0 <= i < |r| && r[i] == c;
      assert s[i] == c;
    }
    if c in s {
      var i :| 0 <= i < |s| && s[i] == c;
      assert r[i] == c;
    }
  }

  /** Removing `x` leaves every other character where it was. */
  lemma RemoveCharKeepsChars(s: string, x: char, c: char)
    requires c != x
    ensures c in RemoveChar(s, x) <==> c in s
  {
    assert multiset(RemoveChar(s, x))[c] == multiset(s)[c];
  }

  /** Collapsing only deletes slashes, so it never brings two dots together. */
  lemma {:induction false} CollapseSlashesNoDotDot(s: string)
    requires !HasDotDot(s)
    ensures !HasDotDot(CollapseSlashes(s))
  {
    if |s| > 0 {
      assert s == [s[0]] + s[1..];
      DotDotCons(s[0], s[1..]);
      CollapseSlashesNoDotDot(s[1..]);
      if !(|s| >= 2 && s[0] == Slash && s[1] == Slash) {
        DotDotCons(s[0], CollapseSlashes(s[1..]));
      }
    }
  }

  /**
   * A `//` anywhere collapses like a single `/`. With `CollapseSlashesNoop`
   * this fixes the function: every run of slashes becomes exactly one.
   */
  lemma {:induction false} CollapseSlashesMerge(x: string, y: string)
    ensures CollapseSlashes(x + "//" + y) == CollapseSlashes(x + "/" + y)
  {
    if |x| == 0 {
      assert x + "//" + y == [Slash] + ([Slash] + y);
      assert x + "/" + y == [Slash] + y;
      assert (x + "//" + y)[1..] == x + "/" + y;
    } else {
      var a := x + "//" + y;
      var b := x + "/" + y;
      var t := x[1..];
      assert a == [x[0]] + (t + "//" + y);
      assert b == [x[0]] + (t + "/" + y);
      assert a[1..] == t + "//" + y;
      assert b[1..] == t + "/" + y;
      assert a[1] == b[1];
      CollapseSlashesMerge(t, y);
    }
  }

  /** Collapsing is the identity on a string with no `//`. */
  lemma {:induction false} CollapseSlashesNoop(s: string)
    requires !HasDoubleSlash(s)
    ensures CollapseSlashes(s) == s
  {
    if |s| > 0 {
      assert s == [s[0]] + s[1..];
      DoubleSlashCons(s[0], s[1..]);
      CollapseSlashesNoop(s[1..]);
    }
  }

  // ---------------------------------------------------------------------
  // Decimal rendering of an integer, as PHP's string concatenation does
  // ---------------------------------------------------------------------

  predicate IsDigit(c: char) {
    '0' <= c <= '9'
  }

  function DigitChar(d: nat): (c: char)
    requires d < 10
    ensures IsDigit(c)
  {
    (48 + d) as char
  }

  function DigitValue(c: char): nat
    requires IsDigit(c)
  {
    (c as int - 48) as nat
  }

  /** The decimal text of `n`, no sign, no leading zero. */
  function NatToString(n: nat): (r: string)
    ensures |r| >= 1
    ensures forall i :: 0 <= i < |r| ==> IsDigit(r[i])
    ensures |r| > 1 ==> r[0] != '0'
  {
    if n < 10 then [DigitChar(n)]
    else NatToString(n / 10) + [DigitChar(n % 10)]
  }

  /** The value of a string of decimal digits. */
  function DigitsValue(s: string): nat
    requires forall i :: 0 <= i < |s| ==> IsDigit(s[i])
  {
    if |s| == 0 then 0
    else DigitsValue(s[..|s| - 1]) * 10 + DigitValue(s[|s| - 1])
  }

  /** Reading the decimal text back gives the number: rendering is invertible. */
  lemma {:induction false} NatToStringRoundTrip(n: nat)
    ensures DigitsValue(NatToString(n)) == n
  {
    if n >= 10 {
      var r := NatToString(n);
      assert r[..|r| - 1] == NatToString(n / 10);
      NatToStringRoundTrip(n / 10);
    }
  }

  /** Different numbers have different decimal texts. */
  lemma NatToStringInjective(a: nat, b: nat)
    requires NatToString(a) == NatToString(b)
    ensures a == b
  {
    NatToStringRoundTrip(a);
    NatToStringRoundTrip(b);
  }

  // ---------------------------------------------------------------------
  // pathinfo(path, PATHINFO_EXTENSION) and strtolower
  // ---------------------------------------------------------------------

  /** Index of the last `c` in `s`, or -1 when there is none. */
  function LastIndexOf(s: string, c: char): (k: int)
    ensures -1 <= k < |s|
    ensures k >= 0 ==> s[k] == c
    ensures forall j :: k < j < |s| ==> s[j] != c
  {
    if |s| == 0 then -1
    else if s[|s| - 1] == c then |s| - 1
    else LastIndexOf(s[..|s| - 1], c)
  }

  /** Trailing `/` dropped, then the part after the last `/`, as PHP's `basename`. */
  function Basename(path: string): (b: string)
    ensures Slash !in b
  {
    var t := RtrimSlash(path);
    t[LastIndexOf(t, Slash) + 1..]
  }

  /** `rtrim(path, '/')`. */
  function RtrimSlash(path: string): (r: string)
    ensures |r| <= |path| && r == path[..|r|]
    ensures r == [] || r[|r| - 1] != Slash
  {
    if |path| > 0 && path[|path| - 1] == Slash then RtrimSlash(path[..|path| - 1]) else path
  }

  /**
   * `pathinfo(path, PATHINFO_EXTENSION)`: what follows the last `.` of the
   * base name, or "" when the base name has no `.` or ends in one.
   */
  function Extension(path: string): (e: string)
    ensures '.' !in e && Slash !in e
    ensures e != "" ==> EndsWith(Basename(path), "." + e)
    ensures e == "" <==> '.' !in Basename(path) || Basename(path)[|Basename(path)| - 1] == '.'
  {
    var b := Basename(path);
    var k := LastIndexOf(b, '.');
    if k < 0 then "" else b[k + 1..]
  }

  /** ASCII `strtolower`. */
  function ToLower(s: string): (r: string)
    ensures |r| == |s|
    ensures forall i :: 0 <= i < |s| ==>
      r[i] == (if 'A' <= s[i] <= 'Z' then (s[i] as int + 32) as char else s[i])
  {
    if |s| == 0 then ""
    else [if 'A' <= s[0] <= 'Z' then (s[0] as int + 32) as char else s[0]] + ToLower(s[1..])
  }

  /** A file name ending in `.json`, placed after a directory ending in `/`, has extension `json`. */
  lemma ExtensionOfJsonFile(dir: string, name: string)
    requires |dir| > 0 && dir[|dir| - 1] == Slash
    requires Slash !in name && EndsWith(name, ".json")
    ensures Extension(dir + name) == "json"
  {
    var p := dir + name;
    assert p[|p| - 1] == 'n';
    assert RtrimSlash(p) == p;
    var k := LastIndexOf(p, Slash);
    assert p[|dir| - 1] == Slash;
    assert forall j :: |dir| <= j < |p| ==> p[j] == name[j - |dir|];
    assert k == |dir| - 1;
    assert p[|dir|..] == name;
    assert Basename(p) == name;
    var m := LastIndexOf(name, '.');
    assert name[|name| - 5..] == ".json";
    assert name[|name| - 5] == '.';
    assert m == |name| - 5;
    assert name[m + 1..] == "json";
  }
}
