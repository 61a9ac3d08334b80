/**
 * The few pieces of `java.lang.String`, `java.lang.Boolean`, `java.util.Collections`
 * and IntelliJ's `StringUtil` that the plug-in relies on, stated on `seq<char>`.
 */
module JavaText {
  import opened Optional

  /** `String.startsWith`. */
  predicate StartsWith(s: string, prefix: string) {
    |prefix| <= |s| && s[..|prefix|] == prefix
  }

  /** `String.endsWith`. */
  predicate EndsWith(s: string, suffix: string) {
    |suffix| <= |s| && s[|s| - |suffix|..] == suffix
  }

  /** The characters that `String.trim` strips: every character up to and including `' '`. */
  predicate IsTrimmable(c: char) {
    c <= ' '
  }

  /** A string made only of trimmable characters (the empty string included). */
  predicate IsBlank(s: string) {
    forall i :: 0 <= i < |s| ==> IsTrimmable(s[i])
  }

  /** `StringUtil.isEmptyOrSpaces`: true for `null` and for a string that trims to nothing. */
  predicate IsEmptyOrSpaces(s: Option<string>) {
    s.None? || IsBlank(s.value)
  }

  /** Drops the leading trimmable characters. */
  function TrimStart(s: string): (r: string)
    ensures |r| <= |s| && r == s[|s| - |r|..]
    ensures r == [] || !IsTrimmable(r[0])
    decreases |s|
  {
    if |s| > 0 && IsTrimmable(s[0]) then TrimStart(s[1..]) else s
  }

  /** Drops the trailing trimmable characters. */
  function TrimEnd(s: string): (r: string)
    ensures |r| <= |s| && r == s[..|r|]
    ensures r == [] || !IsTrimmable(r[|r| - 1])
    decreases |s|
  {
    if |s| > 0 && IsTrimmable(s[|s| - 1]) then TrimEnd(s[..|s| - 1]) else s
  }

  /** What `TrimStart` drops is blank. */
  lemma {:induction false} TrimStartDropsBlank(s: string)
    ensures IsBlank(s[..|s| - |TrimStart(s)|])
    decreases |s|
  {
    if |s| > 0 && IsTrimmable(s[0]) {
      TrimStartDropsBlank(s[1..]);
      var n := |s| - |TrimStart(s)|;
      assert s[..n] == [s[0]] + s[1..][..n - 1];
    }
  }

  /** What `TrimEnd` drops is blank. */
  lemma {:induction false} TrimEndDropsBlank(s: string)
    ensures IsBlank(s[|TrimEnd(s)|..])
    decreases |s|
  {
    if |s| > 0 && IsTrimmable(s[|s| - 1]) {
      var init := s[..|s| - 1];
      TrimEndDropsBlank(init);
      var n := |TrimEnd(s)|;
      assert s[n..] == init[n..] + [s[|s| - 1]];
    }
  }

  /** `String.trim`: the string without its leading and trailing trimmable characters. */
  function Trim(s: string): string {
    TrimEnd(TrimStart(s))
  }

  /** `trim()` keeps the contiguous middle part `s[a..b]`, with only trimmable characters around it. */
  lemma TrimSpan(s: string) returns (a: nat, b: nat)
    ensures a <= b <= |s| && Trim(s) == s[a..b]
    ensures IsBlank(s[..a]) && IsBlank(s[b..])
  {
    var t := TrimStart(s);
    a := |s| - |t|;
    var r := TrimEnd(t);
    b := a + |r|;
    TrimStartDropsBlank(s);
    TrimEndDropsBlank(t);
    assert t == s[a..];
    assert s[b..] == t[|r|..];
  }

  /** A non-empty result of `trim()` starts and ends with a non-trimmable character. */
  lemma TrimEnds(s: string)
    ensures Trim(s) == [] || (!IsTrimmable(Trim(s)[0]) && !IsTrimmable(Trim(s)[|Trim(s)| - 1]))
  {
    var t := TrimStart(s);
    var r := TrimEnd(t);
    if r != [] {
      assert r[0] == t[0];
    }
  }

  /** What `StringUtil.isEmptyOrSpaces` computes (`s == null || s.trim().isEmpty()`) is blankness. */
  lemma {:induction false} TrimEmptyIffBlank(s: string)
    ensures Trim(s) == [] <==> IsBlank(s)
  {
    var t := TrimStart(s);
    if Trim(s) == [] {
      TrimStartDropsBlank(s);
      TrimEndDropsBlank(t);
      assert t == t[0..];
      assert s == s[..|s| - |t|] + t;
    } else {
      var a, b := TrimSpan(s);
      TrimEnds(s);
      assert s[a] == Trim(s)[0];
    }
  }

  /** Trimming twice is trimming once. */
  lemma TrimIdempotent(s: string)
    ensures Trim(Trim(s)) == Trim(s)
  {
    var t := Trim(s);
    TrimEnds(s);
    assert TrimStart(t) == t;
    assert TrimEnd(t) == t;
  }

  /** `Boolean.toString`. */
  function BooleanToString(b: bool): string {
    if b then "true" else "false"
  }

  /** Lower-casing of the ASCII letters; every other character is left as it is. */
  function AsciiLower(c: char): char {
    if 'A' <= c <= 'Z' then (c as int + 32) as char else c
  }

  /** `Boolean.parseBoolean` on a non-null string: `"true".equalsIgnoreCase(s)`. */
  predicate ParseBoolean(s: string) {
    |s| == 4 && forall i :: 0 <= i < 4 ==> AsciiLower(s[i]) == "true"[i]
  }

  /**
   * `ParseBoolean` is `"true".equalsIgnoreCase(s)` compared character by character: each of the
   * four characters is the lower- or the upper-case letter of `"true"` at that position.
   */
  lemma ParseBooleanIsEqualsIgnoreCase(s: string)
    ensures ParseBoolean(s) <==> |s| == 4 && forall i :: 0 <= i < 4 ==> s[i] == "true"[i] || s[i] == "TRUE"[i]
  {
  }

  /** `Boolean.parseBoolean(Boolean.toString(b)) == b`. */
  lemma ParseBooleanToString(b: bool)
    ensures ParseBoolean(BooleanToString(b)) == b
  {
    if b {
      var s := BooleanToString(b);
      assert AsciiLower(s[0]) == 't' && AsciiLower(s[1]) == 'r';
      assert AsciiLower(s[2]) == 'u' && AsciiLower(s[3]) == 'e';
    }
  }

  /** `Boolean.parseBoolean` ignores case: "TRUE" parses as true. */
  lemma ParseBooleanIgnoresCase()
    ensures ParseBoolean("TRUE") && ParseBoolean("True")
    ensures !ParseBoolean("yes") && !ParseBoolean("") && !ParseBoolean("false")
  {
    assert AsciiLower('T') == 't' && AsciiLower('R') == 'r';
    assert AsciiLower('U') == 'u' && AsciiLower('E') == 'e';
    assert AsciiLower('r') == 'r' && AsciiLower('u') == 'u' && AsciiLower('e') == 'e';
  }

  /** A copy of `s` in the opposite order (`Collections.reverse` over a fresh list). */
  function Reversed<T>(s: seq<T>): (r: seq<T>)
    ensures |r| == |s|
  {
    seq(|s|, i requires 0 <= i < |s| => s[|s| - 1 - i])
  }

  /** Reversing keeps exactly the same elements. */
  lemma ReversedSameElements<T>(s: seq<T>, x: T)
    ensures x in Reversed(s) <==> x in s
  {
    var r := Reversed(s);
    if x in s {
      var k :| 0 <= k < |s| && s[k] == x;
      assert r[|s| - 1 - k] == x;
    }
  }

  /** The first element of a reversed copy is the last element of the original. */
  lemma ReversedFirst<T>(s: seq<T>)
    requires s != []
    ensures Reversed(s)[0] == s[|s| - 1]
  {
  }

  /** No element occurs twice. */
  predicate Distinct<T(==)>(s: seq<T>) {
    forall i, j :: 0 <= i < j < |s| ==> s[i] != s[j]
  }
}
