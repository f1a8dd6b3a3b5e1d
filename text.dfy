/**
 * Character and string helpers shared by the TypeScript client and the Python
 * server: JavaScript whitespace trimming, ASCII lower-casing, substring search, splitting
 * at a separator and decimal rendering of numbers.
 */
module Text {

  /** The whitespace that `String.prototype.trim` removes (ASCII part). */
  predicate IsSpace(c: char) {
    c == ' ' || c == '\t' || c == '\n' || c == '\r' || c == '\U{0B}' || c == '\U{0C}'
  }

  predicate AllSpace(s: string) {
    forall i :: 0 <= i < |s| ==> IsSpace(s[i])
  }

  /** Leading whitespace removed. */
  function TrimStart(s: string): (r: string)
    ensures |r| <= |s| && r == s[|s| - |r|..]
    ensures AllSpace(s[..|s| - |r|])
    ensures r != [] ==> !IsSpace(r[0])
  {
    if s != [] && IsSpace(s[0]) then TrimStart(s[1..]) else s
  }

  lemma TrimStartKeeps(s: string)
    requires s == [] || !IsSpace(s[0])
    ensures TrimStart(s) == s
  {
  }

  /** Trailing whitespace removed. */
  function TrimEnd(s: string): (r: string)
    ensures |r| <= |s| && r == s[..|r|]
    ensures AllSpace(s[|r|..])
    ensures r != [] ==> !IsSpace(r[|r| - 1])
  {
    if s != [] && IsSpace(s[|s| - 1]) then TrimEnd(s[..|s| - 1]) else s
  }

  /** Whitespace removed at both ends: `s.trim()` in JavaScript. */
  function Trim(s: string): (r: string)
    ensures r != [] ==> !IsSpace(r[0]) && !IsSpace(r[|r| - 1])
  {
    TrimEnd(TrimStart(s))
  }

  /** `r` is `s[k..k + |r|]`, and everything of `s` before and after it is whitespace. */
  predicate TrimsAt(s: string, k: int, r: string) {
    0 <= k && k + |r| <= |s| && r == s[k..k + |r|] && AllSpace(s[..k]) && AllSpace(s[k + |r|..])
  }

  /** `s.trim()` is `s` less the whitespace at its two ends, and nothing else. */
  lemma {:induction false} TrimIsInfix(s: string)
    ensures TrimsAt(s, |s| - |TrimStart(s)|, Trim(s))
  {
    TrimmedSlice(s, TrimStart(s), Trim(s));
  }

  /** The slice arithmetic behind `TrimIsInfix`, stated for the two halves' contracts alone. */
  lemma TrimmedSlice(s: string, t: string, r: string)
    requires |t| <= |s| && t == s[|s| - |t|..] && AllSpace(s[..|s| - |t|])
    requires |r| <= |t| && r == t[..|r|] && AllSpace(t[|r|..])
    ensures TrimsAt(s, |s| - |t|, r)
  {
    SuffixPrefix(s, t, r);
  }

  /** A prefix `r` of a suffix `t` of `s` is a slice of `s`, followed in `s` by the rest of `t`. */
  lemma SuffixPrefix(s: string, t: string, r: string)
    requires |t| <= |s| && t == s[|s| - |t|..]
    requires |r| <= |t| && r == t[..|r|]
    ensures var k := |s| - |t|;
            r == s[k..k + |r|] && t[|r|..] == s[k + |r|..]
  {
  }

  /** A string is blank exactly when it is made of whitespace only. */
  lemma TrimEmptyIffBlank(s: string)
    ensures Trim(s) == [] <==> AllSpace(s)
  {
    var t := TrimStart(s);
    if Trim(s) == [] {
      assert s == s[..|s| - |t|] + t;
      assert AllSpace(t[0..]);
    }
    if AllSpace(s) {
      BlankTrimsToEmpty(s);
    }
  }

  lemma {:induction false} BlankTrimsToEmpty(s: string)
    requires AllSpace(s)
    ensures TrimStart(s) == []
  {
    if s != [] {
      BlankTrimsToEmpty(s[1..]);
    }
  }

  /** Trimming a string that has no whitespace at either end leaves it as it is. */
  lemma TrimNoOp(s: string)
    requires s != [] ==> !IsSpace(s[0]) && !IsSpace(s[|s| - 1])
    ensures Trim(s) == s
  {
  }

  function LowerChar(c: char): char {
    if 'A' <= c <= 'Z' then (c as int - 'A' as int + 'a' as int) as char else c
  }

  /** `toLowerCase()` / `lower()` on the ASCII range. */
  function ToLower(s: string): (r: string)
    ensures |r| == |s|
    ensures forall i :: 0 <= i < |s| ==> r[i] == LowerChar(s[i])
  {
    if s == [] then [] else [LowerChar(s[0])] + ToLower(s[1..])
  }

  lemma {:induction false} ToLowerAppend(a: string, b: string)
    ensures ToLower(a + b) == ToLower(a) + ToLower(b)
  {
    assert |ToLower(a + b)| == |ToLower(a) + ToLower(b)|;
    forall i | 0 <= i < |a + b|
      ensures ToLower(a + b)[i] == (ToLower(a) + ToLower(b))[i]
    {
    }
  }

  /** Lower-casing twice is lower-casing once. */
  lemma ToLowerIdempotent(s: string)
    ensures ToLower(ToLower(s)) == ToLower(s)
  {
  }

  predicate StartsWith(s: string, prefix: string) {
    |prefix| <= |s| && s[..|prefix|] == prefix
  }

  predicate EndsWith(s: string, suffix: string) {
    |suffix| <= |s| && s[|s| - |suffix|..] == suffix
  }

  /** `s.includes(sub)`: `sub` occurs somewhere in `s` (the empty string occurs everywhere). */
  predicate Contains(s: string, sub: string) {
    exists i :: 0 <= i <= |s| - |sub| && OccursAt(s, sub, i)
  }

  predicate OccursAt(s: string, sub: string, i: int)
    requires 0 <= i <= |s| - |sub|
  {
    s[i..i + |sub|] == sub
  }

  lemma ContainsEmpty(s: string)
    ensures Contains(s, "")
  {
    assert OccursAt(s, "", 0);
  }

  /** Index of the first `c` in `s`, or -1: `s.indexOf(c)`, `s.find(c)`. */
  function IndexOf(s: string, c: char): (r: int)
    ensures -1 <= r < |s|
    ensures r == -1 <==> c !in s
    ensures r >= 0 ==> s[r] == c && forall k :: 0 <= k < r ==> s[k] != c
  {
    if s == [] then -1
    else if s[0] == c then 0
    else var k := IndexOf(s[1..], c); if k == -1 then -1 else k + 1
  }

  /** Index of the last `c` in `s`, or -1: `s.lastIndexOf(c)`, `s.rfind(c)`. */
  function LastIndexOf(s: string, c: char): (r: int)
    ensures -1 <= r < |s|
    ensures r == -1 <==> c !in s
    ensures r >= 0 ==> s[r] == c && forall k :: r < k < |s| ==> s[k] != c
  {
    if s == [] then -1
    else if s[|s| - 1] == c then |s| - 1
    else LastIndexOf(s[..|s| - 1], c)
  }

  /**
   * `s.split(sep)` in JavaScript: the pieces between separators, always at
   * least one; built from the end, each character either closes the last
   * piece (a separator) or extends it.
   */
  function Split(s: string, sep: char): (parts: seq<string>)
    ensures |parts| >= 1
  {
    if s == [] then [""]
    else
      var init := Split(s[..|s| - 1], sep);
      var c := s[|s| - 1];
      if c == sep then init + [""] else init[..|init| - 1] + [Last(init) + [c]]
  }

  /** `parts.join(sep)`. */
  function Join(parts: seq<string>, sep: char): string {
    if |parts| <= 1 then (if parts == [] then "" else parts[0])
    else Join(parts[..|parts| - 1], sep) + [sep] + Last(parts)
  }

  /** Splitting and joining again gives back the original string. */
  lemma {:induction false} JoinSplit(s: string, sep: char)
    ensures Join(Split(s, sep), sep) == s
  {
    if s != [] {
      var t := s[..|s| - 1];
      var c := s[|s| - 1];
      var init := Split(t, sep);
      JoinSplit(t, sep);
      assert s == t + [c];
      if c == sep {
        assert Split(s, sep) == init + [""];
        assert (init + [""])[..|init|] == init;
      } else {
        var parts := init[..|init| - 1] + [Last(init) + [c]];
        assert Split(s, sep) == parts;
        JoinExtendLast(init, c, sep);
      }
    }
  }

  /** Extending the last piece extends the joined string. */
  lemma JoinExtendLast(parts: seq<string>, c: char, sep: char)
    requires |parts| >= 1
    ensures Join(parts[..|parts| - 1] + [Last(parts) + [c]], sep) == Join(parts, sep) + [c]
  {
    var extended := parts[..|parts| - 1] + [Last(parts) + [c]];
    if |parts| >= 2 {
      assert extended[..|extended| - 1] == parts[..|parts| - 1];
    }
  }

  /** `s.split(sep).pop()`: the last piece of the split, never undefined. */
  function LastPiece(s: string, sep: char): string {
    Last(Split(s, sep))
  }

  function Last(parts: seq<string>): string
    requires |parts| >= 1
  {
    parts[|parts| - 1]
  }

  /** The last piece of a split is the text after the last separator (the whole string when there is none). */
  lemma {:induction false} LastPieceIsTail(s: string, sep: char)
    ensures LastPiece(s, sep) == s[LastIndexOf(s, sep) + 1..]
  {
    if s != [] {
      var t := s[..|s| - 1];
      var c := s[|s| - 1];
      var init := Split(t, sep);
      if c == sep {
        assert Split(s, sep) == init + [""];
        assert LastIndexOf(s, sep) == |s| - 1;
      } else {
        LastPieceIsTail(t, sep);
        LastPieceExtends(s, sep);
        TailExtends(s, t, LastIndexOf(t, sep) + 1);
      }
    }
  }

  lemma TailExtends(s: string, t: string, j: int)
    requires s != [] && t == s[..|s| - 1] && 0 <= j <= |t|
    ensures s[j..] == t[j..] + [s[|s| - 1]]
  {
  }

  lemma LastPieceExtends(s: string, sep: char)
    requires s != [] && s[|s| - 1] != sep
    ensures LastPiece(s, sep) == LastPiece(s[..|s| - 1], sep) + [s[|s| - 1]]
  {
    var init := Split(s[..|s| - 1], sep);
    assert Split(s, sep) == init[..|init| - 1] + [Last(init) + [s[|s| - 1]]];
  }

  predicate IsDigit(c: char) {
    '0' <= c <= '9'
  }

  predicate AllDigits(s: string) {
    forall i :: 0 <= i < |s| ==> IsDigit(s[i])
  }

  function DigitChar(d: nat): (c: char)
    requires d < 10
    ensures IsDigit(c) && c as int - '0' as int == d
  {
    ('0' as int + d) as char
  }

  /** The decimal rendering of a natural number: `String(n)`, `str(n)`. */
  function NatToString(n: nat): (r: string)
    ensures r != [] && AllDigits(r)
    ensures r[0] == '0' ==> n == 0
    decreases n
  {
    if n < 10 then [DigitChar(n)] else NatToString(n / 10) + [DigitChar(n % 10)]
  }

  /** `String(i)` for an integer. */
  function IntToString(i: int): (r: string)
    ensures r != []
    ensures r[0] == '-' <==> i < 0
  {
    if i < 0 then "-" + NatToString(-i) else NatToString(i)
  }

  /** The value of a string of decimal digits. */
  function DigitsValue(s: string): nat
    requires AllDigits(s)
  {
    if s == [] then 0 else DigitsValue(s[..|s| - 1]) * 10 + (s[|s| - 1] as int - '0' as int)
  }

  /** Reading back the decimal rendering of `n` gives `n`. */
  lemma {:induction false} NatToStringRoundTrip(n: nat)
    ensures DigitsValue(NatToString(n)) == n
    decreases n
  {
    if n >= 10 {
      NatToStringRoundTrip(n / 10);
      var s := NatToString(n);
      assert s[..|s| - 1] == NatToString(n / 10);
    }
  }

  /** Distinct numbers have distinct decimal renderings. */
  lemma NatToStringInjective(a: nat, b: nat)
    requires NatToString(a) == NatToString(b)
    ensures a == b
  {
    NatToStringRoundTrip(a);
    NatToStringRoundTrip(b);
  }
}
