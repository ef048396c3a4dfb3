/**
 * The string operations of JavaScript that the diary code relies on:
 * Number.prototype.toString for integers, String.prototype.padStart(2, '0'),
 * and the regular expression `\s+` used to build the file name.
 */
module Strings {

  predicate IsDigit(c: char) {
    '0' <= c <= '9'
  }

  predicate AllDigits(s: string) {
    forall i :: 0 <= i < |s| ==> IsDigit(s[i])
  }

  function DigitChar(d: int): (c: char)
    requires 0 <= d < 10
    ensures IsDigit(c) && DigitValue(c) == d
  {
    (48 + d) as char
  }

  function DigitValue(c: char): (d: int)
    requires IsDigit(c)
    ensures 0 <= d < 10
  {
    c as int - 48
  }

  /** The decimal representation of a natural number, without leading zeros. */
  function NatToString(n: nat): (s: string)
    ensures 1 <= |s| && AllDigits(s)
    ensures n < 10 <==> |s| == 1
    decreases n
  {
    if n < 10 then [DigitChar(n)] else NatToString(n / 10) + [DigitChar(n % 10)]
  }

  /** `i.toString()` for an integer `i`: a minus sign before the digits of a negative number. */
  function IntToString(i: int): (s: string)
    ensures 1 <= |s|
    ensures 0 <= i ==> AllDigits(s)
    ensures i < 0 ==> s[0] == '-'
  {
    if i < 0 then "-" + NatToString(-i) else NatToString(i)
  }

  /** The value of a string of decimal digits (leading zeros allowed). */
  function ParseNat(s: string): nat
    requires AllDigits(s)
  {
    if s == [] then 0 else ParseNat(s[..|s| - 1]) * 10 + DigitValue(s[|s| - 1])
  }

  /** Reading back what NatToString wrote gives the number again. */
  lemma {:induction false} ParseNatToString(n: nat)
    ensures ParseNat(NatToString(n)) == n
  {
    if n >= 10 {
      var s := NatToString(n);
      assert s[..|s| - 1] == NatToString(n / 10);
      ParseNatToString(n / 10);
    }
  }

  /** A leading zero does not change the value read. */
  lemma {:induction false} ParseNatLeadingZero(s: string)
    requires AllDigits(s)
    ensures ParseNat("0" + s) == ParseNat(s)
  {
    if s != [] {
      assert ("0" + s)[..|s|] == "0" + s[..|s| - 1];
      ParseNatLeadingZero(s[..|s| - 1]);
    }
  }

  /** `s.padStart(2, '0')`: zeros in front up to length two; longer strings are left alone. */
  function PadStart2(s: string): (r: string)
    ensures |r| == if |s| >= 2 then |s| else 2
    ensures |s| >= 2 ==> r == s
    ensures |s| < 2 ==> r == seq(2 - |s|, _ => '0') + s
  {
    if |s| >= 2 then s else if |s| == 1 then "0" + s else "00"
  }

  /** The field `n.toString().padStart(2, '0')` of a number below 100 is exactly two digits and reads back as `n`. */
  lemma TwoDigits(n: int)
    requires 0 <= n < 100
    ensures var r := PadStart2(IntToString(n)); |r| == 2 && AllDigits(r) && ParseNat(r) == n
  {
    var s := NatToString(n);
    assert IntToString(n) == s;
    ParseNatToString(n);
    if n < 10 {
      ParseNatLeadingZero(s);
      assert PadStart2(s) == "0" + s;
    } else {
      assert NatToString(n / 10) == [DigitChar(n / 10)];
    }
  }

  /**
   * The characters that JavaScript's `\s` matches: the ECMAScript WhiteSpace
   * and LineTerminator code points.
   */
  predicate IsSpace(c: char) {
    c == ' ' || c == '\t' || c == '\n' || c == '\r' || c == '\U{0B}' || c == '\U{0C}'
    || c == '\U{A0}' || c == '\U{1680}' || ('\U{2000}' <= c <= '\U{200A}')
    || c == '\U{2028}' || c == '\U{2029}' || c == '\U{202F}' || c == '\U{205F}'
    || c == '\U{3000}' || c == '\U{FEFF}'
  }

  predicate NoSpace(s: string) {
    forall i :: 0 <= i < |s| ==> !IsSpace(s[i])
  }

  /** What is left of `s` once its leading whitespace is dropped. */
  function DropSpaces(s: string): (r: string)
    ensures |r| <= |s| && r == s[|s| - |r|..]
    ensures r == [] || !IsSpace(r[0])
    ensures forall i :: 0 <= i < |s| - |r| ==> IsSpace(s[i])
  {
    if s != [] && IsSpace(s[0]) then DropSpaces(s[1..]) else s
  }

  /** `s.replace(/\s+/g, '_')`: every maximal run of whitespace becomes one underscore. */
  function ReplaceSpaceRuns(s: string): (r: string)
    ensures NoSpace(r)
    ensures |r| <= |s|
    ensures r == [] <==> s == []
    decreases |s|
  {
    if s == [] then []
    else if IsSpace(s[0]) then "_" + ReplaceSpaceRuns(DropSpaces(s[1..]))
    else [s[0]] + ReplaceSpaceRuns(s[1..])
  }

  /** A string without whitespace is left as it is; hence the replacement is idempotent. */
  lemma {:induction false} ReplaceSpaceRunsIdentity(s: string)
    requires NoSpace(s)
    ensures ReplaceSpaceRuns(s) == s
  {
    if s != [] {
      ReplaceSpaceRunsIdentity(s[1..]);
    }
  }

  lemma ReplaceSpaceRunsIdempotent(s: string)
    ensures ReplaceSpaceRuns(ReplaceSpaceRuns(s)) == ReplaceSpaceRuns(s)
  {
    ReplaceSpaceRunsIdentity(ReplaceSpaceRuns(s));
  }

  /**
   * Between two whitespace-free words, a run of whitespace of any length
   * becomes a single underscore.
   */
  lemma ReplaceSpaceRunsJoin(a: string, gap: string, b: string)
    requires NoSpace(a) && NoSpace(b)
    requires gap != [] && forall i :: 0 <= i < |gap| ==> IsSpace(gap[i])
    ensures ReplaceSpaceRuns(a + gap + b) == a + "_" + b
  {
    ReplaceGap(gap, b);
    ReplaceSpaceRunsIdentity(b);
    ReplacePrefixWord(a, gap + b);
    ConcatAssoc(a, gap, b);
    ConcatAssoc(a, "_", b);
  }

  /** Where the pieces of `dd.mm.rest` sit when `dd` and `mm` have two characters each. */
  lemma DottedFields(dd: string, mm: string, rest: string)
    requires |dd| == 2 && |mm| == 2
    ensures var s := dd + "." + mm + "." + rest;
            |s| == 6 + |rest| && s[2] == '.' && s[5] == '.' && s[..2] == dd && s[3..5] == mm && s[6..] == rest
  {
  }

  lemma ConcatAssoc<T>(a: seq<T>, b: seq<T>, c: seq<T>)
    ensures a + b + c == a + (b + c)
  {
  }

  lemma ReplaceGap(gap: string, b: string)
    requires gap != [] && forall i :: 0 <= i < |gap| ==> IsSpace(gap[i])
    requires b == [] || !IsSpace(b[0])
    ensures ReplaceSpaceRuns(gap + b) == "_" + ReplaceSpaceRuns(b)
  {
    var rest := gap + b;
    assert IsSpace(rest[0]);
    assert rest[1..] == gap[1..] + b;
    DropAllSpaces(gap[1..], b);
  }

  lemma {:induction false} DropAllSpaces(gap: string, b: string)
    requires forall i :: 0 <= i < |gap| ==> IsSpace(gap[i])
    requires b == [] || !IsSpace(b[0])
    ensures DropSpaces(gap + b) == b
  {
    if gap != [] {
      assert (gap + b)[1..] == gap[1..] + b;
      DropAllSpaces(gap[1..], b);
    }
  }

  lemma {:induction false} ReplacePrefixWord(a: string, rest: string)
    requires NoSpace(a)
    ensures ReplaceSpaceRuns(a + rest) == a + ReplaceSpaceRuns(rest)
  {
    if a != [] {
      var s := a + rest;
      assert s[0] == a[0] && !IsSpace(s[0]);
      assert s[1..] == a[1..] + rest;
      ReplacePrefixWord(a[1..], rest);
      var r := ReplaceSpaceRuns(rest);
      assert ReplaceSpaceRuns(s) == [a[0]] + (a[1..] + r);
      ConcatAssoc([a[0]], a[1..], r);
      assert [a[0]] + a[1..] == a;
    } else {
      assert a + rest == rest;
    }
  }
}
