/**
 * The Python string operations the scripts build their output with:
 * `str.strip()`, `str(n)` and the `{n:0Wd}` format spec, `"\n".join(...)`,
 * `str.split("\n")`, and a file assembled from writes that each end in "\n".
 */
module Text {
  import opened Wrappers

  // ---------------------------------------------------------------- strip

  /** Python's `str.isspace()` for one code point. */
  predicate IsSpace(c: char) {
    var n := c as int;
    n == 0x20 || 0x09 <= n <= 0x0D || 0x1C <= n <= 0x1F || n == 0x85 || n == 0xA0
    || n == 0x1680 || 0x2000 <= n <= 0x200A || n == 0x2028 || n == 0x2029
    || n == 0x202F || n == 0x205F || n == 0x3000
  }

  /** The number of whitespace code points that open `s`. */
  function LeadingSpace(s: string): nat {
    if s != [] && IsSpace(s[0]) then 1 + LeadingSpace(s[1..]) else 0
  }

  /** LeadingSpace counts the whole whitespace prefix and stops at the first other code point. */
  lemma {:induction false} LeadingSpaceSpec(s: string)
    ensures LeadingSpace(s) <= |s|
    ensures forall k :: 0 <= k < LeadingSpace(s) ==> IsSpace(s[k])
    ensures LeadingSpace(s) < |s| ==> !IsSpace(s[LeadingSpace(s)])
  {
    if s != [] && IsSpace(s[0]) {
      LeadingSpaceSpec(s[1..]);
      forall k | 0 <= k < LeadingSpace(s)
        ensures IsSpace(s[k])
      {
        if k > 0 {
          assert s[k] == s[1..][k - 1];
        }
      }
    }
  }

  /** The number of whitespace code points that close `s`. */
  function TrailingSpace(s: string): nat {
    if s != [] && IsSpace(s[|s| - 1]) then 1 + TrailingSpace(s[..|s| - 1]) else 0
  }

  /** TrailingSpace counts the whole whitespace suffix and stops at the last other code point. */
  lemma {:induction false} TrailingSpaceSpec(s: string)
    ensures TrailingSpace(s) <= |s|
    ensures forall k :: |s| - TrailingSpace(s) <= k < |s| ==> IsSpace(s[k])
    ensures TrailingSpace(s) < |s| ==> !IsSpace(s[|s| - 1 - TrailingSpace(s)])
  {
    if s != [] && IsSpace(s[|s| - 1]) {
      TrailingSpaceSpec(s[..|s| - 1]);
    }
  }

  /**
   * Python's `str.strip()` with no argument: the middle of `s` left once the
   * whitespace on both ends is removed.
   */
  function Strip(s: string): string {
    LeadingSpaceSpec(s);
    var t := s[LeadingSpace(s)..];
    TrailingSpaceSpec(t);
    t[..|t| - TrailingSpace(t)]
  }

  /**
   * What strip keeps: a contiguous piece of `s` that neither starts nor ends
   * with whitespace, and everything outside it is whitespace.
   */
  lemma StripTrims(s: string)
    ensures var r := Strip(s);
      && LeadingSpace(s) + |r| <= |s| && r == s[LeadingSpace(s)..LeadingSpace(s) + |r|]
      && (forall k :: 0 <= k < |s| && !(LeadingSpace(s) <= k < LeadingSpace(s) + |r|) ==> IsSpace(s[k]))
      && (r == [] || (!IsSpace(r[0]) && !IsSpace(r[|r| - 1])))
  {
    LeadingSpaceSpec(s);
    var a := LeadingSpace(s);
    var t := s[a..];
    TrailingSpaceSpec(t);
    StripOutside(s, a, t);
  }

  lemma StripOutside(s: string, a: nat, t: string)
    requires a == LeadingSpace(s) <= |s| && t == s[a..] && TrailingSpace(t) <= |t|
    requires forall k :: 0 <= k < a ==> IsSpace(s[k])
    requires forall k :: |t| - TrailingSpace(t) <= k < |t| ==> IsSpace(t[k])
    ensures forall k :: 0 <= k < |s| && !(a <= k < a + |Strip(s)|) ==> IsSpace(s[k])
  {
    var r := Strip(s);
    assert |r| == |t| - TrailingSpace(t);
    forall k | a + |r| <= k < |s|
      ensures IsSpace(s[k])
    {
      assert s[k] == t[k - a];
    }
  }

  // ------------------------------------------------------ decimal numerals

  predicate IsDigit(c: char) {
    '0' <= c <= '9'
  }

  predicate AllDigits(s: string) {
    forall k :: 0 <= k < |s| ==> IsDigit(s[k])
  }

  function DigitChar(d: nat): (c: char)
    requires d < 10
    ensures IsDigit(c)
  {
    ('0' as int + d) as char
  }

  function DigitValue(c: char): (d: nat)
    requires IsDigit(c)
    ensures d < 10
  {
    c as int - '0' as int
  }

  /** The number a string of decimal digits denotes (leading zeros allowed). */
  function DigitsValue(s: string): nat
    requires AllDigits(s)
  {
    if s == [] then 0 else 10 * DigitsValue(s[..|s| - 1]) + DigitValue(s[|s| - 1])
  }

  function Pow10(k: nat): (p: nat)
    ensures p >= 1
  {
    if k == 0 then 1 else 10 * Pow10(k - 1)
  }

  /** Python's `str(n)` for n >= 0: the decimal digits of `n` with no leading zero. */
  function Decimal(n: nat): (s: string)
    ensures |s| >= 1 && AllDigits(s)
    ensures |s| > 1 ==> s[0] != '0'
  {
    if n < 10 then [DigitChar(n)] else Decimal(n / 10) + [DigitChar(n % 10)]
  }

  lemma {:induction false} DecimalRoundTrip(n: nat)
    ensures DigitsValue(Decimal(n)) == n
  {
    if n >= 10 {
      var s := Decimal(n);
      assert s[..|s| - 1] == Decimal(n / 10);
      DecimalRoundTrip(n / 10);
    }
  }

  /** A number below 10^w has at most `w` digits. */
  lemma {:induction false} DecimalLength(n: nat, w: nat)
    requires w >= 1 && n < Pow10(w)
    ensures |Decimal(n)| <= w
  {
    if n >= 10 {
      DecimalLength(n / 10, w - 1);
    }
  }

  function Zeros(k: nat): (z: string)
    ensures |z| == k && AllDigits(z)
  {
    seq(k, _ => '0')
  }

  lemma {:induction false} ZerosValue(k: nat, s: string)
    requires AllDigits(s)
    ensures AllDigits(Zeros(k) + s) && DigitsValue(Zeros(k) + s) == DigitsValue(s)
    decreases |s|, k
  {
    var t := Zeros(k) + s;
    if s == [] {
      if k > 0 {
        assert t[..|t| - 1] == Zeros(k - 1) + s;
        ZerosValue(k - 1, s);
      }
    } else {
      assert t[..|t| - 1] == Zeros(k) + s[..|s| - 1];
      ZerosValue(k, s[..|s| - 1]);
    }
  }

  /**
   * Python's `format(n, "0Wd")` for n >= 0: the decimal digits of `n`,
   * zero-filled on the left up to `width` characters.
   */
  function ZeroPad(n: nat, width: nat): (s: string)
    ensures |s| >= width && |s| >= |Decimal(n)|
    ensures |s| > width ==> s == Decimal(n)
    ensures AllDigits(s) && DigitsValue(s) == n
  {
    var d := Decimal(n);
    var fill := if width > |d| then width - |d| else 0;
    DecimalRoundTrip(n);
    ZerosValue(fill, d);
    Zeros(fill) + d
  }

  /** A number below 10^w is padded to exactly `w` characters. */
  lemma ZeroPadExact(n: nat, w: nat)
    requires w >= 1 && n < Pow10(w)
    ensures |ZeroPad(n, w)| == w
  {
    DecimalLength(n, w);
  }

  /**
   * Reads back an optionally negative decimal numeral, as Python's `int(s)`
   * does for strings of this shape.
   */
  function ParseInt(s: string): Option<int> {
    if |s| >= 2 && s[0] == '-' && AllDigits(s[1..]) then Some(-(DigitsValue(s[1..]) as int))
    else if |s| >= 1 && AllDigits(s) then Some(DigitsValue(s))
    else None
  }

  /**
   * Python's `format(n, "0Wd")` for any int: the sign comes first and the
   * zeros go between the sign and the digits, sign included in the width.
   */
  function SignedPad(n: int, width: nat): (s: string)
    ensures |s| >= width
    ensures n >= 0 ==> s == ZeroPad(n, width)
    ensures n < 0 ==> |s| >= 2 && s[0] == '-' && AllDigits(s[1..]) && DigitsValue(s[1..]) == -n
    ensures n < 0 && |s| > width ==> s == "-" + Decimal(-n)
    ensures OneLine(s)
  {
    if n < 0 then
      var z := ZeroPad(-n, if width > 0 then width - 1 else 0);
      SignPrefix(z);
      "-" + z
    else
      var z := ZeroPad(n, width);
      SignPrefix(z);
      z
  }

  /** A run of digits, with or without a sign in front, is a single line. */
  lemma SignPrefix(z: string)
    requires AllDigits(z)
    ensures var s := "-" + z; |s| == |z| + 1 && s[0] == '-' && s[1..] == z
    ensures OneLine(z) && OneLine("-" + z)
  {
    var s := "-" + z;
    forall k | 0 <= k < |s|
      ensures s[k] != '\n'
    {
      if k > 0 {
        assert s[k] == z[k - 1];
      }
    }
  }

  /** A padded number reads back as itself, negative numbers included. */
  lemma SignedPadParses(n: int, width: nat)
    ensures ParseInt(SignedPad(n, width)) == Some(n)
  {
    if n < 0 {
      var z := ZeroPad(-n, if width > 0 then width - 1 else 0);
      assert ("-" + z)[1..] == z;
    }
  }

  // ------------------------------------------------------------------ lines

  predicate OneLine(l: string) {
    forall k :: 0 <= k < |l| ==> l[k] != '\n'
  }

  /** Stripping keeps a line a line. */
  lemma StripOneLine(s: string)
    requires OneLine(s)
    ensures OneLine(Strip(s))
  {
    StripTrims(s);
  }

  lemma OneLineConcat(a: string, b: string)
    requires OneLine(a) && OneLine(b)
    ensures OneLine(a + b)
  {
    assert forall k :: |a| <= k < |a + b| ==> (a + b)[k] == b[k - |a|];
  }

  /** Python's `"\n".join(lines)`: no newline after the last line. */
  function JoinLines(lines: seq<string>): string {
    if lines == [] then ""
    else if |lines| == 1 then lines[0]
    else JoinLines(lines[..|lines| - 1]) + "\n" + lines[|lines| - 1]
  }

  /** Python's `s.split("\n")`: the pieces between newlines, always at least one. */
  function SplitLines(s: string): (pieces: seq<string>)
    ensures |pieces| >= 1
    ensures forall i :: 0 <= i < |pieces| ==> OneLine(pieces[i])
  {
    if s == [] then [""]
    else
      var rest := SplitLines(s[1..]);
      if s[0] == '\n' then [""] + rest else [[s[0]] + rest[0]] + rest[1..]
  }

  lemma {:induction false} SplitOneLine(l: string)
    requires OneLine(l)
    ensures SplitLines(l) == [l]
  {
    if l != [] {
      SplitOneLine(l[1..]);
      assert l == [l[0]] + l[1..];
    }
  }

  lemma {:induction false} SplitAppend(a: string, l: string)
    requires OneLine(l)
    ensures SplitLines(a + "\n" + l) == SplitLines(a) + [l]
  {
    if a == [] {
      assert a + "\n" + l == "\n" + l;
      SplitOneLine(l);
    } else {
      assert (a + "\n" + l)[1..] == a[1..] + "\n" + l;
      SplitAppend(a[1..], l);
    }
  }

  /** Splitting a join gives back the lines, as long as none holds a newline. */
  lemma {:induction false} SplitJoin(lines: seq<string>)
    requires |lines| >= 1
    requires forall i :: 0 <= i < |lines| ==> OneLine(lines[i])
    ensures SplitLines(JoinLines(lines)) == lines
  {
    if |lines| == 1 {
      SplitOneLine(lines[0]);
    } else {
      var init := lines[..|lines| - 1];
      SplitJoin(init);
      SplitAppend(JoinLines(init), lines[|lines| - 1]);
    }
  }

  lemma {:induction false} JoinCons(l: string, rest: seq<string>)
    requires |rest| >= 1
    ensures JoinLines([l] + rest) == l + "\n" + JoinLines(rest)
  {
    var all := [l] + rest;
    if |rest| > 1 {
      assert all[..|all| - 1] == [l] + rest[..|rest| - 1];
      JoinCons(l, rest[..|rest| - 1]);
    } else {
      assert all[..|all| - 1] == [l];
    }
  }

  /** Joining the pieces of a split gives back the string. */
  lemma {:induction false} JoinSplit(s: string)
    ensures JoinLines(SplitLines(s)) == s
  {
    if s != [] {
      var rest := SplitLines(s[1..]);
      JoinSplit(s[1..]);
      if s[0] == '\n' {
        JoinCons("", rest);
      } else if |rest| == 1 {
        assert s == [s[0]] + rest[0];
      } else {
        assert rest == [rest[0]] + rest[1..];
        JoinGlued(s[0], rest[0], rest[1..]);
        assert s == [s[0]] + s[1..];
      }
    }
  }

  /** Gluing a character onto the first of several pieces glues it onto their join. */
  lemma JoinGlued(c: char, first: string, tail: seq<string>)
    requires |tail| >= 1
    ensures JoinLines([[c] + first] + tail) == [c] + JoinLines([first] + tail)
  {
    JoinCons(first, tail);
    JoinCons([c] + first, tail);
    Glue([c], first, JoinLines(tail));
  }

  lemma Glue(x: string, a: string, t: string)
    ensures x + a + "\n" + t == x + (a + "\n" + t)
  {
  }

  /** What a file holds after one write of `line + "\n"` per line. */
  function Terminated(lines: seq<string>): string {
    if lines == [] then "" else Terminated(lines[..|lines| - 1]) + lines[|lines| - 1] + "\n"
  }

  lemma {:induction false} TerminatedAppend(a: seq<string>, b: seq<string>)
    ensures Terminated(a + b) == Terminated(a) + Terminated(b)
    decreases |b|
  {
    if b == [] {
      assert a + b == a;
    } else {
      assert (a + b)[..|a + b| - 1] == a + b[..|b| - 1];
      TerminatedAppend(a, b[..|b| - 1]);
    }
  }

  /** Writing every line with its own "\n" is the join plus one final newline. */
  lemma {:induction false} TerminatedIsJoin(lines: seq<string>)
    requires |lines| >= 1
    ensures Terminated(lines) == JoinLines(lines) + "\n"
  {
    if |lines| > 1 {
      TerminatedIsJoin(lines[..|lines| - 1]);
    } else {
      assert lines[..0] == [];
    }
  }

  /** A file written line by line splits back into its lines and the empty piece after the last newline. */
  lemma TerminatedReadBack(lines: seq<string>)
    requires |lines| >= 1
    requires forall i :: 0 <= i < |lines| ==> OneLine(lines[i])
    ensures SplitLines(Terminated(lines)) == lines + [""]
  {
    TerminatedIsJoin(lines);
    assert Terminated(lines) == JoinLines(lines) + "\n" + "";
    SplitAppend(JoinLines(lines), "");
    SplitJoin(lines);
  }
}
