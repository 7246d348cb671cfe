/** The string pieces of the commit message: decimal numbers as a template
    literal prints them, `Array.prototype.join("\n")`, and splitting a message
    back into its lines. */
module Text {

  predicate IsDigit(c: char)
  {
    '0' <= c <= '9'
  }

  function DigitChar(d: nat): (c: char)
    requires d < 10
    ensures IsDigit(c)
  {
    ('0' as int + d) as char
  }

  function DigitValue(c: char): nat
    requires IsDigit(c)
  {
    (c as int - '0' as int) as nat
  }

  /** A non-empty run of decimal digits with no leading zero (except "0"
      itself): the only form in which a template literal prints a number. */
  predicate IsDecimal(s: string)
  {
    && |s| > 0
    && (forall i :: 0 <= i < |s| ==> IsDigit(s[i]))
    && (|s| == 1 || s[0] != '0')
  }

  /** `${n}` for a non-negative integer: its decimal digits, no leading zero. */
  function Digits(n: nat): (s: string)
    ensures IsDecimal(s)
    decreases n
  {
    if n < 10 then [DigitChar(n)] else Digits(n / 10) + [DigitChar(n % 10)]
  }

  /** Reads a string of decimal digits back as a number. */
  function ParseDigits(s: string): nat
    requires forall i :: 0 <= i < |s| ==> IsDigit(s[i])
  {
    if |s| == 0 then 0 else 10 * ParseDigits(s[..|s| - 1]) + DigitValue(s[|s| - 1])
  }

  /** The printed number reads back as the number. */
  lemma {:induction false} DigitsRoundTrip(n: nat)
    ensures ParseDigits(Digits(n)) == n
    decreases n
  {
    var s := Digits(n);
    if n >= 10 {
      DigitsRoundTrip(n / 10);
      assert s[..|s| - 1] == Digits(n / 10);
    }
  }

  /** Every decimal string is the printed form of the number it reads as. */
  lemma {:induction false} DigitsOfParse(s: string)
    requires IsDecimal(s)
    ensures Digits(ParseDigits(s)) == s
    decreases |s|
  {
    if |s| > 1 {
      var t := s[..|s| - 1];
      assert IsDecimal(t);
      DigitsOfParse(t);
      ParseLeadingNonZero(t);
      var n := ParseDigits(s);
      assert n / 10 == ParseDigits(t) && n % 10 == DigitValue(s[|s| - 1]);
      assert DigitChar(n % 10) == s[|s| - 1];
      assert s == t + [s[|s| - 1]];
    } else {
      assert DigitChar(DigitValue(s[0])) == s[0];
    }
  }

  /** A digit string that does not start with '0' reads as a positive number. */
  lemma {:induction false} ParseLeadingNonZero(s: string)
    requires |s| > 0 && s[0] != '0'
    requires forall i :: 0 <= i < |s| ==> IsDigit(s[i])
    ensures ParseDigits(s) >= 1
    decreases |s|
  {
    if |s| > 1 {
      ParseLeadingNonZero(s[..|s| - 1]);
    }
  }

  /** `lines.join("\n")`. */
  function Join(lines: seq<string>): string
  {
    if |lines| == 0 then ""
    else if |lines| == 1 then lines[0]
    else lines[0] + "\n" + Join(lines[1..])
  }

  /** Cuts a string at every newline; a string without one is a single line. */
  function SplitLines(s: string): (lines: seq<string>)
    ensures |lines| > 0
  {
    if |s| == 0 then [""]
    else if s[0] == '\n' then [""] + SplitLines(s[1..])
    else
      var rest := SplitLines(s[1..]);
      [[s[0]] + rest[0]] + rest[1..]
  }

  /** A line holding no newline splits off intact from what follows it. */
  lemma {:induction false} SplitLinesAfterLine(line: string, tail: seq<char>)
    requires '\n' !in line
    ensures SplitLines(line + "\n" + tail) == [line] + SplitLines(tail)
    ensures SplitLines(line) == [line]
  {
    if |line| > 0 {
      SplitLinesAfterLine(line[1..], tail);
      assert (line + "\n" + tail)[1..] == line[1..] + "\n" + tail;
      assert line == [line[0]] + line[1..];
    } else {
      assert line + "\n" + tail == "\n" + tail;
      assert ("\n" + tail)[1..] == tail;
    }
  }

  /** Joining lines that hold no newline and splitting again gives them back. */
  lemma {:induction false} SplitJoin(lines: seq<string>)
    requires |lines| > 0
    requires forall i :: 0 <= i < |lines| ==> '\n' !in lines[i]
    ensures SplitLines(Join(lines)) == lines
  {
    if |lines| == 1 {
      SplitLinesAfterLine(lines[0], "");
    } else {
      SplitJoin(lines[1..]);
      SplitLinesAfterLine(lines[0], Join(lines[1..]));
      assert lines == [lines[0]] + lines[1..];
    }
  }
}
