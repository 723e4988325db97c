/** Cutting text at a separator and putting it back together; numerals; digits, spaces, stripping. */
module Text {
  import opened Basics

  /** Everything before the first `sep`, and everything after it (None when absent). */
  function Cut(s: string, sep: char): (string, Option<string>) {
    if s == "" then ("", None)
    else if s[0] == sep then ("", Some(s[1..]))
    else
      var (head, tail) := Cut(s[1..], sep);
      ([s[0]] + head, tail)
  }

  lemma {:induction false} CutAt(head: string, sep: char, tail: string)
    requires sep !in head
    ensures Cut(head + [sep] + tail, sep) == (head, Some(tail))
  {
    var s := head + [sep] + tail;
    if head == "" {
      assert s[1..] == tail;
    } else {
      CutAt(head[1..], sep, tail);
      assert s[1..] == head[1..] + [sep] + tail;
      assert head == [head[0]] + head[1..];
    }
  }

  lemma {:induction false} CutNone(s: string, sep: char)
    requires sep !in s
    ensures Cut(s, sep) == (s, None)
  {
    if s != "" {
      CutNone(s[1..], sep);
      assert s == [s[0]] + s[1..];
    }
  }

  lemma CutLonger(s: string, sep: char)
    ensures Cut(s, sep).1.Some? ==> |Cut(s, sep).1.value| < |s|
  {
  }

  /** What follows the first `sep` does not move the cut. */
  lemma {:induction false} CutLater(s: string, sep: char, more: string)
    requires sep in s
    ensures Cut(s, sep).1.Some? && Cut(s + more, sep) == (Cut(s, sep).0, Some(Cut(s, sep).1.value + more))
  {
    if s[0] == sep {
      assert (s + more)[1..] == s[1..] + more;
    } else {
      CutLater(s[1..], sep, more);
      assert (s + more)[1..] == s[1..] + more;
    }
  }

  /** Nor does what comes before, when it holds no `sep`, change what follows the cut. */
  lemma {:induction false} CutEarlier(more: string, s: string, sep: char)
    requires sep !in more
    ensures Cut(more + s, sep) == (more + Cut(s, sep).0, Cut(s, sep).1)
  {
    if more == "" {
      assert more + s == s && more + Cut(s, sep).0 == Cut(s, sep).0;
    } else {
      CutEarlier(more[1..], s, sep);
      assert (more + s)[0] == more[0] != sep;
      assert (more + s)[1..] == more[1..] + s;
      assert [more[0]] + (more[1..] + Cut(s, sep).0) == more + Cut(s, sep).0;
    }
  }

  /** What was cut is the head before the first `sep`, and the parts make up the text. */
  lemma {:induction false} CutParts(s: string, sep: char)
    ensures var (head, tail) := Cut(s, sep);
      && sep !in head && (tail.None? <==> sep !in s)
      && s == if tail.None? then head else head + [sep] + tail.value
  {
    if s != "" && s[0] != sep {
      CutParts(s[1..], sep);
      assert s == [s[0]] + s[1..];
    }
  }

  predicate IsDigit(c: char) {
    '0' <= c <= '9'
  }

  predicate AllDigits(t: string) {
    t != "" && forall i :: 0 <= i < |t| ==> IsDigit(t[i])
  }

  /** Which characters beyond ASCII are digits and which are spaces, as Python sees them. */
  datatype Chars = Chars(digit: char -> bool, space: char -> bool)

  const ASCII_END: char := '\U{80}'

  predicate IsDigitIn(ch: Chars, c: char) {
    if c < ASCII_END then IsDigit(c) else ch.digit(c)
  }

  predicate IsSpace(ch: Chars, c: char) {
    if c < ASCII_END then '\t' <= c <= '\r' || '\U{1C}' <= c <= ' ' else ch.space(c)
  }

  /** `isdigit` */
  predicate IsNumeric(ch: Chars, t: string) {
    t != "" && forall i :: 0 <= i < |t| ==> IsDigitIn(ch, t[i])
  }

  /** `strip` */
  function Strip(ch: Chars, t: string): string
    decreases |t|
  {
    if t == "" then ""
    else if IsSpace(ch, t[0]) then Strip(ch, t[1..])
    else if IsSpace(ch, t[|t| - 1]) then Strip(ch, t[..|t| - 1])
    else t
  }

  lemma StripPlain(ch: Chars, t: string)
    requires t != "" && !IsSpace(ch, t[0]) && !IsSpace(ch, t[|t| - 1])
    ensures Strip(ch, t) == t
  {
  }

  /** Decimal form. */
  function Digits(n: nat): (t: string)
    ensures AllDigits(t)
  {
    if n < 10 then [('0' as int + n) as char] else Digits(n / 10) + [('0' as int + n % 10) as char]
  }

  function Value(s: string): int {
    if s == "" then 0 else Value(s[..|s| - 1]) * 10 + (s[|s| - 1] as int - '0' as int)
  }

  /** Reading the decimal form back gives the number. */
  lemma {:induction false} ValueOfDigits(n: nat)
    ensures Value(Digits(n)) == n
  {
    if n >= 10 {
      ValueOfDigits(n / 10);
      assert Digits(n)[..|Digits(n)| - 1] == Digits(n / 10);
    } else {
      assert Digits(n)[..0] == "";
    }
  }
}
