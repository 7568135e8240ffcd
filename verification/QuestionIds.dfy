/** Question ids: printed as Q- and at least three digits, read back by a scan. */
module QuestionIds {
  import opened Basics
  import opened Text

  predicate IsDigit(c: char) {
    '0' <= c <= '9'
  }

  function Digit(d: nat): (c: char)
    requires d < 10
    ensures IsDigit(c) && Value(c) == d
  {
    ('0' as int + d) as char
  }

  function Value(c: char): (d: nat)
    requires IsDigit(c)
    ensures d < 10
  {
    c as int - '0' as int
  }

  predicate AllDigits(s: string) {
    forall i | 0 <= i < |s| :: IsDigit(s[i])
  }

  function Number(s: string): nat
    requires AllDigits(s)
  {
    if s == "" then 0 else 10 * Number(s[..|s| - 1]) + Value(s[|s| - 1])
  }

  function Digits(n: nat): (s: string)
    ensures AllDigits(s) && s != ""
  {
    if n < 10 then [Digit(n)] else Digits(n / 10) + [Digit(n % 10)]
  }

  lemma {:induction false} NumberOfDigits(n: nat)
    ensures Number(Digits(n)) == n
  {
    if n < 10 {
      assert "" + [Digit(n)] == [Digit(n)];
    } else {
      NumberOfDigits(n / 10);
    }
  }

  /** Zeros in front, up to three characters in all. */
  function Pad(s: string): string {
    if |s| == 1 then "00" + s else if |s| == 2 then "0" + s else s
  }

  lemma {:induction false} ZeroInFront(s: string)
    requires AllDigits(s)
    ensures AllDigits("0" + s) && Number("0" + s) == Number(s)
  {
    if s == "" {
      assert "0" + s == "" + ['0'];
    } else {
      var n := |s| - 1;
      ZeroInFront(s[..n]);
      assert "0" + s == ("0" + s[..n]) + [s[n]];
    }
  }

  lemma PadKeepsNumber(s: string)
    requires AllDigits(s) && s != ""
    ensures AllDigits(Pad(s)) && Pad(s) != "" && Number(Pad(s)) == Number(s)
  {
    ZeroInFront(s);
    ZeroInFront("0" + s);
    assert "0" + ("0" + s) == "00" + s;
  }

  const PREFIX := "Q-"

  function PrintId(n: nat): string {
    PREFIX + Pad(Digits(n))
  }

  /** The digits a text begins with. */
  function DigitRun(s: string): (r: string)
    ensures AllDigits(r) && r <= s
  {
    if s != "" && IsDigit(s[0]) then
      assert s == [s[0]] + s[1..];
      [s[0]] + DigitRun(s[1..])
    else ""
  }

  lemma {:induction false} DigitRunOfDigits(s: string)
    requires AllDigits(s)
    ensures DigitRun(s) == s
  {
    if s != "" {
      DigitRunOfDigits(s[1..]);
      assert s == [s[0]] + s[1..];
    }
  }

  /** Spaces are passed over, but not a newline. */
  function SkipSpaces(s: string): string {
    if s != "" && IsSpace(s[0]) && s[0] != '\n' then SkipSpaces(s[1..]) else s
  }

  /** The prefix, spaces, a sign, digits; whatever follows is not looked at. */
  function ParseId(id: string): Option<int> {
    if !HasPrefix(id, PREFIX) then None
    else
      var s := SkipSpaces(TrimPrefix(id, PREFIX));
      var signed := s != "" && (s[0] == '+' || s[0] == '-');
      var digits := DigitRun(if signed then s[1..] else s);
      var number: int := Number(digits);
      if digits == "" then None else Some(if signed && s[0] == '-' then -number else number)
  }

  lemma DigitIsNoSpace(c: char)
    requires IsDigit(c)
    ensures !IsSpace(c)
  {
  }

  /** Reading a printed id gives its number. */
  lemma ParseInvertsPrint(n: nat)
    ensures ParseId(PrintId(n)) == Some(n)
  {
    hide Digits, Number, Pad, DigitRun, IsSpace;
    var s := Pad(Digits(n));
    PadKeepsNumber(Digits(n));
    NumberOfDigits(n);
    DigitRunOfDigits(s);
    assert TrimPrefix(PrintId(n), PREFIX) == s;
    assert IsDigit(s[0]);
    DigitIsNoSpace(s[0]);
    assert SkipSpaces(s) == s;
  }

  lemma PrintIsInjective(m: nat, n: nat)
    requires PrintId(m) == PrintId(n)
    ensures m == n
  {
    hide PrintId, ParseId;
    ParseInvertsPrint(m);
    ParseInvertsPrint(n);
  }

  lemma {:induction false} DigitsLength(n: nat)
    ensures |Digits(n)| == 1 <==> n < 10
    ensures |Digits(n)| <= 2 <==> n < 100
    ensures |Digits(n)| <= 3 <==> n < 1000
  {
    if n >= 10 {
      DigitsLength(n / 10);
    }
  }

  /** An id is printed as Q, a dash and the number's digits, with zeros in front up to three digits. */
  lemma PrintsPadded(n: nat)
    ensures var s := PrintId(n);
            && |s| >= 5 && s[..2] == "Q-" && AllDigits(s[2..]) && Number(s[2..]) == n
            && (|s| == 5 <==> n < 1000) && (n >= 100 ==> s[2] != '0')
  {
    hide Digits, Number;
    PadKeepsNumber(Digits(n));
    NumberOfDigits(n);
    DigitsLength(n);
    assert PrintId(n)[2..] == Pad(Digits(n));
    LeadingDigit(n);
  }

  lemma {:induction false} LeadingDigit(n: nat)
    ensures n > 0 ==> Digits(n)[0] != '0'
  {
    if n >= 10 {
      LeadingDigit(n / 10);
    }
  }
}
