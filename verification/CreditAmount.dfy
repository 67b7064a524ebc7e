/** The one reading of a manual credit amount (apps/admin/lib/credit-amount.ts). */
module CreditAmount {
  import opened Text

  /** creditLedgerIntegerMax in packages/shared/limits.json */
  const CREDIT_AMOUNT_MAX: nat := 2147483647

  /** What a form field holds: nothing (null or undefined), text, or a value of another type. */
  datatype Raw = Missing | Typed(text: string) | Other

  datatype Problem = Empty | Format | Range
  datatype Reading = Amount(value: nat) | Refused(problem: Problem)

  /** replace(/^0+(?=\d)/, ''): leading zeros go as long as a digit follows. */
  function Significant(s: string): string {
    if |s| > 1 && s[0] == '0' then Significant(s[1..]) else s
  }

  /**
   parseCreditAmount. Only a text no longer than the maximum becomes a number, so Number() reads it
   exactly and its value is the decimal one.
   */
  function Parse(raw: Raw): Reading {
    match raw
    case Missing => Refused(Empty)
    case Other => Refused(Format)
    case Typed(typed) =>
      var text := Trim(typed);
      if text == "" then Refused(Empty)
      else if !AllDigits(text) then Refused(Format)
      else if |Significant(text)| > |Decimal(CREDIT_AMOUNT_MAX)| then Refused(Range)
      else
        SignificantDigits(text);
        var value := Value(Significant(text));
        if value < 1 || value > CREDIT_AMOUNT_MAX then Refused(Range) else Amount(value)
  }

  lemma {:induction false} SignificantDigits(s: string)
    requires AllDigits(s)
    ensures AllDigits(Significant(s)) && Value(Significant(s)) == Value(s)
    ensures |Significant(s)| > 1 ==> Significant(s)[0] != '0'
    decreases |s|
  {
    if |s| > 1 && s[0] == '0' {
      ValueIgnoresLeadingZero(s);
      SignificantDigits(s[1..]);
    }
  }

  lemma MaxHasTenDigits()
    ensures |Decimal(CREDIT_AMOUNT_MAX)| == 10
    ensures Power10(10) == 10000000000
  {
    assert |Decimal(214748)| == 6 by { assert |Decimal(2147)| == 4 by { assert |Decimal(21)| == 2; } }
    assert |Decimal(21474836)| == 8;
    assert Power10(3) == 1000;
    assert Power10(6) == 1000000;
    assert Power10(9) == 1000000000;
  }

  /** Digits that outnumber the maximum's denote more than the maximum, however many they are. */
  lemma TooManyDigits(s: string)
    requires AllDigits(s) && |Significant(s)| > |Decimal(CREDIT_AMOUNT_MAX)|
    ensures Value(s) > CREDIT_AMOUNT_MAX
  {
    MaxHasTenDigits();
    SignificantDigits(s);
    ValueBounds(Significant(s));
    Power10Grows(10, |Significant(s)| - 1);
  }

  /** The typed text is ASCII digits once trimmed. */
  predicate IsDigits(raw: Raw) {
    raw.Typed? && Trim(raw.text) != "" && AllDigits(Trim(raw.text))
  }

  /**
   Text of any length: it is an amount exactly when it is digits whose decimal value lies between 1
   and the ledger's maximum, and then it is that value. Every refusal says which part failed.
   */
  lemma ParsesExactly(raw: Raw)
    ensures forall v: nat :: Parse(raw) == Amount(v) <==> IsDigits(raw) && Value(Trim(raw.text)) == v && 1 <= v <= CREDIT_AMOUNT_MAX
    ensures Parse(raw) == Refused(Range) <==>
              IsDigits(raw) && !(1 <= Value(Trim(raw.text)) <= CREDIT_AMOUNT_MAX)
    ensures Parse(raw) == Refused(Empty) <==> raw.Missing? || (raw.Typed? && Trim(raw.text) == "")
    ensures Parse(raw) == Refused(Format) <==> raw.Other? || (raw.Typed? && Trim(raw.text) != "" && !IsDigits(raw))
  {
    if IsDigits(raw) {
      var text := Trim(raw.text);
      SignificantDigits(text);
      if |Significant(text)| > |Decimal(CREDIT_AMOUNT_MAX)| { TooManyDigits(text); }
    }
  }

  /** An amount written out, with any number of leading zeros, reads back as itself. */
  lemma WrittenAmountReadsBack(value: nat, width: nat)
    requires 1 <= value <= CREDIT_AMOUNT_MAX
    ensures Parse(Typed(PadZeros(Decimal(value), width))) == Amount(value)
  {
    var text := PadZeros(Decimal(value), width);
    PadZerosKeepsValue(Decimal(value), width);
    ValueOfDecimal(value);
    DigitsAreTrimmed(text);
    ParsesExactly(Typed(text));
  }
}
