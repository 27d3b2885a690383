/** The "+1 XXX-XXX-XXXX" formatter of the add form (src/ReservationForm.jsx). */
module Phone {
  import opened JsText

  /**
   * The digits `formatUSPhone` keeps: all digits of the input, less a
   * leading `1` when there are exactly eleven of them, cut to ten.
   */
  function CleanDigits(input: string): (clean: string)
    ensures |clean| <= 10 && AllDigits(clean)
    ensures |Digits(input)| <= 10 ==> clean == Digits(input)
    ensures |Digits(input)| == 11 && Digits(input)[0] == '1' ==> clean == Digits(input)[1..]
    ensures |Digits(input)| > 10 && !(|Digits(input)| == 11 && Digits(input)[0] == '1') ==> clean == Digits(input)[..10]
  {
    var digits := Digits(input);
    var ten := if |digits| == 11 && digits[0] == '1' then digits[1..] else digits;
    Slice(ten, 0, 10)
  }

  /**
   * What `formatUSPhone` appends after "+1 ": the first three kept digits,
   * then '-' and the next three once there are four, then '-' and the rest
   * once there are seven.
   */
  function Grouped(clean: string): (groups: string)
    requires |clean| <= 10
    ensures |groups| <= 12
    ensures |clean| <= 3 ==> groups == clean
    ensures 4 <= |clean| <= 6 ==> groups == clean[..3] + ("-" + clean[3..])
    ensures 7 <= |clean| ==> groups == (clean[..3] + ("-" + clean[3..6])) + ("-" + clean[6..])
  {
    (if |clean| > 0 then Slice(clean, 0, 3) else "")
      + (if |clean| >= 4 then "-" + Slice(clean, 3, 6) else "")
      + (if |clean| >= 7 then "-" + Slice(clean, 6, 10) else "")
  }

  /** `formatUSPhone`: "+1 " then the kept digits in their groups. */
  function FormatUSPhone(input: string): (out: string)
    ensures 3 <= |out| <= 15 && out[..3] == "+1 "
  {
    "+1 " + Grouped(CleanDigits(input))
  }

  /** The canonical form of a complete ten-digit number. */
  function Canonical(ten: string): string
    requires |ten| == 10
  {
    "+1 " + ten[..3] + "-" + ten[3..6] + "-" + ten[6..]
  }

  /** What the form counts: the formatted string's digits, country-code `1` included. */
  predicate IsCompletePhone(formatted: string) {
    |Digits(formatted)| == 11
  }

  lemma DigitsAfterPrefix(x: string)
    ensures Digits("+1 " + x) == "1" + Digits(x)
  {
    DigitsConcat("+1 ", x);
    assert Digits("+1 ") == "1";
  }

  lemma DigitsAfterDash(x: string)
    requires AllDigits(x)
    ensures Digits("-" + x) == x
  {
    DigitsConcat("-", x);
    assert Digits("-") == "";
    DigitsOfDigitString(x);
  }

  /** Up to three digits form one group, with no dash. */
  lemma GroupedShort(clean: string)
    requires |clean| <= 3 && AllDigits(clean)
    ensures Digits(Grouped(clean)) == clean
  {
    assert Grouped(clean) == clean;
    DigitsOfDigitString(clean);
  }

  /** Digit groups joined by dashes: the dashes drop out. */
  lemma DigitsOfDashed(a: string, b: string)
    requires AllDigits(a) && AllDigits(b)
    ensures Digits(a + ("-" + b)) == a + b
  {
    DigitsConcat(a, "-" + b);
    DigitsOfDigitString(a);
    DigitsAfterDash(b);
  }

  /** Four to six digits form two groups. */
  lemma GroupedMiddle(clean: string)
    requires 4 <= |clean| <= 6 && AllDigits(clean)
    ensures Digits(Grouped(clean)) == clean
  {
    var a, b := clean[..3], clean[3..];
    assert Grouped(clean) == a + ("-" + b);
    DigitsOfDashed(a, b);
    assert clean == a + b;
  }

  /** Seven to ten digits form three groups. */
  lemma GroupedLong(clean: string)
    requires 7 <= |clean| <= 10 && AllDigits(clean)
    ensures Digits(Grouped(clean)) == clean
  {
    var ab, c := clean[..6], clean[6..];
    var a, b := ab[..3], ab[3..];
    assert Grouped(clean) == (a + ("-" + b)) + ("-" + c);
    DigitsOfDashed(a, b);
    assert ab == a + b;
    DigitsConcat(a + ("-" + b), "-" + c);
    DigitsAfterDash(c);
    assert clean == ab + c;
  }

  /** The groups carry exactly the kept digits. */
  lemma GroupedDigits(clean: string)
    requires |clean| <= 10 && AllDigits(clean)
    ensures Digits(Grouped(clean)) == clean
  {
    if |clean| <= 3 {
      GroupedShort(clean);
    } else if |clean| <= 6 {
      GroupedMiddle(clean);
    } else {
      GroupedLong(clean);
    }
  }

  /** The formatted string carries the prefix's `1` followed by exactly the kept digits. */
  lemma FormattedDigits(input: string)
    ensures Digits(FormatUSPhone(input)) == "1" + CleanDigits(input)
  {
    var clean := CleanDigits(input);
    DigitsAfterPrefix(Grouped(clean));
    GroupedDigits(clean);
  }

  /** The 11-digit check passes exactly when ten digits were kept. */
  lemma CompleteIffTenDigits(input: string)
    ensures IsCompletePhone(FormatUSPhone(input)) <==> |CleanDigits(input)| == 10
  {
    FormattedDigits(input);
  }

  /** A complete number is shown in canonical form. */
  lemma CompleteIsCanonical(input: string)
    requires |CleanDigits(input)| == 10
    ensures FormatUSPhone(input) == Canonical(CleanDigits(input))
  {
  }

  /**
   * Re-parsing formatted output: a complete number gives back its own ten
   * digits, while a partial one picks up the prefix's `1` as an extra
   * leading digit.
   */
  lemma {:induction false} ReparseDigits(input: string)
    ensures CleanDigits(FormatUSPhone(input))
      == if |CleanDigits(input)| == 10 then CleanDigits(input) else "1" + CleanDigits(input)
  {
    FormattedDigits(input);
    var clean := CleanDigits(input);
    var digits := Digits(FormatUSPhone(input));
    assert digits == "1" + clean;
    if |clean| == 10 {
      assert digits[1..] == clean;
    }
  }

  /** Formatting a complete number twice changes nothing. */
  lemma FormatIdempotentWhenComplete(input: string)
    requires IsCompletePhone(FormatUSPhone(input))
    ensures FormatUSPhone(FormatUSPhone(input)) == FormatUSPhone(input)
  {
    CompleteIffTenDigits(input);
    ReparseDigits(input);
  }

  /** The digits of a canonical number are its ten digits. */
  lemma CanonicalDigits(ten: string)
    requires |ten| == 10 && AllDigits(ten)
    ensures CleanDigits(Canonical(ten)) == ten
  {
    var a, b, c := ten[..3], ten[3..6], ten[6..];
    assert Canonical(ten) == "+1 " + (a + ("-" + b) + ("-" + c));
    DigitsAfterPrefix(a + ("-" + b) + ("-" + c));
    DigitsConcat(a + ("-" + b), "-" + c);
    DigitsConcat(a, "-" + b);
    DigitsOfDigitString(a);
    DigitsAfterDash(b);
    DigitsAfterDash(c);
    assert a + b + c == ten;
    var digits := Digits(Canonical(ten));
    assert digits == "1" + ten;
    assert digits[1..] == ten;
  }

  /** Canonical numbers are fixed points of the formatter. */
  lemma CanonicalIsFixedPoint(ten: string)
    requires |ten| == 10 && AllDigits(ten)
    ensures FormatUSPhone(Canonical(ten)) == Canonical(ten)
  {
    CanonicalDigits(ten);
    CompleteIsCanonical(Canonical(ten));
  }

  /** "7201234567" is a string of digits only. */
  lemma SampleIsDigits()
    ensures Digits("7201234567") == "7201234567"
  {
    assert AllDigits("7201234567");
    DigitsOfDigitString("7201234567");
  }

  /** The formatter keeps all ten digits of "7201234567". */
  lemma SampleDigits()
    ensures CleanDigits("7201234567") == "7201234567"
  {
    SampleIsDigits();
  }

  /** The ten digits "7201234567" lay out as "+1 720-123-4567". */
  lemma SampleCanonical()
    ensures Canonical("7201234567") == "+1 720-123-4567"
  {
    var ten := "7201234567";
    assert ten[..3] == "720" && ten[3..6] == "123" && ten[6..] == "4567";
  }

  /** "7201234567" is shown as "+1 720-123-4567" and passes the 11-digit check. */
  lemma TenDigitExample()
    ensures FormatUSPhone("7201234567") == "+1 720-123-4567"
    ensures IsCompletePhone(FormatUSPhone("7201234567"))
  {
    SampleDigits();
    SampleCanonical();
    CompleteIsCanonical("7201234567");
    CompleteIffTenDigits("7201234567");
  }

  /** "17201234567" is a string of digits only. */
  lemma ElevenIsDigits()
    ensures Digits("17201234567") == "17201234567"
  {
    assert AllDigits("17201234567");
    DigitsOfDigitString("17201234567");
  }

  /** "17201234567" has eleven digits starting with 1, so the leading 1 is dropped. */
  lemma CountryCodeDropped()
    ensures CleanDigits("17201234567") == "7201234567"
  {
    ElevenIsDigits();
    var digits := "17201234567";
    assert |digits| == 11 && digits[0] == '1';
    assert digits[1..] == "7201234567";
  }

  /** "17201234567": the country code is dropped, giving the same canonical number. */
  lemma CountryCodeExample()
    ensures FormatUSPhone("17201234567") == "+1 720-123-4567"
  {
    CountryCodeDropped();
    SampleCanonical();
    CompleteIsCanonical("17201234567");
  }

  /** "123" is shown as "+1 123" and is incomplete. */
  lemma PartialExample()
    ensures FormatUSPhone("123") == "+1 123"
    ensures !IsCompletePhone(FormatUSPhone("123"))
  {
    assert AllDigits("123");
    DigitsOfDigitString("123");
    assert CleanDigits("123") == "123";
    CompleteIffTenDigits("123");
  }

  /** Re-parsing the partial display "+1 72" reads the digits "172". */
  lemma PartialReparseExample()
    ensures FormatUSPhone("+1 72") == "+1 172"
  {
    DigitsAfterPrefix("72");
    assert "+1 72" == "+1 " + "72";
    DigitsOfDigitString("72");
    assert CleanDigits("+1 72") == "172";
  }
}
