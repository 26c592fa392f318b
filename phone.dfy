/** Jamaican phone numbers: NANP numbers with country code 1 and area code
    876 or 658 (toolkit/jamaica-phone/python/jamaica_phone/__init__.py). */
module Phone {
  import opened Strings
  import opened Wrappers

  datatype ParsedPhone = ParsedPhone(countryCode: string, areaCode: string, localNumber: string, isValid: bool)

  datatype Carrier = Flow | Digicel | Landline | Unknown

  /** The area codes Jamaica uses. */
  predicate IsJamaicanAreaCode(area: string)
  {
    area == "876" || area == "658"
  }

  /** `_strip_to_digits`: the digits of the trimmed input, and whether the
      trimmed input starts with '+'. */
  function StripToDigits(phone: string): (r: (string, bool))
    ensures AllDigits(r.0)
  {
    var trimmed := Strip(phone);
    (DigitsOnly(trimmed), |trimmed| > 0 && trimmed[0] == '+')
  }

  /** A ten-digit NANP number in Jamaica: one of its area codes, then an
      exchange whose first digit is 2 to 9. */
  predicate JamaicanTen(ten: string)
  {
    |ten| == 10 && AllDigits(ten) && IsJamaicanAreaCode(ten[..3]) && '2' <= ten[3] <= '9'
  }

  /** `_extract_ten_digits`. With a leading '+' the digits must be "1" then ten
      more; without, ten digits or "1" then ten more are accepted. The ten
      digits must then form a Jamaican number. */
  function ExtractTenDigits(phone: string): (r: Option<string>)
    ensures r.Some? ==> JamaicanTen(r.value)
    ensures r == TenDigitsOf(StripToDigits(phone).0, StripToDigits(phone).1)
  {
    var (digits, hasPlus) := StripToDigits(phone);
    TenDigitsOf(digits, hasPlus)
  }

  /** The checks of `_extract_ten_digits` once the input is reduced to its
      digits and its leading-'+' flag. */
  function TenDigitsOf(digits: string, hasPlus: bool): (r: Option<string>)
    requires AllDigits(digits)
    ensures r.Some? ==> JamaicanTen(r.value) && IsSuffix(r.value, digits)
    ensures r.Some? <==>
      (|digits| == 11 && digits[0] == '1' && JamaicanTen(digits[1..]))
      || (!hasPlus && |digits| == 10 && JamaicanTen(digits))
  {
    var ten: Option<string> :=
      if hasPlus then
        (if |digits| == 11 && IsPrefix("1", digits) then Some(digits[1..]) else None)
      else if |digits| == 10 then Some(digits)
      else if |digits| == 11 && IsPrefix("1", digits) then Some(digits[1..])
      else None;
    if ten.None? then None
    else
      var t := ten.value;
      var areaCode := t[..3];
      if !IsJamaicanAreaCode(areaCode) then None
      else
        var exchangeDigit := t[3];
        if exchangeDigit < '2' || exchangeDigit > '9' then None
        else Some(t)
  }

  /** `parse_phone`. */
  function ParsePhone(phone: string): (r: Option<ParsedPhone>)
    ensures r.Some? <==> ExtractTenDigits(phone).Some?
    ensures r.Some? ==>
      && r.value.countryCode == "1"
      && r.value.isValid
      && |r.value.areaCode| == 3 && IsJamaicanAreaCode(r.value.areaCode)
      && |r.value.localNumber| == 7 && AllDigits(r.value.localNumber)
      && '2' <= r.value.localNumber[0] <= '9'
      && r.value.areaCode + r.value.localNumber == ExtractTenDigits(phone).value
  {
    var ten := ExtractTenDigits(phone);
    if ten.None? then None
    else
      var t := ten.value;
      SplitTen(t);
      var area, local := t[..3], t[3..];
      Some(ParsedPhone("1", area, local, true))
  }

  /** Splitting a Jamaican ten-digit number after the area code leaves a
      seven-digit local number whose exchange digit is 2 to 9. */
  lemma SplitTen(t: string)
    requires JamaicanTen(t)
    ensures t[..3] + t[3..] == t
    ensures |t[3..]| == 7 && AllDigits(t[3..]) && '2' <= t[3..][0] <= '9'
  {
    assert t[..3] + t[3..] == t;
    forall i | 0 <= i < 7 ensures IsDigit(t[3..][i]) {
      assert t[3..][i] == t[i + 3];
    }
  }

  /** `is_valid_jamaican_number`. */
  function IsValidJamaicanNumber(phone: string): (b: bool)
    ensures b <==> ParsePhone(phone).Some?
  {
    ExtractTenDigits(phone).Some?
  }

  /** `format_local`: `NXX-XXXX`. */
  function FormatLocal(phone: string): (r: Result<string>)
    ensures r.Err? <==> ParsePhone(phone).None?
    ensures r.Err? ==> r.error == ValueError
    ensures r.Ok? ==>
      |r.value| == 8 && r.value[3] == '-'
      && r.value[..3] + r.value[4..] == ParsePhone(phone).value.localNumber
  {
    var parsed := ParsePhone(phone);
    if parsed.None? then Err(ValueError)
    else
      var ln := parsed.value.localNumber;
      Ok(ln[..3] + "-" + ln[3..])
  }

  /** `format_national`: `(AAA) NXX-XXXX`, the area code in parentheses,
      a space, the exchange, a dash and the last four digits. */
  function FormatNational(phone: string): (r: Result<string>)
    ensures r.Err? <==> ParsePhone(phone).None?
    ensures r.Err? ==> r.error == ValueError
    ensures r.Ok? ==> |r.value| == 14 && r.value[0] == '(' && r.value[4] == ')'
    ensures r.Ok? ==>
      var ten := ExtractTenDigits(phone).value;
      r.value == "(" + ten[..3] + ") " + ten[3..6] + "-" + ten[6..]
  {
    var parsed := ParsePhone(phone);
    if parsed.None? then Err(ValueError)
    else
      var ln := parsed.value.localNumber;
      TenParts(parsed.value.areaCode, ln, ExtractTenDigits(phone).value);
      Ok("(" + parsed.value.areaCode + ") " + ln[..3] + "-" + ln[3..])
  }

  /** The ten digits split into the area code, the exchange and the last
      four digits. */
  lemma TenParts(area: string, ln: string, ten: string)
    requires |area| == 3 && |ln| == 7 && area + ln == ten
    ensures ten[..3] == area && ten[3..6] == ln[..3] && ten[6..] == ln[3..]
  {
    assert ten[..3] == (area + ln)[..3];
    assert ten[3..6] == (area + ln)[3..6];
    assert ten[6..] == (area + ln)[6..];
  }

  /** `format_e164`: `+1AAANXXXXXX`, twelve characters with no separators. */
  function FormatE164(phone: string): (r: Result<string>)
    ensures r.Err? <==> ParsePhone(phone).None?
    ensures r.Err? ==> r.error == ValueError
    ensures r.Ok? ==>
      |r.value| == 12 && r.value[..2] == "+1" && r.value[2..] == ExtractTenDigits(phone).value
  {
    var parsed := ParsePhone(phone);
    if parsed.None? then Err(ValueError)
    else
      var p := parsed.value;
      E164Shape(p.countryCode, p.areaCode, p.localNumber);
      Ok("+" + p.countryCode + p.areaCode + p.localNumber)
  }

  lemma E164Shape(country: string, area: string, ln: string)
    requires country == "1" && |area| == 3 && |ln| == 7
    ensures var e := "+" + country + area + ln;
      |e| == 12 && e[..2] == "+1" && e[2..] == area + ln
  {
    var e := "+" + country + area + ln;
    assert e == "+1" + (area + ln);
  }

  /** `format_international`: `+1 (AAA) NXX-XXXX`, the national form behind
      the country code. */
  function FormatInternational(phone: string): (r: Result<string>)
    ensures r.Err? <==> ParsePhone(phone).None?
    ensures r.Err? ==> r.error == ValueError
    ensures r.Ok? ==> |r.value| == 17 && r.value[..4] == "+1 ("
    ensures r.Ok? ==>
      var ten := ExtractTenDigits(phone).value;
      r.value == "+1 (" + ten[..3] + ") " + ten[3..6] + "-" + ten[6..]
  {
    var parsed := ParsePhone(phone);
    if parsed.None? then Err(ValueError)
    else
      var p := parsed.value;
      var ln := p.localNumber;
      InternationalShape(p.countryCode, p.areaCode, ln);
      TenParts(p.areaCode, ln, ExtractTenDigits(phone).value);
      Ok("+" + p.countryCode + " (" + p.areaCode + ") " + ln[..3] + "-" + ln[3..])
  }

  lemma InternationalShape(country: string, area: string, ln: string)
    requires country == "1" && |area| == 3 && |ln| == 7
    ensures var f := "+" + country + " (" + area + ") " + ln[..3] + "-" + ln[3..];
      |f| == 17 && f[..4] == "+1 ("
  {
    var f := "+" + country + " (" + area + ") " + ln[..3] + "-" + ln[3..];
    assert f[0] == '+' && f[1] == '1' && f[2] == ' ' && f[3] == '(';
  }

  /** `get_carrier`: the carrier of the original allocation of the exchange;
      `Unknown` for an invalid number and for the 658 overlay. */
  function GetCarrier(phone: string): (c: Carrier)
    ensures ParsePhone(phone).None? ==> c == Unknown
    ensures ParsePhone(phone).Some? ==>
      c == if ParsePhone(phone).value.areaCode == "658" then Unknown
           else ExchangeCarrier(ParsePhone(phone).value.localNumber)
  {
    var parsed := ParsePhone(phone);
    if parsed.None? then Unknown
    else if parsed.value.areaCode == "658" then Unknown
    else ExchangeCarrier(parsed.value.localNumber)
  }

  /** The carrier of an 876 local number, computed as the source does from
      the integer value of its three-digit exchange; stated on the digits:
      6/7/9 landline, 2/8 Digicel, 3 then 5-9 Digicel, 3 then 0-4 Flow, 4/5 Flow. */
  function ExchangeCarrier(ln: string): (c: Carrier)
    requires |ln| == 7 && AllDigits(ln) && '2' <= ln[0] <= '9'
    ensures ln[0] in "679" ==> c == Landline
    ensures ln[0] in "28" ==> c == Digicel
    ensures ln[0] == '3' && ln[1] >= '5' ==> c == Digicel
    ensures ln[0] == '3' && ln[1] < '5' ==> c == Flow
    ensures ln[0] in "45" ==> c == Flow
    ensures c != Unknown
  {
    var exchange := DigitsValue(ln[..3]);
    var firstDigit := exchange / 100;
    ExchangeDigits(ln[..3]);
    if firstDigit in {6, 7, 9} then Landline
    else if firstDigit in {2, 8} then Digicel
    else if firstDigit == 3 then
      var secondDigit := (exchange % 100) / 10;
      if secondDigit >= 5 then Digicel else Flow
    else if firstDigit in {4, 5} then Flow
    else Unknown
  }

  /** The integer value of a three-digit exchange gives back its digits. */
  lemma ExchangeDigits(e: string)
    requires |e| == 3 && AllDigits(e)
    ensures DigitsValue(e) / 100 == DigitValue(e[0])
    ensures (DigitsValue(e) % 100) / 10 == DigitValue(e[1])
  {
    assert e[..2][..1] == e[..1];
    assert DigitsValue(e[..1]) == DigitValue(e[0]) by {
      assert e[..1][..0] == [];
    }
    assert DigitsValue(e[..2]) == DigitValue(e[0]) * 10 + DigitValue(e[1]);
    assert DigitsValue(e) == DigitValue(e[0]) * 100 + DigitValue(e[1]) * 10 + DigitValue(e[2]);
  }

  /** `is_area_code_876`. */
  function IsAreaCode876(phone: string): (b: bool)
    ensures b ==> IsValidJamaicanNumber(phone)
    ensures b <==> ExtractTenDigits(phone).Some? && ExtractTenDigits(phone).value[..3] == "876"
  {
    AreaOfTen(phone);
    var parsed := ParsePhone(phone);
    parsed.Some? && parsed.value.areaCode == "876"
  }

  /** `is_area_code_658`. */
  function IsAreaCode658(phone: string): (b: bool)
    ensures b ==> IsValidJamaicanNumber(phone)
    ensures b <==> ExtractTenDigits(phone).Some? && ExtractTenDigits(phone).value[..3] == "658"
  {
    AreaOfTen(phone);
    var parsed := ParsePhone(phone);
    parsed.Some? && parsed.value.areaCode == "658"
  }

  /** The parsed area code is the first three of the ten digits. */
  lemma AreaOfTen(phone: string)
    ensures ParsePhone(phone).Some? ==> ParsePhone(phone).value.areaCode == ExtractTenDigits(phone).value[..3]
  {
    var parsed := ParsePhone(phone);
    if parsed.Some? {
      TenParts(parsed.value.areaCode, parsed.value.localNumber, ExtractTenDigits(phone).value);
    }
  }

  /** Every valid number has exactly one of the two area codes. */
  lemma AreaCodesPartition(phone: string)
    ensures !(IsAreaCode876(phone) && IsAreaCode658(phone))
    ensures IsValidJamaicanNumber(phone) <==> IsAreaCode876(phone) || IsAreaCode658(phone)
  {
  }

  /** `is_mobile`: a Flow or Digicel exchange, or any 658 number. */
  function IsMobile(phone: string): (b: bool)
    ensures b <==> GetCarrier(phone) in {Flow, Digicel} || IsAreaCode658(phone)
    ensures b ==> IsValidJamaicanNumber(phone)
  {
    var carrier := GetCarrier(phone);
    if carrier in {Flow, Digicel} then true
    else
      var parsed := ParsePhone(phone);
      if parsed.None? then false
      else parsed.value.areaCode == "658"
  }

  /** The digits kept from separators and digit groups glued together. */
  lemma DigitsOfPieces(sep1: string, a: string, sep2: string, b: string, sep3: string, c: string)
    requires DigitsOnly(sep1) == [] && DigitsOnly(sep2) == [] && DigitsOnly(sep3) == []
    requires AllDigits(a) && AllDigits(b) && AllDigits(c)
    ensures DigitsOnly(sep1 + a + sep2 + b + sep3 + c) == a + b + c
  {
    DigitsOnlyOfDigits(a);
    DigitsOnlyOfDigits(b);
    DigitsOnlyOfDigits(c);
    var x1 := sep1 + a;
    DigitsOnlyConcat(sep1, a);
    assert DigitsOnly(x1) == a;
    var x2 := x1 + sep2;
    DigitsOnlyConcat(x1, sep2);
    assert DigitsOnly(x2) == a;
    var x3 := x2 + b;
    DigitsOnlyConcat(x2, b);
    assert DigitsOnly(x3) == a + b;
    var x4 := x3 + sep3;
    DigitsOnlyConcat(x3, sep3);
    assert DigitsOnly(x4) == a + b;
    DigitsOnlyConcat(x4, c);
  }

  lemma NoDigits(s: string)
    requires forall i :: 0 <= i < |s| ==> !IsDigit(s[i])
    ensures DigitsOnly(s) == []
  {
    if s != [] {
      NoDigits(s[1..]);
    }
  }

  /** A valid number's ten digits are extracted again from any string whose
      digits are those ten, with or without a leading "1" and '+'. */
  lemma ExtractAgain(phone: string, f: string)
    requires ExtractTenDigits(phone).Some?
    requires var (digits, plus) := StripToDigits(f);
      var ten := ExtractTenDigits(phone).value;
      (digits == ten && !plus) || digits == "1" + ten
    ensures ExtractTenDigits(f) == ExtractTenDigits(phone)
  {
    var ten := ExtractTenDigits(phone).value;
    var (digits, plus) := StripToDigits(f);
    if digits != ten {
      assert digits[1..] == ten;
    }
  }

  /** Text with no surrounding whitespace is reduced to its own digits. */
  lemma StripToDigitsUnspaced(f: string)
    requires f != [] && !IsSpace(f[0]) && !IsSpace(f[|f| - 1])
    ensures StripToDigits(f) == (DigitsOnly(f), f[0] == '+')
  {
    StripUnchanged(f);
  }

  /** The digits of `open` + "AAA) NNN-NNNN", for an `open` without digits,
      are the ten digits. */
  lemma GroupedTenDigits(open: string, area: string, ln: string, ten: string, s: string)
    requires DigitsOnly(open) == []
    requires |ln| == 7 && AllDigits(area) && AllDigits(ln) && area + ln == ten
    requires s == open + area + ") " + ln[..3] + "-" + ln[3..]
    ensures DigitsOnly(s) == ten
  {
    NoDigits(") ");
    NoDigits("-");
    DigitsOfPieces(open, area, ") ", ln[..3], "-", ln[3..]);
    assert area + ln[..3] + ln[3..] == ten;
  }

  /** "+1" before some text adds a "1" before the text's digits. */
  lemma PlusOneDigits(tail: string, f: string)
    requires f == "+1" + tail
    ensures DigitsOnly(f) == "1" + DigitsOnly(tail)
  {
    assert DigitsOnly("+1") == "1" by {
      assert "+1"[1..] == "1";
      assert "1"[1..] == [];
    }
    DigitsOnlyConcat("+1", tail);
  }

  /** Parsing the national form gives back the parsed number. */
  lemma NationalRoundTrip(phone: string)
    requires FormatNational(phone).Ok?
    ensures ParsePhone(FormatNational(phone).value) == ParsePhone(phone)
  {
    var p := ParsePhone(phone).value;
    var ln := p.localNumber;
    var f := FormatNational(phone).value;
    assert f == "(" + p.areaCode + ") " + ln[..3] + "-" + ln[3..];
    NationalDigits(p.areaCode, ln, ExtractTenDigits(phone).value, f);
    ExtractAgain(phone, f);
  }

  lemma NationalDigits(area: string, ln: string, ten: string, f: string)
    requires |ln| == 7 && AllDigits(area) && AllDigits(ln) && area + ln == ten
    requires f == "(" + area + ") " + ln[..3] + "-" + ln[3..]
    ensures StripToDigits(f) == (ten, false)
  {
    NoDigits("(");
    GroupedTenDigits("(", area, ln, ten, f);
    assert f[|f| - 1] == ln[6];
    StripToDigitsUnspaced(f);
  }

  /** Parsing the E.164 form gives back the parsed number. */
  lemma E164RoundTrip(phone: string)
    requires FormatE164(phone).Ok?
    ensures ParsePhone(FormatE164(phone).value) == ParsePhone(phone)
  {
    var ten := ExtractTenDigits(phone).value;
    var f := FormatE164(phone).value;
    assert f == "+1" + ten;
    E164Digits(ten, f);
    ExtractAgain(phone, f);
  }

  lemma E164Digits(ten: string, f: string)
    requires |ten| == 10 && AllDigits(ten)
    requires f == "+1" + ten
    ensures StripToDigits(f) == ("1" + ten, true)
  {
    PlusOneDigits(ten, f);
    DigitsOnlyOfDigits(ten);
    assert f[|f| - 1] == ten[9];
    StripToDigitsUnspaced(f);
  }

  /** Parsing the international form gives back the parsed number. */
  lemma InternationalRoundTrip(phone: string)
    requires FormatInternational(phone).Ok?
    ensures ParsePhone(FormatInternational(phone).value) == ParsePhone(phone)
  {
    var p := ParsePhone(phone).value;
    var ln := p.localNumber;
    var f := FormatInternational(phone).value;
    InternationalDigits(p.areaCode, ln, ExtractTenDigits(phone).value, f);
    ExtractAgain(phone, f);
  }

  lemma InternationalDigits(area: string, ln: string, ten: string, f: string)
    requires |ln| == 7 && AllDigits(area) && AllDigits(ln) && area + ln == ten
    requires f == "+" + "1" + " (" + area + ") " + ln[..3] + "-" + ln[3..]
    ensures StripToDigits(f) == ("1" + ten, true)
  {
    var tail := " (" + area + ") " + ln[..3] + "-" + ln[3..];
    assert f == "+1" + tail;
    NoDigits(" (");
    GroupedTenDigits(" (", area, ln, ten, tail);
    PlusOneDigits(tail, f);
    assert f[|f| - 1] == ln[6];
    StripToDigitsUnspaced(f);
  }

  /** The local form has only seven digits, so it does not parse. */
  lemma LocalDoesNotParse(phone: string)
    requires FormatLocal(phone).Ok?
    ensures ParsePhone(FormatLocal(phone).value).None?
  {
    var ln := ParsePhone(phone).value.localNumber;
    var f := FormatLocal(phone).value;
    assert f == ln[..3] + "-" + ln[3..];
    LocalDigits(ln, f);
  }

  /** The digits of "NNN-NNNN" are the seven digits. */
  lemma LocalDigits(ln: string, f: string)
    requires |ln| == 7 && AllDigits(ln)
    requires f == ln[..3] + "-" + ln[3..]
    ensures StripToDigits(f).0 == ln
  {
    SevenDigits(ln, f);
    assert f[|f| - 1] == ln[6];
    StripToDigitsUnspaced(f);
  }

  lemma SevenDigits(ln: string, f: string)
    requires |ln| == 7 && AllDigits(ln)
    requires f == ln[..3] + "-" + ln[3..]
    ensures DigitsOnly(f) == ln
  {
    var a, b := ln[..3], ln[3..];
    NoDigits("-");
    DigitsOnlyOfDigits(a);
    DigitsOnlyOfDigits(b);
    var x := a + "-";
    DigitsOnlyConcat(a, "-");
    assert DigitsOnly(x) == a;
    DigitsOnlyConcat(x, b);
    assert a + b == ln;
  }
}
