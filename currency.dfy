/** Jamaican dollar amounts: rounding, display with thousands grouping,
    parsing back, conversion to and from US dollars, and General Consumption
    Tax (toolkit/jamaica-currency/python/jamaica_currency/__init__.py).
    Amounts are exact `real`s: the library's binary floating point is not
    modelled, so rounding is stated on exact values. */
module Currency {
  import opened Strings
  import opened Wrappers

  /** Standard GCT rate, 15%. */
  const GctRate: real := 0.15
  /** GCT rate on telecommunications, 25%. */
  const TelecomGctRate: real := 0.25
  /** Jamaican dollars per US dollar used when no rate is given. */
  const DefaultExchangeRate: real := 155.47

  datatype FormatOptions = FormatOptions(showSymbol: bool, decimals: int, useGrouping: bool)

  /** `FormatOptions()`: symbol shown, two decimals, grouping on. */
  const DefaultOptions := FormatOptions(true, 2, true)

  // ---------------------------------------------------------------------
  // Rounding
  // ---------------------------------------------------------------------

  /** `x * 10**d`, one factor of ten at a time. */
  function ScaleUp(x: real, d: nat): (r: real)
    ensures x >= 0.0 ==> r >= 0.0
  {
    if d == 0 then x else ScaleUp(x, d - 1) * 10.0
  }

  /** `x / 10**d`, one division by ten at a time. */
  function ScaleDown(x: real, d: nat): (r: real)
    ensures x >= 0.0 ==> r >= 0.0
  {
    if d == 0 then x else ScaleDown(x, d - 1) / 10.0
  }

  lemma {:induction false} ScaleDownTimesTen(y: real, d: nat)
    ensures ScaleDown(y * 10.0, d) == ScaleDown(y, d) * 10.0
  {
    if d > 0 {
      ScaleDownTimesTen(y, d - 1);
    }
  }

  /** Scaling down undoes scaling up. */
  lemma {:induction false} ScaleDownUp(x: real, d: nat)
    ensures ScaleDown(ScaleUp(x, d), d) == x
  {
    if d > 0 {
      var y := ScaleUp(x, d - 1);
      ScaleDownUp(x, d - 1);
      ScaleDownTimesTen(y, d);
      assert ScaleDown(y, d) * 10.0 == ScaleDown(y, d - 1);
    }
  }

  /** Scaling down is additive. */
  lemma {:induction false} ScaleDownAdd(a: real, b: real, d: nat)
    ensures ScaleDown(a + b, d) == ScaleDown(a, d) + ScaleDown(b, d)
  {
    if d > 0 {
      ScaleDownAdd(a, b, d - 1);
    }
  }

  /** Scaling down keeps the order, strict and not. */
  lemma {:induction false} ScaleDownOrder(a: real, b: real, d: nat)
    ensures a <= b <==> ScaleDown(a, d) <= ScaleDown(b, d)
    ensures a < b <==> ScaleDown(a, d) < ScaleDown(b, d)
  {
    if d > 0 {
      ScaleDownOrder(a, b, d - 1);
    }
  }

  /** Scaling up a whole number multiplies it by a power of ten. */
  lemma {:induction false} ScaleUpInt(n: int, d: nat)
    ensures ScaleUp(n as real, d) == (n * Power10(d)) as real
  {
    if d > 0 {
      ScaleUpInt(n, d - 1);
      var p := Power10(d - 1);
      assert n * (10 * p) == (n * p) * 10;
    }
  }

  /** `math.floor(x * 10**decimals + 0.5)`: the number of `10**-decimals`
      units nearest to `x`, halves rounded up. */
  function RoundedUnits(x: real, decimals: nat): (k: int)
    ensures k as real <= ScaleUp(x, decimals) + 0.5 < k as real + 1.0
    ensures x >= 0.0 ==> k >= 0
  {
    (ScaleUp(x, decimals) + 0.5).Floor
  }

  /** `_round_to`: a ValueError for negative `decimals`; otherwise the
      multiple of `10**-decimals` nearest to `x`, halves rounded up. */
  function RoundTo(x: real, decimals: int): (r: Result<real>)
    ensures r.Err? <==> decimals < 0
    ensures r.Err? ==> r.error == ValueError
    ensures r.Ok? ==> r.value == ScaleDown(RoundedUnits(x, decimals) as real, decimals)
    ensures r.Ok? ==> var half := ScaleDown(0.5, decimals);
      x - half < r.value <= x + half
  {
    if decimals < 0 then Err(ValueError)
    else
      var k := RoundedUnits(x, decimals);
      RoundBounds(x, k, decimals);
      Ok(ScaleDown(k as real, decimals))
  }

  /** Scaling the floor bounds back down. */
  lemma RoundBounds(x: real, k: int, d: nat)
    requires k as real <= ScaleUp(x, d) + 0.5 < k as real + 1.0
    ensures var half := ScaleDown(0.5, d);
      x - half < ScaleDown(k as real, d) <= x + half
  {
    var y := ScaleUp(x, d);
    ScaleDownUp(x, d);
    ScaleDownAdd(y, 0.5, d);
    ScaleDownAdd(y, -0.5, d);
    ScaleDownAdd(0.5, -0.5, d);
    assert ScaleDown(0.0, d) == 0.0 by { ScaleDownAdd(0.0, 0.0, d); }
    ScaleDownOrder(k as real, y + 0.5, d);
    ScaleDownOrder(y - 0.5, k as real, d);
  }

  // ---------------------------------------------------------------------
  // Thousands grouping
  // ---------------------------------------------------------------------

  /** The integer digits with a comma before every third digit counted from
      the right. */
  function Grouped(s: string): string
  {
    if |s| <= 3 then s else Grouped(s[..|s| - 3]) + "," + s[|s| - 3..]
  }

  /** One comma for every full group of three digits after the first. */
  lemma {:induction false} GroupedLength(s: string)
    ensures |s| > 0 ==> |Grouped(s)| == |s| + (|s| - 1) / 3
    ensures |s| == 0 ==> Grouped(s) == []
  {
    if |s| > 3 {
      GroupedLength(s[..|s| - 3]);
    }
  }

  /** Counting from the right, every fourth character of the grouped digits
      is a comma and the others are the digits in order. */
  lemma {:induction false} GroupedAt(s: string, j: nat)
    requires |s| > 0 && j < |s| + (|s| - 1) / 3
    ensures |Grouped(s)| == |s| + (|s| - 1) / 3
    ensures var g := Grouped(s);
      g[|g| - 1 - j] == if j % 4 == 3 then ',' else s[|s| - 1 - (j - j / 4)]
  {
    GroupedLength(s);
    var g := Grouped(s);
    if |s| > 3 {
      var t, u := s[..|s| - 3], s[|s| - 3..];
      var h := Grouped(t);
      assert g == h + "," + u;
      GroupedLength(t);
      if j >= 4 {
        GroupedAt(t, j - 4);
        assert g[|g| - 1 - j] == h[|h| - 1 - (j - 4)];
        assert (j - 4) % 4 == j % 4 && (j - 4) / 4 == j / 4 - 1;
      } else if j < 3 {
        assert g[|g| - 1 - j] == u[2 - j];
      } else {
        assert g[|g| - 1 - j] == ',';
      }
    }
  }

  /** The grouped digits never start with a comma. */
  lemma GroupedNoLeadingComma(s: string)
    requires |s| > 0 && ',' !in s
    ensures Grouped(s)[0] != ','
  {
    var g := Grouped(s);
    GroupedLength(s);
    var j := |g| - 1;
    GroupedAt(s, j);
    assert j % 4 != 3 by {
      var q := (|s| - 1) / 3;
      assert |s| - 1 == 3 * q + (|s| - 1) % 3;
      assert j == 4 * q + (|s| - 1) % 3;
    }
    assert g[0] == s[|s| - 1 - (j - j / 4)];
  }

  /** Removing the commas gives the digits back. */
  lemma {:induction false} GroupedUngroups(s: string)
    requires ',' !in s
    ensures RemoveChar(Grouped(s), ',') == s
  {
    if |s| > 3 {
      var t, u := s[..|s| - 3], s[|s| - 3..];
      assert ',' !in t by {
        forall i | 0 <= i < |t| ensures t[i] != ',' { assert t[i] == s[i]; }
      }
      assert ',' !in u by {
        forall i | 0 <= i < |u| ensures u[i] != ',' { assert u[i] == s[|s| - 3 + i]; }
      }
      var g := Grouped(t);
      assert Grouped(s) == (g + ",") + u;
      GroupedUngroups(t);
      assert RemoveChar(",", ',') == [] by { assert ","[1..] == []; }
      RemoveCharConcat(g, ",", ',');
      assert RemoveChar(g + ",", ',') == t;
      RemoveCharConcat(g + ",", u, ',');
      RemoveCharAbsent(u, ',');
      assert t + u == s;
    } else {
      RemoveCharAbsent(s, ',');
    }
  }

  /** Putting one more digit in front of already grouped digits. */
  lemma {:induction false} GroupedCons(c: char, t: string)
    ensures Grouped([c] + t) == [c] + (if |t| > 0 && |t| % 3 == 0 then "," else "") + Grouped(t)
    decreases |t|
  {
    var s := [c] + t;
    if |t| > 3 {
      var t', u := t[..|t| - 3], t[|t| - 3..];
      var sep := if |t'| % 3 == 0 then "," else "";
      assert s[..|s| - 3] == [c] + t';
      assert s[|s| - 3..] == u;
      GroupedCons(c, t');
      assert (|t| - 3) % 3 == |t| % 3;
      calc {
        Grouped(s);
        Grouped([c] + t') + "," + u;
        ([c] + sep + Grouped(t')) + "," + u;
        [c] + sep + (Grouped(t') + "," + u);
        [c] + sep + Grouped(t);
      }
    } else if |t| == 3 {
      assert s[..|s| - 3] == [c];
      assert s[|s| - 3..] == t;
    }
  }

  /** The grouping loop of `_format_absolute`: walk the integer digits from
      the right, putting a comma in front before every third one. */
  method GroupThousands(intPart: string) returns (grouped: string)
    ensures grouped == Grouped(intPart)
  {
    grouped := "";
    var i := 0;
    while i < |intPart|
      invariant 0 <= i <= |intPart|
      invariant grouped == Grouped(intPart[|intPart| - i..])
    {
      var ch := intPart[|intPart| - 1 - i];
      var rest := intPart[|intPart| - i..];
      assert intPart[|intPart| - (i + 1)..] == [ch] + rest;
      GroupedCons(ch, rest);
      if i > 0 && i % 3 == 0 {
        grouped := "," + grouped;
      }
      grouped := [ch] + grouped;
      i := i + 1;
    }
    assert intPart[|intPart| - i..] == intPart;
  }

  // ---------------------------------------------------------------------
  // Formatting
  // ---------------------------------------------------------------------

  /** The whole units in `k` parts of `1/p`. */
  function Whole(k: nat, p: nat): nat
    requires p >= 1
  {
    k / p
  }

  /** The parts of `1/p` left over from the whole units. */
  function Part(k: nat, p: nat): nat
    requires p >= 1
  {
    k % p
  }

  /** The integer digits of `k` units of `10**-decimals`. */
  function IntText(k: nat, decimals: nat): string
  {
    NatToString(Whole(k, Power10(decimals)))
  }

  /** The dot and the `decimals` fraction digits, or nothing. */
  function FracText(k: nat, decimals: nat): string
  {
    if decimals == 0 then "" else "." + Digits(Part(k, Power10(decimals)), decimals)
  }

  /** `f"{k / 10**decimals:.{decimals}f}"` for `k` units, optionally with the
      integer digits grouped. */
  function UnitsText(k: nat, decimals: nat, useGrouping: bool): string
  {
    (if useGrouping then Grouped(IntText(k, decimals)) else IntText(k, decimals))
    + FracText(k, decimals)
  }

  /** `_format_absolute` as a value: the rounded amount written out. */
  function AbsoluteText(absValue: real, decimals: int, useGrouping: bool): (r: Result<string>)
    requires absValue >= 0.0
    ensures r.Err? <==> decimals < 0
  {
    if decimals < 0 then Err(ValueError)
    else Ok(UnitsText(RoundedUnits(absValue, decimals), decimals, useGrouping))
  }

  /** `_format_absolute`: round, write with fixed decimals, then group the
      integer digits in a loop. */
  method FormatAbsolute(absValue: real, decimals: int, useGrouping: bool) returns (r: Result<string>)
    requires absValue >= 0.0
    ensures r == AbsoluteText(absValue, decimals, useGrouping)
  {
    if decimals < 0 {
      return Err(ValueError);
    }
    var k := RoundedUnits(absValue, decimals);
    var intPart := IntText(k, decimals);
    var decPart := FracText(k, decimals);
    if !useGrouping {
      return Ok(intPart + decPart);
    }
    var grouped := GroupThousands(intPart);
    return Ok(grouped + decPart);
  }

  function Abs(x: real): real
  {
    if x < 0.0 then -x else x
  }

  /** A "-" when negative, then the currency symbol, then the digits. */
  function Signed(negative: bool, symbol: string, digits: string): string
  {
    (if negative then "-" else "") + symbol + digits
  }

  /** `format_jmd`: a "-" for negative amounts, then "J$" when the symbol is
      shown, then the rounded absolute amount. */
  function FormatJmd(amount: real, options: FormatOptions): (r: Result<string>)
    ensures r.Err? <==> options.decimals < 0
  {
    match AbsoluteText(Abs(amount), options.decimals, options.useGrouping)
    case Err(e) => Err(e)
    case Ok(formatted) => Ok(Signed(amount < 0.0, if options.showSymbol then "J$" else "", formatted))
  }

  /** `format_usd`: sign, "US$", then the amount to two decimals, grouped. */
  function FormatUsd(amount: real): string
  {
    Signed(amount < 0.0, "US$", UnitsText(RoundedUnits(Abs(amount), 2), 2, true))
  }

  /** Grouped digits start and end with a digit and hold only digits and
      commas. */
  lemma GroupedShape(s: string)
    requires s != [] && AllDigits(s)
    ensures var g := Grouped(s);
      IsDigit(g[0]) && IsDigit(g[|g| - 1])
      && forall i :: 0 <= i < |g| ==> IsDigit(g[i]) || g[i] == ','
  {
    var g := Grouped(s);
    GroupedLength(s);
    assert ',' !in s;
    GroupedNoLeadingComma(s);
    GroupedAt(s, 0);
    forall i | 0 <= i < |g| ensures IsDigit(g[i]) || g[i] == ',' {
      GroupedAt(s, |g| - 1 - i);
    }
  }

  /** The written amount starts and ends with a digit. */
  lemma UnitsTextEnds(k: nat, decimals: nat, useGrouping: bool)
    ensures var t := UnitsText(k, decimals, useGrouping);
      t != [] && IsDigit(t[0]) && IsDigit(t[|t| - 1])
  {
    if useGrouping {
      GroupedShape(IntText(k, decimals));
    }
  }

  /** The written amount holds nothing but digits, commas and dots. */
  lemma UnitsTextChars(k: nat, decimals: nat, useGrouping: bool)
    ensures var t := UnitsText(k, decimals, useGrouping);
      forall i :: 0 <= i < |t| ==> IsDigit(t[i]) || t[i] == ',' || t[i] == '.'
  {
    if useGrouping {
      GroupedShape(IntText(k, decimals));
    }
  }

  /** The sign comes first and the symbol and digits follow it. */
  lemma SignedParts(negative: bool, symbol: string, digits: string)
    requires digits != [] && !IsSpace(digits[0]) && digits[0] != '-'
    requires symbol != [] ==> !IsSpace(symbol[0]) && symbol[0] != '-'
    ensures var s := Signed(negative, symbol, digits);
      var sign := if negative then 1 else 0;
      && s[sign..] == symbol + digits
      && (s[0] == '-' <==> negative)
      && (IsPrefix("-", s) <==> negative)
      && !IsSpace(s[0]) && s[|s| - 1] == digits[|digits| - 1]
  {
    var s := Signed(negative, symbol, digits);
    var sign := if negative then 1 else 0;
    assert s[sign..] == symbol + digits;
    PrefixByFirst("-", s);
    if negative {
      assert s[..1] == "-";
    }
  }

  /** A prefix shares the first element. */
  lemma PrefixByFirst<T>(p: seq<T>, s: seq<T>)
    requires p != [] && s != []
    ensures IsPrefix(p, s) ==> p[0] == s[0]
  {
    if |p| <= |s| {
      assert s[..|p|][0] == s[0];
    }
  }

  /** `format_jmd` output starts with "-" exactly for negative amounts,
      followed by "J$" exactly when the symbol is shown. */
  lemma FormatJmdPrefix(amount: real, options: FormatOptions)
    requires options.decimals >= 0
    ensures var s := FormatJmd(amount, options).value;
      var sign := if amount < 0.0 then 1 else 0;
      && (IsPrefix("-", s) <==> amount < 0.0)
      && (IsPrefix("J$", s[sign..]) <==> options.showSymbol)
  {
    var k := RoundedUnits(Abs(amount), options.decimals);
    var body := UnitsText(k, options.decimals, options.useGrouping);
    var symbol := if options.showSymbol then "J$" else "";
    UnitsTextEnds(k, options.decimals, options.useGrouping);
    assert AbsoluteText(Abs(amount), options.decimals, options.useGrouping) == Ok(body);
    assert FormatJmd(amount, options) == Ok(Signed(amount < 0.0, symbol, body));
    SignedParts(amount < 0.0, symbol, body);
    if options.showSymbol {
      assert (symbol + body)[..2] == "J$";
    } else {
      assert symbol + body == body;
      PrefixByFirst("J$", body);
    }
  }

  /** `format_usd` output starts with "-" exactly for negative amounts, and
      "US$" follows the sign. */
  lemma FormatUsdPrefix(amount: real)
    ensures var s := FormatUsd(amount);
      var sign := if amount < 0.0 then 1 else 0;
      && (IsPrefix("-", s) <==> amount < 0.0)
      && IsPrefix("US$", s[sign..])
  {
    var k := RoundedUnits(Abs(amount), 2);
    var body := UnitsText(k, 2, true);
    UnitsTextEnds(k, 2, true);
    SignedParts(amount < 0.0, "US$", body);
    assert ("US$" + body)[..3] == "US$";
  }

  // ---------------------------------------------------------------------
  // Parsing
  // ---------------------------------------------------------------------

  /** Index of the first '.' in `s`, or `|s|`. */
  function DotIndex(s: string): (i: nat)
    ensures i <= |s| && (i < |s| ==> s[i] == '.') && '.' !in s[..i]
  {
    if s == [] then 0
    else if s[0] == '.' then 0
    else
      var i := 1 + DotIndex(s[1..]);
      assert s[..i] == [s[0]] + s[1..][..i - 1];
      i
  }

  /** Digits, optionally a dot and more digits: `\d+(\.\d+)?`. */
  predicate IsDecimal(t: string)
  {
    var i := DotIndex(t);
    i > 0 && AllDigits(t[..i]) && (i == |t| || (i + 1 < |t| && AllDigits(t[i + 1..])))
  }

  /** The value of a decimal numeral: `float(t)` in exact arithmetic. */
  function DecimalValue(t: string): real
    requires IsDecimal(t)
  {
    var i := DotIndex(t);
    DigitsValue(t[..i]) as real
    + if i == |t| then 0.0 else ScaleDown(DigitsValue(t[i + 1..]) as real, |t| - i - 1)
  }

  /** `re.match(r"^\d+(\.\d+)?$", s)` followed by `float(s)`: Python's `$`
      also matches before one final newline, which `float` then ignores. */
  function ParseNumber(s: string): (r: Option<real>)
    ensures r.Some? ==> r.value >= 0.0
  {
    var t := if s != [] && s[|s| - 1] == '\n' then s[..|s| - 1] else s;
    if IsDecimal(t) then Some(DecimalValue(t)) else None
  }

  /** `parse_jmd`: strip; an optional leading "-" (then strip); an optional
      "J$" (then strip); commas removed; the rest must be digits with an
      optional fraction. `None` for no input, blank input, a bare sign or
      symbol, or anything else. */
  function ParseJmd(formatted: Option<string>): (r: Option<real>)
    ensures formatted.None? ==> r.None?
    ensures formatted.Some? && IsBlank(formatted.value) ==> r.None?
  {
    if formatted.None? then None
    else
      StripEmptyIffBlank(formatted.value);
      ParseStripped(Strip(formatted.value))
  }

  /** The stripped text: empty, or an optional "-" before the unsigned part. */
  function ParseStripped(s: string): (r: Option<real>)
    ensures s == [] ==> r.None?
  {
    if s == [] then None
    else if s[0] == '-' then Negate(ParseUnsigned(Strip(s[1..])))
    else ParseUnsigned(s)
  }

  function Negate(v: Option<real>): Option<real>
  {
    if v.None? then None else Some(-v.value)
  }



  /** After the sign: an optional "J$" (then strip), then a number whose
      commas are dropped. */
  function ParseUnsigned(s: string): (r: Option<real>)
    ensures r.Some? ==> r.value >= 0.0
  {
    var rest := if IsPrefix("J$", s) then Strip(s[2..]) else s;
    if rest == [] then None else ParseNumber(RemoveChar(rest, ','))
  }

  /** A bare "J$" or "-" is not an amount. */
  lemma ParseBareSymbols()
    ensures ParseJmd(Some("J$")) == None
    ensures ParseJmd(Some("-")) == None
    ensures ParseJmd(Some("-J$")) == None
  {
    BareUnsigned();
    ParseUnspaced("J$");
    ParseUnspaced("-");
    assert "-"[1..] == [];
    ParseUnspaced("-J$");
    assert "-J$"[1..] == "J$";
  }

  /** Text that neither starts nor ends with whitespace is parsed as it
      stands. */
  lemma ParseUnspaced(s: string)
    requires s != [] && !IsSpace(s[0]) && !IsSpace(s[|s| - 1])
    ensures ParseJmd(Some(s)) == ParseStripped(s)
  {
    StripUnchanged(s);
  }

  /** A bare symbol, or nothing, holds no number. */
  lemma BareUnsigned()
    ensures ParseUnsigned("J$") == None && ParseUnsigned([]) == None
  {
    assert "J$"[2..] == [];
  }

  /** Digits, commas and dots are not whitespace, so such text is its own
      `strip()`. */
  lemma StripNumberText(t: string)
    requires t != [] && IsDigit(t[0]) && IsDigit(t[|t| - 1])
    ensures Strip(t) == t
  {
    StripUnchanged(t);
  }

  /** Removing the commas from the written units leaves the ungrouped
      text. */
  lemma UnitsUngrouped(k: nat, d: nat, useGrouping: bool)
    ensures RemoveChar(UnitsText(k, d, useGrouping), ',') == IntText(k, d) + FracText(k, d)
  {
    var intPart, tail := IntText(k, d), FracText(k, d);
    assert ',' !in intPart;
    assert ',' !in tail;
    RemoveCharAbsent(intPart, ',');
    RemoveCharAbsent(tail, ',');
    if useGrouping {
      GroupedUngroups(intPart);
      RemoveCharConcat(Grouped(intPart), tail, ',');
    } else {
      RemoveCharConcat(intPart, tail, ',');
    }
  }

  /** The ungrouped text is a decimal numeral worth `k / 10**d`. */
  lemma UnitsDecimal(k: nat, d: nat)
    ensures var t := IntText(k, d) + FracText(k, d);
      IsDecimal(t) && DecimalValue(t) == ScaleDown(k as real, d)
  {
    var p := Power10(d);
    var intPart := IntText(k, d);
    SplitUnits(k, d);
    if d == 0 {
      assert FracText(k, d) == [];
      DecimalJoin(intPart, [], intPart + FracText(k, d));
    } else {
      var f := Digits(Part(k, p), d);
      DigitsValueOf(Part(k, p), d);
      DecimalJoin(intPart, f, intPart + FracText(k, d));
    }
  }

  /** Digits, then a dot and more digits unless those are empty, form a
      decimal numeral whose value is the whole part plus the scaled
      fraction. */
  lemma DecimalJoin(a: string, f: string, t: string)
    requires a != [] && AllDigits(a) && AllDigits(f)
    requires t == if f == [] then a else a + "." + f
    ensures IsDecimal(t)
    ensures DecimalValue(t) == DigitsValue(a) as real
      + (if f == [] then 0.0 else ScaleDown(DigitsValue(f) as real, |f|))
  {
    NoDotInDigits(a);
    if f == [] {
      DotAt(a, []);
      assert t[..|a|] == a;
    } else {
      DecimalJoinFraction(a, f, t);
    }
  }

  lemma DecimalJoinFraction(a: string, f: string, t: string)
    requires a != [] && AllDigits(a) && '.' !in a && f != [] && AllDigits(f)
    requires t == a + "." + f
    ensures IsDecimal(t)
    ensures DecimalValue(t) == DigitsValue(a) as real + ScaleDown(DigitsValue(f) as real, |f|)
  {
    var tail := "." + f;
    assert t == a + tail;
    DotAt(a, tail);
    assert t[..|a|] == a;
    assert t[|a| + 1..] == f;
  }

  lemma NoDotInDigits(a: string)
    requires AllDigits(a)
    ensures '.' !in a
  {
    forall i | 0 <= i < |a| ensures a[i] != '.' {
      assert IsDigit(a[i]);
    }
  }

  /** The first dot of `a + b`, where `a` has none and `b` is empty or
      starts with a dot, is at `|a|`. */
  lemma {:induction false} DotAt(a: string, b: string)
    requires '.' !in a && (b == [] || b[0] == '.')
    ensures DotIndex(a + b) == |a|
  {
    if a != [] {
      assert (a + b)[1..] == a[1..] + b;
      DotAt(a[1..], b);
    }
  }

  /** Whole units and the left-over parts of `10**-d` make up `k` parts. */
  lemma SplitUnits(k: nat, d: nat)
    ensures var p := Power10(d);
      && Part(k, p) < p
      && Whole(k, p) as real + ScaleDown(Part(k, p) as real, d) == ScaleDown(k as real, d)
      && (d == 0 ==> Whole(k, p) == k)
  {
    var p := Power10(d);
    var q, m := Whole(k, p), Part(k, p);
    assert k == q * p + m;
    ScaleUpInt(q, d);
    ScaleDownUp(q as real, d);
    ScaleDownAdd((q * p) as real, m as real, d);
  }

  /** A decimal numeral ends with a digit. */
  lemma DecimalEndsWithDigit(t: string)
    requires IsDecimal(t)
    ensures IsDigit(t[|t| - 1])
  {
    var i := DotIndex(t);
    if i == |t| {
      assert t[..i][i - 1] == t[|t| - 1];
    } else {
      var f := t[i + 1..];
      assert f[|f| - 1] == t[|t| - 1];
    }
  }

  /** A well-formed numeral is read as its value. */
  lemma ParseDecimal(t: string)
    requires IsDecimal(t)
    ensures ParseNumber(t) == Some(DecimalValue(t))
  {
    DecimalEndsWithDigit(t);
  }

  /** The optional "J$" in front of digits is dropped. */
  lemma ParseUnsignedBody(showSymbol: bool, body: string)
    requires body != [] && IsDigit(body[0]) && IsDigit(body[|body| - 1])
    ensures ParseUnsigned((if showSymbol then "J$" else "") + body)
      == ParseNumber(RemoveChar(body, ','))
  {
    var s1 := (if showSymbol then "J$" else "") + body;
    if showSymbol {
      assert s1[..2] == "J$" && s1[2..] == body;
      StripUnchanged(body);
    } else {
      assert s1 == body;
      PrefixByFirst("J$", body);
    }
  }

  /** Signed text is parsed as the symbol and digits after the sign,
      negated when there is a "-". */
  lemma ParseSignedRest(negative: bool, symbol: string, digits: string)
    requires digits != [] && !IsSpace(digits[0]) && digits[0] != '-' && !IsSpace(digits[|digits| - 1])
    requires symbol != [] ==> !IsSpace(symbol[0]) && symbol[0] != '-'
    ensures var v := ParseUnsigned(symbol + digits);
      ParseJmd(Some(Signed(negative, symbol, digits))) == if negative then Negate(v) else v
  {
    var s := Signed(negative, symbol, digits);
    var rest := symbol + digits;
    SignedParts(negative, symbol, digits);
    StripUnchanged(s);
    assert rest[0] == if symbol != [] then symbol[0] else digits[0];
    assert rest[|rest| - 1] == digits[|digits| - 1];
    StripUnchanged(rest);
    assert ParseJmd(Some(s)) == ParseStripped(s);
    if negative {
      assert s[1..] == rest;
    } else {
      assert s == rest;
    }
  }

  /** Parsing signed, optionally symbolled digits reads the digits without
      their commas, negated after a "-". */
  lemma ParseSigned(negative: bool, showSymbol: bool, body: string)
    requires body != [] && IsDigit(body[0]) && IsDigit(body[|body| - 1])
    ensures var v := ParseNumber(RemoveChar(body, ','));
      ParseJmd(Some(Signed(negative, if showSymbol then "J$" else "", body)))
        == if negative then Negate(v) else v
  {
    ParseSignedRest(negative, if showSymbol then "J$" else "", body);
    ParseUnsignedBody(showSymbol, body);
  }

  /** A signed reading of a number is that number, negated after a "-". */
  lemma SignedValue(r: Option<real>, w: Option<real>, v: real, negative: bool)
    requires r == (if negative then Negate(w) else w) && w == Some(v)
    ensures r == Some(if negative then -v else v)
  {
  }

  /** Written units read back, with their sign. */
  lemma ParseUnits(negative: bool, showSymbol: bool, useGrouping: bool, k: nat, d: nat, body: string, v: real)
    requires body == UnitsText(k, d, useGrouping) && v == ScaleDown(k as real, d)
    ensures ParseJmd(Some(Signed(negative, if showSymbol then "J$" else "", body)))
      == Some(if negative then -v else v)
  {
    var t := IntText(k, d) + FracText(k, d);
    UnitsTextEnds(k, d, useGrouping);
    UnitsUngrouped(k, d, useGrouping);
    UnitsDecimal(k, d);
    ParseDecimal(t);
    ParseSigned(negative, showSymbol, body);
    var r := ParseJmd(Some(Signed(negative, if showSymbol then "J$" else "", body)));
    var w := ParseNumber(RemoveChar(body, ','));
    assert w == Some(v);
    assert r == (if negative then Negate(w) else w);
    SignedValue(r, w, v, negative);
  }

  /** `parse_jmd` undoes `format_jmd`: parsing a formatted amount gives the
      amount rounded half up to the format's decimals, with its sign. */
  lemma ParseFormatJmd(amount: real, options: FormatOptions, s: string, rounded: real)
    requires FormatJmd(amount, options) == Ok(s)
    requires RoundTo(Abs(amount), options.decimals) == Ok(rounded)
    ensures ParseJmd(Some(s)) == Some(if amount < 0.0 then -rounded else rounded)
  {
    var d := options.decimals;
    var k := RoundedUnits(Abs(amount), d);
    var body := UnitsText(k, d, options.useGrouping);
    var symbol := if options.showSymbol then "J$" else "";
    assert AbsoluteText(Abs(amount), d, options.useGrouping) == Ok(body);
    assert s == Signed(amount < 0.0, symbol, body);
    assert rounded == ScaleDown(k as real, d);
    ParseUnits(amount < 0.0, options.showSymbol, options.useGrouping, k, d, body, rounded);
  }

  // ---------------------------------------------------------------------
  // Conversion and GCT
  // ---------------------------------------------------------------------

  /** `jmd_to_usd`: divide by the rate, rounded to three decimals; a zero
      rate is Python's ZeroDivisionError. */
  function JmdToUsd(jmd: real, rate: real): (r: Result<real>)
    ensures r.Err? <==> rate == 0.0
    ensures r.Ok? ==> jmd / rate - 0.0005 < r.value <= jmd / rate + 0.0005
  {
    assert ScaleDown(0.5, 3) == 0.0005;
    if rate == 0.0 then Err(ZeroDivisionError) else RoundTo(jmd / rate, 3)
  }

  /** `usd_to_jmd`: multiply by the rate, rounded to two decimals. */
  function UsdToJmd(usd: real, rate: real): (r: real)
    ensures usd * rate - 0.005 < r <= usd * rate + 0.005
  {
    assert ScaleDown(0.5, 2) == 0.005;
    RoundTo(usd * rate, 2).value
  }

  /** `add_gct`: the amount with GCT at `rate` added. */
  function AddGct(amount: real, rate: real): real
  {
    amount * (1.0 + rate)
  }

  /** `remove_gct`: the base amount of a GCT-inclusive amount; a rate of -1
      is Python's ZeroDivisionError. */
  function RemoveGct(amountWithGct: real, rate: real): (r: Result<real>)
    ensures r.Err? <==> rate == -1.0
  {
    if 1.0 + rate == 0.0 then Err(ZeroDivisionError) else Ok(amountWithGct / (1.0 + rate))
  }

  /** Removing GCT undoes adding it, and adding undoes removing. */
  lemma GctRoundTrip(x: real, rate: real)
    requires rate != -1.0
    ensures RemoveGct(AddGct(x, rate), rate) == Ok(x)
    ensures AddGct(RemoveGct(x, rate).value, rate) == x
  {
    var f := 1.0 + rate;
    DivCancel(x, f);
    assert AddGct(x, rate) == x * f;
    assert RemoveGct(x * f, rate).value == (x * f) / f;
    assert RemoveGct(x, rate).value == x / f;
  }

  /** Multiplying and dividing by the same non-zero factor cancel. */
  lemma DivCancel(x: real, f: real)
    requires f != 0.0
    ensures (x * f) / f == x && (x / f) * f == x
  {
  }

  /** `add_telecom_gct`: GCT at the telecom rate. */
  function AddTelecomGct(amount: real): (r: real)
    ensures r == AddGct(amount, TelecomGctRate)
    ensures amount >= 0.0 ==> r >= amount
  {
    amount * (1.0 + TelecomGctRate)
  }

  /** The figures behind `format_with_gct`. */
  datatype GctFigures = GctFigures(base: real, gct: real, total: real)

  /** `format_with_gct`'s arithmetic: GCT at 15% rounded to cents, and the
      total rounded to cents. */
  function WithGct(amount: real): GctFigures
  {
    var gct := RoundTo(amount * GctRate, 2).value;
    GctFigures(amount, gct, RoundTo(amount + gct, 2).value)
  }

  /** For an amount in whole cents the total is exactly base plus GCT, and
      the GCT is 15% of the amount to within half a cent. */
  lemma WithGctTotal(amount: real, cents: int)
    requires amount * 100.0 == cents as real
    ensures var f := WithGct(amount);
      f.total == f.base + f.gct
      && amount * GctRate - 0.005 < f.gct <= amount * GctRate + 0.005
  {
    var gctCents := RoundedUnits(amount * GctRate, 2);
    var gct := RoundTo(amount * GctRate, 2).value;
    Cents(gctCents as real);
    assert gct == gctCents as real / 100.0;
    var sum := amount + gct;
    Cents(sum);
    assert ScaleUp(sum, 2) == (cents + gctCents) as real;
    assert RoundedUnits(sum, 2) == cents + gctCents;
    Cents((cents + gctCents) as real);
    assert RoundTo(sum, 2).value == sum;
    Cents(0.5);
  }

  /** Two decimal places: a hundredfold. */
  lemma Cents(x: real)
    ensures ScaleUp(x, 2) == x * 100.0 && ScaleDown(x, 2) == x / 100.0
  {
    assert ScaleUp(x, 1) == x * 10.0;
    assert ScaleUp(x, 2) == ScaleUp(x, 1) * 10.0;
    assert ScaleDown(x, 1) == x / 10.0;
    assert ScaleDown(x, 2) == ScaleDown(x, 1) / 10.0;
  }

  /** `GCTBreakdown`: the three amounts as `format_jmd` writes them. */
  datatype GctBreakdown = GctBreakdown(base: string, gct: string, total: string)

  /** `format_with_gct`: the base, the GCT and the total, each written by
      `format_jmd` with the default options. */
  function FormatWithGct(amount: real): GctBreakdown
  {
    var f := WithGct(amount);
    GctBreakdown(FormatJmd(f.base, DefaultOptions).value, FormatJmd(f.gct, DefaultOptions).value,
                 FormatJmd(f.total, DefaultOptions).value)
  }

  /** For an amount in whole cents, each of the three written amounts
      parses back to its figure, and the total reads as base plus GCT. */
  lemma FormatWithGctParses(amount: real, cents: int)
    requires amount * 100.0 == cents as real
    ensures var f := WithGct(amount); var b := FormatWithGct(amount);
      && ParseJmd(Some(b.base)) == Some(f.base)
      && ParseJmd(Some(b.gct)) == Some(f.gct)
      && ParseJmd(Some(b.total)) == Some(f.base + f.gct)
  {
    var f := WithGct(amount);
    WithGctTotal(amount, cents);
    var gctCents := RoundedUnits(amount * GctRate, 2);
    Cents(gctCents as real);
    ParseCents(amount, cents, FormatJmd(amount, DefaultOptions).value);
    ParseCents(f.gct, gctCents, FormatJmd(f.gct, DefaultOptions).value);
    ParseCents(f.total, cents + gctCents, FormatJmd(f.total, DefaultOptions).value);
  }

  /** An amount in whole cents is written with the default options so
      that it parses back exactly. */
  lemma ParseCents(x: real, n: int, s: string)
    requires x * 100.0 == n as real
    requires FormatJmd(x, DefaultOptions) == Ok(s)
    ensures ParseJmd(Some(s)) == Some(x)
  {
    RoundCents(x, n);
    ParseFormatJmd(x, DefaultOptions, s, Abs(x));
  }

  /** Rounding an amount in whole cents to two decimals leaves it as it
      is. */
  lemma RoundCents(x: real, n: int)
    requires x * 100.0 == n as real
    ensures RoundTo(Abs(x), 2) == Ok(Abs(x))
  {
    var a := Abs(x);
    var m := if n < 0 then -n else n;
    assert a * 100.0 == m as real;
    Cents(a);
    assert RoundedUnits(a, 2) == m;
    Cents(m as real);
  }
}
