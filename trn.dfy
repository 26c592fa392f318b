/** Jamaican Tax Registration Number: nine digits whose last digit is a
    weighted mod-11 check digit over the first eight
    (toolkit/jamaica-trn/python/jamaica_trn/__init__.py). */
module Trn {
  import opened Strings
  import opened Wrappers

  /** What `re.match(r"^\d{n}$", s)` accepts: `n` digits, optionally followed by
      one final newline, since Python's `$` also matches just before a
      trailing "\n". */
  predicate FullDigits(s: string, n: nat)
  {
    (|s| == n || (|s| == n + 1 && s[n] == '\n'))
    && forall i :: 0 <= i < n ==> IsDigit(s[i])
  }

  /** Sum of the first eight digits of `d`, each times its weight; the
      weights are 3, 7, 1, 3, 7, 1, 3, 7. */
  function WeightedSum(d: string): nat
    requires 8 <= |d|
    requires forall i :: 0 <= i < 8 ==> IsDigit(d[i])
  {
    3 * DigitValue(d[0]) + 7 * DigitValue(d[1]) + 1 * DigitValue(d[2])
    + 3 * DigitValue(d[3]) + 7 * DigitValue(d[4]) + 1 * DigitValue(d[5])
    + 3 * DigitValue(d[6]) + 7 * DigitValue(d[7])
  }

  /** The weighted sum reads only the first eight characters. */
  lemma WeightedSumSamePrefix(a: string, b: string)
    requires 8 <= |a| && 8 <= |b| && a[..8] == b[..8]
    requires forall i :: 0 <= i < 8 ==> IsDigit(a[i])
    ensures WeightedSum(a) == WeightedSum(b)
  {
    assert a[0] == b[0] && a[1] == b[1] && a[2] == b[2] && a[3] == b[3];
    assert a[4] == b[4] && a[5] == b[5] && a[6] == b[6] && a[7] == b[7];
  }

  /** `unformat_trn`: surrounding whitespace trimmed, then every dash removed. */
  function Unformat(trn: string): (raw: string)
    ensures '-' !in raw
    ensures |raw| <= |trn|
  {
    RemoveChar(Strip(trn), '-')
  }

  /** `get_trn_check_digit`: `None` unless the input is eight digits; otherwise
      the digit that makes the weighted sum a multiple of 11, or `None` when
      that digit would have to be 10. */
  function CheckDigit(digits: string): (r: Option<nat>)
    ensures !FullDigits(digits, 8) ==> r == None
    ensures FullDigits(digits, 8) ==> (r == None <==> WeightedSum(digits) % 11 == 1)
    ensures r.Some? ==> r.value < 10 && (WeightedSum(digits) + r.value) % 11 == 0
  {
    if !FullDigits(digits, 8) then None
    else
      var sum := WeightedSum(digits);
      CheckDigitArithmetic(sum);
      var remainder := sum % 11;
      var check := if remainder == 0 then 0 else 11 - remainder;
      if check == 10 then None else Some(check)
  }

  /** The digit that completes a weighted sum `s` to a multiple of 11 is 10
      exactly when `s` leaves remainder 1. */
  lemma CheckDigitArithmetic(s: nat)
    ensures var check := if s % 11 == 0 then 0 else 11 - s % 11;
      check <= 10 && (check == 10 <==> s % 11 == 1) && (s + check) % 11 == 0
  {
  }

  /** `is_valid_trn`. Whatever the input's layout, it is valid exactly when
      the raw form is nine digits whose weighted sum, with weight 1 on the
      ninth digit, is a multiple of 11. */
  function IsValid(trn: string): (b: bool)
    ensures b == Checksummed(Unformat(trn))
  {
    var raw := Unformat(trn);
    if !FullDigits(raw, 9) then false
    else
      var prefix := raw[..8];
      var provided := DigitValue(raw[8]);
      var expected := CheckDigit(prefix);
      WeightedSumSamePrefix(raw, prefix);
      CheckDigitMatches(WeightedSum(raw), provided);
      expected.Some? && provided == expected.value
  }

  /** Nine digits whose weighted sum, with weight 1 on the ninth digit, is a
      multiple of 11. */
  predicate Checksummed(raw: string)
  {
    FullDigits(raw, 9) && (WeightedSum(raw) + DigitValue(raw[8])) % 11 == 0
  }

  /** A digit `d` is the check digit of a weighted sum `s` exactly when it
      brings the sum to a multiple of 11. */
  lemma CheckDigitMatches(s: nat, d: nat)
    requires d < 10
    ensures (s % 11 != 1 && d == (if s % 11 == 0 then 0 else 11 - s % 11)) <==> (s + d) % 11 == 0
  {
  }

  /** `format_trn`: `NNN-NNN-NNN`, or a ValueError when the raw form is not
      nine digits. Removing the two dashes gives back the nine digits. */
  function Format(trn: string): (r: Result<string>)
    ensures r.Err? <==> !FullDigits(Unformat(trn), 9)
    ensures r.Err? ==> r.error == ValueError
    ensures r.Ok? ==> |r.value| == 11 && r.value[3] == '-' && r.value[7] == '-'
    ensures r.Ok? ==> RemoveChar(r.value, '-') == Unformat(trn)[..9]
  {
    var raw := Unformat(trn);
    if !FullDigits(raw, 9) then Err(ValueError)
    else
      GroupsOfNine(raw);
      Ok(Grouped(raw))
  }

  /** The display layout of nine raw digits. */
  function Grouped(raw: string): string
    requires |raw| >= 9
  {
    raw[..3] + "-" + raw[3..6] + "-" + raw[6..9]
  }

  lemma GroupsOfNine(raw: string)
    requires |raw| >= 9 && '-' !in raw
    ensures var f := Grouped(raw); |f| == 11 && f[3] == '-' && f[7] == '-'
    ensures RemoveChar(Grouped(raw), '-') == raw[..9]
  {
    var a, b, c := raw[..3], raw[3..6], raw[6..9];
    assert '-' !in a && '-' !in b && '-' !in c by {
      assert forall x :: x in a || x in b || x in c ==> x in raw;
    }
    DashFreeGroups(a, b, c);
    assert a + b + c == raw[..9];
  }

  lemma DashFreeGroups(a: string, b: string, c: string)
    requires '-' !in a && '-' !in b && '-' !in c
    ensures RemoveChar(a + "-" + b + "-" + c, '-') == a + b + c
  {
    var dash := "-";
    assert RemoveChar(dash, '-') == [] by {
      assert dash[1..] == [];
    }
    RemoveCharAbsent(a, '-');
    RemoveCharAbsent(b, '-');
    RemoveCharAbsent(c, '-');
    RemoveCharConcat(a, dash, '-');
    assert RemoveChar(a + dash, '-') == a;
    RemoveCharConcat(a + dash, b, '-');
    assert RemoveChar(a + dash + b, '-') == a + b;
    RemoveCharConcat(a + dash + b, dash, '-');
    assert RemoveChar(a + dash + b + dash, '-') == a + b;
    RemoveCharConcat(a + dash + b + dash, c, '-');
  }

  /** A string of digits has no whitespace or dashes, so it is its own raw form. */
  lemma UnformatOfDigits(s: string)
    requires AllDigits(s)
    ensures Unformat(s) == s
  {
    assert Strip(s) == s by {
      if s != [] {
        assert IsDigit(s[0]) && IsDigit(s[|s| - 1]);
      }
      StripUnchanged(s);
    }
    assert RemoveChar(s, '-') == s by {
      assert '-' !in s by {
        forall i | 0 <= i < |s| ensures s[i] != '-' {
          assert IsDigit(s[i]);
        }
      }
      RemoveCharAbsent(s, '-');
    }
  }

  /** The raw form of a formatted TRN is the nine digits it was made from. */
  lemma UnformatGrouped(raw: string)
    requires FullDigits(raw, 9) && '-' !in raw
    ensures Unformat(Grouped(raw)) == raw[..9]
  {
    var f := Grouped(raw);
    GroupsOfNine(raw);
    assert f[0] == raw[0] && f[10] == raw[8];
    StripUnchanged(f);
  }

  /** Formatting keeps the digits: unformatting a formatted TRN gives its
      nine digits, which is the input's own raw form exactly when that raw
      form is nine characters long; a raw form that carried the trailing
      newline `$` admits loses it. */
  lemma FormatRoundTrip(trn: string)
    requires Format(trn).Ok?
    ensures Unformat(Format(trn).value) == Unformat(trn)[..9]
    ensures Unformat(Format(trn).value) == Unformat(trn) <==> |Unformat(trn)| == 9
  {
    var raw := Unformat(trn);
    UnformatGrouped(raw);
    assert |raw| == 9 ==> raw[..9] == raw;
  }

  /** Formatting preserves validity. */
  lemma FormatPreservesValidity(trn: string)
    requires Format(trn).Ok?
    ensures IsValid(Format(trn).value) == IsValid(trn)
  {
    var raw := Unformat(trn);
    assert Format(trn).value == Grouped(raw);
    UnformatGrouped(raw);
    ChecksumFirstNine(raw);
  }

  lemma ChecksumFirstNine(raw: string)
    requires FullDigits(raw, 9)
    ensures Checksummed(raw[..9]) == Checksummed(raw)
  {
    WeightedSumSamePrefix(raw, raw[..9]);
  }

  /** A formatted TRN formats to itself. */
  lemma FormatIdempotent(trn: string)
    requires Format(trn).Ok?
    ensures Format(Format(trn).value) == Format(trn)
  {
    var raw := Unformat(trn);
    assert Format(trn).value == Grouped(raw);
    UnformatGrouped(raw);
    GroupedFirstNine(raw);
  }

  lemma GroupedFirstNine(raw: string)
    requires FullDigits(raw, 9)
    ensures FullDigits(raw[..9], 9) && Grouped(raw[..9]) == Grouped(raw)
  {
    var raw9 := raw[..9];
    assert raw9[..3] == raw[..3] && raw9[3..6] == raw[3..6] && raw9[6..9] == raw[6..9];
  }

  /** Appending its check digit to an eight-digit prefix that has one gives a
      valid nine-digit TRN. */
  lemma AppendCheckDigitValid(prefix: string, c: nat)
    requires |prefix| == 8 && AllDigits(prefix)
    requires CheckDigit(prefix) == Some(c)
    ensures var t := prefix + [DigitChar(c)];
      |t| == 9 && AllDigits(t) && t[..8] == prefix && IsValid(t)
  {
    var t := prefix + [DigitChar(c)];
    assert t[..8] == prefix;
    assert Checksummed(t) by {
      WeightedSumSamePrefix(prefix, t);
      assert DigitValue(t[8]) == c;
    }
    assert AllDigits(t);
    UnformatOfDigits(t);
  }

  /** `generate_test_trn`, with the random prefixes it draws passed in as
      `draws`: the first drawn prefix that has a check digit, followed by it.
      The source retries forever; here the retries end with the draws, and
      `None` means none of them had a check digit. */
  method GenerateTestTrn(draws: seq<string>) returns (trn: Option<string>)
    requires forall i :: 0 <= i < |draws| ==> |draws[i]| == 8 && AllDigits(draws[i])
    ensures trn.None? <==> forall i :: 0 <= i < |draws| ==> CheckDigit(draws[i]).None?
    ensures trn.Some? ==> |trn.value| == 9 && AllDigits(trn.value) && IsValid(trn.value)
    ensures trn.Some? ==> exists i :: FirstWithCheckDigit(draws, i) && trn.value[..8] == draws[i]
  {
    var check: Option<nat> := None;
    var prefix := "";
    var i := 0;
    while check.None? && i < |draws|
      invariant 0 <= i <= |draws|
      invariant forall j :: 0 <= j < i && (check.None? || j < i - 1) ==> CheckDigit(draws[j]).None?
      invariant check.Some? ==> 0 < i && prefix == draws[i - 1] && CheckDigit(prefix) == check
    {
      prefix := draws[i];
      check := CheckDigit(prefix);
      i := i + 1;
    }
    if check.None? {
      return None;
    }
    assert FirstWithCheckDigit(draws, i - 1);
    AppendCheckDigitValid(prefix, check.value);
    trn := Some(prefix + [DigitChar(check.value)]);
  }

  /** Draw `i` is the first of `draws` that has a check digit. */
  predicate FirstWithCheckDigit(draws: seq<string>, i: int)
  {
    0 <= i < |draws| && CheckDigit(draws[i]).Some?
    && forall j :: 0 <= j < i ==> CheckDigit(draws[j]).None?
  }
}
