/** Parsing and normalising informal Jamaican postal addresses
    (toolkit/jamaica-addresses/python/jamaica_addresses/__init__.py). The four
    regular expressions and the "Saint" rewrite are written out as
    character-level functions. */
module Addresses {
  import opened Strings
  import opened Wrappers

  /** The fourteen parishes, in canonical spelling and table order. */
  const ParishNames: seq<string> := [
    "Kingston", "St. Andrew", "St. Catherine", "Clarendon", "Manchester",
    "St. Elizabeth", "Westmoreland", "Hanover", "St. James", "Trelawny",
    "St. Ann", "St. Mary", "Portland", "St. Thomas"
  ]

  /** One of the fourteen canonical parish names. */
  predicate IsParish(p: string)
  {
    match p
    case "Kingston" | "St. Andrew" | "St. Catherine" | "Clarendon" | "Manchester"
      | "St. Elizabeth" | "Westmoreland" | "Hanover" | "St. James" | "Trelawny"
      | "St. Ann" | "St. Mary" | "Portland" | "St. Thomas" => true
    case _ => false
  }

  lemma ParishNamesAreParishes()
    ensures |ParishNames| == 14
    ensures forall i :: 0 <= i < |ParishNames| ==> IsParish(ParishNames[i])
  {
  }

  /** `PARISH_ALIASES.get(key)`: every alias names a canonical parish. */
  function AliasOf(key: string): (r: Option<string>)
    ensures r.Some? ==> IsParish(r.value)
  {
    match key
    case "kgn" | "kng" | "kingston" => Some("Kingston")
    case "st andrew" | "saint andrew" | "st. andrew" => Some("St. Andrew")
    case "st catherine" | "saint catherine" | "st. catherine" => Some("St. Catherine")
    case "clarendon" => Some("Clarendon")
    case "manchester" => Some("Manchester")
    case "st elizabeth" | "saint elizabeth" | "st. elizabeth" => Some("St. Elizabeth")
    case "westmoreland" => Some("Westmoreland")
    case "hanover" => Some("Hanover")
    case "st james" | "saint james" | "st. james" | "mobay" | "mo bay" => Some("St. James")
    case "trelawny" => Some("Trelawny")
    case "st ann" | "saint ann" | "st. ann" | "ochi" => Some("St. Ann")
    case "st mary" | "saint mary" | "st. mary" => Some("St. Mary")
    case "portland" => Some("Portland")
    case "st thomas" | "saint thomas" | "st. thomas" => Some("St. Thomas")
    case "sav" | "savanna-la-mar" => Some("Westmoreland")
    case _ => None
  }

  /** The alias keys of at most five characters, in the dictionary's order. */
  const ShortAliases: seq<string> := ["kgn", "kng", "mobay", "ochi", "sav"]

  lemma ShortAliasesAreAliases()
    ensures forall i :: 0 <= i < |ShortAliases| ==> |ShortAliases[i]| <= 5 && AliasOf(ShortAliases[i]).Some?
  {
  }

  /** `_PARISH_LOWER_MAP.get(lower)`: the parish whose lower-cased name is `lower`. */
  function ParishOfLower(lower: string): (r: Option<string>)
    ensures r.Some? ==> IsParish(r.value)
  {
    match lower
    case "kingston" => Some("Kingston")
    case "st. andrew" => Some("St. Andrew")
    case "st. catherine" => Some("St. Catherine")
    case "clarendon" => Some("Clarendon")
    case "manchester" => Some("Manchester")
    case "st. elizabeth" => Some("St. Elizabeth")
    case "westmoreland" => Some("Westmoreland")
    case "hanover" => Some("Hanover")
    case "st. james" => Some("St. James")
    case "trelawny" => Some("Trelawny")
    case "st. ann" => Some("St. Ann")
    case "st. mary" => Some("St. Mary")
    case "portland" => Some("Portland")
    case "st. thomas" => Some("St. Thomas")
    case _ => None
  }

  /** The unit keywords of the unit pattern, lower-cased, in alternation order. */
  const UnitKeywords: seq<string> := ["lot", "shop", "suite", "apt", "apartment", "unit", "floor", "flat"]

  datatype ParsedAddress = ParsedAddress(
    raw: string,
    streetNumber: Option<string>,
    streetName: Option<string>,
    unit: Option<string>,
    community: Option<string>,
    district: Option<string>,
    parish: Option<string>,
    kingstonSector: Option<nat>)

  datatype NormalizedAddress = NormalizedAddress(
    line1: string,
    parish: string,
    line2: Option<string>,
    kingstonSector: Option<nat>,
    formatted: string)

  /** Python truthiness of an optional string: present and non-empty. */
  predicate Truthy(o: Option<string>)
  {
    o.Some? && o.value != []
  }

  /** `\bKingston\s*(\d{1,2})\b`, ignoring case, matched at index `i`: the
      text of the one or two sector digits (group 1). */
  function SectorDigitsAt(s: string, i: nat): (r: Option<string>)
    requires i <= |s|
    ensures r.Some? ==> 1 <= |r.value| <= 2 && AllDigits(r.value)
  {
    if i + 8 <= |s| && BoundaryAt(s, i) && LowerMatchAt(s, i, "kingston") then
      var j := SpaceRunEnd(s, i + 8);
      var e := DigitRunEnd(s, j);
      if 1 <= e - j <= 2 && BoundaryAt(s, e) then Some(s[j..e]) else None
    else None
  }

  /** The same match read as a number: the sector. */
  function KingstonSectorAt(s: string, i: nat): (r: Option<nat>)
    requires i <= |s|
  {
    match SectorDigitsAt(s, i)
    case Some(d) => Some(DigitsValue(d))
    case None => None
  }

  /** `_KINGSTON_SECTOR_RE.search(s)` from index `from` on: the sector of the
      left-most match. */
  function SearchKingstonSector(s: string, from: nat): (r: Option<nat>)
    requires from <= |s|
    decreases |s| - from
  {
    if KingstonSectorAt(s, from).Some? then KingstonSectorAt(s, from)
    else if from == |s| then None
    else SearchKingstonSector(s, from + 1)
  }

  /** The same search, giving the digit text of group 1. */
  function SearchSectorDigits(s: string, from: nat): (r: Option<string>)
    requires from <= |s|
    ensures r.Some? ==> 1 <= |r.value| <= 2 && AllDigits(r.value)
    decreases |s| - from
  {
    if SectorDigitsAt(s, from).Some? then SectorDigitsAt(s, from)
    else if from == |s| then None
    else SearchSectorDigits(s, from + 1)
  }

  /** Both searches stop at the same match: the sector is the value of the digits. */
  lemma {:induction false} SearchSectorDigitsValue(s: string, from: nat)
    requires from <= |s|
    ensures SearchKingstonSector(s, from).None? <==> SearchSectorDigits(s, from).None?
    ensures SearchSectorDigits(s, from).Some? ==>
      SearchKingstonSector(s, from) == Some(DigitsValue(SearchSectorDigits(s, from).value))
    decreases |s| - from
  {
    if SectorDigitsAt(s, from).None? && from < |s| {
      SearchSectorDigitsValue(s, from + 1);
    }
  }

  /** `i` is the left-most index at or after `from` where the sector pattern matches. */
  predicate FirstSectorMatch(s: string, from: nat, i: nat)
  {
    from <= i <= |s| && KingstonSectorAt(s, i).Some?
    && forall j: nat :: from <= j < i ==> KingstonSectorAt(s, j).None?
  }

  /** A successful search stops at the left-most match. */
  lemma {:induction false} SearchSectorFound(s: string, from: nat)
    requires from <= |s|
    ensures SearchKingstonSector(s, from).Some? ==>
      exists i: nat :: FirstSectorMatch(s, from, i) && KingstonSectorAt(s, i) == SearchKingstonSector(s, from)
    decreases |s| - from
  {
    if KingstonSectorAt(s, from).Some? {
      assert FirstSectorMatch(s, from, from);
    } else if from < |s| {
      var r := SearchKingstonSector(s, from + 1);
      assert SearchKingstonSector(s, from) == r;
      SearchSectorFound(s, from + 1);
      if r.Some? {
        var i: nat :| FirstSectorMatch(s, from + 1, i) && KingstonSectorAt(s, i) == r;
        forall j: nat | from <= j < i ensures KingstonSectorAt(s, j).None? {
          if j > from {
            assert from + 1 <= j;
          }
        }
        assert FirstSectorMatch(s, from, i);
      }
    }
  }

  /** The search fails exactly when the pattern matches nowhere from `from` on. */
  lemma {:induction false} SearchSectorNone(s: string, from: nat)
    requires from <= |s|
    ensures SearchKingstonSector(s, from).None? <==>
      forall i: nat :: from <= i <= |s| ==> KingstonSectorAt(s, i).None?
    decreases |s| - from
  {
    if KingstonSectorAt(s, from).None? && from < |s| {
      assert SearchKingstonSector(s, from) == SearchKingstonSector(s, from + 1);
      SearchSectorNone(s, from + 1);
      if SearchKingstonSector(s, from).None? {
        forall i: nat | from <= i <= |s| ensures KingstonSectorAt(s, i).None? {
          if i > from {
            assert from + 1 <= i;
          }
        }
      }
    }
  }

  /** The search finds the left-most match, and fails only when there is none. */
  lemma SearchKingstonSectorSpec(s: string, from: nat)
    requires from <= |s|
    ensures var r := SearchKingstonSector(s, from);
      (r.Some? ==> exists i: nat :: FirstSectorMatch(s, from, i) && KingstonSectorAt(s, i) == r)
      && (r.None? <==> forall i: nat :: from <= i <= |s| ==> KingstonSectorAt(s, i).None?)
  {
    SearchSectorFound(s, from);
    SearchSectorNone(s, from);
  }

  /** There is at most one left-most match. */
  lemma FirstSectorMatchUnique(s: string, from: nat)
    ensures forall i, j :: FirstSectorMatch(s, from, i) && FirstSectorMatch(s, from, j) ==> i == j
  {
  }

  /** The Saint pattern `\b(Saint|St)\s+`, ignoring case, matched at index
      `i`: the index just past its whitespace. */
  function SaintMatchEnd(s: string, i: nat): (r: Option<nat>)
    requires i <= |s|
    ensures r.Some? ==> i < r.value <= |s|
  {
    if i < |s| && BoundaryAt(s, i) then
      if i + 5 < |s| && LowerMatchAt(s, i, "saint") && IsSpace(s[i + 5]) then Some(SpaceRunEnd(s, i + 5))
      else if i + 2 < |s| && LowerMatchAt(s, i, "st") && IsSpace(s[i + 2]) then Some(SpaceRunEnd(s, i + 2))
      else None
    else None
  }

  /** `re.sub` of the Saint pattern by "St. " over `s[i..]`, scanning left to right. */
  function NormalizeSaintFrom(s: string, i: nat): (r: string)
    requires i <= |s|
    decreases |s| - i
  {
    if i == |s| then []
    else match SaintMatchEnd(s, i)
      case Some(e) => "St. " + NormalizeSaintFrom(s, e)
      case None => [s[i]] + NormalizeSaintFrom(s, i + 1)
  }

  /** `_normalize_saint_prefix`. */
  function NormalizeSaintPrefix(text: string): (r: string)
  {
    NormalizeSaintFrom(text, 0)
  }

  /** Text without whitespace has no Saint prefix to rewrite. */
  lemma {:induction false} NormalizeSaintNoSpace(s: string, i: nat)
    requires i <= |s|
    requires forall k :: 0 <= k < |s| ==> !IsSpace(s[k])
    ensures NormalizeSaintFrom(s, i) == s[i..]
    decreases |s| - i
  {
    if i < |s| {
      NormalizeSaintNoSpace(s, i + 1);
      assert s[i..] == [s[i]] + s[i + 1..];
    }
  }

  /** A leading "Saint " (in any case) becomes "St. ". */
  lemma NormalizeSaintLeading(w: string)
    requires w != [] && !IsSpace(w[0])
    ensures NormalizeSaintPrefix("Saint " + w) == "St. " + NormalizeSaintFrom("Saint " + w, 6)
  {
    var s := "Saint " + w;
    assert s[0..5] == "Saint";
    assert Lower(s[0..5]) == "saint";
    assert SpaceRunEnd(s, 6) == 6;
    assert SpaceRunEnd(s, 5) == 6;
  }

  /** `_resolve_parish`: the canonical parish a segment names, through its
      Saint-normalised lower-case form or the alias table. */
  function ResolveParish(text: string): (r: Option<string>)
    ensures r.Some? ==> IsParish(r.value)
  {
    var trimmed := Strip(text);
    var lower := Lower(NormalizeSaintPrefix(trimmed));
    match ParishOfLower(lower)
    case Some(p) => Some(p)
    case None => AliasOf(Lower(trimmed))
  }

  // ---------------------------------------------------------------------
  // The prefix patterns of pass 2, each applied to a stripped segment.
  // ---------------------------------------------------------------------

  /** `^(Lot|Shop|...)\s+[\w-]+`, ignoring case, with keyword `k`. */
  predicate UnitPrefixWith(s: string, k: string)
  {
    |k| < |s| && LowerMatchAt(s, 0, k) && IsSpace(s[|k|])
    && var e := SpaceRunEnd(s, |k|);
    e < |s| && (IsWordChar(s[e]) || s[e] == '-')
  }

  /** `_UNIT_RE.match(s)`. */
  predicate HasUnitPrefix(s: string)
  {
    exists i :: 0 <= i < |UnitKeywords| && UnitPrefixWith(s, UnitKeywords[i])
  }

  /** `_DISTRICT_RE.match(s).group(1)`: `District\s+of\s+` (ignoring case)
      and then the rest of the first line. */
  function DistrictMatch(s: string): (r: Option<string>)
    requires Stripped(s)
    ensures r.Some? ==> r.value != [] && ('\n' !in s ==> IsSuffix(r.value, s))
  {
    if 8 < |s| && LowerMatchAt(s, 0, "district") && IsSpace(s[8]) then
      var j := SpaceRunEnd(s, 8);
      if j + 2 < |s| && LowerMatchAt(s, j, "of") && IsSpace(s[j + 2]) then
        var k := SpaceRunEnd(s, j + 2);
        assert k < |s|;
        Some(s[k..LineEnd(s, k)])
      else None
    else None
  }

  /** `_STREET_NUMBER_RE.match(s)`: `(\d+[A-Za-z]?)\s+(.+)`, giving the
      number and the stripped rest of the first line. */
  function StreetNumberMatch(s: string): (r: Option<(string, string)>)
    requires Stripped(s)
    ensures r.Some? ==> r.value.0 != [] && IsDigit(r.value.0[0]) && IsPrefix(r.value.0, s)
  {
    var e := DigitRunEnd(s, 0);
    if e == 0 || e == |s| then None
    else
      var q := if IsSpace(s[e]) then e
        else if IsAsciiLetter(s[e]) && e + 1 < |s| && IsSpace(s[e + 1]) then e + 1
        else 0;
      if q == 0 then None
      else Some((s[..q], RestOfLine(s, q)))
  }

  /** The stripped rest of the first line after the spaces that start at
      `q`; the text's last character is not a space, so some text follows
      them. */
  function RestOfLine(s: string, q: nat): string
    requires Stripped(s) && q < |s| && IsSpace(s[q])
  {
    var k := SpaceRunEnd(s, q);
    assert k < |s|;
    Strip(s[k..LineEnd(s, k)])
  }

  // ---------------------------------------------------------------------
  // parse_address
  // ---------------------------------------------------------------------

  /** The stripped comma-separated segments of an address. */
  function Segments(trimmed: string): (segs: seq<string>)
    ensures |segs| >= 1
    ensures forall i :: 0 <= i < |segs| ==> Stripped(segs[i])
  {
    var pieces := Split(trimmed, ',');
    var segs := seq(|pieces|, i requires 0 <= i < |pieces| => Strip(pieces[i]));
    assert forall i :: 0 <= i < |segs| ==> Stripped(segs[i]) by {
      forall i | 0 <= i < |segs| {
        StripIsStripped(pieces[i]);
      }
    }
    segs
  }

  /** What pass 1 finds in one segment: the parish it names and the sector
      to record, a sector counting only when it is between 1 and 20. */
  function SegmentParish(seg: string): (r: Option<(string, Option<nat>)>)
  {
    match SearchKingstonSector(seg, 0)
    case Some(n) => Some(("Kingston", if 1 <= n <= 20 then Some(n) else None))
    case None =>
      match ResolveParish(seg)
      case Some(p) => Some((p, None))
      case None => None
  }

  /** What pass 1 records is a canonical parish, and a sector only for
      Kingston and only between 1 and 20; the sector pattern always means
      Kingston. */
  lemma SegmentParishFacts(seg: string)
    ensures var r := SegmentParish(seg);
      (r.Some? ==> IsParish(r.value.0))
      && (r.Some? && r.value.1.Some? ==> r.value.0 == "Kingston" && 1 <= r.value.1.value <= 20)
      && (SearchKingstonSector(seg, 0).Some? ==> r.Some? && r.value.0 == "Kingston")
  {
    var r := SegmentParish(seg);
    match SearchKingstonSector(seg, 0)
    case Some(n) =>
      assert r == Some(("Kingston", if 1 <= n <= 20 then Some(n) else None));
    case None =>
      var p := ResolveParish(seg);
      assert r == if p.Some? then Some((p.value, None)) else None;
  }

  /** Pass 1 stops at a segment that names a parish. */
  predicate NamesParish(seg: string)
  {
    SegmentParish(seg).Some?
  }

  /** Index of the right-most element of `segs` satisfying `p`, or -1. */
  function LastWhere(segs: seq<string>, p: string -> bool): (r: int)
    ensures -1 <= r < |segs|
    ensures r >= 0 ==> p(segs[r])
    ensures forall j :: r < j < |segs| ==> !p(segs[j])
  {
    if segs == [] then -1
    else if p(segs[|segs| - 1]) then |segs| - 1
    else LastWhere(segs[..|segs| - 1], p)
  }

  /** Index of the right-most segment naming a parish, or -1. */
  function LastParishIndex(segs: seq<string>): (r: int)
    ensures -1 <= r < |segs|
    ensures r >= 0 ==> NamesParish(segs[r])
    ensures forall j :: r < j < |segs| ==> !NamesParish(segs[j])
  {
    LastWhere(segs, NamesParish)
  }

  /** The fields pass 2 reads out of the segments before the parish. */
  datatype Lines = Lines(
    streetNumber: Option<string>,
    streetName: Option<string>,
    unit: Option<string>,
    community: Option<string>,
    district: Option<string>)

  /** The three prefix patterns of pass 2, in order: a leading "District of
      ..." segment gives the district, then a leading unit segment the unit,
      then a leading "number name" segment the street number and name; each
      match consumes its segment. Returns those fields and the segments left. */
  function TakePrefixes(rem: seq<string>): (r: (Lines, seq<string>))
    requires forall i :: 0 <= i < |rem| ==> Stripped(rem[i])
  {
    var (district, r1) := DistrictStep(rem);
    var (unit, r2) := UnitStep(r1);
    var (number, left) := NumberStep(r2);
    var name := if number.Some? then Some(number.value.1) else None;
    var num := if number.Some? then Some(number.value.0) else None;
    (Lines(num, name, unit, None, district), left)
  }

  /** A leading "District of" segment gives the stripped district and is consumed. */
  function DistrictStep(rem: seq<string>): (r: (Option<string>, seq<string>))
    requires forall i :: 0 <= i < |rem| ==> Stripped(rem[i])
    ensures forall i :: 0 <= i < |r.1| ==> Stripped(r.1[i])
    ensures r.0.Some? <==> rem != [] && DistrictMatch(rem[0]).Some?
    ensures r.1 == if r.0.Some? then rem[1..] else rem
  {
    var d := if rem != [] then DistrictMatch(rem[0]) else None;
    if d.Some? then (Some(Strip(d.value)), rem[1..]) else (None, rem)
  }

  /** A leading segment with a unit prefix is the unit and is consumed. */
  function UnitStep(rem: seq<string>): (r: (Option<string>, seq<string>))
    requires forall i :: 0 <= i < |rem| ==> Stripped(rem[i])
    ensures forall i :: 0 <= i < |r.1| ==> Stripped(r.1[i])
    ensures r.0.Some? ==> rem != [] && r.0.value == rem[0] && HasUnitPrefix(rem[0])
    ensures r.1 == if r.0.Some? then rem[1..] else rem
  {
    if rem != [] && HasUnitPrefix(rem[0]) then (Some(rem[0]), rem[1..]) else (None, rem)
  }

  /** A leading "number name" segment gives both and is consumed. */
  function NumberStep(rem: seq<string>): (r: (Option<(string, string)>, seq<string>))
    requires forall i :: 0 <= i < |rem| ==> Stripped(rem[i])
    ensures r.0.Some? ==> rem != [] && r.0.value.0 != [] && IsDigit(r.0.value.0[0])
    ensures r.1 == if r.0.Some? then rem[1..] else rem
  {
    var n := if rem != [] then StreetNumberMatch(rem[0]) else None;
    if n.Some? then (n, rem[1..]) else (None, rem)
  }

  /** The district comes only from a leading "District of" segment, a unit
      only from a segment with a unit prefix, and a street number always
      with a name. */
  lemma TakePrefixesFields(rem: seq<string>)
    requires forall i :: 0 <= i < |rem| ==> Stripped(rem[i])
    ensures var (l, left) := TakePrefixes(rem);
      l.community == None
      && (l.district.Some? <==> rem != [] && DistrictMatch(rem[0]).Some?)
      && (l.unit.Some? ==> HasUnitPrefix(l.unit.value) && l.unit.value in rem)
      && (l.streetNumber.Some? <==> l.streetName.Some?)
      && (l.streetNumber.Some? ==> l.streetNumber.value != [] && IsDigit(l.streetNumber.value[0]))
  {
    var (district, r1) := DistrictStep(rem);
    assert r1 != [] ==> r1[0] in rem;
  }

  /** The prefix steps only consume leading segments: what is left is a
      suffix of the input, all of it when no prefix matched. */
  lemma TakePrefixesConsumes(rem: seq<string>)
    requires forall i :: 0 <= i < |rem| ==> Stripped(rem[i])
    ensures var (l, left) := TakePrefixes(rem);
      IsSuffix(left, rem)
      && (l.district.None? && l.unit.None? && l.streetNumber.None? ==> left == rem)
  {
    var s1 := DistrictStep(rem);
    var s2 := UnitStep(s1.1);
    var s3 := NumberStep(s2.1);
    assert TakePrefixes(rem).1 == s3.1;
    StepSuffix(rem, s1.1);
    StepSuffix(s1.1, s2.1);
    StepSuffix(s2.1, s3.1);
    SuffixTransitive(s3.1, s2.1, s1.1);
    SuffixTransitive(s3.1, s1.1, rem);
  }

  /** A step leaves its input or the input without its head: a suffix. */
  lemma StepSuffix(rem: seq<string>, left: seq<string>)
    requires left == rem || (rem != [] && left == rem[1..])
    ensures IsSuffix(left, rem)
  {
  }

  /** The leftover rule of pass 2: with segments left, the last is the
      community and, when there are two or more and no street name is set
      yet, the others joined by ", " are the street name. */
  function AssignLeftovers(l: Lines, left: seq<string>): (r: Lines)
    ensures r.streetNumber == l.streetNumber && r.unit == l.unit && r.district == l.district
    ensures r.community == if left == [] then l.community else Some(left[|left| - 1])
    ensures r.streetName ==
      if |left| >= 2 && !Truthy(l.streetName) then Some(Join(left[..|left| - 1], ", ")) else l.streetName
  {
    if left == [] then l
    else if |left| == 1 then l.(community := Some(left[0]))
    else
      var name := if !Truthy(l.streetName) then Some(Join(left[..|left| - 1], ", ")) else l.streetName;
      l.(streetName := name, community := Some(left[|left| - 1]))
  }

  /** Pass 2 of `parse_address` on the segments before the parish. */
  function Interpret(rem: seq<string>): (l: Lines)
    requires forall i :: 0 <= i < |rem| ==> Stripped(rem[i])
  {
    var (fields, left) := TakePrefixes(rem);
    AssignLeftovers(fields, left)
  }

  /** An address with nothing but its raw text. */
  function Unparsed(raw: string): ParsedAddress
  {
    ParsedAddress(raw, None, None, None, None, None, None, None)
  }

  /** The segments pass 2 works on: those before the parish segment, or all
      of them when none names a parish. */
  function Remaining(segs: seq<string>): (rem: seq<string>)
    ensures forall i :: 0 <= i < |rem| ==> rem[i] in segs
  {
    var k := LastParishIndex(segs);
    if k >= 0 then segs[..k] else segs
  }

  /** `parse_address`. */
  method ParseAddress(raw: string) returns (result: ParsedAddress)
    ensures result.raw == raw
    ensures IsBlank(raw) ==> result == Unparsed(raw)
    ensures result.kingstonSector.Some? ==>
      result.parish == Some("Kingston") && 1 <= result.kingstonSector.value <= 20
    ensures result.parish.Some? ==> IsParish(result.parish.value)
    ensures !IsBlank(raw) ==>
      var segs := Segments(Strip(raw));
      var k := LastParishIndex(segs);
      (k < 0 ==> result.parish == None && result.kingstonSector == None)
      && (k >= 0 ==> result.parish == Some(SegmentParish(segs[k]).value.0)
                     && result.kingstonSector == SegmentParish(segs[k]).value.1)
      && Lines(result.streetNumber, result.streetName, result.unit, result.community, result.district)
         == Interpret(Remaining(segs))
  {
    result := Unparsed(raw);
    var trimmed := Strip(raw);
    StripEmptyIffBlank(raw);
    if trimmed == [] {
      return;
    }
    var segments := Segments(trimmed);
    var parishIdx, parish, sector := ScanForParish(segments);
    if parishIdx >= 0 {
      SegmentParishFacts(segments[parishIdx]);
    }
    result := result.(parish := parish, kingstonSector := sector);
    var remaining := if parishIdx >= 0 then segments[..parishIdx] else segments;
    assert remaining == Remaining(segments);
    if remaining == [] {
      assert Interpret(remaining) == Lines(None, None, None, None, None);
      return;
    }
    var lines := InterpretSegments(remaining);
    result := result.(streetNumber := lines.streetNumber, streetName := lines.streetName,
                      unit := lines.unit, community := lines.community, district := lines.district);
  }

  /** Pass 1 of `parse_address`: scanning the segments from the right, the
      first that holds the sector pattern or resolves to a parish. */
  method ScanForParish(segments: seq<string>) returns (parishIdx: int, parish: Option<string>, sector: Option<nat>)
    ensures parishIdx == LastParishIndex(segments)
    ensures parishIdx < 0 ==> parish == None && sector == None
    ensures parishIdx >= 0 ==>
      parish == Some(SegmentParish(segments[parishIdx]).value.0)
      && sector == SegmentParish(segments[parishIdx]).value.1
  {
    parishIdx, parish, sector := -1, None, None;
    var i := |segments| - 1;
    while i >= 0
      invariant -1 <= i < |segments|
      invariant forall j :: i < j < |segments| ==> !NamesParish(segments[j])
      decreases i + 1
    {
      var seg := segments[i];
      var kMatch := SearchKingstonSector(seg, 0);
      if kMatch.Some? {
        var n := kMatch.value;
        if 1 <= n <= 20 {
          sector := Some(n);
        }
        parish := Some("Kingston");
        parishIdx := i;
        assert SegmentParish(seg) == Some(("Kingston", sector));
        LastWhereIsRightMost(segments, NamesParish, i);
        return;
      }
      var resolved := ResolveParish(seg);
      if resolved.Some? {
        parish := resolved;
        parishIdx := i;
        assert SegmentParish(seg) == Some((resolved.value, None));
        LastWhereIsRightMost(segments, NamesParish, i);
        return;
      }
      assert !NamesParish(seg);
      i := i - 1;
    }
    LastWhereIsRightMost(segments, NamesParish, -1);
  }

  /** Pass 2 of `parse_address`: the prefix patterns pop the leading
      segments in turn, and the leftovers become community and street name. */
  method InterpretSegments(rem: seq<string>) returns (lines: Lines)
    requires forall i :: 0 <= i < |rem| ==> Stripped(rem[i])
    ensures lines == Interpret(rem)
  {
    var remaining;
    lines, remaining := PopPrefixes(rem);
    if |remaining| == 1 {
      lines := lines.(community := Some(remaining[0]));
    } else if |remaining| == 2 {
      if !Truthy(lines.streetName) {
        lines := lines.(streetName := Some(remaining[0]));
      }
      lines := lines.(community := Some(remaining[1]));
      assert remaining[..1] == [remaining[0]];
    } else if |remaining| > 2 {
      if !Truthy(lines.streetName) {
        lines := lines.(streetName := Some(Join(remaining[..|remaining| - 1], ", ")));
      }
      lines := lines.(community := Some(remaining[|remaining| - 1]));
    }
  }

  /** The district, unit and street-number steps of pass 2, each popping
      the segment it matched. */
  method PopPrefixes(rem: seq<string>) returns (lines: Lines, remaining: seq<string>)
    requires forall i :: 0 <= i < |rem| ==> Stripped(rem[i])
    ensures (lines, remaining) == TakePrefixes(rem)
  {
    lines := Lines(None, None, None, None, None);
    remaining := rem;
    if remaining != [] {
      var dMatch := DistrictMatch(remaining[0]);
      if dMatch.Some? {
        lines := lines.(district := Some(Strip(dMatch.value)));
        remaining := remaining[1..];
      }
    }
    assert (lines.district, remaining) == DistrictStep(rem);
    ghost var afterDistrict := remaining;
    if remaining != [] && HasUnitPrefix(remaining[0]) {
      lines := lines.(unit := Some(remaining[0]));
      remaining := remaining[1..];
    }
    assert (lines.unit, remaining) == UnitStep(afterDistrict);
    ghost var afterUnit := remaining;
    if remaining != [] {
      var nMatch := StreetNumberMatch(remaining[0]);
      if nMatch.Some? {
        lines := lines.(streetNumber := Some(nMatch.value.0), streetName := Some(nMatch.value.1));
        remaining := remaining[1..];
      }
    }
    assert remaining == NumberStep(afterUnit).1;
  }

  /** The right-most element satisfying `p` is unique: one that does, with
      none after it, is the one `LastWhere` finds. */
  lemma {:induction false} LastWhereIsRightMost(segs: seq<string>, p: string -> bool, k: int)
    requires -1 <= k < |segs|
    requires k >= 0 ==> p(segs[k])
    requires forall j :: k < j < |segs| ==> !p(segs[j])
    ensures LastWhere(segs, p) == k
  {
    if segs != [] && k != |segs| - 1 {
      var init := segs[..|segs| - 1];
      assert forall j :: k < j < |init| ==> init[j] == segs[j];
      LastWhereIsRightMost(init, p, k);
    }
  }

  // ---------------------------------------------------------------------
  // normalize_address, format_address, to_normalized_address
  // ---------------------------------------------------------------------

  /** The street part: "number name", or the name alone. */
  function StreetPart(p: ParsedAddress): (r: Option<string>)
    ensures r.Some? <==> Truthy(p.streetName)
  {
    if Truthy(p.streetNumber) && Truthy(p.streetName) then Some(p.streetNumber.value + " " + p.streetName.value)
    else if Truthy(p.streetName) then p.streetName
    else None
  }

  /** The parish part: the parish, followed by its sector when there is one. */
  function ParishPart(p: ParsedAddress): (r: string)
    requires Truthy(p.parish)
    ensures IsPrefix(p.parish.value, r)
  {
    if p.kingstonSector.Some? && p.kingstonSector.value != 0 then
      p.parish.value + " " + NatToString(p.kingstonSector.value)
    else p.parish.value
  }

  /** The parts `normalize_address` joins: unit, street, community,
      "District of d", parish, each only when present. */
  function NormalizedParts(p: ParsedAddress): (parts: seq<string>)
    ensures |parts| <= 5
    ensures forall i :: 0 <= i < |parts| ==> parts[i] != []
    ensures parts == [] <==>
      !Truthy(p.unit) && !Truthy(p.streetName) && !Truthy(p.community)
      && !Truthy(p.district) && !Truthy(p.parish)
    ensures Truthy(p.parish) ==> parts != [] && parts[|parts| - 1] == ParishPart(p)
    ensures Truthy(p.unit) ==> parts[0] == p.unit.value
  {
    (if Truthy(p.unit) then [p.unit.value] else [])
    + (if StreetPart(p).Some? then [StreetPart(p).value] else [])
    + (if Truthy(p.community) then [p.community.value] else [])
    + (if Truthy(p.district) then ["District of " + p.district.value] else [])
    + (if Truthy(p.parish) then [ParishPart(p)] else [])
  }

  /** `normalize_address`: empty exactly when no part is present, and
      ending with the parish (and sector) when the parish is known. */
  function NormalizeAddress(p: ParsedAddress): (s: string)
    ensures s == [] <==>
      !Truthy(p.unit) && !Truthy(p.streetName) && !Truthy(p.community)
      && !Truthy(p.district) && !Truthy(p.parish)
    ensures Truthy(p.parish) ==> IsSuffix(ParishPart(p), s)
    ensures Truthy(p.unit) ==> IsPrefix(p.unit.value, s)
  {
    var parts := NormalizedParts(p);
    JoinEnds(parts, ", ");
    Join(parts, ", ")
  }

  lemma JoinEnds(parts: seq<string>, sep: string)
    requires forall i :: 0 <= i < |parts| ==> parts[i] != []
    ensures Join(parts, sep) == [] <==> parts == []
    ensures parts != [] ==> IsPrefix(parts[0], Join(parts, sep))
    ensures parts != [] ==> IsSuffix(parts[|parts| - 1], Join(parts, sep))
  {
    JoinEmpty(parts, sep);
    if parts != [] {
      JoinEndsWithLast(parts, sep);
    }
  }

  /** `format_address`: the same string as `normalize_address`. */
  function FormatAddress(p: ParsedAddress): (s: string)
    ensures s == NormalizeAddress(p)
  {
    NormalizeAddress(p)
  }

  /** `to_normalized_address`: line 1 holds unit and street (else the
      community, else the raw text), line 2 the community after a street
      and the district; the parish defaults to "Unknown". */
  function ToNormalizedAddress(p: ParsedAddress): (n: NormalizedAddress)
    ensures n.formatted == NormalizeAddress(p)
    ensures n.parish == if Truthy(p.parish) then p.parish.value else "Unknown"
    ensures n.kingstonSector == p.kingstonSector
    ensures !Truthy(p.unit) && !Truthy(p.streetName) ==>
      n.line1 == (if Truthy(p.community) then p.community.value else p.raw)
    ensures n.line2.None? <==>
      !Truthy(p.district) && !(Truthy(p.community) && (Truthy(p.unit) || Truthy(p.streetName)))
  {
    var parts1 := (if Truthy(p.unit) then [p.unit.value] else [])
      + (if StreetPart(p).Some? then [StreetPart(p).value] else []);
    var line1 := if parts1 != [] then Join(parts1, ", ")
      else if Truthy(p.community) then p.community.value else p.raw;
    var parts2 := (if parts1 != [] && Truthy(p.community) then [p.community.value] else [])
      + (if Truthy(p.district) then ["District of " + p.district.value] else []);
    var line2 := if parts2 != [] then Some(Join(parts2, ", ")) else None;
    var parish := if Truthy(p.parish) then p.parish.value else "Unknown";
    NormalizedAddress(line1, parish, line2, p.kingstonSector, NormalizeAddress(p))
  }

  // ---------------------------------------------------------------------
  // extract_parish, is_kingston_address, get_kingston_sector
  // ---------------------------------------------------------------------

  /** The first segment from the right that resolves to a parish. */
  function ResolveFromRight(segs: seq<string>): (r: Option<string>)
    ensures r.Some? ==> IsParish(r.value)
    ensures r.None? <==> forall i :: 0 <= i < |segs| ==> ResolveParish(segs[i]).None?
  {
    var k := LastWhere(segs, Resolves);
    if k < 0 then None else ResolveParish(segs[k])
  }

  predicate Resolves(seg: string)
  {
    ResolveParish(seg).Some?
  }

  /** The first parish, in table order, whose lower-cased name occurs in `lowerAddr`. */
  function NameInside(lowerAddr: string, i: nat): (r: Option<string>)
    requires i <= |ParishNames|
    ensures r.Some? ==> IsParish(r.value) && Contains(lowerAddr, Lower(r.value))
    decreases |ParishNames| - i
  {
    ParishNamesAreParishes();
    if i == |ParishNames| then None
    else if Contains(lowerAddr, Lower(ParishNames[i])) then Some(ParishNames[i])
    else NameInside(lowerAddr, i + 1)
  }

  /** `\b<alias>\b`, ignoring case, matched at index `i` (the alias keys
      are lower case). */
  predicate WordAt(s: string, w: string, i: nat)
  {
    i + |w| <= |s| && BoundaryAt(s, i) && BoundaryAt(s, i + |w|) && LowerMatchAt(s, i, w)
  }

  predicate ContainsWord(s: string, w: string)
  {
    exists i :: 0 <= i <= |s| - |w| && WordAt(s, w, i)
  }

  /** The canonical name of the first short alias that occurs as a whole word. */
  function ShortAliasInside(s: string, i: nat): (r: Option<string>)
    requires i <= |ShortAliases|
    ensures r.Some? ==> IsParish(r.value)
    decreases |ShortAliases| - i
  {
    ShortAliasesAreAliases();
    if i == |ShortAliases| then None
    else if ContainsWord(s, ShortAliases[i]) then AliasOf(ShortAliases[i])
    else ShortAliasInside(s, i + 1)
  }

  /** `extract_parish`: `None` for blank input; "Kingston" whenever the
      sector pattern occurs; otherwise the parish of the right-most segment
      that names one, then a parish name anywhere, then a short alias. */
  function ExtractParish(address: string): (r: Option<string>)
    ensures IsBlank(address) ==> r == None
    ensures r.Some? ==> IsParish(r.value)
    ensures !IsBlank(address) && SearchKingstonSector(Strip(address), 0).Some? ==> r == Some("Kingston")
    ensures !IsBlank(address) && SearchKingstonSector(Strip(address), 0).None?
            && ResolveFromRight(Segments(Strip(address))).Some? ==>
              r == ResolveFromRight(Segments(Strip(address)))
  {
    var trimmed := Strip(address);
    StripEmptyIffBlank(address);
    if trimmed == [] then None
    else if SearchKingstonSector(trimmed, 0).Some? then Some("Kingston")
    else match ResolveFromRight(Segments(trimmed))
      case Some(p) => Some(p)
      case None =>
        match NameInside(Lower(trimmed), 0)
        case Some(p) => Some(p)
        case None => ShortAliasInside(trimmed, 0)
  }

  /** `is_kingston_address`: the address lies in Kingston or St. Andrew. */
  function IsKingstonAddress(address: string): (b: bool)
    ensures b ==> !IsBlank(address)
    ensures b <==> ExtractParish(address) in {Some("Kingston"), Some("St. Andrew")}
  {
    var parish := ExtractParish(address);
    parish == Some("Kingston") || parish == Some("St. Andrew")
  }

  /** `get_kingston_sector`: the sector of the first sector pattern, when it
      is between 1 and 20. */
  function GetKingstonSector(address: string): (r: Option<nat>)
    ensures r.Some? ==> 1 <= r.value <= 20
    ensures forall i :: FirstSectorMatch(address, 0, i) ==>
      var n := KingstonSectorAt(address, i).value;
      r == if 1 <= n <= 20 then Some(n) else None
    ensures (forall i :: 0 <= i <= |address| ==> KingstonSectorAt(address, i).None?) ==> r.None?
  {
    SearchKingstonSectorSpec(address, 0);
    FirstSectorMatchUnique(address, 0);
    match SearchKingstonSector(address, 0)
    case None => None
    case Some(n) => if n < 1 || n > 20 then None else Some(n)
  }
}
