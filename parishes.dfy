/** The fourteen parishes of Jamaica: their codes, census populations,
    centre coordinates and government service centres, with lookup by code
    and by (fuzzy) name, the service filter, distances, the nearest National
    Land Agency office and the total population. */
module Parishes {
  import opened Wrappers
  import opened Strings
  import opened Geo
  import opened Lookups

  /** The government service centres a parish has. */
  datatype ServiceCenter = ServiceCenter(nla: bool, taj: bool, pica: bool, coj: bool)

  /** The four service names `get_parishes_with_service` accepts. */
  datatype Service = Nla | Taj | Pica | Coj

  datatype Parish = Parish(
    name: string,
    code: string,
    population: nat,
    coordinates: Coordinates,
    serviceCenters: ServiceCenter)

  function HasService(p: Parish, s: Service): bool
  {
    match s
    case Nla => p.serviceCenters.nla
    case Taj => p.serviceCenters.taj
    case Pica => p.serviceCenters.pica
    case Coj => p.serviceCenters.coj
  }

  // ---------------------------------------------------------------------
  // The table
  // ---------------------------------------------------------------------

  const ParishCount := 14

  /** The `i`-th row of the parish table. */
  function ParishAt(i: nat): Parish
    requires i < ParishCount
  {
    match i
    case 0 => Parish("Kingston", "KIN", 89186, Coordinates(17.9714, -76.7920), ServiceCenter(true, true, true, true))
    case 1 => Parish("St. Andrew", "SAN", 583718, Coordinates(18.0179, -76.7674), ServiceCenter(true, true, true, true))
    case 2 => Parish("St. Catherine", "SCA", 542763, Coordinates(18.0092, -76.9540), ServiceCenter(false, true, true, true))
    case 3 => Parish("Clarendon", "CLA", 258643, Coordinates(17.9613, -77.2386), ServiceCenter(false, true, true, true))
    case 4 => Parish("Manchester", "MAN", 193694, Coordinates(18.0418, -77.5050), ServiceCenter(true, true, true, true))
    case 5 => Parish("St. Elizabeth", "SEL", 153201, Coordinates(18.0069, -77.7586), ServiceCenter(false, true, true, true))
    case 6 => Parish("Westmoreland", "WES", 148627, Coordinates(18.2117, -78.1339), ServiceCenter(false, true, true, true))
    case 7 => Parish("Hanover", "HAN", 71074, Coordinates(18.4508, -78.1702), ServiceCenter(false, true, false, true))
    case 8 => Parish("St. James", "SJA", 193322, Coordinates(18.4762, -77.9236), ServiceCenter(true, true, true, true))
    case 9 => Parish("Trelawny", "TRE", 79374, Coordinates(18.4944, -77.6553), ServiceCenter(false, true, false, true))
    case 10 => Parish("St. Ann", "SAN2", 182808, Coordinates(18.4325, -77.2006), ServiceCenter(false, true, true, true))
    case 11 => Parish("St. Mary", "SMA", 118760, Coordinates(18.3697, -76.9167), ServiceCenter(false, true, false, true))
    case 12 => Parish("Portland", "POR", 83374, Coordinates(18.1789, -76.4506), ServiceCenter(false, true, false, true))
    case _ => Parish("St. Thomas", "STH", 97994, Coordinates(17.8883, -76.3508), ServiceCenter(false, true, false, true))
  }

  /** `get_all_parishes()`: the table in its published order. */
  function AllParishes(): (ps: seq<Parish>)
    ensures |ps| == ParishCount
    ensures forall i :: 0 <= i < ParishCount ==> ps[i] == ParishAt(i)
  {
    seq(ParishCount, i requires 0 <= i < ParishCount => ParishAt(i))
  }

  /** The row number each code names: a different number for every code
      in the table. */
  function CodeRank(code: string): Option<nat>
  {
    match code
    case "KIN" => Some(0)
    case "SAN" => Some(1)
    case "SCA" => Some(2)
    case "CLA" => Some(3)
    case "MAN" => Some(4)
    case "SEL" => Some(5)
    case "WES" => Some(6)
    case "HAN" => Some(7)
    case "SJA" => Some(8)
    case "TRE" => Some(9)
    case "SAN2" => Some(10)
    case "SMA" => Some(11)
    case "POR" => Some(12)
    case "STH" => Some(13)
    case _ => None
  }

  lemma CodeRankAt(i: nat)
    requires i < ParishCount
    ensures CodeRank(ParishAt(i).code) == Some(i)
  {
  }

  /** No two rows share a code, so the code index `{p.code: p}` keeps
      every row: it is a bijection between the codes and the table. */
  lemma CodesUnique()
    ensures forall i, j :: 0 <= i < j < ParishCount ==> ParishAt(i).code != ParishAt(j).code
  {
    forall i, j | 0 <= i < j < ParishCount
      ensures ParishAt(i).code != ParishAt(j).code
    {
      CodeRankAt(i);
      CodeRankAt(j);
    }
  }

  // ---------------------------------------------------------------------
  // Lookup by code
  // ---------------------------------------------------------------------

  predicate HasCode(key: string, p: Parish)
  {
    p.code == key
  }

  /** `_by_code.get(key)`: the dictionary comprehension keeps the last row
      with that code. */
  function ByCode(key: string): (r: Option<Parish>)
  {
    match LastIndex(AllParishes(), p => HasCode(key, p))
    case None => None
    case Some(i) => Some(AllParishes()[i])
  }

  /** `get_parish(code)`: the row whose code is the upper-cased argument. */
  function GetParish(code: string): (r: Option<Parish>)
    ensures r.Some? ==> r.value in AllParishes() && r.value.code == Upper(code)
    ensures r.None? <==> forall i :: 0 <= i < ParishCount ==> ParishAt(i).code != Upper(code)
  {
    ByCode(Upper(code))
  }

  /** Since codes are unique, the code index finds the same row a
      front-to-back search would, and every row is found by its own
      code. */
  lemma GetParishIsFirstMatch(code: string)
    ensures GetParish(code) == First(AllParishes(), p => HasCode(Upper(code), p))
  {
    var ps := AllParishes();
    var key := Upper(code);
    CodesUnique();
    forall i, j | 0 <= i < j < |ps| && HasCode(key, ps[i])
      ensures !HasCode(key, ps[j])
    {
      assert ps[i] == ParishAt(i) && ps[j] == ParishAt(j);
    }
    FirstIsLastWhenUnique(ps, p => HasCode(key, p));
  }

  lemma GetParishFindsEveryRow(i: nat)
    requires i < ParishCount
    ensures GetParish(ParishAt(i).code) == Some(ParishAt(i))
  {
    var ps := AllParishes();
    var code := ParishAt(i).code;
    UpperOfUpper(code, i);
    CodesUnique();
    match LastIndex(ps, p => HasCode(code, p))
    case None =>
      assert HasCode(code, ps[i]);
    case Some(k) =>
      assert ps[k] == ParishAt(k);
      assert !(i < k) && !(k < i);
  }

  /** Every code in the table is already upper case. */
  lemma UpperOfUpper(code: string, i: nat)
    requires i < ParishCount && code == ParishAt(i).code
    ensures Upper(code) == code
  {
  }

  /** Codes match whatever their case: "kin" finds Kingston. */
  lemma GetParishIgnoresCase(code: string)
    ensures GetParish(Lower(code)) == GetParish(code)
  {
    assert Upper(Lower(code)) == Upper(code);
  }

  // ---------------------------------------------------------------------
  // Lookup by name
  // ---------------------------------------------------------------------

  /** A `saint` at index `i` that is a whole word (`\bsaint\b`). */
  predicate SaintWordAt(s: string, i: nat)
    requires i <= |s|
  {
    i + 5 <= |s| && s[i..i + 5] == "saint" && BoundaryAt(s, i) && BoundaryAt(s, i + 5)
  }

  /** `re.sub(r"\bsaint\b", "st.", s)` over `s[i..]`, left to right. */
  function ReplaceSaintFrom(s: string, i: nat): string
    requires i <= |s|
    decreases |s| - i
  {
    if i == |s| then []
    else if SaintWordAt(s, i) then "st." + ReplaceSaintFrom(s, i + 5)
    else [s[i]] + ReplaceSaintFrom(s, i + 1)
  }

  /** A bare `st` at index `i`: a whole word not already followed by a dot
      (`\bst\b(?!\.)`). */
  predicate StWordAt(s: string, i: nat)
    requires i <= |s|
  {
    && i + 2 <= |s| && s[i..i + 2] == "st" && BoundaryAt(s, i) && BoundaryAt(s, i + 2)
    && !(i + 2 < |s| && s[i + 2] == '.')
  }

  /** `re.sub(r"\bst\b(?!\.)", "st.", s)` over `s[i..]`. */
  function ReplaceStFrom(s: string, i: nat): string
    requires i <= |s|
    decreases |s| - i
  {
    if i == |s| then []
    else if StWordAt(s, i) then "st." + ReplaceStFrom(s, i + 2)
    else [s[i]] + ReplaceStFrom(s, i + 1)
  }

  /** `re.sub(r"\s+", " ", s)` over `s[i..]`: every run of whitespace
      becomes a single space. */
  function CollapseSpacesFrom(s: string, i: nat): (r: string)
    requires i <= |s|
    ensures SingleSpaced(r)
    ensures r != [] && r[0] == ' ' ==> i < |s| && IsSpace(s[i])
    decreases |s| - i
  {
    if i == |s| then []
    else if IsSpace(s[i]) then " " + CollapseSpacesFrom(s, SpaceRunEnd(s, i))
    else [s[i]] + CollapseSpacesFrom(s, i + 1)
  }

  /** `_normalize_name`: lower case, "saint" and a bare "st" spelled
      "st.", whitespace runs collapsed, then stripped. */
  function NormalizeName(name: string): string
  {
    NormalizeLowered(Lower(name))
  }

  /** The steps of `_normalize_name` after lower-casing. */
  function NormalizeLowered(lowered: string): string
  {
    var spelled := ReplaceStFrom(ReplaceSaintFrom(lowered, 0), 0);
    Strip(CollapseSpacesFrom(spelled, 0))
  }

  /** No whitespace but single spaces, and no two spaces in a row. */
  predicate SingleSpaced(s: string)
  {
    && (forall k :: 0 <= k < |s| && IsSpace(s[k]) ==> s[k] == ' ')
    && (forall k :: 0 <= k < |s| - 1 && s[k] == ' ' ==> s[k + 1] != ' ')
  }

  /** Stripping a single-spaced string keeps it single-spaced. */
  lemma StripKeepsSingleSpaced(c: string)
    requires SingleSpaced(c)
    ensures SingleSpaced(Strip(c)) && Stripped(Strip(c))
  {
    var n := Strip(c);
    StripIsStripped(c);
    var l := TrimLeft(c);
    var a := |c| - |l|;
    assert n == l[..|n|];
    assert l == c[a..];
    forall k | 0 <= k < |n|
      ensures n[k] == c[a + k]
    {
    }
  }

  /** A normalised name has no leading or trailing whitespace, no
      whitespace but single spaces, and no two spaces in a row. */
  lemma NormalizeNameShape(name: string)
    ensures Stripped(NormalizeName(name)) && SingleSpaced(NormalizeName(name))
  {
    StripKeepsSingleSpaced(CollapseSpacesFrom(ReplaceStFrom(ReplaceSaintFrom(Lower(name), 0), 0), 0));
  }

  /** Both passes look only at the character before the current index and
      the text after it. */
  lemma {:induction false} ReplaceSaintContext(s: string, i: nat, t: string, j: nat)
    requires 1 <= i <= |s| && 1 <= j <= |t| && s[i - 1..] == t[j - 1..]
    ensures ReplaceSaintFrom(s, i) == ReplaceSaintFrom(t, j)
    decreases |s| - i
  {
    if i < |s| {
      assert s[i - 1] == t[j - 1] && s[i] == t[j];
      assert SaintWordAt(s, i) == SaintWordAt(t, j) by {
        if i + 5 <= |s| {
          assert s[i..i + 5] == t[j..j + 5];
          assert s[i + 4..] == t[j + 4..];
          assert s[i + 4] == t[j + 4];
          if i + 5 < |s| {
            assert s[i + 5] == t[j + 5];
          }
        }
      }
      if SaintWordAt(s, i) {
        assert s[i + 4..] == t[j + 4..];
        ReplaceSaintContext(s, i + 5, t, j + 5);
      } else {
        assert s[i..] == t[j..];
        ReplaceSaintContext(s, i + 1, t, j + 1);
      }
    }
  }

  lemma {:induction false} ReplaceStContext(s: string, i: nat, t: string, j: nat)
    requires 1 <= i <= |s| && 1 <= j <= |t| && s[i - 1..] == t[j - 1..]
    ensures ReplaceStFrom(s, i) == ReplaceStFrom(t, j)
    decreases |s| - i
  {
    if i < |s| {
      assert s[i - 1] == t[j - 1] && s[i] == t[j];
      assert StWordAt(s, i) == StWordAt(t, j) by {
        if i + 2 <= |s| {
          assert s[i..i + 2] == t[j..j + 2];
          assert s[i + 1] == t[j + 1];
          if i + 2 < |s| {
            assert s[i + 2] == t[j + 2];
          }
        }
      }
      if StWordAt(s, i) {
        assert s[i + 1..] == t[j + 1..];
        ReplaceStContext(s, i + 2, t, j + 2);
      } else {
        assert s[i..] == t[j..];
        ReplaceStContext(s, i + 1, t, j + 1);
      }
    }
  }

  /** "Saint", "St." and a bare "St" in front of the same words normalise
      alike, so "Saint Andrew", "St. Andrew" and "ST ANDREW" all find St.
      Andrew. */
  lemma SaintSpellingsAgree(w: string)
    ensures NormalizeName("Saint " + w) == NormalizeName("St. " + w)
    ensures NormalizeName("St " + w) == NormalizeName("St. " + w)
  {
    var lw := Lower(w);
    LowerConcat("Saint ", w);
    LowerConcat("St. ", w);
    LowerConcat("St ", w);
    var a := "saint " + lw;
    var b := "st. " + lw;
    var c := "st " + lw;
    assert Lower("Saint " + w) == a;
    assert Lower("St. " + w) == b;
    assert Lower("St " + w) == c;
    SaintSpelled(a, b, c, lw);
  }

  lemma SaintSpelled(a: string, b: string, c: string, lw: string)
    requires a == "saint " + lw && b == "st. " + lw && c == "st " + lw
    ensures ReplaceStFrom(ReplaceSaintFrom(a, 0), 0) == ReplaceStFrom(ReplaceSaintFrom(b, 0), 0)
    ensures ReplaceStFrom(ReplaceSaintFrom(c, 0), 0) == ReplaceStFrom(ReplaceSaintFrom(b, 0), 0)
  {
    // The first pass rewrites the leading "saint" and nothing else up to
    // the space; from there on the three strings agree.
    SaintPassOnSaint(a, lw);
    NotSaintAt(b, 0); NotSaintAt(b, 1); NotSaintAt(b, 2); NotSaintAt(b, 3);
    NotSaintAt(c, 0); NotSaintAt(c, 1); NotSaintAt(c, 2);
    SaintPassCopies(b, 0, 4);
    SaintPassCopies(c, 0, 3);
    assert b[..4] == "st. " && c[..3] == "st ";
    assert a[5..] == b[3..] == c[2..];
    ReplaceSaintContext(a, 6, b, 4);
    ReplaceSaintContext(c, 3, b, 4);
    var x := ReplaceSaintFrom(b, 4);
    // The second pass leaves "st." alone and gives a bare "st" its dot.
    StSpelled("st. " + x, "st " + x, x);
  }

  /** The first pass on "saint " + w: "st." then the space, then the rest. */
  lemma SaintPassOnSaint(a: string, lw: string)
    requires a == "saint " + lw
    ensures ReplaceSaintFrom(a, 0) == "st. " + ReplaceSaintFrom(a, 6)
  {
    assert SaintWordAt(a, 0) by {
      assert a[0..5] == "saint";
    }
    NotSaintAt(a, 5);
    assert ReplaceSaintFrom(a, 5) == [a[5]] + ReplaceSaintFrom(a, 6);
  }

  /** Where no whole word "saint" starts, the first pass copies the text. */
  lemma {:induction false} SaintPassCopies(s: string, i: nat, j: nat)
    requires i <= j <= |s|
    requires forall k :: i <= k < j ==> !SaintWordAt(s, k)
    ensures ReplaceSaintFrom(s, i) == s[i..j] + ReplaceSaintFrom(s, j)
    decreases j - i
  {
    if i < j {
      assert !SaintWordAt(s, i);
      SaintPassCopies(s, i + 1, j);
      var rest := ReplaceSaintFrom(s, j);
      calc {
        ReplaceSaintFrom(s, i);
        [s[i]] + ReplaceSaintFrom(s, i + 1);
        [s[i]] + (s[i + 1..j] + rest);
        ([s[i]] + s[i + 1..j]) + rest;
        { assert [s[i]] + s[i + 1..j] == s[i..j]; }
        s[i..j] + rest;
      }
    }
  }

  /** Where no bare "st" starts, the second pass copies the text. */
  lemma {:induction false} StPassCopies(s: string, i: nat, j: nat)
    requires i <= j <= |s|
    requires forall k :: i <= k < j ==> !StWordAt(s, k)
    ensures ReplaceStFrom(s, i) == s[i..j] + ReplaceStFrom(s, j)
    decreases j - i
  {
    if i < j {
      assert !StWordAt(s, i);
      StPassCopies(s, i + 1, j);
      var rest := ReplaceStFrom(s, j);
      calc {
        ReplaceStFrom(s, i);
        [s[i]] + ReplaceStFrom(s, i + 1);
        [s[i]] + (s[i + 1..j] + rest);
        ([s[i]] + s[i + 1..j]) + rest;
        { assert [s[i]] + s[i + 1..j] == s[i..j]; }
        s[i..j] + rest;
      }
    }
  }

  lemma NotSaintAt(s: string, i: nat)
    requires i < |s| && (s[i] != 's' || (i + 1 < |s| && s[i + 1] != 'a'))
    ensures !SaintWordAt(s, i)
  {
    if i + 5 <= |s| {
      assert s[i..i + 5][0] == s[i] && s[i..i + 5][1] == s[i + 1];
    }
  }

  lemma NotStAt(s: string, i: nat)
    requires i < |s| && s[i] != 's'
    ensures !StWordAt(s, i)
  {
    if i + 2 <= |s| {
      assert s[i..i + 2][0] == s[i];
    }
  }

  lemma StSpelled(b: string, c: string, x: string)
    requires b == "st. " + x && c == "st " + x
    ensures ReplaceStFrom(c, 0) == ReplaceStFrom(b, 0)
  {
    assert StWordAt(c, 0) by {
      assert c[0..2] == "st";
    }
    assert !StWordAt(b, 0) by {
      assert b[2] == '.';
    }
    NotStAt(b, 1); NotStAt(b, 2); NotStAt(b, 3); NotStAt(c, 2);
    StPassCopies(b, 0, 4);
    StPassCopies(c, 2, 3);
    assert b[..4] == "st. " && c[2..3] == " ";
    assert b[3..] == c[2..];
    ReplaceStContext(c, 3, b, 4);
  }

  /** Case never matters to the fuzzy lookup. */
  lemma NormalizeNameIgnoresCase(name: string)
    ensures NormalizeName(Lower(name)) == NormalizeName(name)
  {
    LowerIdempotent(name);
  }

  predicate NormalizesTo(key: string, p: Parish)
  {
    NormalizeName(p.name) == key
  }

  /** `_by_name_normalized.get(key)`: the index, filled front to back,
      keeps the last row under each normalised name. */
  function ByNormalizedName(key: string): (r: Option<Parish>)
    ensures r.Some? ==> r.value in AllParishes() && NormalizeName(r.value.name) == key
    ensures r.None? <==> forall i :: 0 <= i < ParishCount ==> NormalizeName(ParishAt(i).name) != key
  {
    match LastIndex(AllParishes(), p => NormalizesTo(key, p))
    case None => None
    case Some(i) => Some(AllParishes()[i])
  }

  /** `get_parish_by_name(name)`: a parish whose normalised name is the
      argument's, if there is one. */
  function GetParishByName(name: string): (r: Option<Parish>)
    ensures r.Some? ==> r.value in AllParishes() && NormalizeName(r.value.name) == NormalizeName(name)
    ensures r.None? <==> forall i :: 0 <= i < ParishCount ==> NormalizeName(ParishAt(i).name) != NormalizeName(name)
  {
    ByNormalizedName(NormalizeName(name))
  }

  /** Two spellings that normalise alike find the same parish. */
  lemma GetParishByNameSpellings(w: string)
    ensures GetParishByName("Saint " + w) == GetParishByName("St. " + w)
    ensures GetParishByName("St " + w) == GetParishByName("St. " + w)
    ensures GetParishByName(Lower(w)) == GetParishByName(w)
  {
    SaintSpellingsAgree(w);
    NormalizeNameIgnoresCase(w);
  }

  // ---------------------------------------------------------------------
  // Services, distances, population
  // ---------------------------------------------------------------------

  /** `get_parishes_with_service(service)`: the parishes having that
      service centre, in table order. */
  function ParishesWithService(s: Service): (r: seq<Parish>)
    ensures forall i :: 0 <= i < |r| ==> r[i] in AllParishes() && HasService(r[i], s)
    ensures forall i :: 0 <= i < ParishCount && HasService(ParishAt(i), s) ==> ParishAt(i) in r
  {
    Filter(AllParishes(), p => HasService(p, s))
  }

  /** Kingston heads the list of parishes with a Land Agency office. */
  lemma NlaParishesStartWithKingston()
    ensures |ParishesWithService(Nla)| > 0 && ParishesWithService(Nla)[0] == ParishAt(0)
  {
    assert AllParishes()[0] == ParishAt(0);
  }

  /** `get_distance_km(from, to)`: the distance between the two parishes'
      centres, or ValueError when either code is unknown. */
  function DistanceKm(fromCode: string, toCode: string, distance: (Coordinates, Coordinates) -> real): (r: Result<real>)
    ensures r.Err? <==> GetParish(fromCode).None? || GetParish(toCode).None?
    ensures r.Err? ==> r.error == ValueError
    ensures r.Ok? ==> r.value == distance(GetParish(fromCode).value.coordinates, GetParish(toCode).value.coordinates)
  {
    match (GetParish(fromCode), GetParish(toCode))
    case (None, _) => Err(ValueError)
    case (_, None) => Err(ValueError)
    case (Some(a), Some(b)) => Ok(distance(a.coordinates, b.coordinates))
  }

  /** The distances from `origin` to each candidate, in order. */
  function DistancesFrom(origin: Parish, candidates: seq<Parish>, distance: (Coordinates, Coordinates) -> real): (ds: seq<real>)
    ensures |ds| == |candidates|
    ensures forall i :: 0 <= i < |candidates| ==> ds[i] == distance(origin.coordinates, candidates[i].coordinates)
  {
    Map(candidates, (p: Parish) => distance(origin.coordinates, p.coordinates))
  }

  /** The first candidate at least distance from `origin`, and that
      distance. */
  function NearestAmong(origin: Parish, candidates: seq<Parish>, distance: (Coordinates, Coordinates) -> real): (r: (Parish, real))
    requires |candidates| > 0
    ensures r.1 == distance(origin.coordinates, r.0.coordinates)
    ensures exists i: nat :: IsFirstMin(DistancesFrom(origin, candidates, distance), i) && r.0 == candidates[i]
  {
    var ds := DistancesFrom(origin, candidates, distance);
    var i := FirstMinIndex(ds);
    (candidates[i], ds[i])
  }

  /** What `get_nearest_parish_with_nla(code)` returns: the first parish
      with an NLA office at least distance from the given parish, and that
      distance; ValueError for an unknown code. */
  function NearestWithNla(code: string, distance: (Coordinates, Coordinates) -> real): (r: Result<(Parish, real)>)
    ensures r.Err? <==> GetParish(code).None?
    ensures r.Err? ==> r.error == ValueError
  {
    match GetParish(code)
    case None => Err(ValueError)
    case Some(origin) =>
      NlaParishesStartWithKingston();
      Ok(NearestAmong(origin, ParishesWithService(Nla), distance))
  }

  /** The nearest office is a parish that has one, no farther away than
      any other, and strictly nearer than every one listed before it. */
  lemma NearestWithNlaIsNearest(code: string, distance: (Coordinates, Coordinates) -> real)
    requires GetParish(code).Some?
    ensures var r := NearestWithNla(code, distance);
      var origin := GetParish(code).value;
      var candidates := ParishesWithService(Nla);
      && r.Ok?
      && HasService(r.value.0, Nla) && r.value.1 == distance(origin.coordinates, r.value.0.coordinates)
      && exists i: nat :: IsFirstMin(DistancesFrom(origin, candidates, distance), i) && r.value.0 == candidates[i]
  {
  }

  /** `get_nearest_parish_with_nla`: look the origin up, then scan the
      parishes with an office. */
  method GetNearestParishWithNla(code: string, distance: (Coordinates, Coordinates) -> real)
    returns (r: Result<(Parish, real)>)
    ensures r == NearestWithNla(code, distance)
  {
    var found := GetParish(code);
    if found.None? {
      return Err(ValueError);
    }
    var candidates := ParishesWithService(Nla);
    NlaParishesStartWithKingston();
    var nearest := ScanNearest(found.value, candidates, distance);
    r := Ok(nearest);
  }

  /** The loop of `get_nearest_parish_with_nla`: the first candidate is the
      best so far, and a later one replaces it only when strictly nearer. */
  method ScanNearest(origin: Parish, candidates: seq<Parish>, distance: (Coordinates, Coordinates) -> real)
    returns (r: (Parish, real))
    requires |candidates| > 0
    ensures r == NearestAmong(origin, candidates, distance)
  {
    ghost var ds := DistancesFrom(origin, candidates, distance);
    var nearest := 0;
    var minDist := distance(origin.coordinates, candidates[0].coordinates);
    var k := 1;
    while k < |candidates|
      invariant 1 <= k <= |candidates|
      invariant IsFirstMin(ds[..k], nearest) && minDist == ds[nearest]
    {
      var d := distance(origin.coordinates, candidates[k].coordinates);
      if d < minDist {
        minDist := d;
        nearest := k;
      }
      k := k + 1;
    }
    assert ds[..k] == ds;
    FirstMinUnique(ds, nearest, FirstMinIndex(ds));
    r := (candidates[nearest], minDist);
  }

  /** A parish with its own Land Agency office is its own nearest one, at
      distance 0, whenever the distance is 0 from a point to itself and
      positive between different parishes. */
  lemma OwnOfficeIsNearest(code: string, distance: (Coordinates, Coordinates) -> real)
    requires GetParish(code).Some? && HasService(GetParish(code).value, Nla)
    requires forall c :: distance(c, c) == 0.0
    requires forall a, b :: a in AllParishes() && b in AllParishes() && a != b ==> distance(a.coordinates, b.coordinates) > 0.0
    ensures NearestWithNla(code, distance) == Ok((GetParish(code).value, 0.0))
  {
    var origin := GetParish(code).value;
    var candidates := ParishesWithService(Nla);
    NlaParishesStartWithKingston();
    var k :| 0 <= k < ParishCount && AllParishes()[k] == origin;
    assert origin in candidates;
    OwnIsNearestAmong(origin, candidates, distance);
  }

  /** Among candidates that include the origin itself, at distance 0 from
      it while every other candidate is farther, the origin is nearest. */
  lemma OwnIsNearestAmong(origin: Parish, candidates: seq<Parish>, distance: (Coordinates, Coordinates) -> real)
    requires origin in candidates && distance(origin.coordinates, origin.coordinates) == 0.0
    requires forall i :: 0 <= i < |candidates| && candidates[i] != origin ==> distance(origin.coordinates, candidates[i].coordinates) > 0.0
    ensures NearestAmong(origin, candidates, distance) == (origin, 0.0)
  {
    var ds := DistancesFrom(origin, candidates, distance);
    var i := FirstMinIndex(ds);
    var m :| 0 <= m < |candidates| && candidates[m] == origin;
    assert ds[m] == 0.0;
  }

  /** Sum of the populations of `ps`. */
  function Population(ps: seq<Parish>): nat
  {
    if ps == [] then 0 else Population(ps[..|ps| - 1]) + ps[|ps| - 1].population
  }

  lemma {:induction false} PopulationConcat(a: seq<Parish>, b: seq<Parish>)
    ensures Population(a + b) == Population(a) + Population(b)
    decreases |b|
  {
    if b != [] {
      assert (a + b)[..|a + b| - 1] == a + b[..|b| - 1];
      PopulationConcat(a, b[..|b| - 1]);
    } else {
      assert a + b == a;
    }
  }

  /** `get_total_population()`: the 2022 census total of all fourteen
      parishes. */
  function TotalPopulation(): (n: nat)
  {
    Population(AllParishes())
  }

  /** The populations of the first `n` rows, added up row by row. */
  function PopulationUpTo(n: nat): nat
    requires n <= ParishCount
  {
    if n == 0 then 0 else PopulationUpTo(n - 1) + ParishAt(n - 1).population
  }

  lemma {:induction false} PopulationPrefix(n: nat)
    requires n <= ParishCount
    ensures Population(AllParishes()[..n]) == PopulationUpTo(n)
  {
    if n > 0 {
      assert AllParishes()[..n][..n - 1] == AllParishes()[..n - 1];
      PopulationPrefix(n - 1);
    }
  }

  lemma TotalPopulationIs()
    ensures TotalPopulation() == 2796538
  {
    assert AllParishes()[..ParishCount] == AllParishes();
    PopulationPrefix(ParishCount);
    assert PopulationUpTo(ParishCount) == 2796538;
  }
}
