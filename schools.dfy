/** The schools and universities directory: parish resolution, the parish,
    type, level, ownership and university filters, lookup of one school by
    name, name search and the per-parish count. Every operation reads the
    directory `schools` it is given, the module's tuple of school rows. */
module Schools {
  import opened Wrappers
  import opened Strings
  import opened Lookups
  import opened Addresses

  datatype SchoolType = Infant | Primary | AllAge | PrimaryJuniorHigh | Secondary | Technical | Tertiary
  datatype SchoolLevel = EarlyChildhood | PrimaryLevel | SecondaryLevel | TertiaryLevel
  datatype SchoolOwnership = Government | GovernmentAided | Independent | Church

  datatype School = School(
    name: string,
    kind: SchoolType,
    level: SchoolLevel,
    ownership: SchoolOwnership,
    parish: string,
    isUniversity: bool,
    address: Option<string>)

  // ---------------------------------------------------------------------
  // Parish resolution
  // ---------------------------------------------------------------------

  /** `_resolve_parish(parish)`: `_PARISH_LOOKUP` maps each lower-cased
      parish name to its canonical spelling; any other name is a
      ValueError. */
  function ResolveParish(parish: string): (r: Result<string>)
    ensures r.Err? ==> r.error == ValueError
  {
    match ParishOfLower(Lower(parish))
    case Some(canonical) => Ok(canonical)
    case None => Err(ValueError)
  }

  /** The lookup table is `{p.lower(): p for p in PARISHES}`: a key leads to
      a parish whose lower-cased name is that key. */
  lemma ParishOfLowerIsLowered(key: string)
    requires ParishOfLower(key).Some?
    ensures Lower(ParishOfLower(key).value) == key
  {
    LowerNames();
  }

  /** Every parish's lower-cased name leads back to it. */
  lemma ParishOfLowerFinds(p: string)
    requires IsParish(p)
    ensures ParishOfLower(Lower(p)) == Some(p)
  {
    LowerNames();
  }

  /** The lower-cased names of the fourteen parishes. */
  lemma LowerNames()
    ensures Lower("Kingston") == "kingston"
    ensures Lower("St. Andrew") == "st. andrew"
    ensures Lower("St. Catherine") == "st. catherine"
    ensures Lower("Clarendon") == "clarendon"
    ensures Lower("Manchester") == "manchester"
    ensures Lower("St. Elizabeth") == "st. elizabeth"
    ensures Lower("Westmoreland") == "westmoreland"
    ensures Lower("Hanover") == "hanover"
    ensures Lower("St. James") == "st. james"
    ensures Lower("Trelawny") == "trelawny"
    ensures Lower("St. Ann") == "st. ann"
    ensures Lower("St. Mary") == "st. mary"
    ensures Lower("Portland") == "portland"
    ensures Lower("St. Thomas") == "st. thomas"
  {
    LowerName("Kingston", "kingston");
    LowerName("St. Andrew", "st. andrew");
    LowerName("St. Catherine", "st. catherine");
    LowerName("Clarendon", "clarendon");
    LowerName("Manchester", "manchester");
    LowerName("St. Elizabeth", "st. elizabeth");
    LowerName("Westmoreland", "westmoreland");
    LowerName("Hanover", "hanover");
    LowerName("St. James", "st. james");
    LowerName("Trelawny", "trelawny");
    LowerName("St. Ann", "st. ann");
    LowerName("St. Mary", "st. mary");
    LowerName("Portland", "portland");
    LowerName("St. Thomas", "st. thomas");
  }

  /** `Lower(name) == lower`, checked character by character. */
  lemma LowerName(name: string, lower: string)
    requires |name| == |lower| && forall i :: 0 <= i < |name| ==> LowerChar(name[i]) == lower[i]
    ensures Lower(name) == lower
  {
  }

  /** A name resolves exactly when it is some parish's name in any case,
      and then to that parish. */
  lemma ResolveParishSpec(parish: string)
    ensures ResolveParish(parish).Ok? <==> exists p :: IsParish(p) && Lower(p) == Lower(parish)
    ensures ResolveParish(parish).Ok? ==>
      IsParish(ResolveParish(parish).value) && Lower(ResolveParish(parish).value) == Lower(parish)
  {
    if ParishOfLower(Lower(parish)).Some? {
      ParishOfLowerIsLowered(Lower(parish));
    } else {
      forall p | IsParish(p)
        ensures Lower(p) != Lower(parish)
      {
        ParishOfLowerFinds(p);
      }
    }
  }

  // ---------------------------------------------------------------------
  // Filters
  // ---------------------------------------------------------------------

  predicate InParish(canonical: string, s: School)
  {
    s.parish == canonical
  }

  /** `get_schools_by_parish(parish)`: the schools whose parish is the
      canonical spelling of `parish`; the ValueError of an unknown parish
      propagates. */
  function GetSchoolsByParish(schools: seq<School>, parish: string): (r: Result<seq<School>>)
    ensures r.Err? <==> ResolveParish(parish).Err?
    ensures r.Err? ==> r.error == ValueError
    ensures r.Ok? ==> forall s :: s in r.value <==> s in schools && s.parish == ResolveParish(parish).value
  {
    match ResolveParish(parish)
    case Err(e) => Err(e)
    case Ok(canonical) => Ok(Filter(schools, s => InParish(canonical, s)))
  }

  /** The parish filter reads its argument's case only through the
      lookup: two spellings of one parish give the same schools. */
  lemma ByParishIgnoresCase(schools: seq<School>, a: string, b: string)
    requires Lower(a) == Lower(b)
    ensures GetSchoolsByParish(schools, a) == GetSchoolsByParish(schools, b)
  {
  }

  /** A school is listed under the parish it names, in whatever case that
      parish is written, when its parish is one of the fourteen. */
  lemma SchoolListedUnderItsParish(schools: seq<School>, s: School, spelling: string)
    requires s in schools && IsParish(s.parish) && Lower(spelling) == Lower(s.parish)
    ensures GetSchoolsByParish(schools, spelling).Ok? && s in GetSchoolsByParish(schools, spelling).value
  {
    ParishOfLowerFinds(s.parish);
  }

  predicate OfType(t: SchoolType, s: School)
  {
    s.kind == t
  }

  predicate AtLevel(l: SchoolLevel, s: School)
  {
    s.level == l
  }

  predicate OwnedBy(o: SchoolOwnership, s: School)
  {
    s.ownership == o
  }

  predicate IsUniversity(s: School)
  {
    s.isUniversity
  }

  /** `get_schools_by_type(school_type)`. */
  function GetSchoolsByType(schools: seq<School>, t: SchoolType): (r: seq<School>)
    ensures forall s :: s in r <==> s in schools && s.kind == t
  {
    Filter(schools, s => OfType(t, s))
  }

  /** `get_schools_by_level(level)`. */
  function GetSchoolsByLevel(schools: seq<School>, l: SchoolLevel): (r: seq<School>)
    ensures forall s :: s in r <==> s in schools && s.level == l
  {
    Filter(schools, s => AtLevel(l, s))
  }

  /** `get_schools_by_ownership(ownership)`. */
  function GetSchoolsByOwnership(schools: seq<School>, o: SchoolOwnership): (r: seq<School>)
    ensures forall s :: s in r <==> s in schools && s.ownership == o
  {
    Filter(schools, s => OwnedBy(o, s))
  }

  /** `get_universities()`. */
  function GetUniversities(schools: seq<School>): (r: seq<School>)
    ensures forall s :: s in r <==> s in schools && s.isUniversity
  {
    Filter(schools, IsUniversity)
  }

  /** The filters keep the directory's order: filtering a directory made of
      two parts filters each part. */
  lemma FiltersKeepOrder(front: seq<School>, back: seq<School>, t: SchoolType, l: SchoolLevel, o: SchoolOwnership)
    ensures GetSchoolsByType(front + back, t) == GetSchoolsByType(front, t) + GetSchoolsByType(back, t)
    ensures GetSchoolsByLevel(front + back, l) == GetSchoolsByLevel(front, l) + GetSchoolsByLevel(back, l)
    ensures GetSchoolsByOwnership(front + back, o) == GetSchoolsByOwnership(front, o) + GetSchoolsByOwnership(back, o)
    ensures GetUniversities(front + back) == GetUniversities(front) + GetUniversities(back)
  {
    FilterConcat(front, back, s => OfType(t, s));
    FilterConcat(front, back, s => AtLevel(l, s));
    FilterConcat(front, back, s => OwnedBy(o, s));
    FilterConcat(front, back, IsUniversity);
  }

  // ---------------------------------------------------------------------
  // Lookup by name and search
  // ---------------------------------------------------------------------

  predicate NameIs(lower: string, s: School)
  {
    Lower(s.name) == lower
  }

  predicate NameContains(lower: string, s: School)
  {
    Contains(Lower(s.name), lower)
  }

  /** What `get_school(name)` returns: the first school whose lower-cased
      name is the lower-cased argument, failing that the first whose
      lower-cased name contains it, failing that None. */
  function SchoolNamed(schools: seq<School>, name: string): Option<School>
  {
    var lower := Lower(name);
    match First(schools, s => NameIs(lower, s))
    case Some(s) => Some(s)
    case None => First(schools, s => NameContains(lower, s))
  }

  /** `get_school(name)`: the exact-match loop, then the substring loop. */
  method GetSchool(schools: seq<School>, name: string) returns (r: Option<School>)
    ensures r == SchoolNamed(schools, name)
  {
    var lower := Lower(name);
    var k := 0;
    while k < |schools|
      invariant k <= |schools|
      invariant forall j :: 0 <= j < k ==> !NameIs(lower, schools[j])
    {
      if Lower(schools[k].name) == lower {
        FirstAt(schools, s => NameIs(lower, s), k);
        return Some(schools[k]);
      }
      k := k + 1;
    }
    FirstNone(schools, s => NameIs(lower, s));
    k := 0;
    while k < |schools|
      invariant k <= |schools|
      invariant forall j :: 0 <= j < k ==> !NameContains(lower, schools[j])
    {
      if Contains(Lower(schools[k].name), lower) {
        FirstAt(schools, s => NameContains(lower, s), k);
        return Some(schools[k]);
      }
      k := k + 1;
    }
    FirstNone(schools, s => NameContains(lower, s));
    return None;
  }

  /** `search_schools(query)`: the schools whose lower-cased name contains
      the lower-cased query, in directory order. */
  function SearchSchools(schools: seq<School>, query: string): (r: seq<School>)
    ensures forall s :: s in r <==> s in schools && Contains(Lower(s.name), Lower(query))
  {
    Filter(schools, s => NameContains(Lower(query), s))
  }

  /** An exact match wins: when some school has the name (in any case), the
      school returned has it and is the first that does. Otherwise the
      result is the first search hit, and None exactly when the search finds
      nothing. */
  lemma SchoolNamedSpec(schools: seq<School>, name: string)
    ensures (exists i :: 0 <= i < |schools| && Lower(schools[i].name) == Lower(name)) ==>
      SchoolNamed(schools, name) == First(schools, s => NameIs(Lower(name), s))
      && SchoolNamed(schools, name).Some? && Lower(SchoolNamed(schools, name).value.name) == Lower(name)
    ensures (forall i :: 0 <= i < |schools| ==> Lower(schools[i].name) != Lower(name)) ==>
      SchoolNamed(schools, name) ==
        if SearchSchools(schools, name) == [] then None else Some(SearchSchools(schools, name)[0])
    ensures SchoolNamed(schools, name).None? <==> SearchSchools(schools, name) == []
  {
    var lower := Lower(name);
    var exact := s => NameIs(lower, s);
    var partial := s => NameContains(lower, s);
    FirstIsHeadOfFilter(schools, partial);
    if exists i :: 0 <= i < |schools| && Lower(schools[i].name) == lower {
      var i :| 0 <= i < |schools| && Lower(schools[i].name) == lower;
      assert exact(schools[i]);
      ContainsSelf(lower);
      assert partial(schools[i]);
      assert schools[i] in SearchSchools(schools, name);
    }
  }

  /** Searching for the empty string returns the whole directory. */
  lemma EmptySearchReturnsAll(schools: seq<School>)
    ensures SearchSchools(schools, "") == schools
  {
    forall s | s in schools
      ensures NameContains(Lower(""), s)
    {
      ContainsEmpty(Lower(s.name));
    }
    FilterAll(schools, s => NameContains(Lower(""), s));
  }

  // ---------------------------------------------------------------------
  // Counts
  // ---------------------------------------------------------------------

  /** The parish of each school, in directory order. */
  function ParishColumn(schools: seq<School>): (ps: seq<string>)
    ensures |ps| == |schools|
    ensures forall i :: 0 <= i < |schools| ==> ps[i] == schools[i].parish
  {
    Map(schools, (s: School) => s.parish)
  }

  /** `get_school_count_by_parish()`: each parish that has a school, once,
      in order of first appearance, with its number of schools; the counts
      add up to `get_school_count()`. */
  method GetSchoolCountByParish(schools: seq<School>) returns (counts: seq<(string, nat)>)
    ensures CountsOf(counts, ParishColumn(schools))
    ensures Total(counts) == |schools|
  {
    counts := CountByKey(ParishColumn(schools));
  }
}
