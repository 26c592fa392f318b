/** The places directory: cities, towns, communities, districts and
    villages with their parish. Every operation reads the directory
    `places` it is given, the module's tuple of place rows. */
module Places {
  import opened Wrappers
  import opened Strings
  import opened Lookups

  datatype PlaceType = City | Town | Community | District | Village

  datatype Place = Place(
    name: string,
    kind: PlaceType,
    parish: string,
    population: Option<nat>,
    description: Option<string>)

  predicate InParish(key: string, p: Place)
  {
    Lower(p.parish) == key
  }

  /** `get_places_by_parish(parish)`: the places whose lower-cased parish
      is the lower-cased argument, in directory order. */
  function GetPlacesByParish(places: seq<Place>, parish: string): (r: seq<Place>)
    ensures forall p :: p in r <==> p in places && Lower(p.parish) == Lower(parish)
  {
    Filter(places, p => InParish(Lower(parish), p))
  }

  /** A parish no place names, in any case, gives the empty list rather
      than an error. */
  lemma UnknownParishIsEmpty(places: seq<Place>, parish: string)
    requires forall p :: p in places ==> Lower(p.parish) != Lower(parish)
    ensures GetPlacesByParish(places, parish) == []
  {
    FilterNone(places, p => InParish(Lower(parish), p));
  }

  predicate OfType(t: PlaceType, p: Place)
  {
    p.kind == t
  }

  /** `get_places_by_type(place_type)`. */
  function GetPlacesByType(places: seq<Place>, t: PlaceType): (r: seq<Place>)
    ensures forall p :: p in r <==> p in places && p.kind == t
  {
    Filter(places, p => OfType(t, p))
  }

  predicate NameIs(lower: string, p: Place)
  {
    Lower(p.name) == lower
  }

  /** What `get_place(name)` returns: the first place whose lower-cased name
      is the lower-cased argument. */
  function PlaceNamed(places: seq<Place>, name: string): (r: Option<Place>)
  {
    First(places, p => NameIs(Lower(name), p))
  }

  /** `get_place(name)`: the loop that returns on the first exact match. */
  method GetPlace(places: seq<Place>, name: string) returns (r: Option<Place>)
    ensures r == PlaceNamed(places, name)
    ensures r.Some? ==> r.value in places && Lower(r.value.name) == Lower(name)
    ensures r.None? <==> forall p :: p in places ==> Lower(p.name) != Lower(name)
  {
    var normalised := Lower(name);
    var k := 0;
    while k < |places|
      invariant k <= |places|
      invariant forall j :: 0 <= j < k ==> !NameIs(normalised, places[j])
    {
      if Lower(places[k].name) == normalised {
        FirstAt(places, p => NameIs(normalised, p), k);
        return Some(places[k]);
      }
      k := k + 1;
    }
    FirstNone(places, p => NameIs(normalised, p));
    return None;
  }

  /** Of two places sharing a name, the one listed first is returned
      whichever spelling of the name is asked for: "Retreat" in St. Mary is
      listed before "Retreat" in St. Thomas, so it is the one found. */
  lemma EarlierDuplicateWins(places: seq<Place>, name: string, i: nat, j: nat)
    requires i < j < |places|
    requires Lower(places[i].name) == Lower(name) && Lower(places[j].name) == Lower(name)
    requires forall k :: 0 <= k < i ==> Lower(places[k].name) != Lower(name)
    ensures PlaceNamed(places, name) == Some(places[i])
  {
    FirstAt(places, p => NameIs(Lower(name), p), i);
  }

  /** The two rows named Retreat, in directory order: a community in
      St. Mary, then a community in St. Thomas. */
  const RetreatStMary: Place := Place("Retreat", Community, "St. Mary", None, None)
  const RetreatStThomas: Place := Place("Retreat", Community, "St. Thomas", None, None)

  /** In a directory laid out as the module's is (no Retreat before the
      St. Mary row, which comes before the St. Thomas row), looking up
      "retreat" in any case finds the St. Mary community. */
  lemma RetreatIsStMary(before: seq<Place>, between: seq<Place>, after: seq<Place>, name: string)
    requires forall p :: p in before ==> Lower(p.name) != "retreat"
    requires Lower(name) == "retreat"
    ensures PlaceNamed(before + [RetreatStMary] + between + [RetreatStThomas] + after, name) == Some(RetreatStMary)
  {
    var places := before + [RetreatStMary] + between + [RetreatStThomas] + after;
    var i, j := |before|, |before| + 1 + |between|;
    assert places[i] == RetreatStMary && places[j] == RetreatStThomas;
    assert Lower("Retreat") == "retreat";
    forall k | 0 <= k < i
      ensures Lower(places[k].name) != Lower(name)
    {
      assert places[k] == before[k];
    }
    EarlierDuplicateWins(places, name, i, j);
  }

  predicate IsUrban(p: Place)
  {
    p.kind == Town || p.kind == City
  }

  /** `get_towns()`: the places of type "town" or "city". */
  function GetTowns(places: seq<Place>): (r: seq<Place>)
    ensures forall p :: p in r <==> p in places && (p.kind == Town || p.kind == City)
  {
    Filter(places, IsUrban)
  }

  /** The towns list holds exactly the cities and the towns, each as often
      as the directory does. */
  lemma TownsAreCitiesAndTowns(places: seq<Place>)
    ensures multiset(GetTowns(places)) == multiset(GetPlacesByType(places, City)) + multiset(GetPlacesByType(places, Town))
  {
    var urban := Filter(places, IsUrban);
    var isCity := p => OfType(City, p);
    var notCity := p => !OfType(City, p);
    FilterPartition(urban, isCity, notCity);
    FilterFilter(places, IsUrban, isCity, p => IsUrban(p) && OfType(City, p));
    FilterFilter(places, IsUrban, notCity, p => IsUrban(p) && !OfType(City, p));
    FilterExtensional(places, p => IsUrban(p) && OfType(City, p), isCity);
    FilterExtensional(places, p => IsUrban(p) && !OfType(City, p), p => OfType(Town, p));
  }

  predicate IsCommunityIn(key: string, p: Place)
  {
    InParish(key, p) && p.kind == Community
  }

  /** `get_communities(parish)`: the names of the parish's community-type
      places, in directory order. */
  function GetCommunities(places: seq<Place>, parish: string): (r: seq<string>)
  {
    Map(Filter(places, p => IsCommunityIn(Lower(parish), p)), (p: Place) => p.name)
  }

  /** The communities of a parish are, in order, the names of the parish's
      places whose type is "community". */
  lemma CommunitiesSpec(places: seq<Place>, parish: string)
    ensures GetCommunities(places, parish)
      == Map(Filter(GetPlacesByParish(places, parish), p => OfType(Community, p)), (p: Place) => p.name)
    ensures forall c :: c in GetCommunities(places, parish) ==>
      exists p :: p in places && p.name == c && p.kind == Community && Lower(p.parish) == Lower(parish)
  {
    var key := Lower(parish);
    FilterFilter(places, p => InParish(key, p), p => OfType(Community, p), p => IsCommunityIn(key, p));
    var cs := Filter(places, p => IsCommunityIn(key, p));
    forall c | c in GetCommunities(places, parish)
      ensures exists p :: p in places && p.name == c && p.kind == Community && Lower(p.parish) == Lower(parish)
    {
      var i :| 0 <= i < |cs| && GetCommunities(places, parish)[i] == c;
      assert cs[i] in cs;
    }
  }

  predicate NameContains(q: string, p: Place)
  {
    Contains(Lower(p.name), q)
  }

  /** `search_places(query)`: the places whose lower-cased name contains the
      lower-cased query, in directory order. */
  function SearchPlaces(places: seq<Place>, query: string): (r: seq<Place>)
    ensures forall p :: p in r <==> p in places && Contains(Lower(p.name), Lower(query))
  {
    Filter(places, p => NameContains(Lower(query), p))
  }

  /** A place found by name is also found by searching for that name. */
  lemma FoundPlaceIsSearched(places: seq<Place>, name: string)
    requires PlaceNamed(places, name).Some?
    ensures PlaceNamed(places, name).value in SearchPlaces(places, name)
  {
    ContainsSelf(Lower(name));
  }

  /** The parish of each place, in directory order. */
  function ParishColumn(places: seq<Place>): (ps: seq<string>)
    ensures |ps| == |places|
    ensures forall i :: 0 <= i < |places| ==> ps[i] == places[i].parish
  {
    Map(places, (p: Place) => p.parish)
  }

  /** `get_place_count_by_parish()`: each parish once, in order of first
      appearance, with its number of places; the counts add up to
      `get_place_count()`. */
  method GetPlaceCountByParish(places: seq<Place>) returns (counts: seq<(string, nat)>)
    ensures CountsOf(counts, ParishColumn(places))
    ensures Total(counts) == |places|
  {
    counts := CountByKey(ParishColumn(places));
  }
}
