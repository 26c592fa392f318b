/** The emergency services directory: the emergency telephone numbers,
    police and fire stations, disaster shelters, their parish filters and
    searches, and the counts. Parishes and queries are compared after
    lower-casing and stripping surrounding whitespace. The operations read
    the station and shelter lists they are given. */
module Emergency {
  import opened Wrappers
  import opened Strings
  import opened Lookups

  datatype EmergencyNumbers = EmergencyNumbers(
    police: string,
    ambulance: string,
    fire: string,
    disasterPreparedness: string,
    coastGuard: string)

  datatype StationType = Police | Fire

  datatype Station = Station(
    name: string,
    kind: StationType,
    parish: string,
    division: Option<string>,
    address: Option<string>,
    phone: Option<string>)

  datatype ShelterType = SchoolShelter | CommunityCentre | SportsFacility | OtherShelter

  datatype Shelter = Shelter(name: string, parish: string, kind: ShelterType, capacity: Option<nat>)

  /** The text of a station's `type` field. */
  function StationTypeText(t: StationType): string
  {
    match t
    case Police => "police"
    case Fire => "fire"
  }

  /** The text of a shelter's `type` field. */
  function ShelterTypeText(t: ShelterType): string
  {
    match t
    case SchoolShelter => "school"
    case CommunityCentre => "community-centre"
    case SportsFacility => "sports-facility"
    case OtherShelter => "other"
  }

  /** `get_emergency_numbers()`: police on 119, ambulance and fire sharing
      110, disaster preparedness on 116. */
  function GetEmergencyNumbers(): (n: EmergencyNumbers)
    ensures n.ambulance == n.fire && n.police != n.fire
  {
    EmergencyNumbers("119", "110", "110", "116", "(876) 967-8191")
  }

  // ---------------------------------------------------------------------
  // Matching
  // ---------------------------------------------------------------------

  /** `_normalise(s)`: `s.lower().strip()`. */
  function Normalise(s: string): string
  {
    Strip(Lower(s))
  }

  /** `_match_parish(parish, target)`. */
  predicate MatchParish(parish: string, target: string)
  {
    Normalise(parish) == Normalise(target)
  }

  /** `_match_query(text, query)`. */
  predicate MatchQuery(text: string, query: string)
  {
    Contains(Normalise(text), Normalise(query))
  }

  /** Parish matching is an equivalence: reflexive, symmetric and
      transitive. */
  lemma MatchParishEquivalence(a: string, b: string, c: string)
    ensures MatchParish(a, a)
    ensures MatchParish(a, b) == MatchParish(b, a)
    ensures MatchParish(a, b) && MatchParish(b, c) ==> MatchParish(a, c)
  {
  }

  /** Case and surrounding whitespace do not matter: a parish written in
      another case, with blanks before and after, still matches. */
  lemma MatchParishIgnoresCaseAndPadding(a: string, b: string, pre: string, post: string)
    requires Lower(a) == Lower(b) && IsBlank(pre) && IsBlank(post)
    ensures MatchParish(pre + a + post, b)
  {
    LowerConcat(pre + a, post);
    LowerConcat(pre, a);
    LowerBlank(pre);
    LowerBlank(post);
    StripPadded(Lower(pre), Lower(a), Lower(post));
  }

  /** A query of nothing but whitespace matches every text. */
  lemma BlankQueryMatches(text: string, query: string)
    requires IsBlank(query)
    ensures MatchQuery(text, query)
  {
    LowerBlank(query);
    StripEmptyIffBlank(Lower(query));
    ContainsEmpty(Normalise(text));
  }

  // ---------------------------------------------------------------------
  // Stations
  // ---------------------------------------------------------------------

  predicate StationInParish(parish: string, s: Station)
  {
    MatchParish(s.parish, parish)
  }

  /** `get_police_stations_by_parish(parish)`. */
  function GetPoliceStationsByParish(police: seq<Station>, parish: string): (r: seq<Station>)
    ensures forall s :: s in r <==> s in police && MatchParish(s.parish, parish)
  {
    Filter(police, s => StationInParish(parish, s))
  }

  /** `get_fire_stations_by_parish(parish)`. */
  function GetFireStationsByParish(fire: seq<Station>, parish: string): (r: seq<Station>)
    ensures forall s :: s in r <==> s in fire && MatchParish(s.parish, parish)
  {
    Filter(fire, s => StationInParish(parish, s))
  }

  /** `get_stations()`: the police stations, then the fire stations. */
  function GetStations(police: seq<Station>, fire: seq<Station>): (r: seq<Station>)
    ensures |r| == |police| + |fire|
    ensures r[..|police|] == police && r[|police|..] == fire
  {
    police + fire
  }

  /** `get_stations_by_parish(parish)`: the parish's police stations, then
      its fire stations. */
  function GetStationsByParish(police: seq<Station>, fire: seq<Station>, parish: string): seq<Station>
  {
    GetPoliceStationsByParish(police, parish) + GetFireStationsByParish(fire, parish)
  }

  /** Filtering each list and joining the results is filtering the joined
      list: the parish's stations are `get_stations()` restricted to the
      parish, in the same order. */
  lemma StationsByParishIsFilter(police: seq<Station>, fire: seq<Station>, parish: string)
    ensures GetStationsByParish(police, fire, parish) == Filter(GetStations(police, fire), s => StationInParish(parish, s))
  {
    FilterConcat(police, fire, s => StationInParish(parish, s));
  }

  /** A station matches a query on its name, parish or type, or on its
      division when it has one. */
  predicate StationMatches(query: string, s: Station)
  {
    || MatchQuery(s.name, query)
    || MatchQuery(s.parish, query)
    || MatchQuery(StationTypeText(s.kind), query)
    || (s.division.Some? && MatchQuery(s.division.value, query))
  }

  /** `search_stations(query)`: the matching stations among the police
      stations followed by the fire stations. */
  function SearchStations(police: seq<Station>, fire: seq<Station>, query: string): (r: seq<Station>)
    ensures forall s :: s in r <==> s in GetStations(police, fire) && StationMatches(query, s)
  {
    Filter(GetStations(police, fire), s => StationMatches(query, s))
  }

  /** The search keeps the police hits ahead of the fire hits. */
  lemma SearchStationsSplits(police: seq<Station>, fire: seq<Station>, query: string)
    ensures SearchStations(police, fire, query)
      == Filter(police, s => StationMatches(query, s)) + Filter(fire, s => StationMatches(query, s))
  {
    FilterConcat(police, fire, s => StationMatches(query, s));
  }

  /** A blank query normalises to the empty string, which every name
      contains: it returns every station. */
  lemma BlankStationSearchReturnsAll(police: seq<Station>, fire: seq<Station>, query: string)
    requires IsBlank(query)
    ensures SearchStations(police, fire, query) == GetStations(police, fire)
  {
    forall s | s in police + fire
      ensures StationMatches(query, s)
    {
      BlankQueryMatches(s.name, query);
    }
    FilterAll(police + fire, s => StationMatches(query, s));
  }

  /** The dictionary `get_station_count()` returns. */
  datatype StationCount = StationCount(police: nat, fire: nat, total: nat)

  /** `get_station_count()`: the police and fire counts and their sum, which
      is the number of stations `get_stations()` lists. */
  function GetStationCount(police: seq<Station>, fire: seq<Station>): (r: StationCount)
    ensures r.police == |police| && r.fire == |fire|
    ensures r.total == r.police + r.fire && r.total == |GetStations(police, fire)|
  {
    StationCount(|police|, |fire|, |police| + |fire|)
  }

  // ---------------------------------------------------------------------
  // Shelters
  // ---------------------------------------------------------------------

  predicate ShelterInParish(parish: string, s: Shelter)
  {
    MatchParish(s.parish, parish)
  }

  /** `get_shelters_by_parish(parish)`. */
  function GetSheltersByParish(shelters: seq<Shelter>, parish: string): (r: seq<Shelter>)
    ensures forall s :: s in r <==> s in shelters && MatchParish(s.parish, parish)
  {
    Filter(shelters, s => ShelterInParish(parish, s))
  }

  /** A shelter matches a query on its name, parish or type. */
  predicate ShelterMatches(query: string, s: Shelter)
  {
    MatchQuery(s.name, query) || MatchQuery(s.parish, query) || MatchQuery(ShelterTypeText(s.kind), query)
  }

  /** `search_shelters(query)`. */
  function SearchShelters(shelters: seq<Shelter>, query: string): (r: seq<Shelter>)
    ensures forall s :: s in r <==> s in shelters && ShelterMatches(query, s)
  {
    Filter(shelters, s => ShelterMatches(query, s))
  }

  /** Every shelter in a parish is found by searching for that parish's
      name, since the search also looks at the parish. */
  lemma ShelterSearchFindsParish(shelters: seq<Shelter>, parish: string)
    ensures forall s :: s in GetSheltersByParish(shelters, parish) ==> s in SearchShelters(shelters, parish)
  {
    forall s | s in GetSheltersByParish(shelters, parish)
      ensures ShelterMatches(parish, s)
    {
      ContainsSelf(Normalise(parish));
    }
  }

  /** A blank query returns every shelter. */
  lemma BlankShelterSearchReturnsAll(shelters: seq<Shelter>, query: string)
    requires IsBlank(query)
    ensures SearchShelters(shelters, query) == shelters
  {
    forall s | s in shelters
      ensures ShelterMatches(query, s)
    {
      BlankQueryMatches(s.name, query);
    }
    FilterAll(shelters, s => ShelterMatches(query, s));
  }
}
