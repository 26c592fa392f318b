/** The transport directory: airports, seaports, vehicle classes and the
    road network summary. The airport, seaport and vehicle class operations
    read the lists they are given, the module's tuples of rows; the road
    network record is reproduced in full. */
module Transport {
  import opened Wrappers
  import opened Strings
  import opened Lookups

  datatype Coordinates = Coordinates(lat: real, lng: real)

  datatype AirportType = International | Domestic

  datatype Airport = Airport(
    name: string,
    iata: string,
    icao: string,
    parish: string,
    kind: AirportType,
    coordinates: Coordinates)

  datatype SeaportType = Cargo | Cruise | CruiseCargo | FishingCargo

  datatype Seaport = Seaport(name: string, parish: string, kind: SeaportType, operator: Option<string>)

  datatype VehicleClass = VehicleClass(code: string, name: string, description: string, platePrefix: Option<string>)

  datatype HighwayStatus = Operational | Toll | Proposed

  datatype Highway = Highway(name: string, segments: seq<string>, totalKm: nat, status: HighwayStatus)

  datatype RoadNetwork = RoadNetwork(
    totalKm: nat,
    pavedKm: nat,
    unpavedKm: nat,
    mainRoadsKm: nat,
    parochialRoadsKm: nat,
    highways: seq<Highway>)

  // ---------------------------------------------------------------------
  // Airports
  // ---------------------------------------------------------------------

  predicate HasCode(code: string, a: Airport)
  {
    a.iata == code || a.icao == code
  }

  /** What `get_airport(iata_or_icao)` returns: the first airport whose IATA
      or ICAO code, as stored, is the upper-cased argument. */
  function AirportCoded(airports: seq<Airport>, iataOrIcao: string): (r: Option<Airport>)
  {
    First(airports, a => HasCode(Upper(iataOrIcao), a))
  }

  /** `get_airport(iata_or_icao)`: the loop that returns on the first
      matching code. */
  method GetAirport(airports: seq<Airport>, iataOrIcao: string) returns (r: Option<Airport>)
    ensures r == AirportCoded(airports, iataOrIcao)
    ensures r.Some? ==> r.value in airports && (r.value.iata == Upper(iataOrIcao) || r.value.icao == Upper(iataOrIcao))
    ensures r.None? <==> forall a :: a in airports ==> a.iata != Upper(iataOrIcao) && a.icao != Upper(iataOrIcao)
  {
    var code := Upper(iataOrIcao);
    var k := 0;
    while k < |airports|
      invariant k <= |airports|
      invariant forall j :: 0 <= j < k ==> !HasCode(code, airports[j])
    {
      if airports[k].iata == code || airports[k].icao == code {
        FirstAt(airports, a => HasCode(code, a), k);
        return Some(airports[k]);
      }
      k := k + 1;
    }
    FirstNone(airports, a => HasCode(code, a));
    return None;
  }

  /** The code lookup ignores case: "kin" finds what "KIN" finds, and an
      airport whose stored code is upper case is found by any spelling of
      it when no earlier airport shares the code. */
  lemma AirportCodedIgnoresCase(airports: seq<Airport>, a: string, b: string, i: nat)
    requires Upper(a) == Upper(b)
    requires i < |airports| && Upper(airports[i].iata) == airports[i].iata && Upper(a) == Upper(airports[i].iata)
    requires forall k :: 0 <= k < i ==> !HasCode(Upper(a), airports[k])
    ensures AirportCoded(airports, a) == AirportCoded(airports, b)
    ensures AirportCoded(airports, a) == Some(airports[i])
  {
    FirstAt(airports, x => HasCode(Upper(a), x), i);
  }

  predicate OfType(t: AirportType, a: Airport)
  {
    a.kind == t
  }

  /** `get_international_airports()`. */
  function GetInternationalAirports(airports: seq<Airport>): (r: seq<Airport>)
    ensures forall a :: a in r <==> a in airports && a.kind == International
  {
    Filter(airports, a => OfType(International, a))
  }

  /** `get_domestic_airports()`. */
  function GetDomesticAirports(airports: seq<Airport>): (r: seq<Airport>)
    ensures forall a :: a in r <==> a in airports && a.kind == Domestic
  {
    Filter(airports, a => OfType(Domestic, a))
  }

  /** Every airport is international or domestic and not both: the two
      lists together hold each airport exactly as often as the directory. */
  lemma AirportsPartition(airports: seq<Airport>)
    ensures |GetInternationalAirports(airports)| + |GetDomesticAirports(airports)| == |airports|
    ensures multiset(GetInternationalAirports(airports)) + multiset(GetDomesticAirports(airports)) == multiset(airports)
  {
    FilterPartition(airports, a => OfType(International, a), a => OfType(Domestic, a));
  }

  /** An airport matches a lower-cased query through its lower-cased name,
      IATA code, ICAO code or parish. */
  predicate AirportMatches(q: string, a: Airport)
  {
    || Contains(Lower(a.name), q)
    || Contains(Lower(a.iata), q)
    || Contains(Lower(a.icao), q)
    || Contains(Lower(a.parish), q)
  }

  /** `search_airports(query)`. */
  function SearchAirports(airports: seq<Airport>, query: string): (r: seq<Airport>)
    ensures forall a :: a in r <==> a in airports && AirportMatches(Lower(query), a)
  {
    Filter(airports, a => AirportMatches(Lower(query), a))
  }

  /** An airport found by its code is also found by searching for that
      code. */
  lemma FoundAirportIsSearched(airports: seq<Airport>, code: string)
    requires AirportCoded(airports, code).Some?
    ensures AirportCoded(airports, code).value in SearchAirports(airports, code)
  {
    LowerOfUpper(code);
    ContainsSelf(Lower(code));
  }

  // ---------------------------------------------------------------------
  // Seaports
  // ---------------------------------------------------------------------

  predicate NameContains(n: string, s: Seaport)
  {
    Contains(Lower(s.name), n)
  }

  /** What `get_seaport(name)` returns: the first seaport whose lower-cased
      name contains the lower-cased argument. */
  function SeaportNamed(seaports: seq<Seaport>, name: string): (r: Option<Seaport>)
  {
    First(seaports, s => NameContains(Lower(name), s))
  }

  /** `get_seaport(name)`: the loop that returns on the first substring
      match. */
  method GetSeaport(seaports: seq<Seaport>, name: string) returns (r: Option<Seaport>)
    ensures r == SeaportNamed(seaports, name)
    ensures r.Some? ==> r.value in seaports && Contains(Lower(r.value.name), Lower(name))
    ensures r.None? <==> forall s :: s in seaports ==> !Contains(Lower(s.name), Lower(name))
  {
    var n := Lower(name);
    var k := 0;
    while k < |seaports|
      invariant k <= |seaports|
      invariant forall j :: 0 <= j < k ==> !NameContains(n, seaports[j])
    {
      if Contains(Lower(seaports[k].name), n) {
        FirstAt(seaports, s => NameContains(n, s), k);
        return Some(seaports[k]);
      }
      k := k + 1;
    }
    FirstNone(seaports, s => NameContains(n, s));
    return None;
  }

  /** Since the match is on a substring, the empty name matches the first
      seaport listed. */
  lemma EmptyNameFindsFirstSeaport(seaports: seq<Seaport>)
    requires seaports != []
    ensures SeaportNamed(seaports, "") == Some(seaports[0])
  {
    ContainsEmpty(Lower(seaports[0].name));
    FirstAt(seaports, s => NameContains(Lower(""), s), 0);
  }

  // ---------------------------------------------------------------------
  // Vehicle classes
  // ---------------------------------------------------------------------

  predicate CodeIs(c: string, v: VehicleClass)
  {
    v.code == c
  }

  /** What `get_vehicle_class(code)` returns: the first class whose code, as
      stored, is the upper-cased argument. */
  function VehicleClassCoded(classes: seq<VehicleClass>, code: string): (r: Option<VehicleClass>)
  {
    First(classes, v => CodeIs(Upper(code), v))
  }

  /** `get_vehicle_class(code)`: the loop that returns on the first exact
      match of the upper-cased code. */
  method GetVehicleClass(classes: seq<VehicleClass>, code: string) returns (r: Option<VehicleClass>)
    ensures r == VehicleClassCoded(classes, code)
    ensures r.Some? ==> r.value in classes && r.value.code == Upper(code)
    ensures r.None? <==> forall v :: v in classes ==> v.code != Upper(code)
  {
    var c := Upper(code);
    var k := 0;
    while k < |classes|
      invariant k <= |classes|
      invariant forall j :: 0 <= j < k ==> !CodeIs(c, classes[j])
    {
      if classes[k].code == c {
        FirstAt(classes, v => CodeIs(c, v), k);
        return Some(classes[k]);
      }
      k := k + 1;
    }
    FirstNone(classes, v => CodeIs(c, v));
    return None;
  }

  /** A class whose code is stored in upper case is found by its own code,
      in any case, whenever it is the first with that code; a code stored
      with a lower-case letter can never be found. */
  lemma VehicleClassFoundByCode(classes: seq<VehicleClass>, code: string, i: nat)
    requires i < |classes| && Upper(classes[i].code) == Upper(code)
    requires forall k :: 0 <= k < i ==> classes[k].code != classes[i].code
    ensures Upper(classes[i].code) == classes[i].code ==> VehicleClassCoded(classes, code) == Some(classes[i])
    ensures Upper(classes[i].code) != classes[i].code ==>
      VehicleClassCoded(classes, code).None? || VehicleClassCoded(classes, code).value != classes[i]
  {
    if Upper(classes[i].code) == classes[i].code {
      FirstAt(classes, v => CodeIs(Upper(code), v), i);
    } else {
      UpperIdempotent(code);
    }
  }

  // ---------------------------------------------------------------------
  // Road network
  // ---------------------------------------------------------------------

  /** The three highways of the road network record. */
  function Highways(): (hs: seq<Highway>)
    ensures |hs| == 3
    ensures forall h :: h in hs ==> h.segments != []
  {
    [
      Highway("Highway 2000", ["Kingston to May Pen (Leg 1)", "May Pen to Williamsfield (Leg 2)"], 67, Toll),
      Highway("North-South Highway", ["Caymanas to Ocho Rios"], 66, Toll),
      Highway("East-West Highway", ["Harbour View to Port Antonio (proposed)"], 85, Proposed)
    ]
  }

  /** `get_road_network()`: the network summary, whose paved and unpaved
      lengths add up to the total, and whose main and parochial roads add
      up to the paved length. */
  function GetRoadNetwork(): (n: RoadNetwork)
    ensures n.pavedKm + n.unpavedKm == n.totalKm
    ensures n.mainRoadsKm + n.parochialRoadsKm == n.pavedKm
    ensures n.highways == Highways()
  {
    RoadNetwork(22121, 15462, 6659, 4895, 10567, Highways())
  }
}
