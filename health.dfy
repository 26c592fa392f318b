/** The health facilities directory: hospitals and health centres, the four
    Regional Health Authorities (RHAs) and the parishes each serves, the
    type, parish, region and name filters, and the nearest facility to a
    point. */
module Health {
  import opened Wrappers
  import opened Strings
  import opened Geo
  import opened Lookups

  datatype FacilityType = Hospital | HealthCentre
  datatype RegionId = Nerha | Wrha | Srha | Serha

  /** A facility; only hospitals carry coordinates in the directory. */
  datatype HealthFacility = HealthFacility(
    name: string,
    kind: FacilityType,
    parish: string,
    region: RegionId,
    coordinates: Option<Coordinates>)

  /** A Regional Health Authority and the parishes it serves. */
  datatype Authority = Authority(id: RegionId, name: string, fullName: string, parishes: seq<string>)

  // ---------------------------------------------------------------------
  // Regional Health Authorities and the parish-to-region map
  // ---------------------------------------------------------------------

  /** `get_regional_authorities()`. */
  function Authorities(): (auths: seq<Authority>)
    ensures |auths| == 4
  {
    [AuthorityOf(Nerha), AuthorityOf(Wrha), AuthorityOf(Srha), AuthorityOf(Serha)]
  }

  /** The authority for a region, assembled from the table's columns. */
  function AuthorityOf(id: RegionId): (a: Authority)
    ensures a.id == id
  {
    Authority(id, AuthorityName(id), AuthorityFullName(id), ServedParishes(id))
  }

  function AuthorityName(id: RegionId): string
  {
    match id
    case Nerha => "NERHA"
    case Wrha => "WRHA"
    case Srha => "SRHA"
    case Serha => "SERHA"
  }

  function AuthorityFullName(id: RegionId): string
  {
    match id
    case Nerha => "North East Regional Health Authority"
    case Wrha => "Western Regional Health Authority"
    case Srha => "Southern Regional Health Authority"
    case Serha => "South East Regional Health Authority"
  }

  function ServedParishes(id: RegionId): seq<string>
  {
    match id
    case Nerha => ["St. Ann", "St. Mary", "Portland"]
    case Wrha => ["St. James", "Trelawny", "Hanover", "Westmoreland"]
    case Srha => ["Clarendon", "Manchester", "St. Elizabeth", "St. Catherine"]
    case Serha => ["Kingston", "St. Andrew", "St. Thomas"]
  }

  /** The assignments `_PARISH_REGION_MAP[parish.lower()] = rha.id` for one
      authority, in order. */
  function ParishEntries(a: Authority): (es: seq<(string, RegionId)>)
    ensures |es| == |a.parishes|
    ensures forall j :: 0 <= j < |a.parishes| ==> es[j] == (Lower(a.parishes[j]), a.id)
  {
    Map(a.parishes, (p: string) => (Lower(p), a.id))
  }

  /** All the assignments the nested loop makes, in order. */
  function RegionEntries(auths: seq<Authority>): seq<(string, RegionId)>
  {
    if auths == [] then [] else RegionEntries(auths[..|auths| - 1]) + ParishEntries(auths[|auths| - 1])
  }

  /** Each assignment comes from a parish of an authority, and every
      parish of every authority is assigned. */
  lemma {:induction false} RegionEntriesSpec(auths: seq<Authority>)
    ensures forall e :: e in RegionEntries(auths) ==>
      exists i, j :: 0 <= i < |auths| && 0 <= j < |auths[i].parishes| && e == (Lower(auths[i].parishes[j]), auths[i].id)
    ensures forall i, j :: 0 <= i < |auths| && 0 <= j < |auths[i].parishes| ==>
      (Lower(auths[i].parishes[j]), auths[i].id) in RegionEntries(auths)
  {
    if auths != [] {
      var n := |auths| - 1;
      var front := auths[..n];
      RegionEntriesSpec(front);
      forall e | e in RegionEntries(auths)
        ensures exists i, j :: 0 <= i < |auths| && 0 <= j < |auths[i].parishes| && e == (Lower(auths[i].parishes[j]), auths[i].id)
      {
        if e in RegionEntries(front) {
          var i, j :| 0 <= i < |front| && 0 <= j < |front[i].parishes| && e == (Lower(front[i].parishes[j]), front[i].id);
          assert front[i] == auths[i];
        } else {
          var j :| 0 <= j < |auths[n].parishes| && ParishEntries(auths[n])[j] == e;
        }
      }
      forall i, j | 0 <= i < |auths| && 0 <= j < |auths[i].parishes|
        ensures (Lower(auths[i].parishes[j]), auths[i].id) in RegionEntries(auths)
      {
        if i < n {
          assert front[i] == auths[i];
        } else {
          assert ParishEntries(auths[n])[j] == (Lower(auths[i].parishes[j]), auths[i].id);
        }
      }
    }
  }

  /** `_PARISH_REGION_MAP`. */
  function RegionMap(): map<string, RegionId>
  {
    DictOf(RegionEntries(Authorities()))
  }

  lemma RegionEntriesStep(auths: seq<Authority>, i: nat)
    requires i < |auths|
    ensures RegionEntries(auths[..i + 1]) == RegionEntries(auths[..i]) + ParishEntries(auths[i])
  {
    assert auths[..i + 1][..i] == auths[..i];
  }

  /** One assignment of the inner loop extends the map by one parish. */
  lemma ParishEntriesStep(done: seq<(string, RegionId)>, a: Authority, j: nat)
    requires j < |a.parishes|
    ensures DictOf(done + ParishEntries(a)[..j + 1]) == DictOf(done + ParishEntries(a)[..j])[Lower(a.parishes[j]) := a.id]
  {
    var es := ParishEntries(a);
    assert done + es[..j + 1] == (done + es[..j]) + [es[j]];
    DictOfAppend(done + es[..j], es[j]);
  }

  /** The import-time loop that fills `_PARISH_REGION_MAP`. */
  method BuildRegionMap(auths: seq<Authority>) returns (m: map<string, RegionId>)
    ensures m == DictOf(RegionEntries(auths))
  {
    m := map[];
    var i := 0;
    while i < |auths|
      invariant i <= |auths|
      invariant m == DictOf(RegionEntries(auths[..i]))
    {
      var a := auths[i];
      ghost var done := RegionEntries(auths[..i]);
      ghost var es := ParishEntries(a);
      var j := 0;
      assert done + es[..0] == done;
      while j < |a.parishes|
        invariant j <= |a.parishes|
        invariant m == DictOf(done + es[..j])
      {
        ParishEntriesStep(done, a, j);
        m := m[Lower(a.parishes[j]) := a.id];
        j := j + 1;
      }
      assert es[..j] == es;
      RegionEntriesStep(auths, i);
      i := i + 1;
    }
    assert auths[..i] == auths;
  }

  /** Where the RHA table lists a lower-cased parish name: the authority's
      position and the name's position in its list. The fourteen names
      differ in length, first letter or fifth letter, which is all this
      looks at. */
  ghost function ListingOf(key: string): (nat, nat)
  {
    if |key| < 5 then (0, 0)
    else match |key|
      case 7 => if key[0] == 's' then (0, 0) else (1, 2)
      case 8 => if key[0] == 's' then (0, 1) else if key[0] == 'p' then (0, 2) else if key[0] == 't' then (1, 1) else (3, 0)
      case 9 => if key[0] == 's' then (1, 0) else (2, 0)
      case 10 => if key[4] == 'h' then (2, 1) else if key[4] == 'a' then (3, 1) else (3, 2)
      case 12 => (1, 3)
      case _ => if key[4] == 'e' then (2, 2) else (2, 3)
  }

  /** Every lower-cased parish name of the RHA table is listed exactly once:
      no parish is listed twice, under one region or two. */
  lemma AuthorityListing(i: nat, j: nat)
    requires i < 4 && j < |Authorities()[i].parishes|
    ensures ListingOf(Lower(Authorities()[i].parishes[j])) == (i, j)
  {
  }

  /** Row `i` of `auths` lists a parish whose lower-cased name is `key`, at
      position `j`. */
  ghost predicate Lists(auths: seq<Authority>, i: int, j: int, key: string)
  {
    0 <= i < |auths| && 0 <= j < |auths[i].parishes| && Lower(auths[i].parishes[j]) == key
  }

  /** No lower-cased parish name is listed under two different regions. */
  ghost predicate Unambiguous(auths: seq<Authority>)
  {
    forall i, j, i2, j2, key :: Lists(auths, i, j, key) && Lists(auths, i2, j2, key) ==> auths[i].id == auths[i2].id
  }

  /** The RHA table names each parish once, so it is unambiguous. */
  lemma AuthoritiesUnambiguous()
    ensures Unambiguous(Authorities())
  {
    var auths := Authorities();
    forall i, j, i2, j2, key | Lists(auths, i, j, key) && Lists(auths, i2, j2, key)
      ensures auths[i].id == auths[i2].id
    {
      AuthorityListing(i, j);
      AuthorityListing(i2, j2);
    }
  }

  /** For any unambiguous table, the map the import-time loop builds holds
      exactly the listed names, each under the region listing it. */
  lemma {:induction false} RegionMapSpec(auths: seq<Authority>, key: string)
    requires Unambiguous(auths)
    ensures key in DictOf(RegionEntries(auths)) <==> exists i, j :: Lists(auths, i, j, key)
    ensures forall i, j :: Lists(auths, i, j, key) ==> DictOf(RegionEntries(auths))[key] == auths[i].id
  {
    RegionEntriesSpec(auths);
    var es := RegionEntries(auths);
    var m := DictOf(es);
    DictOfSpec(es);
    if key in m {
      var k :| 0 <= k < |es| && es[k].0 == key && m[key] == es[k].1;
      assert es[k] in es;
      var i0, j0 :| 0 <= i0 < |auths| && 0 <= j0 < |auths[i0].parishes| && es[k] == (Lower(auths[i0].parishes[j0]), auths[i0].id);
      assert Lists(auths, i0, j0, key);
      forall i, j | Lists(auths, i, j, key)
        ensures m[key] == auths[i].id
      {
      }
    } else {
      forall i, j | 0 <= i < |auths| && 0 <= j < |auths[i].parishes|
        ensures Lower(auths[i].parishes[j]) != key
      {
        var e := (Lower(auths[i].parishes[j]), auths[i].id);
        assert e in es;
        var k :| 0 <= k < |es| && es[k] == e;
      }
    }
  }

  /** `_region_for_parish(parish)`: the region of the lower-cased name, or
      ValueError for a name no authority lists. */
  function RegionForParish(parish: string): (r: Result<RegionId>)
    ensures r.Err? ==> r.error == ValueError
  {
    var key := Lower(parish);
    if key in RegionMap() then Ok(RegionMap()[key]) else Err(ValueError)
  }

  /** The region map agrees with the table: a name resolves exactly when an
      authority lists it (whatever its case), and to that authority's
      region. */
  lemma RegionForParishSpec(parish: string)
    ensures RegionForParish(parish).Ok? <==> exists i, j :: Lists(Authorities(), i, j, Lower(parish))
    ensures forall i, j :: Lists(Authorities(), i, j, Lower(parish)) ==> RegionForParish(parish) == Ok(Authorities()[i].id)
  {
    AuthoritiesUnambiguous();
    RegionMapSpec(Authorities(), Lower(parish));
  }

  predicate HasId(id: RegionId, a: Authority)
  {
    a.id == id
  }

  /** Each region has its row in the RHA table, and `next(...)` over the
      table finds it. */
  lemma FindAuthority(id: RegionId)
    ensures First(Authorities(), a => HasId(id, a)) == Some(AuthorityOf(id))
  {
    var auths := Authorities();
    var i := match id case Nerha => 0 case Wrha => 1 case Srha => 2 case Serha => 3;
    FirstAt(auths, a => HasId(id, a), i);
  }

  /** Each row of the RHA table is the authority of its own region. */
  lemma AuthorityRow(i: nat)
    requires i < 4
    ensures Authorities()[i] == AuthorityOf(Authorities()[i].id)
  {
  }

  /** `get_regional_authority(parish)`: the authority of the parish's
      region; ValueError for an unknown parish. */
  function GetRegionalAuthority(parish: string): (r: Result<Authority>)
    ensures r.Err? ==> r.error == ValueError
    ensures r.Ok? ==> r.value in Authorities() && RegionForParish(parish) == Ok(r.value.id)
  {
    match RegionForParish(parish)
    case Err(e) => Err(e)
    case Ok(id) =>
      match First(Authorities(), a => HasId(id, a))
      case None => Err(ValueError)
      case Some(a) => Ok(a)
  }

  /** An authority is found exactly for a parish the table lists (compared
      case-insensitively), and the authority found lists that parish. */
  lemma GetRegionalAuthoritySpec(parish: string)
    ensures GetRegionalAuthority(parish).Ok? <==> exists i, j :: Lists(Authorities(), i, j, Lower(parish))
    ensures GetRegionalAuthority(parish).Ok? ==>
      exists j :: 0 <= j < |GetRegionalAuthority(parish).value.parishes|
        && Lower(GetRegionalAuthority(parish).value.parishes[j]) == Lower(parish)
  {
    RegionForParishSpec(parish);
    if RegionForParish(parish).Ok? {
      var auths := Authorities();
      var id := RegionForParish(parish).value;
      FindAuthority(id);
      var i, j :| Lists(auths, i, j, Lower(parish));
      AuthorityRow(i);
    }
  }

  // ---------------------------------------------------------------------
  // Facilities
  // ---------------------------------------------------------------------

  const FacilityCount := 55

  /** The directory lists its 22 hospitals first, then its 33 health
      centres. */
  const HospitalCount := 22

  /** The `i`-th row of the facility directory, assembled from its
      columns. */
  function FacilityAt(i: nat): HealthFacility
    requires i < FacilityCount
  {
    if i < HospitalCount then
      HealthFacility(FacilityName(i), Hospital, FacilityParish(i), FacilityRegion(i), Some(HospitalCoordinates(i)))
    else
      HealthFacility(FacilityName(i), HealthCentre, FacilityParish(i), FacilityRegion(i), None)
  }

  function FacilityName(i: nat): string
    requires i < FacilityCount
  {
    match i
    case 0 => "Kingston Public Hospital"
    case 1 => "University Hospital of the West Indies"
    case 2 => "Victoria Jubilee Hospital"
    case 3 => "Bustamante Hospital for Children"
    case 4 => "National Chest Hospital"
    case 5 => "Bellevue Hospital"
    case 6 => "Spanish Town Hospital"
    case 7 => "Linstead Public Hospital"
    case 8 => "May Pen Hospital"
    case 9 => "Lionel Town Hospital"
    case 10 => "Mandeville Regional Hospital"
    case 11 => "Percy Junor Hospital"
    case 12 => "Black River Hospital"
    case 13 => "Cornwall Regional Hospital"
    case 14 => "Falmouth Hospital"
    case 15 => "Noel Holmes Hospital"
    case 16 => "Savanna-la-Mar Hospital"
    case 17 => "St. Ann's Bay Regional Hospital"
    case 18 => "Port Maria Hospital"
    case 19 => "Annotto Bay Hospital"
    case 20 => "Port Antonio Hospital"
    case 21 => "Princess Margaret Hospital"
    case 22 => "Comprehensive Health Centre"
    case 23 => "Windward Road Health Centre"
    case 24 => "Hope Clinic"
    case 25 => "Half Way Tree Health Centre"
    case 26 => "Hagley Park Health Centre"
    case 27 => "Portmore Health Centre"
    case 28 => "Old Harbour Health Centre"
    case 29 => "Bog Walk Health Centre"
    case 30 => "May Pen Health Centre"
    case 31 => "Chapelton Health Centre"
    case 32 => "Mandeville Health Centre"
    case 33 => "Christiana Health Centre"
    case 34 => "Black River Health Centre"
    case 35 => "Junction Health Centre"
    case 36 => "Santa Cruz Health Centre"
    case 37 => "Savanna-la-Mar Health Centre"
    case 38 => "Darliston Health Centre"
    case 39 => "Lucea Health Centre"
    case 40 => "Sandy Bay Health Centre"
    case 41 => "Montego Bay Health Centre"
    case 42 => "Granville Health Centre"
    case 43 => "Irwin Health Centre"
    case 44 => "Falmouth Health Centre"
    case 45 => "Clark's Town Health Centre"
    case 46 => "St. Ann's Bay Health Centre"
    case 47 => "Ocho Rios Health Centre"
    case 48 => "Brown's Town Health Centre"
    case 49 => "Port Maria Health Centre"
    case 50 => "Highgate Health Centre"
    case 51 => "Port Antonio Health Centre"
    case 52 => "Buff Bay Health Centre"
    case 53 => "Morant Bay Health Centre"
    case _ => "Yallahs Health Centre"
  }

  function FacilityParish(i: nat): string
    requires i < FacilityCount
  {
    match i
    case 0 => "Kingston"
    case 1 => "St. Andrew"
    case 2 => "Kingston"
    case 3 => "Kingston"
    case 4 => "St. Andrew"
    case 5 => "Kingston"
    case 6 => "St. Catherine"
    case 7 => "St. Catherine"
    case 8 => "Clarendon"
    case 9 => "Clarendon"
    case 10 => "Manchester"
    case 11 => "Manchester"
    case 12 => "St. Elizabeth"
    case 13 => "St. James"
    case 14 => "Trelawny"
    case 15 => "Hanover"
    case 16 => "Westmoreland"
    case 17 => "St. Ann"
    case 18 => "St. Mary"
    case 19 => "St. Mary"
    case 20 => "Portland"
    case 21 => "St. Thomas"
    case 22 => "Kingston"
    case 23 => "Kingston"
    case 24 => "St. Andrew"
    case 25 => "St. Andrew"
    case 26 => "St. Andrew"
    case 27 => "St. Catherine"
    case 28 => "St. Catherine"
    case 29 => "St. Catherine"
    case 30 => "Clarendon"
    case 31 => "Clarendon"
    case 32 => "Manchester"
    case 33 => "Manchester"
    case 34 => "St. Elizabeth"
    case 35 => "St. Elizabeth"
    case 36 => "St. Elizabeth"
    case 37 => "Westmoreland"
    case 38 => "Westmoreland"
    case 39 => "Hanover"
    case 40 => "Hanover"
    case 41 => "St. James"
    case 42 => "St. James"
    case 43 => "St. James"
    case 44 => "Trelawny"
    case 45 => "Trelawny"
    case 46 => "St. Ann"
    case 47 => "St. Ann"
    case 48 => "St. Ann"
    case 49 => "St. Mary"
    case 50 => "St. Mary"
    case 51 => "Portland"
    case 52 => "Portland"
    case 53 => "St. Thomas"
    case _ => "St. Thomas"
  }

  function FacilityRegion(i: nat): RegionId
    requires i < FacilityCount
  {
    match i
    case 0 => Serha
    case 1 => Serha
    case 2 => Serha
    case 3 => Serha
    case 4 => Serha
    case 5 => Serha
    case 6 => Srha
    case 7 => Srha
    case 8 => Srha
    case 9 => Srha
    case 10 => Srha
    case 11 => Srha
    case 12 => Srha
    case 13 => Wrha
    case 14 => Wrha
    case 15 => Wrha
    case 16 => Wrha
    case 17 => Nerha
    case 18 => Nerha
    case 19 => Nerha
    case 20 => Nerha
    case 21 => Serha
    case 22 => Serha
    case 23 => Serha
    case 24 => Serha
    case 25 => Serha
    case 26 => Serha
    case 27 => Srha
    case 28 => Srha
    case 29 => Srha
    case 30 => Srha
    case 31 => Srha
    case 32 => Srha
    case 33 => Srha
    case 34 => Srha
    case 35 => Srha
    case 36 => Srha
    case 37 => Wrha
    case 38 => Wrha
    case 39 => Wrha
    case 40 => Wrha
    case 41 => Wrha
    case 42 => Wrha
    case 43 => Wrha
    case 44 => Wrha
    case 45 => Wrha
    case 46 => Nerha
    case 47 => Nerha
    case 48 => Nerha
    case 49 => Nerha
    case 50 => Nerha
    case 51 => Nerha
    case 52 => Nerha
    case 53 => Serha
    case _ => Serha
  }

  function HospitalCoordinates(i: nat): Coordinates
    requires i < HospitalCount
  {
    match i
    case 0 => Coordinates(18.0159, -76.7960)
    case 1 => Coordinates(18.0060, -76.7484)
    case 2 => Coordinates(18.0175, -76.7957)
    case 3 => Coordinates(18.0161, -76.7948)
    case 4 => Coordinates(18.0127, -76.7800)
    case 5 => Coordinates(18.0082, -76.7718)
    case 6 => Coordinates(18.0068, -76.9561)
    case 7 => Coordinates(18.1335, -77.0318)
    case 8 => Coordinates(17.9600, -77.2450)
    case 9 => Coordinates(17.8588, -77.1762)
    case 10 => Coordinates(18.0440, -77.5090)
    case 11 => Coordinates(18.0860, -77.5240)
    case 12 => Coordinates(18.0223, -77.8494)
    case 13 => Coordinates(18.4640, -77.9200)
    case 14 => Coordinates(18.4910, -77.6560)
    case 15 => Coordinates(18.4515, -78.1662)
    case 16 => Coordinates(18.2170, -78.1300)
    case 17 => Coordinates(18.4360, -77.2010)
    case 18 => Coordinates(18.3740, -76.8890)
    case 19 => Coordinates(18.2750, -76.7690)
    case 20 => Coordinates(18.1790, -76.4520)
    case _ => Coordinates(17.8860, -76.4160)
  }

  /** `get_health_facilities()`. */
  function AllFacilities(): (fs: seq<HealthFacility>)
    ensures |fs| == FacilityCount
    ensures forall i :: 0 <= i < FacilityCount ==> fs[i] == FacilityAt(i)
  {
    seq(FacilityCount, i requires 0 <= i < FacilityCount => FacilityAt(i))
  }

  /** Where the RHA table lists a parish name as the facility table spells
      it, told apart by length, first letter and fifth letter. */
  ghost function ListingOfName(parish: string): (nat, nat)
  {
    if |parish| < 5 then (0, 0)
    else match |parish|
      case 7 => if parish[0] == 'S' then (0, 0) else (1, 2)
      case 8 => if parish[0] == 'S' then (0, 1) else if parish[0] == 'P' then (0, 2) else if parish[0] == 'T' then (1, 1) else (3, 0)
      case 9 => if parish[0] == 'S' then (1, 0) else (2, 0)
      case 10 => if parish[4] == 'h' then (2, 1) else if parish[4] == 'A' then (3, 1) else (3, 2)
      case 12 => (1, 3)
      case _ => if parish[4] == 'E' then (2, 2) else (2, 3)
  }

  /** Each facility's parish is listed, under the facility's own region,
      in the RHA table. */
  lemma FacilityListed(i: nat)
    requires i < FacilityCount
    ensures var (a, j) := ListingOfName(FacilityParish(i));
      a < 4 && j < |Authorities()[a].parishes|
      && Authorities()[a].parishes[j] == FacilityParish(i) && Authorities()[a].id == FacilityRegion(i)
  {
  }

  /** Every facility's region is the region the RHA table gives its
      parish. */
  lemma FacilityRegionMatches(i: nat)
    requires i < FacilityCount
    ensures RegionForParish(FacilityAt(i).parish) == Ok(FacilityAt(i).region)
  {
    var f := FacilityAt(i);
    FacilityListed(i);
    var (a, j) := ListingOfName(f.parish);
    RegionForParishSpec(f.parish);
    assert Lists(Authorities(), a, j, Lower(f.parish));
  }

  // ---------------------------------------------------------------------
  // Filters and search
  // ---------------------------------------------------------------------

  predicate IsHospital(f: HealthFacility)
  {
    f.kind == Hospital
  }

  predicate IsHealthCentre(f: HealthFacility)
  {
    f.kind == HealthCentre
  }

  /** `get_hospitals()`. */
  function GetHospitals(): seq<HealthFacility>
  {
    Filter(AllFacilities(), IsHospital)
  }

  /** `get_health_centres()`. */
  function GetHealthCentres(): seq<HealthFacility>
  {
    Filter(AllFacilities(), IsHealthCentre)
  }

  /** The rows the directory builds: hospitals, with coordinates, up to
      row 22, and health centres, without, after it. */
  lemma FacilityShape()
    ensures forall i :: 0 <= i < FacilityCount ==> (IsHospital(AllFacilities()[i]) <==> i < HospitalCount)
    ensures forall i :: 0 <= i < FacilityCount ==> (HasCoordinates(AllFacilities()[i]) <==> i < HospitalCount)
  {
  }

  /** A list of `n` hospitals followed by health centres filters into its
      two parts. */
  lemma {:induction false} KindSplit(fs: seq<HealthFacility>, n: nat)
    requires n <= |fs|
    requires forall i :: 0 <= i < |fs| ==> (IsHospital(fs[i]) <==> i < n)
    ensures Filter(fs, IsHospital) == fs[..n]
    ensures Filter(fs, IsHealthCentre) == fs[n..]
  {
    var front, back := fs[..n], fs[n..];
    assert fs == front + back;
    FilterConcat(front, back, IsHospital);
    FilterConcat(front, back, IsHealthCentre);
    FilterAll(front, IsHospital);
    FilterAll(back, IsHealthCentre);
    FilterNone(front, IsHealthCentre);
    FilterNone(back, IsHospital);
  }

  /** The directory lists its hospitals first: the hospitals are its first
      22 rows and the health centres the other 33. */
  lemma HospitalsThenCentres()
    ensures GetHospitals() == AllFacilities()[..HospitalCount]
    ensures GetHealthCentres() == AllFacilities()[HospitalCount..]
    ensures |GetHospitals()| == 22 && |GetHealthCentres()| == 33
  {
    FacilityShape();
    KindSplit(AllFacilities(), HospitalCount);
  }

  /** Every facility is a hospital or a health centre, and not both: the
      two lists together are the directory. */
  lemma HospitalsAndCentresPartition()
    ensures |GetHospitals()| + |GetHealthCentres()| == |AllFacilities()|
    ensures multiset(GetHospitals()) + multiset(GetHealthCentres()) == multiset(AllFacilities())
  {
    FilterPartition(AllFacilities(), IsHospital, IsHealthCentre);
  }

  predicate InParish(key: string, f: HealthFacility)
  {
    Lower(f.parish) == key
  }

  /** `get_health_facilities_by_parish(parish)`: compared lower-cased. */
  function GetFacilitiesByParish(parish: string): seq<HealthFacility>
  {
    Filter(AllFacilities(), f => InParish(Lower(parish), f))
  }

  /** `get_hospitals_by_parish(parish)`. */
  function GetHospitalsByParish(parish: string): seq<HealthFacility>
  {
    Filter(AllFacilities(), f => IsHospital(f) && InParish(Lower(parish), f))
  }

  /** `get_health_centres_by_parish(parish)`. */
  function GetHealthCentresByParish(parish: string): seq<HealthFacility>
  {
    Filter(AllFacilities(), f => IsHealthCentre(f) && InParish(Lower(parish), f))
  }

  /** In any list, the hospitals of a parish are its facilities that are
      hospitals, in the same order, and likewise its health centres;
      together they are all of the parish's facilities. */
  lemma ByKindWithinParish(fs: seq<HealthFacility>, key: string)
    ensures Filter(fs, f => IsHospital(f) && InParish(key, f)) == Filter(Filter(fs, f => InParish(key, f)), IsHospital)
    ensures Filter(fs, f => IsHealthCentre(f) && InParish(key, f)) == Filter(Filter(fs, f => InParish(key, f)), IsHealthCentre)
    ensures multiset(Filter(fs, f => IsHospital(f) && InParish(key, f)))
      + multiset(Filter(fs, f => IsHealthCentre(f) && InParish(key, f)))
      == multiset(Filter(fs, f => InParish(key, f)))
  {
    var inParish := f => InParish(key, f);
    FilterFilter(fs, inParish, IsHospital, f => IsHospital(f) && InParish(key, f));
    FilterFilter(fs, inParish, IsHealthCentre, f => IsHealthCentre(f) && InParish(key, f));
    FilterPartition(Filter(fs, inParish), IsHospital, IsHealthCentre);
  }

  /** The hospitals of a parish are its facilities that are hospitals, in
      the same order, and likewise its health centres; together they are
      all of the parish's facilities. */
  lemma ByParishByType(parish: string)
    ensures GetHospitalsByParish(parish) == Filter(GetFacilitiesByParish(parish), IsHospital)
    ensures GetHealthCentresByParish(parish) == Filter(GetFacilitiesByParish(parish), IsHealthCentre)
    ensures multiset(GetHospitalsByParish(parish)) + multiset(GetHealthCentresByParish(parish))
      == multiset(GetFacilitiesByParish(parish))
  {
    ByKindWithinParish(AllFacilities(), Lower(parish));
  }

  /** The parish filter ignores the case of its argument. */
  lemma ByParishIgnoresCase(a: string, b: string)
    requires Lower(a) == Lower(b)
    ensures GetFacilitiesByParish(a) == GetFacilitiesByParish(b)
  {
  }

  predicate InRegion(region: RegionId, f: HealthFacility)
  {
    f.region == region
  }

  /** `get_health_facilities_by_region(region)`. */
  function GetFacilitiesByRegion(region: RegionId): seq<HealthFacility>
  {
    Filter(AllFacilities(), f => InRegion(region, f))
  }

  /** Every facility in the directory is managed by the authority the RHA
      table gives its parish. */
  lemma FacilityRegions()
    ensures forall f :: f in AllFacilities() ==> RegionForParish(f.parish) == Ok(f.region)
  {
    forall f | f in AllFacilities()
      ensures RegionForParish(f.parish) == Ok(f.region)
    {
      var i :| 0 <= i < FacilityCount && AllFacilities()[i] == f;
      FacilityRegionMatches(i);
    }
  }

  /** In a list whose facilities all sit in their parish's region, a
      facility found by parish is found again under that parish's
      region. */
  lemma ByParishWithinRegionOf(fs: seq<HealthFacility>, parish: string, f: HealthFacility)
    requires forall g :: g in fs ==> RegionForParish(g.parish) == Ok(g.region)
    requires f in Filter(fs, g => InParish(Lower(parish), g))
    ensures RegionForParish(parish) == Ok(f.region)
    ensures f in Filter(fs, g => InRegion(f.region, g))
  {
    assert RegionForParish(parish) == RegionForParish(f.parish);
  }

  /** Every facility of a parish is managed by the authority whose region
      the RHA table gives that parish. */
  lemma ByParishWithinRegion(parish: string, f: HealthFacility)
    requires f in GetFacilitiesByParish(parish)
    ensures RegionForParish(parish).Ok?
    ensures f in GetFacilitiesByRegion(RegionForParish(parish).value)
  {
    FacilityRegions();
    ByParishWithinRegionOf(AllFacilities(), parish, f);
  }

  predicate NameContains(q: string, f: HealthFacility)
  {
    Contains(Lower(f.name), q)
  }

  /** `search_health_facilities(query)`: the facilities whose lower-cased
      name contains the lower-cased query. */
  function SearchFacilities(query: string): seq<HealthFacility>
  {
    Filter(AllFacilities(), f => NameContains(Lower(query), f))
  }

  /** Searching for the empty string returns the whole directory. */
  lemma EmptySearchReturnsAll()
    ensures SearchFacilities("") == AllFacilities()
  {
    forall f | f in AllFacilities()
      ensures NameContains(Lower(""), f)
    {
      ContainsEmpty(Lower(f.name));
    }
    FilterAll(AllFacilities(), f => NameContains(Lower(""), f));
  }

  /** Every facility is found by searching for its own name, in any case. */
  lemma SearchFindsByName(i: nat, query: string)
    requires i < FacilityCount && Lower(query) == Lower(FacilityAt(i).name)
    ensures FacilityAt(i) in SearchFacilities(query)
  {
    ContainsSelf(Lower(FacilityAt(i).name));
    assert AllFacilities()[i] == FacilityAt(i);
  }

  // ---------------------------------------------------------------------
  // Nearest facility
  // ---------------------------------------------------------------------

  predicate HasCoordinates(f: HealthFacility)
  {
    f.coordinates.Some?
  }

  predicate OfKind(kind: Option<FacilityType>, f: HealthFacility)
  {
    kind.None? || f.kind == kind.value
  }

  /** The facilities of `fs` that `get_nearest_facility(lat, lng, type)`
      considers: those with coordinates, then those of the type when one is
      given. */
  function CandidatesIn(fs: seq<HealthFacility>, kind: Option<FacilityType>): (cs: seq<HealthFacility>)
    ensures forall i :: 0 <= i < |cs| ==> HasCoordinates(cs[i]) && OfKind(kind, cs[i]) && cs[i] in fs
    ensures forall f :: f in fs && HasCoordinates(f) && OfKind(kind, f) ==> f in cs
  {
    var located := Filter(fs, HasCoordinates);
    if kind.None? then located else Filter(located, f => OfKind(kind, f))
  }

  /** Distance from the point to a facility; every candidate has
      coordinates, so the `0.0` is never used. */
  function FacilityDistance(point: Coordinates, f: HealthFacility, distance: (Coordinates, Coordinates) -> real): real
  {
    if f.coordinates.Some? then distance(point, f.coordinates.value) else 0.0
  }

  function CandidateDistances(point: Coordinates, cs: seq<HealthFacility>, distance: (Coordinates, Coordinates) -> real): (ds: seq<real>)
    ensures |ds| == |cs|
    ensures forall i :: 0 <= i < |cs| ==> ds[i] == FacilityDistance(point, cs[i], distance)
  {
    Map(cs, f => FacilityDistance(point, f, distance))
  }

  /** The nearest facility of `fs`: None when nothing qualifies, otherwise
      the first candidate at least distance from the point. */
  function NearestIn(fs: seq<HealthFacility>, point: Coordinates, kind: Option<FacilityType>, distance: (Coordinates, Coordinates) -> real): Option<HealthFacility>
  {
    var cs := CandidatesIn(fs, kind);
    if cs == [] then None else Some(cs[FirstMinIndex(CandidateDistances(point, cs, distance))])
  }

  /** What `get_nearest_facility(lat, lng, type)` returns. */
  function NearestFacility(point: Coordinates, kind: Option<FacilityType>, distance: (Coordinates, Coordinates) -> real): Option<HealthFacility>
  {
    NearestIn(AllFacilities(), point, kind, distance)
  }

  /** None exactly when no facility of the type has coordinates; otherwise
      a facility of the list with coordinates and of the type, no farther
      than any other such facility and strictly nearer than those listed
      before it. */
  lemma NearestInSpec(fs: seq<HealthFacility>, point: Coordinates, kind: Option<FacilityType>, distance: (Coordinates, Coordinates) -> real)
    ensures NearestIn(fs, point, kind, distance).None? <==>
      forall f :: f in fs ==> !(HasCoordinates(f) && OfKind(kind, f))
    ensures var r := NearestIn(fs, point, kind, distance);
      var cs := CandidatesIn(fs, kind);
      r.Some? ==> (r.value in fs && HasCoordinates(r.value) && OfKind(kind, r.value)
        && exists i: nat :: IsFirstMin(CandidateDistances(point, cs, distance), i) && r.value == cs[i])
  {
    var cs := CandidatesIn(fs, kind);
    if cs != [] {
      assert cs[0] in cs;
      var i := FirstMinIndex(CandidateDistances(point, cs, distance));
      assert IsFirstMin(CandidateDistances(point, cs, distance), i);
    }
  }

  /** The same for the directory itself. */
  lemma NearestFacilitySpec(point: Coordinates, kind: Option<FacilityType>, distance: (Coordinates, Coordinates) -> real)
    ensures NearestFacility(point, kind, distance).None? <==>
      forall f :: f in AllFacilities() ==> !(HasCoordinates(f) && OfKind(kind, f))
    ensures var r := NearestFacility(point, kind, distance);
      var cs := CandidatesIn(AllFacilities(), kind);
      r.Some? ==> (r.value in AllFacilities() && HasCoordinates(r.value) && OfKind(kind, r.value)
        && exists i: nat :: IsFirstMin(CandidateDistances(point, cs, distance), i) && r.value == cs[i])
  {
    NearestInSpec(AllFacilities(), point, kind, distance);
  }

  /** Only hospitals carry coordinates, so asking for the nearest health
      centre always gives None, while a nearest hospital always exists. */
  lemma NearestCentreNever(point: Coordinates, distance: (Coordinates, Coordinates) -> real)
    ensures NearestFacility(point, Some(HealthCentre), distance).None?
    ensures NearestFacility(point, Some(Hospital), distance).Some?
    ensures NearestFacility(point, None, distance).Some?
  {
    var fs := AllFacilities();
    FacilityShape();
    assert IsHospital(fs[0]) && HasCoordinates(fs[0]);
    NearestInSpec(fs, point, Some(HealthCentre), distance);
    NearestInSpec(fs, point, Some(Hospital), distance);
    NearestInSpec(fs, point, None, distance);
  }

  /** `get_nearest_facility(lat, lng, type)`: gather the candidates, then
      scan them. */
  method GetNearestFacility(point: Coordinates, kind: Option<FacilityType>, distance: (Coordinates, Coordinates) -> real)
    returns (r: Option<HealthFacility>)
    ensures r == NearestFacility(point, kind, distance)
  {
    r := NearestScan(AllFacilities(), point, kind, distance);
  }

  /** The body of `get_nearest_facility` over a list of facilities. */
  method NearestScan(fs: seq<HealthFacility>, point: Coordinates, kind: Option<FacilityType>, distance: (Coordinates, Coordinates) -> real)
    returns (r: Option<HealthFacility>)
    ensures r == NearestIn(fs, point, kind, distance)
  {
    var candidates := CandidatesIn(fs, kind);
    if candidates == [] {
      return None;
    }
    var nearest := ScanFacilities(point, candidates, distance);
    r := Some(candidates[nearest]);
  }

  /** The loop of `get_nearest_facility`: the first candidate is the best
      so far, and a later one replaces it only when strictly nearer. */
  method ScanFacilities(point: Coordinates, candidates: seq<HealthFacility>, distance: (Coordinates, Coordinates) -> real)
    returns (nearest: nat)
    requires |candidates| > 0
    requires forall i :: 0 <= i < |candidates| ==> HasCoordinates(candidates[i])
    ensures nearest == FirstMinIndex(CandidateDistances(point, candidates, distance))
  {
    ghost var ds := CandidateDistances(point, candidates, distance);
    nearest := 0;
    var minDist := distance(point, candidates[0].coordinates.value);
    var k := 1;
    while k < |candidates|
      invariant 1 <= k <= |candidates|
      invariant IsFirstMin(ds[..k], nearest) && minDist == ds[nearest]
    {
      var d := distance(point, candidates[k].coordinates.value);
      if d < minDist {
        minDist := d;
        nearest := k;
      }
      k := k + 1;
    }
    assert ds[..k] == ds;
    FirstMinUnique(ds, nearest, FirstMinIndex(ds));
  }

  /** `get_health_facility_count()`: the number of hospitals plus the
      number of health centres. */
  function GetHealthFacilityCount(): (n: nat)
    ensures n == |GetHospitals()| + |GetHealthCentres()|
    ensures n == 55
  {
    HospitalsAndCentresPartition();
    HospitalsThenCentres();
    |AllFacilities()|
  }
}
