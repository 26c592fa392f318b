// Forward geocoder of the addressing API: a five-tier cascade over a
// built-in index of well-known Jamaican locations.

module Geocoder {
  import opened Wrappers
  import opened Strings
  import opened Addresses

  /** One row of the location table: name, coordinates, parish and type
      ("capital", "town", "landmark" or "sector"). */
  datatype Location = Location(name: string, lat: real, lng: real, parish: string, kind: string)

  /** One entry of the lower-cased location index, in insertion order. */
  datatype Entry = Entry(key: string, loc: Location)

  /** A geocoding answer. */
  datatype GeoMatch = GeoMatch(
    lat: real,
    lng: real,
    confidence: real,
    parish: string,
    matchName: string,
    matchType: string)

  /** The parish capitals. */
  const ParishCapitals: seq<Location> := [
    Location("Kingston", 17.9714, -76.7920, "Kingston", "capital"),
    Location("Half Way Tree", 18.0106, -76.7860, "St. Andrew", "capital"),
    Location("Spanish Town", 18.0093, -76.9553, "St. Catherine", "capital"),
    Location("May Pen", 17.9658, -77.2425, "Clarendon", "capital"),
    Location("Mandeville", 18.0432, -77.5033, "Manchester", "capital"),
    Location("Black River", 18.0269, -77.8483, "St. Elizabeth", "capital"),
    Location("Savanna-la-Mar", 18.2169, -78.1342, "Westmoreland", "capital"),
    Location("Lucea", 18.4511, -78.1733, "Hanover", "capital"),
    Location("Montego Bay", 18.4762, -77.9236, "St. James", "capital"),
    Location("Falmouth", 18.4939, -77.6556, "Trelawny", "capital"),
    Location("St. Ann's Bay", 18.4342, -77.2003, "St. Ann", "capital"),
    Location("Port Maria", 18.3697, -76.9167, "St. Mary", "capital"),
    Location("Port Antonio", 18.1789, -76.4506, "Portland", "capital"),
    Location("Morant Bay", 17.8817, -76.4083, "St. Thomas", "capital")
  ]

  /** Major towns and well-known places. */
  const MajorTowns: seq<Location> := [
    Location("Ocho Rios", 18.4085, -77.1050, "St. Ann", "town"),
    Location("Negril", 18.2681, -78.3478, "Westmoreland", "town"),
    Location("Portmore", 17.9539, -76.8875, "St. Catherine", "town"),
    Location("Linstead", 18.1333, -77.0333, "St. Catherine", "town"),
    Location("Old Harbour", 17.9417, -77.1069, "St. Catherine", "town"),
    Location("Christiana", 18.1833, -77.4833, "Manchester", "town"),
    Location("Bull Savanna", 17.8833, -77.5833, "St. Elizabeth", "town"),
    Location("Bog Walk", 18.1000, -76.9833, "St. Catherine", "town"),
    Location("Ewarton", 18.1833, -77.0833, "St. Catherine", "town"),
    Location("Lionel Town", 17.8375, -77.1486, "Clarendon", "town"),
    Location("Chapelton", 18.0833, -77.2833, "Clarendon", "town"),
    Location("Annotto Bay", 18.2672, -76.7681, "St. Mary", "town"),
    Location("Buff Bay", 18.2333, -76.6500, "Portland", "town"),
    Location("Yallahs", 17.8833, -76.5500, "St. Thomas", "town"),
    Location("Rose Hall", 18.5053, -77.8531, "St. James", "town"),
    Location("Whitehouse", 18.0442, -77.8764, "Westmoreland", "town"),
    Location("Discovery Bay", 18.4703, -77.4097, "St. Ann", "town"),
    Location("Runaway Bay", 18.4589, -77.3308, "St. Ann", "town"),
    Location("Brown's Town", 18.3917, -77.2833, "St. Ann", "town"),
    Location("Stony Hill", 18.0536, -76.7689, "St. Andrew", "town"),
    Location("Papine", 18.0186, -76.7456, "St. Andrew", "town"),
    Location("Cross Roads", 18.0053, -76.7856, "St. Andrew", "town"),
    Location("Liguanea", 18.0172, -76.7669, "St. Andrew", "town"),
    Location("Constant Spring", 18.0306, -76.7900, "St. Andrew", "town"),
    Location("Hope Pastures", 18.0225, -76.7561, "St. Andrew", "town"),
    Location("Mona", 18.0156, -76.7472, "St. Andrew", "town"),
    Location("Red Hills", 18.0533, -76.8278, "St. Andrew", "town"),
    Location("Barbican", 18.0250, -76.7667, "St. Andrew", "town")
  ]

  /** Landmarks, in Kingston and around the island. */
  const Landmarks: seq<Location> := [
    Location("Devon House", 18.0114, -76.7772, "St. Andrew", "landmark"),
    Location("Bob Marley Museum", 18.0131, -76.7744, "St. Andrew", "landmark"),
    Location("Emancipation Park", 18.0075, -76.7842, "St. Andrew", "landmark"),
    Location("National Heroes Park", 17.9933, -76.7961, "Kingston", "landmark"),
    Location("Victoria Crafts Market", 17.9703, -76.7939, "Kingston", "landmark"),
    Location("Ward Theatre", 17.9739, -76.7953, "Kingston", "landmark"),
    Location("Institute of Jamaica", 17.9719, -76.7931, "Kingston", "landmark"),
    Location("Gordon House", 17.9703, -76.7944, "Kingston", "landmark"),
    Location("Coronation Market", 17.9764, -76.8000, "Kingston", "landmark"),
    Location("University of the West Indies", 18.0050, -76.7494, "St. Andrew", "landmark"),
    Location("UWI Mona", 18.0050, -76.7494, "St. Andrew", "landmark"),
    Location("Norman Manley International Airport", 17.9356, -76.7875, "Kingston", "landmark"),
    Location("Sangster International Airport", 18.5037, -77.9133, "St. James", "landmark"),
    Location("Dunn's River Falls", 18.4108, -77.1347, "St. Ann", "landmark"),
    Location("Blue Mountains", 18.1683, -76.5856, "Portland", "landmark"),
    Location("Port Royal", 17.9369, -76.8411, "Kingston", "landmark"),
    Location("Fort Charles", 17.9361, -76.8408, "Kingston", "landmark"),
    Location("Hope Botanical Gardens", 18.0131, -76.7500, "St. Andrew", "landmark"),
    Location("Hellshire Beach", 17.8872, -76.8892, "St. Catherine", "landmark"),
    Location("Lime Cay", 17.8975, -76.8367, "Kingston", "landmark"),
    Location("YS Falls", 18.1722, -77.7500, "St. Elizabeth", "landmark"),
    Location("Bamboo Avenue", 18.0833, -77.6167, "St. Elizabeth", "landmark"),
    Location("Treasure Beach", 17.8639, -77.7628, "St. Elizabeth", "landmark"),
    Location("Frenchman's Cove", 18.1911, -76.4094, "Portland", "landmark"),
    Location("Boston Bay", 18.1889, -76.3794, "Portland", "landmark"),
    Location("Reach Falls", 18.1300, -76.3353, "Portland", "landmark"),
    Location("Blue Lagoon", 18.1914, -76.4236, "Portland", "landmark"),
    Location("Firefly", 18.3833, -76.9000, "St. Mary", "landmark"),
    Location("Rio Grande", 18.1808, -76.4461, "Portland", "landmark"),
    Location("Martha Brae River", 18.4978, -77.6589, "Trelawny", "landmark"),
    Location("Green Grotto Caves", 18.4389, -77.3419, "St. Ann", "landmark"),
    Location("Mystic Mountain", 18.4117, -77.1064, "St. Ann", "landmark")
  ]

  /** Reference points of the Kingston postal sectors; there is no Kingston 18. */
  const KingstonSectors: seq<Location> := [
    Location("Kingston 1", 17.9750, -76.7950, "Kingston", "sector"),
    Location("Kingston 2", 17.9761, -76.7900, "Kingston", "sector"),
    Location("Kingston 3", 17.9767, -76.7867, "Kingston", "sector"),
    Location("Kingston 4", 17.9775, -76.7833, "Kingston", "sector"),
    Location("Kingston 5", 17.9944, -76.7872, "Kingston", "sector"),
    Location("Kingston 6", 18.0072, -76.7700, "Kingston", "sector"),
    Location("Kingston 7", 18.0197, -76.7797, "St. Andrew", "sector"),
    Location("Kingston 8", 18.0250, -76.7667, "St. Andrew", "sector"),
    Location("Kingston 9", 18.0350, -76.7800, "St. Andrew", "sector"),
    Location("Kingston 10", 18.0100, -76.8042, "St. Andrew", "sector"),
    Location("Kingston 11", 17.9917, -76.8094, "Kingston", "sector"),
    Location("Kingston 12", 17.9750, -76.8056, "Kingston", "sector"),
    Location("Kingston 13", 17.9861, -76.7703, "Kingston", "sector"),
    Location("Kingston 14", 17.9953, -76.7606, "Kingston", "sector"),
    Location("Kingston 15", 17.9833, -76.7533, "Kingston", "sector"),
    Location("Kingston 16", 17.9683, -76.7467, "Kingston", "sector"),
    Location("Kingston 17", 17.9606, -76.7878, "Kingston", "sector"),
    Location("Kingston 19", 18.0386, -76.8153, "St. Andrew", "sector"),
    Location("Kingston 20", 18.0467, -76.7633, "St. Andrew", "sector")
  ]

  /** The built-in location table, in table order. */
  const KnownLocations: seq<Location> := ParishCapitals + MajorTowns + Landmarks + KingstonSectors

  // ---------------------------------------------------------------------
  // The index: a dictionary keyed by the lower-cased name
  // ---------------------------------------------------------------------

  /** `index.get(key)`. */
  function Lookup(index: seq<Entry>, key: string): (r: Option<Location>)
    ensures r.Some? ==> exists i :: 0 <= i < |index| && index[i] == Entry(key, r.value)
    ensures r.None? ==> forall i :: 0 <= i < |index| ==> index[i].key != key
  {
    if index == [] then None
    else if index[0].key == key then Some(index[0].loc)
    else
      var r := Lookup(index[1..], key);
      assert r.Some? ==> exists i :: 0 <= i < |index| - 1 && index[1..][i] == Entry(key, r.value);
      r
  }

  /** No key occurs twice: a dictionary. */
  predicate DistinctKeys(index: seq<Entry>)
  {
    forall i, j :: 0 <= i < j < |index| ==> index[i].key != index[j].key
  }

  /** `index[key] = loc`: an existing key keeps its place and takes the new
      value, a new key goes to the end. */
  function Put(index: seq<Entry>, key: string, loc: Location): (r: seq<Entry>)
  {
    if index == [] then [Entry(key, loc)]
    else if index[0].key == key then [Entry(key, loc)] + index[1..]
    else [index[0]] + Put(index[1..], key, loc)
  }

  /** The keys of an index. */
  function Keys(index: seq<Entry>): (r: set<string>)
  {
    set e | e in index :: e.key
  }

  /** `index[key] = loc` adds `key` to the keys and no other. */
  lemma {:induction false} PutKeys(index: seq<Entry>, key: string, loc: Location)
    ensures Keys(Put(index, key, loc)) == Keys(index) + {key}
  {
    if index != [] {
      PutKeys(index[1..], key, loc);
      assert index == [index[0]] + index[1..];
      assert Keys(index) == {index[0].key} + Keys(index[1..]);
      if index[0].key == key {
        assert Keys(Put(index, key, loc)) == {key} + Keys(index[1..]);
      } else {
        assert Keys(Put(index, key, loc)) == {index[0].key} + Keys(Put(index[1..], key, loc));
      }
    }
  }

  /** `index[key] = loc` keeps the keys distinct. */
  lemma {:induction false} PutDistinct(index: seq<Entry>, key: string, loc: Location)
    requires DistinctKeys(index)
    ensures DistinctKeys(Put(index, key, loc))
  {
    if index != [] && index[0].key != key {
      var t := Put(index[1..], key, loc);
      PutDistinct(index[1..], key, loc);
      PutKeys(index[1..], key, loc);
      assert index[0].key !in Keys(t);
      forall j | 0 <= j < |t| ensures t[j].key != index[0].key {
        assert t[j] in t;
      }
    }
  }

  /** After `index[key] = loc`, the key maps to `loc` and every other key
      keeps its value. */
  lemma {:induction false} PutLookup(index: seq<Entry>, key: string, loc: Location)
    ensures Lookup(Put(index, key, loc), key) == Some(loc)
    ensures forall k :: k != key ==> Lookup(Put(index, key, loc), k) == Lookup(index, k)
  {
    if index != [] && index[0].key != key {
      PutLookup(index[1..], key, loc);
    }
  }

  /** The last location in `locs` whose lower-cased name is `key`. */
  function LastNamed(locs: seq<Location>, key: string): (r: Option<Location>)
    ensures r.Some? ==> r.value in locs && Lower(r.value.name) == key
    ensures r.None? <==> forall l :: l in locs ==> Lower(l.name) != key
  {
    if locs == [] then None
    else if Lower(locs[|locs| - 1].name) == key then Some(locs[|locs| - 1])
    else
      var r := LastNamed(locs[..|locs| - 1], key);
      assert locs == locs[..|locs| - 1] + [locs[|locs| - 1]];
      r
  }

  /** `_LOCATION_INDEX` as the loop fills it from `locs`, row by row. */
  function IndexOf(locs: seq<Location>): (r: seq<Entry>)
  {
    if locs == [] then []
    else
      var last := locs[|locs| - 1];
      Put(IndexOf(locs[..|locs| - 1]), Lower(last.name), last)
  }

  /** The index holds each lower-cased name once, and looking a key up gives
      the last row with that name (a later row overwrites an earlier one). */
  lemma {:induction false} IndexOfIsLastWrite(locs: seq<Location>)
    ensures DistinctKeys(IndexOf(locs))
    ensures forall k :: Lookup(IndexOf(locs), k) == LastNamed(locs, k)
  {
    if locs != [] {
      var init := locs[..|locs| - 1];
      var last := locs[|locs| - 1];
      IndexOfIsLastWrite(init);
      PutDistinct(IndexOf(init), Lower(last.name), last);
      PutLookup(IndexOf(init), Lower(last.name), last);
      forall k ensures Lookup(IndexOf(locs), k) == LastNamed(locs, k) {
        if k != Lower(last.name) {
          assert LastNamed(locs, k) == LastNamed(init, k);
        }
      }
    }
  }

  /** The index-building loop run at import time. */
  method BuildIndex(locs: seq<Location>) returns (index: seq<Entry>)
    ensures index == IndexOf(locs)
    ensures DistinctKeys(index)
    ensures forall k :: Lookup(index, k) == LastNamed(locs, k)
  {
    index := [];
    var i := 0;
    while i < |locs|
      invariant 0 <= i <= |locs|
      invariant index == IndexOf(locs[..i])
    {
      assert locs[..i + 1][..i] == locs[..i];
      index := Put(index, Lower(locs[i].name), locs[i]);
      i := i + 1;
    }
    assert locs[..i] == locs;
    IndexOfIsLastWrite(locs);
  }

  /** `_LOCATION_INDEX`. */
  function LocationIndex(): seq<Entry>
  {
    IndexOf(KnownLocations)
  }

  /** A name that is not eleven characters long, or whose eleventh
      character is not '8', is not "Kingston 18" in any case. */
  predicate NotSector18(name: string)
  {
    |name| != 11 || name[10] != '8'
  }

  lemma NotSector18Lower(name: string)
    requires NotSector18(name)
    ensures Lower(name) != "kingston 18"
  {
    if |name| == 11 {
      assert Lower(name)[10] == LowerChar(name[10]);
      assert "kingston 18"[10] == '8';
    }
  }

  // Group by group, no row's name can be "Kingston 18".

  lemma ParishCapitalsNotSector18()
    ensures forall i :: 0 <= i < |ParishCapitals| ==> NotSector18(ParishCapitals[i].name)
  {
  }

  lemma MajorTownsNotSector18()
    ensures forall i :: 0 <= i < |MajorTowns| ==> NotSector18(MajorTowns[i].name)
  {
  }

  lemma LandmarksNotSector18()
    ensures forall i :: 0 <= i < |Landmarks| ==> NotSector18(Landmarks[i].name)
  {
  }

  lemma KingstonSectorsNotSector18()
    ensures forall i :: 0 <= i < |KingstonSectors| ==> NotSector18(KingstonSectors[i].name)
  {
  }

  /** Rows that all pass the name test include no "Kingston 18". */
  lemma NoSector18Named(locs: seq<Location>)
    requires forall i :: 0 <= i < |locs| ==> NotSector18(locs[i].name)
    ensures forall l :: l in locs ==> Lower(l.name) != "kingston 18"
  {
    forall l | l in locs ensures Lower(l.name) != "kingston 18" {
      var i :| 0 <= i < |locs| && locs[i] == l;
      NotSector18Lower(l.name);
    }
  }

  /** No row of the table is called "Kingston 18". */
  lemma NoKingston18Row()
    ensures forall l :: l in KnownLocations ==> Lower(l.name) != "kingston 18"
  {
    ParishCapitalsNotSector18();
    MajorTownsNotSector18();
    LandmarksNotSector18();
    KingstonSectorsNotSector18();
    NoSector18Named(ParishCapitals);
    NoSector18Named(MajorTowns);
    NoSector18Named(Landmarks);
    NoSector18Named(KingstonSectors);
  }

  /** So "kingston 18" is not a key of the index. */
  lemma NoKingston18Key()
    ensures Lookup(LocationIndex(), "kingston 18") == None
  {
    IndexOfIsLastWrite(KnownLocations);
    NoKingston18Row();
  }

  // ---------------------------------------------------------------------
  // The cascade
  // ---------------------------------------------------------------------

  /** Tiers 1 to 4 answer with the matched row's own data. */
  function Hit(loc: Location, confidence: real): (r: GeoMatch)
    ensures r.matchName == loc.name && r.parish == loc.parish && r.matchType == loc.kind
    ensures r.confidence == confidence && r.lat == loc.lat && r.lng == loc.lng
  {
    GeoMatch(loc.lat, loc.lng, confidence, loc.parish, loc.name, loc.kind)
  }

  /** The stripped address with every "Saint"/"St" + whitespace rewritten to
      "St. " (the rewrite is the address parser's NormalizeSaintPrefix). */
  function Normalized(address: string): string
  {
    NormalizeSaintPrefix(Strip(address))
  }

  /** The sector tier's key: "kingston " followed by the digit text of the
      first sector match, as written (no leading zero is dropped). */
  function SectorKey(normalized: string): (r: Option<string>)
  {
    match SearchSectorDigits(normalized, 0)
    case Some(d) => Some("kingston " + d)
    case None => None
  }

  /** A sector key exists exactly when the sector pattern matches, and its
      digits spell the sector number. */
  lemma SectorKeyMatchesSector(normalized: string)
    ensures SectorKey(normalized).Some? <==> SearchKingstonSector(normalized, 0).Some?
    ensures SectorKey(normalized).Some? ==>
      exists d :: SectorKey(normalized) == Some("kingston " + d) && 1 <= |d| <= 2 && AllDigits(d)
        && SearchKingstonSector(normalized, 0) == Some(DigitsValue(d))
  {
    SearchSectorDigitsValue(normalized, 0);
    if SectorKey(normalized).Some? {
      var d := SearchSectorDigits(normalized, 0).value;
      assert SectorKey(normalized) == Some("kingston " + d);
    }
  }

  /** The left-most segment whose lower-cased text is an index key. */
  function FirstKnownSegment(index: seq<Entry>, segs: seq<string>): (r: Option<Location>)
  {
    if segs == [] then None
    else if Lookup(index, Lower(segs[0])).Some? then Lookup(index, Lower(segs[0]))
    else FirstKnownSegment(index, segs[1..])
  }

  /** Segment `i` is known and no segment before it is. */
  predicate FirstKnownAt(index: seq<Entry>, segs: seq<string>, i: nat)
  {
    i < |segs| && Lookup(index, Lower(segs[i])).Some?
    && forall j :: 0 <= j < i ==> Lookup(index, Lower(segs[j])).None?
  }

  /** The segment search answers with the left-most known segment, and
      fails only when no segment is known. */
  lemma {:induction false} FirstKnownSegmentSpec(index: seq<Entry>, segs: seq<string>)
    ensures var r := FirstKnownSegment(index, segs);
      (r.Some? ==> exists i: nat :: FirstKnownAt(index, segs, i) && Lookup(index, Lower(segs[i])) == r)
      && (r.None? <==> forall i :: 0 <= i < |segs| ==> Lookup(index, Lower(segs[i])).None?)
  {
    if segs != [] {
      if Lookup(index, Lower(segs[0])).Some? {
        assert FirstKnownAt(index, segs, 0);
      } else {
        FirstKnownSegmentSpec(index, segs[1..]);
        if FirstKnownSegment(index, segs).Some? {
          var i: nat :| FirstKnownAt(index, segs[1..], i)
            && Lookup(index, Lower(segs[1..][i])) == FirstKnownSegment(index, segs);
          assert FirstKnownAt(index, segs, i + 1);
        }
        assert forall i :: 1 <= i < |segs| ==> segs[i] == segs[1..][i - 1];
      }
    }
  }

  /** Index entry `j` may win the substring tier: its key occurs in the
      lower-cased address and is not empty. */
  predicate Candidate(index: seq<Entry>, lowered: string, j: nat)
  {
    j < |index| && |index[j].key| > 0 && Contains(lowered, index[j].key)
  }

  /** The length of the current best key, 0 when there is none. */
  function BestLen(index: seq<Entry>, best: Option<nat>): nat
  {
    if best.Some? && best.value < |index| then |index[best.value].key| else 0
  }

  /** The substring tier's choice among the first `n` entries, as the loop
      leaves it after `n` rounds: a later key replaces the best only when it
      is strictly longer. */
  function BestUpTo(index: seq<Entry>, lowered: string, n: nat): (r: Option<nat>)
    requires n <= |index|
  {
    if n == 0 then None
    else
      var b := BestUpTo(index, lowered, n - 1);
      if Contains(lowered, index[n - 1].key) && |index[n - 1].key| > BestLen(index, b) then Some(n - 1)
      else b
  }

  /** Entry `j` is a longest candidate among the first `n` entries, and the
      earliest one of that length. */
  predicate LongestEarliest(index: seq<Entry>, lowered: string, n: nat, j: nat)
  {
    j < n && Candidate(index, lowered, j)
    && (forall k :: 0 <= k < n && Candidate(index, lowered, k) ==> |index[k].key| <= |index[j].key|)
    && (forall k :: 0 <= k < j && Candidate(index, lowered, k) ==> |index[k].key| < |index[j].key|)
  }

  /** The choice is the earliest longest candidate; there is none only when
      no entry is a candidate. */
  lemma {:induction false} BestUpToSpec(index: seq<Entry>, lowered: string, n: nat)
    requires n <= |index|
    ensures BestUpTo(index, lowered, n).Some? ==> LongestEarliest(index, lowered, n, BestUpTo(index, lowered, n).value)
    ensures BestUpTo(index, lowered, n).None? <==> forall k :: 0 <= k < n ==> !Candidate(index, lowered, k)
  {
    if n > 0 {
      BestUpToSpec(index, lowered, n - 1);
      var b := BestUpTo(index, lowered, n - 1);
      if b.None? {
        assert BestLen(index, b) == 0;
      }
    }
  }

  /** The substring tier's loop over the index. */
  method LongestKnownName(index: seq<Entry>, lowered: string) returns (best: Option<nat>)
    ensures best == BestUpTo(index, lowered, |index|)
  {
    best := None;
    var bestLen := 0;
    var i := 0;
    while i < |index|
      invariant 0 <= i <= |index|
      invariant best == BestUpTo(index, lowered, i)
      invariant bestLen == BestLen(index, best)
    {
      if Contains(lowered, index[i].key) && |index[i].key| > bestLen {
        bestLen := |index[i].key|;
        best := Some(i);
      }
      i := i + 1;
    }
  }

  /** The number of entries of `_PARISH_ALIASES`. */
  const AliasCount: nat := 29

  /** Entry `i` of `_PARISH_ALIASES`, in dictionary order: an alias and the
      parish it names. */
  function ParishAlias(i: nat): (string, string)
    requires i < AliasCount
  {
    match i
    case 0 => ("kingston", "Kingston")
    case 1 => ("kgn", "Kingston")
    case 2 => ("st. andrew", "St. Andrew")
    case 3 => ("st andrew", "St. Andrew")
    case 4 => ("saint andrew", "St. Andrew")
    case 5 => ("st. catherine", "St. Catherine")
    case 6 => ("st catherine", "St. Catherine")
    case 7 => ("saint catherine", "St. Catherine")
    case 8 => ("clarendon", "Clarendon")
    case 9 => ("manchester", "Manchester")
    case 10 => ("st. elizabeth", "St. Elizabeth")
    case 11 => ("st elizabeth", "St. Elizabeth")
    case 12 => ("saint elizabeth", "St. Elizabeth")
    case 13 => ("westmoreland", "Westmoreland")
    case 14 => ("hanover", "Hanover")
    case 15 => ("st. james", "St. James")
    case 16 => ("st james", "St. James")
    case 17 => ("saint james", "St. James")
    case 18 => ("trelawny", "Trelawny")
    case 19 => ("st. ann", "St. Ann")
    case 20 => ("st ann", "St. Ann")
    case 21 => ("saint ann", "St. Ann")
    case 22 => ("st. mary", "St. Mary")
    case 23 => ("st mary", "St. Mary")
    case 24 => ("saint mary", "St. Mary")
    case 25 => ("portland", "Portland")
    case 26 => ("st. thomas", "St. Thomas")
    case 27 => ("st thomas", "St. Thomas")
    case _ => ("saint thomas", "St. Thomas") // entry 28
  }

  /** `_PARISH_ALIASES` as a sequence, in dictionary order. */
  function ParishAliases(): (r: seq<(string, string)>)
    ensures |r| == AliasCount && forall i :: 0 <= i < AliasCount ==> r[i] == ParishAlias(i)
  {
    seq(AliasCount, i requires 0 <= i < AliasCount => ParishAlias(i))
  }

  /** Every alias names one of the fourteen parishes. */
  lemma ParishAliasesResolve()
    ensures forall e :: e in ParishAliases() ==> IsParish(e.1)
  {
    forall e | e in ParishAliases() ensures IsParish(e.1) {
      var i :| 0 <= i < |ParishAliases()| && ParishAliases()[i] == e;
      assert e == ParishAlias(i);
    }
  }

  /** The first entry of `aliases` whose alias occurs in `lowered`: the loop
      of `_extract_parish`. */
  function FirstAliasIn(aliases: seq<(string, string)>, lowered: string): (r: Option<(string, string)>)
    ensures r.Some? ==> r.value in aliases && Contains(lowered, r.value.0)
    ensures r.None? <==> forall e :: e in aliases ==> !Contains(lowered, e.0)
  {
    if aliases == [] then None
    else if Contains(lowered, aliases[0].0) then Some(aliases[0])
    else
      var r := FirstAliasIn(aliases[1..], lowered);
      assert aliases == [aliases[0]] + aliases[1..];
      r
  }

  /** Entry `i` occurs in `lowered` and no entry before it does. */
  predicate FirstAliasAt(aliases: seq<(string, string)>, lowered: string, i: nat)
  {
    i < |aliases| && Contains(lowered, aliases[i].0)
    && forall j :: 0 <= j < i ==> !Contains(lowered, aliases[j].0)
  }

  /** The alias search stops at the first entry, in dictionary order, whose
      alias occurs. */
  lemma {:induction false} FirstAliasInSpec(aliases: seq<(string, string)>, lowered: string)
    ensures FirstAliasIn(aliases, lowered).Some? ==>
      exists i: nat :: FirstAliasAt(aliases, lowered, i) && FirstAliasIn(aliases, lowered) == Some(aliases[i])
  {
    if aliases != [] {
      if Contains(lowered, aliases[0].0) {
        assert FirstAliasAt(aliases, lowered, 0);
      } else {
        FirstAliasInSpec(aliases[1..], lowered);
        if FirstAliasIn(aliases, lowered).Some? {
          var i: nat :| FirstAliasAt(aliases[1..], lowered, i)
            && FirstAliasIn(aliases, lowered) == Some(aliases[1..][i]);
          assert FirstAliasAt(aliases, lowered, i + 1);
        }
      }
    }
  }

  /** `_extract_parish`: the parish of the first alias, in dictionary order,
      that occurs in the lower-cased address. */
  function ExtractParishByAlias(address: string): (r: Option<string>)
    ensures r.Some? ==> IsParish(r.value)
    ensures r.None? <==> forall e :: e in ParishAliases() ==> !Contains(Lower(address), e.0)
  {
    match FirstAliasIn(ParishAliases(), Lower(address))
    case Some(e) => ParishAliasesResolve(); Some(e.1)
    case None => None
  }

  /** The first index entry that is the capital of `parish`. */
  function CapitalOf(index: seq<Entry>, parish: string): (r: Option<Location>)
  {
    if index == [] then None
    else if index[0].loc.parish == parish && index[0].loc.kind == "capital" then Some(index[0].loc)
    else CapitalOf(index[1..], parish)
  }

  /** Entry `i` is the first capital of `parish` in index order. */
  predicate FirstCapitalAt(index: seq<Entry>, parish: string, i: nat)
  {
    i < |index| && index[i].loc.parish == parish && index[i].loc.kind == "capital"
    && forall j :: 0 <= j < i ==> !(index[j].loc.parish == parish && index[j].loc.kind == "capital")
  }

  /** The capital search returns the first capital of the parish, and fails
      only when the index has none. */
  lemma {:induction false} CapitalOfSpec(index: seq<Entry>, parish: string)
    ensures var r := CapitalOf(index, parish);
      (r.Some? ==> exists i: nat :: FirstCapitalAt(index, parish, i) && r == Some(index[i].loc))
      && (r.None? <==> forall i :: 0 <= i < |index| ==> !(index[i].loc.parish == parish && index[i].loc.kind == "capital"))
  {
    if index != [] {
      if index[0].loc.parish == parish && index[0].loc.kind == "capital" {
        assert FirstCapitalAt(index, parish, 0);
      } else {
        CapitalOfSpec(index[1..], parish);
        if CapitalOf(index, parish).Some? {
          var i: nat :| FirstCapitalAt(index[1..], parish, i) && CapitalOf(index, parish) == Some(index[1..][i].loc);
          assert FirstCapitalAt(index, parish, i + 1);
        }
        assert forall i :: 1 <= i < |index| ==> index[i] == index[1..][i - 1];
      }
    }
  }

  /** Tier 5: the parish's capital, reported under the extracted parish. */
  function ParishFallback(index: seq<Entry>, normalized: string): (r: Option<GeoMatch>)
    ensures r.Some? ==> r.value.confidence == 0.3 && r.value.matchType == "parish_fallback"
    ensures r.Some? ==> ExtractParishByAlias(normalized) == Some(r.value.parish)
    ensures r.Some? ==> CapitalOf(index, r.value.parish).Some?
    ensures r.Some? ==> r.value.matchName == CapitalOf(index, r.value.parish).value.name
  {
    match ExtractParishByAlias(normalized)
    case None => None
    case Some(p) =>
      match CapitalOf(index, p)
      case None => None
      case Some(c) => Some(GeoMatch(c.lat, c.lng, 0.3, p, c.name, "parish_fallback"))
  }

  /** The sector tier's row, when the sector key is an index key. */
  function SectorHit(index: seq<Entry>, normalized: string): Option<Location>
  {
    match SectorKey(normalized)
    case Some(k) => Lookup(index, k)
    case None => None
  }

  /** The substring tier's row. */
  function SubstringHit(index: seq<Entry>, lowered: string): Option<Location>
  {
    var best := BestUpTo(index, lowered, |index|);
    if best.Some? && best.value < |index| then Some(index[best.value].loc) else None
  }

  /** The substring tier answers with the earliest longest candidate, and
      has no answer only when no entry is a candidate. */
  lemma SubstringHitSpec(index: seq<Entry>, lowered: string)
    ensures SubstringHit(index, lowered).Some? ==>
      exists j: nat :: LongestEarliest(index, lowered, |index|, j) && SubstringHit(index, lowered) == Some(index[j].loc)
    ensures SubstringHit(index, lowered).None? <==> forall k :: 0 <= k < |index| ==> !Candidate(index, lowered, k)
  {
    BestUpToSpec(index, lowered, |index|);
    var best := BestUpTo(index, lowered, |index|);
    if best.Some? {
      assert LongestEarliest(index, lowered, |index|, best.value);
    }
  }

  /** The tiers in their fixed order: the first that has an answer wins. */
  function Cascade(full: Option<Location>, sector: Option<Location>, segment: Option<Location>,
                   substring: Option<Location>, fallback: Option<GeoMatch>): Option<GeoMatch>
  {
    if full.Some? then Some(Hit(full.value, 1.0))
    else if sector.Some? then Some(Hit(sector.value, 0.85))
    else if segment.Some? then Some(Hit(segment.value, 0.8))
    else if substring.Some? then Some(Hit(substring.value, 0.6))
    else fallback
  }

  /** The cascade on a normalized, non-blank address. */
  function GeocodeNormalized(index: seq<Entry>, normalized: string): Option<GeoMatch>
  {
    var key := Lower(normalized);
    Cascade(Lookup(index, key), SectorHit(index, normalized), FirstKnownSegment(index, Segments(normalized)),
            SubstringHit(index, key), ParishFallback(index, normalized))
  }

  /** `geocode_address` over `index` (the `_LOCATION_INDEX` built from the
      table). */
  function Geocode(index: seq<Entry>, address: string): Option<GeoMatch>
  {
    if Strip(address) == [] then None else GeocodeNormalized(index, Normalized(address))
  }

  /** `geocode_address`, with its substring tier as a loop. */
  method GeocodeAddress(index: seq<Entry>, address: string) returns (r: Option<GeoMatch>)
    ensures r == Geocode(index, address)
  {
    var cleaned := Strip(address);
    if cleaned == [] {
      return None;
    }
    var normalized := NormalizeSaintPrefix(cleaned);
    r := GeocodeTiers(index, normalized);
  }

  /** The five tiers of `geocode_address` in turn, on the normalized text. */
  method GeocodeTiers(index: seq<Entry>, normalized: string) returns (r: Option<GeoMatch>)
    ensures r == GeocodeNormalized(index, normalized)
  {
    var key := Lower(normalized);
    var full := Lookup(index, key);
    if full.Some? {
      return Some(Hit(full.value, 1.0));
    }
    var sector := SectorHit(index, normalized);
    if sector.Some? {
      return Some(Hit(sector.value, 0.85));
    }
    var segment := FirstKnownSegment(index, Segments(normalized));
    if segment.Some? {
      return Some(Hit(segment.value, 0.8));
    }
    var best := LongestKnownName(index, key);
    if best.Some? && best.value < |index| {
      return Some(Hit(index[best.value].loc, 0.6));
    }
    r := ParishFallback(index, normalized);
  }

  // ---------------------------------------------------------------------
  // Properties of the cascade
  // ---------------------------------------------------------------------

  /** Blank input has no answer; anything else is answered by the cascade
      on its normalized text. */
  lemma GeocodeBlank(index: seq<Entry>, address: string)
    ensures IsBlank(address) ==> Geocode(index, address) == None
    ensures !IsBlank(address) ==> Geocode(index, address) == GeocodeNormalized(index, Normalized(address))
  {
    StripEmptyIffBlank(address);
  }

  /** Each answer carries the confidence of the tier that gave it: the first
      tier with an answer. */
  lemma CascadeTiers(full: Option<Location>, sector: Option<Location>, segment: Option<Location>,
                     substring: Option<Location>, fallback: Option<GeoMatch>)
    requires fallback.Some? ==> fallback.value.confidence == 0.3
    ensures var r := Cascade(full, sector, segment, substring, fallback);
      && (r.Some? ==> r.value.confidence in {1.0, 0.85, 0.8, 0.6, 0.3})
      && (r.None? <==> full.None? && sector.None? && segment.None? && substring.None? && fallback.None?)
      && (full.Some? ==> r == Some(Hit(full.value, 1.0)))
      && (r.Some? && r.value.confidence == 0.85 ==> full.None? && r == Some(Hit(sector.value, 0.85)))
      && (r.Some? && r.value.confidence == 0.8 ==> full.None? && sector.None? && r == Some(Hit(segment.value, 0.8)))
      && (r.Some? && r.value.confidence == 0.6 ==>
            full.None? && sector.None? && segment.None? && r == Some(Hit(substring.value, 0.6)))
      && (r.Some? && r.value.confidence == 0.3 ==>
            full.None? && sector.None? && segment.None? && substring.None? && r == fallback)
  {
  }

  /** A full-key match answers with confidence 1.0, and every answer has one
      of the five tier confidences. */
  lemma GeocodeFullMatch(index: seq<Entry>, normalized: string)
    ensures Lookup(index, Lower(normalized)).Some? ==>
      GeocodeNormalized(index, normalized) == Some(Hit(Lookup(index, Lower(normalized)).value, 1.0))
    ensures GeocodeNormalized(index, normalized).Some? ==>
      GeocodeNormalized(index, normalized).value.confidence in {1.0, 0.85, 0.8, 0.6, 0.3}
  {
    var key := Lower(normalized);
    CascadeTiers(Lookup(index, key), SectorHit(index, normalized), FirstKnownSegment(index, Segments(normalized)),
                 SubstringHit(index, key), ParishFallback(index, normalized));
  }

  /** The sector tier answers only for a sector key that is an index key,
      after the full-key tier missed. */
  lemma GeocodeSectorTier(index: seq<Entry>, normalized: string)
    requires GeocodeNormalized(index, normalized).Some?
    requires GeocodeNormalized(index, normalized).value.confidence == 0.85
    ensures Lookup(index, Lower(normalized)).None?
    ensures SectorKey(normalized).Some? && Lookup(index, SectorKey(normalized).value).Some?
    ensures GeocodeNormalized(index, normalized).value == Hit(Lookup(index, SectorKey(normalized).value).value, 0.85)
  {
    var key := Lower(normalized);
    CascadeTiers(Lookup(index, key), SectorHit(index, normalized), FirstKnownSegment(index, Segments(normalized)),
                 SubstringHit(index, key), ParishFallback(index, normalized));
  }

  /** A sector whose key is missing from the index falls through to the
      later tiers. */
  lemma SectorWithoutKeyFallsThrough(index: seq<Entry>, normalized: string)
    requires SectorKey(normalized).Some? && Lookup(index, SectorKey(normalized).value).None?
    ensures GeocodeNormalized(index, normalized).None? || GeocodeNormalized(index, normalized).value.confidence != 0.85
  {
    if GeocodeNormalized(index, normalized).Some? && GeocodeNormalized(index, normalized).value.confidence == 0.85 {
      GeocodeSectorTier(index, normalized);
    }
  }

  /** With the built-in table, "Kingston 18" never answers from the sector
      tier. */
  lemma Kingston18FallsThrough(normalized: string)
    requires SectorKey(normalized) == Some("kingston 18")
    ensures GeocodeNormalized(LocationIndex(), normalized).None?
      || GeocodeNormalized(LocationIndex(), normalized).value.confidence != 0.85
  {
    NoKingston18Key();
    SectorWithoutKeyFallsThrough(LocationIndex(), normalized);
  }

  /** The segment tier answers with the left-most known comma segment. */
  lemma GeocodeSegmentTier(index: seq<Entry>, normalized: string)
    requires GeocodeNormalized(index, normalized).Some?
    requires GeocodeNormalized(index, normalized).value.confidence == 0.8
    ensures Lookup(index, Lower(normalized)).None? && SectorHit(index, normalized).None?
    ensures exists i: nat ::
      FirstKnownAt(index, Segments(normalized), i)
      && GeocodeNormalized(index, normalized).value == Hit(Lookup(index, Lower(Segments(normalized)[i])).value, 0.8)
  {
    var key := Lower(normalized);
    CascadeTiers(Lookup(index, key), SectorHit(index, normalized), FirstKnownSegment(index, Segments(normalized)),
                 SubstringHit(index, key), ParishFallback(index, normalized));
    FirstKnownSegmentSpec(index, Segments(normalized));
  }

  /** The substring tier answers with the earliest of the longest index keys
      that occur in the lower-cased address, once no segment is known. */
  lemma GeocodeSubstringTier(index: seq<Entry>, normalized: string)
    requires GeocodeNormalized(index, normalized).Some?
    requires GeocodeNormalized(index, normalized).value.confidence == 0.6
    ensures Lookup(index, Lower(normalized)).None? && SectorHit(index, normalized).None?
    ensures FirstKnownSegment(index, Segments(normalized)).None?
    ensures exists j: nat ::
      LongestEarliest(index, Lower(normalized), |index|, j)
      && GeocodeNormalized(index, normalized).value == Hit(index[j].loc, 0.6)
  {
    var key := Lower(normalized);
    var j := SubstringTierOf(index, key, Lookup(index, key), SectorHit(index, normalized),
                             FirstKnownSegment(index, Segments(normalized)), ParishFallback(index, normalized));
  }

  /** The substring tier's answer, stated over whatever the other tiers
      answered. */
  lemma SubstringTierOf(index: seq<Entry>, key: string, full: Option<Location>, sector: Option<Location>,
                        segment: Option<Location>, fallback: Option<GeoMatch>) returns (j: nat)
    requires fallback.Some? ==> fallback.value.confidence == 0.3
    requires Cascade(full, sector, segment, SubstringHit(index, key), fallback).Some?
    requires Cascade(full, sector, segment, SubstringHit(index, key), fallback).value.confidence == 0.6
    ensures full.None? && sector.None? && segment.None?
    ensures LongestEarliest(index, key, |index|, j)
    ensures Cascade(full, sector, segment, SubstringHit(index, key), fallback).value == Hit(index[j].loc, 0.6)
  {
    var sub := SubstringHit(index, key);
    CascadeTiers(full, sector, segment, sub, fallback);
    SubstringHitSpec(index, key);
    j :| LongestEarliest(index, key, |index|, j) && sub == Some(index[j].loc);
  }

  /** The parish fallback answers with the first capital of the extracted
      parish, reported under that parish, once no index key occurs at all. */
  lemma GeocodeFallbackTier(index: seq<Entry>, normalized: string)
    requires GeocodeNormalized(index, normalized).Some?
    requires GeocodeNormalized(index, normalized).value.confidence == 0.3
    ensures GeocodeNormalized(index, normalized).value.matchType == "parish_fallback"
    ensures ExtractParishByAlias(normalized) == Some(GeocodeNormalized(index, normalized).value.parish)
    ensures IsParish(GeocodeNormalized(index, normalized).value.parish)
    ensures forall k :: 0 <= k < |index| ==> !Candidate(index, Lower(normalized), k)
    ensures exists i: nat ::
      FirstCapitalAt(index, GeocodeNormalized(index, normalized).value.parish, i)
      && GeocodeNormalized(index, normalized).value.matchName == index[i].loc.name
  {
    var key := Lower(normalized);
    CascadeTiers(Lookup(index, key), SectorHit(index, normalized), FirstKnownSegment(index, Segments(normalized)),
                 SubstringHit(index, key), ParishFallback(index, normalized));
    SubstringHitSpec(index, key);
    CapitalOfSpec(index, ExtractParishByAlias(normalized).value);
  }

  /** No answer means every tier failed. */
  lemma GeocodeNone(index: seq<Entry>, normalized: string)
    requires GeocodeNormalized(index, normalized).None?
    ensures Lookup(index, Lower(normalized)).None?
    ensures SectorHit(index, normalized).None?
    ensures FirstKnownSegment(index, Segments(normalized)).None?
    ensures SubstringHit(index, Lower(normalized)).None?
    ensures ExtractParishByAlias(normalized).None? || CapitalOf(index, ExtractParishByAlias(normalized).value).None?
  {
    var key := Lower(normalized);
    CascadeTiers(Lookup(index, key), SectorHit(index, normalized), FirstKnownSegment(index, Segments(normalized)),
                 SubstringHit(index, key), ParishFallback(index, normalized));
  }

  /** In particular no segment is a known name, no index key occurs in the
      address, and either no parish alias occurs in it or the index holds no
      capital of the parish it names. */
  lemma GeocodeNoneSearches(index: seq<Entry>, normalized: string)
    requires GeocodeNormalized(index, normalized).None?
    ensures forall i :: 0 <= i < |Segments(normalized)| ==> Lookup(index, Lower(Segments(normalized)[i])).None?
    ensures forall k :: 0 <= k < |index| ==> !Candidate(index, Lower(normalized), k)
    ensures ExtractParishByAlias(normalized).Some? ==>
      forall i :: 0 <= i < |index| ==>
        !(index[i].loc.parish == ExtractParishByAlias(normalized).value && index[i].loc.kind == "capital")
  {
    var key := Lower(normalized);
    var fallback := ParishFallback(index, normalized);
    NoTierOf(index, key, Segments(normalized), Lookup(index, key), SectorHit(index, normalized), fallback);
    NoCapitalFound(index, normalized);
  }

  /** A missing fallback hit means no alias occurs or the parish it names
      has no capital in the index. */
  lemma NoCapitalFound(index: seq<Entry>, normalized: string)
    requires ParishFallback(index, normalized).None?
    ensures ExtractParishByAlias(normalized).Some? ==>
      forall i :: 0 <= i < |index| ==>
        !(index[i].loc.parish == ExtractParishByAlias(normalized).value && index[i].loc.kind == "capital")
  {
    if ExtractParishByAlias(normalized).Some? {
      CapitalOfSpec(index, ExtractParishByAlias(normalized).value);
    }
  }

  /** With no answer at all, stated over whatever the first, second and last
      tiers answered: no segment is known and no key occurs. */
  lemma NoTierOf(index: seq<Entry>, key: string, segs: seq<string>, full: Option<Location>,
                 sector: Option<Location>, fallback: Option<GeoMatch>)
    requires Cascade(full, sector, FirstKnownSegment(index, segs), SubstringHit(index, key), fallback).None?
    ensures forall i :: 0 <= i < |segs| ==> Lookup(index, Lower(segs[i])).None?
    ensures forall k :: 0 <= k < |index| ==> !Candidate(index, key, k)
    ensures fallback.None?
  {
    NoKnownSegment(index, segs);
    SubstringHitSpec(index, key);
  }

  /** No segment is known when the segment search fails. */
  lemma NoKnownSegment(index: seq<Entry>, segs: seq<string>)
    requires FirstKnownSegment(index, segs).None?
    ensures forall i :: 0 <= i < |segs| ==> Lookup(index, Lower(segs[i])).None?
  {
    FirstKnownSegmentSpec(index, segs);
  }
}
