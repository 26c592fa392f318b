/** The addressing service's coordinate-to-parish resolver: the parish whose
    published centre is nearest a point, unless every centre is more than
    150 km away, and lookup by code. The parish records are the list the
    service loads from its data file, passed in. */
module ParishLookup {
  import opened Wrappers
  import opened Strings
  import opened Geo
  import opened Lookups

  /** The fields of a loaded parish record the resolver reads. */
  datatype ParishRecord = ParishRecord(code: string, name: string, coordinates: Coordinates)

  /** Farther than this from every centre, a point is outside Jamaica. */
  const CutoffKm: real := 150.0

  /** Distances from `point` to each parish centre, in list order. */
  function CentreDistances(point: Coordinates, parishes: seq<ParishRecord>, distance: (Coordinates, Coordinates) -> real): (ds: seq<real>)
    ensures |ds| == |parishes|
    ensures forall i :: 0 <= i < |parishes| ==> ds[i] == distance(point, parishes[i].coordinates)
  {
    Map(parishes, (p: ParishRecord) => distance(point, p.coordinates))
  }

  /** What `find_parish(lat, lng)` returns: the first parish at least
      distance from the point, when that distance is at most 150 km. */
  function NearestParish(point: Coordinates, parishes: seq<ParishRecord>, distance: (Coordinates, Coordinates) -> real): (r: Option<ParishRecord>)
  {
    if parishes == [] then None
    else
      var ds := CentreDistances(point, parishes, distance);
      var i := FirstMinIndex(ds);
      if ds[i] > CutoffKm then None else Some(parishes[i])
  }

  /** No parish comes back exactly when the list is empty or every centre
      is beyond the cutoff; otherwise the parish returned is a nearest one,
      within the cutoff, and strictly nearer than every parish listed
      before it. */
  lemma NearestParishSpec(point: Coordinates, parishes: seq<ParishRecord>, distance: (Coordinates, Coordinates) -> real)
    ensures var ds := CentreDistances(point, parishes, distance);
      (NearestParish(point, parishes, distance).None? <==>
        forall i :: 0 <= i < |parishes| ==> ds[i] > CutoffKm)
    ensures var ds := CentreDistances(point, parishes, distance);
      var r := NearestParish(point, parishes, distance);
      r.Some? ==> exists i: nat :: IsFirstMin(ds, i) && r.value == parishes[i] && ds[i] <= CutoffKm
  {
    if parishes != [] {
      var ds := CentreDistances(point, parishes, distance);
      var i := FirstMinIndex(ds);
      assert IsFirstMin(ds, i);
    }
  }

  /** `find_parish`: scan the parishes keeping the nearest so far (starting
      from an infinite best distance, so the first parish always replaces
      it), then reject a best distance over 150 km. */
  method FindParish(point: Coordinates, parishes: seq<ParishRecord>, distance: (Coordinates, Coordinates) -> real)
    returns (r: Option<ParishRecord>)
    ensures r == NearestParish(point, parishes, distance)
  {
    ghost var ds := CentreDistances(point, parishes, distance);
    var best: Option<ParishRecord> := None;
    var bestDist: Option<real> := None;  // None stands for infinity
    ghost var bestIndex: nat := 0;
    var k := 0;
    while k < |parishes|
      invariant k <= |parishes|
      invariant k == 0 ==> best.None? && bestDist.None?
      invariant k > 0 ==> IsFirstMin(ds[..k], bestIndex)
      invariant k > 0 ==> best == Some(parishes[bestIndex]) && bestDist == Some(ds[bestIndex])
    {
      var dist := distance(point, parishes[k].coordinates);
      if bestDist.None? || dist < bestDist.value {
        bestDist := Some(dist);
        best := Some(parishes[k]);
        bestIndex := k;
      }
      k := k + 1;
    }
    if bestDist.None? || bestDist.value > CutoffKm {
      return None;
    }
    assert ds[..k] == ds;
    FirstMinUnique(ds, bestIndex, FirstMinIndex(ds));
    r := best;
  }

  predicate CodeMatches(code: string, p: ParishRecord)
  {
    Upper(p.code) == Upper(code)
  }

  /** `get_parish_by_code`: the first parish whose code, upper-cased, is the
      upper-cased argument. */
  method GetParishByCode(code: string, parishes: seq<ParishRecord>) returns (r: Option<ParishRecord>)
    ensures r == First(parishes, p => CodeMatches(code, p))
    ensures r.Some? ==> r.value in parishes && Upper(r.value.code) == Upper(code)
    ensures r.None? <==> forall i :: 0 <= i < |parishes| ==> Upper(parishes[i].code) != Upper(code)
  {
    var codeUpper := Upper(code);
    var k := 0;
    while k < |parishes|
      invariant k <= |parishes|
      invariant forall j :: 0 <= j < k ==> !CodeMatches(code, parishes[j])
    {
      if Upper(parishes[k].code) == codeUpper {
        FirstAt(parishes, p => CodeMatches(code, p), k);
        return Some(parishes[k]);
      }
      k := k + 1;
    }
    FirstNone(parishes, p => CodeMatches(code, p));
    return None;
  }
}
