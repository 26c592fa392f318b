/** The 63 parliamentary constituencies of the House of Representatives
    with their parish: lookup by name and by parish through the two
    indexes built at import time, name search, counts and the sorted list
    of parishes. The operations read the table `cs` they are given; the
    module's own table is `Constituencies()`. */
module Constituencies {
  import opened Wrappers
  import opened Strings
  import opened Lookups

  datatype Constituency = Constituency(name: string, parish: string)

  // ---------------------------------------------------------------------
  // The table
  // ---------------------------------------------------------------------

  const ConstituencyCount := 63

  /** `_CONSTITUENCIES`, row by row. */
  function Constituencies(): (cs: seq<Constituency>)
    ensures |cs| == ConstituencyCount
  {
    seq(ConstituencyCount, i requires 0 <= i < ConstituencyCount => Constituency(ConstituencyName(i), ConstituencyParish(i)))
  }

  function ConstituencyName(i: nat): string
    requires i < ConstituencyCount
  {
    match i
    case 0 => "Kingston Central"
    case 1 => "Kingston East and Port Royal"
    case 2 => "Kingston Western"
    case 3 => "St. Andrew East Central"
    case 4 => "St. Andrew East Rural"
    case 5 => "St. Andrew Eastern"
    case 6 => "St. Andrew North Central"
    case 7 => "St. Andrew North Eastern"
    case 8 => "St. Andrew North Western"
    case 9 => "St. Andrew South Eastern"
    case 10 => "St. Andrew South Western"
    case 11 => "St. Andrew Southern"
    case 12 => "St. Andrew West Central"
    case 13 => "St. Andrew West Rural"
    case 14 => "St. Andrew Western"
    case 15 => "St. Catherine Central"
    case 16 => "St. Catherine East Central"
    case 17 => "St. Catherine Eastern"
    case 18 => "St. Catherine North Central"
    case 19 => "St. Catherine North Eastern"
    case 20 => "St. Catherine North Western"
    case 21 => "St. Catherine South Central"
    case 22 => "St. Catherine South Eastern"
    case 23 => "St. Catherine South Western"
    case 24 => "St. Catherine Southern"
    case 25 => "St. Catherine West Central"
    case 26 => "St. Thomas Eastern"
    case 27 => "St. Thomas Western"
    case 28 => "Portland Eastern"
    case 29 => "Portland Western"
    case 30 => "St. Mary Central"
    case 31 => "St. Mary South Eastern"
    case 32 => "St. Mary Western"
    case 33 => "St. Ann North Eastern"
    case 34 => "St. Ann North Western"
    case 35 => "St. Ann South Eastern"
    case 36 => "St. Ann South Western"
    case 37 => "Trelawny Northern"
    case 38 => "Trelawny Southern"
    case 39 => "St. James Central"
    case 40 => "St. James East Central"
    case 41 => "St. James North Western"
    case 42 => "St. James Southern"
    case 43 => "St. James West Central"
    case 44 => "Hanover Eastern"
    case 45 => "Hanover Western"
    case 46 => "Clarendon Central"
    case 47 => "Clarendon North Central"
    case 48 => "Clarendon North Western"
    case 49 => "Clarendon Northern"
    case 50 => "Clarendon South Eastern"
    case 51 => "Clarendon South Western"
    case 52 => "Manchester Central"
    case 53 => "Manchester North Eastern"
    case 54 => "Manchester North Western"
    case 55 => "Manchester Southern"
    case 56 => "St. Elizabeth North Eastern"
    case 57 => "St. Elizabeth North Western"
    case 58 => "St. Elizabeth South Eastern"
    case 59 => "St. Elizabeth South Western"
    case 60 => "Westmoreland Central"
    case 61 => "Westmoreland Eastern"
    case _ => "Westmoreland Western"
  }

  function ConstituencyParish(i: nat): string
    requires i < ConstituencyCount
  {
    match i
    case 0 => "Kingston"
    case 1 => "Kingston"
    case 2 => "Kingston"
    case 3 => "St. Andrew"
    case 4 => "St. Andrew"
    case 5 => "St. Andrew"
    case 6 => "St. Andrew"
    case 7 => "St. Andrew"
    case 8 => "St. Andrew"
    case 9 => "St. Andrew"
    case 10 => "St. Andrew"
    case 11 => "St. Andrew"
    case 12 => "St. Andrew"
    case 13 => "St. Andrew"
    case 14 => "St. Andrew"
    case 15 => "St. Catherine"
    case 16 => "St. Catherine"
    case 17 => "St. Catherine"
    case 18 => "St. Catherine"
    case 19 => "St. Catherine"
    case 20 => "St. Catherine"
    case 21 => "St. Catherine"
    case 22 => "St. Catherine"
    case 23 => "St. Catherine"
    case 24 => "St. Catherine"
    case 25 => "St. Catherine"
    case 26 => "St. Thomas"
    case 27 => "St. Thomas"
    case 28 => "Portland"
    case 29 => "Portland"
    case 30 => "St. Mary"
    case 31 => "St. Mary"
    case 32 => "St. Mary"
    case 33 => "St. Ann"
    case 34 => "St. Ann"
    case 35 => "St. Ann"
    case 36 => "St. Ann"
    case 37 => "Trelawny"
    case 38 => "Trelawny"
    case 39 => "St. James"
    case 40 => "St. James"
    case 41 => "St. James"
    case 42 => "St. James"
    case 43 => "St. James"
    case 44 => "Hanover"
    case 45 => "Hanover"
    case 46 => "Clarendon"
    case 47 => "Clarendon"
    case 48 => "Clarendon"
    case 49 => "Clarendon"
    case 50 => "Clarendon"
    case 51 => "Clarendon"
    case 52 => "Manchester"
    case 53 => "Manchester"
    case 54 => "Manchester"
    case 55 => "Manchester"
    case 56 => "St. Elizabeth"
    case 57 => "St. Elizabeth"
    case 58 => "St. Elizabeth"
    case 59 => "St. Elizabeth"
    case 60 => "Westmoreland"
    case 61 => "Westmoreland"
    case _ => "Westmoreland"
  }

  /** `get_constituency_count()`: the table has 63 rows. */
  function GetConstituencyCount(): (n: nat)
    ensures n == 63
  {
    |Constituencies()|
  }

  // ---------------------------------------------------------------------
  // The name index
  // ---------------------------------------------------------------------

  /** The assignments of `{c.name.lower(): c for c in _CONSTITUENCIES}`. */
  function NameEntries(cs: seq<Constituency>): (es: seq<(string, Constituency)>)
    ensures |es| == |cs|
    ensures forall i :: 0 <= i < |cs| ==> es[i] == (Lower(cs[i].name), cs[i])
  {
    Map(cs, (c: Constituency) => (Lower(c.name), c))
  }

  /** `get_constituency(name)`: `_BY_NAME_LOWER.get(name.lower())`. */
  function GetConstituency(cs: seq<Constituency>, name: string): Option<Constituency>
  {
    var byName := DictOf(NameEntries(cs));
    var key := Lower(name);
    if key in byName then Some(byName[key]) else None
  }

  /** A constituency is found exactly when one has the name in any case;
      it has that name, and when several do, the comprehension keeps the
      last of them. */
  lemma GetConstituencySpec(cs: seq<Constituency>, name: string)
    ensures GetConstituency(cs, name).Some? <==> exists c :: c in cs && Lower(c.name) == Lower(name)
    ensures GetConstituency(cs, name).Some? ==>
      exists i :: 0 <= i < |cs| && GetConstituency(cs, name).value == cs[i] && Lower(cs[i].name) == Lower(name)
        && forall j :: i < j < |cs| ==> Lower(cs[j].name) != Lower(name)
  {
    var es := NameEntries(cs);
    var key := Lower(name);
    DictOfSpec(es);
    if key in DictOf(es) {
      DictOfLast(es, key);
      var i: nat :| LastAssignment(es, key, i) && DictOf(es)[key] == es[i].1;
      assert cs[i] in cs;
    } else {
      forall c | c in cs
        ensures Lower(c.name) != key
      {
        var i :| 0 <= i < |cs| && cs[i] == c;
        assert es[i].0 == Lower(c.name);
      }
    }
  }

  // ---------------------------------------------------------------------
  // The parish index
  // ---------------------------------------------------------------------

  /** The entry under a key: the list, or the empty list when absent. */
  function Entry(index: map<string, seq<Constituency>>, key: string): seq<Constituency>
  {
    if key in index then index[key] else []
  }

  /** `_BY_PARISH_LOWER` after the import-time loop over `cs`:
      `setdefault(key, []).append(c)` for each constituency in turn. */
  function ParishIndex(cs: seq<Constituency>): map<string, seq<Constituency>>
  {
    if cs == [] then map[]
    else
      var index := ParishIndex(cs[..|cs| - 1]);
      var c := cs[|cs| - 1];
      var key := Lower(c.parish);
      index[key := Entry(index, key) + [c]]
  }

  predicate InParish(key: string, c: Constituency)
  {
    Lower(c.parish) == key
  }

  /** One more constituency appends it to its parish's entry. */
  lemma ParishIndexStep(cs: seq<Constituency>, i: nat)
    requires i < |cs|
    ensures var index := ParishIndex(cs[..i]);
      var key := Lower(cs[i].parish);
      ParishIndex(cs[..i + 1]) == index[key := Entry(index, key) + [cs[i]]]
  {
    assert cs[..i + 1][..i] == cs[..i];
  }

  /** Under each key, the index holds the constituencies of that parish
      in table order. */
  lemma {:induction false} ParishIndexEntry(cs: seq<Constituency>, key: string)
    ensures Entry(ParishIndex(cs), key) == Filter(cs, c => InParish(key, c))
  {
    if cs != [] {
      var n := |cs| - 1;
      var front := cs[..n];
      var last := cs[n];
      ParishIndexEntry(front, key);
      assert cs == front + [last];
      FilterConcat(front, [last], c => InParish(key, c));
      assert Filter([last], c => InParish(key, c)) == if InParish(key, last) then [last] else [];
    }
  }

  /** No key of the index holds an empty list. */
  lemma {:induction false} ParishIndexNonEmpty(cs: seq<Constituency>, key: string)
    requires key in ParishIndex(cs)
    ensures ParishIndex(cs)[key] != []
  {
    var front := cs[..|cs| - 1];
    if key != Lower(cs[|cs| - 1].parish) {
      ParishIndexNonEmpty(front, key);
    }
  }

  /** The index holds a key exactly when some constituency's lower-cased
      parish is that key, and under each key the constituencies of that
      parish in table order. */
  lemma ParishIndexSpec(cs: seq<Constituency>, key: string)
    ensures key in ParishIndex(cs) <==> exists i :: 0 <= i < |cs| && Lower(cs[i].parish) == key
    ensures Entry(ParishIndex(cs), key) == Filter(cs, c => InParish(key, c))
  {
    ParishIndexEntry(cs, key);
    var found := Filter(cs, c => InParish(key, c));
    if key in ParishIndex(cs) {
      ParishIndexNonEmpty(cs, key);
      assert found[0] in cs;
    }
  }

  /** The import-time loop that fills `_BY_PARISH_LOWER`. */
  method BuildParishIndex(cs: seq<Constituency>) returns (index: map<string, seq<Constituency>>)
    ensures index == ParishIndex(cs)
  {
    index := map[];
    var i := 0;
    while i < |cs|
      invariant i <= |cs|
      invariant index == ParishIndex(cs[..i])
    {
      var c := cs[i];
      var key := Lower(c.parish);
      ParishIndexStep(cs, i);
      var entry := if key in index then index[key] else [];
      index := index[key := entry + [c]];
      i := i + 1;
    }
    assert cs[..i] == cs;
  }

  /** `get_constituency_by_parish(parish)`: a copy of the index entry, or
      the empty list for a parish with no entry. */
  function GetConstituencyByParish(cs: seq<Constituency>, parish: string): seq<Constituency>
  {
    var index := ParishIndex(cs);
    var key := Lower(parish);
    if key in index then index[key] else []
  }

  /** Looking a parish up in the index is filtering the table by the
      lower-cased parish: the table's order, and nothing for an unknown
      parish. */
  lemma ByParishIsFilter(cs: seq<Constituency>, parish: string)
    ensures GetConstituencyByParish(cs, parish) == Filter(cs, c => InParish(Lower(parish), c))
    ensures (forall c :: c in cs ==> Lower(c.parish) != Lower(parish)) ==> GetConstituencyByParish(cs, parish) == []
  {
    ParishIndexSpec(cs, Lower(parish));
    if forall c :: c in cs ==> Lower(c.parish) != Lower(parish) {
      FilterNone(cs, c => InParish(Lower(parish), c));
    }
  }

  // ---------------------------------------------------------------------
  // Search and counts
  // ---------------------------------------------------------------------

  predicate NameContains(needle: string, c: Constituency)
  {
    Contains(Lower(c.name), needle)
  }

  /** `search_constituencies(query)`: the constituencies whose lower-cased
      name contains the lower-cased query, in table order. */
  function SearchConstituencies(cs: seq<Constituency>, query: string): (r: seq<Constituency>)
    ensures forall c :: c in r <==> c in cs && Contains(Lower(c.name), Lower(query))
  {
    Filter(cs, c => NameContains(Lower(query), c))
  }

  /** A constituency found by name is among the search hits for that
      name. */
  lemma FoundIsSearched(cs: seq<Constituency>, name: string)
    requires GetConstituency(cs, name).Some?
    ensures GetConstituency(cs, name).value in SearchConstituencies(cs, name)
  {
    GetConstituencySpec(cs, name);
    ContainsSelf(Lower(name));
  }

  /** The parish of each constituency, in table order. */
  function ParishColumn(cs: seq<Constituency>): (ps: seq<string>)
    ensures |ps| == |cs|
    ensures forall i :: 0 <= i < |cs| ==> ps[i] == cs[i].parish
  {
    Map(cs, (c: Constituency) => c.parish)
  }

  /** `get_constituency_count_by_parish()`: each parish once, in order of
      first appearance, with its number of constituencies; the counts add
      up to the number of rows, 63 for the module's table. */
  method GetConstituencyCountByParish(cs: seq<Constituency>) returns (counts: seq<(string, nat)>)
    ensures CountsOf(counts, ParishColumn(cs))
    ensures Total(counts) == |cs|
  {
    counts := CountByKey(ParishColumn(cs));
  }

  // ---------------------------------------------------------------------
  // The sorted parishes
  // ---------------------------------------------------------------------

  predicate StrictlySorted(r: seq<string>)
  {
    forall i, j :: 0 <= i < j < |r| ==> LexLess(r[i], r[j])
  }

  /** Inserting a new string into a strictly sorted list at its place. */
  function InsertSorted(r: seq<string>, x: string): (s: seq<string>)
    requires StrictlySorted(r) && x !in r
    ensures StrictlySorted(s)
    ensures forall y :: y in s <==> y in r || y == x
  {
    if r == [] then [x]
    else if LexLess(x, r[0]) then
      LexLessAbove(r, x);
      [x] + r
    else
      LexLessTotal(x, r[0]);
      var rest := InsertSorted(r[1..], x);
      assert forall y :: y in rest ==> LexLess(r[0], y);
      [r[0]] + rest
  }

  /** A string below the head of a strictly sorted list is below all of
      it. */
  lemma LexLessAbove(r: seq<string>, x: string)
    requires StrictlySorted(r) && r != [] && LexLess(x, r[0])
    ensures forall j :: 0 <= j < |r| ==> LexLess(x, r[j])
  {
    forall j | 0 < j < |r|
      ensures LexLess(x, r[j])
    {
      LexLessTransitive(x, r[0], r[j]);
    }
  }

  /** `sorted(seen)`: the strings of the set in increasing order. */
  method SortedSet(seen: set<string>) returns (r: seq<string>)
    ensures StrictlySorted(r)
    ensures forall x :: x in r <==> x in seen
  {
    r := [];
    var rest := seen;
    while rest != {}
      invariant StrictlySorted(r)
      invariant forall x :: x in seen <==> x in r || x in rest
      invariant forall x :: x in r ==> x !in rest
      decreases |rest|
    {
      var x :| x in rest;
      r := InsertSorted(r, x);
      rest := rest - {x};
    }
  }

  /** A strictly sorted list is fixed by its elements, so whatever sort
      produced it, the result is the same. */
  lemma {:induction false} SortedUnique(a: seq<string>, b: seq<string>)
    requires StrictlySorted(a) && StrictlySorted(b)
    requires forall x :: x in a <==> x in b
    ensures a == b
  {
    if a != [] {
      assert a[0] in b;
    }
    if b != [] {
      assert b[0] in a;
    }
    if a != [] && b != [] {
      SortedHead(a, b[0]);
      SortedHead(b, a[0]);
      LexLessAsymmetric(a[0], b[0]);
      forall x
        ensures x in a[1..] <==> x in b[1..]
      {
        if x in a[1..] {
          var i :| 1 <= i < |a| && a[i] == x;
          SortedDistinctFromHead(a, i);
          assert x in b && b == [b[0]] + b[1..];
        }
        if x in b[1..] {
          var j :| 1 <= j < |b| && b[j] == x;
          SortedDistinctFromHead(b, j);
          assert x in a && a == [a[0]] + a[1..];
        }
      }
      SortedUnique(a[1..], b[1..]);
    }
  }

  /** The head of a strictly sorted list is its least element. */
  lemma SortedHead(r: seq<string>, x: string)
    requires StrictlySorted(r) && x in r
    ensures r[0] == x || LexLess(r[0], x)
  {
  }

  lemma SortedDistinctFromHead(r: seq<string>, i: nat)
    requires StrictlySorted(r) && 0 < i < |r|
    ensures r[i] != r[0]
  {
    LexLessIrreflexive(r[0]);
  }

  /** `get_parishes()`: the distinct parishes of the table, sorted. */
  method GetParishes(cs: seq<Constituency>) returns (r: seq<string>)
    ensures StrictlySorted(r)
    ensures forall p :: p in r <==> exists c :: c in cs && c.parish == p
  {
    var seen: set<string> := {};
    var i := 0;
    while i < |cs|
      invariant i <= |cs|
      invariant forall p :: p in seen <==> exists j :: 0 <= j < i && cs[j].parish == p
    {
      seen := seen + {cs[i].parish};
      i := i + 1;
    }
    r := SortedSet(seen);
  }
}
