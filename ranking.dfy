/**
 * The nearest-stations selection of `loadChargingStationsNearest`: the listed
 * stations get their distance to the query point (`forEach(s => s._km = ...)`),
 * are sorted ascending by that distance with the engine's stable
 * `Array.prototype.sort`, and the first five are kept (`slice(0, 5)`).
 */
module Ranking {
  import opened Text
  import opened Values
  import opened Stations

  /** The point the locator measures from. A geocoded point may be NaN or infinite: app.js does not check it. */
  datatype Query = Query(lat: Num, lon: Num)

  /** A listed station with its `_km` sort key and its position in the list of listed stations. */
  datatype Entry = Entry(station: Station, km: real, pos: nat)

  /** The size of the result, `slice(0, 5)`. */
  const TopN: nat := 5

  /**
   * The sort key `_km`. For a finite query point it is `haversineKm` to the
   * station. For a non-finite one every `_km` is NaN in JavaScript, every
   * comparison `a._km - b._km` is NaN, which the sort reads as a tie; the model
   * gives every station the same key 0, which the sort reads the same way.
   */
  function Key(q: Query, s: Station, env: Numerics): (k: real)
    requires Listed(s)
    ensures q.lat.Finite? && q.lon.Finite? ==> k == env.haversineKm(q.lat.r, q.lon.r, s.lat.value.r, s.lon.value.r)
    ensures !(q.lat.Finite? && q.lon.Finite?) ==> k == 0.0
  {
    if q.lat.Finite? && q.lon.Finite? then env.haversineKm(q.lat.r, q.lon.r, s.lat.value.r, s.lon.value.r)
    else 0.0
  }

  /**
   * The listed stations with their keys and positions, in list order: one entry
   * per station, positions increasing along the list, so that for a query point
   * that is not finite (every key the same) the list is already in order.
   */
  function Ranked(stations: seq<Station>, q: Query, env: Numerics): (r: seq<Entry>)
    requires forall k :: 0 <= k < |stations| ==> Listed(stations[k])
    ensures |r| == |stations|
    ensures forall k :: 0 <= k < |r| ==> r[k] == Entry(stations[k], Key(q, stations[k], env), k)
    ensures forall i, j :: 0 <= i < j < |r| ==> r[i].pos < r[j].pos
    ensures !(q.lat.Finite? && q.lon.Finite?) ==> InOrder(r)
  {
    seq(|stations|, k requires 0 <= k < |stations| => Entry(stations[k], Key(q, stations[k], env), k))
  }

  /** The entries the selector ranks for a dataset. */
  function Candidates(feats: seq<Feature>, q: Query, env: Numerics): seq<Entry> {
    Ranked(ListedStations(feats, env), q, env)
  }

  /** `a` comes before `b` in the sorted list: nearer, or as near and earlier in the list. */
  predicate Before(a: Entry, b: Entry) {
    a.km < b.km || (a.km == b.km && a.pos < b.pos)
  }

  /** Ascending by distance, ties in list order: what a stable ascending sort by `_km` produces. */
  predicate InOrder(s: seq<Entry>) {
    forall i, j :: 0 <= i < j < |s| ==> Before(s[i], s[j])
  }

  function Min(a: nat, b: nat): nat {
    if a < b then a else b
  }

  // ------------------------------------------------------------ sort in place

  /** Positions increase from the prefix `a[..i]` into the rest of the array. */
  ghost predicate PosSplit(a: seq<Entry>, i: int) {
    forall k, l :: 0 <= k < l < |a| && i <= l ==> a[k].pos < a[l].pos
  }

  /**
   * `stations.sort((a, b) => a._km - b._km)` on entries whose positions increase
   * along the array: insertion sort, moving each entry left past the entries
   * strictly farther away, so entries at the same distance keep their order.
   */
  method SortByDistance(a: array<Entry>)
    requires forall i, j :: 0 <= i < j < a.Length ==> a[i].pos < a[j].pos
    modifies a
    ensures multiset(a[..]) == multiset(old(a[..]))
    ensures InOrder(a[..])
  {
    var i := 0;
    while i < a.Length
      invariant 0 <= i <= a.Length
      invariant InOrder(a[..i])
      invariant PosSplit(a[..], i)
      invariant multiset(a[..]) == multiset(old(a[..]))
    {
      InsertAt(a, i);
      i := i + 1;
    }
    assert a[..a.Length] == a[..];
  }

  /** One step of the insertion sort: `a[i]` moves left into the sorted prefix `a[..i]`. */
  method InsertAt(a: array<Entry>, i: nat)
    requires i < a.Length
    requires InOrder(a[..i])
    requires PosSplit(a[..], i)
    modifies a
    ensures InOrder(a[..i + 1])
    ensures PosSplit(a[..], i + 1)
    ensures multiset(a[..]) == multiset(old(a[..]))
  {
    var j := i;
    InsertStart(a[..], i);
    while j > 0 && a[j - 1].km > a[j].km
      invariant 0 <= j <= i < a.Length
      invariant Inserting(a[..], i, j)
      invariant multiset(a[..]) == multiset(old(a[..]))
    {
      ghost var before := a[..];
      a[j - 1], a[j] := a[j], a[j - 1];
      assert a[..] == Swap(before, j);
      SwapStep(before, i, j);
      j := j - 1;
    }
    InsertDone(a[..], i, j);
  }

  /**
   * The state of an insertion step moving the entry at `j` left: the other
   * entries of `s[..i + 1]` are in order, the moving entry comes before those to
   * its right and has the largest position of the prefix, and positions still
   * increase from the prefix into the rest.
   */
  ghost predicate Inserting(s: seq<Entry>, i: nat, j: nat) {
    && j <= i < |s|
    && (forall k, l :: 0 <= k < l <= i && k != j && l != j ==> Before(s[k], s[l]))
    && (forall l :: j < l <= i ==> Before(s[j], s[l]))
    && (forall k :: 0 <= k <= i && k != j ==> s[k].pos < s[j].pos)
    && PosSplit(s, i + 1)
  }

  /** `s` with the entries at `j - 1` and `j` exchanged. */
  function Swap(s: seq<Entry>, j: nat): (r: seq<Entry>)
    requires 0 < j < |s|
    ensures |r| == |s| && r[j - 1] == s[j] && r[j] == s[j - 1]
    ensures forall k :: 0 <= k < |s| && k != j - 1 && k != j ==> r[k] == s[k]
  {
    s[j - 1 := s[j]][j := s[j - 1]]
  }

  lemma InsertStart(s: seq<Entry>, i: nat)
    requires i < |s| && InOrder(s[..i]) && PosSplit(s, i)
    ensures Inserting(s, i, i)
  {
    forall k, l | 0 <= k < l <= i && k != i && l != i ensures Before(s[k], s[l]) {
      assert s[k] == s[..i][k] && s[l] == s[..i][l];
    }
  }

  /** Exchanging the moving entry with a farther neighbour keeps the step's state and the entries. */
  lemma SwapStep(s: seq<Entry>, i: nat, j: nat)
    requires Inserting(s, i, j) && 0 < j && s[j - 1].km > s[j].km
    ensures Inserting(Swap(s, j), i, j - 1)
    ensures multiset(Swap(s, j)) == multiset(s)
  {
    var r := Swap(s, j);
    assert r == s[j - 1 := s[j]][j := s[j - 1]];
    forall l | j - 1 < l <= i ensures Before(r[j - 1], r[l]) {
      if l == j {
        assert r[l] == s[j - 1];
      } else {
        assert r[l] == s[l];
      }
    }
  }

  /** When the moving entry stops, the prefix `s[..i + 1]` is in order. */
  lemma InsertDone(s: seq<Entry>, i: nat, j: nat)
    requires Inserting(s, i, j) && (j == 0 || s[j - 1].km <= s[j].km)
    ensures InOrder(s[..i + 1])
    ensures PosSplit(s, i + 1)
  {
    forall k, l | 0 <= k < l <= i ensures Before(s[k], s[l]) {
      if k < j && l == j {
        assert Before(s[k], s[j - 1]) || k == j - 1;
      }
    }
  }

  // ------------------------------------------------------------- selection

  /**
   * The stations `loadChargingStationsNearest` shows: the candidates in the
   * reference order, cut to the first five.
   */
  function TopNearest(feats: seq<Feature>, q: Query, env: Numerics): (r: seq<Entry>)
    ensures |r| == Min(TopN, |ListedStations(feats, env)|)
  {
    var sorted := SortedByDistance(Candidates(feats, q, env));
    sorted[..Min(TopN, |sorted|)]
  }

  /**
   * What the shown stations are: min(5, number of listed stations) of them,
   * every one a listed candidate, ascending by distance with ties in dataset
   * order, none of the candidates left out nearer than (or as near as and
   * earlier than) one that is shown, and none at all exactly when no station
   * of the dataset is listed.
   */
  lemma TopNearestProperties(feats: seq<Feature>, q: Query, env: Numerics)
    ensures |TopNearest(feats, q, env)| == Min(TopN, |ListedStations(feats, env)|)
    ensures TopNearest(feats, q, env) == [] <==> ListedStations(feats, env) == []
    ensures forall k :: 0 <= k < |TopNearest(feats, q, env)| ==>
              TopNearest(feats, q, env)[k] in Candidates(feats, q, env) && Listed(TopNearest(feats, q, env)[k].station)
    ensures InOrder(TopNearest(feats, q, env))
    ensures forall e :: e in Candidates(feats, q, env) && e !in TopNearest(feats, q, env) ==>
              forall k :: 0 <= k < |TopNearest(feats, q, env)| ==> Before(TopNearest(feats, q, env)[k], e)
  {
    var ranked := Candidates(feats, q, env);
    var sorted := SortedByDistance(ranked);
    var n := Min(TopN, |sorted|);
    var top := sorted[..n];
    assert TopNearest(feats, q, env) == top;
    assert DistinctPos(ranked);
    SortedByDistanceOrdered(ranked);
    PrefixOfSorted(sorted, ranked, n);
    forall k | 0 <= k < n ensures Listed(top[k].station) {
      var m :| 0 <= m < |ranked| && ranked[m] == top[k];
    }
  }

  /**
   * A query point that is not finite (a geocoding match without a usable `lat`
   * or `lon`) ranks nothing: the stations shown are the first five listed ones
   * in dataset order.
   */
  lemma NonFiniteQueryKeepsDatasetOrder(feats: seq<Feature>, q: Query, env: Numerics)
    requires !(q.lat.Finite? && q.lon.Finite?)
    ensures |TopNearest(feats, q, env)| == Min(TopN, |ListedStations(feats, env)|)
    ensures forall k :: 0 <= k < |TopNearest(feats, q, env)| ==>
              TopNearest(feats, q, env)[k].station == ListedStations(feats, env)[k]
  {
    var ranked := Candidates(feats, q, env);
    assert InOrder(ranked);
    SortedByDistanceOrdered(ranked);
    InOrderUnique(SortedByDistance(ranked), ranked);
  }

  /**
   * Lines 206-210 of `loadChargingStationsNearest`: the listed stations, each
   * given its distance to `q` (`forEach`), sorted in place nearest first, the
   * first five kept (`slice(0, 5)`). The result is `TopNearest`; in particular it
   * holds min(5, number of listed stations) entries in ascending order with ties
   * in dataset order, and no listed station at all gives the empty result, not
   * an error.
   */
  method Select(feats: seq<Feature>, q: Query, env: Numerics) returns (top: seq<Entry>)
    ensures top == TopNearest(feats, q, env)
    ensures |top| == Min(TopN, |ListedStations(feats, env)|)
    ensures top == [] <==> ListedStations(feats, env) == []
    ensures forall i, j :: 0 <= i < j < |top| ==> top[i].km <= top[j].km
    ensures forall i, j :: 0 <= i < j < |top| && top[i].km == top[j].km ==> top[i].pos < top[j].pos
  {
    var a := Keyed(ListedStations(feats, env), q, env);
    SortByDistance(a);
    SortedIsReference(a[..], feats, q, env);
    top := a[..Min(TopN, a.Length)];
    TopNearestProperties(feats, q, env);
  }

  /** `stations.forEach(s => s._km = haversineKm(lat, lon, s.lat, s.lon))`, on a fresh array of entries. */
  method Keyed(stations: seq<Station>, q: Query, env: Numerics) returns (a: array<Entry>)
    requires forall k :: 0 <= k < |stations| ==> Listed(stations[k])
    ensures fresh(a)
    ensures a[..] == Ranked(stations, q, env)
  {
    a := new Entry[|stations|];
    for i := 0 to a.Length
      invariant forall k :: 0 <= k < i ==> a[k] == Entry(stations[k], Key(q, stations[k], env), k)
    {
      a[i] := Entry(stations[i], Key(q, stations[i], env), i);
    }
  }

  /** Any ordered permutation of the candidates is the reference order. */
  lemma SortedIsReference(sorted: seq<Entry>, feats: seq<Feature>, q: Query, env: Numerics)
    requires multiset(sorted) == multiset(Candidates(feats, q, env)) && InOrder(sorted)
    ensures sorted == SortedByDistance(Candidates(feats, q, env))
  {
    var ranked := Candidates(feats, q, env);
    assert DistinctPos(ranked);
    SortedByDistanceOrdered(ranked);
    InOrderUnique(sorted, SortedByDistance(ranked));
  }

  /**
   * The first `n` entries of a sorted permutation of the candidates are members
   * of the candidates, in order, and come before every candidate left out.
   */
  lemma PrefixOfSorted(sorted: seq<Entry>, ranked: seq<Entry>, n: nat)
    requires multiset(sorted) == multiset(ranked) && InOrder(sorted) && n <= |sorted|
    ensures forall k :: 0 <= k < n ==> sorted[..n][k] in ranked
    ensures InOrder(sorted[..n])
    ensures forall e :: e in ranked && e !in sorted[..n] ==> forall k :: 0 <= k < n ==> Before(sorted[..n][k], e)
  {
    var top := sorted[..n];
    forall e | e in ranked && e !in top
      ensures forall k :: 0 <= k < n ==> Before(top[k], e)
    {
      assert e in multiset(sorted);
      assert forall k :: 0 <= k < n ==> sorted[k] == top[k];
      var m :| 0 <= m < |sorted| && sorted[m] == e;
      assert n <= m;
    }
    forall k | 0 <= k < n ensures top[k] in ranked {
      assert top[k] in multiset(sorted);
    }
  }

  // ------------------------------------------------------ reference order

  /** No two entries share a list position: true of every list of candidates. */
  predicate DistinctPos(s: seq<Entry>) {
    forall i, j :: 0 <= i < j < |s| ==> s[i].pos != s[j].pos
  }

  /** `e` placed in the ordered list `s` after every entry that comes before it. */
  function Insert(e: Entry, s: seq<Entry>): (r: seq<Entry>)
    ensures |r| == |s| + 1
  {
    if s == [] then [e]
    else if Before(s[0], e) then [s[0]] + Insert(e, s[1..])
    else [e] + s
  }

  /** A reference definition of the stable ascending sort by `_km`, independent of `SortByDistance`. */
  function SortedByDistance(s: seq<Entry>): (r: seq<Entry>)
    ensures |r| == |s|
  {
    if s == [] then [] else Insert(s[0], SortedByDistance(s[1..]))
  }

  lemma {:induction false} InsertOrdered(e: Entry, s: seq<Entry>)
    requires InOrder(s)
    requires forall k :: 0 <= k < |s| ==> s[k].pos != e.pos
    ensures multiset(Insert(e, s)) == multiset(s) + multiset{e}
    ensures InOrder(Insert(e, s))
  {
    InsertKeeps(e, s);
    if s != [] {
      if Before(s[0], e) {
        var rest := Insert(e, s[1..]);
        InsertOrdered(e, s[1..]);
        assert multiset(s) == multiset{s[0]} + multiset(s[1..]) by {
          assert s == [s[0]] + s[1..];
        }
        forall x | x in rest ensures Before(s[0], x) {
          assert x in multiset(rest);
        }
        OrderedCons(s[0], rest);
      } else {
        assert Before(e, s[0]);
        OrderedCons(e, s);
      }
    }
  }

  /** Inserting adds exactly the inserted entry. */
  lemma {:induction false} InsertKeeps(e: Entry, s: seq<Entry>)
    ensures multiset(Insert(e, s)) == multiset(s) + multiset{e}
  {
    if s != [] {
      assert s == [s[0]] + s[1..];
      if Before(s[0], e) {
        InsertKeeps(e, s[1..]);
      }
    }
  }

  /** An entry that comes before every entry of an ordered list can be put in front of it. */
  lemma OrderedCons(x: Entry, rest: seq<Entry>)
    requires InOrder(rest)
    requires forall y :: y in rest ==> Before(x, y)
    ensures InOrder([x] + rest)
  {
    var s := [x] + rest;
    forall i, j | 0 <= i < j < |s| ensures Before(s[i], s[j]) {
      assert s[j] == rest[j - 1];
      if i > 0 {
        assert s[i] == rest[i - 1];
      }
    }
  }

  /** The reference sort orders a list of distinct positions and keeps its entries. */
  lemma {:induction false} SortedByDistanceOrdered(s: seq<Entry>)
    requires DistinctPos(s)
    ensures multiset(SortedByDistance(s)) == multiset(s)
    ensures InOrder(SortedByDistance(s))
  {
    if s != [] {
      assert s == [s[0]] + s[1..];
      var rest := SortedByDistance(s[1..]);
      SortedByDistanceOrdered(s[1..]);
      forall k | 0 <= k < |rest| ensures rest[k].pos != s[0].pos {
        assert rest[k] in multiset(s[1..]);
      }
      InsertOrdered(s[0], rest);
    }
  }

  /**
   * Two arrangements of the same entries that are both in order are equal: the
   * stable order by distance is unique, so the result does not depend on which
   * sorting algorithm the JavaScript engine runs.
   */
  lemma {:induction false} InOrderUnique(s: seq<Entry>, t: seq<Entry>)
    requires InOrder(s) && InOrder(t) && multiset(s) == multiset(t)
    ensures s == t
  {
    if s == [] {
      assert |t| == |multiset(t)| == 0;
    } else {
      assert |t| == |multiset(t)| == |multiset(s)| == |s|;
      SameFirst(s, t);
      MultisetTail(s);
      MultisetTail(t);
      InOrderUnique(s[1..], t[1..]);
      assert s == [s[0]] + s[1..] && t == [t[0]] + t[1..];
    }
  }

  /** In-order arrangements of the same non-empty multiset start with the same entry. */
  lemma SameFirst(s: seq<Entry>, t: seq<Entry>)
    requires InOrder(s) && InOrder(t) && multiset(s) == multiset(t) && s != [] && t != []
    ensures s[0] == t[0]
  {
    assert s[0] in multiset(t) && t[0] in multiset(s);
    FirstComesFirst(s, t[0]);
    FirstComesFirst(t, s[0]);
  }

  /** The first entry of an ordered list is, or comes before, each of its entries. */
  lemma FirstComesFirst(s: seq<Entry>, x: Entry)
    requires InOrder(s) && x in s
    ensures s[0] == x || Before(s[0], x)
  {
    var k :| 0 <= k < |s| && s[k] == x;
    assert k == 0 || Before(s[0], s[k]);
  }

  lemma MultisetTail(s: seq<Entry>)
    requires s != []
    ensures multiset(s[1..]) == multiset(s) - multiset{s[0]}
  {
    assert s == [s[0]] + s[1..];
    assert multiset(s) == multiset([s[0]]) + multiset(s[1..]);
  }
}
