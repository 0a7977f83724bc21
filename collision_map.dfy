/** The data preparation of the collision map page: the citywide density
    grids of every month document are merged additively into one grid, which
    is then flattened into one point per position with its incident count.
    Projecting the positions to screen coordinates is not modelled. */
module CollisionMap {
  import opened Density
  import GeoTally

  /** The citywide grid of one month document. */
  function GridOf(doc: GeoTally.MonthDoc): Grid {
    doc.all.incidents.grid
  }

  /** The merge of the documents' grids, folded from the first document. */
  function Reduced(data: seq<GeoTally.MonthDoc>): Grid
    decreases |data|
  {
    if data == [] then map[] else Merge(Reduced(data[..|data| - 1]), GridOf(data[|data| - 1]))
  }

  /** The documents' counts at one position, added up. */
  function CellSum(data: seq<GeoTally.MonthDoc>, lat: string, lng: string): nat
    decreases |data|
  {
    if data == [] then 0 else CellSum(data[..|data| - 1], lat, lng) + Cell(GridOf(data[|data| - 1]), lat, lng)
  }

  /** The documents' totals, added up. */
  ghost function TotalSum(data: seq<GeoTally.MonthDoc>): nat
    decreases |data|
  {
    if data == [] then 0 else TotalSum(data[..|data| - 1]) + Total(GridOf(data[|data| - 1]))
  }

  /** Some document's grid has the position (lat, lng). */
  predicate PairInSome(data: seq<GeoTally.MonthDoc>, lat: string, lng: string) {
    exists i :: 0 <= i < |data| && HasPair(GridOf(data[i]), lat, lng)
  }

  /** Merges the documents' grids in order into one grid. */
  method MergeMonths(data: seq<GeoTally.MonthDoc>) returns (reduced: Grid)
    ensures reduced == Reduced(data)
  {
    reduced := map[];
    for i := 0 to |data|
      invariant reduced == Reduced(data[..i])
    {
      assert data[..i + 1][..i] == data[..i];
      reduced := MergeInto(reduced, GridOf(data[i]));
    }
    assert data[..|data|] == data;
  }

  /** Every position's merged count is the sum of the documents' counts there. */
  lemma {:induction false} ReducedCells(data: seq<GeoTally.MonthDoc>, lat: string, lng: string)
    ensures Cell(Reduced(data), lat, lng) == CellSum(data, lat, lng)
    decreases |data|
  {
    if data != [] {
      ReducedCells(data[..|data| - 1], lat, lng);
      MergeCell(Reduced(data[..|data| - 1]), GridOf(data[|data| - 1]), lat, lng);
    }
  }

  /** Some document has (lat, lng) exactly when one before the last does or the last does. */
  lemma PairInSomeLast(data: seq<GeoTally.MonthDoc>, lat: string, lng: string)
    requires data != []
    ensures PairInSome(data, lat, lng)
        <==> PairInSome(data[..|data| - 1], lat, lng) || HasPair(GridOf(data[|data| - 1]), lat, lng)
  {
    var p := data[..|data| - 1];
    if PairInSome(data, lat, lng) && !HasPair(GridOf(data[|data| - 1]), lat, lng) {
      var i :| 0 <= i < |data| && HasPair(GridOf(data[i]), lat, lng);
      assert p[i] == data[i];
    }
    if PairInSome(p, lat, lng) {
      var i :| 0 <= i < |p| && HasPair(GridOf(p[i]), lat, lng);
      assert data[i] == p[i];
    }
  }

  /** The merged positions are exactly the positions of the documents' grids. */
  lemma {:induction false} ReducedPairs(data: seq<GeoTally.MonthDoc>, lat: string, lng: string)
    ensures HasPair(Reduced(data), lat, lng) <==> PairInSome(data, lat, lng)
    decreases |data|
  {
    if data != [] {
      ReducedPairs(data[..|data| - 1], lat, lng);
      MergePairs(Reduced(data[..|data| - 1]), GridOf(data[|data| - 1]), lat, lng);
      PairInSomeLast(data, lat, lng);
    }
  }

  /** The merge conserves incidents: its total is the sum of the documents' totals. */
  lemma {:induction false} ReducedTotal(data: seq<GeoTally.MonthDoc>)
    ensures Total(Reduced(data)) == TotalSum(data)
    decreases |data|
  {
    if data == [] {
      TotalEmpty();
    } else {
      ReducedTotal(data[..|data| - 1]);
      MergeTotal(Reduced(data[..|data| - 1]), GridOf(data[|data| - 1]));
    }
  }

  /** One point of the flattened list. */
  datatype Point = Point(lat: string, lng: string, count: nat)

  /** The point is a position of `g` and carries its count. */
  predicate Entry(g: Grid, p: Point) {
    HasPair(g, p.lat, p.lng) && p.count == g[p.lat][p.lng]
  }

  /** No two points share a position. */
  predicate Distinct(list: seq<Point>) {
    forall i, j :: 0 <= i < j < |list| ==> list[i].lat != list[j].lat || list[i].lng != list[j].lng
  }

  /** Some point is at (lat, lng). */
  predicate Covered(list: seq<Point>, lat: string, lng: string) {
    exists i :: 0 <= i < |list| && list[i].lat == lat && list[i].lng == lng
  }

  /** Appending a point covers its position and keeps the others covered. */
  lemma CoveredAppend(list: seq<Point>, p: Point, lat: string, lng: string)
    ensures Covered(list + [p], lat, lng) <==> Covered(list, lat, lng) || (p.lat == lat && p.lng == lng)
  {
    var l := list + [p];
    if Covered(l, lat, lng) && !(p.lat == lat && p.lng == lng) {
      var i :| 0 <= i < |l| && l[i].lat == lat && l[i].lng == lng;
      assert list[i] == l[i];
    }
    if Covered(list, lat, lng) {
      var i :| 0 <= i < |list| && list[i].lat == lat && list[i].lng == lng;
      assert l[i] == list[i];
    }
    if p.lat == lat && p.lng == lng {
      assert l[|list|] == p;
    }
  }

  /** The outer loop invariant of `Flatten`: the latitudes left to visit are
      `todoLat`; every point is an entry of an already visited latitude; and
      every position of a visited latitude is covered. */
  ghost predicate OuterInv(reduced: Grid, todoLat: set<string>, list: seq<Point>) {
    && todoLat <= reduced.Keys
    && (forall i :: 0 <= i < |list| ==> Entry(reduced, list[i]) && list[i].lat !in todoLat)
    && Distinct(list)
    && (forall lat, lng :: HasPair(reduced, lat, lng) && lat !in todoLat ==> Covered(list, lat, lng))
  }

  /** The inner loop invariant of `Flatten` while the latitude `lat` is visited
      and its longitudes `todoLng` are left. */
  ghost predicate InnerInv(reduced: Grid, todoLat: set<string>, lat: string, todoLng: set<string>, list: seq<Point>) {
    && todoLat <= reduced.Keys && lat in todoLat
    && todoLng <= reduced[lat].Keys
    && (forall i :: 0 <= i < |list| ==>
          Entry(reduced, list[i]) && (list[i].lat !in todoLat || (list[i].lat == lat && list[i].lng !in todoLng)))
    && Distinct(list)
    && (forall lat', lng :: HasPair(reduced, lat', lng) && lat' !in todoLat ==> Covered(list, lat', lng))
    && (forall lng :: lng in reduced[lat] && lng !in todoLng ==> Covered(list, lat, lng))
  }

  /** Starting to visit a latitude. */
  lemma InnerStart(reduced: Grid, todoLat: set<string>, lat: string, list: seq<Point>)
    requires OuterInv(reduced, todoLat, list) && lat in todoLat
    ensures InnerInv(reduced, todoLat, lat, reduced[lat].Keys, list)
  {
  }

  /** Appending the point of one more longitude. */
  lemma InnerStep(reduced: Grid, todoLat: set<string>, lat: string, todoLng: set<string>, list: seq<Point>, lng: string)
    requires InnerInv(reduced, todoLat, lat, todoLng, list) && lng in todoLng
    ensures InnerInv(reduced, todoLat, lat, todoLng - {lng}, list + [Point(lat, lng, reduced[lat][lng])])
  {
    var p := Point(lat, lng, reduced[lat][lng]);
    var l := list + [p];
    forall lat', lng' | true ensures Covered(l, lat', lng') <==> Covered(list, lat', lng') || (lat' == lat && lng' == lng) {
      CoveredAppend(list, p, lat', lng');
    }
    assert forall i :: 0 <= i < |list| ==> l[i] == list[i];
  }

  /** Finishing a latitude. */
  lemma InnerEnd(reduced: Grid, todoLat: set<string>, lat: string, list: seq<Point>)
    requires InnerInv(reduced, todoLat, lat, {}, list)
    ensures OuterInv(reduced, todoLat - {lat}, list)
  {
  }

  /** Lists every position of `reduced` with its count, latitude by latitude. */
  method Flatten(reduced: Grid) returns (list: seq<Point>)
    ensures forall i :: 0 <= i < |list| ==> Entry(reduced, list[i])
    ensures Distinct(list)
    ensures forall lat, lng :: HasPair(reduced, lat, lng) ==> Covered(list, lat, lng)
    ensures reduced == map[] ==> list == []
  {
    list := [];
    var todoLat := reduced.Keys;
    while todoLat != {}
      invariant OuterInv(reduced, todoLat, list)
      invariant reduced == map[] ==> list == []
      decreases |todoLat|
    {
      var lat :| lat in todoLat;
      var todoLng := reduced[lat].Keys;
      InnerStart(reduced, todoLat, lat, list);
      while todoLng != {}
        invariant InnerInv(reduced, todoLat, lat, todoLng, list)
        decreases |todoLng|
      {
        var lng :| lng in todoLng;
        InnerStep(reduced, todoLat, lat, todoLng, list, lng);
        list := list + [Point(lat, lng, reduced[lat][lng])];
        todoLng := todoLng - {lng};
      }
      InnerEnd(reduced, todoLat, lat, list);
      todoLat := todoLat - {lat};
    }
  }

  /** The page's data preparation: merge the months, then flatten.  No
      months give no positions and no points. */
  method CollisionPoints(data: seq<GeoTally.MonthDoc>) returns (reduced: Grid, list: seq<Point>)
    ensures reduced == Reduced(data)
    ensures forall i :: 0 <= i < |list| ==> Entry(reduced, list[i])
    ensures Distinct(list)
    ensures forall lat, lng :: HasPair(reduced, lat, lng) ==> Covered(list, lat, lng)
    ensures data == [] ==> reduced == map[] && list == []
  {
    reduced := MergeMonths(data);
    list := Flatten(reduced);
  }
}
