/** Incident density maps: a two-level dictionary from a latitude key to a
    longitude key to the number of collisions recorded at that rounded
    position.  Keys are the fixed three-decimal strings the scripts produce;
    here they are opaque strings. */
module Density {
  import opened Counting

  /** latitude key -> longitude key -> incident count */
  type Grid = map<string, map<string, nat>>

  /** The longitudes recorded under `lat` (empty when the latitude is absent). */
  function RowOf(g: Grid, lat: string): map<string, nat> {
    if lat in g then g[lat] else map[]
  }

  /** The count at a position, 0 when it is absent. */
  function Cell(g: Grid, lat: string, lng: string): nat {
    Get(RowOf(g, lat), lng)
  }

  /** The position (lat, lng) is a key pair of the grid. */
  predicate HasPair(g: Grid, lat: string, lng: string) {
    lat in g && lng in g[lat]
  }

  /** The total of each latitude's row. */
  ghost function RowTotals(g: Grid): map<string, nat> {
    map lat | lat in g :: Sum(g[lat])
  }

  /** The sum of every count in the grid. */
  ghost function Total(g: Grid): nat {
    Sum(RowTotals(g))
  }

  /** An empty grid holds no incidents. */
  lemma TotalEmpty()
    ensures Total(map[]) == 0
  {
    assert RowTotals(map[]) == map[];
  }

  /** Additive merge: a position present on either side is present in the
      result, with the two counts added (absent counts as 0). */
  function Merge(a: Grid, b: Grid): Grid {
    map lat | lat in a.Keys + b.Keys :: AddCounts(RowOf(a, lat), RowOf(b, lat))
  }

  /** Every count of a merge is the sum of the operands' counts at that position. */
  lemma MergeCell(a: Grid, b: Grid, lat: string, lng: string)
    ensures Cell(Merge(a, b), lat, lng) == Cell(a, lat, lng) + Cell(b, lat, lng)
  {
  }

  /** The key pairs of a merge are the union of the key pairs of its operands. */
  lemma MergePairs(a: Grid, b: Grid, lat: string, lng: string)
    ensures lat in Merge(a, b) <==> lat in a || lat in b
    ensures HasPair(Merge(a, b), lat, lng) <==> HasPair(a, lat, lng) || HasPair(b, lat, lng)
  {
  }

  /** A row total read through `Get` is the sum of the row (0 for an absent latitude). */
  lemma RowTotalAt(g: Grid, lat: string)
    ensures Get(RowTotals(g), lat) == Sum(RowOf(g, lat))
  {
    assert Sum(map[]) == 0;
  }

  /** The row total of a merge at one latitude is the sum of the operands' row totals. */
  lemma MergeRowTotal(a: Grid, b: Grid, lat: string)
    ensures Get(RowTotals(Merge(a, b)), lat) == Get(RowTotals(a), lat) + Get(RowTotals(b), lat)
  {
    var m := Merge(a, b);
    RowTotalAt(m, lat);
    RowTotalAt(a, lat);
    RowTotalAt(b, lat);
    if lat in m {
      assert RowOf(m, lat) == AddCounts(RowOf(a, lat), RowOf(b, lat));
      SumAdd(RowOf(a, lat), RowOf(b, lat));
    }
  }

  /** The row totals of a merge are the pointwise sums of the operands' row totals. */
  lemma MergeRowTotals(a: Grid, b: Grid)
    ensures RowTotals(Merge(a, b)) == AddCounts(RowTotals(a), RowTotals(b))
  {
    var x, y := RowTotals(Merge(a, b)), AddCounts(RowTotals(a), RowTotals(b));
    assert x.Keys == y.Keys;
    forall lat ensures Get(x, lat) == Get(y, lat) {
      MergeRowTotal(a, b, lat);
    }
    CountsExt(x, y);
  }

  /** Merging conserves the total number of incidents. */
  lemma MergeTotal(a: Grid, b: Grid)
    ensures Total(Merge(a, b)) == Total(a) + Total(b)
  {
    MergeRowTotals(a, b);
    SumAdd(RowTotals(a), RowTotals(b));
  }

  /** One more incident at (lat, lng); every other position keeps its count. */
  function Bump(g: Grid, lat: string, lng: string): (r: Grid)
    ensures Cell(r, lat, lng) == Cell(g, lat, lng) + 1
    ensures forall lat', lng' :: lat' != lat || lng' != lng ==> Cell(r, lat', lng') == Cell(g, lat', lng')
    ensures forall lat', lng' :: HasPair(r, lat', lng') <==> HasPair(g, lat', lng') || (lat' == lat && lng' == lng)
  {
    g[lat := RowOf(g, lat)[lng := Cell(g, lat, lng) + 1]]
  }

  /** One more incident adds exactly one to the total. */
  lemma BumpTotal(g: Grid, lat: string, lng: string)
    ensures Total(Bump(g, lat, lng)) == Total(g) + 1
  {
    var row := RowOf(g, lat);
    SumUpdate(row, lng, Cell(g, lat, lng) + 1);
    assert Sum(map[]) == 0;
    assert RowTotals(Bump(g, lat, lng)) == RowTotals(g)[lat := Sum(row[lng := Cell(g, lat, lng) + 1])];
    SumUpdate(RowTotals(g), lat, Sum(row[lng := Cell(g, lat, lng) + 1]));
  }

  /** Before a latitude is merged in, the partial merge's row there is the accumulator's. */
  lemma RowOfMerge(acc: Grid, done: Grid, lat: string)
    requires lat !in done
    ensures RowOf(Merge(acc, done), lat) == RowOf(acc, lat)
  {
    if lat in acc {
      AddNothing(acc[lat]);
    }
  }

  /** The keys of a merge after one more latitude row has been inserted. */
  lemma MergeInsertKeys(acc: Grid, done: Grid, lat: string, row: map<string, nat>)
    ensures Merge(acc, done[lat := row]).Keys == Merge(acc, done).Keys + {lat}
  {
  }

  /** One latitude of a merge after one more latitude row has been inserted. */
  lemma MergeInsertAt(acc: Grid, done: Grid, lat: string, row: map<string, nat>, lat': string)
    requires lat !in done
    requires lat' in Merge(acc, done[lat := row])
    ensures Merge(acc, done[lat := row])[lat']
         == Merge(acc, done)[lat := AddCounts(RowOf(Merge(acc, done), lat), row)][lat']
  {
    if lat' == lat {
      RowOfMerge(acc, done, lat);
    } else {
      assert RowOf(done[lat := row], lat') == RowOf(done, lat');
    }
  }

  /** Merging one more latitude row into the right operand of `Merge`. */
  lemma MergeInsert(acc: Grid, done: Grid, lat: string, row: map<string, nat>)
    requires lat !in done
    ensures Merge(acc, done[lat := row]) == Merge(acc, done)[lat := AddCounts(RowOf(Merge(acc, done), lat), row)]
  {
    var x := Merge(acc, done[lat := row]);
    var y := Merge(acc, done)[lat := AddCounts(RowOf(Merge(acc, done), lat), row)];
    MergeInsertKeys(acc, done, lat, row);
    forall lat' | lat' in x ensures x[lat'] == y[lat'] {
      MergeInsertAt(acc, done, lat, row, lat');
    }
  }

  /** One iteration of `MergeInto`: the latitude `lat` of `g` is merged into the partial result. */
  lemma MergeIntoStep(acc: Grid, g: Grid, todo: set<string>, r: Grid, lat: string, row: map<string, nat>)
    requires todo <= g.Keys && lat in todo
    requires r == Merge(acc, g - todo)
    requires row == AddCounts(RowOf(r, lat), g[lat])
    ensures r[lat := row] == Merge(acc, g - (todo - {lat}))
  {
    MinusRestore(g, todo, lat);
    MergeInsert(acc, g - todo, lat, g[lat]);
  }

  /** Merging an empty grid into `acc` gives `acc` back. */
  lemma MergeNothing(acc: Grid)
    ensures Merge(acc, map[]) == acc
  {
    forall lat | lat in acc ensures Merge(acc, map[])[lat] == acc[lat] {
      AddNothing(acc[lat]);
    }
  }

  /** Adds every count of `g` into `acc`, latitude by latitude and within a
      latitude longitude by longitude, creating missing rows and cells. */
  method MergeInto(acc: Grid, g: Grid) returns (r: Grid)
    ensures r == Merge(acc, g)
  {
    r := acc;
    var todo := g.Keys;
    MinusAll(g);
    MergeNothing(acc);
    while todo != {}
      invariant todo <= g.Keys
      invariant r == Merge(acc, g - todo)
      decreases |todo|
    {
      var lat :| lat in todo;
      var row := AddInto(RowOf(r, lat), g[lat]);
      MergeIntoStep(acc, g, todo, r, lat, row);
      r := r[lat := row];
      todo := todo - {lat};
    }
    MinusNone(g, todo);
  }
}
