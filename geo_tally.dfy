/** The geo-aware collision aggregator.  It extends the basic aggregator with
    a required-column check that also asks for the coordinates, a skip of
    the partial month "Oct 2015", and per (month, borough) an incident count
    together with a density grid of incidents by rounded position.  Its
    finalizer also merges the boroughs' grids into the citywide rollup. */
module GeoTally {
  import opened Counting
  import opened Density
  import opened Names
  import opened Records
  import opened MonthOrder

  /** The month whose data is incomplete and is left out entirely. */
  const PartialMonth := "Oct 2015"

  /** The columns a row must carry as non-empty strings. */
  const RequiredColumns := ["BOROUGH", "LONGITUDE", "LATITUDE"]

  /** Every listed column is present as a non-empty string. */
  predicate HasAll(obj: map<string, string>, props: seq<string>) {
    forall i :: 0 <= i < |props| ==> HasString(obj, props[i])
  }

  /** The required-column check: walks the property names from the front
      and answers false at the first one that is absent or empty. */
  method AssertHasStringAttrs(obj: map<string, string>, props: seq<string>) returns (ok: bool)
    ensures ok <==> HasAll(obj, props)
  {
    var rest := props;
    while rest != []
      invariant |rest| <= |props| && rest == props[|props| - |rest|..]
      invariant HasAll(obj, props[..|props| - |rest|])
      decreases |rest|
    {
      var prop := rest[0];
      rest := rest[1..];
      if !HasString(obj, prop) {
        return false;
      }
      assert props[..|props| - |rest|] == props[..|props| - |rest| - 1] + [prop];
    }
    assert props[..|props|] == props;
    return true;
  }

  /** The incidents of one bucket: how many rows, and where. */
  datatype Incidents = Incidents(count: nat, grid: Grid)

  /** The running statistics of one (month, borough) bucket. */
  datatype Stats = Stats(deaths: nat, injuries: nat, incidents: Incidents)

  /** The bucket of one month: borough name -> statistics. */
  datatype MonthData = MonthData(breakdown: map<string, Stats>)

  /** The aggregator's state: the month buckets and the first-seen month order. */
  datatype State = State(months: map<string, MonthData>, order: seq<string>)

  /** The state before the first row. */
  const Empty := State(map[], [])

  /** The statistics of a bucket that has seen no row. */
  const NoStats := Stats(0, 0, Incidents(0, map[]))

  /** The row has a borough and both coordinates. */
  predicate HasRequired(fields: map<string, string>) {
    HasString(fields, "BOROUGH") && HasString(fields, "LONGITUDE") && HasString(fields, "LATITUDE")
  }

  /** The required-column check on the three columns is `HasRequired`. */
  lemma RequiredColumnsCheck(fields: map<string, string>)
    ensures HasAll(fields, RequiredColumns) <==> HasRequired(fields)
  {
    if HasRequired(fields) {
      forall i | 0 <= i < |RequiredColumns| ensures HasString(fields, RequiredColumns[i]) {
        assert RequiredColumns[i] in {"BOROUGH", "LONGITUDE", "LATITUDE"};
      }
    }
    if HasAll(fields, RequiredColumns) {
      assert HasString(fields, RequiredColumns[0]);
      assert HasString(fields, RequiredColumns[1]);
      assert HasString(fields, RequiredColumns[2]);
    }
  }

  /** A row is kept when it has a borough and both coordinates and its month
      is not the partial month. */
  predicate Accepted(row: Row) {
    HasRequired(row.fields) && row.month != PartialMonth
  }

  /** The (month, borough) bucket exists. */
  predicate Has(s: State, m: string, b: string) {
    m in s.months && b in s.months[m].breakdown
  }

  /** The statistics of a bucket, empty when it does not exist. */
  function At(s: State, m: string, b: string): Stats {
    if Has(s, m, b) then s.months[m].breakdown[b] else NoStats
  }

  /** The state invariant: `order` lists every month key exactly once, the
      partial month is never a key, and every bucket's incident count is the
      sum of its grid. */
  ghost predicate Consistent(s: State) {
    && NoDup(s.order)
    && (forall m :: m in s.order <==> m in s.months)
    && PartialMonth !in s.months
    && forall m, b :: Has(s, m, b) ==> At(s, m, b).incidents.count == Total(At(s, m, b).incidents.grid)
  }

  /** The statistics after one more row at (lat, lng). */
  function Record(st: Stats, row: Row): Stats {
    Stats(st.deaths + row.killed, st.injuries + row.injured,
          Incidents(st.incidents.count + 1, Bump(st.incidents.grid, row.lat, row.lng)))
  }

  /** The effect of one row: a rejected row changes nothing; an accepted row
      registers its month if it is new and records itself in its bucket. */
  function Step(s: State, row: Row): (r: State)
    ensures !Accepted(row) ==> r == s
  {
    if !Accepted(row) then s
    else
      var b := BoroughOf(row);
      var md := if row.month in s.months then s.months[row.month] else MonthData(map[]);
      var st := if b in md.breakdown then md.breakdown[b] else NoStats;
      var order := if row.month in s.months then s.order else s.order + [row.month];
      State(s.months[row.month := MonthData(md.breakdown[b := Record(st, row)])], order)
  }

  /** The row is accepted and belongs to bucket (m, b). */
  predicate Matches(row: Row, m: string, b: string) {
    Accepted(row) && row.month == m && BoroughOf(row) == b
  }

  /** A row records itself in its own bucket (one more incident, one more at
      its position, its killed and injured counts added), creating the
      bucket if needed, and leaves every other bucket as it was. */
  lemma StepBucket(s: State, row: Row, m: string, b: string)
    ensures Has(Step(s, row), m, b) <==> Has(s, m, b) || Matches(row, m, b)
    ensures At(Step(s, row), m, b) == if Matches(row, m, b) then Record(At(s, m, b), row) else At(s, m, b)
  {
  }

  /** A month is appended to `order` exactly when an accepted row brings a
      month that is not yet a key; the month keys grow by the row's month. */
  lemma StepMonths(s: State, row: Row)
    ensures Step(s, row).order == if Accepted(row) && row.month !in s.months then s.order + [row.month] else s.order
    ensures forall m :: m in Step(s, row).months <==> m in s.months || (Accepted(row) && m == row.month)
  {
  }

  /** Every row preserves the state invariant. */
  lemma StepConsistent(s: State, row: Row)
    requires Consistent(s)
    ensures Consistent(Step(s, row))
  {
    StepMonths(s, row);
    var r := Step(s, row);
    forall m, b | Has(r, m, b) ensures At(r, m, b).incidents.count == Total(At(r, m, b).incidents.grid) {
      StepBucket(s, row, m, b);
      if Matches(row, m, b) {
        TotalEmpty();
        BumpTotal(At(s, m, b).incidents.grid, row.lat, row.lng);
      }
    }
  }

  /** The state after the rows, in order. */
  function Fold(s: State, rows: seq<Row>): State
    decreases |rows|
  {
    if rows == [] then s else Step(Fold(s, rows[..|rows| - 1]), rows[|rows| - 1])
  }

  /** The state after a whole input. */
  function Run(rows: seq<Row>): State {
    Fold(Empty, rows)
  }

  function KilledOf(row: Row): nat { row.killed }

  function InjuredOf(row: Row): nat { row.injured }

  function OneOf(row: Row): nat { 1 }

  /** The sum of `f` over the rows of bucket (m, b). */
  function MatchSum(rows: seq<Row>, m: string, b: string, f: Row -> nat): nat
    decreases |rows|
  {
    if rows == [] then 0
    else MatchSum(rows[..|rows| - 1], m, b, f) + if Matches(rows[|rows| - 1], m, b) then f(rows[|rows| - 1]) else 0
  }

  /** The number of rows of bucket (m, b) at position (lat, lng). */
  function SpotCount(rows: seq<Row>, m: string, b: string, lat: string, lng: string): nat
    decreases |rows|
  {
    if rows == [] then 0
    else
      var row := rows[|rows| - 1];
      SpotCount(rows[..|rows| - 1], m, b, lat, lng) + if Matches(row, m, b) && row.lat == lat && row.lng == lng then 1 else 0
  }

  /** The bucket's counters after the rows, as sums over the rows that
      belong to it. */
  ghost predicate Accumulated(s: State, rows: seq<Row>, m: string, b: string) {
    var before, after := At(s, m, b), At(Fold(s, rows), m, b);
    && after.deaths == before.deaths + MatchSum(rows, m, b, KilledOf)
    && after.injuries == before.injuries + MatchSum(rows, m, b, InjuredOf)
    && after.incidents.count == before.incidents.count + MatchSum(rows, m, b, OneOf)
    && (Has(Fold(s, rows), m, b) <==> Has(s, m, b) || MatchSum(rows, m, b, OneOf) > 0)
  }

  /** The bucket's count at (lat, lng) after the rows, as the number of rows
      that belong to it at that position. */
  ghost predicate AccumulatedAt(s: State, rows: seq<Row>, m: string, b: string, lat: string, lng: string) {
    var before, after := At(s, m, b).incidents.grid, At(Fold(s, rows), m, b).incidents.grid;
    && Cell(after, lat, lng) == Cell(before, lat, lng) + SpotCount(rows, m, b, lat, lng)
    && (HasPair(after, lat, lng) <==> HasPair(before, lat, lng) || SpotCount(rows, m, b, lat, lng) > 0)
  }

  /** One more row keeps `Accumulated`. */
  lemma AccumulatedLast(s: State, rows: seq<Row>, m: string, b: string)
    requires rows != []
    requires Accumulated(s, rows[..|rows| - 1], m, b)
    ensures Accumulated(s, rows, m, b)
  {
    StepBucket(Fold(s, rows[..|rows| - 1]), rows[|rows| - 1], m, b);
  }

  /** One more row keeps `AccumulatedAt`. */
  lemma AccumulatedAtLast(s: State, rows: seq<Row>, m: string, b: string, lat: string, lng: string)
    requires rows != []
    requires AccumulatedAt(s, rows[..|rows| - 1], m, b, lat, lng)
    ensures AccumulatedAt(s, rows, m, b, lat, lng)
  {
    StepBucket(Fold(s, rows[..|rows| - 1]), rows[|rows| - 1], m, b);
  }

  /** After the rows, a bucket holds what it held before plus, from exactly
      the rows that belong to it, their killed and injured counts, one
      incident each and one at each row's position. */
  lemma {:induction false} FoldStats(s: State, rows: seq<Row>, m: string, b: string, lat: string, lng: string)
    ensures Accumulated(s, rows, m, b)
    ensures AccumulatedAt(s, rows, m, b, lat, lng)
    decreases |rows|
  {
    if rows != [] {
      FoldStats(s, rows[..|rows| - 1], m, b, lat, lng);
      AccumulatedLast(s, rows, m, b);
      AccumulatedAtLast(s, rows, m, b, lat, lng);
    }
  }

  /** The month labels of the accepted rows, in input order. */
  function AcceptedMonths(rows: seq<Row>): seq<string>
    decreases |rows|
  {
    if rows == [] then []
    else AcceptedMonths(rows[..|rows| - 1]) + if Accepted(rows[|rows| - 1]) then [rows[|rows| - 1].month] else []
  }

  /** For a whole input, `order` lists the accepted months by first
      occurrence and the month keys are exactly those months. */
  lemma {:induction false} RunOrder(rows: seq<Row>)
    ensures Run(rows).order == FirstSeen(AcceptedMonths(rows))
    ensures forall m :: m in Run(rows).months <==> m in AcceptedMonths(rows)
    decreases |rows|
  {
    if rows != [] {
      var n := |rows| - 1;
      var p := rows[..n];
      RunOrder(p);
      StepMonths(Run(p), rows[n]);
      var am := AcceptedMonths(p);
      if Accepted(rows[n]) {
        var month := rows[n].month;
        assert AcceptedMonths(rows) == am + [month];
        assert (am + [month])[..|am|] == am;
        assert FirstSeen(am + [month]) == Register(FirstSeen(am), month);
        FirstSeenSpec(am);
        assert month in FirstSeen(am) <==> month in Run(p).months;
      } else {
        assert AcceptedMonths(rows) == am;
      }
    }
  }

  /** The state after any rows satisfies the invariant; in particular the
      partial month is never a key and never listed. */
  lemma {:induction false} FoldConsistent(s: State, rows: seq<Row>)
    requires Consistent(s)
    ensures Consistent(Fold(s, rows))
    ensures PartialMonth !in Fold(s, rows).months && PartialMonth !in Fold(s, rows).order
    decreases |rows|
  {
    if rows != [] {
      FoldConsistent(s, rows[..|rows| - 1]);
      StepConsistent(Fold(s, rows[..|rows| - 1]), rows[|rows| - 1]);
    }
  }

  /** A bucket as emitted: the statistics plus total = injuries + deaths. */
  datatype Totals = Totals(deaths: nat, injuries: nat, total: nat, incidents: Incidents)

  /** One emitted month document. */
  datatype MonthDoc = MonthDoc(name: string, breakdown: map<string, Totals>, all: Totals)

  const NoTotals := Totals(0, 0, 0, Incidents(0, map[]))

  function DeathsOf(t: Totals): nat { t.deaths }

  function InjuriesOf(t: Totals): nat { t.injuries }

  function TotalOf(t: Totals): nat { t.total }

  function CountOf(t: Totals): nat { t.incidents.count }

  /** The count at one position of a borough's grid. */
  function CellAt(lat: string, lng: string): Totals -> nat {
    (t: Totals) => Cell(t.incidents.grid, lat, lng)
  }

  /** Some borough of `done` has the latitude `lat` in its grid. */
  ghost predicate LatIn(done: map<string, Totals>, lat: string) {
    exists b :: b in done && lat in done[b].incidents.grid
  }

  /** Some borough of `done` has the position (lat, lng) in its grid. */
  ghost predicate PairIn(done: map<string, Totals>, lat: string, lng: string) {
    exists b :: b in done && HasPair(done[b].incidents.grid, lat, lng)
  }

  /** The latitudes and positions of one more borough. */
  lemma InInsert(done: map<string, Totals>, b: string, t: Totals, lat: string, lng: string)
    requires b !in done
    ensures LatIn(done[b := t], lat) <==> LatIn(done, lat) || lat in t.incidents.grid
    ensures PairIn(done[b := t], lat, lng) <==> PairIn(done, lat, lng) || HasPair(t.incidents.grid, lat, lng)
  {
    var d := done[b := t];
    if LatIn(d, lat) && lat !in t.incidents.grid {
      var c :| c in d && lat in d[c].incidents.grid;
      assert c in done && lat in done[c].incidents.grid;
    }
    if LatIn(done, lat) {
      var c :| c in done && lat in done[c].incidents.grid;
      assert c in d && lat in d[c].incidents.grid;
    }
    if lat in t.incidents.grid {
      assert b in d && lat in d[b].incidents.grid;
    }
    if PairIn(d, lat, lng) && !HasPair(t.incidents.grid, lat, lng) {
      var c :| c in d && HasPair(d[c].incidents.grid, lat, lng);
      assert c in done && HasPair(done[c].incidents.grid, lat, lng);
    }
    if PairIn(done, lat, lng) {
      var c :| c in done && HasPair(done[c].incidents.grid, lat, lng);
      assert c in d && HasPair(d[c].incidents.grid, lat, lng);
    }
    if HasPair(t.incidents.grid, lat, lng) {
      assert b in d && HasPair(d[b].incidents.grid, lat, lng);
    }
  }

  /** Deaths, injuries, totals and incident counts of `all` are the sums over
      the boroughs `done`. */
  ghost predicate SumsOf(all: Totals, done: map<string, Totals>) {
    && all.deaths == Sum(Column(done, DeathsOf))
    && all.injuries == Sum(Column(done, InjuriesOf))
    && all.total == Sum(Column(done, TotalOf))
    && all.incidents.count == Sum(Column(done, CountOf))
  }

  /** Every position's count in `grid` is the sum of the boroughs' counts
      there, and its latitudes and positions are those of some borough. */
  ghost predicate MergedFrom(grid: Grid, done: map<string, Totals>) {
    && (forall lat, lng :: Cell(grid, lat, lng) == Sum(Column(done, CellAt(lat, lng))))
    && (forall lat :: lat in grid <==> LatIn(done, lat))
    && (forall lat, lng :: HasPair(grid, lat, lng) <==> PairIn(done, lat, lng))
  }

  /** Every borough's incident count is the sum of its grid. */
  ghost predicate CountsMatch(done: map<string, Totals>) {
    forall b :: b in done ==> done[b].incidents.count == Total(done[b].incidents.grid)
  }

  /** `all` is the rollup of the boroughs `done`; when every borough's count
      is the sum of its grid, so is the rollup's. */
  ghost predicate RolledUp(all: Totals, done: map<string, Totals>) {
    && SumsOf(all, done)
    && MergedFrom(all.incidents.grid, done)
    && (CountsMatch(done) ==> all.incidents.count == Total(all.incidents.grid))
  }

  /** Adds one borough's statistics into a rollup (the grid merge is done by `MergeInto`). */
  function AddBorough(all: Totals, t: Totals, grid: Grid): Totals {
    Totals(all.deaths + t.deaths, all.injuries + t.injuries, all.total + t.total,
           Incidents(all.incidents.count + t.incidents.count, grid))
  }

  /** The sums over no borough. */
  lemma RolledUpNone()
    ensures RolledUp(NoTotals, map[])
  {
    TotalEmpty();
    forall lat, lng ensures Cell(NoTotals.incidents.grid, lat, lng) == Sum(Column(map[], CellAt(lat, lng))) {
      assert Column(map[], CellAt(lat, lng)) == map[];
    }
    assert Column(map[], DeathsOf) == map[];
    assert Column(map[], InjuriesOf) == map[];
    assert Column(map[], TotalOf) == map[];
    assert Column(map[], CountOf) == map[];
  }

  /** The column sums after one more borough. */
  lemma SumsInsert(all: Totals, done: map<string, Totals>, b: string, t: Totals, grid: Grid)
    requires b !in done && SumsOf(all, done)
    ensures SumsOf(AddBorough(all, t, grid), done[b := t])
  {
    SumColumnInsert(done, b, t, DeathsOf);
    SumColumnInsert(done, b, t, InjuriesOf);
    SumColumnInsert(done, b, t, TotalOf);
    SumColumnInsert(done, b, t, CountOf);
  }

  /** The merged grid after one more borough. */
  lemma GridInsert(grid: Grid, done: map<string, Totals>, b: string, t: Totals)
    requires b !in done && MergedFrom(grid, done)
    ensures MergedFrom(Merge(grid, t.incidents.grid), done[b := t])
  {
    var g := Merge(grid, t.incidents.grid);
    forall lat, lng ensures Cell(g, lat, lng) == Sum(Column(done[b := t], CellAt(lat, lng))) {
      MergeCell(grid, t.incidents.grid, lat, lng);
      SumColumnInsert(done, b, t, CellAt(lat, lng));
    }
    forall lat ensures lat in g <==> LatIn(done[b := t], lat) {
      MergePairs(grid, t.incidents.grid, lat, "");
      InInsert(done, b, t, lat, "");
    }
    forall lat, lng ensures HasPair(g, lat, lng) <==> PairIn(done[b := t], lat, lng) {
      MergePairs(grid, t.incidents.grid, lat, lng);
      InInsert(done, b, t, lat, lng);
    }
  }

  /** Conservation after one more borough. */
  lemma ConservedInsert(all: Totals, done: map<string, Totals>, b: string, t: Totals)
    requires b !in done
    requires CountsMatch(done) ==> all.incidents.count == Total(all.incidents.grid)
    ensures CountsMatch(done[b := t])
        ==> all.incidents.count + t.incidents.count == Total(Merge(all.incidents.grid, t.incidents.grid))
  {
    if CountsMatch(done[b := t]) {
      forall c | c in done ensures done[c].incidents.count == Total(done[c].incidents.grid) {
        assert done[b := t][c] == done[c];
      }
      assert done[b := t][b] == t;
      MergeTotal(all.incidents.grid, t.incidents.grid);
    }
  }

  /** One more borough keeps `RolledUp`. */
  lemma RolledUpInsert(all: Totals, done: map<string, Totals>, b: string, t: Totals)
    requires b !in done && RolledUp(all, done)
    ensures RolledUp(AddBorough(all, t, Merge(all.incidents.grid, t.incidents.grid)), done[b := t])
  {
    SumsInsert(all, done, b, t, Merge(all.incidents.grid, t.incidents.grid));
    GridInsert(all.incidents.grid, done, b, t);
    ConservedInsert(all, done, b, t);
  }

  /** One iteration of `Rollup`. */
  lemma RollupStep(bd: map<string, Totals>, todo: set<string>, all: Totals, b: string, grid: Grid)
    requires todo <= bd.Keys && b in todo
    requires RolledUp(all, bd - todo)
    requires grid == Merge(all.incidents.grid, bd[b].incidents.grid)
    ensures RolledUp(AddBorough(all, bd[b], grid), bd - (todo - {b}))
  {
    MinusRestore(bd, todo, b);
    RolledUpInsert(all, bd - todo, b, bd[b]);
  }

  /** The citywide rollup of one month: sums over the boroughs and the
      additive merge of their grids. */
  method Rollup(bd: map<string, Totals>) returns (all: Totals)
    ensures RolledUp(all, bd)
  {
    all := NoTotals;
    var todo := bd.Keys;
    MinusAll(bd);
    RolledUpNone();
    while todo != {}
      invariant todo <= bd.Keys
      invariant RolledUp(all, bd - todo)
      decreases |todo|
    {
      var b :| b in todo;
      var grid := MergeInto(all.incidents.grid, bd[b].incidents.grid);
      RollupStep(bd, todo, all, b, grid);
      all := AddBorough(all, bd[b], grid);
      todo := todo - {b};
    }
    MinusNone(bd, todo);
  }

  /** The emitted form of a bucket. */
  function WithTotal(st: Stats): Totals {
    Totals(st.deaths, st.injuries, st.injuries + st.deaths, st.incidents)
  }

  /** One iteration of `AttachTotals`. */
  lemma AttachTotalsStep(bd: map<string, Stats>, todo: set<string>, r: map<string, Totals>, b: string)
    requires todo <= bd.Keys && b in todo
    requires r.Keys == bd.Keys - todo
    ensures r[b := WithTotal(bd[b])].Keys == bd.Keys - (todo - {b})
  {
  }

  /** Attaches total = injuries + deaths to every borough of a month. */
  method AttachTotals(bd: map<string, Stats>) returns (r: map<string, Totals>)
    ensures r.Keys == bd.Keys
    ensures forall b :: b in bd ==> r[b] == WithTotal(bd[b])
  {
    r := map[];
    var todo := bd.Keys;
    while todo != {}
      invariant todo <= bd.Keys
      invariant r.Keys == bd.Keys - todo
      invariant forall b :: b in r ==> r[b] == WithTotal(bd[b])
      decreases |todo|
    {
      var b :| b in todo;
      AttachTotalsStep(bd, todo, r, b);
      r := r[b := WithTotal(bd[b])];
      todo := todo - {b};
    }
  }

  /** `doc` is the document for the month `name` whose bucket is `md`. */
  ghost predicate Describes(doc: MonthDoc, name: string, md: MonthData) {
    && doc.name == name
    && doc.breakdown.Keys == md.breakdown.Keys
    && (forall b :: b in md.breakdown ==> doc.breakdown[b] == WithTotal(md.breakdown[b]))
    && RolledUp(doc.all, doc.breakdown)
  }

  /** In an emitted document the citywide total is deaths plus injuries, and
      when every borough's count is the sum of its grid, the citywide count is
      the sum of the citywide grid. */
  lemma DescribesAll(doc: MonthDoc, name: string, md: MonthData)
    requires Describes(doc, name, md)
    requires forall b :: b in md.breakdown ==> md.breakdown[b].incidents.count == Total(md.breakdown[b].incidents.grid)
    ensures doc.all.total == doc.all.deaths + doc.all.injuries
    ensures doc.all.incidents.count == Total(doc.all.incidents.grid)
  {
    SumColumnsAdd(doc.breakdown, DeathsOf, InjuriesOf, TotalOf);
  }

  /** The document of one month: totals attached and the rollup computed. */
  method MonthDocument(name: string, data: MonthData) returns (doc: MonthDoc)
    ensures Describes(doc, name, data)
  {
    var breakdown := AttachTotals(data.breakdown);
    var all := Rollup(breakdown);
    doc := MonthDoc(name, breakdown, all);
  }

  /** The aggregator: the two module-level variables and the row handler. */
  class Aggregator {
    var months: map<string, MonthData>
    var order: seq<string>

    /** The fields as a value. */
    function Current(): State
      reads this
    {
      State(months, order)
    }

    ghost predicate Valid()
      reads this
    {
      Consistent(Current())
    }

    constructor ()
      ensures Valid() && Current() == Empty
    {
      months := map[];
      order := [];
    }

    /** Handles one row, keeping the invariant. */
    method ProcessRow(row: Row)
      requires Valid()
      modifies this
      ensures Valid()
      ensures Current() == Step(old(Current()), row)
    {
      StepConsistent(Current(), row);
      Apply(row);
    }

    /** The body of the row handler: skips the row or records it in place. */
    method Apply(row: Row)
      modifies this
      ensures Current() == Step(old(Current()), row)
    {
      RequiredColumnsCheck(row.fields);
      var ok := AssertHasStringAttrs(row.fields, RequiredColumns);
      if !ok {
        return;
      }
      var month := row.month;
      var borough := BoroughOf(row);
      if month == PartialMonth {
        return;
      }
      var monthData: MonthData;
      if month in months {
        monthData := months[month];
      } else {
        order := order + [month];
        monthData := MonthData(map[]);
      }
      var st := if borough in monthData.breakdown then monthData.breakdown[borough] else NoStats;
      var grid := st.incidents.grid;
      var cells := if row.lat in grid then grid[row.lat] else map[];
      var cell := if row.lng in cells then cells[row.lng] else 0;
      grid := grid[row.lat := cells[row.lng := cell + 1]];
      assert grid == Bump(st.incidents.grid, row.lat, row.lng);
      st := Stats(st.deaths + row.killed, st.injuries + row.injured, Incidents(st.incidents.count + 1, grid));
      monthData := MonthData(monthData.breakdown[borough := st]);
      months := months[month := monthData];
    }

    /** Handles the rows in order. */
    method Consume(rows: seq<Row>)
      requires Valid()
      modifies this
      ensures Valid()
      ensures Current() == Fold(old(Current()), rows)
    {
      for i := 0 to |rows|
        invariant Valid()
        invariant Current() == Fold(old(Current()), rows[..i])
      {
        assert rows[..i + 1][..i] == rows[..i];
        ProcessRow(rows[i]);
      }
      assert rows[..|rows|] == rows;
    }

    /** The finalizer: one document per month, in the reverse of the order
        in which the months were first seen. */
    method End() returns (docs: seq<MonthDoc>)
      requires Valid()
      ensures |docs| == |order|
      ensures forall i :: 0 <= i < |docs| ==>
        Describes(docs[i], order[|order| - 1 - i], months[order[|order| - 1 - i]])
      ensures forall i :: 0 <= i < |docs| ==> docs[i].name != PartialMonth
    {
      docs := [];
      var n := |order|;
      for i := 0 to n
        invariant |docs| == i
        invariant forall j :: 0 <= j < i ==> Describes(docs[j], order[n - 1 - j], months[order[n - 1 - j]])
        invariant forall j :: 0 <= j < i ==> docs[j].name != PartialMonth
      {
        var name := order[n - 1 - i];
        assert name in order;
        var doc := MonthDocument(name, months[name]);
        docs := docs + [doc];
      }
    }
  }
}
