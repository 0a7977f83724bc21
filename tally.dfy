/** The basic collision aggregator: a single pass over the parsed rows that
    groups killed and injured counts by month and borough, followed by a
    finalizer that emits one document per month, in the reverse of the
    order in which the months were first seen, with per-borough totals and
    a citywide rollup. */
module Tally {
  import opened Counting
  import opened Names
  import opened Records
  import opened MonthOrder

  /** The running counts of one (month, borough) bucket. */
  datatype Counts = Counts(deaths: nat, injuries: nat)

  /** The bucket of one month: borough name -> counts. */
  datatype MonthData = MonthData(breakdown: map<string, Counts>)

  /** The aggregator's state: the month buckets, and the month labels in the
      order in which they were first seen. */
  datatype State = State(months: map<string, MonthData>, order: seq<string>)

  /** The state before the first row. */
  const Empty := State(map[], [])

  /** A row is kept exactly when its BOROUGH column is a non-empty string. */
  predicate Accepted(row: Row) {
    HasString(row.fields, "BOROUGH")
  }

  /** The (month, borough) bucket exists. */
  predicate Has(s: State, m: string, b: string) {
    m in s.months && b in s.months[m].breakdown
  }

  /** The counts of a bucket, zero when it does not exist. */
  function At(s: State, m: string, b: string): Counts {
    if Has(s, m, b) then s.months[m].breakdown[b] else Counts(0, 0)
  }

  /** The state invariant: `order` lists every month key exactly once. */
  ghost predicate Consistent(s: State) {
    NoDup(s.order) && forall m :: m in s.order <==> m in s.months
  }

  /** The effect of one row: a rejected row changes nothing; an accepted row
      registers its month if it is new and adds its counts to its bucket. */
  function Step(s: State, row: Row): (r: State)
    ensures !Accepted(row) ==> r == s
  {
    if !Accepted(row) then s
    else
      var b := BoroughOf(row);
      var md := if row.month in s.months then s.months[row.month] else MonthData(map[]);
      var c := if b in md.breakdown then md.breakdown[b] else Counts(0, 0);
      var order := if row.month in s.months then s.order else s.order + [row.month];
      State(s.months[row.month := MonthData(md.breakdown[b := Counts(c.deaths + row.killed, c.injuries + row.injured)])], order)
  }

  /** A row adds its killed and injured counts to its own bucket, creating it
      if needed, and leaves every other bucket as it was. */
  lemma StepBucket(s: State, row: Row, m: string, b: string)
    ensures Has(Step(s, row), m, b) <==> Has(s, m, b) || Matches(row, m, b)
    ensures At(Step(s, row), m, b)
         == if Matches(row, m, b) then Counts(At(s, m, b).deaths + row.killed, At(s, m, b).injuries + row.injured)
            else At(s, m, b)
  {
  }

  /** A month is appended to `order` exactly when an accepted row brings a
      month that is not yet a key; the month keys grow by the row's month. */
  lemma StepMonths(s: State, row: Row)
    ensures Step(s, row).order == if Accepted(row) && row.month !in s.months then s.order + [row.month] else s.order
    ensures forall m :: m in Step(s, row).months <==> m in s.months || (Accepted(row) && m == row.month)
  {
  }

  /** Every row preserves the state invariant. */
  lemma StepConsistent(s: State, row: Row)
    requires Consistent(s)
    ensures Consistent(Step(s, row))
  {
    StepMonths(s, row);
  }

  /** The state after the rows, in order. */
  function Fold(s: State, rows: seq<Row>): State
    decreases |rows|
  {
    if rows == [] then s else Step(Fold(s, rows[..|rows| - 1]), rows[|rows| - 1])
  }

  /** The state after a whole input. */
  function Run(rows: seq<Row>): State {
    Fold(Empty, rows)
  }

  /** The row is accepted and belongs to bucket (m, b). */
  predicate Matches(row: Row, m: string, b: string) {
    Accepted(row) && row.month == m && BoroughOf(row) == b
  }

  function KilledOf(row: Row): nat { row.killed }

  function InjuredOf(row: Row): nat { row.injured }

  /** The sum of `f` over the rows of bucket (m, b). */
  function MatchSum(rows: seq<Row>, m: string, b: string, f: Row -> nat): nat
    decreases |rows|
  {
    if rows == [] then 0
    else MatchSum(rows[..|rows| - 1], m, b, f) + if Matches(rows[|rows| - 1], m, b) then f(rows[|rows| - 1]) else 0
  }

  /** Some row belongs to bucket (m, b). */
  predicate AnyMatch(rows: seq<Row>, m: string, b: string) {
    exists i :: 0 <= i < |rows| && Matches(rows[i], m, b)
  }

  /** Some row belongs to (m, b) exactly when one before the last row does
      or the last row does. */
  lemma AnyMatchLast(rows: seq<Row>, m: string, b: string)
    requires rows != []
    ensures AnyMatch(rows, m, b) <==> AnyMatch(rows[..|rows| - 1], m, b) || Matches(rows[|rows| - 1], m, b)
  {
    var p := rows[..|rows| - 1];
    if AnyMatch(rows, m, b) && !Matches(rows[|rows| - 1], m, b) {
      var i :| 0 <= i < |rows| && Matches(rows[i], m, b);
      assert p[i] == rows[i];
    }
    if AnyMatch(p, m, b) {
      var i :| 0 <= i < |p| && Matches(p[i], m, b);
      assert rows[i] == p[i];
    }
  }

  /** After the rows, a bucket holds what it held before plus the killed and
      injured counts of exactly the rows that belong to it, and it exists
      exactly when it existed before or one of the rows belongs to it. */
  lemma {:induction false} FoldCounts(s: State, rows: seq<Row>, m: string, b: string)
    ensures At(Fold(s, rows), m, b)
         == Counts(At(s, m, b).deaths + MatchSum(rows, m, b, KilledOf),
                   At(s, m, b).injuries + MatchSum(rows, m, b, InjuredOf))
    ensures Has(Fold(s, rows), m, b) <==> Has(s, m, b) || AnyMatch(rows, m, b)
    decreases |rows|
  {
    if rows != [] {
      var n := |rows| - 1;
      FoldCounts(s, rows[..n], m, b);
      StepBucket(Fold(s, rows[..n]), rows[n], m, b);
      AnyMatchLast(rows, m, b);
    }
  }

  /** For a whole input: a bucket holds the sums over its rows and exists
      exactly when some row belongs to it. */
  lemma RunCounts(rows: seq<Row>, m: string, b: string)
    ensures At(Run(rows), m, b) == Counts(MatchSum(rows, m, b, KilledOf), MatchSum(rows, m, b, InjuredOf))
    ensures Has(Run(rows), m, b) <==> AnyMatch(rows, m, b)
  {
    FoldCounts(Empty, rows, m, b);
  }

  /** The month labels of the accepted rows, in input order. */
  function AcceptedMonths(rows: seq<Row>): seq<string>
    decreases |rows|
  {
    if rows == [] then []
    else AcceptedMonths(rows[..|rows| - 1]) + if Accepted(rows[|rows| - 1]) then [rows[|rows| - 1].month] else []
  }

  /** For a whole input, `order` lists the accepted months by first
      occurrence and the month keys are exactly those months. */
  lemma {:induction false} RunOrder(rows: seq<Row>)
    ensures Run(rows).order == FirstSeen(AcceptedMonths(rows))
    ensures forall m :: m in Run(rows).months <==> m in AcceptedMonths(rows)
    decreases |rows|
  {
    if rows != [] {
      var n := |rows| - 1;
      var p := rows[..n];
      RunOrder(p);
      StepMonths(Run(p), rows[n]);
      var am := AcceptedMonths(p);
      if Accepted(rows[n]) {
        var month := rows[n].month;
        assert AcceptedMonths(rows) == am + [month];
        assert (am + [month])[..|am|] == am;
        assert FirstSeen(am + [month]) == Register(FirstSeen(am), month);
        FirstSeenSpec(am);
        assert month in FirstSeen(am) <==> month in Run(p).months;
      } else {
        assert AcceptedMonths(rows) == am;
      }
    }
  }

  /** The state after a whole input satisfies the invariant. */
  lemma RunConsistent(rows: seq<Row>)
    ensures Consistent(Run(rows))
  {
    RunOrder(rows);
    FirstSeenSpec(AcceptedMonths(rows));
  }

  /** A bucket as emitted: the counts plus their total. */
  datatype Totals = Totals(deaths: nat, injuries: nat, total: nat)

  /** One emitted month document. */
  datatype MonthDoc = MonthDoc(name: string, breakdown: map<string, Totals>, all: Totals)

  function DeathsOf(t: Totals): nat { t.deaths }

  function InjuriesOf(t: Totals): nat { t.injuries }

  function TotalOf(t: Totals): nat { t.total }

  /** `doc` is the document for the month `name` whose bucket is `md`: every
      borough carries total = injuries + deaths, and `all` holds the sums of
      the three fields over the boroughs. */
  ghost predicate Describes(doc: MonthDoc, name: string, md: MonthData) {
    && doc.name == name
    && doc.breakdown.Keys == md.breakdown.Keys
    && (forall b :: b in md.breakdown ==>
          doc.breakdown[b] == Totals(md.breakdown[b].deaths, md.breakdown[b].injuries,
                                     md.breakdown[b].injuries + md.breakdown[b].deaths))
    && doc.all == Totals(Sum(Column(doc.breakdown, DeathsOf)), Sum(Column(doc.breakdown, InjuriesOf)),
                         Sum(Column(doc.breakdown, TotalOf)))
  }

  /** In an emitted document the citywide total is the citywide deaths plus injuries. */
  lemma DescribesAll(doc: MonthDoc, name: string, md: MonthData)
    requires Describes(doc, name, md)
    ensures doc.all.total == doc.all.deaths + doc.all.injuries
  {
    SumColumnsAdd(doc.breakdown, DeathsOf, InjuriesOf, TotalOf);
  }

  /** One iteration of `AttachTotals`. */
  lemma AttachTotalsStep(bd: map<string, Counts>, todo: set<string>, r: map<string, Totals>, b: string)
    requires todo <= bd.Keys && b in todo
    requires r.Keys == bd.Keys - todo
    ensures r[b := Totals(bd[b].deaths, bd[b].injuries, bd[b].injuries + bd[b].deaths)].Keys == bd.Keys - (todo - {b})
  {
  }

  /** Attaches total = injuries + deaths to every borough of a month. */
  method AttachTotals(bd: map<string, Counts>) returns (r: map<string, Totals>)
    ensures r.Keys == bd.Keys
    ensures forall b :: b in bd ==> r[b] == Totals(bd[b].deaths, bd[b].injuries, bd[b].injuries + bd[b].deaths)
  {
    r := map[];
    var todo := bd.Keys;
    while todo != {}
      invariant todo <= bd.Keys
      invariant r.Keys == bd.Keys - todo
      invariant forall b :: b in r ==> r[b] == Totals(bd[b].deaths, bd[b].injuries, bd[b].injuries + bd[b].deaths)
      decreases |todo|
    {
      var b :| b in todo;
      AttachTotalsStep(bd, todo, r, b);
      r := r[b := Totals(bd[b].deaths, bd[b].injuries, bd[b].injuries + bd[b].deaths)];
      todo := todo - {b};
    }
  }

  /** The three column sums of a partially visited breakdown. */
  ghost function PartialAll(bd: map<string, Totals>, done: map<string, Totals>): Totals {
    Totals(Sum(Column(done, DeathsOf)), Sum(Column(done, InjuriesOf)), Sum(Column(done, TotalOf)))
  }

  /** One iteration of `Rollup`: the borough `b` is added into the running sums. */
  lemma RollupStep(bd: map<string, Totals>, todo: set<string>, all: Totals, b: string)
    requires todo <= bd.Keys && b in todo
    requires all == PartialAll(bd, bd - todo)
    ensures Totals(all.deaths + bd[b].deaths, all.injuries + bd[b].injuries, all.total + bd[b].total)
         == PartialAll(bd, bd - (todo - {b}))
  {
    MinusRestore(bd, todo, b);
    SumColumnInsert(bd - todo, b, bd[b], DeathsOf);
    SumColumnInsert(bd - todo, b, bd[b], InjuriesOf);
    SumColumnInsert(bd - todo, b, bd[b], TotalOf);
  }

  /** The sums of an empty breakdown are zero. */
  lemma PartialAllNone(bd: map<string, Totals>)
    ensures PartialAll(bd, bd - bd.Keys) == Totals(0, 0, 0)
  {
    MinusAll(bd);
    assert Column(map[], DeathsOf) == map[];
    assert Column(map[], InjuriesOf) == map[];
    assert Column(map[], TotalOf) == map[];
  }

  /** The citywide rollup: deaths, injuries and totals summed over the boroughs. */
  method Rollup(bd: map<string, Totals>) returns (all: Totals)
    ensures all == Totals(Sum(Column(bd, DeathsOf)), Sum(Column(bd, InjuriesOf)), Sum(Column(bd, TotalOf)))
  {
    all := Totals(0, 0, 0);
    var todo := bd.Keys;
    PartialAllNone(bd);
    while todo != {}
      invariant todo <= bd.Keys
      invariant all == PartialAll(bd, bd - todo)
      decreases |todo|
    {
      var b :| b in todo;
      RollupStep(bd, todo, all, b);
      all := Totals(all.deaths + bd[b].deaths, all.injuries + bd[b].injuries, all.total + bd[b].total);
      todo := todo - {b};
    }
    MinusNone(bd, todo);
  }

  /** The aggregator: the two module-level variables and the row handler. */
  class Aggregator {
    var months: map<string, MonthData>
    var order: seq<string>

    /** The fields as a value. */
    function Current(): State
      reads this
    {
      State(months, order)
    }

    ghost predicate Valid()
      reads this
    {
      Consistent(Current())
    }

    constructor ()
      ensures Valid() && Current() == Empty
    {
      months := map[];
      order := [];
    }

    /** Handles one row. */
    method ProcessRow(row: Row)
      requires Valid()
      modifies this
      ensures Valid()
      ensures Current() == Step(old(Current()), row)
    {
      StepConsistent(Current(), row);
      if !HasString(row.fields, "BOROUGH") {
        return;
      }
      ghost var s0 := Current();
      var month := row.month;
      var borough := BoroughOf(row);
      var monthData: MonthData;
      if month in months {
        monthData := months[month];
      } else {
        order := order + [month];
        monthData := MonthData(map[]);
      }
      var counts := if borough in monthData.breakdown then monthData.breakdown[borough] else Counts(0, 0);
      counts := Counts(counts.deaths + row.killed, counts.injuries + row.injured);
      monthData := MonthData(monthData.breakdown[borough := counts]);
      months := months[month := monthData];
      assert Current() == Step(s0, row);
    }

    /** Handles the rows in order. */
    method Consume(rows: seq<Row>)
      requires Valid()
      modifies this
      ensures Valid()
      ensures Current() == Fold(old(Current()), rows)
    {
      for i := 0 to |rows|
        invariant Valid()
        invariant Current() == Fold(old(Current()), rows[..i])
      {
        assert rows[..i + 1][..i] == rows[..i];
        ProcessRow(rows[i]);
      }
      assert rows[..|rows|] == rows;
    }

    /** The finalizer: one document per month, in the reverse of the order
        in which the months were first seen. */
    method End() returns (docs: seq<MonthDoc>)
      requires Valid()
      ensures |docs| == |order|
      ensures forall i :: 0 <= i < |docs| ==>
        Describes(docs[i], order[|order| - 1 - i], months[order[|order| - 1 - i]])
    {
      docs := [];
      var n := |order|;
      for i := 0 to n
        invariant |docs| == i
        invariant forall j :: 0 <= j < i ==> Describes(docs[j], order[n - 1 - j], months[order[n - 1 - j]])
      {
        var name := order[n - 1 - i];
        var data := months[name];
        var breakdown := AttachTotals(data.breakdown);
        var all := Rollup(breakdown);
        docs := docs + [MonthDoc(name, breakdown, all)];
      }
    }
  }
}
