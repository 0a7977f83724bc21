/** Finite sums over string-keyed counters.

    The aggregation scripts keep their counters in dictionaries keyed by
    strings (borough names, latitude and longitude keys) and roll them up by
    adding every entry.  `Sum` is that rollup, independent of the order in
    which the keys are visited. */
module Counting {

  /** The value stored under `k`, or 0 when `k` is absent (the `|| 0` idiom). */
  function Get(m: map<string, nat>, k: string): nat {
    if k in m then m[k] else 0
  }

  /** The sum of all values of `m`. */
  ghost function Sum(m: map<string, nat>): nat
    decreases |m|
  {
    if m == map[] then 0
    else
      var k :| k in m;
      assert |m - {k}| < |m| by { assert (m - {k}).Keys == m.Keys - {k}; }
      m[k] + Sum(m - {k})
  }

  /** Any key may be taken out first: the sum does not depend on the order of the keys. */
  lemma {:induction false} SumRemove(m: map<string, nat>, k: string)
    requires k in m
    ensures Sum(m) == m[k] + Sum(m - {k})
    decreases |m|
  {
    var j :| j in m && Sum(m) == m[j] + Sum(m - {j});
    if j != k {
      assert (m - {j}).Keys == m.Keys - {j};
      assert (m - {k}).Keys == m.Keys - {k};
      SumRemove(m - {j}, k);
      SumRemove(m - {k}, j);
      assert m - {j} - {k} == m - {k} - {j};
    }
  }

  /** Taking a key out, present or not, removes exactly its count. */
  lemma SumMinus(m: map<string, nat>, k: string)
    ensures Sum(m) == Get(m, k) + Sum(m - {k})
  {
    if k in m {
      SumRemove(m, k);
    } else {
      assert m - {k} == m;
    }
  }

  /** Overwriting one entry changes the sum by the difference of the two values. */
  lemma SumUpdate(m: map<string, nat>, k: string, v: nat)
    ensures Sum(m[k := v]) + Get(m, k) == Sum(m) + v
  {
    SumMinus(m[k := v], k);
    SumMinus(m, k);
    assert m[k := v] - {k} == m - {k};
  }

  /** Pointwise addition of two counters; a key of either side is a key of the result. */
  function AddCounts(a: map<string, nat>, b: map<string, nat>): (r: map<string, nat>)
    ensures r.Keys == a.Keys + b.Keys
    ensures forall k :: Get(r, k) == Get(a, k) + Get(b, k)
  {
    map k | k in a.Keys + b.Keys :: Get(a, k) + Get(b, k)
  }

  /** Two counters with the same keys and the same values are equal. */
  lemma CountsExt(x: map<string, nat>, y: map<string, nat>)
    requires x.Keys == y.Keys
    requires forall k :: Get(x, k) == Get(y, k)
    ensures x == y
  {
    forall k | k in x ensures x[k] == y[k] {
      assert Get(x, k) == Get(y, k);
    }
  }

  /** Adding one new key to the right operand of `AddCounts`. */
  lemma AddCountsInsert(row: map<string, nat>, s: map<string, nat>, k: string, v: nat)
    requires k !in s
    ensures AddCounts(row, s[k := v]) == AddCounts(row, s)[k := Get(AddCounts(row, s), k) + v]
  {
    var x, y := AddCounts(row, s[k := v]), AddCounts(row, s)[k := Get(AddCounts(row, s), k) + v];
    forall j ensures Get(x, j) == Get(y, j) {
      assert Get(s[k := v], j) == if j == k then v else Get(s, j);
    }
    CountsExt(x, y);
  }

  /** Taking a key out of a pointwise sum takes it out of both operands. */
  lemma AddCountsMinus(a: map<string, nat>, b: map<string, nat>, k: string)
    ensures AddCounts(a, b) - {k} == AddCounts(a - {k}, b - {k})
  {
    var x, y := AddCounts(a, b) - {k}, AddCounts(a - {k}, b - {k});
    forall j ensures Get(x, j) == Get(y, j) {
      if j != k {
        assert Get(a, j) == Get(a - {k}, j) && Get(b, j) == Get(b - {k}, j);
      }
    }
    CountsExt(x, y);
  }

  /** Adding counters pointwise adds their sums. */
  lemma {:induction false} SumAdd(a: map<string, nat>, b: map<string, nat>)
    ensures Sum(AddCounts(a, b)) == Sum(a) + Sum(b)
    decreases |a|
  {
    if a == map[] {
      CountsExt(AddCounts(a, b), b);
    } else {
      var k :| k in a;
      assert |a - {k}| < |a| by { assert (a - {k}).Keys == a.Keys - {k}; }
      SumAdd(a - {k}, b - {k});
      AddCountsMinus(a, b, k);
      SumRemove(AddCounts(a, b), k);
      SumMinus(b, k);
      SumRemove(a, k);
    }
  }

  /** The counter obtained by reading one numeric field `f` of every entry. */
  function Column<V>(m: map<string, V>, f: V -> nat): (r: map<string, nat>)
    ensures r.Keys == m.Keys
    ensures forall k :: k in m ==> r[k] == f(m[k])
  {
    map k | k in m :: f(m[k])
  }

  /** Adding one new entry to a dictionary adds its field to the column sum. */
  lemma SumColumnInsert<V>(m: map<string, V>, k: string, v: V, f: V -> nat)
    requires k !in m
    ensures Sum(Column(m[k := v], f)) == Sum(Column(m, f)) + f(v)
  {
    assert Column(m[k := v], f) == Column(m, f)[k := f(v)];
    SumUpdate(Column(m, f), k, f(v));
  }

  /** When one field is the sum of two others in every entry, so are the column sums. */
  lemma SumColumnsAdd<V>(m: map<string, V>, f: V -> nat, g: V -> nat, h: V -> nat)
    requires forall k :: k in m ==> h(m[k]) == f(m[k]) + g(m[k])
    ensures Sum(Column(m, h)) == Sum(Column(m, f)) + Sum(Column(m, g))
  {
    assert Column(m, h) == AddCounts(Column(m, f), Column(m, g));
    SumAdd(Column(m, f), Column(m, g));
  }

  /** Putting one removed key back. */
  lemma MinusRestore<V>(src: map<string, V>, todo: set<string>, k: string)
    requires k in todo && todo <= src.Keys
    ensures src - (todo - {k}) == (src - todo)[k := src[k]]
  {
  }

  /** Removing no key leaves a dictionary unchanged. */
  lemma MinusNone<V>(src: map<string, V>, todo: set<string>)
    requires todo == {}
    ensures src - todo == src
  {
  }

  /** Removing every key leaves an empty dictionary. */
  lemma MinusAll<V>(src: map<string, V>)
    ensures src - src.Keys == map[]
  {
  }

  /** Adding a counter with no keys changes nothing. */
  lemma AddNothing(row: map<string, nat>)
    ensures AddCounts(row, map[]) == row
  {
    CountsExt(row, AddCounts(row, map[]));
  }

  /** One iteration of `AddInto`: the key `k` of `src` is added into the partial result. */
  lemma AddIntoStep(row: map<string, nat>, src: map<string, nat>, todo: set<string>, r: map<string, nat>, k: string)
    requires todo <= src.Keys && k in todo
    requires r == AddCounts(row, src - todo)
    ensures r[k := Get(r, k) + src[k]] == AddCounts(row, src - (todo - {k}))
  {
    MinusRestore(src, todo, k);
    AddCountsInsert(row, src - todo, k, src[k]);
  }

  /** Adds every count of `src` into `row`, one key at a time, creating missing keys. */
  method AddInto(row: map<string, nat>, src: map<string, nat>) returns (r: map<string, nat>)
    ensures r == AddCounts(row, src)
  {
    r := row;
    var todo := src.Keys;
    MinusAll(src);
    AddNothing(row);
    while todo != {}
      invariant todo <= src.Keys
      invariant r == AddCounts(row, src - todo)
      decreases |todo|
    {
      var k :| k in todo;
      AddIntoStep(row, src, todo, r, k);
      r := r[k := Get(r, k) + src[k]];
      todo := todo - {k};
    }
    MinusNone(src, todo);
  }
}
