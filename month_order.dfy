/** The order of first appearance of month labels, as kept by the `order`
    list of both aggregators: a label is appended the first time it occurs. */
module MonthOrder {

  /** No label occurs twice. */
  predicate NoDup(s: seq<string>) {
    forall i, j :: 0 <= i < j < |s| ==> s[i] != s[j]
  }

  /** Appends `m` unless it is already listed. */
  function Register(order: seq<string>, m: string): (r: seq<string>)
    ensures m in r
    ensures forall x :: x in r <==> x in order || x == m
    ensures NoDup(order) ==> NoDup(r)
    ensures order <= r
  {
    if m in order then order else order + [m]
  }

  /** The distinct labels of `ms` in the order of their first occurrence. */
  function FirstSeen(ms: seq<string>): seq<string>
    decreases |ms|
  {
    if ms == [] then [] else Register(FirstSeen(ms[..|ms| - 1]), ms[|ms| - 1])
  }

  /** The index of the first occurrence of `x` in `ms`. */
  ghost function FirstAt(ms: seq<string>, x: string): (i: nat)
    requires x in ms
    ensures i < |ms| && ms[i] == x
    ensures forall j :: 0 <= j < i ==> ms[j] != x
    decreases |ms|
  {
    if ms[0] == x then 0 else 1 + FirstAt(ms[1..], x)
  }

  /** A first occurrence in a prefix is the first occurrence in the whole sequence. */
  lemma FirstAtPrefix(ms: seq<string>, n: nat, x: string)
    requires n <= |ms| && x in ms[..n]
    ensures FirstAt(ms[..n], x) == FirstAt(ms, x)
  {
    var i, k := FirstAt(ms[..n], x), FirstAt(ms, x);
    assert ms[..n][i] == ms[i];
  }

  /** `FirstSeen` lists every label of `ms` exactly once, and in the order of
      their first occurrences. */
  lemma {:induction false} FirstSeenSpec(ms: seq<string>)
    ensures NoDup(FirstSeen(ms))
    ensures forall x :: x in FirstSeen(ms) <==> x in ms
    ensures forall i, j :: 0 <= i < j < |FirstSeen(ms)| ==>
      FirstAt(ms, FirstSeen(ms)[i]) < FirstAt(ms, FirstSeen(ms)[j])
    decreases |ms|
  {
    if ms != [] {
      var n := |ms| - 1;
      var p := ms[..n];
      FirstSeenSpec(p);
      assert ms == p + [ms[n]];
      var f := FirstSeen(ms);
      forall x | x in p ensures FirstAt(p, x) == FirstAt(ms, x) {
        FirstAtPrefix(ms, n, x);
      }
      forall i, j | 0 <= i < j < |f| ensures FirstAt(ms, f[i]) < FirstAt(ms, f[j]) {
        if j == |FirstSeen(p)| {
          assert f[i] in p && f[j] !in p;
          assert FirstAt(ms, f[i]) < n;
        }
      }
    }
  }
}
