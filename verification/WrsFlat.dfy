/**
 The flat view of the weighted selection tree: a row of numbered places, each
 empty or holding an item with a positive weight.
 */
module WrsFlat {
  import opened Basics

  datatype Entry<I> = Entry(item: I, weight: int)

  type Flat<I> = seq<Option<Entry<I>>>

  function WeightAt<I>(e: Option<Entry<I>>): int {
    if e.Some? then e.value.weight else 0
  }

  function Total<I>(f: Flat<I>): int {
    if f == [] then 0 else WeightAt(f[0]) + Total(f[1..])
  }

  function Count<I>(f: Flat<I>): (c: nat)
    ensures c <= |f|
  {
    if f == [] then 0 else (if f[0].Some? then 1 else 0) + Count(f[1..])
  }

  /** All weights are positive. */
  ghost predicate Positive<I>(f: Flat<I>) {
    forall i :: 0 <= i < |f| && f[i].Some? ==> f[i].value.weight > 0
  }

  /** `i` is the lowest free place of `f`. */
  ghost predicate LowestFree<I>(f: Flat<I>, i: nat) {
    i < |f| && f[i].None? && forall j :: 0 <= j < i ==> f[j].Some?
  }

  /** The place whose weight interval, in place order, contains `val`. */
  function Pick<I>(f: Flat<I>, val: int): (i: nat)
    requires 0 <= val < Total(f)
    ensures i < |f|
  {
    var w := WeightAt(f[0]);
    if val < w then 0
    else
      1 + Pick(f[1..], val - w)
  }

  /** The first of them that is not below `val`, stated without the recursion. */
  lemma {:induction false} PickMeaning<I>(f: Flat<I>, val: int, i: nat)
    requires 0 <= val < Total(f) && Positive(f) && i < |f|
    ensures Pick(f, val) == i <==> Total(f[..i]) <= val < Total(f[..i]) + WeightAt(f[i])
    ensures f[Pick(f, val)].Some?
    decreases |f|
  {
    var w := WeightAt(f[0]);
    assert f[..0] == [];
    TotalPositive(f[..i]);
    if i > 0 {
      assert f[..i][1..] == f[1..][..i - 1];
      assert f[..i][0] == f[0];
      TotalPositive(f[1..][..i - 1]);
    }
    if val < w {
    } else {
      if i > 0 {
        PickMeaning(f[1..], val - w, i - 1);
      } else {
        PickMeaning(f[1..], val - w, 0);
      }
    }
  }

  lemma {:induction false} TotalPositive<I>(f: Flat<I>)
    requires Positive(f)
    ensures Total(f) >= 0
    ensures Total(f) == 0 <==> forall i :: 0 <= i < |f| ==> f[i].None?
  {
    if f == [] {
    } else {
      TotalPositive(f[1..]);
      assert forall i :: 0 < i < |f| ==> f[i] == f[1..][i - 1];
    }
  }

  /** The values that pick place `i`. */
  ghost function Hits<I>(f: Flat<I>, i: nat): set<int> {
    set v | 0 <= v < Total(f) && Pick(f, v) == i
  }

  /** Each item is picked by exactly as many values as its weight. */
  lemma HitsEqualWeight<I>(f: Flat<I>, i: nat)
    requires Positive(f) && i < |f| && f[i].Some?
    ensures |Hits(f, i)| == f[i].value.weight
  {
    var lo := Total(f[..i]);
    var w := f[i].value.weight;
    IntervalWithin(f, i);
    forall v: int
      ensures v in Hits(f, i) <==> lo <= v < lo + w
    {
      if 0 <= v < Total(f) { PickMeaning(f, v, i); }
    }
    assert Hits(f, i) == Interval(lo, w);
  }

  lemma IntervalWithin<I>(f: Flat<I>, i: nat)
    requires Positive(f) && i < |f|
    ensures 0 <= Total(f[..i]) && Total(f[..i]) + WeightAt(f[i]) <= Total(f)
  {
    TotalPositive(f[..i]);
    TotalPositive(f[i + 1..]);
    assert f == f[..i] + f[i..];
    TotalConcat(f[..i], f[i..]);
    assert f[i..][1..] == f[i + 1..];
  }

  /** The integers from `lo` up to, not including, `lo + w`. */
  function Interval(lo: int, w: nat): (s: set<int>)
    ensures |s| == w && forall v :: v in s <==> lo <= v < lo + w
  {
    if w == 0 then {} else Interval(lo, w - 1) + {lo + w - 1}
  }

  /** Of the numbers below an old weight, as many are below the new one as it has left of it. */
  lemma StandsInProportion(last: nat, weight: nat)
    ensures |set d | d in Interval(0, last) && d < weight| == if weight < last then weight else last
  {
    assert (set d | d in Interval(0, last) && d < weight) == Interval(0, if weight < last then weight else last);
  }

  lemma {:induction false} TotalConcat<I>(f: Flat<I>, g: Flat<I>)
    ensures Total(f + g) == Total(f) + Total(g)
    ensures Count(f + g) == Count(f) + Count(g)
    decreases |f|
  {
    if f == [] {
      assert f + g == g;
    } else {
      assert (f + g)[1..] == f[1..] + g;
      TotalConcat(f[1..], g);
    }
  }

  lemma TotalUpdate<I>(f: Flat<I>, i: nat, e: Option<Entry<I>>)
    requires i < |f|
    ensures Total(f[i := e]) == Total(f) - WeightAt(f[i]) + WeightAt(e)
    ensures Count(f[i := e]) == Count(f) - (if f[i].Some? then 1 else 0) + (if e.Some? then 1 else 0)
  {
    assert f == f[..i] + [f[i]] + f[i + 1..];
    assert f[i := e] == f[..i] + [e] + f[i + 1..];
    TotalConcat(f[..i] + [f[i]], f[i + 1..]);
    TotalConcat(f[..i] + [e], f[i + 1..]);
    TotalConcat(f[..i], [f[i]]);
    TotalConcat(f[..i], [e]);
  }

  /** A row is full exactly when no place is free. */
  lemma {:induction false} FullMeaning<I>(f: Flat<I>)
    ensures Count(f) == |f| <==> forall i :: 0 <= i < |f| ==> f[i].Some?
  {
    if f == [] {
    } else {
      FullMeaning(f[1..]);
      assert forall i :: 0 < i < |f| ==> f[i] == f[1..][i - 1];
    }
  }

  function Empty<I>(n: nat): (f: Flat<I>)
    ensures |f| == n && Total(f) == 0 && Count(f) == 0 && forall i :: 0 <= i < n ==> f[i].None?
  {
    if n == 0 then [] else
      var f := Empty<I>(n - 1);
      assert ([None] + f)[1..] == f;
      [None] + f
  }

  // ----- rows made of equally long parts -----

  function Join<I>(parts: seq<Flat<I>>): Flat<I> {
    if parts == [] then [] else parts[0] + Join(parts[1..])
  }

  ghost predicate EachLong<I>(parts: seq<Flat<I>>, cap: nat) {
    forall i :: 0 <= i < |parts| ==> |parts[i]| == cap
  }

  lemma {:induction false} JoinLength<I>(parts: seq<Flat<I>>, cap: nat)
    requires EachLong(parts, cap)
    ensures |Join(parts)| == |parts| * cap
  {
    if parts == [] {
    } else {
      JoinLength(parts[1..], cap);
    }
  }

  lemma {:induction false} JoinConcat<I>(p: seq<Flat<I>>, q: seq<Flat<I>>)
    ensures Join(p + q) == Join(p) + Join(q)
    decreases |p|
  {
    if p == [] {
      assert p + q == q;
    } else {
      assert (p + q)[1..] == p[1..] + q;
      JoinConcat(p[1..], q);
    }
  }

  /** A joined row around its part `b`. */
  lemma JoinAround<I>(parts: seq<Flat<I>>, cap: nat, b: nat)
    requires EachLong(parts, cap) && b < |parts|
    ensures Join(parts) == Join(parts[..b]) + parts[b] + Join(parts[b + 1..])
    ensures |Join(parts[..b])| == b * cap
  {
    assert parts == parts[..b] + ([parts[b]] + parts[b + 1..]);
    JoinConcat(parts[..b], [parts[b]] + parts[b + 1..]);
    JoinLength(parts[..b], cap);
    assert ([parts[b]] + parts[b + 1..])[1..] == parts[b + 1..];
  }

  /** Changing one place of one part changes one place of the joined row. */
  lemma JoinUpdate<I>(parts: seq<Flat<I>>, cap: nat, b: nat, j: nat, e: Option<Entry<I>>)
    requires EachLong(parts, cap) && b < |parts| && j < cap
    ensures |Join(parts)| == |parts| * cap && b * cap + j < |Join(parts)|
    ensures Join(parts)[b * cap + j] == parts[b][j]
    ensures Join(parts[b := parts[b][j := e]]) == Join(parts)[b * cap + j := e]
  {
    var parts' := parts[b := parts[b][j := e]];
    JoinAround(parts, cap, b);
    JoinLength(parts, cap);
    JoinAround(parts', cap, b);
    assert parts'[..b] == parts[..b] && parts'[b + 1..] == parts[b + 1..];
    MiddleUpdate(Join(parts[..b]), parts[b], Join(parts[b + 1..]), j, e);
  }

  lemma MiddleUpdate<I>(x: Flat<I>, y: Flat<I>, z: Flat<I>, j: nat, e: Option<Entry<I>>)
    requires j < |y|
    ensures (x + y + z)[|x| + j] == y[j]
    ensures x + y[j := e] + z == (x + y + z)[|x| + j := e]
  {
  }

  /** The lowest free place lies in the first part that is not full. */
  lemma JoinLowestFree<I>(parts: seq<Flat<I>>, cap: nat, b: nat, j: nat)
    requires EachLong(parts, cap) && b < |parts| && LowestFree(parts[b], j)
    requires forall i :: 0 <= i < b ==> Count(parts[i]) == cap
    ensures LowestFree(Join(parts), b * cap + j)
  {
    JoinAround(parts, cap, b);
    FullJoin(parts[..b], cap);
    FreeAfterFull(Join(parts[..b]), parts[b], Join(parts[b + 1..]), j);
  }

  lemma FreeAfterFull<I>(pre: Flat<I>, f: Flat<I>, rest: Flat<I>, j: nat)
    requires LowestFree(f, j) && forall i :: 0 <= i < |pre| ==> pre[i].Some?
    ensures LowestFree(pre + f + rest, |pre| + j)
  {
  }

  lemma {:induction false} FullJoin<I>(parts: seq<Flat<I>>, cap: nat)
    requires forall i :: 0 <= i < |parts| ==> |parts[i]| == cap && Count(parts[i]) == cap
    ensures forall j :: 0 <= j < |Join(parts)| ==> Join(parts)[j].Some?
  {
    if parts == [] {
    } else {
      FullMeaning(parts[0]);
      FullJoin(parts[1..], cap);
    }
  }

  /** Picking from a joined row: walk the part totals, then pick inside the part. */
  lemma {:induction false} JoinPick<I>(parts: seq<Flat<I>>, cap: nat, b: nat, val: int)
    requires EachLong(parts, cap) && b < |parts| && Positive(Join(parts))
    requires 0 <= val < Total(parts[b])
    ensures var v := Total(Join(parts[..b])) + val;
            0 <= v < Total(Join(parts)) && Pick(Join(parts), v) == b * cap + Pick(parts[b], val)
    ensures b * cap + Pick(parts[b], val) < |Join(parts)| && Join(parts)[b * cap + Pick(parts[b], val)] == parts[b][Pick(parts[b], val)]
  {
    var f := Join(parts);
    var pre := Join(parts[..b]);
    JoinAround(parts, cap, b);
    PartPositive(f, pre, parts[b], Join(parts[b + 1..]));
    var i := Pick(parts[b], val);
    PickMeaning(parts[b], val, i);
    var k := b * cap + i;
    assert f[..k] == pre + parts[b][..i];
    TotalConcat(pre, parts[b][..i]);
    IntervalWithin(f, k);
    TotalPositive(pre);
    TotalPositive(parts[b][..i]);
    PickMeaning(f, Total(pre) + val, k);
  }

  lemma PartPositive<I>(f: Flat<I>, x: Flat<I>, y: Flat<I>, z: Flat<I>)
    requires f == x + y + z && Positive(f)
    ensures Positive(x) && Positive(y) && Positive(z)
  {
    assert forall i :: 0 <= i < |x| ==> x[i] == f[i];
    assert forall i :: 0 <= i < |y| ==> y[i] == f[|x| + i];
    assert forall i :: 0 <= i < |z| ==> z[i] == f[|x| + |y| + i];
  }
}
