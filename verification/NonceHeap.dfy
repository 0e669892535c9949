/**
 A binary min-heap of nonces kept in a slice: `nonceHeap` under the heap
 operations of Go's container/heap.
 */
module NonceHeap {

  function Parent(i: nat): (p: nat)
    requires i > 0
    ensures i == 2 * p + 1 || i == 2 * p + 2
  {
    (i - 1) / 2
  }

  /** Among the first `n`, every entry whose parent is at `lo` or later is not below its parent. */
  ghost predicate HeapFrom(h: seq<nat>, lo: nat, n: nat)
    requires n <= |h|
  {
    forall i {:trigger Parent(i)} :: 0 < i < n && Parent(i) >= lo ==> h[Parent(i)] <= h[i]
  }

  ghost predicate IsHeap(h: seq<nat>) {
    HeapFrom(h, 0, |h|)
  }

  function Swap(h: seq<nat>, i: nat, j: nat): (r: seq<nat>)
    requires i < |h| && j < |h|
    ensures |r| == |h| && multiset(r) == multiset(h)
    ensures r[i] == h[j] && r[j] == h[i] && forall k :: 0 <= k < |h| && k != i && k != j ==> r[k] == h[k]
  {
    h[i := h[j]][j := h[i]]
  }

  /** The root of a heap is its least entry. */
  lemma {:induction false} RootIsLeast(h: seq<nat>, i: nat)
    requires IsHeap(h) && i < |h|
    ensures h[0] <= h[i]
  {
    if i == 0 {
    } else {
      RootIsLeast(h, Parent(i));
    }
  }

  /** In heap order except that entry `j` may be below its parent. */
  ghost predicate RisesAt(h: seq<nat>, j: nat) {
    && j < |h|
    && (forall i {:trigger Parent(i)} :: 0 < i < |h| && i != j ==> h[Parent(i)] <= h[i])
    && (forall i {:trigger Parent(i)} :: 0 < i < |h| && Parent(i) == j && j > 0 ==> h[Parent(j)] <= h[i])
  }

  /** Lets an entry rise to its place. */
  method Rise(h: seq<nat>, at: nat) returns (r: seq<nat>)
    requires RisesAt(h, at)
    ensures IsHeap(r) && multiset(r) == multiset(h) && |r| == |h|
  {
    r := h;
    var j := at;
    while j > 0 && r[j] < r[Parent(j)]
      invariant RisesAt(r, j) && multiset(r) == multiset(h) && |r| == |h|
      decreases j
    {
      r := Swap(r, Parent(j), j);
      j := Parent(j);
    }
  }

  /** From `lo` in heap order except that entry `j` may be above its children. */
  ghost predicate SinksAt(h: seq<nat>, lo: nat, j: nat, n: nat) {
    && n <= |h| && lo <= j < n
    && (forall i {:trigger Parent(i)} :: 0 < i < n && Parent(i) >= lo && Parent(i) != j ==> h[Parent(i)] <= h[i])
    && (forall i {:trigger Parent(i)} :: 0 < i < n && Parent(i) == j && j > lo ==> h[Parent(j)] <= h[i])
    && (j > lo ==> Parent(j) >= lo)
  }

  /** What sinking may change: entries at `lo` and below it in the tree. */
  ghost predicate Sunk(h: seq<nat>, r: seq<nat>, lo: nat, n: nat) {
    && |r| == |h| && lo < n <= |h| && multiset(r) == multiset(h)
    && (forall k :: 0 <= k < lo || n <= k < |h| ==> r[k] == h[k])
    && (forall k {:trigger Parent(k)} :: lo < k < n && Parent(k) < lo ==> r[k] == h[k])
  }

  /** The entry at `lo` used to be one of its children. */
  ghost predicate FromChild(h: seq<nat>, lo: nat, n: nat, x: nat)
    requires n <= |h|
  {
    exists c :: lo < c < n && Parent(c) == lo && h[c] == x
  }

  /** `c` is the smaller child of `j`. */
  ghost predicate SmallerChild(h: seq<nat>, j: nat, n: nat, c: nat) {
    && n <= |h| && j < c < n && Parent(c) == j
    && forall i {:trigger Parent(i)} :: 0 < i < n && Parent(i) == j ==> h[c] <= h[i]
  }

  lemma SinkStep(h: seq<nat>, lo: nat, j: nat, n: nat, c: nat)
    requires SinksAt(h, lo, j, n) && SmallerChild(h, j, n, c) && h[c] < h[j]
    ensures SinksAt(Swap(h, j, c), lo, c, n)
  {
  }

  lemma SinkDone(h: seq<nat>, lo: nat, j: nat, n: nat)
    requires SinksAt(h, lo, j, n)
    requires 2 * j + 1 >= n || exists c: nat :: SmallerChild(h, j, n, c) && h[c] >= h[j]
    ensures HeapFrom(h, lo, n)
  {
  }

  /** Picks the smaller child. */
  method Child(h: seq<nat>, j: nat, n: nat) returns (c: nat)
    requires 2 * j + 1 < n <= |h|
    ensures SmallerChild(h, j, n, c)
  {
    c := 2 * j + 1;
    if c + 1 < n && h[c + 1] < h[c] {
      c := c + 1;
    }
  }

  /** Lets an entry sink to its place among the first `n`; says whether it moved. */
  method Sink(h: seq<nat>, lo: nat, n: nat) returns (r: seq<nat>, moved: bool)
    requires SinksAt(h, lo, lo, n)
    ensures Sunk(h, r, lo, n) && HeapFrom(r, lo, n)
    ensures if moved then FromChild(h, lo, n, r[lo]) else r == h
  {
    r, moved := h, false;
    var j := lo;
    while 2 * j + 1 < n
      invariant SinksAt(r, lo, j, n) && Sunk(h, r, lo, n)
      invariant if moved then FromChild(h, lo, n, r[lo]) && j > lo else r == h && j == lo
      decreases n - j
    {
      var c := Child(r, j, n);
      if r[c] >= r[j] {
        break;
      }
      SinkStep(r, lo, j, n, c);
      r := Swap(r, j, c);
      j := c;
      moved := true;
    }
    SinkDone(r, lo, j, n);
  }

  /** `heap.Init`: any slice becomes a heap of the same nonces. */
  method Init(h: seq<nat>) returns (r: seq<nat>)
    ensures IsHeap(r) && multiset(r) == multiset(h) && |r| == |h|
  {
    r := h;
    var i := |h| / 2;
    while i > 0
      invariant 0 <= i <= |h| / 2 && |r| == |h| && multiset(r) == multiset(h) && HeapFrom(r, i, |r|)
    {
      i := i - 1;
      var moved;
      r, moved := Sink(r, i, |r|);
    }
  }

  /** `heap.Push`. */
  method Push(h: seq<nat>, nonce: nat) returns (r: seq<nat>)
    requires IsHeap(h)
    ensures IsHeap(r) && multiset(r) == multiset(h) + multiset{nonce}
  {
    r := Rise(h + [nonce], |h|);
  }

  /** `heap.Pop`: takes the least nonce. */
  method Pop(h: seq<nat>) returns (r: seq<nat>, least: nat)
    requires IsHeap(h) && |h| > 0
    ensures IsHeap(r) && |r| == |h| - 1 && multiset(h) == multiset(r) + multiset{least}
    ensures least == h[0] && forall i :: 0 <= i < |h| ==> least <= h[i]
  {
    forall i | 0 <= i < |h|
      ensures h[0] <= h[i]
    {
      RootIsLeast(h, i);
    }
    var n := |h| - 1;
    r := Swap(h, 0, n);
    if n > 0 {
      var moved;
      r, moved := Sink(r, 0, n);
    }
    r, least := DropLast(r);
  }

  /** The heap's own `Pop`: takes the last entry of the slice. */
  method DropLast(h: seq<nat>) returns (r: seq<nat>, last: nat)
    requires |h| > 0
    ensures r == h[..|h| - 1] && last == h[|h| - 1]
    ensures multiset(h) == multiset(r) + multiset{last}
  {
    assert h == h[..|h| - 1] + [h[|h| - 1]];
    r, last := h[..|h| - 1], h[|h| - 1];
  }

  /** An entry that sank in the place of the removed one leaves a heap. */
  lemma SankIsHeap(h: seq<nat>, at: nat, r: seq<nat>)
    requires IsHeap(h) && at < |h| - 1
    requires Sunk(Swap(h, at, |h| - 1), r, at, |h| - 1) && FromChild(Swap(h, at, |h| - 1), at, |h| - 1, r[at])
    requires HeapFrom(r, at, |h| - 1)
    ensures IsHeap(r[..|h| - 1])
  {
    var n := |h| - 1;
    var c :| at < c < n && Parent(c) == at && Swap(h, at, n)[c] == r[at];
    assert h[at] <= h[c];
    forall i | 0 < i < n
      ensures r[Parent(i)] <= r[i]
    {
      if Parent(i) < at { assert h[Parent(i)] <= h[i]; }
    }
  }

  /** An entry that did not sink in the place of the removed one may have to rise. */
  lemma StayedMayRise(h: seq<nat>, at: nat)
    requires IsHeap(h) && at < |h| - 1 && HeapFrom(Swap(h, at, |h| - 1), at, |h| - 1)
    ensures RisesAt(Swap(h, at, |h| - 1)[..|h| - 1], at)
  {
    var r := Swap(h, at, |h| - 1);
    forall i | 0 < i < |h| - 1 && i != at
      ensures r[Parent(i)] <= r[i]
    {
      if Parent(i) != at { assert h[Parent(i)] <= h[i]; }
    }
    forall i | 0 < i < |h| - 1 && Parent(i) == at && at > 0
      ensures r[Parent(at)] <= r[i]
    {
      assert h[Parent(at)] <= h[at] <= h[i];
    }
  }

  /** The entry put in the place of the removed one may have to sink. */
  lemma SwapMaySink(h: seq<nat>, at: nat)
    requires IsHeap(h) && at < |h| - 1
    ensures SinksAt(Swap(h, at, |h| - 1), at, at, |h| - 1)
  {
    var r := Swap(h, at, |h| - 1);
    forall i | 0 < i < |h| - 1 && Parent(i) >= at && Parent(i) != at
      ensures r[Parent(i)] <= r[i]
    {
      assert h[Parent(i)] <= h[i];
    }
  }

  /** Puts the last entry in the place of the removed one and lets it sink. */
  method Refill(h: seq<nat>, at: nat) returns (r: seq<nat>, moved: bool)
    requires IsHeap(h) && at < |h| - 1
    ensures moved ==> IsHeap(r)
    ensures !moved ==> RisesAt(r, at)
    ensures multiset(h) == multiset(r) + multiset{h[at]}
  {
    SwapMaySink(h, at);
    var s;
    s, moved := Sink(Swap(h, at, |h| - 1), at, |h| - 1);
    if moved {
      SankIsHeap(h, at, s);
    } else {
      StayedMayRise(h, at);
    }
    r := s[..|h| - 1];
    LastIsRemoved(h, at, s);
  }

  lemma LastIsRemoved(h: seq<nat>, at: nat, s: seq<nat>)
    requires at < |h| - 1 && Sunk(Swap(h, at, |h| - 1), s, at, |h| - 1)
    ensures multiset(h) == multiset(s[..|h| - 1]) + multiset{h[at]}
  {
    assert s[|h| - 1] == h[at];
    assert s == s[..|h| - 1] + [s[|h| - 1]];
  }

  /** `heap.Remove`: takes the entry at a position. */
  method Remove(h: seq<nat>, at: nat) returns (r: seq<nat>)
    requires IsHeap(h) && at < |h|
    ensures IsHeap(r) && multiset(h) == multiset(r) + multiset{h[at]}
  {
    if at != |h| - 1 {
      var moved;
      r, moved := Refill(h, at);
      if !moved {
        r := Rise(r, at);
      }
    } else {
      var last;
      r, last := DropLast(h);
    }
  }
}
