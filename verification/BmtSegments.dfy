/**
 How data is cut into double segments, and why the value at the top of the tree
 over them is the Merkle root of the data.
 */
module BmtSegments {
  import opened BmtTree
  import opened BmtReference

  /** The index of the double segment holding the last byte of `data`. */
  function LastIndex(data: Bytes, size: nat): nat
    requires size > 0
  {
    if |data| == 0 then 0 else (|data| - 1) / (2 * size)
  }

  function Min(a: int, b: int): int {
    if a < b then a else b
  }

  /** The bytes of `data` below node `(h, k)`. */
  function Slice(data: Bytes, size: nat, n: Node): Bytes
  {
    var w := Width(size, n.h);
    var lo := Min(n.k * w, |data|);
    data[lo..Min(lo + w, |data|)]
  }

  function Segments(data: Bytes, size: nat): (segs: seq<Bytes>)
    requires size > 0
    ensures |segs| == LastIndex(data, size) + 1
  {
    seq(LastIndex(data, size) + 1, g requires 0 <= g => Slice(data, size, Node(0, g)))
  }

  function ChunkOf(hash: Bytes -> Bytes, size: nat, depth: nat, data: Bytes): Chunk
    requires size > 0
  {
    Chunk(hash, size, depth, Segments(data, size))
  }

  lemma DivBound(l: nat, w: nat, k: nat)
    requires l > 0 && w > 0
    ensures k <= (l - 1) / w <==> k * w < l
  {
    var q, r := (l - 1) / w, (l - 1) % w;
    assert l - 1 == q * w + r;
    if k <= q {
      assert k * w <= q * w;
    } else {
      assert k * w >= (q + 1) * w == q * w + w;
    }
  }

  /** A node has data below it exactly when its slice starts inside the data. */
  lemma {:induction false} ActiveMeaning(data: Bytes, size: nat, n: Node)
    requires size > 0 && |data| > 0
    ensures n.k <= Anc(LastIndex(data, size), n.h) <==> n.k * Width(size, n.h) < |data|
    decreases n.h
  {
    if n.h == 0 {
      DivBound(|data|, 2 * size, n.k);
    } else {
      ActiveMeaning(data, size, Node(n.h - 1, 2 * n.k));
      Regroup(n.k, Width(size, n.h - 1));
    }
  }

  lemma Regroup(k: nat, w: nat)
    ensures k * (2 * w) == (2 * k) * w
    ensures (2 * k + 1) * w == (2 * k) * w + w
  {
  }

  /** Every double segment but the last is full. */
  lemma FullSegment(data: Bytes, size: nat, g: nat)
    requires size > 0 && g < LastIndex(data, size)
    ensures |Slice(data, size, Node(0, g))| == 2 * size
  {
    DivBound(|data|, 2 * size, g + 1);
    assert (g + 1) * (2 * size) == g * (2 * size) + 2 * size;
  }

  /** Full double segments come first, and a short one only at the end. */
  lemma ChunkIsValid(hash: Bytes -> Bytes, size: nat, depth: nat, data: Bytes)
    requires size > 0 && Anc(LastIndex(data, size), depth) == 0
    ensures ChunkOf(hash, size, depth, data).Valid()
  {
    var ch := ChunkOf(hash, size, depth, data);
    forall g | 0 <= g < |ch.segs| - 1
      ensures |ch.segs[g]| == 2 * size
    {
      FullSegment(data, size, g);
    }
  }

  /** Splitting the slice of a balanced node gives the slices of its children. */
  lemma SliceSplits(data: Bytes, size: nat, n: Node)
    requires size > 0 && n.h > 0 && |data| > 0 && n.k <= Anc(LastIndex(data, size), n.h)
    ensures var w := Width(size, n.h - 1);
            var x := Slice(data, size, n);
            if 2 * n.k + 1 <= Anc(LastIndex(data, size), n.h - 1) then
              && w < |x| <= 2 * w
              && Slice(data, size, Node(n.h - 1, 2 * n.k)) == x[..w]
              && Slice(data, size, Node(n.h - 1, 2 * n.k + 1)) == x[w..]
            else
              Slice(data, size, Node(n.h - 1, 2 * n.k)) == x
  {
    ActiveMeaning(data, size, n);
    ActiveMeaning(data, size, Node(n.h - 1, 2 * n.k + 1));
    Regroup(n.k, Width(size, n.h - 1));
  }

  lemma RootOfSplit(hash: Bytes -> Bytes, size: nat, x: Bytes, j: nat)
    requires size > 0 && Width(size, j) < |x| <= 2 * Width(size, j)
    ensures var w := Width(size, j);
            RightPart(hash, size, x) == hash(RightPart(hash, size, x[..w]) + RightPart(hash, size, x[w..]))
  {
    SplitFromSize(size, j, |x|);
  }

  lemma LeafValue(hash: Bytes -> Bytes, size: nat, depth: nat, data: Bytes, k: nat)
    requires size > 0 && 0 < LastIndex(data, size) && k <= LastIndex(data, size)
    ensures ChunkOf(hash, size, depth, data).Val(Node(0, k)) == RightPart(hash, size, Slice(data, size, Node(0, k)))
  {
    var ch := ChunkOf(hash, size, depth, data);
    assert ch.segs[k] == Slice(data, size, Node(0, k));
    if k < ch.Last() { FullSegment(data, size, k); }
  }

  /** The value of an inner node, from its children's. */
  lemma InnerValue(hash: Bytes -> Bytes, size: nat, ch: Chunk, n: Node, x: Bytes)
    requires |ch.segs| > 0 && ch.hash == hash && ch.size == size > 0 && n.h > 0 && ch.Active(n)
    requires ch.Active(Node(n.h - 1, 2 * n.k))
    requires if ch.Balanced(n) then
        && Width(size, n.h - 1) < |x| <= 2 * Width(size, n.h - 1)
        && ch.Val(Node(n.h - 1, 2 * n.k)) == RightPart(hash, size, x[..Width(size, n.h - 1)])
        && ch.Val(Node(n.h - 1, 2 * n.k + 1)) == RightPart(hash, size, x[Width(size, n.h - 1)..])
      else ch.Val(Node(n.h - 1, 2 * n.k)) == RightPart(hash, size, x)
    ensures ch.Val(n) == RightPart(hash, size, x)
  {
    if ch.Balanced(n) { RootOfSplit(hash, size, x, n.h - 1); }
  }

  /**
   Every node holds the Merkle root of the data below it, or that data itself
   when it is a lone segment.
   */
  lemma {:induction false} NodeValue(hash: Bytes -> Bytes, size: nat, depth: nat, data: Bytes, n: Node)
    requires size > 0 && LastIndex(data, size) > 0
    requires n.k <= Anc(LastIndex(data, size), n.h)
    ensures ChunkOf(hash, size, depth, data).Val(n) == RightPart(hash, size, Slice(data, size, n))
    decreases n.h
  {
    if n.h == 0 {
      LeafValue(hash, size, depth, data, n.k);
    } else {
      SliceSplits(data, size, n);
      NodeValue(hash, size, depth, data, Node(n.h - 1, 2 * n.k));
      if 2 * n.k + 1 <= Anc(LastIndex(data, size), n.h - 1) {
        NodeValue(hash, size, depth, data, Node(n.h - 1, 2 * n.k + 1));
      }
      InnerValue(hash, size, ChunkOf(hash, size, depth, data), n, Slice(data, size, n));
    }
  }

  lemma LoneValue(hash: Bytes -> Bytes, size: nat, depth: nat, data: Bytes)
    requires size > 0 && LastIndex(data, size) == 0
    ensures var ch := ChunkOf(hash, size, depth, data);
            ch.segs == [data] && ch.Val(Node(0, 0)) == MerkleRoot(hash, size, data)
  {
    var ch := ChunkOf(hash, size, depth, data);
    if |data| > 0 {
      DivBound(|data|, 2 * size, 1);
    }
    assert ch.segs[0] == Slice(data, size, Node(0, 0)) == data;
  }

  /** The node that delivers the result holds the Merkle root of the whole data. */
  lemma TopValue(hash: Bytes -> Bytes, size: nat, depth: nat, data: Bytes)
    requires size > 0
    ensures var ch := ChunkOf(hash, size, depth, data);
            ch.Active(ch.TopNode()) && ch.Val(ch.TopNode()) == MerkleRoot(hash, size, data)
  {
    var ch := ChunkOf(hash, size, depth, data);
    var c := ch.Last();
    RootHeightMeaning(c, ch.Top());
    if c == 0 {
      LoneValue(hash, size, depth, data);
    } else {
      NodeValue(hash, size, depth, data, ch.TopNode());
      WholeSlice(data, size, ch.Top());
    }
  }

  /** The top node has all the data below it, which is more than a double segment. */
  lemma WholeSlice(data: Bytes, size: nat, h: nat)
    requires size > 0 && LastIndex(data, size) > 0 && Anc(LastIndex(data, size), h) == 0
    ensures Slice(data, size, Node(h, 0)) == data && |data| > 2 * size
  {
    DivBound(|data|, 2 * size, 1);
    ActiveMeaning(data, size, Node(h, 1));
  }

  /** The height of the tree `NewTree` builds for `n` segments. */
  method Depth(n: int) returns (d: nat)
    requires n > 0
    ensures Anc((n - 1) / 2, d) == 0
    ensures d == RootHeight((n - 1) / 2)
  {
    var l := (n - 1) / 2;
    d := 0;
    while l > 0
      invariant 0 <= l == Anc((n - 1) / 2, d)
      invariant d + RootHeight(l) == RootHeight((n - 1) / 2)
    {
      l := l / 2;
      d := d + 1;
    }
  }

  /** Data within the capacity never climbs past the top of that tree. */
  lemma CapacityFits(data: Bytes, size: nat, count: nat, depth: nat)
    requires size > 0 && count > 0 && |data| <= size * count
    requires Anc((count - 1) / 2, depth) == 0
    ensures Anc(LastIndex(data, size), depth) == 0
  {
    var m := (count - 1) / 2;
    if |data| > 0 {
      DivBound(|data|, 2 * size, m + 1);
      Fits(count, m + 1, size);
      assert 2 * ((m + 1) * size) == (m + 1) * (2 * size);
    }
    AncMonotone(LastIndex(data, size), m, depth);
  }
}
