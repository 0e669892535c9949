/**
 The shape of a binary Merkle tree over double segments, and the value each of
 its nodes hands to its parent.

 A node is named by its height `h` above the leaves and its index `k` on that
 level. Leaf `g` lies below node `(h, k)` exactly when halving `g` `h` times
 gives `k`; no power of two is needed to say so.
 */
module BmtTree {
  import opened Basics

  type Bytes = seq<Byte>

  datatype Node = Node(h: nat, k: nat)

  /** The index, at height `h`, of the node above leaf `g`. */
  function Anc(g: nat, h: nat): nat {
    if h == 0 then g else Anc(g, h - 1) / 2
  }

  /** The lowest height at which the node above leaf `c` is the leftmost one. */
  function RootHeight(c: nat): nat {
    if c == 0 then 0 else 1 + RootHeight(c / 2)
  }

  function Parent(n: Node): Node {
    Node(n.h + 1, n.k / 2)
  }

  /** The nodes `NewTree` creates for a tree whose top has height `depth`. */
  predicate InTree(depth: nat, n: Node) {
    n.h <= depth && Anc(n.k, depth - n.h) == 0
  }

  lemma {:induction false} AncMonotone(a: nat, b: nat, h: nat)
    requires a <= b
    ensures Anc(a, h) <= Anc(b, h)
  {
    if h == 0 {
    } else {
      AncMonotone(a, b, h - 1);
    }
  }

  lemma {:induction false} AncFromHalf(g: nat, h: nat)
    requires h > 0
    ensures Anc(g, h) == Anc(g / 2, h - 1)
  {
    if h <= 1 {
    } else {
      AncFromHalf(g, h - 1);
    }
  }

  lemma {:induction false} AncCompose(g: nat, h: nat, j: nat)
    ensures Anc(Anc(g, h), j) == Anc(g, h + j)
  {
    if j == 0 {
    } else {
      AncCompose(g, h, j - 1);
    }
  }

  /** A common node stays common further up. */
  lemma {:induction false} AncSame(a: nat, b: nat, h: nat, j: nat)
    requires Anc(a, h) == Anc(b, h) && h <= j
    ensures Anc(a, j) == Anc(b, j)
    decreases j
  {
    if h == j {
    } else {
      AncSame(a, b, h, j - 1);
    }
  }

  /** `RootHeight` is exactly where the climb from leaf `c` meets the left edge. */
  lemma {:induction false} RootHeightMeaning(c: nat, h: nat)
    ensures Anc(c, h) == 0 <==> RootHeight(c) <= h
  {
    if c == 0 {
      AncMonotone(0, 0, h);
      AncZero(h);
    } else if h > 0 {
      AncFromHalf(c, h);
      RootHeightMeaning(c / 2, h - 1);
    }
  }

  lemma {:induction false} AncZero(h: nat)
    ensures Anc(0, h) == 0
  {
    if h == 0 {
    } else {
      AncZero(h - 1);
    }
  }

  /**
   One chunk as the concurrent hasher sees it: the base hash, the segment size,
   the height of the tree, and the double segments of the data, the last of
   which may be short.
   */
  datatype Chunk = Chunk(hash: Bytes -> Bytes, size: nat, depth: nat, segs: seq<Bytes>)
  {
    ghost predicate Valid() {
      && size > 0
      && |segs| > 0
      && Anc(|segs| - 1, depth) == 0
      && (forall g :: 0 <= g < |segs| - 1 ==> |segs[g]| == 2 * size)
      && |segs[|segs| - 1]| <= 2 * size
    }

    /** The index of the last double segment, `hr.cur` when `Sum` runs. */
    function Last(): nat
      requires |segs| > 0
    {
      |segs| - 1
    }

    /** Whether some data lies below node `n`. */
    predicate Active(n: Node)
      requires |segs| > 0
    {
      n.k <= Anc(Last(), n.h)
    }

    /** Whether data lies below both children of `n`. */
    predicate Balanced(n: Node)
      requires |segs| > 0
    {
      n.h > 0 && 2 * n.k + 1 <= Anc(Last(), n.h - 1)
    }

    /** Whether `n` lies on the way up from the last double segment. */
    predicate OnPath(n: Node)
      requires |segs| > 0
    {
      n.k == Anc(Last(), n.h)
    }

    /** Whether that way enters `n` from its left. */
    predicate FromLeft(n: Node)
      requires |segs| > 0
    {
      n.h == 0 || Anc(Last(), n.h - 1) % 2 == 0
    }

    /** The height of the node that delivers the chunk's hash. */
    function Top(): nat
      requires |segs| > 0
    {
      RootHeight(Last())
    }

    function TopNode(): Node
      requires |segs| > 0
    {
      Node(Top(), 0)
    }

    /** What node `n` hands upwards: a hash, or a lone left input unchanged. */
    function Val(n: Node): Bytes
      requires |segs| > 0 && Active(n)
      decreases n.h
    {
      if n.h == 0 then
        if n.k < Last() || Last() == 0 || |segs[n.k]| > size then hash(segs[n.k]) else segs[n.k]
      else if Balanced(n) then
        hash(Val(Node(n.h - 1, 2 * n.k)) + Val(Node(n.h - 1, 2 * n.k + 1)))
      else
        Val(Node(n.h - 1, 2 * n.k))
    }

    /** The value stored in the left or right half of `n`. */
    function Input(n: Node, isLeft: bool): Bytes
      requires |segs| > 0 && Active(n) && (!isLeft ==> Balanced(n))
    {
      if n.h == 0 then segs[n.k]
      else Val(Node(n.h - 1, if isLeft then 2 * n.k else 2 * n.k + 1))
    }
  }

  /** An active node off the path, or entered from its right, has two inputs. */
  lemma BalancedMeaning(ch: Chunk, n: Node)
    requires |ch.segs| > 0 && ch.Active(n)
    ensures !ch.OnPath(n) ==> n.h > 0 ==> ch.Balanced(n)
    ensures ch.OnPath(n) ==> (ch.Balanced(n) <==> !ch.FromLeft(n))
  {
  }

  /** Every active node up to the delivering one belongs to the tree. */
  lemma ActiveInTree(ch: Chunk, n: Node)
    requires ch.Valid() && ch.Active(n) && n.h <= ch.depth
    ensures InTree(ch.depth, n)
  {
    AncMonotone(n.k, Anc(ch.Last(), n.h), ch.depth - n.h);
    AncCompose(ch.Last(), n.h, ch.depth - n.h);
  }

  lemma TopWithinTree(ch: Chunk)
    requires ch.Valid()
    ensures ch.Top() <= ch.depth
  {
    RootHeightMeaning(ch.Last(), ch.depth);
  }
}
