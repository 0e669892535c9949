/**
 The reference hasher, the Merkle root it computes, and the bridge from that
 root to the node values of the tree.
 */
module BmtReference {
  import opened BmtTree

  /** The largest `m * 2^j` below `l`, for `m < l`. */
  function Split(m: nat, l: nat): (r: nat)
    requires 0 < m < l
    ensures m <= r < l <= 2 * r
    decreases l - m
  {
    if 2 * m >= l then m else Split(2 * m, l)
  }

  /**
   The Merkle root of `d`: up to two segments are hashed directly; longer data is
   cut after the largest power-of-two number of segments, and a right part of at
   most one segment enters unhashed.
   */
  function MerkleRoot(hash: Bytes -> Bytes, size: nat, d: Bytes): Bytes
    requires size > 0
    decreases |d|, 0
  {
    if |d| <= 2 * size then hash(d)
    else
      var m := Split(size, |d|);
      hash(MerkleRoot(hash, size, d[..m]) + RightPart(hash, size, d[m..]))
  }

  function RightPart(hash: Bytes -> Bytes, size: nat, d: Bytes): Bytes
    requires size > 0
    decreases |d|, 1
  {
    if |d| > size then MerkleRoot(hash, size, d) else d
  }

  /** The halving loop of the reference hasher. */
  function Halve(s: nat, l: nat): (r: nat)
    requires l > 1
    ensures r < l && (s > 0 ==> r > 0)
  {
    if s >= l then Halve(s / 2, l) else s
  }

  /** The reference hasher's recursion, with its span argument. */
  function RefHash(hash: Bytes -> Bytes, section: nat, d: Bytes, s: nat): Bytes
    requires section > 0 && s > 0
    decreases |d|
  {
    if |d| <= section then hash(d)
    else
      var m := Halve(s, |d|);
      var right := d[m..];
      hash(RefHash(hash, section, d[..m], m) +
           (if |d| - m > section / 2 then RefHash(hash, section, right, m) else right))
  }

  /** Bytes below a node of height `h`. */
  function Width(size: nat, h: nat): (w: nat)
    ensures size > 0 ==> w >= 2 * size
  {
    if h == 0 then 2 * size else 2 * Width(size, h - 1)
  }

  lemma {:induction false} SplitIsWidth(size: nat, i: nat, j: nat, l: nat)
    requires size > 0 && i <= j && Width(size, j) < l <= 2 * Width(size, j)
    ensures Width(size, i) < l && Split(Width(size, i), l) == Width(size, j)
    decreases j - i
  {
    if i == j {
    } else {
      SplitIsWidth(size, i + 1, j, l);
      assert Width(size, i + 1) == 2 * Width(size, i);
    }
  }

  lemma SplitFromSize(size: nat, j: nat, l: nat)
    requires size > 0 && Width(size, j) < l <= 2 * Width(size, j)
    ensures 2 * size < l && Split(size, l) == Width(size, j)
  {
    SplitIsWidth(size, 0, j, l);
  }

  lemma {:induction false} HalveIsSplit(size: nat, j: nat, l: nat)
    requires size > 0 && 2 * size < l <= 2 * Width(size, j)
    ensures Halve(Width(size, j), l) == Split(size, l)
    ensures exists i: nat :: i <= j && Split(size, l) == Width(size, i) && l <= 2 * Width(size, i)
  {
    if Width(size, j) >= l {
      HalveIsSplit(size, j - 1, l);
      var i: nat :| i <= j - 1 && Split(size, l) == Width(size, i) && l <= 2 * Width(size, i);
    } else {
      SplitFromSize(size, j, l);
    }
  }

  /** Started from a power-of-two span the recursion computes the Merkle root. */
  lemma {:induction false} RefHashIsMerkleRoot(hash: Bytes -> Bytes, size: nat, d: Bytes, j: nat)
    requires size > 0 && |d| <= 2 * Width(size, j)
    ensures RefHash(hash, 2 * size, d, Width(size, j)) == MerkleRoot(hash, size, d)
    decreases |d|
  {
    if |d| <= 2 * size {
    } else {
      var m := Split(size, |d|);
      HalveIsSplit(size, j, |d|);
      var i: nat :| i <= j && m == Width(size, i) && |d| <= 2 * Width(size, i);
      RefHashIsMerkleRoot(hash, size, d[..m], i);
      if |d| - m > size {
        RefHashIsMerkleRoot(hash, size, d[m..], i);
      }
    }
  }

  /** The reference hasher object. */
  class RefHasher {
    const hash: Bytes -> Bytes
    const size: nat
    const count: nat
    var section: nat
    var span: nat
    var limit: nat

    ghost predicate Valid()
      reads this
    {
      && size > 0 && section == 2 * size && limit == size * count
      && exists j: nat :: span == Width(size, j) && limit <= 2 * Width(size, j)
    }

    constructor (hash: Bytes -> Bytes, size: nat, count: nat)
      requires size > 0
      ensures Valid() && this.hash == hash && this.size == size && this.count == count
    {
      var c := 2;
      ghost var j := 0;
      while c < count
        invariant c >= 2 && c == Width(1, j)
        invariant c > 2 ==> j > 0
        decreases count - c
      {
        c := c * 2;
        j := j + 1;
      }
      if c > 2 {
        c := c / 2;
        j := j - 1;
      }
      WidthScales(size, j);
      Fits(count, c, size);
      this.hash, this.size, this.count := hash, size, count;
      section := 2 * size;
      span := c * size;
      limit := size * count;
    }

    /** Data beyond the capacity is cut off; the rest gets its Merkle root. */
    method Hash(d: Bytes) returns (r: Bytes)
      requires Valid()
      ensures r == MerkleRoot(hash, size, if |d| > size * count then d[..size * count] else d)
    {
      var e := if |d| > limit then d[..limit] else d;
      ghost var j: nat :| span == Width(size, j) && limit <= 2 * Width(size, j);
      RefHashIsMerkleRoot(hash, size, e, j);
      r := HashSpan(e, span);
    }

    method HashSpan(d: Bytes, span: nat) returns (r: Bytes)
      requires section > 0 && span > 0
      ensures r == RefHash(hash, section, d, span)
      decreases |d|
    {
      var l := |d|;
      var left := d;
      var right: Bytes := [];
      if l > section {
        var s := span;
        while s >= l
          invariant s > 0 && Halve(s, l) == Halve(span, l)
        {
          s := s / 2;
        }
        left := HashSpan(d[..s], s);
        right := d[s..];
        if l - s > section / 2 {
          right := HashSpan(right, s);
        }
      } else {
        assert left + right == d;
      }
      r := hash(left + right);
    }
  }

  lemma {:induction false} WidthScales(size: nat, j: nat)
    ensures Width(size, j) == Width(1, j) * size
  {
    if j == 0 {
    } else {
      WidthScales(size, j - 1);
    }
  }

  lemma Fits(count: nat, c: nat, size: nat)
    requires count <= 2 * c
    ensures size * count <= 2 * (c * size)
  {
    assert size * count <= size * (2 * c) == 2 * (c * size);
  }
}
