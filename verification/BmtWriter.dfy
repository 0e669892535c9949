/**
 `Hasher.Write`: cutting a stream of writes into double segments.
 */
module BmtWriter {
  import opened Basics
  import opened BmtTree
  import opened BmtSegments

  /** Data that still fits into the open double segment. */
  lemma GrowLast(data: Bytes, x: Bytes, size: nat)
    requires size > 0
    requires var segs := Segments(data, size); |segs[|segs| - 1]| + |x| <= 2 * size
    ensures var segs := Segments(data, size);
            var last := |segs| - 1;
            && LastIndex(data + x, size) == last
            && Segments(data + x, size) == segs[..last] + [segs[last] + x]
  {
    var last := LastIndex(data, size);
    LastStart(data, size);
    SameLast(data, x, size);
    LastStart(data + x, size);
    SameFullSegments(data, x, size);
    assert (data + x)[last * (2 * size)..] == data[last * (2 * size)..] + x;
  }

  lemma SameLast(data: Bytes, x: Bytes, size: nat)
    requires size > 0 && |data + x| <= LastIndex(data, size) * (2 * size) + 2 * size
    ensures LastIndex(data + x, size) == LastIndex(data, size)
  {
    var w := 2 * size;
    var last := LastIndex(data, size);
    if |data| > 0 {
      DivBound(|data|, w, last);
      DivBound(|data + x|, w, last);
    }
    if |data + x| > 0 {
      DivBound(|data + x|, w, last + 1);
      assert (last + 1) * w == last * w + w;
    }
  }

  /** The open double segment starts where the full ones end. */
  lemma LastStart(data: Bytes, size: nat)
    requires size > 0
    ensures var last := LastIndex(data, size);
            && last * (2 * size) <= |data| <= last * (2 * size) + 2 * size
            && Segments(data, size)[last] == data[last * (2 * size)..]
  {
    var w := 2 * size;
    var last := LastIndex(data, size);
    if |data| > 0 {
      DivBound(|data|, w, last);
      DivBound(|data|, w, last + 1);
      assert (last + 1) * w == last * w + w;
    }
  }

  lemma SameFullSegments(data: Bytes, x: Bytes, size: nat)
    requires size > 0
    ensures var last := LastIndex(data, size);
            && last <= LastIndex(data + x, size)
            && Segments(data + x, size)[..last] == Segments(data, size)[..last]
  {
    var w := 2 * size;
    var last := LastIndex(data, size);
    if |data| > 0 {
      DivBound(|data|, w, last);
      DivBound(|data + x|, w, last);
      forall g | 0 <= g < last
        ensures Segments(data + x, size)[g] == Segments(data, size)[g]
      {
        DivBound(|data|, w, g + 1);
        assert (g + 1) * w == g * w + w;
      }
    }
  }

  /** Data that starts the next double segment. */
  lemma NextSegment(data: Bytes, x: Bytes, size: nat)
    requires size > 0 && 0 < |x| <= 2 * size
    requires var segs := Segments(data, size); |segs[|segs| - 1]| == 2 * size
    ensures LastIndex(data + x, size) == LastIndex(data, size) + 1
    ensures Segments(data + x, size) == Segments(data, size) + [x]
  {
    var w := 2 * size;
    var last := LastIndex(data, size);
    LastStart(data, size);
    assert (last + 1) * w == last * w + w;
    assert (last + 2) * w == (last + 1) * w + w;
    DivBound(|data + x|, w, last + 1);
    DivBound(|data + x|, w, last + 2);
    SameFullSegments(data, x, size);
    assert Segments(data + x, size)[last] == data[last * w..];
    assert Segments(data + x, size)[last + 1] == x;
  }

  /** The hasher between `Reset` and `Sum`. */
  class Hasher {
    const size: nat
    const count: nat
    var cur: nat
    var segment: Bytes
    /** The double segments handed to `writeSegment`, in order of leaf index. */
    var launched: seq<Bytes>
    /** All data the hasher holds. */
    ghost var data: Bytes

    ghost predicate Holds(d: Bytes)
      reads this
    {
      size > 0 && cur == LastIndex(d, size) && launched + [segment] == Segments(d, size)
    }

    ghost predicate Valid()
      reads this
    {
      count > 0 && Holds(data) && |data| <= size * count
    }

    ghost function Capacity(): nat {
      size * count
    }

    constructor (size: nat, count: nat)
      requires size > 0 && count > 0
      ensures Valid() && data == [] && this.size == size && this.count == count
    {
      this.size, this.count := size, count;
      cur, segment, launched, data := 0, [], [], [];
      new;
      assert Segments([], size) == [[]];
    }

    /** The one case in which data beyond the capacity is kept. */
    ghost predicate Overruns(b: Bytes)
      reads this
    {
      |data| + |b| > Capacity() && count % 2 == 1 && cur < (count - 1) / 2 && |segment| > 0
    }

    /** The state such a write leaves: at the last leaf, which has room for one segment, more than one is open. */
    ghost predicate Overrun()
      reads this
    {
      count > 0 && Holds(data) && count % 2 == 1 && cur == (count - 1) / 2 && |segment| > size
    }

    /** How much of a write goes to the open segment: the end of a slice, so a negative number panics. */
    function FirstCut(l: nat): int
      reads this
    {
      var room := Room(size, count, cur);
      var need := if l < room then l else room;
      var rest := (if room > size then 2 * size else size) - |segment|;
      if need < rest then need else rest
    }

    /**
     Data up to the capacity is kept exactly as one write of all of it would
     keep it, and excess data is dropped, unless the write overruns. After an
     overrun every write that is not empty panics, and no other write ever does.
     */
    method Write(b: Bytes) returns (n: Option<nat>)
      requires Valid() || Overrun()
      modifies this`cur, this`segment, this`launched, this`data
      ensures n == if old(Overrun()) && |b| > 0 then None else Some(|b|)
      ensures old(Overrun()) ==> Overrun() && data == old(data)
      ensures old(Valid()) && !old(Overruns(b)) ==>
        && Valid()
        && data == if |old(data) + b| <= Capacity() then old(data) + b else (old(data) + b)[..Capacity()]
      ensures old(Valid()) && old(Overruns(b)) ==> Overrun() && data <= old(data) + b && |data| > Capacity()
    {
      n := Some(|b|);
      OpenSegment();
      BeyondCapacity();
      if |b| == 0 {
        assert data + b == data;
        return;
      }
      if FirstCut(|b|) < 0 {
        return None;
      }
      ghost var before, cur0, x := data, cur, |segment|;
      RoomLeft(data, size, count, x);
      var left := Absorb(b);
      OpenSegment();
      Kept(size, count, cur0, cur, x, |segment|, |b|, left, |before|, |data|);
      assert data == (before + b)[..|data|];
      BeyondCapacity();
    }

    /** What lies beyond the capacity is what an overrun has left, and then nothing fits. */
    lemma BeyondCapacity()
      requires count > 0 && Holds(data) && (|data| <= Capacity() || (count % 2 == 1 && cur <= (count + 1) / 2 - 1))
      ensures |data| > Capacity() <==> Overrun()
      ensures forall l: nat :: l > 0 ==> (FirstCut(l) < 0 <==> Overrun())
    {
      OpenSegment();
      if |data| <= Capacity() { Offsets(data, size, count); }
      LeafOffsets(size, count, cur);
      Beyond(size, count % 2 == 1, cur == (count + 1) / 2 - 1, cur * (2 * size), ((count + 1) / 2 - 1) * (2 * size), |segment|);
      forall l: nat | l > 0
        ensures FirstCut(l) < 0 <==> Overrun()
      {
        FirstCutOf(size, Room(size, count, cur), |segment|, l);
      }
    }

    /** `Write` on non-empty input, up to the question how much of it was kept. */
    method Absorb(b: Bytes) returns (left: int)
      requires Valid() && |b| > 0 && cur <= (count + 1) / 2 - 1
      requires Room(size, count, cur) >= |segment| && |segment| <= 2 * size
      requires Room(size, count, cur) <= size ==> cur == (count + 1) / 2 - 1
      modifies this`cur, this`segment, this`launched, this`data
      ensures Holds(data) && old(cur) <= cur <= (count + 1) / 2 - 1
      ensures 0 <= |data| - |old(data)| <= |b| && data == old(data) + b[..|data| - |old(data)|]
      ensures Ended(size, Room(size, count, old(cur)), old(cur), cur, (count + 1) / 2 - 1,
                    old(|segment|), |segment|, |b|, |data| - |old(data)|, left)
    {
      OpenSegment();
      var need := Room(size, count, cur);
      var width := size;
      if need > size {
        width := 2 * width;
      }
      if |b| < need {
        need := |b|;
      }
      var rest := FirstCut(|b|);
      GrowLast(data, b[..rest], size);
      segment := segment + b[..rest];
      ghost var before := data;
      data := data + b[..rest];
      assert launched + [segment] == Segments(data, size);
      left := Push(b, rest, need - rest, width);
      assert data == before + b[..|data| - |before|];
    }

    lemma OpenSegment()
      requires size > 0 && Holds(data)
      ensures |data| == cur * (2 * size) + |segment| && |segment| <= 2 * size
      ensures var segs := Segments(data, size); segs[|segs| - 1] == segment && segs[..cur] == launched
    {
      LastStart(data, size);
      var segs := Segments(data, size);
      assert launched + [segment] == segs;
    }

    /** The loop of `Write`: push full double segments up to the last leaf. */
    method Push(b: Bytes, from: nat, missing: nat, step: nat) returns (left: int)
      requires size > 0 && count > 0 && Holds(data) && from + missing <= |b| && cur <= (count + 1) / 2 - 1
      requires from <= |data| && data[|data| - from..] == b[..from]
      requires missing > 0 ==> |segment| == step
      requires missing > 0 && cur < (count + 1) / 2 - 1 ==> step == 2 * size
      modifies this`cur, this`segment, this`launched, this`data
      ensures Holds(data) && old(cur) <= cur <= (count + 1) / 2 - 1
      ensures |old(data)| <= |data| && |data| - |old(data)| <= missing && data == old(data) + b[from..from + |data| - |old(data)|]
      ensures left <= 0 ==> |data| - |old(data)| == missing
      ensures left > 0 ==> cur == (count + 1) / 2 - 1 && |data| - |old(data)| < missing
      ensures old(cur) == (count + 1) / 2 - 1 ==> left == missing
      ensures left > 0 ==> |segment| == if old(cur) < cur then 2 * size else step
    {
      var s := segment;
      var i := cur;
      var need: int := missing;
      var size' := step;
      var rest := from;
      ghost var d := data;
      while need > 0 && i < (count + 1) / 2 - 1
        invariant data == old(data) && cur == old(cur)
        invariant cur == (count + 1) / 2 - 1 ==> need == missing
        invariant cur <= i <= (count + 1) / 2 - 1 && i == LastIndex(d, size) && launched + [s] == Segments(d, size)
        invariant from <= rest <= from + missing && d == data + b[from..rest]
        invariant need > 0 ==> rest + need == from + missing && |s| == size'
        invariant need > 0 && i < (count + 1) / 2 - 1 ==> size' == 2 * size
        invariant need > 0 && cur < i ==> size' == 2 * size
        invariant need > 0 && cur == i ==> size' == step
        invariant need <= 0 ==> rest == from + missing
        decreases need
      {
        ghost var prior := d;
        launched := launched + [s];
        need := need - size';
        if need < 0 {
          size' := size' + need;
        }
        s := b[rest..rest + size'];
        ghost var rest0 := rest;
        rest := rest + size';
        i := i + 1;
        d := data + b[from..rest];
        assert d == prior + s;
        NextSegment(prior, s, size);
      }
      assert |d| == |data| + rest - from;
      segment := s;
      cur := i;
      data := d;
      left := need;
    }
  }

  function Flatten(parts: seq<Bytes>): Bytes {
    if parts == [] then [] else Flatten(parts[..|parts| - 1]) + parts[|parts| - 1]
  }

  lemma {:induction false} FlattenPrefix(parts: seq<Bytes>, k: nat)
    requires k <= |parts|
    ensures |Flatten(parts[..k])| <= |Flatten(parts)|
    decreases |parts|
  {
    if k < |parts| {
      FlattenPrefix(parts[..|parts| - 1], k);
      assert parts[..|parts| - 1][..k] == parts[..k];
    } else {
      assert parts[..k] == parts;
    }
  }

  /** However the data is split over writes, the hasher ends up holding its double segments. */
  method WriteAll(hr: Hasher, parts: seq<Bytes>)
    requires hr.Valid() && hr.data == [] && |Flatten(parts)| <= hr.Capacity()
    modifies hr
    ensures hr.Valid() && hr.data == Flatten(parts)
    ensures hr.cur == LastIndex(Flatten(parts), hr.size)
    ensures hr.launched + [hr.segment] == Segments(Flatten(parts), hr.size)
  {
    for k := 0 to |parts|
      invariant hr.Valid() && hr.data == Flatten(parts[..k])
    {
      assert parts[..k + 1][..k] == parts[..k];
      FlattenPrefix(parts, k + 1);
      var n := hr.Write(parts[k]);
    }
    assert parts[..|parts|] == parts;
  }

  /** Three one-byte segments: a write of one byte and one of three overrun, and the next one panics. */
  method OverrunExample(x: Byte) returns (n: Option<nat>)
    ensures n == None
  {
    var hr := new Hasher(1, 3);
    n := hr.Write([x]);
    assert hr.data == [x];
    hr.OpenSegment();
    LastStart([x], 1);
    n := hr.Write([x, x, x]);
    n := hr.Write([x]);
  }

  /** The capacity left from the start of leaf `cur`. */
  function Room(size: nat, count: nat, cur: nat): int {
    count * size - cur * 2 * size
  }

  lemma LeafOffsets(size: nat, count: nat, i: nat)
    requires count > 0 && i <= (count + 1) / 2 - 1
    ensures var top := ((count + 1) / 2 - 1) * (2 * size);
            && size * count == top + (if count % 2 == 1 then size else 2 * size)
            && (i == (count + 1) / 2 - 1 || i * (2 * size) + 2 * size <= top)
            && Room(size, count, i) == size * count - i * (2 * size)
  {
    var m := (count + 1) / 2 - 1;
    assert count == 2 * m + (if count % 2 == 1 then 1 else 2);
    assert size * (2 * m) == m * (2 * size);
    if i < m {
      assert (i + 1) * (2 * size) <= m * (2 * size);
      assert (i + 1) * (2 * size) == i * (2 * size) + 2 * size;
    }
  }

  lemma Offsets(data: Bytes, size: nat, count: nat)
    requires size > 0 && count > 0 && |data| <= size * count
    ensures LastIndex(data, size) <= (count + 1) / 2 - 1
  {
    LeafOffsets(size, count, (count + 1) / 2 - 1);
    if |data| > 0 {
      var m := (count + 1) / 2 - 1;
      DivBound(|data|, 2 * size, m + 1);
      assert (m + 1) * (2 * size) == m * (2 * size) + 2 * size;
    }
  }

  /**
   How a write of `l` bytes with room `room` ended: it moved from leaf `c` to leaf
   `c'`, its open segment went from `x` to `x'` bytes, and it kept `got` bytes.
   */
  ghost predicate Ended(size: nat, room: int, c: nat, c': nat, lastLeaf: nat, x: nat, x': nat, l: nat, got: int,
      left: int) {
    var taken := if l < room then l else room;
    var width := if room > size then 2 * size else size;
    && (left <= 0 ==> got == taken && (c == lastLeaf ==> taken <= width - x))
    && (left > 0 ==> c' == lastLeaf && got < taken && x' == if c < c' then 2 * size else width)
  }

  /** Data lies beyond the capacity exactly if the last leaf has room for one segment and more is open. */
  lemma Beyond(size: nat, odd: bool, last: bool, u: nat, top: nat, x: nat)
    requires x <= 2 * size && u <= top && (if last then u == top else u + 2 * size <= top)
    ensures u + x > top + (if odd then size else 2 * size) <==> odd && last && x > size
  {
  }

  lemma FirstCutOf(size: nat, room: int, x: nat, l: nat)
    requires size > 0 && x <= 2 * size && l > 0 && (room >= x || room == size)
    ensures var need := if l < room then l else room;
            var rest := (if room > size then 2 * size else size) - x;
            (if need < rest then need else rest) < 0 <==> room == size && x > size
  {
  }

  lemma RoomLeft(data: Bytes, size: nat, count: nat, x: nat)
    requires size > 0 && count > 0 && |data| <= size * count
    requires |data| == LastIndex(data, size) * (2 * size) + x
    ensures var c := LastIndex(data, size);
            && c <= (count + 1) / 2 - 1 && Room(size, count, c) >= x
            && (Room(size, count, c) <= size ==> c == (count + 1) / 2 - 1)
  {
    Offsets(data, size, count);
    LeafOffsets(size, count, LastIndex(data, size));
  }

  /** How long the data is after a write that ended so. */
  lemma Kept(size: nat, count: nat, c: nat, c': nat, x: nat, x': nat, l: nat, left: int, held: nat, holds: nat)
    requires size > 0 && count > 0 && x <= 2 * size && x' <= 2 * size && c <= c' <= (count + 1) / 2 - 1
    requires held == c * (2 * size) + x && holds == c' * (2 * size) + x' && held <= size * count
    requires Ended(size, Room(size, count, c), c, c', (count + 1) / 2 - 1, x, x', l, holds - held, left)
    ensures
      if held + l <= size * count then holds == held + l
      else if count % 2 == 1 && c < (count - 1) / 2 && x > 0 then size * count < holds
      else holds == size * count
  {
    LeafOffsets(size, count, c);
    LeafOffsets(size, count, c');
    var m := (count + 1) / 2 - 1;
    if c < c' { LeafOrder(size, c, c'); }
    Ending(size, count % 2 == 1, c * (2 * size), c' * (2 * size), m * (2 * size), x, l, x', left);
  }

  lemma LeafOrder(size: nat, c: nat, c': nat)
    requires size > 0 && c < c'
    ensures c * (2 * size) < c' * (2 * size)
  {
    assert (c' - c) * (2 * size) > 0;
  }

  /** How long the data is after a write that ended so. */
  lemma Ending(size: nat, odd: bool, u: nat, u': nat, top: nat, x: nat, l: nat, x': nat, left: int)
    requires size > 0 && x <= 2 * size && x' <= 2 * size && u' <= top && (u == top || u + 2 * size <= top)
    requires var cap := top + (if odd then size else 2 * size);
             var room := cap - u;
             var taken := if l < room then l else room;
             var width := if room > size then 2 * size else size;
             var got := u' + x' - (u + x);
             && u + x <= cap
             && (left <= 0 ==> got == taken && (u == top ==> taken <= width - x))
             && (left > 0 ==> u' == top && got < taken && x' == if u < u' then 2 * size else width)
    ensures var cap := top + (if odd then size else 2 * size);
            if u + x + l <= cap then u' + x' == u + x + l
            else if odd && u < top && x > 0 then cap < u' + x'
            else u' + x' == cap
  {
  }
}
