/**
 What every step of the concurrent hasher keeps.

 The heart is `Separate`: once some goroutine has gone past a node, every other
 goroutine below that node has stopped at or below it. From it follow that no
 half of a node is stored twice, that each counter is turned exactly once per
 input, and that at most one goroutine ever delivers a result.
 */
module BmtInvariant {
  import opened BmtTree
  import opened BmtProtocol

  /** The number of levels goroutine state `p` has gone past. */
  function Exits(ch: Chunk, p: Proc): nat
    requires |ch.segs| > 0
  {
    match p
    case Unborn => 0
    case Hashing => 0
    case Storing(n, _, _, _) => n.h
    case Loading(n, _, _) => n.h
    case Toggling(n, _, _) => n.h
    case ReadingLeft(n, _, _, _) => n.h + 1
    case ReadingRight(n, _, _, _) => n.h + 1
    case Leaving(n, _, _) => n.h + 1
    case Returned(n) => n.h
    case Sending(_) => ch.Top() + 1
    case Sent => ch.Top() + 1
  }

  /** Whether goroutine `g` enters its node of height `h` from the left. */
  predicate SideOf(g: nat, h: nat) {
    h == 0 || Anc(g, h - 1) % 2 == 0
  }

  ghost predicate Placed(ch: Chunk, g: nat, n: Node, isLeft: bool)
    requires |ch.segs| > 0
  {
    && n.h <= ch.Top() && InTree(ch.depth, n)
    && n.k == Anc(g, n.h) && isLeft == SideOf(g, n.h)
    && ch.Active(n) && (!isLeft ==> ch.Balanced(n))
    && (n.h == 0 ==> g == ch.Last() && LeafRun(ch))
  }

  function Half(cell: Cell, isLeft: bool): Bytes {
    if isLeft then cell.left else cell.right
  }

  /** Both inputs of `n` have arrived; a missing right input reads as empty. */
  ghost predicate RightReady(ch: Chunk, cell: Cell, n: Node)
    requires |ch.segs| > 0 && ch.Active(n)
  {
    if ch.Balanced(n) then cell.right == ch.Input(n, false) else cell.right == []
  }

  /** The local counter `i` is zero only where the whole chunk is one segment. */
  predicate CounterOk(ch: Chunk, g: nat, i: nat)
    requires |ch.segs| > 0
  {
    g == ch.Last() ==> (i == 0 <==> ch.Last() == 0)
  }

  ghost predicate ProcOk(ch: Chunk, cells: map<Node, Cell>, g: nat, p: Proc)
    requires |ch.segs| > 0
  {
    match p
    case Unborn => true
    case Hashing => g < ch.Last() || !LeafRun(ch)
    case Storing(n, isLeft, i, s) =>
      Placed(ch, g, n, isLeft) && CounterOk(ch, g, i) && s == ch.Input(n, isLeft)
    case Loading(n, isLeft, i) =>
      Placed(ch, g, n, isLeft) && CounterOk(ch, g, i) && n in cells && Half(cells[n], isLeft) == ch.Input(n, isLeft)
    case Toggling(n, isLeft, i) =>
      && Placed(ch, g, n, isLeft) && CounterOk(ch, g, i) && n in cells && Half(cells[n], isLeft) == ch.Input(n, isLeft)
      && ch.Balanced(n)
    case ReadingLeft(n, isLeft, i, unb) =>
      && Placed(ch, g, n, isLeft) && CounterOk(ch, g, i) && n in cells
      && cells[n].left == ch.Input(n, true) && RightReady(ch, cells[n], n)
      && unb == !ch.Balanced(n)
    case ReadingRight(n, i, l, rehash) =>
      && Placed(ch, g, n, SideOf(g, n.h)) && CounterOk(ch, g, i) && n in cells
      && l == ch.Input(n, true) && RightReady(ch, cells[n], n)
      && rehash == (ch.Balanced(n) || ch.Last() == 0)
    case Leaving(n, i, s) =>
      Placed(ch, g, n, SideOf(g, n.h)) && CounterOk(ch, g, i) && s == ch.Val(n)
    case Returned(n) =>
      && Placed(ch, g, n, SideOf(g, n.h)) && ch.Balanced(n) && n in cells
      && Half(cells[n], SideOf(g, n.h)) == ch.Input(n, SideOf(g, n.h))
    case Sending(s) => ch.Active(ch.TopNode()) && s == ch.Val(ch.TopNode())
    case Sent => true
  }

  ghost predicate ProcsOk(ch: Chunk, cells: map<Node, Cell>, procs: seq<Proc>)
    requires |ch.segs| > 0
  {
    |procs| == |ch.segs| && forall g :: 0 <= g < |procs| ==> ProcOk(ch, cells, g, procs[g])
  }

  /** Of the goroutines below a node, at most one has gone past it. */
  ghost predicate Separate(ch: Chunk, procs: seq<Proc>)
    requires |ch.segs| > 0
  {
    forall g, g', h: nat ::
      0 <= g < |procs| && 0 <= g' < |procs| && g != g' && h <= ch.Top()
      && Anc(g, h) == Anc(g', h) && h < Exits(ch, procs[g])
      ==> procs[g'].Returned? && Exits(ch, procs[g']) <= h
  }

  /** Some goroutine has stopped at `n`. */
  ghost predicate Waiting(procs: seq<Proc>, n: Node) {
    exists g :: 0 <= g < |procs| && procs[g] == Returned(n)
  }

  /** Some goroutine has gone past `n`. */
  ghost predicate Passed(ch: Chunk, procs: seq<Proc>, n: Node)
    requires |ch.segs| > 0
  {
    exists g :: 0 <= g < |procs| && Anc(g, n.h) == n.k && Exits(ch, procs[g]) > n.h
  }

  ghost function Turns(ch: Chunk, procs: seq<Proc>, n: Node): (t: nat)
    requires |ch.segs| > 0
    ensures t <= 2
  {
    (if Waiting(procs, n) then 1 else 0) + (if Passed(ch, procs, n) then 1 else 0)
  }

  /** The counter of `n` has been turned once per input, and by one waiter at most. */
  ghost predicate CountOk(ch: Chunk, before: map<Node, Cell>, cells: map<Node, Cell>, procs: seq<Proc>, n: Node)
    requires |ch.segs| > 0 && n in cells && n in before
  {
    if ch.Balanced(n) then
      && cells[n].state == Add32(before[n].state, Turns(ch, procs, n))
      && (Passed(ch, procs, n) ==> Waiting(procs, n))
      && (forall g, g' :: 0 <= g < |procs| && 0 <= g' < |procs| && procs[g] == Returned(n) && procs[g'] == Returned(n) ==> g == g')
    else
      cells[n].state == before[n].state
  }

  ghost predicate CountsOk(ch: Chunk, before: map<Node, Cell>, cells: map<Node, Cell>, procs: seq<Proc>)
    requires |ch.segs| > 0 && before.Keys == cells.Keys
  {
    forall n :: n in cells ==> CountOk(ch, before, cells, procs, n)
  }

  /** `finalise` has returned. */
  predicate Finalised(m: Main) {
    m.Closing? || m.Awaiting?
  }

  /** Path nodes below this height carry their `unbalanced` mark. */
  function Marked(ch: Chunk, m: Main): nat
    requires |ch.segs| > 0
  {
    match m
    case Writing(_) => 0
    case Marking(n, _, _, pc) => n.h + (if pc >= 1 then 1 else 0)
    case _ => ch.Top() + 1
  }

  /** Path nodes below this height have had their right half cleared. */
  function Cleared(ch: Chunk, m: Main): nat
    requires |ch.segs| > 0
  {
    match m
    case Writing(_) => 0
    case Marking(n, _, _, pc) => n.h + (if pc >= 2 then 1 else 0)
    case _ => ch.Top() + 1
  }

  ghost predicate MarksOk(ch: Chunk, cells: map<Node, Cell>, m: Main)
    requires |ch.segs| > 0
  {
    forall n :: n in cells ==>
      && (cells[n].unbalanced <==> ch.OnPath(n) && ch.FromLeft(n) && MarkStart(ch) <= n.h < Marked(ch, m))
      && (ch.OnPath(n) && ch.FromLeft(n) && MarkStart(ch) <= n.h < Cleared(ch, m) ==> cells[n].right == [])
      && (cells[n].root <==> n.h == ch.depth || (Finalised(m) && n == ch.TopNode()))
  }

  /** While the tree is being released only what lies above the current node is marked. */
  ghost predicate ReleaseOk(ch: Chunk, cells: map<Node, Cell>, at: nat, pc: nat)
    requires |ch.segs| > 0
  {
    forall n :: n in cells ==>
      && (cells[n].unbalanced ==> ch.OnPath(n) && (if pc >= 1 then at < n.h else at <= n.h))
      && (cells[n].root <==> n.h == ch.depth || (n == ch.TopNode() && at <= n.h))
  }

  ghost predicate Finished(procs: seq<Proc>) {
    && (forall g :: 0 <= g < |procs| ==> procs[g].Returned? || procs[g].Sent?)
    && exists g :: 0 <= g < |procs| && procs[g].Sent?
  }

  ghost predicate MainOk(ch: Chunk, st: State)
    requires |ch.segs| > 0 && |st.procs| == |ch.segs|
  {
    var last := ch.Last();
    match st.main
    case Writing(j) =>
      && j <= last && MarksOk(ch, st.cells, st.main)
      && forall g :: 0 <= g < |st.procs| ==> (st.procs[g].Unborn? <==> j <= g) && !st.procs[g].Sent?
    case Marking(n, isLeft, d, pc) =>
      && MarkStart(ch) <= n.h <= ch.Top() && ch.OnPath(n) && isLeft == ch.FromLeft(n)
      && d == n.h - MarkStart(ch) && pc <= 2 && MarksOk(ch, st.cells, st.main)
      && forall g :: 0 <= g < |st.procs| ==> (st.procs[g].Unborn? <==> g == last) && !st.procs[g].Sent?
    case Closing =>
      && st.d == ch.Top() - MarkStart(ch) && MarksOk(ch, st.cells, st.main)
      && forall g :: 0 <= g < |st.procs| ==> (st.procs[g].Unborn? <==> g == last) && !st.procs[g].Sent?
    case Awaiting =>
      && st.d == ch.Top() - MarkStart(ch) && MarksOk(ch, st.cells, st.main)
      && forall g :: 0 <= g < |st.procs| ==> !st.procs[g].Unborn? && !st.procs[g].Sent?
    case Releasing(n, pc, r) =>
      && n.h <= ch.depth && ch.OnPath(n) && ReleaseOk(ch, st.cells, n.h, pc)
      && Finished(st.procs) && ch.Active(ch.TopNode()) && r == ch.Val(ch.TopNode())
    case Done(r) =>
      && ReleaseOk(ch, st.cells, ch.depth + 1, 0)
      && Finished(st.procs) && ch.Active(ch.TopNode()) && r == ch.Val(ch.TopNode())
  }

  /** What the invariant needs of the counters and heights of the tree at the start. */
  ghost predicate Countable(ch: Chunk, before: map<Node, Cell>)
    requires |ch.segs| > 0
  {
    forall n :: n in before ==> n.h <= ch.depth && (ch.Balanced(n) ==> 0 <= before[n].state <= MAX32 && before[n].state % 2 == 0)
  }

  /** The invariant of every run on a tree that was usable as `before`. */
  ghost predicate Inv(ch: Chunk, before: map<Node, Cell>, st: State) {
    && ch.Valid() && Countable(ch, before)
    && st.cells.Keys == before.Keys
    && ProcsOk(ch, st.cells, st.procs)
    && Separate(ch, st.procs)
    && CountsOk(ch, before, st.cells, st.procs)
    && MainOk(ch, st)
  }
}
