/**
 The concurrent hasher as a step system.

 One goroutine per double segment climbs the tree while the writing thread is
 still launching further goroutines, marking the path of the last segment
 (`finalise`), waiting for the result and clearing the marks (`releaseTree`).
 Each step touches shared memory at most once; any goroutine may take the next
 step.
 */
module BmtProtocol {
  import opened BmtTree

  /** The mutable part of a tree node. `state` is a 32-bit signed counter. */
  datatype Cell = Cell(left: Bytes, right: Bytes, state: int, unbalanced: bool, root: bool)

  const MIN32: int := -0x8000_0000
  const MAX32: int := 0x7fff_ffff

  /** 32-bit addition of a small number, with wrap-around. */
  function Add32(x: int, d: nat): int
    requires d <= 2
  {
    if x + d > MAX32 then x + d - 0x1_0000_0000 else x + d
  }

  /** The test of `toggle`: the remainder of a negative odd number is -1, not 1. */
  predicate TurnedOn(state: int) {
    state > 0 && state % 2 == 1
  }

  /** Where a segment goroutine stands. */
  datatype Proc =
    | Unborn
    | Hashing
    | Storing(n: Node, isLeft: bool, i: nat, s: Bytes)
    | Loading(n: Node, isLeft: bool, i: nat)
    | Toggling(n: Node, isLeft: bool, i: nat)
    | ReadingLeft(n: Node, isLeft: bool, i: nat, unb: bool)
    | ReadingRight(n: Node, i: nat, l: Bytes, rehash: bool)
    | Leaving(n: Node, i: nat, s: Bytes)
    | Returned(n: Node)
    | Sending(s: Bytes)
    | Sent

  /** Where the thread calling `Write` and `Sum` stands. */
  datatype Main =
    | Writing(j: nat)
    | Marking(n: Node, isLeft: bool, d: nat, pc: nat)
    | Closing
    | Awaiting
    | Releasing(n: Node, pc: nat, result: Bytes)
    | Done(result: Bytes)

  /** `d` is what `finalise` returned, handed to the last goroutine. */
  datatype State = State(cells: map<Node, Cell>, procs: seq<Proc>, main: Main, d: nat)

  datatype Actor = MainThread | Segment(g: nat) | Receive(g: nat)

  /** The last segment is written to its leaf instead of being hashed at once. */
  predicate LeafRun(ch: Chunk)
    requires |ch.segs| > 0
  {
    |ch.segs[ch.Last()]| <= ch.size || ch.depth == 0
  }

  /** The height at which `Sum` starts marking. */
  function MarkStart(ch: Chunk): nat
    requires |ch.segs| > 0
  {
    if |ch.segs[ch.Last()]| > ch.size && ch.Last() > 0 && ch.depth > 0 then 1 else 0
  }

  /** `writeSegment`. */
  function Launch(ch: Chunk, g: nat): Proc
    requires g < |ch.segs|
  {
    if |ch.segs[g]| > ch.size && ch.depth > 0 then Hashing
    else Storing(Node(0, g), true, 2 * g, ch.segs[g])
  }

  /** Whether actor `a` can step; every node a step visits must exist. */
  predicate Enabled(ch: Chunk, st: State, a: Actor)
    requires |ch.segs| > 0
  {
    |st.procs| == |ch.segs| &&
    match a
    case MainThread =>
      (match st.main
       case Writing(j) => j <= ch.Last()
       case Marking(n, _, _, _) => n in st.cells
       case Closing => true
       case Awaiting => false
       case Releasing(n, _, _) => n in st.cells
       case Done(_) => false)
    case Segment(g) =>
      g < |st.procs| &&
      (match st.procs[g]
       case Hashing => Node(0, g) in st.cells
       case Storing(n, _, _, _) => n in st.cells
       case Loading(n, _, _) => n in st.cells
       case Toggling(n, _, _) => n in st.cells
       case ReadingLeft(n, _, _, _) => n in st.cells
       case ReadingRight(n, _, _, _) => n in st.cells
       case Leaving(n, _, _) => n in st.cells
       case _ => false)
    case Receive(g) =>
      g < |st.procs| && st.procs[g].Sending? && st.main.Awaiting?
  }

  function Step(ch: Chunk, st: State, a: Actor): State
    requires |ch.segs| > 0 && Enabled(ch, st, a)
  {
    match a
    case MainThread => StepMain(ch, st)
    case Segment(g) => StepSegment(ch, st, g)
    case Receive(g) =>
      st.(procs := st.procs[g := Sent], main := Releasing(Node(0, ch.Last()), 0, st.procs[g].s))
  }

  function StepMain(ch: Chunk, st: State): State
    requires |ch.segs| > 0 && Enabled(ch, st, MainThread)
  {
    var last := ch.Last();
    match st.main
    case Writing(j) =>
      if j < last then
        st.(procs := st.procs[j := Launch(ch, j)], main := Writing(j + 1))
      else
        st.(main := Marking(Node(MarkStart(ch), Anc(last, MarkStart(ch))),
                            MarkStart(ch) == 0 || last % 2 == 0, 0, 0))
    case Marking(n, isLeft, d, pc) =>
      var cell := st.cells[n];
      if pc == 0 then
        st.(cells := st.cells[n := cell.(unbalanced := isLeft)], main := Marking(n, isLeft, d, 1))
      else if pc == 1 then
        st.(cells := st.cells[n := cell.(right := [])], main := Marking(n, isLeft, d, 2))
      else if n.k == 0 then
        st.(cells := st.cells[n := cell.(root := true)], main := Closing, d := d)
      else
        st.(main := Marking(Parent(n), n.k % 2 == 0, d + 1, 0))
    case Closing =>
      st.(procs := st.procs[last := Launch(ch, last)], main := Awaiting)
    case Releasing(n, pc, r) =>
      var cell := st.cells[n];
      if pc == 0 then
        st.(cells := st.cells[n := cell.(unbalanced := false)], main := Releasing(n, 1, r))
      else if n.h < ch.depth then
        st.(cells := st.cells[n := cell.(root := false)], main := Releasing(Parent(n), 0, r))
      else
        st.(main := Done(r))
  }

  /** The body of `writeSegment`'s goroutine and the loop of `run`. */
  function StepSegment(ch: Chunk, st: State, g: nat): State
    requires |ch.segs| > 0 && Enabled(ch, st, Segment(g))
  {
    match st.procs[g]
    case Hashing =>
      var s := ch.hash(ch.segs[g]);
      st.(procs := st.procs[g := if st.cells[Node(0, g)].root then Sending(s)
                                 else Storing(Node(1, g / 2), g % 2 == 0, g, s)])
    case Storing(n, isLeft, i, s) =>
      var cell := st.cells[n];
      st.(cells := st.cells[n := if isLeft then cell.(left := s) else cell.(right := s)],
          procs := st.procs[g := Loading(n, isLeft, i)])
    case Loading(n, isLeft, i) =>
      st.(procs := st.procs[g := if st.cells[n].unbalanced then ReadingLeft(n, isLeft, i, true)
                                 else Toggling(n, isLeft, i)])
    case Toggling(n, isLeft, i) =>
      var cell := st.cells[n];
      var state := Add32(cell.state, 1);
      st.(cells := st.cells[n := cell.(state := state)],
          procs := st.procs[g := if TurnedOn(state) then Returned(n)
                                 else ReadingLeft(n, isLeft, i, false)])
    case ReadingLeft(n, isLeft, i, unb) =>
      var d := if g < ch.Last() then ch.depth else st.d;
      st.(procs := st.procs[g := ReadingRight(n, i, st.cells[n].left, !unb || !isLeft || (i == 0 && d == 0))])
    case ReadingRight(n, i, l, rehash) =>
      var s := l + st.cells[n].right;
      st.(procs := st.procs[g := Leaving(n, i, if rehash then ch.hash(s) else s)])
    case Leaving(n, i, s) =>
      st.(procs := st.procs[g := if st.cells[n].root then Sending(s)
                                 else Storing(Parent(n), n.k % 2 == 0, i + 1, s)])
  }

  /** A run from `st` under a schedule of actors, all of them enabled. */
  ghost predicate Run(ch: Chunk, st: State, schedule: seq<Actor>, end: State)
    requires |ch.segs| > 0
    decreases |schedule|
  {
    if schedule == [] then st == end
    else Enabled(ch, st, schedule[0]) && Run(ch, Step(ch, st, schedule[0]), schedule[1..], end)
  }

  /** A tree between chunks: nothing marked, every counter even. */
  ghost predicate Clean(depth: nat, cells: map<Node, Cell>) {
    && (forall n: Node :: n in cells <==> InTree(depth, n))
    && (forall n :: n in cells ==>
          && !cells[n].unbalanced
          && (cells[n].root <==> n.h == depth)
          && MIN32 <= cells[n].state <= MAX32 && cells[n].state % 2 == 0)
  }

  /** A clean tree on which no counter that this chunk turns has wrapped to a negative value. */
  ghost predicate Usable(ch: Chunk, cells: map<Node, Cell>)
    requires |ch.segs| > 0
  {
    Clean(ch.depth, cells) && forall n :: n in cells && ch.Balanced(n) ==> cells[n].state >= 0
  }

  function Start(ch: Chunk, cells: map<Node, Cell>): State {
    State(cells, seq(|ch.segs|, _ => Unborn), Writing(0), 0)
  }
}
