/**
 Why the counters must not have wrapped: on a negative counter the first
 goroutine to arrive does not wait for the second.
 */
module BmtWrap {
  import opened BmtTree
  import opened BmtReference
  import opened BmtSegments
  import opened BmtProtocol
  import opened BmtInvariant
  import opened BmtMainSteps
  import opened BmtTheorems

  /** Somebody has gone past a node where two inputs meet, and nobody has stopped there. */
  ghost predicate Early(ch: Chunk, procs: seq<Proc>, n: Node)
    requires |ch.segs| > 0
  {
    ch.Balanced(n) && Passed(ch, procs, n) && !Waiting(procs, n)
  }

  /** In no run does a goroutine go past a node where two inputs meet unless another has stopped there. */
  ghost predicate NobodyEarly(ch: Chunk, cells: map<Node, Cell>)
    requires |ch.segs| > 0
  {
    forall schedule, end, n :: Run(ch, Start(ch, cells), schedule, end) ==> !Early(ch, end.procs, n)
  }

  // ----- a run on the tree as it is follows one on a tree whose counters are sound -----

  /** The same tree with its negative counters set to zero. */
  ghost function Mended(cells: map<Node, Cell>): map<Node, Cell> {
    map n | n in cells :: if cells[n].state < 0 then cells[n].(state := 0) else cells[n]
  }

  /** A mended tree with the negative counters of `worn` put back. */
  ghost function Restored(cells: map<Node, Cell>, worn: map<Node, Cell>): map<Node, Cell>
    requires cells.Keys == worn.Keys
  {
    map n | n in cells :: if worn[n].state < 0 then cells[n].(state := worn[n].state) else cells[n]
  }

  ghost function RestoredState(st: State, worn: map<Node, Cell>): State
    requires st.cells.Keys == worn.Keys
  {
    st.(cells := Restored(st.cells, worn))
  }

  /** The goroutine at a counter that is negative on the worn tree turns it. */
  predicate TurnsWrapped(st: State, worn: map<Node, Cell>, a: Actor) {
    a.Segment? && a.g < |st.procs| && st.procs[a.g].Toggling? && st.procs[a.g].n in worn && worn[st.procs[a.g].n].state < 0
  }

  lemma RestoreUpdate(cells: map<Node, Cell>, worn: map<Node, Cell>, n: Node, cell: Cell)
    requires cells.Keys == worn.Keys && n in cells
    ensures Restored(cells[n := cell], worn) == Restored(cells, worn)[n := if worn[n].state < 0 then cell.(state := worn[n].state) else cell]
  {
  }

  /** Any other step does the same on both trees. */
  lemma SegmentFollows(ch: Chunk, st: State, worn: map<Node, Cell>, g: nat)
    requires |ch.segs| > 0 && st.cells.Keys == worn.Keys && Enabled(ch, st, Segment(g)) && !TurnsWrapped(st, worn, Segment(g))
    ensures Enabled(ch, RestoredState(st, worn), Segment(g)) && StepSegment(ch, st, g).cells.Keys == worn.Keys
    ensures StepSegment(ch, RestoredState(st, worn), g) == RestoredState(StepSegment(ch, st, g), worn)
  {
    var next := StepSegment(ch, st, g);
    match st.procs[g] {
      case Storing(n, _, _, _) => RestoreUpdate(st.cells, worn, n, next.cells[n]);
      case Toggling(n, _, _) => RestoreUpdate(st.cells, worn, n, next.cells[n]);
      case _ =>
    }
  }

  lemma MarkingFollows(ch: Chunk, st: State, worn: map<Node, Cell>)
    requires |ch.segs| > 0 && st.cells.Keys == worn.Keys && Enabled(ch, st, MainThread) && st.main.Marking?
    ensures StepMain(ch, st).cells.Keys == worn.Keys
    ensures StepMain(ch, RestoredState(st, worn)) == RestoredState(StepMain(ch, st), worn)
  {
    var n := st.main.n;
    var cell := st.cells[n];
    if st.main.pc == 0 {
      RestoreUpdate(st.cells, worn, n, cell.(unbalanced := st.main.isLeft));
    } else if st.main.pc == 1 {
      RestoreUpdate(st.cells, worn, n, cell.(right := []));
    } else if n.k == 0 {
      RestoreUpdate(st.cells, worn, n, cell.(root := true));
    }
  }

  lemma ReleasingFollows(ch: Chunk, st: State, worn: map<Node, Cell>)
    requires |ch.segs| > 0 && st.cells.Keys == worn.Keys && Enabled(ch, st, MainThread) && st.main.Releasing?
    ensures StepMain(ch, st).cells.Keys == worn.Keys
    ensures StepMain(ch, RestoredState(st, worn)) == RestoredState(StepMain(ch, st), worn)
  {
    RestoreUpdate(st.cells, worn, st.main.n, StepMain(ch, st).cells[st.main.n]);
  }

  lemma MainFollows(ch: Chunk, st: State, worn: map<Node, Cell>)
    requires |ch.segs| > 0 && st.cells.Keys == worn.Keys && Enabled(ch, st, MainThread)
    ensures Enabled(ch, RestoredState(st, worn), MainThread) && StepMain(ch, st).cells.Keys == worn.Keys
    ensures StepMain(ch, RestoredState(st, worn)) == RestoredState(StepMain(ch, st), worn)
  {
    if st.main.Marking? {
      MarkingFollows(ch, st, worn);
    } else if st.main.Releasing? {
      ReleasingFollows(ch, st, worn);
    }
  }

  lemma StepFollows(ch: Chunk, st: State, worn: map<Node, Cell>, a: Actor)
    requires |ch.segs| > 0 && st.cells.Keys == worn.Keys && Enabled(ch, st, a) && !TurnsWrapped(st, worn, a)
    ensures Enabled(ch, RestoredState(st, worn), a) && Step(ch, st, a).cells.Keys == worn.Keys
    ensures Step(ch, RestoredState(st, worn), a) == RestoredState(Step(ch, st, a), worn)
  {
    match a
    case MainThread => MainFollows(ch, st, worn);
    case Segment(g) => SegmentFollows(ch, st, worn, g);
    case Receive(_) =>
  }

  /** The counters that are negative on the worn tree have not been turned. */
  ghost predicate Untouched(st: State, worn: map<Node, Cell>) {
    st.cells.Keys == worn.Keys && forall n :: n in worn && worn[n].state < 0 ==> st.cells[n].state == 0
  }

  lemma StepUntouched(ch: Chunk, st: State, worn: map<Node, Cell>, a: Actor)
    requires |ch.segs| > 0 && Untouched(st, worn) && Enabled(ch, st, a) && !TurnsWrapped(st, worn, a)
    ensures Untouched(Step(ch, st, a), worn)
  {
  }

  /** Whoever turns such a counter first is past it with nobody waiting. */
  lemma TurnIsEarly(ch: Chunk, st: State, worn: map<Node, Cell>, g: nat)
    requires |ch.segs| > 0 && Untouched(st, worn) && Enabled(ch, st, Segment(g)) && TurnsWrapped(st, worn, Segment(g))
    requires ProcOk(ch, st.cells, g, st.procs[g]) && CountOk(ch, Mended(worn), st.cells, st.procs, st.procs[g].n)
    ensures var st' := RestoredState(st, worn);
            Enabled(ch, st', Segment(g)) && Early(ch, Step(ch, st', Segment(g)).procs, st.procs[g].n)
  {
    var n := st.procs[g].n;
    assert Turns(ch, st.procs, n) == 0;
    var procs := Step(ch, RestoredState(st, worn), Segment(g)).procs;
    assert procs[g].ReadingLeft? && Exits(ch, procs[g]) > n.h;
    assert Passed(ch, procs, n);
  }

  /** A run on the mended tree can be followed on the worn one until somebody is early. */
  lemma {:induction false} Follow(ch: Chunk, st: State, worn: map<Node, Cell>, schedule: seq<Actor>, end: State)
    returns (followed: seq<Actor>, reached: State)
    requires Inv(ch, Mended(worn), st) && Untouched(st, worn) && Run(ch, st, schedule, end)
    ensures Run(ch, RestoredState(st, worn), followed, reached)
    ensures Untouched(end, worn) || exists n :: Early(ch, reached.procs, n)
    decreases |schedule|
  {
    var st' := RestoredState(st, worn);
    if schedule == [] {
      followed, reached := [], st';
    } else {
      var a := schedule[0];
      if TurnsWrapped(st, worn, a) {
        assert ProcOk(ch, st.cells, a.g, st.procs[a.g]);
        assert CountOk(ch, Mended(worn), st.cells, st.procs, st.procs[a.g].n);
        TurnIsEarly(ch, st, worn, a.g);
        followed, reached := [a], Step(ch, st', a);
        assert Run(ch, reached, [], reached) && followed[1..] == [];
      } else {
        StepKeepsInv(ch, Mended(worn), st, a);
        StepFollows(ch, st, worn, a);
        StepUntouched(ch, st, worn, a);
        var rest;
        rest, reached := Follow(ch, Step(ch, st, a), worn, schedule[1..], end);
        followed := [a] + rest;
        assert followed[1..] == rest;
      }
    }
  }

  /** From any state of a run on a usable tree the run can be completed. */
  lemma {:induction false} Complete(ch: Chunk, before: map<Node, Cell>, st: State) returns (schedule: seq<Actor>, end: State)
    requires Inv(ch, before, st) && TreeShape(ch.depth, before)
    ensures Run(ch, st, schedule, end) && end.main.Done?
    decreases Rank(ch, st)
  {
    RunIsShort(ch, before, st, [], st);
    if st.main.Done? {
      schedule, end := [], st;
    } else {
      Progress(ch, before, st);
      var a :| Enabled(ch, st, a);
      StepKeepsInv(ch, before, st, a);
      StepDecreases(ch, before, st, a);
      RunIsShort(ch, before, Step(ch, st, a), [], Step(ch, st, a));
      var rest;
      rest, end := Complete(ch, before, Step(ch, st, a));
      schedule := [a] + rest;
      assert schedule[1..] == rest;
    }
  }

  lemma MendedIsUsable(ch: Chunk, cells: map<Node, Cell>)
    requires |ch.segs| > 0 && Clean(ch.depth, cells)
    ensures Usable(ch, Mended(cells)) && Restored(Mended(cells), cells) == cells
  {
  }

  /** If a counter the chunk turns is negative, some run has somebody early. */
  lemma EarlyRun(ch: Chunk, cells: map<Node, Cell>, n: Node) returns (schedule: seq<Actor>, end: State)
    requires ch.Valid() && Clean(ch.depth, cells) && n in cells && ch.Balanced(n) && cells[n].state < 0
    ensures Run(ch, Start(ch, cells), schedule, end) && exists m :: Early(ch, end.procs, m)
  {
    MendedIsUsable(ch, cells);
    var mended := Mended(cells);
    var start := Start(ch, mended);
    StartInv(ch, mended);
    var full, over := Complete(ch, mended, start);
    RunKeepsInv(ch, mended, start, full, over);
    FinalCounters(ch, mended, over);
    assert over.cells[n].state == 2;
    schedule, end := Follow(ch, start, cells, full, over);
  }

  /** Goroutines wait for each other in every run exactly if no counter that the chunk turns has wrapped. */
  lemma WaitsIffNotWrapped(ch: Chunk, cells: map<Node, Cell>)
    requires ch.Valid() && Clean(ch.depth, cells)
    ensures NobodyEarly(ch, cells) <==> Usable(ch, cells)
  {
    if Usable(ch, cells) {
      forall schedule, end, n | Run(ch, Start(ch, cells), schedule, end)
        ensures !Early(ch, end.procs, n)
      {
        StartInv(ch, cells);
        RunKeepsInv(ch, cells, Start(ch, cells), schedule, end);
        NotEarly(ch, cells, end, n);
      }
    } else {
      var n :| n in cells && ch.Balanced(n) && cells[n].state < 0;
      var schedule, end := EarlyRun(ch, cells, n);
    }
  }

  lemma NotEarly(ch: Chunk, before: map<Node, Cell>, st: State, n: Node)
    requires Inv(ch, before, st) && TreeShape(ch.depth, before)
    ensures !Early(ch, st.procs, n)
  {
    if ch.Balanced(n) {
      BalancedInTree(ch, n);
      assert CountOk(ch, before, st.cells, st.procs, n);
    }
  }

  lemma BalancedInTree(ch: Chunk, n: Node)
    requires ch.Valid() && ch.Balanced(n)
    ensures InTree(ch.depth, n)
  {
    RootHeightMeaning(ch.Last(), n.h - 1);
    TopWithinTree(ch);
    ActiveInTree(ch, n);
  }

  // ----- the counters do wrap -----

  /** The node above the first two leaves; every chunk of two leaves or more turns its counter. */
  const FIRST := Node(1, 0)

  /** The chunk turns the counter at height `h` above the first leaf. */
  predicate Reaches(hash: Bytes -> Bytes, size: nat, depth: nat, data: Bytes, h: nat)
    requires size > 0
  {
    ChunkOf(hash, size, depth, data).Top() >= h
  }

  /** Chunks hashed one after another on a tree that was fresh, each under some schedule and each reaching height `h`. */
  ghost predicate Series(hash: Bytes -> Bytes, size: nat, count: nat, depth: nat, chunks: seq<Bytes>, trees: seq<map<Node, Cell>>,
      results: seq<Bytes>, h: nat)
  {
    && size > 0 && count > 0 && Anc((count - 1) / 2, depth) == 0
    && |chunks| <= 0x4000_0000 && |trees| == |chunks| + 1 && |results| == |chunks| && Fresh(depth, trees[0])
    && (forall i :: 0 <= i < |chunks| ==> |chunks[i]| <= size * count)
    && (forall i :: 0 <= i < |chunks| ==> Hashed(hash, size, depth, chunks[i], trees[i], results[i], trees[i + 1]))
    && (forall i :: 0 <= i < |chunks| ==> Reaches(hash, size, depth, chunks[i], h))
  }

  /** The nodes above the first leaf that a chunk turns. */
  lemma EdgeBalanced(ch: Chunk, h: nat)
    requires ch.Valid() && 0 < h <= ch.Top()
    ensures ch.Balanced(Node(h, 0)) && InTree(ch.depth, Node(h, 0))
  {
    RootHeightMeaning(ch.Last(), h - 1);
    BalancedInTree(ch, Node(h, 0));
  }

  lemma {:induction false} EdgeCounter(hash: Bytes -> Bytes, size: nat, count: nat, depth: nat, chunks: seq<Bytes>,
                                       trees: seq<map<Node, Cell>>, results: seq<Bytes>, h: nat, k: nat)
    requires Series(hash, size, count, depth, chunks, trees, results, h) && h > 0 && k <= |chunks|
    ensures k > 0 ==> Node(h, 0) in trees[k] && trees[k][Node(h, 0)].state == if k < 0x4000_0000 then 2 * k else MIN32
    decreases k
  {
    if k == 0 {
    } else {
      EdgeCounter(hash, size, count, depth, chunks, trees, results, h, k - 1);
      ReusedTree(hash, size, count, depth, chunks, trees, results, k - 1);
      OneMoreChunk(hash, size, count, depth, chunks[k - 1], trees[k - 1], results[k - 1], trees[k], 2 * (k - 1));
      CapacityFits(chunks[k - 1], size, count, depth);
      ChunkIsValid(hash, size, depth, chunks[k - 1]);
      assert Reaches(hash, size, depth, chunks[k - 1], h);
      EdgeBalanced(ChunkOf(hash, size, depth, chunks[k - 1]), h);
    }
  }

  /** After 2^30 chunks of two leaves or more, the next such chunk can be hashed with somebody early. */
  lemma WrappedAtLast(hash: Bytes -> Bytes, size: nat, count: nat, depth: nat, chunks: seq<Bytes>,
                      trees: seq<map<Node, Cell>>, results: seq<Bytes>, data: Bytes)
    requires Series(hash, size, count, depth, chunks, trees, results, 1) && |chunks| == 0x4000_0000
    requires |data| <= size * count && Reaches(hash, size, depth, data, 1)
    ensures FIRST in trees[|chunks|] && trees[|chunks|][FIRST].state == MIN32
    ensures !NobodyEarly(ChunkOf(hash, size, depth, data), trees[|chunks|])
  {
    EdgeCounter(hash, size, count, depth, chunks, trees, results, 1, |chunks|);
    ReusedTree(hash, size, count, depth, chunks, trees, results, |chunks|);
    var ch := ChunkOf(hash, size, depth, data);
    CapacityFits(data, size, count, depth);
    ChunkIsValid(hash, size, depth, data);
    EdgeBalanced(ch, 1);
    WaitsIffNotWrapped(ch, trees[|chunks|]);
  }
}
