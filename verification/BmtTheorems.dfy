/**
 What every schedule of the concurrent hasher achieves: it ends, it delivers one
 result, that result is the reference hash, and the tree is clean again.
 */
module BmtTheorems {
  import opened BmtTree
  import opened BmtReference
  import opened BmtSegments
  import opened BmtProtocol
  import opened BmtInvariant
  import opened BmtMainSteps

  // ----- no schedule gets stuck -----

  predicate Stopped(p: Proc) {
    p.Returned? || p.Sending? || p.Sent?
  }

  /** A stopped goroutine below `n` that got as far as `n` waits there or has gone past it. */
  lemma WaitsOrPassed(ch: Chunk, cells: map<Node, Cell>, g: nat, p: Proc, n: Node)
    requires |ch.segs| > 0 && ProcOk(ch, cells, g, p) && Stopped(p)
    requires n.h <= ch.Top() && Anc(g, n.h) == n.k && Exits(ch, p) >= n.h
    ensures Exits(ch, p) > n.h || (p == Returned(n) && ch.Balanced(n))
  {
  }

  lemma LeafPasses(ch: Chunk, cells: map<Node, Cell>, g: nat, p: Proc)
    requires |ch.segs| > 0 && ProcOk(ch, cells, g, p) && Stopped(p)
    ensures Exits(ch, p) > 0
  {
  }

  /** No two goroutines wait at the same node. */
  ghost predicate OneWaiter(procs: seq<Proc>) {
    forall g, g' :: 0 <= g < |procs| && 0 <= g' < |procs| && procs[g].Returned? && procs[g'] == procs[g] ==> g == g'
  }

  lemma CountsGiveOneWaiter(ch: Chunk, before: map<Node, Cell>, cells: map<Node, Cell>, procs: seq<Proc>)
    requires |ch.segs| > 0 && before.Keys == cells.Keys && ProcsOk(ch, cells, procs) && CountsOk(ch, before, cells, procs)
    ensures OneWaiter(procs)
  {
    forall g, g' | 0 <= g < |procs| && 0 <= g' < |procs| && procs[g].Returned? && procs[g'] == procs[g]
      ensures g == g'
    {
      assert ProcOk(ch, cells, g, procs[g]);
      assert CountOk(ch, before, cells, procs, procs[g].n);
    }
  }

  /** Goroutines below a node cannot all have stopped at or below it. */
  lemma {:induction false} SomeonePasses(ch: Chunk, cells: map<Node, Cell>, procs: seq<Proc>, n: Node) returns (g: nat)
    requires |ch.segs| > 0 && ProcsOk(ch, cells, procs) && OneWaiter(procs)
    requires ch.Active(n) && n.h <= ch.Top() && (forall g :: 0 <= g < |procs| ==> Stopped(procs[g]))
    ensures g < |procs| && Anc(g, n.h) == n.k && Exits(ch, procs[g]) > n.h
    decreases n.h
  {
    if n.h == 0 {
      g := n.k;
      LeafPasses(ch, cells, g, procs[g]);
    } else {
      g := SomeonePasses(ch, cells, procs, Node(n.h - 1, 2 * n.k));
      WaitsOrPassed(ch, cells, g, procs[g], n);
      if Exits(ch, procs[g]) <= n.h {
        var g' := SomeonePasses(ch, cells, procs, Node(n.h - 1, 2 * n.k + 1));
        WaitsOrPassed(ch, cells, g', procs[g'], n);
        g := g';
      }
    }
  }

  ghost predicate TreeShape(depth: nat, cells: map<Node, Cell>) {
    forall n: Node :: n in cells <==> InTree(depth, n)
  }

  lemma SegmentCanStep(ch: Chunk, before: map<Node, Cell>, st: State, g: nat)
    requires Inv(ch, before, st) && TreeShape(ch.depth, st.cells) && g < |st.procs|
    requires !Stopped(st.procs[g]) && !st.procs[g].Unborn?
    ensures Enabled(ch, st, Segment(g))
  {
    assert ProcOk(ch, st.cells, g, st.procs[g]);
    if st.procs[g].Hashing? {
      ActiveInTree(ch, Node(0, g));
    }
  }

  /** Until the result is in and the tree released, somebody can step. */
  lemma Progress(ch: Chunk, before: map<Node, Cell>, st: State)
    requires Inv(ch, before, st) && TreeShape(ch.depth, st.cells) && !st.main.Done?
    ensures exists a :: Enabled(ch, st, a)
  {
    TopWithinTree(ch);
    match st.main {
      case Writing(_) => assert Enabled(ch, st, MainThread);
      case Closing => assert Enabled(ch, st, MainThread);
      case Marking(n, _, _, _) =>
        ActiveInTree(ch, n);
        assert Enabled(ch, st, MainThread);
      case Releasing(n, _, _) =>
        ActiveInTree(ch, n);
        assert Enabled(ch, st, MainThread);
      case Awaiting =>
        if g: nat :| g < |st.procs| && !Stopped(st.procs[g]) {
          SegmentCanStep(ch, before, st, g);
        } else {
          RootHeightMeaning(ch.Last(), ch.Top());
          CountsGiveOneWaiter(ch, before, st.cells, st.procs);
          var g := SomeonePasses(ch, st.cells, st.procs, ch.TopNode());
          assert ProcOk(ch, st.cells, g, st.procs[g]);
          assert Enabled(ch, st, Receive(g));
        }
    }
  }

  // ----- every schedule ends -----

  function ProcRank(top: nat, p: Proc): int {
    match p
    case Unborn => 8 * top + 18
    case Hashing => 8 * top + 17
    case Storing(n, _, _, _) => 8 * (top + 1 - n.h) + 6
    case Loading(n, _, _) => 8 * (top + 1 - n.h) + 5
    case Toggling(n, _, _) => 8 * (top + 1 - n.h) + 4
    case ReadingLeft(n, _, _, _) => 8 * (top + 1 - n.h) + 3
    case ReadingRight(n, _, _, _) => 8 * (top + 1 - n.h) + 2
    case Leaving(n, _, _) => 8 * (top + 1 - n.h) + 1
    case Sending(_) => 1
    case Returned(_) => 0
    case Sent => 0
  }

  function ProcsRank(top: nat, procs: seq<Proc>): int {
    if procs == [] then 0 else ProcRank(top, procs[0]) + ProcsRank(top, procs[1..])
  }

  function MainRank(ch: Chunk, m: Main): int
    requires |ch.segs| > 0
  {
    match m
    case Writing(j) => ch.Last() - j + 5 * ch.depth + 20
    case Marking(n, _, _, pc) => 3 * (ch.Top() - n.h) + 3 - pc + 2 * ch.depth + 10
    case Closing => 2 * ch.depth + 8
    case Awaiting => 2 * ch.depth + 7
    case Releasing(n, pc, _) => 2 * (ch.depth - n.h) + (if pc == 0 then 4 else 3)
    case Done(_) => 0
  }

  function Rank(ch: Chunk, st: State): int
    requires |ch.segs| > 0
  {
    MainRank(ch, st.main) + ProcsRank(ch.Top(), st.procs)
  }

  lemma {:induction false} RankUpdate(top: nat, procs: seq<Proc>, g: nat, p: Proc)
    requires g < |procs|
    ensures ProcsRank(top, procs[g := p]) == ProcsRank(top, procs) - ProcRank(top, procs[g]) + ProcRank(top, p)
    decreases |procs|
  {
    if g == 0 {
      assert procs[g := p][1..] == procs[1..];
    } else {
      assert procs[g := p][1..] == procs[1..][g - 1 := p];
      RankUpdate(top, procs[1..], g - 1, p);
    }
  }

  lemma {:induction false} RankNonNegative(ch: Chunk, cells: map<Node, Cell>, procs: seq<Proc>, k: nat)
    requires |ch.segs| > 0 && ProcsOk(ch, cells, procs) && k <= |procs|
    ensures ProcsRank(ch.Top(), procs[k..]) >= 0
    decreases |procs| - k
  {
    if k == |procs| {
    } else {
      assert procs[k..][1..] == procs[k + 1..];
      RankNonNegative(ch, cells, procs, k + 1);
      assert ProcOk(ch, cells, k, procs[k]);
    }
  }

  lemma HeightBound(ch: Chunk, cells: map<Node, Cell>, g: nat, p: Proc)
    requires |ch.segs| > 0 && ProcOk(ch, cells, g, p)
    ensures !p.Unborn? && !p.Hashing? && !p.Sending? && !p.Sent? ==> p.n.h <= ch.Top()
  {
  }

  lemma SegmentRank(ch: Chunk, st: State, g: nat)
    requires |ch.segs| > 0 && Enabled(ch, st, Segment(g)) && (st.procs[g].Hashing? || st.procs[g].n.h <= ch.Top())
    ensures ProcRank(ch.Top(), StepSegment(ch, st, g).procs[g]) < ProcRank(ch.Top(), st.procs[g])
    ensures StepSegment(ch, st, g).procs == st.procs[g := StepSegment(ch, st, g).procs[g]]
    ensures StepSegment(ch, st, g).main == st.main
  {
  }

  lemma MainDecreases(ch: Chunk, st: State)
    requires ch.Valid() && |st.procs| == |ch.segs| && MainOk(ch, st) && Enabled(ch, st, MainThread)
    ensures Rank(ch, StepMain(ch, st)) < Rank(ch, st)
  {
    var top := ch.Top();
    TopWithinTree(ch);
    match st.main {
      case Writing(j) =>
        if j < ch.Last() { RankUpdate(top, st.procs, j, Launch(ch, j)); }
      case Closing =>
        RankUpdate(top, st.procs, ch.Last(), Launch(ch, ch.Last()));
      case Marking(n, _, _, _) =>
        RootHeightMeaning(ch.Last(), n.h);
      case Releasing(_, _, _) =>
    }
  }

  /** Each step brings the run closer to its end. */
  lemma StepDecreases(ch: Chunk, before: map<Node, Cell>, st: State, a: Actor)
    requires Inv(ch, before, st) && Enabled(ch, st, a)
    ensures Rank(ch, Step(ch, st, a)) < Rank(ch, st)
  {
    match a {
      case Segment(g) =>
        HeightBound(ch, st.cells, g, st.procs[g]);
        SegmentRank(ch, st, g);
        RankUpdate(ch.Top(), st.procs, g, StepSegment(ch, st, g).procs[g]);
      case Receive(g) =>
        RankUpdate(ch.Top(), st.procs, g, Sent);
      case MainThread =>
        MainDecreases(ch, st);
    }
  }

  lemma {:induction false} RunIsShort(ch: Chunk, before: map<Node, Cell>, st: State, schedule: seq<Actor>, end: State)
    requires Inv(ch, before, st) && Run(ch, st, schedule, end)
    ensures |schedule| <= Rank(ch, st)
    decreases |schedule|
  {
    if schedule != [] {
      StepKeepsInv(ch, before, st, schedule[0]);
      StepDecreases(ch, before, st, schedule[0]);
      RunIsShort(ch, before, Step(ch, st, schedule[0]), schedule[1..], end);
    } else {
      RankNonNegative(ch, st.cells, st.procs, 0);
      assert st.procs[0..] == st.procs;
      TopWithinTree(ch);
    }
  }

  // ----- what the result is -----

  predicate Delivers(p: Proc) {
    p.Sending? || p.Sent?
  }

  /** At most one goroutine ever delivers. */
  ghost predicate OneSender(procs: seq<Proc>) {
    forall g, g' | 0 <= g < |procs| && 0 <= g' < |procs| :: Delivers(procs[g]) && Delivers(procs[g']) ==> g == g'
  }

  /** Counters after a chunk: two more wherever two inputs met, none elsewhere. */
  ghost predicate Advanced(ch: Chunk, before: map<Node, Cell>, cells: map<Node, Cell>)
    requires |ch.segs| > 0
  {
    && before.Keys == cells.Keys
    && forall n :: n in cells ==>
         cells[n].state == if ch.Balanced(n) then Add32(before[n].state, 2) else before[n].state
  }

  lemma FinalCounters(ch: Chunk, before: map<Node, Cell>, st: State)
    requires Inv(ch, before, st) && st.main.Done?
    ensures Advanced(ch, before, st.cells)
  {
    CountsGiveOneWaiter(ch, before, st.cells, st.procs);
    forall n | n in st.cells
      ensures st.cells[n].state == if ch.Balanced(n) then Add32(before[n].state, 2) else before[n].state
    {
      assert CountOk(ch, before, st.cells, st.procs, n);
      if ch.Balanced(n) {
        RootHeightMeaning(ch.Last(), n.h - 1);
        var g := SomeonePasses(ch, st.cells, st.procs, n);
        assert Passed(ch, st.procs, n);
      }
    }
  }

  lemma EvenAgain(x: int)
    requires 0 <= x <= MAX32 && x % 2 == 0
    ensures MIN32 <= Add32(x, 2) <= MAX32 && Add32(x, 2) % 2 == 0
  {
  }

  /** A finished chunk leaves the tree clean for the next one. */
  lemma FinalTree(ch: Chunk, before: map<Node, Cell>, cells: map<Node, Cell>)
    requires |ch.segs| > 0 && ReleaseOk(ch, cells, ch.depth + 1, 0) && ch.Top() <= ch.depth
    requires Usable(ch, before) && Advanced(ch, before, cells)
    ensures Clean(ch.depth, cells)
  {
    forall n | n in cells
      ensures !cells[n].unbalanced && (cells[n].root <==> n.h == ch.depth)
      ensures MIN32 <= cells[n].state <= MAX32 && cells[n].state % 2 == 0
    {
      assert n in before && InTree(ch.depth, n);
      if ch.Balanced(n) { EvenAgain(before[n].state); }
    }
  }

  /**
   Every run on a usable tree: it is bounded, somebody can step until it is over,
   at most one goroutine delivers, and once it is over the result is the Merkle
   root of the data and the tree is clean.
   */
  lemma EverySchedule(hash: Bytes -> Bytes, size: nat, count: nat, depth: nat, data: Bytes,
                      cells: map<Node, Cell>, schedule: seq<Actor>, end: State)
    requires size > 0 && count > 0 && |data| <= size * count && Anc((count - 1) / 2, depth) == 0
    requires var ch := ChunkOf(hash, size, depth, data); Usable(ch, cells) && Run(ch, Start(ch, cells), schedule, end)
    ensures var ch := ChunkOf(hash, size, depth, data);
            && |schedule| <= Rank(ch, Start(ch, cells))
            && OneSender(end.procs)
            && ((forall a :: !Enabled(ch, end, a)) ==> end.main.Done?)
            && (end.main.Done? ==>
                  && end.main.result == MerkleRoot(hash, size, data)
                  && Clean(depth, end.cells) && Advanced(ch, cells, end.cells))
  {
    var ch := ChunkOf(hash, size, depth, data);
    CapacityFits(data, size, count, depth);
    ChunkIsValid(hash, size, depth, data);
    StartInv(ch, cells);
    RunIsShort(ch, cells, Start(ch, cells), schedule, end);
    RunKeepsInv(ch, cells, Start(ch, cells), schedule, end);
    SendersAlone(ch, cells, end);
    if !end.main.Done? {
      Progress(ch, cells, end);
    } else {
      TopValue(hash, size, depth, data);
      TopWithinTree(ch);
      FinalCounters(ch, cells, end);
      FinalTree(ch, cells, end.cells);
    }
  }

  lemma SendersAlone(ch: Chunk, before: map<Node, Cell>, st: State)
    requires Inv(ch, before, st)
    ensures OneSender(st.procs)
  {
    forall g, g' | 0 <= g < |st.procs| && 0 <= g' < |st.procs| && Delivers(st.procs[g]) && Delivers(st.procs[g'])
      ensures g == g'
    {
      if g != g' { SenderIsAlone(ch, st.procs, g, g'); }
    }
  }

  // ----- reusing the tree -----

  /** The tree as `NewTree` makes it. */
  ghost predicate Fresh(depth: nat, cells: map<Node, Cell>) {
    Clean(depth, cells) && forall n :: n in cells ==> cells[n].state == 0
  }

  /** One chunk hashed on tree `cells`, leaving tree `cells'`, under some schedule. */
  ghost predicate Hashed(hash: Bytes -> Bytes, size: nat, depth: nat, data: Bytes, cells: map<Node, Cell>,
      result: Bytes, cells': map<Node, Cell>)
    requires size > 0
  {
    var ch := ChunkOf(hash, size, depth, data);
    exists schedule, end :: Run(ch, Start(ch, cells), schedule, end) && end.main == Done(result) && end.cells == cells'
  }

  /** On a fresh tree every counter stays within twice the number of chunks. */
  ghost predicate CountersBelow(cells: map<Node, Cell>, bound: int) {
    forall n :: n in cells ==> 0 <= cells[n].state <= bound
  }

  lemma OneMoreChunk(hash: Bytes -> Bytes, size: nat, count: nat, depth: nat, data: Bytes,
                     cells: map<Node, Cell>, result: Bytes, cells': map<Node, Cell>, bound: nat)
    requires size > 0 && count > 0 && |data| <= size * count && Anc((count - 1) / 2, depth) == 0
    requires Clean(depth, cells) && CountersBelow(cells, bound) && bound <= MAX32 - 1
    requires Hashed(hash, size, depth, data, cells, result, cells')
    ensures result == MerkleRoot(hash, size, data) && Clean(depth, cells')
    ensures Advanced(ChunkOf(hash, size, depth, data), cells, cells')
    ensures bound + 2 <= MAX32 ==> CountersBelow(cells', bound + 2)
  {
    var ch := ChunkOf(hash, size, depth, data);
    var schedule, end :| Run(ch, Start(ch, cells), schedule, end) && end.main == Done(result) && end.cells == cells';
    EverySchedule(hash, size, count, depth, data, cells, schedule, end);
  }

  /**
   A tree taken fresh from the pool hashes 2^30 chunks in a row correctly, each
   under any schedule whatsoever.
   */
  lemma {:induction false} ReusedTree(hash: Bytes -> Bytes, size: nat, count: nat, depth: nat, chunks: seq<Bytes>,
                                      trees: seq<map<Node, Cell>>, results: seq<Bytes>, k: nat)
    requires size > 0 && count > 0 && Anc((count - 1) / 2, depth) == 0
    requires |chunks| <= 0x4000_0000 && |trees| == |chunks| + 1 && |results| == |chunks| && k <= |chunks|
    requires forall i :: 0 <= i < |chunks| ==> |chunks[i]| <= size * count
    requires Fresh(depth, trees[0])
    requires forall i :: 0 <= i < |chunks| ==> Hashed(hash, size, depth, chunks[i], trees[i], results[i], trees[i + 1])
    ensures Clean(depth, trees[k])
    ensures forall i :: 0 <= i < k ==> results[i] == MerkleRoot(hash, size, chunks[i])
    ensures k < 0x4000_0000 ==> CountersBelow(trees[k], 2 * k)
  {
    if k == 0 {
    } else {
      ReusedTree(hash, size, count, depth, chunks, trees, results, k - 1);
      OneMoreChunk(hash, size, count, depth, chunks[k - 1], trees[k - 1], results[k - 1], trees[k], 2 * (k - 1));
    }
  }
}
