/**
 What comes of wrapped counters: the first goroutine can climb to the top all alone
 and deliver a hash that is not that of the data.
 */
module BmtWrong {
  import opened Basics
  import opened BmtTree
  import opened BmtReference
  import opened BmtSegments
  import opened BmtProtocol
  import opened BmtInvariant
  import opened BmtMainSteps
  import opened BmtTheorems
  import opened BmtWrap

  lemma {:induction false} RunJoins(ch: Chunk, st: State, schedule: seq<Actor>, mid: State, more: seq<Actor>, end: State)
    requires |ch.segs| > 0 && Run(ch, st, schedule, mid) && Run(ch, mid, more, end)
    ensures Run(ch, st, schedule + more, end)
    decreases |schedule|
  {
    if schedule == [] {
      assert schedule + more == more;
    } else {
      RunJoins(ch, Step(ch, st, schedule[0]), schedule[1..], mid, more, end);
      assert (schedule + more)[1..] == schedule[1..] + more;
    }
  }

  lemma {:induction false} RunExtends(ch: Chunk, st: State, schedule: seq<Actor>, mid: State, a: Actor)
    requires |ch.segs| > 0 && Run(ch, st, schedule, mid) && Enabled(ch, mid, a)
    ensures Run(ch, st, schedule + [a], Step(ch, mid, a))
    decreases |schedule|
  {
    if schedule == [] {
      assert Run(ch, Step(ch, mid, a), [], Step(ch, mid, a));
      assert (schedule + [a])[1..] == [];
    } else {
      RunExtends(ch, Step(ch, st, schedule[0]), schedule[1..], mid, a);
      assert (schedule + [a])[1..] == schedule[1..] + [a];
    }
  }

  lemma OneStep(ch: Chunk, st: State, a: Actor)
    requires |ch.segs| > 0 && Enabled(ch, st, a)
    ensures Run(ch, st, [a], Step(ch, st, a))
  {
    assert Run(ch, Step(ch, st, a), [], Step(ch, st, a)) && [a][1..] == [];
  }

  // ----- the writing thread first -----

  /** The top node's right half has been cleared. */
  predicate ClearedTop(ch: Chunk, m: Main)
    requires |ch.segs| > 0
  {
    m.Closing? || m.Awaiting? || (m.Marking? && m.n == ch.TopNode() && m.pc == 2)
  }

  predicate Starting(m: Main) {
    m.Writing? || m.Marking? || m.Closing? || m.Awaiting?
  }

  /** Every goroutine is where it starts. */
  ghost predicate Unmoved(ch: Chunk, procs: seq<Proc>) {
    |procs| == |ch.segs| && forall g :: 0 <= g < |procs| ==> procs[g].Unborn? || procs[g] == Launch(ch, g)
  }

  ghost predicate TopCleared(ch: Chunk, st: State)
    requires |ch.segs| > 0
  {
    ch.TopNode() in st.cells && (ClearedTop(ch, st.main) ==> st.cells[ch.TopNode()].right == [])
  }

  /** Only the writing thread has made any steps, and it is not waiting yet or has just begun to. */
  ghost predicate Quiet(ch: Chunk, before: map<Node, Cell>, st: State) {
    && Inv(ch, before, st) && TreeShape(ch.depth, before)
    && Starting(st.main) && Unmoved(ch, st.procs) && TopCleared(ch, st)
  }

  lemma StartQuiet(ch: Chunk, cells: map<Node, Cell>)
    requires ch.Valid() && Usable(ch, cells)
    ensures Quiet(ch, cells, Start(ch, cells))
  {
    StartInv(ch, cells);
    TopWithinTree(ch);
    RootHeightMeaning(ch.Last(), ch.Top());
    ActiveInTree(ch, ch.TopNode());
  }

  lemma QuietCanStep(ch: Chunk, before: map<Node, Cell>, st: State)
    requires Quiet(ch, before, st) && !st.main.Awaiting?
    ensures Enabled(ch, st, MainThread)
  {
    TopWithinTree(ch);
    if st.main.Marking? { ActiveInTree(ch, st.main.n); }
  }

  lemma QuietProcs(ch: Chunk, st: State)
    requires |ch.segs| > 0 && Enabled(ch, st, MainThread) && Starting(st.main) && Unmoved(ch, st.procs)
    ensures Starting(StepMain(ch, st).main) && Unmoved(ch, StepMain(ch, st).procs)
  {
  }

  lemma QuietTop(ch: Chunk, st: State)
    requires |ch.segs| > 0 && Enabled(ch, st, MainThread) && Starting(st.main) && TopCleared(ch, st)
    requires st.main.Marking? ==> ch.OnPath(st.main.n) && st.main.n.h <= ch.Top() && st.main.pc <= 2
    ensures TopCleared(ch, StepMain(ch, st))
  {
    if st.main.Marking? { RootHeightMeaning(ch.Last(), st.main.n.h); }
  }

  lemma QuietStep(ch: Chunk, before: map<Node, Cell>, st: State)
    requires Quiet(ch, before, st) && !st.main.Awaiting?
    ensures Enabled(ch, st, MainThread) && Quiet(ch, before, StepMain(ch, st))
  {
    QuietCanStep(ch, before, st);
    QuietProcs(ch, st);
    QuietTop(ch, st);
    StepKeepsInv(ch, before, st, MainThread);
  }

  /** The writing thread can finish marking before any goroutine moves, whatever the counters are. */
  lemma {:induction false} MainFirst(ch: Chunk, worn: map<Node, Cell>, st: State) returns (schedule: seq<Actor>, end: State)
    requires Quiet(ch, Mended(worn), st) && st.cells.Keys == worn.Keys
    ensures Quiet(ch, Mended(worn), end) && end.main.Awaiting? && end.cells.Keys == worn.Keys
    ensures Run(ch, RestoredState(st, worn), schedule, RestoredState(end, worn))
    decreases Rank(ch, st)
  {
    RunIsShort(ch, Mended(worn), st, [], st);
    if st.main.Awaiting? {
      schedule, end := [], st;
    } else {
      QuietStep(ch, Mended(worn), st);
      MainFollows(ch, st, worn);
      StepDecreases(ch, Mended(worn), st, MainThread);
      RunIsShort(ch, Mended(worn), StepMain(ch, st), [], StepMain(ch, st));
      var rest;
      rest, end := MainFirst(ch, worn, StepMain(ch, st));
      OneStep(ch, RestoredState(st, worn), MainThread);
      RunJoins(ch, RestoredState(st, worn), [MainThread], RestoredState(StepMain(ch, st), worn), rest, RestoredState(end, worn));
      schedule := [MainThread] + rest;
    }
  }

  // ----- then the first goroutine alone -----

  /** The nodes above the first leaf up to the top: nothing to wait for at any of them, and the top delivers. */
  ghost predicate OpenEdge(ch: Chunk, cells: map<Node, Cell>, from: nat)
    requires |ch.segs| > 0
  {
    forall h: nat {:trigger Node(h, 0)} :: from <= h <= ch.Top() ==>
      && Node(h, 0) in cells && cells[Node(h, 0)].state < 0 && !cells[Node(h, 0)].unbalanced
      && (cells[Node(h, 0)].root <==> h == ch.Top())
  }

  /** The six steps of a goroutine through one node, if nothing makes it wait. */
  function Through(ch: Chunk, st: State, n: Node, i: nat, s: Bytes, step: nat): State
    requires n in st.cells && |st.procs| > 0 && step <= 6
  {
    var cell := st.cells[n];
    var stored := cell.(left := s);
    var turned := stored.(state := Add32(cell.state, 1));
    var v := ch.hash(s + cell.right);
    var p :=
      if step == 0 then Storing(n, true, i, s)
      else if step == 1 then Loading(n, true, i)
      else if step == 2 then Toggling(n, true, i)
      else if step == 3 then ReadingLeft(n, true, i, false)
      else if step == 4 then ReadingRight(n, i, s, true)
      else if step == 5 then Leaving(n, i, v)
      else if cell.root then Sending(v) else Storing(Parent(n), n.k % 2 == 0, i + 1, v);
    st.(cells := if step == 0 then st.cells else if step < 3 then st.cells[n := stored] else st.cells[n := turned],
        procs := st.procs[0 := p])
  }

  lemma ThroughStep(ch: Chunk, st: State, n: Node, i: nat, s: Bytes, step: nat)
    requires |ch.segs| > 0 && |st.procs| == |ch.segs| && n in st.cells && st.cells[n].state < 0 && !st.cells[n].unbalanced && step < 6
    ensures var at := Through(ch, st, n, i, s, step);
            Enabled(ch, at, Segment(0)) && Step(ch, at, Segment(0)) == Through(ch, st, n, i, s, step + 1)
  {
    var p, p' := Through(ch, st, n, i, s, step).procs[0], Through(ch, st, n, i, s, step + 1).procs[0];
    assert st.procs[0 := p][0 := p'] == st.procs[0 := p'];
  }

  lemma {:induction false} ThroughRun(ch: Chunk, st: State, n: Node, i: nat, s: Bytes, step: nat) returns (schedule: seq<Actor>)
    requires |ch.segs| > 0 && |st.procs| == |ch.segs| && n in st.cells && st.cells[n].state < 0 && !st.cells[n].unbalanced && step <= 6
    ensures Run(ch, Through(ch, st, n, i, s, 0), schedule, Through(ch, st, n, i, s, step))
    decreases step
  {
    if step == 0 {
      schedule := [];
    } else {
      var before := ThroughRun(ch, st, n, i, s, step - 1);
      ThroughStep(ch, st, n, i, s, step - 1);
      RunExtends(ch, Through(ch, st, n, i, s, 0), before, Through(ch, st, n, i, s, step - 1), Segment(0));
      schedule := before + [Segment(0)];
    }
  }

  /** The goroutine climbs from height `h` to the top and is ready to deliver a hash over an empty right half. */
  lemma {:induction false} Climb(ch: Chunk, st: State, h: nat, i: nat, s: Bytes) returns (schedule: seq<Actor>, end: State, x: Bytes)
    requires ch.Valid() && |st.procs| == |ch.segs| && 0 < h <= ch.Top() && OpenEdge(ch, st.cells, h)
    requires st.procs[0] == Storing(Node(h, 0), true, i, s) && st.cells[ch.TopNode()].right == []
    ensures Run(ch, st, schedule, end) && |end.procs| == |ch.segs| && end.procs[0] == Sending(ch.hash(x)) && end.main == st.main
    ensures end.cells.Keys == st.cells.Keys && (x == s || exists y :: x == ch.hash(y))
    decreases ch.Top() - h
  {
    var n := Node(h, 0);
    var next := Through(ch, st, n, i, s, 6);
    assert Through(ch, st, n, i, s, 0) == st;
    schedule := ThroughRun(ch, st, n, i, s, 6);
    if h == ch.Top() {
      end, x := next, s;
      assert s + [] == s;
    } else {
      assert Parent(n) == Node(h + 1, 0);
      var v := ch.hash(s + st.cells[n].right);
      EdgeKept(ch, st.cells, h, next.cells[n]);
      var more;
      more, end, x := Climb(ch, next, h + 1, i + 1, v);
      RunJoins(ch, st, schedule, next, more, end);
      schedule := schedule + more;
    }
  }

  lemma EdgeKept(ch: Chunk, cells: map<Node, Cell>, h: nat, cell: Cell)
    requires |ch.segs| > 0 && h < ch.Top() && OpenEdge(ch, cells, h)
    ensures OpenEdge(ch, cells[Node(h, 0) := cell], h + 1)
    ensures cells[Node(h, 0) := cell][ch.TopNode()] == cells[ch.TopNode()]
  {
  }

  // ----- and the result is taken -----

  /** Releasing the tree keeps the result. */
  lemma {:induction false} ReleaseAll(ch: Chunk, st: State) returns (schedule: seq<Actor>, end: State)
    requires ch.Valid() && |st.procs| == |ch.segs| && TreeShape(ch.depth, st.cells)
    requires st.main.Releasing? && ch.OnPath(st.main.n) && st.main.n.h <= ch.depth
    ensures Run(ch, st, schedule, end) && end.main == Done(st.main.result)
    decreases ch.depth - st.main.n.h, if st.main.pc == 0 then 1 else 0
  {
    ActiveInTree(ch, st.main.n);
    var next := StepMain(ch, st);
    OneStep(ch, st, MainThread);
    if next.main.Done? {
      schedule, end := [MainThread], next;
    } else {
      var rest;
      rest, end := ReleaseAll(ch, next);
      RunJoins(ch, st, [MainThread], next, rest, end);
      schedule := [MainThread] + rest;
    }
  }

  /** Every counter above the first leaf that the chunk turns is negative. */
  ghost predicate WornEdge(ch: Chunk, cells: map<Node, Cell>)
    requires |ch.segs| > 0
  {
    forall h: nat {:trigger Node(h, 0)} :: 0 < h <= ch.Top() ==> Node(h, 0) in cells && cells[Node(h, 0)].state < 0
  }

  /** What the marks say of a node above the first leaf once the writing thread waits. */
  lemma EdgeMarks(ch: Chunk, cells: map<Node, Cell>, m: Main, h: nat)
    requires ch.Valid() && ch.Last() > 0 && h <= ch.Top() && m.Awaiting? && MarksOk(ch, cells, m) && Node(h, 0) in cells
    ensures h > 0 ==> !cells[Node(h, 0)].unbalanced
    ensures cells[Node(h, 0)].root <==> h == ch.Top()
  {
    TopWithinTree(ch);
    RootHeightMeaning(ch.Last(), h);
    if h > 0 {
      EdgeBalanced(ch, h);
      BalancedMeaning(ch, Node(h, 0));
    }
  }

  /** Where the first goroutine stands once the writing thread waits. */
  lemma EdgeIsOpen(ch: Chunk, worn: map<Node, Cell>, st: State)
    requires Quiet(ch, Mended(worn), st) && st.main.Awaiting? && st.cells.Keys == worn.Keys && WornEdge(ch, worn) && ch.Last() > 0
    ensures OpenEdge(ch, Restored(st.cells, worn), 1)
  {
    var cells := Restored(st.cells, worn);
    forall h: nat | 1 <= h <= ch.Top()
      ensures Node(h, 0) in cells && cells[Node(h, 0)].state < 0 && !cells[Node(h, 0)].unbalanced
      ensures cells[Node(h, 0)].root <==> h == ch.Top()
    {
      EdgeMarks(ch, st.cells, st.main, h);
    }
  }

  lemma FirstIsReady(ch: Chunk, procs: seq<Proc>)
    requires ch.Valid() && ch.Last() > 0 && Unmoved(ch, procs) && !procs[0].Unborn?
    ensures procs[0] == Hashing && ch.depth > 0
  {
    TopWithinTree(ch);
    RootHeightMeaning(ch.Last(), 0);
    assert procs[0] == Launch(ch, 0);
  }

  lemma FirstLeaf(ch: Chunk, cells: map<Node, Cell>, m: Main)
    requires ch.Valid() && ch.Last() > 0 && m.Awaiting? && MarksOk(ch, cells, m) && TreeShape(ch.depth, cells)
    ensures Node(0, 0) in cells && !cells[Node(0, 0)].root
  {
    RootHeightMeaning(ch.Last(), 0);
    AncZero(ch.depth);
    EdgeMarks(ch, cells, m, 0);
  }

  /** What the first goroutine can rely on when it starts to climb at its first parent. */
  ghost predicate SetOff(ch: Chunk, st: State)
    requires |ch.segs| > 0
  {
    && |st.procs| == |ch.segs| && st.main.Awaiting? && OpenEdge(ch, st.cells, 1)
    && ch.TopNode() in st.cells && st.cells[ch.TopNode()].right == []
  }

  lemma QuietSetsOff(ch: Chunk, worn: map<Node, Cell>, st: State)
    requires Quiet(ch, Mended(worn), st) && st.main.Awaiting? && st.cells.Keys == worn.Keys && WornEdge(ch, worn) && ch.Last() > 0
    ensures var w := RestoredState(st, worn);
            SetOff(ch, w) && w.procs[0] == Hashing && Node(0, 0) in w.cells && !w.cells[Node(0, 0)].root
  {
    EdgeIsOpen(ch, worn, st);
    FirstIsReady(ch, st.procs);
    FirstLeaf(ch, st.cells, st.main);
  }

  lemma FirstHashes(ch: Chunk, w: State)
    requires |ch.segs| > 0 && SetOff(ch, w) && w.procs[0] == Hashing && Node(0, 0) in w.cells && !w.cells[Node(0, 0)].root
    ensures Enabled(ch, w, Segment(0)) && SetOff(ch, Step(ch, w, Segment(0)))
    ensures Step(ch, w, Segment(0)).procs[0] == Storing(Node(1, 0), true, 0, ch.hash(ch.segs[0]))
    ensures Step(ch, w, Segment(0)).cells == w.cells
  {
  }

  /** The writing thread marks the path, and then the first goroutine hashes its segment. */
  lemma FirstUp(ch: Chunk, worn: map<Node, Cell>) returns (schedule: seq<Actor>, up: State)
    requires ch.Valid() && ch.Last() > 0 && Clean(ch.depth, worn) && WornEdge(ch, worn)
    ensures Run(ch, Start(ch, worn), schedule, up) && up.cells.Keys == worn.Keys && SetOff(ch, up)
    ensures up.procs[0] == Storing(Node(1, 0), true, 0, ch.hash(ch.segs[0]))
  {
    MendedIsUsable(ch, worn);
    StartQuiet(ch, Mended(worn));
    var marks, quiet := MainFirst(ch, worn, Start(ch, Mended(worn)));
    var w := RestoredState(quiet, worn);
    assert RestoredState(Start(ch, Mended(worn)), worn) == Start(ch, worn);
    QuietSetsOff(ch, worn, quiet);
    FirstHashes(ch, w);
    up := Step(ch, w, Segment(0));
    OneStep(ch, w, Segment(0));
    RunJoins(ch, Start(ch, worn), marks, w, [Segment(0)], up);
    schedule := marks + [Segment(0)];
  }

  /** The result is taken and the tree released. */
  lemma Deliver(ch: Chunk, top: State) returns (schedule: seq<Actor>, end: State)
    requires ch.Valid() && |top.procs| == |ch.segs| && top.procs[0].Sending? && top.main.Awaiting? && TreeShape(ch.depth, top.cells)
    ensures Run(ch, top, schedule, end) && end.main == Done(top.procs[0].s)
  {
    var taken := Step(ch, top, Receive(0));
    OneStep(ch, top, Receive(0));
    var releases;
    releases, end := ReleaseAll(ch, taken);
    RunJoins(ch, top, [Receive(0)], taken, releases, end);
    schedule := [Receive(0)] + releases;
  }

  /** On such a tree some run delivers the hash of a hash. */
  lemma AloneToTheTop(ch: Chunk, worn: map<Node, Cell>) returns (schedule: seq<Actor>, end: State, x: Bytes)
    requires ch.Valid() && ch.Last() > 0 && Clean(ch.depth, worn) && WornEdge(ch, worn)
    ensures Run(ch, Start(ch, worn), schedule, end) && end.main == Done(ch.hash(x)) && exists y :: x == ch.hash(y)
  {
    RootHeightMeaning(ch.Last(), 0);
    var first, up := FirstUp(ch, worn);
    var climb, top;
    climb, top, x := Climb(ch, up, 1, 0, ch.hash(ch.segs[0]));
    var rest;
    rest, end := Deliver(ch, top);
    RunJoins(ch, Start(ch, worn), first, up, climb, top);
    RunJoins(ch, Start(ch, worn), first + climb, top, rest, end);
    schedule := first + climb + rest;
  }

  // ----- which is not the root -----

  /** All hashes have the same length. */
  ghost predicate FixedLength(hash: Bytes -> Bytes, length: nat) {
    length > 0 && forall a :: |hash(a)| == length
  }

  lemma {:induction false} ValueNotEmpty(ch: Chunk, n: Node, length: nat)
    requires ch.Valid() && ch.Active(n) && FixedLength(ch.hash, length) && ch.segs[ch.Last()] != []
    ensures ch.Val(n) != [] && (|ch.segs[ch.Last()]| > ch.size ==> |ch.Val(n)| == length)
    decreases n.h
  {
    if n.h == 0 {
    } else if !ch.Balanced(n) {
      ValueNotEmpty(ch, Node(n.h - 1, 2 * n.k), length);
    }
  }

  /** The left input of the top node is a hash. */
  lemma LeftIsHash(ch: Chunk, n: Node)
    requires ch.Valid() && ch.Last() > 0 && n == Node(ch.Top() - 1, 0)
    ensures ch.Active(n) && exists y :: ch.Val(n) == ch.hash(y)
  {
    if n.h == 0 {
      assert ch.Val(n) == ch.hash(ch.segs[0]);
    } else {
      EdgeBalanced(ch, n.h);
      assert ch.Val(n) == ch.hash(ch.Val(Node(n.h - 1, 0)) + ch.Val(Node(n.h - 1, 1)));
    }
  }

  /** The top node holds the hash of something longer than a hash: of two hashes, unless the last segment is short. */
  lemma TopIsHashOf(ch: Chunk, length: nat) returns (y: Bytes)
    requires ch.Valid() && ch.Last() > 0 && FixedLength(ch.hash, length) && ch.segs[ch.Last()] != []
    ensures ch.Active(ch.TopNode()) && ch.Val(ch.TopNode()) == ch.hash(y)
    ensures |y| > length && (|ch.segs[ch.Last()]| > ch.size ==> |y| == 2 * length)
  {
    var top := ch.Top();
    RootHeightMeaning(ch.Last(), 0);
    EdgeBalanced(ch, top);
    LeftIsHash(ch, Node(top - 1, 0));
    ValueNotEmpty(ch, Node(top - 1, 1), length);
    y := ch.Val(Node(top - 1, 0)) + ch.Val(Node(top - 1, 1));
  }

  lemma LastNotEmpty(data: Bytes, size: nat)
    requires size > 0 && LastIndex(data, size) > 0
    ensures Segments(data, size)[LastIndex(data, size)] != []
  {
    var last := LastIndex(data, size);
    DivBound(|data|, 2 * size, last);
  }

  /** The last double segment of the data is longer than one segment. */
  predicate LongLast(data: Bytes, size: nat)
    requires size > 0
  {
    |Segments(data, size)[LastIndex(data, size)]| > size
  }

  /**
   A tree whose counters above the first leaf have wrapped can be made to deliver the hash
   of one string where the Merkle root is the hash of another, longer one, whatever the
   data is that reaches beyond one leaf: a wrong result unless just these two collide.
   */
  lemma WrongRoot(hash: Bytes -> Bytes, length: nat, size: nat, count: nat, depth: nat, data: Bytes, cells: map<Node, Cell>)
    returns (schedule: seq<Actor>, end: State, x: Bytes, y: Bytes)
    requires size > 0 && count > 0 && |data| <= size * count && Anc((count - 1) / 2, depth) == 0 && FixedLength(hash, length)
    requires var ch := ChunkOf(hash, size, depth, data); ch.Last() > 0 && Clean(depth, cells) && WornEdge(ch, cells)
    ensures Run(ChunkOf(hash, size, depth, data), Start(ChunkOf(hash, size, depth, data), cells), schedule, end)
    ensures end.main == Done(hash(x)) && MerkleRoot(hash, size, data) == hash(y) && |x| == length < |y|
    ensures LongLast(data, size) ==> |y| == 2 * length
  {
    var ch := ChunkOf(hash, size, depth, data);
    CapacityFits(data, size, count, depth);
    ChunkIsValid(hash, size, depth, data);
    schedule, end, x := AloneToTheTop(ch, cells);
    LastNotEmpty(data, size);
    TopValue(hash, size, depth, data);
    y := TopIsHashOf(ch, length);
  }

  lemma EdgeIsWorn(hash: Bytes -> Bytes, size: nat, count: nat, depth: nat, chunks: seq<Bytes>,
                   trees: seq<map<Node, Cell>>, results: seq<Bytes>, ch: Chunk)
    requires ch.Valid() && Series(hash, size, count, depth, chunks, trees, results, ch.Top()) && |chunks| == 0x4000_0000
    ensures WornEdge(ch, trees[|chunks|])
  {
    forall h: nat | 0 < h <= ch.Top()
      ensures Node(h, 0) in trees[|chunks|] && trees[|chunks|][Node(h, 0)].state < 0
    {
      LowerSeries(hash, size, count, depth, chunks, trees, results, ch.Top(), h);
      EdgeCounter(hash, size, count, depth, chunks, trees, results, h, |chunks|);
    }
  }

  /** So it is after 2^30 chunks on one tree that reach as high as the data. */
  lemma WrongAtLast(hash: Bytes -> Bytes, length: nat, size: nat, count: nat, depth: nat, chunks: seq<Bytes>,
                    trees: seq<map<Node, Cell>>, results: seq<Bytes>, data: Bytes)
    returns (schedule: seq<Actor>, end: State, x: Bytes, y: Bytes)
    requires size > 0 && |data| <= size * count && FixedLength(hash, length)
    requires var top := ChunkOf(hash, size, depth, data).Top();
             top > 0 && Series(hash, size, count, depth, chunks, trees, results, top) && |chunks| == 0x4000_0000
    ensures Run(ChunkOf(hash, size, depth, data), Start(ChunkOf(hash, size, depth, data), trees[|chunks|]), schedule, end)
    ensures end.main == Done(hash(x)) && MerkleRoot(hash, size, data) == hash(y) && |x| == length < |y|
    ensures LongLast(data, size) ==> |y| == 2 * length
  {
    CapacityFits(data, size, count, depth);
    ChunkIsValid(hash, size, depth, data);
    ReusedTree(hash, size, count, depth, chunks, trees, results, |chunks|);
    EdgeIsWorn(hash, size, count, depth, chunks, trees, results, ChunkOf(hash, size, depth, data));
    schedule, end, x, y := WrongRoot(hash, length, size, count, depth, data, trees[|chunks|]);
  }

  lemma LowerSeries(hash: Bytes -> Bytes, size: nat, count: nat, depth: nat, chunks: seq<Bytes>,
                    trees: seq<map<Node, Cell>>, results: seq<Bytes>, top: nat, h: nat)
    requires Series(hash, size, count, depth, chunks, trees, results, top) && h <= top
    ensures Series(hash, size, count, depth, chunks, trees, results, h)
  {
    forall i | 0 <= i < |chunks|
      ensures Reaches(hash, size, depth, chunks[i], h)
    {
      assert Reaches(hash, size, depth, chunks[i], top);
    }
  }

  // ----- with a hash of which nothing has to be assumed -----

  /** A one-byte hash: how long its input is, in 8 bits. */
  function Tag(b: Bytes): Bytes {
    [(|b| % 256) as Byte]
  }

  /** For that hash the result is wrong for all data that reaches beyond one leaf and does not end in a single segment. */
  lemma WrongTag(size: nat, count: nat, depth: nat, data: Bytes, cells: map<Node, Cell>) returns (schedule: seq<Actor>, end: State)
    requires size > 0 && count > 0 && |data| <= size * count && Anc((count - 1) / 2, depth) == 0 && LongLast(data, size)
    requires var ch := ChunkOf(Tag, size, depth, data); ch.Last() > 0 && Clean(depth, cells) && WornEdge(ch, cells)
    ensures Run(ChunkOf(Tag, size, depth, data), Start(ChunkOf(Tag, size, depth, data), cells), schedule, end)
    ensures FixedLength(Tag, 1) && end.main.Done? && end.main.result != MerkleRoot(Tag, size, data)
  {
    var x, y;
    schedule, end, x, y := WrongRoot(Tag, 1, size, count, depth, data, cells);
    assert Tag(x)[0] == 1 && Tag(y)[0] == 2;
  }

  /** A tree of two leaves, every counter at zero except that of its top, which has wrapped. */
  function WornTree(): map<Node, Cell> {
    var leaf := Cell([], [], 0, false, false);
    map[Node(0, 0) := leaf, Node(0, 1) := leaf, Node(1, 0) := Cell([], [], MIN32, false, true)]
  }

  /** On it, four bytes in segments of one can be given a wrong hash. */
  lemma WrongExample(a: Byte) returns (schedule: seq<Actor>, end: State)
    ensures var data := [a, a, a, a];
            var ch := ChunkOf(Tag, 1, 1, data);
            Run(ch, Start(ch, WornTree()), schedule, end) && end.main.Done? && end.main.result != MerkleRoot(Tag, 1, data)
  {
    var data := [a, a, a, a];
    forall n: Node
      ensures n in WornTree() <==> InTree(1, n)
    {
      if n.h == 0 { assert Anc(n.k, 1) == Anc(n.k, 0) / 2; }
    }
    assert LastIndex(data, 1) == 1 && |Segments(data, 1)[1]| == 2;
    assert RootHeight(1) == 1 + RootHeight(0);
    assert Anc((4 - 1) / 2, 1) == Anc(1, 0) / 2;
    schedule, end := WrongTag(1, 4, 1, data, WornTree());
  }
}
