/** The steps of the writing thread keep the invariant too. */
module BmtMainSteps {
  import opened BmtTree
  import opened BmtProtocol
  import opened BmtInvariant
  import opened BmtSteps

  lemma LaunchedOk(ch: Chunk, cells: map<Node, Cell>, g: nat)
    requires ch.Valid() && g < |ch.segs|
    ensures ProcOk(ch, cells, g, Launch(ch, g))
  {
    if Launch(ch, g).Storing? {
      assert g == ch.Last() by { assert Anc(ch.Last(), 0) == ch.Last(); }
      TopWithinTree(ch);
      ActiveInTree(ch, Node(0, g));
    }
  }

  /** Starting a goroutine that has not run yet. */
  lemma LaunchKeeps(ch: Chunk, before: map<Node, Cell>, cells: map<Node, Cell>, procs: seq<Proc>, g: nat)
    requires ch.Valid() && before.Keys == cells.Keys && |procs| == |ch.segs| && g < |procs| && procs[g].Unborn?
    requires ProcsOk(ch, cells, procs) && Separate(ch, procs) && CountsOk(ch, before, cells, procs)
    ensures var procs' := procs[g := Launch(ch, g)];
            && ProcsOk(ch, cells, procs') && Separate(ch, procs') && CountsOk(ch, before, cells, procs')
  {
    var p := Launch(ch, g);
    LaunchedOk(ch, cells, g);
    OneSameProgress(ch, procs, g, p);
    ProgressKept(ch, before, cells, procs, cells, procs[g := p]);
  }

  /** Between writing and marking nothing is marked yet. */
  lemma MarkingBegins(ch: Chunk, cells: map<Node, Cell>, j: nat, isLeft: bool)
    requires |ch.segs| > 0 && MarksOk(ch, cells, Writing(j))
    ensures MarksOk(ch, cells, Marking(Node(MarkStart(ch), Anc(ch.Last(), MarkStart(ch))), isLeft, 0, 0))
    ensures MarkStart(ch) <= ch.Top()
  {
  }

  lemma WritingMain(ch: Chunk, st: State)
    requires ch.Valid() && |st.procs| == |ch.segs| && MainOk(ch, st)
    requires Enabled(ch, st, MainThread) && st.main.Writing?
    ensures MainOk(ch, StepMain(ch, st))
  {
    var j := st.main.j;
    if j < ch.Last() {
      assert MarksOk(ch, st.cells, Writing(j + 1));
    } else {
      MarkingBegins(ch, st.cells, j, StepMain(ch, st).main.isLeft);
    }
  }

  lemma WritingStep(ch: Chunk, before: map<Node, Cell>, st: State)
    requires Inv(ch, before, st) && Enabled(ch, st, MainThread) && st.main.Writing?
    ensures Inv(ch, before, StepMain(ch, st))
  {
    WritingMain(ch, st);
    if st.main.j < ch.Last() {
      LaunchKeeps(ch, before, st.cells, st.procs, st.main.j);
    }
  }

  lemma ClosingStep(ch: Chunk, before: map<Node, Cell>, st: State)
    requires Inv(ch, before, st) && Enabled(ch, st, MainThread) && st.main.Closing?
    ensures Inv(ch, before, StepMain(ch, st))
  {
    LaunchKeeps(ch, before, st.cells, st.procs, ch.Last());
  }

  /** Changing marks or an unread right half leaves goroutines and counters alone. */
  lemma MarkKeeps(ch: Chunk, before: map<Node, Cell>, cells: map<Node, Cell>, procs: seq<Proc>, n: Node, cell: Cell)
    requires |ch.segs| > 0 && before.Keys == cells.Keys && n in cells && cell.state == cells[n].state
    requires ProcsOk(ch, cells, procs) && Separate(ch, procs) && CountsOk(ch, before, cells, procs)
    requires cell.left == cells[n].left
    requires cell.right == cells[n].right || forall g :: 0 <= g < |procs| && Reads(procs[g], n) ==> Exits(ch, procs[g]) == n.h && SideOf(g, n.h)
    ensures var cells' := cells[n := cell]; ProcsOk(ch, cells', procs) && CountsOk(ch, before, cells', procs)
  {
    forall g | 0 <= g < |procs|
      ensures ProcOk(ch, cells[n := cell], g, procs[g])
    {
      CellChange(ch, cells, n, cell, g, procs[g]);
    }
    ProgressKept(ch, before, cells, procs, cells[n := cell], procs);
  }

  /** Where a goroutine stands that relies on a node. */
  lemma ReaderPlaced(ch: Chunk, cells: map<Node, Cell>, g: nat, p: Proc, n: Node)
    requires |ch.segs| > 0 && ProcOk(ch, cells, g, p) && Reads(p, n)
    ensures n.h <= ch.Top() && n.k == Anc(g, n.h) && n.h <= Exits(ch, p) && ch.Active(n)
    ensures n.h == 0 ==> g == ch.Last()
    ensures !SideOf(g, n.h) ==> ch.Balanced(n)
  {
  }

  /** A goroutine has not gone past a node that another one, not yet stopped, is still below. */
  lemma NotPast(ch: Chunk, procs: seq<Proc>, g: nat, g': nat, h: nat)
    requires |ch.segs| > 0 && Separate(ch, procs) && g < |procs| && g' < |procs| && g != g' && h <= ch.Top()
    requires Anc(g, h) == Anc(g', h) && !procs[g'].Returned?
    ensures Exits(ch, procs[g]) <= h
  {
  }

  /** While the last goroutine is unborn nobody relies on a right half of the path. */
  lemma RightUnread(ch: Chunk, cells: map<Node, Cell>, procs: seq<Proc>, n: Node, g: nat)
    requires |ch.segs| == |procs| > 0 && g < |procs| && ProcOk(ch, cells, g, procs[g]) && Separate(ch, procs)
    requires ch.OnPath(n) && procs[ch.Last()].Unborn? && Reads(procs[g], n)
    ensures Exits(ch, procs[g]) == n.h && SideOf(g, n.h)
  {
    var last := ch.Last();
    ReaderPlaced(ch, cells, g, procs[g], n);
    NotPast(ch, procs, g, last, n.h);
    if !SideOf(g, n.h) {
      BalancedMeaning(ch, n);
      HalvesApart(ch, procs, g, last, n);
    }
  }

  lemma MarkUnbalanced(ch: Chunk, cells: map<Node, Cell>, n: Node, isLeft: bool, d: nat)
    requires |ch.segs| > 0 && n in cells && MarksOk(ch, cells, Marking(n, isLeft, d, 0))
    requires ch.OnPath(n) && isLeft == ch.FromLeft(n) && MarkStart(ch) <= n.h
    ensures MarksOk(ch, cells[n := cells[n].(unbalanced := isLeft)], Marking(n, isLeft, d, 1))
  {
    assert forall m: Node :: m.h == n.h && ch.OnPath(m) ==> m == n;
  }

  lemma MarkRight(ch: Chunk, cells: map<Node, Cell>, n: Node, isLeft: bool, d: nat)
    requires |ch.segs| > 0 && n in cells && MarksOk(ch, cells, Marking(n, isLeft, d, 1))
    requires ch.OnPath(n)
    ensures MarksOk(ch, cells[n := cells[n].(right := [])], Marking(n, isLeft, d, 2))
  {
    assert forall m: Node :: m.h == n.h && ch.OnPath(m) ==> m == n;
  }

  lemma MarkRoot(ch: Chunk, cells: map<Node, Cell>, n: Node, isLeft: bool, d: nat)
    requires |ch.segs| > 0 && n in cells && MarksOk(ch, cells, Marking(n, isLeft, d, 2))
    requires n == ch.TopNode()
    ensures MarksOk(ch, cells[n := cells[n].(root := true)], Closing)
  {
  }

  lemma MarkingMarks(ch: Chunk, st: State)
    requires |ch.segs| > 0 && |st.procs| == |ch.segs| && MainOk(ch, st)
    requires Enabled(ch, st, MainThread) && st.main.Marking?
    ensures MainOk(ch, StepMain(ch, st))
  {
    var Marking(n, isLeft, d, pc) := st.main;
    RootHeightMeaning(ch.Last(), n.h);
    if pc == 0 {
      MarkUnbalanced(ch, st.cells, n, isLeft, d);
    } else if pc == 1 {
      MarkRight(ch, st.cells, n, isLeft, d);
    } else if n.k == 0 {
      MarkRoot(ch, st.cells, n, isLeft, d);
    } else {
      assert MarksOk(ch, st.cells, Marking(Parent(n), n.k % 2 == 0, d + 1, 0));
    }
  }

  lemma MarkingStep(ch: Chunk, before: map<Node, Cell>, st: State)
    requires Inv(ch, before, st) && Enabled(ch, st, MainThread) && st.main.Marking?
    ensures Inv(ch, before, StepMain(ch, st))
  {
    var n := st.main.n;
    var st' := StepMain(ch, st);
    MarkingMarks(ch, st);
    if st'.cells != st.cells {
      if st.main.pc == 1 {
        forall g | 0 <= g < |st.procs| && Reads(st.procs[g], n)
          ensures Exits(ch, st.procs[g]) == n.h && SideOf(g, n.h)
        {
          RightUnread(ch, st.cells, st.procs, n, g);
        }
      }
      MarkKeeps(ch, before, st.cells, st.procs, n, st'.cells[n]);
    }
  }

  /** When one goroutine can deliver, all others have stopped. */
  lemma SenderIsAlone(ch: Chunk, procs: seq<Proc>, g: nat, g': nat)
    requires |ch.segs| > 0 && |procs| == |ch.segs| && g < |procs| && g' < |procs| && g != g'
    requires Separate(ch, procs) && (procs[g].Sending? || procs[g].Sent?)
    ensures procs[g'].Returned?
  {
    var top := ch.Top();
    RootHeightMeaning(ch.Last(), top);
    AncMonotone(g, ch.Last(), top);
    AncMonotone(g', ch.Last(), top);
    assert Anc(g, top) == Anc(g', top);
  }

  lemma ReceiveStep(ch: Chunk, before: map<Node, Cell>, st: State, g: nat)
    requires Inv(ch, before, st) && Enabled(ch, st, Receive(g))
    ensures Inv(ch, before, Step(ch, st, Receive(g)))
  {
    var procs' := st.procs[g := Sent];
    assert ProcOk(ch, st.cells, g, st.procs[g]);
    OneSameProgress(ch, st.procs, g, Sent);
    ProgressKept(ch, before, st.cells, st.procs, st.cells, procs');
    forall g' | 0 <= g' < |procs'|
      ensures procs'[g'].Returned? || procs'[g'].Sent?
    {
      if g' != g { SenderIsAlone(ch, st.procs, g, g'); }
    }
    assert procs'[g].Sent?;
    assert ReleaseOk(ch, st.cells, 0, 0);
  }

  lemma ReleaseUnbalanced(ch: Chunk, cells: map<Node, Cell>, n: Node)
    requires |ch.segs| > 0 && n in cells && ch.OnPath(n) && ReleaseOk(ch, cells, n.h, 0)
    ensures ReleaseOk(ch, cells[n := cells[n].(unbalanced := false)], n.h, 1)
  {
    assert forall m: Node :: m.h == n.h && ch.OnPath(m) ==> m == n;
  }

  lemma ReleaseRoot(ch: Chunk, cells: map<Node, Cell>, n: Node)
    requires |ch.segs| > 0 && n in cells && ch.OnPath(n) && ReleaseOk(ch, cells, n.h, 1) && n.h < ch.depth
    ensures ReleaseOk(ch, cells[n := cells[n].(root := false)], n.h + 1, 0)
  {
    RootHeightMeaning(ch.Last(), ch.Top());
    assert ch.TopNode().h == n.h ==> ch.TopNode() == n;
  }

  lemma ReleasingMarks(ch: Chunk, st: State)
    requires ch.Valid() && |st.procs| == |ch.segs| && MainOk(ch, st)
    requires Enabled(ch, st, MainThread) && st.main.Releasing?
    requires forall n :: n in st.cells ==> n.h <= ch.depth
    ensures MainOk(ch, StepMain(ch, st))
  {
    var Releasing(n, pc, r) := st.main;
    if pc == 0 {
      ReleaseUnbalanced(ch, st.cells, n);
    } else if n.h < ch.depth {
      ReleaseRoot(ch, st.cells, n);
    } else {
      TopWithinTree(ch);
    }
  }

  lemma ReleasingStep(ch: Chunk, before: map<Node, Cell>, st: State)
    requires Inv(ch, before, st) && Enabled(ch, st, MainThread) && st.main.Releasing?
    ensures Inv(ch, before, StepMain(ch, st))
  {
    var st' := StepMain(ch, st);
    ReleasingMarks(ch, st);
    if st'.cells != st.cells {
      MarkKeeps(ch, before, st.cells, st.procs, st.main.n, st'.cells[st.main.n]);
    }
  }

  /** Every step of every actor keeps the invariant. */
  lemma StepKeepsInv(ch: Chunk, before: map<Node, Cell>, st: State, a: Actor)
    requires Inv(ch, before, st) && Enabled(ch, st, a)
    ensures Inv(ch, before, Step(ch, st, a))
  {
    match a {
      case Receive(g) => ReceiveStep(ch, before, st, g);
      case MainThread =>
        match st.main {
          case Writing(_) => WritingStep(ch, before, st);
          case Marking(_, _, _, _) => MarkingStep(ch, before, st);
          case Closing => ClosingStep(ch, before, st);
          case Releasing(_, _, _) => ReleasingStep(ch, before, st);
        }
      case Segment(g) =>
        match st.procs[g] {
          case Hashing => HashingStep(ch, before, st, g);
          case Storing(_, _, _, _) => StoringStep(ch, before, st, g);
          case Loading(_, _, _) => LoadingStep(ch, before, st, g);
          case Toggling(_, _, _) => TogglingStep(ch, before, st, g);
          case ReadingLeft(_, _, _, _) => ReadingLeftStep(ch, before, st, g);
          case ReadingRight(_, _, _, _) => ReadingRightStep(ch, before, st, g);
          case Leaving(_, _, _) => LeavingStep(ch, before, st, g);
        }
    }
  }

  lemma StartInv(ch: Chunk, cells: map<Node, Cell>)
    requires ch.Valid() && Usable(ch, cells)
    ensures Inv(ch, cells, Start(ch, cells))
  {
    var st := Start(ch, cells);
    forall n | n in cells
      ensures CountOk(ch, cells, cells, st.procs, n)
    {
      assert !Waiting(st.procs, n) && !Passed(ch, st.procs, n);
    }
  }

  lemma {:induction false} RunKeepsInv(ch: Chunk, before: map<Node, Cell>, st: State, schedule: seq<Actor>, end: State)
    requires Inv(ch, before, st) && Run(ch, st, schedule, end)
    ensures Inv(ch, before, end)
    decreases |schedule|
  {
    if schedule == [] {
    } else {
      StepKeepsInv(ch, before, st, schedule[0]);
      RunKeepsInv(ch, before, Step(ch, st, schedule[0]), schedule[1..], end);
    }
  }
}
