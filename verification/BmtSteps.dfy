/** Every step of the concurrent hasher keeps the invariant. */
module BmtSteps {
  import opened BmtTree
  import opened BmtProtocol
  import opened BmtInvariant

  // ----- what the invariant says about two goroutines -----

  /** Two goroutines never stand in the same half of a node. */
  lemma HalvesApart(ch: Chunk, procs: seq<Proc>, g: nat, g': nat, n: Node)
    requires |ch.segs| > 0 && g < |procs| && g' < |procs| && g != g'
    requires Separate(ch, procs) && 0 < n.h <= ch.Top()
    requires Anc(g, n.h) == n.k && Anc(g', n.h) == n.k && SideOf(g, n.h) == SideOf(g', n.h)
    requires Exits(ch, procs[g]) >= n.h
    ensures procs[g'].Returned? && Exits(ch, procs[g']) < n.h
  {
    assert Anc(g, n.h - 1) == Anc(g', n.h - 1);
  }

  /** A goroutine standing on the path's own side of a node has waited for `finalise`. */
  lemma PathIsMarked(ch: Chunk, st: State, g: nat, n: Node)
    requires |ch.segs| > 0 && |st.procs| == |ch.segs| && g < |st.procs|
    requires Separate(ch, st.procs) && MainOk(ch, st)
    requires n.h <= ch.Top() && Anc(g, n.h) == n.k && ch.OnPath(n)
    requires !st.procs[g].Unborn?
    requires n.h == 0 ==> g == ch.Last()
    requires
      || g == ch.Last()
      || Exits(ch, st.procs[g]) > n.h
      || (n.h > 0 && Exits(ch, st.procs[g]) == n.h && SideOf(g, n.h) == ch.FromLeft(n))
    ensures !st.main.Writing? && !st.main.Marking? && !st.procs[ch.Last()].Unborn?
  {
    var last := ch.Last();
    if g != last {
      if Exits(ch, st.procs[g]) > n.h {
        assert Anc(g, n.h) == Anc(last, n.h);
      } else {
        assert Anc(g, n.h - 1) == Anc(last, n.h - 1);
      }
      assert st.procs[last].Returned?;
    }
  }

  // ----- steps that move no goroutine past a node -----

  /** `Separate` and the counters look at goroutines only through these two facts. */
  ghost predicate SameProgress(ch: Chunk, procs: seq<Proc>, procs': seq<Proc>)
    requires |ch.segs| > 0
  {
    && |procs| == |procs'|
    && forall g :: 0 <= g < |procs| ==>
         && Exits(ch, procs[g]) == Exits(ch, procs'[g])
         && procs[g].Returned? == procs'[g].Returned?
         && (procs[g].Returned? ==> procs[g] == procs'[g])
  }

  lemma ProgressKept(ch: Chunk, before: map<Node, Cell>, cells: map<Node, Cell>, procs: seq<Proc>,
      cells': map<Node, Cell>, procs': seq<Proc>)
    requires |ch.segs| > 0 && SameProgress(ch, procs, procs')
    requires before.Keys == cells.Keys == cells'.Keys
    requires forall n :: n in cells ==> cells[n].state == cells'[n].state
    requires Separate(ch, procs) && CountsOk(ch, before, cells, procs)
    ensures Separate(ch, procs') && CountsOk(ch, before, cells', procs')
  {
    forall n | n in cells'
      ensures CountOk(ch, before, cells', procs', n)
    {
      assert CountOk(ch, before, cells, procs, n);
      TurnsKept(ch, procs, procs', n);
    }
  }

  lemma TurnsKept(ch: Chunk, procs: seq<Proc>, procs': seq<Proc>, n: Node)
    requires |ch.segs| > 0 && SameProgress(ch, procs, procs')
    ensures Waiting(procs, n) == Waiting(procs', n) && Passed(ch, procs, n) == Passed(ch, procs', n)
  {
    if Waiting(procs, n) {
      var g :| 0 <= g < |procs| && procs[g] == Returned(n);
      assert procs'[g] == Returned(n);
    }
    if Waiting(procs', n) {
      var g :| 0 <= g < |procs'| && procs'[g] == Returned(n);
      assert procs[g] == Returned(n);
    }
    if Passed(ch, procs, n) {
      var g :| 0 <= g < |procs| && Anc(g, n.h) == n.k && Exits(ch, procs[g]) > n.h;
      assert Exits(ch, procs'[g]) > n.h;
    }
    if Passed(ch, procs', n) {
      var g :| 0 <= g < |procs'| && Anc(g, n.h) == n.k && Exits(ch, procs'[g]) > n.h;
      assert Exits(ch, procs[g]) > n.h;
    }
  }

  // ----- the goroutines -----

  /** Where a goroutine arrives when it leaves a node below the top, or its leaf. */
  lemma PlacedAbove(ch: Chunk, g: nat, n: Node)
    requires ch.Valid() && g <= ch.Last() && n.h < ch.Top() && n.k == Anc(g, n.h)
    ensures ch.Active(n) && Placed(ch, g, Parent(n), n.k % 2 == 0)
  {
    AncMonotone(g, ch.Last(), n.h);
    AncMonotone(g, ch.Last(), n.h + 1);
    assert Anc(g, n.h + 1) == Anc(g, n.h) / 2;
    ParentInTree(ch, n);
  }

  lemma ParentInTree(ch: Chunk, n: Node)
    requires ch.Valid() && n.h < ch.Top() && ch.Active(n)
    ensures InTree(ch.depth, Parent(n))
  {
    TopWithinTree(ch);
    assert Anc(ch.Last(), n.h + 1) == Anc(ch.Last(), n.h) / 2;
    ActiveInTree(ch, Parent(n));
  }

  lemma InputAbove(ch: Chunk, n: Node)
    requires |ch.segs| > 0 && ch.Active(n) && ch.Active(Parent(n))
    ensures n.k % 2 == 1 ==> ch.Balanced(Parent(n))
    ensures ch.Input(Parent(n), n.k % 2 == 0) == ch.Val(n)
  {
    Halves(n.k);
    InputFrom(ch, Parent(n), n.k % 2 == 0, n);
  }

  lemma Halves(k: nat)
    ensures k == if k % 2 == 0 then 2 * (k / 2) else 2 * (k / 2) + 1
  {
  }

  lemma InputFrom(ch: Chunk, p: Node, isLeft: bool, n: Node)
    requires |ch.segs| > 0 && ch.Active(n) && ch.Active(p) && p.h == n.h + 1
    requires n.k == if isLeft then 2 * p.k else 2 * p.k + 1
    ensures !isLeft ==> ch.Balanced(p)
    ensures ch.Input(p, isLeft) == ch.Val(n)
  {
  }

  /** A goroutine that neither stops at `n` nor goes past it leaves its counter alone. */
  lemma OneMove(ch: Chunk, procs: seq<Proc>, g: nat, p: Proc, n: Node)
    requires |ch.segs| > 0 && g < |procs| && !procs[g].Returned? && p != Returned(n)
    requires Anc(g, n.h) == n.k ==> (Exits(ch, procs[g]) > n.h <==> Exits(ch, p) > n.h)
    ensures var procs' := procs[g := p];
            && Waiting(procs, n) == Waiting(procs', n) && Passed(ch, procs, n) == Passed(ch, procs', n)
  {
    var procs' := procs[g := p];
    if Waiting(procs, n) {
      var w :| 0 <= w < |procs| && procs[w] == Returned(n);
      assert procs'[w] == Returned(n);
    }
    if Waiting(procs', n) {
      var w :| 0 <= w < |procs'| && procs'[w] == Returned(n);
      assert procs[w] == Returned(n);
    }
    if Passed(ch, procs, n) {
      var w :| 0 <= w < |procs| && Anc(w, n.h) == n.k && Exits(ch, procs[w]) > n.h;
      assert Exits(ch, procs'[w]) > n.h;
    }
    if Passed(ch, procs', n) {
      var w :| 0 <= w < |procs'| && Anc(w, n.h) == n.k && Exits(ch, procs'[w]) > n.h;
      assert Exits(ch, procs[w]) > n.h;
    }
  }

  /** Moving on keeps `Separate` if everyone else below the nodes passed has stopped there. */
  lemma MoveKeepsSeparate(ch: Chunk, procs: seq<Proc>, g: nat, p: Proc)
    requires |ch.segs| > 0 && g < |procs| && Separate(ch, procs) && !procs[g].Returned?
    requires Exits(ch, procs[g]) <= Exits(ch, p)
    requires forall g', h: nat ::
      0 <= g' < |procs| && g' != g && Exits(ch, procs[g]) <= h < Exits(ch, p) && h <= ch.Top() && Anc(g, h) == Anc(g', h)
      ==> procs[g'].Returned? && Exits(ch, procs[g']) <= h
    ensures Separate(ch, procs[g := p])
  {
  }

  /** A step of `g` that leaves all counters alone and passes no balanced node. */
  lemma MoveKeepsCounts(ch: Chunk, before: map<Node, Cell>, cells: map<Node, Cell>, procs: seq<Proc>, g: nat, p: Proc)
    requires |ch.segs| > 0 && before.Keys == cells.Keys && CountsOk(ch, before, cells, procs)
    requires g < |procs| && !procs[g].Returned? && !p.Returned?
    requires forall n :: n in cells && ch.Balanced(n) && Anc(g, n.h) == n.k ==>
      (Exits(ch, procs[g]) > n.h <==> Exits(ch, p) > n.h)
    ensures CountsOk(ch, before, cells, procs[g := p])
  {
    forall n | n in cells
      ensures CountOk(ch, before, cells, procs[g := p], n)
    {
      assert CountOk(ch, before, cells, procs, n);
      if ch.Balanced(n) {
        OneMove(ch, procs, g, p, n);
      }
    }
  }

  lemma MainKept(ch: Chunk, st: State, g: nat, p: Proc)
    requires |ch.segs| > 0 && |st.procs| == |ch.segs| && MainOk(ch, st)
    requires g < |st.procs| && !st.procs[g].Unborn? && !st.procs[g].Returned? && !st.procs[g].Sent?
    requires !p.Unborn? && !p.Sent?
    ensures MainOk(ch, st.(procs := st.procs[g := p]))
    ensures !st.main.Releasing? && !st.main.Done?
  {
  }

  lemma HashedLeaf(ch: Chunk, st: State, g: nat)
    requires ch.Valid() && |st.procs| == |ch.segs| && MainOk(ch, st)
    requires Enabled(ch, st, Segment(g)) && st.procs[g].Hashing? && ProcOk(ch, st.cells, g, Hashing)
    ensures ch.Last() > 0 ==> ch.Top() > 0
    ensures ProcOk(ch, st.cells, g, StepSegment(ch, st, g).procs[g])
    ensures Exits(ch, StepSegment(ch, st, g).procs[g]) == 1
  {
    MainKept(ch, st, g, Hashing);
    var leaf := Node(0, g);
    assert ch.Active(leaf);
    if ch.Last() == 0 {
      assert st.cells[leaf].root;
    } else {
      TopWithinTree(ch);
      assert !st.cells[leaf].root;
      PlacedAbove(ch, g, leaf);
      InputAbove(ch, leaf);
    }
  }

  lemma HashingStep(ch: Chunk, before: map<Node, Cell>, st: State, g: nat)
    requires Inv(ch, before, st) && Enabled(ch, st, Segment(g)) && st.procs[g].Hashing?
    ensures Inv(ch, before, StepSegment(ch, st, g))
  {
    var st' := StepSegment(ch, st, g);
    var p := st'.procs[g];
    HashedLeaf(ch, st, g);
    MainKept(ch, st, g, p);
    MoveKeepsSeparate(ch, st.procs, g, p);
    MoveKeepsCounts(ch, before, st.cells, st.procs, g, p);
  }

  /** The node in whose halves goroutine state `p` has an interest. */
  predicate Reads(p: Proc, n: Node) {
    match p
    case Loading(m, _, _) => m == n
    case Toggling(m, _, _) => m == n
    case ReadingLeft(m, _, _, _) => m == n
    case ReadingRight(m, _, _, _) => m == n
    case Returned(m) => m == n
    case _ => false
  }

  /** Changing one cell leaves a goroutine alone if the half it relies on survives. */
  lemma CellChange(ch: Chunk, cells: map<Node, Cell>, n: Node, cell: Cell, g: nat, p: Proc)
    requires |ch.segs| > 0 && n in cells && ProcOk(ch, cells, g, p)
    requires Reads(p, n) ==>
      || (cell.left == cells[n].left && cell.right == cells[n].right)
      || (Exits(ch, p) == n.h && Half(cell, SideOf(g, n.h)) == Half(cells[n], SideOf(g, n.h)))
    ensures ProcOk(ch, cells[n := cell], g, p)
  {
  }

  /** Storing into one half of `n` disturbs nobody else there. */
  lemma NotDisturbed(ch: Chunk, cells: map<Node, Cell>, procs: seq<Proc>, g: nat, g': nat, n: Node)
    requires |ch.segs| > 0 && g < |procs| && g' < |procs| && g != g' && Separate(ch, procs)
    requires procs[g].Storing? && procs[g].n == n && Placed(ch, g, n, procs[g].isLeft)
    requires Reads(procs[g'], n) && ProcOk(ch, cells, g', procs[g'])
    ensures n.h > 0 && Exits(ch, procs[g']) == n.h && SideOf(g', n.h) != SideOf(g, n.h)
  {
    assert Anc(g', n.h) == n.k;
    assert g' == Anc(g', 0) && g == Anc(g, 0);
    if SideOf(g, n.h) == SideOf(g', n.h) {
      HalvesApart(ch, procs, g, g', n);
    }
  }

  lemma StoringKeepsProcs(ch: Chunk, st: State, g: nat)
    requires ch.Valid() && ProcsOk(ch, st.cells, st.procs) && Separate(ch, st.procs)
    requires Enabled(ch, st, Segment(g)) && st.procs[g].Storing?
    ensures var st' := StepSegment(ch, st, g); ProcsOk(ch, st'.cells, st'.procs)
  {
    var st' := StepSegment(ch, st, g);
    var n := st.procs[g].n;
    assert ProcOk(ch, st.cells, g, st.procs[g]);
    forall g' | 0 <= g' < |st.procs| && g' != g
      ensures ProcOk(ch, st'.cells, g', st'.procs[g'])
    {
      assert ProcOk(ch, st.cells, g', st.procs[g']);
      if Reads(st.procs[g'], n) {
        NotDisturbed(ch, st.cells, st.procs, g, g', n);
      }
      CellChange(ch, st.cells, n, st'.cells[n], g', st.procs[g']);
    }
  }

  lemma OneSameProgress(ch: Chunk, procs: seq<Proc>, g: nat, p: Proc)
    requires |ch.segs| > 0 && g < |procs| && !procs[g].Returned? && !p.Returned?
    requires Exits(ch, procs[g]) == Exits(ch, p)
    ensures SameProgress(ch, procs, procs[g := p])
  {
  }

  lemma StoringStep(ch: Chunk, before: map<Node, Cell>, st: State, g: nat)
    requires Inv(ch, before, st) && Enabled(ch, st, Segment(g)) && st.procs[g].Storing?
    ensures Inv(ch, before, StepSegment(ch, st, g))
  {
    var st' := StepSegment(ch, st, g);
    OneSameProgress(ch, st.procs, g, st'.procs[g]);
    ProgressKept(ch, before, st.cells, st.procs, st'.cells, st'.procs);
    StoringKeepsProcs(ch, st, g);
    StoringKeepsMain(ch, st, g);
  }

  lemma StoringKeepsMain(ch: Chunk, st: State, g: nat)
    requires |ch.segs| > 0 && |st.procs| == |ch.segs| && MainOk(ch, st)
    requires Enabled(ch, st, Segment(g)) && st.procs[g].Storing? && ProcOk(ch, st.cells, g, st.procs[g])
    ensures MainOk(ch, StepSegment(ch, st, g))
  {
    var st' := StepSegment(ch, st, g);
    var n := st.procs[g].n;
    MainKept(ch, st, g, st'.procs[g]);
    BalancedMeaning(ch, n);
    MarksKept(ch, st.cells, n, st'.cells[n], st.main);
  }

  /** A step that only moves goroutine `g`. */
  lemma MovedStep(ch: Chunk, before: map<Node, Cell>, st: State, g: nat, p: Proc)
    requires Inv(ch, before, st) && g < |st.procs|
    requires !st.procs[g].Unborn? && !st.procs[g].Returned? && !st.procs[g].Sent?
    requires !p.Unborn? && !p.Sent? && ProcOk(ch, st.cells, g, p)
    requires Separate(ch, st.procs[g := p]) && CountsOk(ch, before, st.cells, st.procs[g := p])
    ensures Inv(ch, before, st.(procs := st.procs[g := p]))
  {
    MainKept(ch, st, g, p);
  }

  /** A step that only changes what goroutine `g` carries. */
  lemma LocalStep(ch: Chunk, before: map<Node, Cell>, st: State, g: nat, p: Proc)
    requires Inv(ch, before, st) && g < |st.procs|
    requires !st.procs[g].Unborn? && !st.procs[g].Returned? && !st.procs[g].Sent?
    requires !p.Unborn? && !p.Returned? && !p.Sent?
    requires Exits(ch, p) == Exits(ch, st.procs[g]) && ProcOk(ch, st.cells, g, p)
    ensures Inv(ch, before, st.(procs := st.procs[g := p]))
  {
    OneSameProgress(ch, st.procs, g, p);
    ProgressKept(ch, before, st.cells, st.procs, st.cells, st.procs[g := p]);
    MovedStep(ch, before, st, g, p);
  }

  /** The mark a goroutine loads tells whether its node has a second input. */
  lemma LoadedMark(ch: Chunk, st: State, g: nat)
    requires ch.Valid() && |st.procs| == |ch.segs| && Separate(ch, st.procs) && MainOk(ch, st)
    requires Enabled(ch, st, Segment(g)) && st.procs[g].Loading? && ProcOk(ch, st.cells, g, st.procs[g])
    ensures var n := st.procs[g].n;
            && st.cells[n].unbalanced == !ch.Balanced(n)
            && ProcOk(ch, st.cells, g, StepSegment(ch, st, g).procs[g])
            && (!ch.Balanced(n) ==> ch.OnPath(n))
  {
    var n := st.procs[g].n;
    MainKept(ch, st, g, st.procs[g]);
    BalancedMeaning(ch, n);
    if !ch.Balanced(n) {
      PathIsMarked(ch, st, g, n);
    }
  }

  /** Everyone else below an unbalanced node has stopped below it. */
  lemma LoneInput(ch: Chunk, procs: seq<Proc>, g: nat, n: Node, g': nat)
    requires |ch.segs| > 0 && |procs| == |ch.segs| && g < |procs| && g' < |procs| && g != g' && Separate(ch, procs)
    requires n.h <= ch.Top() && n.k == Anc(g, n.h) == Anc(g', n.h)
    requires ch.Active(n) && !ch.Balanced(n) && ch.OnPath(n) && Exits(ch, procs[g]) == n.h
    ensures procs[g'].Returned? && Exits(ch, procs[g']) <= n.h
  {
    assert n.h > 0 by {
      assert Anc(g, 0) == g && Anc(g', 0) == g';
    }
    AncMonotone(g, ch.Last(), n.h - 1);
    AncMonotone(g', ch.Last(), n.h - 1);
    assert Anc(g, n.h - 1) == Anc(g', n.h - 1);
  }

  /** Going past an unbalanced node disturbs neither the others nor the counters. */
  lemma LonePass(ch: Chunk, before: map<Node, Cell>, cells: map<Node, Cell>, procs: seq<Proc>, g: nat, p: Proc, n: Node)
    requires |ch.segs| > 0 && |procs| == |ch.segs| && g < |procs| && before.Keys == cells.Keys
    requires Separate(ch, procs) && CountsOk(ch, before, cells, procs)
    requires n.h <= ch.Top() && n.k == Anc(g, n.h)
    requires ch.Active(n) && !ch.Balanced(n) && ch.OnPath(n)
    requires !procs[g].Returned? && !p.Returned? && Exits(ch, procs[g]) == n.h && Exits(ch, p) == n.h + 1
    ensures Separate(ch, procs[g := p]) && CountsOk(ch, before, cells, procs[g := p])
  {
    forall g' | 0 <= g' < |procs| && g' != g && Anc(g', n.h) == n.k
      ensures procs[g'].Returned? && Exits(ch, procs[g']) <= n.h
    {
      LoneInput(ch, procs, g, n, g');
    }
    MoveKeepsSeparate(ch, procs, g, p);
    MoveKeepsCounts(ch, before, cells, procs, g, p);
  }

  lemma LoadingStep(ch: Chunk, before: map<Node, Cell>, st: State, g: nat)
    requires Inv(ch, before, st) && Enabled(ch, st, Segment(g)) && st.procs[g].Loading?
    ensures Inv(ch, before, StepSegment(ch, st, g))
  {
    var n := st.procs[g].n;
    var p := StepSegment(ch, st, g).procs[g];
    assert ProcOk(ch, st.cells, g, st.procs[g]);
    LoadedMark(ch, st, g);
    if ch.Balanced(n) {
      LocalStep(ch, before, st, g, p);
    } else {
      LonePass(ch, before, st.cells, st.procs, g, p, n);
      MovedStep(ch, before, st, g, p);
    }
  }

  /** Nobody has gone past a node at which a goroutine still stands. */
  lemma NotPassed(ch: Chunk, procs: seq<Proc>, g: nat, n: Node)
    requires |ch.segs| > 0 && g < |procs| && Separate(ch, procs) && n.h <= ch.Top()
    requires Anc(g, n.h) == n.k && !procs[g].Returned? && Exits(ch, procs[g]) <= n.h
    ensures !Passed(ch, procs, n)
  {
  }

  /** The one who waits at `n` holds its other half. */
  lemma WaiterOpposite(ch: Chunk, procs: seq<Proc>, g: nat, w: nat, n: Node)
    requires |ch.segs| > 0 && g < |procs| && w < |procs| && g != w && Separate(ch, procs)
    requires 0 < n.h <= ch.Top() && Anc(g, n.h) == n.k && Anc(w, n.h) == n.k
    requires Exits(ch, procs[g]) == n.h && procs[w] == Returned(n)
    ensures SideOf(w, n.h) != SideOf(g, n.h)
  {
    if SideOf(w, n.h) == SideOf(g, n.h) {
      HalvesApart(ch, procs, g, w, n);
    }
  }

  /** Once the second input is in, everyone else below `n` has stopped at or below it. */
  lemma SecondArrival(ch: Chunk, procs: seq<Proc>, g: nat, w: nat, n: Node, g': nat)
    requires |ch.segs| > 0 && g < |procs| && w < |procs| && g' < |procs| && g != w && g' != g
    requires Separate(ch, procs) && 0 < n.h <= ch.Top()
    requires Anc(g, n.h) == n.k && Anc(w, n.h) == n.k && Anc(g', n.h) == n.k
    requires Exits(ch, procs[g]) == n.h && procs[w] == Returned(n)
    ensures procs[g'].Returned? && Exits(ch, procs[g']) <= n.h
  {
    WaiterOpposite(ch, procs, g, w, n);
    if SideOf(g', n.h) == SideOf(g, n.h) {
      HalvesApart(ch, procs, g, g', n);
    } else if g' != w {
      HalvesApart(ch, procs, w, g', n);
    }
  }

  /** The first to turn the counter waits; the second finds it even again. */
  lemma TurnResult(x: int, t: nat)
    requires 0 <= x <= MAX32 && x % 2 == 0 && t <= 1
    ensures Add32(Add32(x, t), 1) == Add32(x, t + 1)
    ensures TurnedOn(Add32(x, t + 1)) <==> t == 0
  {
  }

  /** Where turning the counter of `n` puts a goroutine. */
  ghost predicate Outcome(ch: Chunk, procs: seq<Proc>, n: Node, p: Proc)
    requires |ch.segs| > 0
  {
    if Waiting(procs, n) then !p.Returned? && Exits(ch, p) == n.h + 1 else p == Returned(n)
  }

  /** What the goroutine turning the counter of `n` finds. */
  lemma TurnOutcome(ch: Chunk, before: map<Node, Cell>, cells: map<Node, Cell>, procs: seq<Proc>, g: nat, n: Node)
    requires |ch.segs| > 0 && g < |procs| && Separate(ch, procs) && n in cells && n in before
    requires CountOk(ch, before, cells, procs, n) && ch.Balanced(n)
    requires 0 <= before[n].state <= MAX32 && before[n].state % 2 == 0
    requires n.h <= ch.Top() && Anc(g, n.h) == n.k && !procs[g].Returned? && Exits(ch, procs[g]) == n.h
    ensures !Passed(ch, procs, n)
    ensures TurnedOn(Add32(cells[n].state, 1)) <==> !Waiting(procs, n)
    ensures Add32(cells[n].state, 1) == Add32(before[n].state, Turns(ch, procs, n) + 1)
  {
    NotPassed(ch, procs, g, n);
    TurnResult(before[n].state, Turns(ch, procs, n));
  }

  /** After the second turn both halves are in place. */
  lemma BothHalves(ch: Chunk, cells: map<Node, Cell>, procs: seq<Proc>, g: nat, n: Node)
    requires |ch.segs| > 0 && g < |procs| && ProcsOk(ch, cells, procs) && Separate(ch, procs)
    requires procs[g].Toggling? && procs[g].n == n && Waiting(procs, n)
    ensures n in cells && ch.Balanced(n) && cells[n].left == ch.Input(n, true) && cells[n].right == ch.Input(n, false)
  {
    var w :| 0 <= w < |procs| && procs[w] == Returned(n);
    assert ProcOk(ch, cells, w, procs[w]);
    assert ProcOk(ch, cells, g, procs[g]);
    WaiterOpposite(ch, procs, g, w, n);
  }

  lemma TogglerOk(ch: Chunk, st: State, g: nat)
    requires ch.Valid() && ProcsOk(ch, st.cells, st.procs) && Separate(ch, st.procs)
    requires Enabled(ch, st, Segment(g)) && st.procs[g].Toggling?
    requires Outcome(ch, st.procs, st.procs[g].n, StepSegment(ch, st, g).procs[g])
    ensures var st' := StepSegment(ch, st, g); ProcOk(ch, st'.cells, g, st'.procs[g])
  {
    assert ProcOk(ch, st.cells, g, st.procs[g]);
    if Waiting(st.procs, st.procs[g].n) {
      BothHalves(ch, st.cells, st.procs, g, st.procs[g].n);
    }
  }

  lemma TogglingKeepsProcs(ch: Chunk, st: State, g: nat)
    requires ch.Valid() && ProcsOk(ch, st.cells, st.procs) && Separate(ch, st.procs)
    requires Enabled(ch, st, Segment(g)) && st.procs[g].Toggling?
    requires Outcome(ch, st.procs, st.procs[g].n, StepSegment(ch, st, g).procs[g])
    ensures var st' := StepSegment(ch, st, g); ProcsOk(ch, st'.cells, st'.procs)
  {
    var st' := StepSegment(ch, st, g);
    var n := st.procs[g].n;
    TogglerOk(ch, st, g);
    forall g' | 0 <= g' < |st.procs| && g' != g
      ensures ProcOk(ch, st'.cells, g', st'.procs[g'])
    {
      CellChange(ch, st.cells, n, st'.cells[n], g', st.procs[g']);
    }
  }

  lemma TogglingKeepsSeparate(ch: Chunk, procs: seq<Proc>, g: nat, p: Proc, n: Node)
    requires |ch.segs| > 0 && g < |procs| && Separate(ch, procs)
    requires 0 < n.h <= ch.Top() && Anc(g, n.h) == n.k && !procs[g].Returned? && Exits(ch, procs[g]) == n.h
    requires forall w :: 0 <= w < |procs| && procs[w] == Returned(n) ==> Anc(w, n.h) == n.k
    requires Outcome(ch, procs, n, p)
    ensures Separate(ch, procs[g := p])
  {
    if Waiting(procs, n) {
      var w :| 0 <= w < |procs| && procs[w] == Returned(n);
      forall g' | 0 <= g' < |procs| && g' != g && Anc(g', n.h) == n.k
        ensures procs[g'].Returned? && Exits(ch, procs[g']) <= n.h
      {
        SecondArrival(ch, procs, g, w, n, g');
      }
    }
    MoveKeepsSeparate(ch, procs, g, p);
  }

  lemma TogglingKeepsCounts(ch: Chunk, before: map<Node, Cell>, cells: map<Node, Cell>, procs: seq<Proc>, g: nat,
      p: Proc, n: Node, cell: Cell)
    requires |ch.segs| > 0 && g < |procs| && before.Keys == cells.Keys && CountsOk(ch, before, cells, procs)
    requires !procs[g].Returned? && n in cells && Anc(g, n.h) == n.k && ch.Balanced(n) && !Passed(ch, procs, n)
    requires Exits(ch, procs[g]) == n.h
    requires Outcome(ch, procs, n, p)
    requires cell.state == Add32(before[n].state, Turns(ch, procs, n) + 1)
    ensures CountsOk(ch, before, cells[n := cell], procs[g := p])
  {
    forall m | m in cells
      ensures CountOk(ch, before, cells[n := cell], procs[g := p], m)
    {
      assert CountOk(ch, before, cells, procs, m);
      if m == n {
        TurnCounted(ch, procs, g, p, n);
      } else if ch.Balanced(m) {
        OneMove(ch, procs, g, p, m);
      }
    }
  }

  lemma WaitersBelow(ch: Chunk, cells: map<Node, Cell>, procs: seq<Proc>, n: Node)
    requires |ch.segs| > 0 && ProcsOk(ch, cells, procs)
    ensures forall w :: 0 <= w < |procs| && procs[w] == Returned(n) ==> Anc(w, n.h) == n.k
  {
    forall w | 0 <= w < |procs| && procs[w] == Returned(n)
      ensures Anc(w, n.h) == n.k
    {
      assert ProcOk(ch, cells, w, procs[w]);
    }
  }

  lemma TogglingStep(ch: Chunk, before: map<Node, Cell>, st: State, g: nat)
    requires Inv(ch, before, st) && Enabled(ch, st, Segment(g)) && st.procs[g].Toggling?
    ensures Inv(ch, before, StepSegment(ch, st, g))
  {
    TogglingKeepsMain(ch, st, g);
    TogglingKeepsRest(ch, before, st, g);
  }

  lemma TogglingOutcome(ch: Chunk, st: State, g: nat, n: Node)
    requires |ch.segs| > 0 && Enabled(ch, st, Segment(g)) && st.procs[g].Toggling? && st.procs[g].n == n
    requires TurnedOn(Add32(st.cells[n].state, 1)) <==> !Waiting(st.procs, n)
    ensures Outcome(ch, st.procs, n, StepSegment(ch, st, g).procs[g])
    ensures StepSegment(ch, st, g).cells[n].state == Add32(st.cells[n].state, 1)
  {
  }

  lemma TogglingKeepsRest(ch: Chunk, before: map<Node, Cell>, st: State, g: nat)
    requires ch.Valid() && ProcsOk(ch, st.cells, st.procs) && Separate(ch, st.procs)
    requires before.Keys == st.cells.Keys && CountsOk(ch, before, st.cells, st.procs) && Countable(ch, before)
    requires Enabled(ch, st, Segment(g)) && st.procs[g].Toggling?
    ensures var st' := StepSegment(ch, st, g);
            && ProcsOk(ch, st'.cells, st'.procs) && Separate(ch, st'.procs)
            && before.Keys == st'.cells.Keys && CountsOk(ch, before, st'.cells, st'.procs)
  {
    var st' := StepSegment(ch, st, g);
    var n := st.procs[g].n;
    var p := st'.procs[g];
    assert ProcOk(ch, st.cells, g, st.procs[g]);
    TurnOutcome(ch, before, st.cells, st.procs, g, n);
    TogglingOutcome(ch, st, g, n);
    TogglingKeepsProcs(ch, st, g);
    WaitersBelow(ch, st.cells, st.procs, n);
    TogglingKeepsSeparate(ch, st.procs, g, p, n);
    TogglingKeepsCounts(ch, before, st.cells, st.procs, g, p, n, st'.cells[n]);
  }

  lemma TogglingKeepsMain(ch: Chunk, st: State, g: nat)
    requires |ch.segs| > 0 && |st.procs| == |ch.segs| && MainOk(ch, st)
    requires Enabled(ch, st, Segment(g)) && st.procs[g].Toggling?
    ensures MainOk(ch, StepSegment(ch, st, g))
  {
    var st' := StepSegment(ch, st, g);
    var n := st.procs[g].n;
    MainKept(ch, st, g, st'.procs[g]);
    MarksKept(ch, st.cells, n, st'.cells[n], st.main);
  }

  lemma MarksKept(ch: Chunk, cells: map<Node, Cell>, n: Node, cell: Cell, m: Main)
    requires |ch.segs| > 0 && n in cells && MarksOk(ch, cells, m)
    requires cell.unbalanced == cells[n].unbalanced && cell.root == cells[n].root
    requires cell.right == cells[n].right || (ch.OnPath(n) ==> !ch.FromLeft(n))
    ensures MarksOk(ch, cells[n := cell], m)
  {
  }

  lemma TurnCounted(ch: Chunk, procs: seq<Proc>, g: nat, p: Proc, n: Node)
    requires |ch.segs| > 0 && g < |procs| && !procs[g].Returned? && Anc(g, n.h) == n.k
    requires !Passed(ch, procs, n)
    requires Outcome(ch, procs, n, p)
    ensures Turns(ch, procs[g := p], n) == Turns(ch, procs, n) + 1
    ensures Waiting(procs[g := p], n)
  {
    var procs' := procs[g := p];
    if Waiting(procs, n) {
      var w :| 0 <= w < |procs| && procs[w] == Returned(n);
      assert procs'[w] == Returned(n);
      assert Exits(ch, procs'[g]) > n.h;
    } else {
      assert procs'[g] == Returned(n);
      assert forall w :: 0 <= w < |procs'| && Anc(w, n.h) == n.k ==> Exits(ch, procs'[w]) <= n.h;
    }
  }

  lemma ReadingLeftStep(ch: Chunk, before: map<Node, Cell>, st: State, g: nat)
    requires Inv(ch, before, st) && Enabled(ch, st, Segment(g)) && st.procs[g].ReadingLeft?
    ensures Inv(ch, before, StepSegment(ch, st, g))
  {
    var p := StepSegment(ch, st, g).procs[g];
    assert ProcOk(ch, st.cells, g, st.procs[g]);
    MainKept(ch, st, g, st.procs[g]);
    if g < ch.Last() {
      assert ch.depth > 0;
    } else {
      assert st.d == ch.Top() - MarkStart(ch);
    }
    LocalStep(ch, before, st, g, p);
  }

  /** Joining the inputs as the code does gives the node's value. */
  lemma JoinedValue(ch: Chunk, g: nat, n: Node, l: Bytes, r: Bytes)
    requires ch.Valid() && Placed(ch, g, n, SideOf(g, n.h)) && l == ch.Input(n, true)
    requires if ch.Balanced(n) then r == ch.Input(n, false) else r == []
    ensures ch.Val(n) == if ch.Balanced(n) || ch.Last() == 0 then ch.hash(l + r) else l + r
  {
    if !ch.Balanced(n) {
      assert l + r == l;
      if n.h > 0 { assert ch.Last() > 0; }
    }
  }

  lemma JoinedProc(ch: Chunk, st: State, g: nat)
    requires ch.Valid() && Enabled(ch, st, Segment(g))
    requires st.procs[g].ReadingRight? && ProcOk(ch, st.cells, g, st.procs[g])
    ensures ProcOk(ch, st.cells, g, StepSegment(ch, st, g).procs[g])
  {
    var n := st.procs[g].n;
    JoinedValue(ch, g, n, st.procs[g].l, st.cells[n].right);
  }

  lemma ReadingRightStep(ch: Chunk, before: map<Node, Cell>, st: State, g: nat)
    requires Inv(ch, before, st) && Enabled(ch, st, Segment(g)) && st.procs[g].ReadingRight?
    ensures Inv(ch, before, StepSegment(ch, st, g))
  {
    JoinedProc(ch, st, g);
    LocalStep(ch, before, st, g, StepSegment(ch, st, g).procs[g]);
  }

  /** The delivering node is marked as root before anyone leaves it. */
  lemma LeavingTop(ch: Chunk, st: State, g: nat)
    requires ch.Valid() && |st.procs| == |ch.segs| && Separate(ch, st.procs) && MainOk(ch, st)
    requires g < |st.procs| && st.procs[g].Leaving? && st.procs[g].n.h == ch.Top() && Anc(g, ch.Top()) == st.procs[g].n.k
    requires st.procs[g].n in st.cells
    ensures st.procs[g].n == ch.TopNode() && st.cells[ch.TopNode()].root
  {
    var n := st.procs[g].n;
    MainKept(ch, st, g, st.procs[g]);
    RootHeightMeaning(ch.Last(), n.h);
    AncMonotone(g, ch.Last(), n.h);
    assert g == Anc(g, 0);
    PathIsMarked(ch, st, g, n);
  }

  /** Below it no node is marked. */
  lemma LeavingLower(ch: Chunk, st: State, g: nat)
    requires ch.Valid() && |st.procs| == |ch.segs| && MainOk(ch, st)
    requires g < |st.procs| && st.procs[g].Leaving? && st.procs[g].n.h < ch.Top() && st.procs[g].n in st.cells
    ensures !st.cells[st.procs[g].n].root
  {
    MainKept(ch, st, g, st.procs[g]);
    TopWithinTree(ch);
  }

  lemma LeavingUp(ch: Chunk, cells: map<Node, Cell>, g: nat, n: Node, i: nat, s: Bytes)
    requires ch.Valid() && g <= ch.Last() && n.h < ch.Top() && n.k == Anc(g, n.h) && ch.Active(n) && s == ch.Val(n)
    ensures ProcOk(ch, cells, g, Storing(Parent(n), n.k % 2 == 0, i + 1, s))
  {
    PlacedAbove(ch, g, n);
    InputAbove(ch, n);
  }

  lemma LeavingMoves(ch: Chunk, st: State, g: nat)
    requires ch.Valid() && |st.procs| == |ch.segs| && Separate(ch, st.procs) && MainOk(ch, st)
    requires Enabled(ch, st, Segment(g)) && st.procs[g].Leaving? && ProcOk(ch, st.cells, g, st.procs[g])
    ensures ProcOk(ch, st.cells, g, StepSegment(ch, st, g).procs[g])
    ensures Exits(ch, StepSegment(ch, st, g).procs[g]) == Exits(ch, st.procs[g])
  {
    var n := st.procs[g].n;
    if n.h == ch.Top() {
      LeavingTop(ch, st, g);
    } else {
      LeavingLower(ch, st, g);
      LeavingUp(ch, st.cells, g, n, st.procs[g].i, st.procs[g].s);
    }
  }

  lemma LeavingStep(ch: Chunk, before: map<Node, Cell>, st: State, g: nat)
    requires Inv(ch, before, st) && Enabled(ch, st, Segment(g)) && st.procs[g].Leaving?
    ensures Inv(ch, before, StepSegment(ch, st, g))
  {
    assert ProcOk(ch, st.cells, g, st.procs[g]);
    LeavingMoves(ch, st, g);
    LocalStep(ch, before, st, g, StepSegment(ch, st, g).procs[g]);
  }
}
