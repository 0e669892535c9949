/**
 A head event split into its accesses too: it runs through the same loop as the
 unlocked rollback, and the lock does not keep the two apart.
 */
module IndexerSplit {
  import opened Basics
  import opened SectionIndex
  import opened IndexerReset

  /** The next access of a loop that sets the number of valid sections to `target`. */
  function AccessTo(ix: Index, phase: Phase, target: nat): (Index, Phase) {
    match phase
    case Persist => (ix.(count := target), Guard)
    case Guard => (ix, if ix.stored > target then Load else Final)
    case Load => (ix, Store(ix.stored))
    case Store(read) => (ix.(stored := Lowered(read)), Pick)
    case Pick => (ix, Remove(ix.stored))
    case Remove(section) => (ix.(heads := ix.heads - {section}), Guard)
    case Final => (ix.(stored := target), Over)
    case Over => (ix, Over)
  }

  /** With target zero, that is the rollback. */
  lemma RollbackIsToZero(r: Racing)
    ensures AccessTo(r.ix, r.phase, 0) == (Access(r).ix, Access(r).phase)
  {
  }

  function AloneTo(ix: Index, phase: Phase, target: nat, n: nat): (Index, Phase)
    decreases n
  {
    if n == 0 then (ix, phase)
    else
      var (ix', phase') := AccessTo(ix, phase, target);
      AloneTo(ix', phase', target, n - 1)
  }

  lemma FiveAccesses(ix: Index, target: nat, n: nat)
    requires target < ix.stored && n >= 5
    ensures AloneTo(ix, Guard, target, n) == AloneTo(ix.(stored := ix.stored - 1, heads := ix.heads - {ix.stored - 1}), Guard, target, n - 5)
  {
    var low := ix.(stored := ix.stored - 1);
    assert AloneTo(ix, Guard, target, n) == AloneTo(ix, Load, target, n - 1);
    assert AloneTo(ix, Load, target, n - 1) == AloneTo(ix, Store(ix.stored), target, n - 2);
    assert AloneTo(ix, Store(ix.stored), target, n - 2) == AloneTo(low, Pick, target, n - 3);
    assert AloneTo(low, Pick, target, n - 3) == AloneTo(low, Remove(low.stored), target, n - 4);
  }

  lemma {:induction false} LoopAtOnce(ix: Index, target: nat)
    requires target <= ix.stored
    ensures AloneTo(ix, Guard, target, 5 * (ix.stored - target) + 2) == (SetValid(ix, target).(count := ix.count), Over)
    decreases ix.stored
  {
    if ix.stored == target {
      assert AloneTo(ix, Guard, target, 2) == AloneTo(ix, Final, target, 1);
      assert AloneTo(ix, Final, target, 1) == AloneTo(ix, Over, target, 0);
      assert SetValid(ix, target).heads == ix.heads;
    } else {
      FiveAccesses(ix, target, 5 * (ix.stored - target) + 2);
      var next := ix.(stored := ix.stored - 1, heads := ix.heads - {ix.stored - 1});
      LoopAtOnce(next, target);
      assert SetValid(next, target).heads == SetValid(ix, target).heads;
    }
  }

  /** Made one after another, the accesses of an event are its one step. */
  lemma EventAtOnce(ix: Index, target: nat)
    requires target < ix.stored
    ensures AloneTo(ix, Persist, target, 5 * (ix.stored - target) + 3) == (SetValid(ix, target), Over)
  {
    LoopAtOnce(ix.(count := target), target);
  }

  // ----- both at the same time -----

  /** The rollback, and the event being worked on or worked on last, which rolls back the sections from `target` on. */
  datatype Both = Both(ix: Index, mine: Phase, event: Phase, target: nat)

  /** The next access is one of the rollback or one of the event, or a new event compares its section with the count. */
  datatype Turn = Rollback | Event | Arrives(section: nat)

  function Next(b: Both, turn: Turn): Both {
    match turn
    case Rollback =>
      var (ix, phase) := AccessTo(b.ix, b.mine, 0);
      b.(ix := ix, mine := phase)
    case Event =>
      var (ix, phase) := AccessTo(b.ix, b.event, b.target);
      b.(ix := ix, event := phase)
    case Arrives(section) =>
      // events have the lock among themselves
      if b.event == Over && section < b.ix.stored then b.(event := Persist, target := section) else b
  }

  function Interleaved(b: Both, turns: seq<Turn>): Both
    decreases |turns|
  {
    if turns == [] then b else Interleaved(Next(b, turns[0]), turns[1..])
  }

  /** The figure an access of one kind leaves: the target of the loop that makes it. */
  function Leaves(b: Both, turn: Turn, kind: Phase, sofar: nat): nat {
    if turn == Rollback && b.mine == kind then 0
    else if turn == Event && b.event == kind then b.target
    else sofar
  }

  /** The figure the last such access leaves. */
  function LastOf(b: Both, turns: seq<Turn>, kind: Phase, sofar: nat): nat
    decreases |turns|
  {
    if turns == [] then sofar else LastOf(Next(b, turns[0]), turns[1..], kind, Leaves(b, turns[0], kind, sofar))
  }

  /** The persisted count is that of the loop that persisted last. */
  lemma {:induction false} LastPersists(b: Both, turns: seq<Turn>)
    ensures Interleaved(b, turns).ix.count == LastOf(b, turns, Persist, b.ix.count)
    decreases |turns|
  {
    if turns == [] {
    } else {
      LastPersists(Next(b, turns[0]), turns[1..]);
    }
  }

  /** Once all are over, the stored count is that of the loop that was over last. */
  lemma {:induction false} LastStores(b: Both, turns: seq<Turn>, sofar: nat)
    requires Interleaved(b, turns).mine == Over && Interleaved(b, turns).event == Over
    requires b.mine == Over && b.event == Over ==> b.ix.stored == sofar
    ensures Interleaved(b, turns).ix.stored == LastOf(b, turns, Final, sofar)
    decreases |turns|
  {
    if turns == [] {
    } else {
      LastStores(Next(b, turns[0]), turns[1..], Leaves(b, turns[0], Final, sofar));
    }
  }

  /** The sections whose heads some access removes. */
  function RemovedIn(b: Both, turns: seq<Turn>): set<nat>
    decreases |turns|
  {
    if turns == [] then {}
    else
      var phase := if turns[0] == Rollback then b.mine else if turns[0] == Event then b.event else Over;
      (if phase.Remove? then {phase.section} else {}) + RemovedIn(Next(b, turns[0]), turns[1..])
  }

  /** The heads that are left are those nobody removed. */
  lemma {:induction false} HeadsLeft(b: Both, turns: seq<Turn>)
    ensures Interleaved(b, turns).ix.heads == b.ix.heads - RemovedIn(b, turns)
    decreases |turns|
  {
    if turns == [] {
    } else {
      HeadsLeft(Next(b, turns[0]), turns[1..]);
    }
  }

  /** A loop that is about to remove the first head, whatever else happens to the count. */
  predicate Removes(phase: Phase, stored: nat) {
    (phase == Pick && stored == 0) || phase == Remove(0)
  }

  /** While the count is zero, or a loop that goes down to zero has seen it so, the first head is gone or about to be removed. */
  predicate Watched(b: Both) {
    0 in b.ix.heads ==>
      && (b.ix.stored == 0 ==> Removes(b.mine, 0) || Removes(b.event, 0))
      && (b.mine == Final || b.mine == Over ==> Removes(b.event, b.ix.stored))
      && (b.target == 0 && b.event == Final ==> Removes(b.mine, b.ix.stored))
  }

  lemma {:induction false} FirstHeadGoes(b: Both, turns: seq<Turn>)
    requires Watched(b)
    ensures Watched(Interleaved(b, turns))
    decreases |turns|
  {
    if turns == [] {
    } else {
      FirstHeadGoes(Next(b, turns[0]), turns[1..]);
    }
  }

  // ----- which heads are removed -----

  /** Some loop reads which section's head to remove while the count is `v`. */
  predicate Reads(b: Both, turn: Turn, v: nat) {
    b.ix.stored == v && ((turn == Rollback && b.mine == Pick) || (turn == Event && b.event == Pick))
  }

  predicate ReadAt(b: Both, turns: seq<Turn>, v: nat)
    decreases |turns|
  {
    turns != [] && (Reads(b, turns[0], v) || ReadAt(Next(b, turns[0]), turns[1..], v))
  }

  /** Some loop is about to remove the head of `v`. */
  predicate Holds(b: Both, v: nat) {
    b.mine == Remove(v) || b.event == Remove(v)
  }

  /** A head is removed exactly if it was read so, apart from what loops held before and hold afterwards. */
  lemma {:induction false} RemovedIsRead(b: Both, turns: seq<Turn>, v: nat)
    ensures v in RemovedIn(b, turns) || Holds(Interleaved(b, turns), v) <==> ReadAt(b, turns, v) || Holds(b, v)
    decreases |turns|
  {
    if turns == [] {
    } else {
      RemovedIsRead(Next(b, turns[0]), turns[1..], v);
    }
  }

  /** Some loop lowers the count to `v`. */
  predicate Lowers(b: Both, turn: Turn, v: nat) {
    (turn == Rollback && b.mine.Store? && Lowered(b.mine.read) == v) || (turn == Event && b.event.Store? && Lowered(b.event.read) == v)
  }

  predicate LoweredTo(b: Both, turns: seq<Turn>, v: nat)
    decreases |turns|
  {
    turns != [] && (Lowers(b, turns[0], v) || LoweredTo(Next(b, turns[0]), turns[1..], v))
  }

  /** Nobody has got to `v` yet. */
  predicate Above(b: Both, v: nat) {
    && b.ix.stored > v && (b.mine.Store? ==> b.mine.read > v) && (b.event.Store? ==> b.event.read > v)
    && b.mine != Final && b.mine != Over && (b.event == Final ==> b.target > v)
  }

  /** The count does not skip a section: on its way to the end the rollback, or an event, lowers it to each one. */
  lemma {:induction false} CountsThrough(b: Both, turns: seq<Turn>, v: nat)
    requires Above(b, v) && Interleaved(b, turns).mine == Over
    ensures LoweredTo(b, turns, v)
    decreases |turns|
  {
    if turns == [] {
    } else if !Lowers(b, turns[0], v) {
      CountsThrough(Next(b, turns[0]), turns[1..], v);
    }
  }

  /** The count is lowered to `v`, but each time changed again before anybody reads it: the head of that section stays. */
  predicate Stranded(b: Both, turns: seq<Turn>, v: nat) {
    LoweredTo(b, turns, v) && !ReadAt(b, turns, v)
  }

  /**
   Once the rollback and all events are over, in whatever order their accesses were made,
   the index is in order exactly if the last to persist its count and the last to be over
   went to the first section, as the rollback does, and no section was stranded: each one
   is counted out, and what leaves its head behind is that the count is changed between
   every such decrement and any reading of the section to remove.
   */
  lemma AllOver(ix: Index, turns: seq<Turn>)
    requires InOrder(ix)
    requires var end := Interleaved(Both(ix, Persist, Over, 0), turns); end.mine == end.event == Over
    ensures var start := Both(ix, Persist, Over, 0);
            InOrder(Interleaved(start, turns).ix) <==>
              && LastOf(start, turns, Persist, ix.count) == 0 && LastOf(start, turns, Final, ix.stored) == 0
              && forall v: nat :: v < ix.stored ==> !Stranded(start, turns, v)
  {
    var start := Both(ix, Persist, Over, 0);
    LastPersists(start, turns);
    LastStores(start, turns, ix.stored);
    FirstHeadGoes(start, turns);
    var end := Interleaved(start, turns).ix;
    forall v: nat
      ensures v in end.heads <==> v < ix.stored && Stranded(start, turns, v)
    {
      LeftIsStranded(ix, turns, v);
    }
  }

  /** The heads that are left are those of stranded sections. */
  lemma LeftIsStranded(ix: Index, turns: seq<Turn>, v: nat)
    requires InOrder(ix)
    requires var end := Interleaved(Both(ix, Persist, Over, 0), turns); end.mine == end.event == Over
    ensures var start := Both(ix, Persist, Over, 0);
            v in Interleaved(start, turns).ix.heads <==> v < ix.stored && Stranded(start, turns, v)
  {
    var start := Both(ix, Persist, Over, 0);
    HeadsLeft(start, turns);
    RemovedIsRead(start, turns, v);
    if v < ix.stored { CountsThrough(start, turns, v); }
  }

  // ----- when it is over -----

  function Times(turn: Turn, n: nat): seq<Turn> {
    seq(n, _ => turn)
  }

  lemma {:induction false} OnlyRollback(b: Both, n: nat)
    ensures var (ix, phase) := AloneTo(b.ix, b.mine, 0, n); Interleaved(b, Times(Rollback, n)) == b.(ix := ix, mine := phase)
    decreases n
  {
    if n == 0 {
    } else {
      assert Times(Rollback, n)[1..] == Times(Rollback, n - 1);
      OnlyRollback(Next(b, Rollback), n - 1);
    }
  }

  lemma {:induction false} OnlyEvent(b: Both, n: nat)
    ensures var (ix, phase) := AloneTo(b.ix, b.event, b.target, n); Interleaved(b, Times(Event, n)) == b.(ix := ix, event := phase)
    decreases n
  {
    if n == 0 {
    } else {
      assert Times(Event, n)[1..] == Times(Event, n - 1);
      OnlyEvent(Next(b, Event), n - 1);
    }
  }

  lemma {:induction false} AloneIsTo(r: Racing, n: nat)
    ensures AloneTo(r.ix, r.phase, 0, n) == (Alone(r, n).ix, Alone(r, n).phase)
    decreases n
  {
    if n == 0 {
    } else {
      RollbackIsToZero(r);
      AloneIsTo(Access(r), n - 1);
    }
  }

  lemma {:induction false} StaysOver(ix: Index, target: nat, n: nat)
    ensures AloneTo(ix, Over, target, n) == (ix, Over)
    decreases n
  {
    if n == 0 {
    } else {
      StaysOver(ix, target, n - 1);
    }
  }

  /** After the last access of an event, the rollback is over after just the accesses it then needs. */
  lemma LastEventOver(b: Both, n: nat)
    ensures Interleaved(b, Times(Rollback, n)).mine == Over <==> Need(Racing(b.ix, b.mine)) <= n
  {
    OnlyRollback(b, n);
    if b.mine == Over {
      StaysOver(b.ix, 0, n);
    } else if b.mine == Final {
      if n > 0 { StaysOver(b.ix.(stored := 0), 0, n - 1); }
    } else {
      AloneIsTo(Racing(b.ix, b.mine), n);
      AloneEnds(Racing(b.ix, b.mine), n);
    }
  }

  lemma {:induction false} TurnsJoin(b: Both, turns: seq<Turn>, more: seq<Turn>)
    ensures Interleaved(b, turns + more) == Interleaved(Interleaved(b, turns), more)
    decreases |turns|
  {
    if turns == [] {
      assert turns + more == more;
    } else {
      assert (turns + more)[1..] == turns[1..] + more;
      TurnsJoin(Next(b, turns[0]), turns[1..], more);
    }
  }

  /** Rollback and event both read the count; then the rollback goes on until it has removed both heads. */
  lemma BothRead(ix: Index)
    requires ix.stored == 2
    ensures Interleaved(Both(ix, Persist, Over, 0), Times(Rollback, 3) + [Arrives(0)]) == Both(ix.(count := 0), Store(2), Persist, 0)
    ensures Interleaved(Both(ix.(count := 0), Store(2), Persist, 0), Times(Event, 3) + Times(Rollback, 8)) ==
      Both(ix.(count := 0, stored := 0, heads := ix.heads - {1} - {0}), Guard, Store(2), 0)
  {
    var b0, ix1 := Both(ix, Persist, Over, 0), ix.(count := 0);
    OnlyRollback(b0, 3);
    ThreeAccesses(ix);
    TurnsJoin(b0, Times(Rollback, 3), [Arrives(0)]);
    assert [Arrives(0)][1..] == [];
    var b2 := Both(ix1, Store(2), Persist, 0);
    OnlyEvent(b2, 3);
    ThreeAccesses(ix1);
    TurnsJoin(b2, Times(Event, 3), Times(Rollback, 8));
    OnlyRollback(Both(ix1, Store(2), Store(2), 0), 8);
    EightAccesses(ix1);
  }

  /** The event lowers the count it read and so sets it back up; the rollback finds it above zero again. */
  lemma BackUp(ix: Index)
    ensures Interleaved(Both(ix.(stored := 0), Guard, Store(2), 0), Times(Event, 1) + Times(Rollback, 2)) ==
      Both(ix.(stored := 1), Store(1), Pick, 0)
  {
    var b4, up := Both(ix.(stored := 0), Guard, Store(2), 0), ix.(stored := 1);
    OnlyEvent(b4, 1);
    assert AloneTo(b4.ix, Store(2), 0, 1) == AloneTo(up, Pick, 0, 0);
    TurnsJoin(b4, Times(Event, 1), Times(Rollback, 2));
    OnlyRollback(Both(up, Guard, Pick, 0), 2);
    assert AloneTo(up, Guard, 0, 2) == AloneTo(up, Load, 0, 1);
    assert AloneTo(up, Load, 0, 1) == AloneTo(up, Store(1), 0, 0);
  }

  /**
   Before that there is no such bound, even if nothing wraps: with two sections stored the
   rollback alone is over after 13 accesses, but an event that read the count earlier can
   set it back up, and after 13 accesses it is not over.
   */
  lemma LongerExample()
    ensures var ix := Index(2, 2, 0, 2, map[0 := 1, 1 := 2]);
            var turns := Times(Rollback, 3) + [Arrives(0)] + (Times(Event, 3) + Times(Rollback, 8)) + (Times(Event, 1) + Times(Rollback, 2));
            var end := Interleaved(Both(ix, Persist, Over, 0), turns);
            InOrder(ix) && Need(Racing(ix, Persist)) == 13 && end.mine == Store(1) && end.ix.stored == 1
  {
    var ix := Index(2, 2, 0, 2, map[0 := 1, 1 := 2]);
    var b0 := Both(ix, Persist, Over, 0);
    BothRead(ix);
    BackUp(ix.(count := 0, heads := ix.heads - {1} - {0}));
    TurnsJoin(b0, Times(Rollback, 3) + [Arrives(0)], Times(Event, 3) + Times(Rollback, 8));
    TurnsJoin(b0, Times(Rollback, 3) + [Arrives(0)] + (Times(Event, 3) + Times(Rollback, 8)), Times(Event, 1) + Times(Rollback, 2));
  }

  lemma ThreeAccesses(ix: Index)
    requires ix.stored > 0
    ensures AloneTo(ix, Persist, 0, 3) == (ix.(count := 0), Store(ix.stored))
  {
    var ix' := ix.(count := 0);
    assert AloneTo(ix, Persist, 0, 3) == AloneTo(ix', Guard, 0, 2);
    assert AloneTo(ix', Guard, 0, 2) == AloneTo(ix', Load, 0, 1);
    assert AloneTo(ix', Load, 0, 1) == AloneTo(ix', Store(ix.stored), 0, 0);
  }

  lemma EightAccesses(ix: Index)
    requires ix.stored == 2
    ensures AloneTo(ix, Store(2), 0, 8) == (ix.(stored := 0, heads := ix.heads - {1} - {0}), Guard)
  {
    var one := ix.(stored := 1);
    assert AloneTo(ix, Store(2), 0, 8) == AloneTo(one, Pick, 0, 7);
    assert AloneTo(one, Pick, 0, 7) == AloneTo(one, Remove(1), 0, 6);
    assert AloneTo(one, Remove(1), 0, 6) == AloneTo(one.(heads := ix.heads - {1}), Guard, 0, 5);
    FiveAccesses(one.(heads := ix.heads - {1}), 0, 5);
  }

  // ----- two decrements after one guard -----

  lemma Later(b: Both, turns: seq<Turn>, k: nat)
    requires k < |turns|
    ensures Interleaved(b, turns[k..]) == Interleaved(Next(b, turns[k]), turns[k + 1..])
  {
    assert turns[k..][1..] == turns[k + 1..];
  }

  /** With one section stored, rollback and event both pass the guard: the second decrement wraps. */
  lemma TwoDecrements()
    ensures var ix := Index(1, 1, 0, 1, map[0 := 1]);
            var turns := [Rollback, Rollback, Arrives(0), Event, Event, Rollback, Rollback, Event, Event];
            InOrder(ix) && Interleaved(Both(ix, Persist, Over, 0), turns).ix.stored == U64 - 1
  {
    var turns := [Rollback, Rollback, Arrives(0), Event, Event, Rollback, Rollback, Event, Event];
    var b0 := Both(Index(1, 1, 0, 1, map[0 := 1]), Persist, Over, 0);
    var b3 := Next(Next(Next(b0, Rollback), Rollback), Arrives(0));
    var b5 := Next(Next(b3, Event), Event);
    var b7 := Next(Next(b5, Rollback), Rollback);
    assert turns[0..] == turns && turns[9..] == [];
    Later(b0, turns, 0);
    Later(Next(b0, Rollback), turns, 1);
    Later(Next(Next(b0, Rollback), Rollback), turns, 2);
    Later(b3, turns, 3);
    Later(Next(b3, Event), turns, 4);
    Later(b5, turns, 5);
    Later(Next(b5, Rollback), turns, 6);
    Later(b7, turns, 7);
    Later(Next(b7, Event), turns, 8);
  }
}
