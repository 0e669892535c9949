/**
 When the backend cannot be reset, the updater sets the number of valid sections to
 zero without holding the lock, so that head events may come in between.
 */
module IndexerReset {
  import opened Basics
  import opened SectionIndex

  /** Either the rollback makes its next access, or a reorg event comes in. */
  datatype Act = Mine | Reorg(number: nat)

  function Step(r: Racing, size: nat, confirms: nat, act: Act): Racing
    requires size > 0
  {
    match act
    case Reorg(number) => r.(ix := NewHead(r.ix, size, confirms, number, true))
    case Mine => Access(r)
  }

  function Run(r: Racing, size: nat, confirms: nat, acts: seq<Act>): Racing
    requires size > 0
    decreases |acts|
  {
    if acts == [] then r else Run(Step(r, size, confirms, acts[0]), size, confirms, acts[1..])
  }

  /** How many of the acts are accesses of the rollback. */
  function Own(acts: seq<Act>): nat {
    if acts == [] then 0 else (if acts[0].Mine? then 1 else 0) + Own(acts[1..])
  }

  // ----- left to itself -----

  /** The count the rollback is about to count down from, where a zero that has been let through wraps. */
  function Wrapping(n: nat): nat {
    if n > 0 then n else U64
  }

  /** How many accesses are still to come if nothing comes in between. */
  function Need(r: Racing): nat {
    match r.phase
    case Persist => 5 * r.ix.stored + 3
    case Guard => 5 * r.ix.stored + 2
    case Load => 5 * Wrapping(r.ix.stored) + 1
    case Store(read) => 5 * Wrapping(read)
    case Pick => 5 * r.ix.stored + 4
    case Remove(_) => 5 * r.ix.stored + 3
    case Final => 1
    case Over => 0
  }

  /** The sections whose heads these accesses remove. */
  predicate Covers(r: Racing, i: nat) {
    match r.phase
    case Persist => i < r.ix.stored
    case Guard => i < r.ix.stored
    case Load => i < Wrapping(r.ix.stored)
    case Store(read) => i < Wrapping(read)
    case Pick => i <= r.ix.stored
    case Remove(section) => i == section || i < r.ix.stored
    case Final => false
    case Over => false
  }

  /** The loop is only left at zero. */
  predicate Sane(r: Racing) {
    r.phase.Final? || r.phase.Over? ==> r.ix.stored == 0
  }

  function Alone(r: Racing, n: nat): Racing
    decreases n
  {
    if n == 0 then r else Alone(Access(r), n - 1)
  }

  /** The index once the rollback has been left to itself. */
  function Settled(r: Racing): Index {
    r.ix.(stored := 0, count := if r.phase.Persist? then 0 else r.ix.count, heads := map i | i in r.ix.heads && !Covers(r, i) :: r.ix.heads[i])
  }

  lemma AccessSettles(r: Racing)
    requires Sane(r) && !r.phase.Over?
    ensures Sane(Access(r)) && Need(Access(r)) == Need(r) - 1 && Settled(Access(r)) == Settled(r)
  {
    var r' := Access(r);
    forall i | i in r.ix.heads
      ensures i in r'.ix.heads && !Covers(r', i) <==> !Covers(r, i)
    {
    }
  }

  /** From wherever it stands, the rollback alone ends after just that many accesses, and leaves just those heads. */
  lemma {:induction false} AloneEnds(r: Racing, n: nat)
    requires Sane(r)
    ensures Alone(r, n).phase == Over <==> Need(r) <= n
    ensures Need(r) <= n ==> Alone(r, n).ix == Settled(r)
    decreases n
  {
    if r.phase.Over? {
      assert Settled(r).heads == r.ix.heads;
      if n > 0 { AloneEnds(r, n - 1); }
    } else if n > 0 {
      AccessSettles(r);
      AloneEnds(Access(r), n - 1);
    }
  }

  /** Whether the count on disk is zero, or is about to be made so. */
  predicate ZeroCount(r: Racing) {
    r.phase.Persist? || r.ix.count == 0
  }

  /** The count on disk will be zero and every head will be passed. */
  predicate Recovers(r: Racing) {
    ZeroCount(r) && forall i :: i in r.ix.heads ==> Covers(r, i)
  }

  /** Left to itself, the rollback ends with the index in order exactly in that case. */
  lemma RecoversMeaning(r: Racing, n: nat)
    requires Sane(r) && Need(r) <= n
    ensures Alone(r, n).phase == Over && (InOrder(Alone(r, n).ix) <==> Recovers(r))
  {
    AloneEnds(r, n);
    var ix := Settled(r);
    if InOrder(ix) {
      forall i | i in r.ix.heads
        ensures Covers(r, i)
      {
        assert i !in ix.heads;
      }
    }
  }

  // ----- what one event does to it -----

  /** The event rolls back sections that are still stored. */
  predicate TakesEffect(r: Racing, size: nat, act: Act)
    requires size > 0
  {
    act.Reorg? && act.number / size < r.ix.stored
  }

  /** Everything was removed after the guard had been passed: the count is lowered from zero. */
  predicate Wraps(r: Racing, size: nat, act: Act)
    requires size > 0
  {
    r.phase.Load? && TakesEffect(r, size, act) && act.number < size
  }

  /** The count was changed after it had been lowered: the head counted out is not the one that is removed. */
  predicate Strands(r: Racing, size: nat, act: Act)
    requires size > 0
  {
    r.phase.Pick? && TakesEffect(r, size, act) && r.ix.stored in r.ix.heads
  }

  /** The event leaves its own count on disk. */
  predicate Recounts(r: Racing, size: nat, act: Act)
    requires size > 0
  {
    !r.phase.Persist? && TakesEffect(r, size, act) && act.number >= size
  }

  lemma SmallQuotient(number: nat, size: nat)
    requires size > 0
    ensures number / size == 0 <==> number < size
  {
  }

  /** An event makes the rollback longer exactly if it takes everything away between guard and decrement: then by the whole 64-bit range. */
  lemma EventNeed(r: Racing, size: nat, confirms: nat, number: nat)
    requires size > 0 && Sane(r) && r.ix.stored < U64
    ensures var r' := Step(r, size, confirms, Reorg(number));
            && Sane(r') && (Need(r') > Need(r) <==> Wraps(r, size, Reorg(number)))
            && (Wraps(r, size, Reorg(number)) ==> Need(r') == 5 * U64 + 1)
  {
    SmallQuotient(number, size);
  }

  /** The rollback has not let a zero through. */
  predicate OnCourse(r: Racing) {
    && Sane(r) && r.ix.stored < U64
    && (r.phase.Load? ==> r.ix.stored > 0) && (r.phase.Store? ==> r.ix.stored <= r.phase.read && 0 < r.phase.read < U64)
  }

  /** An event spoils a rollback that would have ended well exactly in these three cases. */
  lemma EventSpoils(r: Racing, size: nat, confirms: nat, number: nat)
    requires size > 0 && OnCourse(r) && Recovers(r)
    ensures var r' := Step(r, size, confirms, Reorg(number));
            && Recovers(r') && Need(r') <= Need(r) <==> !Wraps(r, size, Reorg(number)) && !Strands(r, size, Reorg(number)) && !Recounts(r, size, Reorg(number))
  {
    var act := Reorg(number);
    var r' := Step(r, size, confirms, act);
    SmallQuotient(number, size);
    EventNeed(r, size, confirms, number);
    if Strands(r, size, act) {
      assert r.ix.stored in r'.ix.heads && !Covers(r', r.ix.stored);
    } else {
      forall i | i in r'.ix.heads
        ensures Covers(r', i)
      {
        assert Covers(r, i);
      }
    }
  }

  // ----- what a schedule of events does to it -----

  predicate Wrapped(r: Racing, size: nat, confirms: nat, acts: seq<Act>)
    requires size > 0
    decreases |acts|
  {
    acts != [] && (Wraps(r, size, acts[0]) || Wrapped(Step(r, size, confirms, acts[0]), size, confirms, acts[1..]))
  }

  predicate Interrupted(r: Racing, size: nat, confirms: nat, acts: seq<Act>)
    requires size > 0
    decreases |acts|
  {
    acts != [] && (Strands(r, size, acts[0]) || Interrupted(Step(r, size, confirms, acts[0]), size, confirms, acts[1..]))
  }

  /** Whether the count on disk will be zero, if `sofar` says so before the act. */
  predicate ZeroAfter(r: Racing, size: nat, act: Act, sofar: bool)
    requires size > 0
  {
    if TakesEffect(r, size, act) && !r.phase.Persist? then act.number < size else sofar
  }

  /** The last event that took effect after the count was persisted went to the first section, or there was none. */
  predicate EndsAtZero(r: Racing, size: nat, confirms: nat, acts: seq<Act>, sofar: bool)
    requires size > 0
    decreases |acts|
  {
    if acts == [] then sofar
    else EndsAtZero(Step(r, size, confirms, acts[0]), size, confirms, acts[1..], ZeroAfter(r, size, acts[0], sofar))
  }

  /** No event takes effect. */
  predicate Quiet(r: Racing, size: nat, confirms: nat, acts: seq<Act>)
    requires size > 0
    decreases |acts|
  {
    acts == [] || (!TakesEffect(r, size, acts[0]) && Quiet(Step(r, size, confirms, acts[0]), size, confirms, acts[1..]))
  }

  /** No event takes effect once the count has wrapped. */
  predicate QuietOnceWrapped(r: Racing, size: nat, confirms: nat, acts: seq<Act>)
    requires size > 0
    decreases |acts|
  {
    acts == [] ||
    var next := Step(r, size, confirms, acts[0]);
    if Wraps(r, size, acts[0]) then Quiet(next, size, confirms, acts[1..]) else QuietOnceWrapped(next, size, confirms, acts[1..])
  }

  /** Some head will be left behind. */
  predicate Hindered(r: Racing) {
    exists i :: i in r.ix.heads && !Covers(r, i)
  }

  lemma StepHinders(r: Racing, size: nat, confirms: nat, act: Act)
    requires size > 0 && OnCourse(r) && !Wraps(r, size, act)
    ensures var r' := Step(r, size, confirms, act);
            OnCourse(r') && (Hindered(r') <==> Hindered(r) || Strands(r, size, act))
  {
    var r' := Step(r, size, confirms, act);
    if act.Reorg? { SmallQuotient(act.number, size); }
    if Strands(r, size, act) { assert r.ix.stored in r'.ix.heads && !Covers(r', r.ix.stored); }
    if i :| i in r.ix.heads && !Covers(r, i) { assert i in r'.ix.heads && !Covers(r', i); }
    if i :| i in r'.ix.heads && !Covers(r', i) { assert Strands(r, size, act) || !Covers(r, i); }
  }

  lemma StepNeed(r: Racing, size: nat, confirms: nat, act: Act)
    requires size > 0 && OnCourse(r) && !Wraps(r, size, act)
    ensures Need(Step(r, size, confirms, act)) <= if act.Mine? && Need(r) > 0 then Need(r) - 1 else Need(r)
  {
    match act
    case Reorg(number) => EventNeed(r, size, confirms, number);
    case Mine => if !r.phase.Over? { AccessSettles(r); }
  }

  /** Unless the count wraps, the rollback takes no more accesses than it would alone, and heads are left exactly by the events that strand them. */
  lemma {:induction false} RunOnCourse(r: Racing, size: nat, confirms: nat, acts: seq<Act>)
    requires size > 0 && OnCourse(r) && !Wrapped(r, size, confirms, acts)
    ensures var end := Run(r, size, confirms, acts);
            && Sane(end) && (Need(r) <= Own(acts) ==> end.phase == Over)
            && (Hindered(end) <==> Hindered(r) || Interrupted(r, size, confirms, acts))
    decreases |acts|
  {
    if acts == [] {
    } else {
      StepHinders(r, size, confirms, acts[0]);
      StepNeed(r, size, confirms, acts[0]);
      RunOnCourse(Step(r, size, confirms, acts[0]), size, confirms, acts[1..]);
    }
  }

  lemma {:induction false} CountEnds(r: Racing, size: nat, confirms: nat, acts: seq<Act>)
    requires size > 0
    ensures ZeroCount(Run(r, size, confirms, acts)) <==> EndsAtZero(r, size, confirms, acts, ZeroCount(r))
    decreases |acts|
  {
    if acts == [] {
    } else {
      if acts[0].Reorg? { SmallQuotient(acts[0].number, size); }
      CountEnds(Step(r, size, confirms, acts[0]), size, confirms, acts[1..]);
    }
  }

  /** After the last event that takes effect, from whatever state, the rollback is over after just the accesses it needs. */
  lemma {:induction false} QuietRun(r: Racing, size: nat, confirms: nat, acts: seq<Act>)
    requires size > 0 && Sane(r) && Quiet(r, size, confirms, acts)
    ensures Run(r, size, confirms, acts).phase == Over <==> Need(r) <= Own(acts)
    decreases |acts|
  {
    if acts == [] {
    } else {
      if acts[0].Mine? && !r.phase.Over? { AccessSettles(r); }
      QuietRun(Step(r, size, confirms, acts[0]), size, confirms, acts[1..]);
    }
  }

  /** Once the count has wrapped, the rollback goes on for the whole 64-bit range. */
  lemma {:induction false} RunWrapped(r: Racing, size: nat, confirms: nat, acts: seq<Act>)
    requires size > 0 && OnCourse(r) && Wrapped(r, size, confirms, acts) && QuietOnceWrapped(r, size, confirms, acts)
    requires Own(acts) <= 5 * U64
    ensures Run(r, size, confirms, acts).phase != Over
    decreases |acts|
  {
    var next := Step(r, size, confirms, acts[0]);
    if Wraps(r, size, acts[0]) {
      EventNeed(r, size, confirms, acts[0].number);
      QuietRun(next, size, confirms, acts[1..]);
    } else {
      StepHinders(r, size, confirms, acts[0]);
      RunWrapped(next, size, confirms, acts[1..]);
    }
  }

  /**
   After as many accesses as the unlocked rollback makes alone, and before it could have
   counted through 64 bits, it is over and the index is in order exactly when no event
   went back to the first section between the guard and the decrement, none took effect
   between a decrement and the reading of the section to remove, and the last one that
   took effect after the count was persisted, if any, went back to the first section.
   */
  lemma UnlockedReset(ix: Index, size: nat, confirms: nat, acts: seq<Act>)
    requires size > 0 && InOrder(ix) && ix.stored < U64
    requires 5 * ix.stored + 3 <= Own(acts) <= 5 * U64 && QuietOnceWrapped(Racing(ix, Persist), size, confirms, acts)
    ensures var start := Racing(ix, Persist);
            var end := Run(start, size, confirms, acts);
            end.phase == Over && InOrder(end.ix) <==>
              !Wrapped(start, size, confirms, acts) && !Interrupted(start, size, confirms, acts) && EndsAtZero(start, size, confirms, acts, true)
  {
    var start := Racing(ix, Persist);
    if Wrapped(start, size, confirms, acts) {
      RunWrapped(start, size, confirms, acts);
    } else {
      RunOnCourse(start, size, confirms, acts);
      CountEnds(start, size, confirms, acts);
      var end := Run(start, size, confirms, acts);
      assert Hindered(end) <==> exists i :: i in end.ix.heads;
    }
  }

  /** What holds in every run: all figures stay within 64 bits, and the count is not above what was read of it. */
  ghost predicate Tracked(r: Racing) {
    && Sane(r) && r.ix.stored < U64 && (forall i :: i in r.ix.heads ==> i < U64)
    && (r.phase.Store? ==> r.ix.stored <= r.phase.read < U64)
  }

  /** Whether a head will be left behind, if `sofar` says so before the act: a rollback that wraps passes every section again. */
  predicate LeftAfter(r: Racing, size: nat, act: Act, sofar: bool)
    requires size > 0
  {
    if Wraps(r, size, act) then false else sofar || Strands(r, size, act)
  }

  predicate LeavesSome(r: Racing, size: nat, confirms: nat, acts: seq<Act>, sofar: bool)
    requires size > 0
    decreases |acts|
  {
    if acts == [] then sofar
    else LeavesSome(Step(r, size, confirms, acts[0]), size, confirms, acts[1..], LeftAfter(r, size, acts[0], sofar))
  }

  lemma StepLeaves(r: Racing, size: nat, confirms: nat, act: Act)
    requires size > 0 && Tracked(r)
    ensures var r' := Step(r, size, confirms, act);
            Tracked(r') && (Hindered(r') <==> LeftAfter(r, size, act, Hindered(r)))
  {
    var r' := Step(r, size, confirms, act);
    if act.Reorg? { SmallQuotient(act.number, size); }
    if Wraps(r, size, act) {
      assert forall i :: i in r'.ix.heads ==> Covers(r', i);
    } else {
      if Strands(r, size, act) { assert r.ix.stored in r'.ix.heads && !Covers(r', r.ix.stored); }
      if i :| i in r.ix.heads && !Covers(r, i) { assert i in r'.ix.heads && !Covers(r', i); }
      if i :| i in r'.ix.heads && !Covers(r', i) { assert Strands(r, size, act) || !Covers(r, i); }
    }
  }

  lemma {:induction false} RunLeaves(r: Racing, size: nat, confirms: nat, acts: seq<Act>)
    requires size > 0 && Tracked(r)
    ensures var end := Run(r, size, confirms, acts);
            Tracked(end) && (Hindered(end) <==> LeavesSome(r, size, confirms, acts, Hindered(r)))
    decreases |acts|
  {
    if acts == [] {
    } else {
      StepLeaves(r, size, confirms, acts[0]);
      RunLeaves(Step(r, size, confirms, acts[0]), size, confirms, acts[1..]);
    }
  }

  /**
   However long it took and whatever came in between, also after a wrap: a rollback that
   is over has left the index in order exactly when no head was left behind and the last
   event that took effect after the count was persisted, if any, went to the first section.
   */
  lemma OnceOver(ix: Index, size: nat, confirms: nat, acts: seq<Act>)
    requires size > 0 && InOrder(ix) && ix.stored < U64 && Run(Racing(ix, Persist), size, confirms, acts).phase == Over
    ensures var start := Racing(ix, Persist);
            InOrder(Run(start, size, confirms, acts).ix) <==>
              !LeavesSome(start, size, confirms, acts, false) && EndsAtZero(start, size, confirms, acts, true)
  {
    var start := Racing(ix, Persist);
    RunLeaves(start, size, confirms, acts);
    CountEnds(start, size, confirms, acts);
    var end := Run(start, size, confirms, acts);
    assert !Hindered(start);
    assert Hindered(end) <==> exists i :: i in end.ix.heads;
  }

  /** Events that come in while nothing is stored below them leave the rollback as it would be under the lock. */
  lemma {:induction false} Undisturbed(r: Racing, size: nat, confirms: nat, acts: seq<Act>)
    requires size > 0 && Quiet(r, size, confirms, acts)
    ensures !Wrapped(r, size, confirms, acts) && !Interrupted(r, size, confirms, acts)
    ensures EndsAtZero(r, size, confirms, acts, true) && QuietOnceWrapped(r, size, confirms, acts)
    decreases |acts|
  {
    if acts == [] {
    } else {
      Undisturbed(Step(r, size, confirms, acts[0]), size, confirms, acts[1..]);
    }
  }

  // ----- each of the three ways to fail, on an input -----

  function Accesses(n: nat): seq<Act> {
    seq(n, _ => Mine)
  }

  lemma {:induction false} AccessesRun(r: Racing, size: nat, confirms: nat, n: nat)
    requires size > 0
    ensures Run(r, size, confirms, Accesses(n)) == Alone(r, n)
    decreases n
  {
    if n == 0 {
    } else {
      assert Accesses(n)[1..] == Accesses(n - 1);
      AccessesRun(Access(r), size, confirms, n - 1);
    }
  }

  lemma {:induction false} RunJoins(r: Racing, size: nat, confirms: nat, acts: seq<Act>, more: seq<Act>)
    requires size > 0
    ensures Run(r, size, confirms, acts + more) == Run(Run(r, size, confirms, acts), size, confirms, more)
    decreases |acts|
  {
    if acts == [] {
      assert acts + more == more;
    } else {
      assert (acts + more)[1..] == acts[1..] + more;
      RunJoins(Step(r, size, confirms, acts[0]), size, confirms, acts[1..], more);
    }
  }

  /** One event between two stretches of accesses. */
  lemma OneEvent(ix: Index, size: nat, confirms: nat, before: nat, number: nat, after: nat)
    requires size > 0
    ensures Run(Racing(ix, Persist), size, confirms, Accesses(before) + [Reorg(number)] + Accesses(after)) ==
      Alone(Step(Alone(Racing(ix, Persist), before), size, confirms, Reorg(number)), after)
  {
    var start := Racing(ix, Persist);
    RunJoins(start, size, confirms, Accesses(before) + [Reorg(number)], Accesses(after));
    RunJoins(start, size, confirms, Accesses(before), [Reorg(number)]);
    AccessesRun(start, size, confirms, before);
    var mid := Run(start, size, confirms, Accesses(before) + [Reorg(number)]);
    assert [Reorg(number)][1..] == [];
    AccessesRun(mid, size, confirms, after);
  }

  /** With one section stored, a reorg event to its first block between guard and decrement leaves a count of 2^64 - 1 and no head. */
  lemma WrapExample()
    ensures var ix := Index(1, 1, 0, 1, map[0 := 1]);
            var end := Run(Racing(ix, Persist), 1, 0, Accesses(2) + [Reorg(0)] + Accesses(2));
            InOrder(ix) && end.phase == Pick && end.ix.stored == U64 - 1 && end.ix.count == 0 && end.ix.heads == map[]
  {
    var ix := Index(1, 1, 0, 1, map[0 := 1]);
    OneEvent(ix, 1, 0, 2, 0, 2);
    var r := Step(Alone(Racing(ix, Persist), 2), 1, 0, Reorg(0));
    assert r == Step(Access(Access(Racing(ix, Persist))), 1, 0, Reorg(0)) && r.ix.heads == map[];
    assert Alone(r, 2) == Access(Access(r));
  }

  /** With two stored, an event to the second just after zero was persisted ends with a persisted count of one and nothing stored. */
  lemma DisagreementExample()
    ensures var ix := Index(2, 2, 0, 2, map[0 := 1, 1 := 2]);
            var end := Run(Racing(ix, Persist), 1, 0, Accesses(1) + [Reorg(1)] + Accesses(7));
            InOrder(ix) && end.phase == Over && end.ix.count == 1 && end.ix.stored == 0
  {
    var ix := Index(2, 2, 0, 2, map[0 := 1, 1 := 2]);
    OneEvent(ix, 1, 0, 1, 1, 7);
    var r := Step(Access(Racing(ix, Persist)), 1, 0, Reorg(1));
    assert r == Step(Alone(Racing(ix, Persist), 1), 1, 0, Reorg(1));
    AloneEnds(r, 7);
  }

  /** With two stored, an event to the first after the second was counted out leaves the head of the second behind. */
  lemma StrandedExample()
    ensures var ix := Index(2, 2, 0, 2, map[0 := 1, 1 := 2]);
            var end := Run(Racing(ix, Persist), 1, 0, Accesses(4) + [Reorg(0)] + Accesses(4));
            InOrder(ix) && end.phase == Over && end.ix.count == 0 && end.ix.heads == map[1 := 2]
  {
    var ix := Index(2, 2, 0, 2, map[0 := 1, 1 := 2]);
    OneEvent(ix, 1, 0, 4, 0, 4);
    var r2 := Access(Access(Racing(ix, Persist)));
    assert Alone(Racing(ix, Persist), 4) == Alone(r2, 2) == Access(Access(r2));
    AloneEnds(Step(Access(Access(r2)), 1, 0, Reorg(0)), 4);
  }
}
