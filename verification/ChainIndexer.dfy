/**
 `ChainIndexer`: sections of the chain indexed one after another by an updater that
 lets go of the lock while it works, and rolled back by head events.
 */
module ChainIndexer {
  import opened Basics
  import opened ChainTree
  import opened SectionIndex
  import opened IndexerReset

  /** `to` is reached from `start` by `n` parent links. */
  ghost predicate Reached(hs: Headers, start: nat, to: nat, n: nat)
    decreases n
  {
    if n == 0 then to == start
    else to in hs && Reached(hs, start, hs[to].parent, n - 1)
  }

  /** Completing a section, unless it has been rolled back since it was begun. */
  function Complete(ix: Index, size: nat, section: nat, oldHead: nat, newHead: nat): Index
    requires size > 0
  {
    if oldHead == SectionHead(ix.heads, section - 1) then
      var done := SetValid(ix.(heads := ix.heads[section := newHead]), section + 1);
      assert done.stored * size >= 1;
      done.(cascaded := done.stored * size - 1)
    else ix.(known := ix.stored)
  }

  /** What the updater is doing between two of its locked steps. */
  datatype Job =
    | Idle
    | Busy(section: nat, oldHead: nat, done: nat, last: nat)
    | Ready(section: nat, oldHead: nat, newHead: nat)
    | Rolling(phase: Phase)
    | Failed

  datatype State = State(ix: Index, job: Job)

  /** Head events come at any time; the rest is the updater, which reads whatever is canonical when it looks. */
  datatype Event =
    | Head(number: nat, reorg: bool)
    | Begin
    | ResetFails
    | Roll
    | Read(hash: nat)
    | Missing
    | Commit(ok: bool)
    | Finish

  ghost predicate Enabled(hs: Headers, size: nat, s: State, e: Event) {
    match e
    case Head(_, _) => true
    case Begin => s.job.Idle? && s.ix.known > s.ix.stored
    case ResetFails => s.job.Busy? && s.job.done == 0
    case Roll => s.job.Rolling?
    case Read(h) => s.job.Busy? && s.job.done < size && h in hs && hs[h].number == s.job.section * size + s.job.done
    case Missing => s.job.Busy? && s.job.done < size
    case Commit(_) => s.job.Busy? && s.job.done == size
    case Finish => s.job.Ready? || s.job.Failed?
  }

  function Next(hs: Headers, size: nat, confirms: nat, s: State, e: Event): State
    requires size > 0 && (e.Read? ==> e.hash in hs && s.job.Busy?) && (e.Commit? ==> s.job.Busy?) && (e.Roll? ==> s.job.Rolling?)
  {
    match e
    case Head(number, reorg) => s.(ix := NewHead(s.ix, size, confirms, number, reorg))
    case Begin =>
      var oldHead := if s.ix.stored > 0 then SectionHead(s.ix.heads, s.ix.stored - 1) else ZERO;
      s.(job := Busy(s.ix.stored, oldHead, 0, oldHead))
    case ResetFails => s.(job := Rolling(Persist))
    case Roll =>
      var r := Access(Racing(s.ix, s.job.phase));
      State(r.ix, if r.phase.Over? then Failed else Rolling(r.phase))
    case Read(h) =>
      if hs[h].parent != s.job.last then s.(job := Failed)
      else s.(job := s.job.(done := s.job.done + 1, last := h))
    case Missing => s.(job := Failed)
    case Commit(ok) => s.(job := if ok then Ready(s.job.section, s.job.oldHead, s.job.last) else Failed)
    case Finish =>
      if s.job.Ready? then State(Complete(s.ix, size, s.job.section, s.job.oldHead, s.job.newHead), Idle)
      else State(s.ix.(known := s.ix.stored), Idle)
  }

  /** No chain has 2^64 - 1 blocks or more. */
  ghost predicate Fits(hs: Headers) {
    forall h :: h in hs ==> hs[h].number + 1 < U64
  }

  /** Where the head of a section should sit. */
  ghost predicate HeadOk(hs: Headers, size: nat, heads: map<nat, nat>, i: nat) {
    && i in heads && heads[i] in hs && hs[heads[i]].number == i * size + size - 1
    && Reached(hs, SectionHead(heads, i - 1), heads[i], size)
  }

  /** Heads are present exactly below the stored count, the persisted count agrees, and the heads are linked. */
  ghost predicate IndexOk(hs: Headers, size: nat, ix: Index) {
    && (forall i: nat :: i in ix.heads <==> i < ix.stored)
    && ix.count == ix.stored
    && (forall i: nat {:trigger HeadOk(hs, size, ix.heads, i)} :: i < ix.stored ==> HeadOk(hs, size, ix.heads, i))
  }

  /** A rollback under way has not let a zero through, and would end with the index in order. */
  ghost predicate RollOk(ix: Index, phase: Phase) {
    OnCourse(Racing(ix, phase)) && Recovers(Racing(ix, phase)) && !phase.Over?
  }

  /** The section being worked on has not been passed by the stored count. */
  ghost predicate JobOk(hs: Headers, size: nat, s: State) {
    match s.job
    case Busy(section, oldHead, done, last) =>
      && s.ix.stored <= section && (section > 0 ==> oldHead != ZERO) && (section == 0 ==> oldHead == ZERO)
      && Reached(hs, oldHead, last, done) && done <= size
      && (done > 0 ==> last in hs && hs[last].number == section * size + done - 1)
    case Ready(section, oldHead, newHead) =>
      && s.ix.stored <= section && (section > 0 ==> oldHead != ZERO) && (section == 0 ==> oldHead == ZERO)
      && Reached(hs, oldHead, newHead, size) && newHead in hs && hs[newHead].number == section * size + size - 1
    case _ => true
  }

  /** The index is in order, or a failed reset is being rolled back and will leave it so. */
  ghost predicate Inv(hs: Headers, size: nat, s: State) {
    if s.job.Rolling? then RollOk(s.ix, s.job.phase) else IndexOk(hs, size, s.ix) && JobOk(hs, size, s)
  }

  /** The event does not spoil a rollback; while none is under way, every event is harmless. */
  predicate Harmless(size: nat, s: State, e: Event)
    requires size > 0
  {
    s.job.Rolling? && e.Head? && e.reorg ==>
      var r := Racing(s.ix, s.job.phase);
      var act := Reorg(e.number);
      !Wraps(r, size, act) && !Strands(r, size, act) && !Recounts(r, size, act)
  }

  /** Rolling back keeps the heads below the cut in order. */
  lemma CutOk(hs: Headers, size: nat, ix: Index, sections: nat)
    requires IndexOk(hs, size, ix) && sections <= ix.stored
    ensures IndexOk(hs, size, SetValid(ix, sections))
  {
    var cut := SetValid(ix, sections);
    forall i: nat | i < cut.stored
      ensures HeadOk(hs, size, cut.heads, i)
    {
      assert HeadOk(hs, size, ix.heads, i);
      assert SectionHead(cut.heads, i - 1) == SectionHead(ix.heads, i - 1);
    }
  }

  lemma HeadKeeps(hs: Headers, size: nat, confirms: nat, s: State, number: nat, reorg: bool)
    requires size > 0 && Inv(hs, size, s) && !s.job.Rolling?
    ensures Inv(hs, size, s.(ix := NewHead(s.ix, size, confirms, number, reorg)))
    ensures reorg ==> NewHead(s.ix, size, confirms, number, reorg).stored <= number / size
  {
    if reorg {
      var changed := number / size;
      if changed < s.ix.stored { CutOk(hs, size, s.ix, changed); }
      var ix := NewHead(s.ix, size, confirms, number, reorg);
      var cut := if changed < s.ix.stored then SetValid(s.ix, changed) else s.ix;
      assert ix.heads == cut.heads && ix.stored == cut.stored && ix.count == cut.count;
      SameHeads(hs, size, cut, ix);
    } else {
      SameHeads(hs, size, s.ix, NewHead(s.ix, size, confirms, number, reorg));
    }
  }

  lemma SameHeads(hs: Headers, size: nat, ix: Index, ix': Index)
    requires IndexOk(hs, size, ix) && ix'.heads == ix.heads && ix'.stored == ix.stored && ix'.count == ix.count
    ensures IndexOk(hs, size, ix')
  {
    forall i: nat | i < ix'.stored
      ensures HeadOk(hs, size, ix'.heads, i)
    {
      assert HeadOk(hs, size, ix.heads, i);
    }
  }

  /** A section is only completed on top of the head it was begun on. */
  lemma CompleteKeeps(hs: Headers, size: nat, ix: Index, section: nat, oldHead: nat, newHead: nat)
    requires size > 0 && IndexOk(hs, size, ix) && ZERO !in hs
    requires ix.stored <= section && (section > 0 ==> oldHead != ZERO) && (section == 0 ==> oldHead == ZERO)
    requires Reached(hs, oldHead, newHead, size) && newHead in hs && hs[newHead].number == section * size + size - 1
    ensures IndexOk(hs, size, Complete(ix, size, section, oldHead, newHead))
    ensures var ix' := Complete(ix, size, section, oldHead, newHead);
      if oldHead == SectionHead(ix.heads, section - 1) then
        && ix'.stored == ix.stored + 1 == section + 1 && ix'.known == ix.known
        && ix'.heads == ix.heads[section := newHead] && ix'.cascaded == hs[newHead].number
      else ix' == ix.(known := ix.stored)
  {
    var ix' := Complete(ix, size, section, oldHead, newHead);
    if oldHead == SectionHead(ix.heads, section - 1) {
      assert section == ix.stored;
      forall i: nat | i < ix'.stored
        ensures HeadOk(hs, size, ix'.heads, i)
      {
        if i < section { assert HeadOk(hs, size, ix.heads, i); }
        assert SectionHead(ix'.heads, i - 1) == SectionHead(ix.heads, i - 1);
      }
    } else {
      SameHeads(hs, size, ix, ix');
    }
  }

  /** A rollback under way survives the head events that do not spoil it. */
  lemma HeadWhileRolling(size: nat, confirms: nat, s: State, number: nat, reorg: bool)
    requires size > 0 && s.job.Rolling? && RollOk(s.ix, s.job.phase) && Harmless(size, s, Head(number, reorg))
    ensures RollOk(NewHead(s.ix, size, confirms, number, reorg), s.job.phase)
  {
    var r := Racing(s.ix, s.job.phase);
    if reorg {
      EventSpoils(r, size, confirms, number);
      StepHinders(r, size, confirms, Reorg(number));
    } else {
      assert forall i :: Covers(r.(ix := NewHead(s.ix, size, confirms, number, reorg)), i) == Covers(r, i);
    }
  }

  /** The last access of a rollback leaves the empty index. */
  lemma RollKeeps(hs: Headers, size: nat, s: State)
    requires s.job.Rolling? && RollOk(s.ix, s.job.phase)
    ensures var r := Access(Racing(s.ix, s.job.phase));
            if r.phase.Over? then IndexOk(hs, size, r.ix) && r.ix.stored == 0 else RollOk(r.ix, r.phase)
  {
    var r := Racing(s.ix, s.job.phase);
    AccessSettles(r);
    forall i | i in Access(r).ix.heads
      ensures Covers(Access(r), i)
    {
      assert Covers(r, i);
    }
  }

  lemma AtLeast(n: nat, size: nat)
    requires size > 0
    ensures n * size >= n
  {
  }

  lemma StoredFits(hs: Headers, size: nat, ix: Index)
    requires size > 0 && Fits(hs) && IndexOk(hs, size, ix)
    ensures ix.stored < U64
  {
    if ix.stored > 0 {
      var last := ix.stored - 1;
      assert HeadOk(hs, size, ix.heads, last);
      AtLeast(last, size);
    }
  }

  /** Every harmless step keeps the index in order, whichever comes next. */
  lemma StepKeeps(hs: Headers, size: nat, confirms: nat, s: State, e: Event)
    requires size > 0 && ZERO !in hs && Inv(hs, size, s) && Enabled(hs, size, s, e) && Harmless(size, s, e)
    requires Fits(hs)
    ensures Inv(hs, size, Next(hs, size, confirms, s, e))
  {
    match e
    case Head(number, reorg) =>
      if s.job.Rolling? {
        HeadWhileRolling(size, confirms, s, number, reorg);
      } else {
        HeadKeeps(hs, size, confirms, s, number, reorg);
      }
    case Begin =>
      if s.ix.stored > 0 { assert HeadOk(hs, size, s.ix.heads, s.ix.stored - 1); }
    case ResetFails =>
      StoredFits(hs, size, s.ix);
    case Roll => RollKeeps(hs, size, s);
    case Read(h) =>
    case Missing =>
    case Commit(ok) =>
    case Finish =>
      if s.job.Ready? {
        CompleteKeeps(hs, size, s.ix, s.job.section, s.job.oldHead, s.job.newHead);
      } else {
        SameHeads(hs, size, s.ix, s.ix.(known := s.ix.stored));
      }
  }

  /** A run from a state: each event enabled when it happens, and harmless to a rollback that is under way. */
  ghost predicate IsRun(hs: Headers, size: nat, confirms: nat, s: State, events: seq<Event>)
    requires size > 0
    decreases |events|
  {
    events == [] || (Enabled(hs, size, s, events[0]) && Harmless(size, s, events[0]) && IsRun(hs, size, confirms, Next(hs, size, confirms, s, events[0]), events[1..]))
  }

  ghost function After(hs: Headers, size: nat, confirms: nat, s: State, events: seq<Event>): State
    requires size > 0 && IsRun(hs, size, confirms, s, events)
    decreases |events|
  {
    if events == [] then s else After(hs, size, confirms, Next(hs, size, confirms, s, events[0]), events[1..])
  }

  /** Across all interleavings of such steps the index stays in order. */
  lemma {:induction false} EveryRun(hs: Headers, size: nat, confirms: nat, s: State, events: seq<Event>)
    requires size > 0 && ZERO !in hs && Fits(hs) && Inv(hs, size, s) && IsRun(hs, size, confirms, s, events)
    ensures Inv(hs, size, After(hs, size, confirms, s, events))
    decreases |events|
  {
    if events == [] {
    } else {
      StepKeeps(hs, size, confirms, s, events[0]);
      EveryRun(hs, size, confirms, Next(hs, size, confirms, s, events[0]), events[1..]);
    }
  }

  // ----- only confirmed sections are taken up -----

  /** A head was announced that confirms the first `k` sections, and no reorganisation since has gone back into them. */
  ghost predicate ConfirmedSince(size: nat, confirms: nat, past: seq<Event>, k: nat) {
    exists i :: 0 <= i < |past| && ConfirmedAt(size, confirms, past, k, i)
  }

  ghost predicate ConfirmedAt(size: nat, confirms: nat, past: seq<Event>, k: nat, i: nat)
    requires i < |past|
  {
    && past[i].Head? && !past[i].reorg && Confirmed(size, confirms, past[i].number, k)
    && forall j :: i < j < |past| && past[j].Head? && past[j].reorg ==> Untouched(size, past[j].number, k)
  }

  /** So it is for all sections that are known and not stored, unless an attempt at one has failed. */
  ghost predicate Grounded(size: nat, confirms: nat, past: seq<Event>, s: State) {
    s.job.Rolling? || s.job.Failed? || forall k: nat :: s.ix.stored < k <= s.ix.known ==> ConfirmedSince(size, confirms, past, k)
  }

  lemma StillConfirmed(size: nat, confirms: nat, past: seq<Event>, e: Event, k: nat)
    requires ConfirmedSince(size, confirms, past, k) && (e.Head? && e.reorg ==> Untouched(size, e.number, k))
    ensures ConfirmedSince(size, confirms, past + [e], k)
  {
    var i :| 0 <= i < |past| && ConfirmedAt(size, confirms, past, k, i);
    assert ConfirmedAt(size, confirms, past + [e], k, i);
  }

  lemma NowConfirmed(size: nat, confirms: nat, past: seq<Event>, number: nat, k: nat)
    requires Confirmed(size, confirms, number, k)
    ensures ConfirmedSince(size, confirms, past + [Head(number, false)], k)
  {
    assert ConfirmedAt(size, confirms, past + [Head(number, false)], k, |past|);
  }

  lemma HeadGrounds(size: nat, confirms: nat, past: seq<Event>, s: State, number: nat, reorg: bool, k: nat)
    requires size > 0 && Grounded(size, confirms, past, s) && !s.job.Rolling? && !s.job.Failed?
    requires var ix := NewHead(s.ix, size, confirms, number, reorg); ix.stored < k <= ix.known
    ensures ConfirmedSince(size, confirms, past + [Head(number, reorg)], k)
  {
    if reorg {
      NewHeadReverts(s.ix, size, confirms, number, k);
      StillConfirmed(size, confirms, past, Head(number, reorg), k);
    } else {
      NewHeadConfirms(s.ix, size, confirms, number, k);
      if k <= s.ix.known {
        StillConfirmed(size, confirms, past, Head(number, reorg), k);
      } else {
        NowConfirmed(size, confirms, past, number, k);
      }
    }
  }

  lemma StepGrounds(hs: Headers, size: nat, confirms: nat, past: seq<Event>, s: State, e: Event)
    requires size > 0 && Inv(hs, size, s) && Enabled(hs, size, s, e) && Grounded(size, confirms, past, s)
    ensures Grounded(size, confirms, past + [e], Next(hs, size, confirms, s, e))
  {
    var s' := Next(hs, size, confirms, s, e);
    if !s'.job.Rolling? && !s'.job.Failed? {
      forall k: nat | s'.ix.stored < k <= s'.ix.known
        ensures ConfirmedSince(size, confirms, past + [e], k)
      {
        if e.Head? {
          HeadGrounds(size, confirms, past, s, e.number, e.reorg, k);
        } else {
          StillConfirmed(size, confirms, past, e, k);
        }
      }
    }
  }

  lemma {:induction false} RunGrounds(hs: Headers, size: nat, confirms: nat, past: seq<Event>, s: State, events: seq<Event>)
    requires size > 0 && ZERO !in hs && Fits(hs) && Inv(hs, size, s) && IsRun(hs, size, confirms, s, events)
    requires Grounded(size, confirms, past, s)
    ensures Grounded(size, confirms, past + events, After(hs, size, confirms, s, events))
    decreases |events|
  {
    if events == [] {
      assert past + events == past;
    } else {
      StepKeeps(hs, size, confirms, s, events[0]);
      StepGrounds(hs, size, confirms, past, s, events[0]);
      RunGrounds(hs, size, confirms, past + [events[0]], Next(hs, size, confirms, s, events[0]), events[1..]);
      assert past + [events[0]] + events[1..] == past + events;
    }
  }

  /**
   From an indexer that knows of no more than it has stored, as a new one does: whenever the updater
   takes up a section, a head at least `confirms` blocks above the section's end has been announced
   in the run, and no reorganisation since has gone back into it.
   */
  lemma OnlyConfirmed(hs: Headers, size: nat, confirms: nat, s: State, events: seq<Event>)
    requires size > 0 && ZERO !in hs && Fits(hs) && Inv(hs, size, s) && IsRun(hs, size, confirms, s, events)
    requires s.ix.known <= s.ix.stored && Enabled(hs, size, After(hs, size, confirms, s, events), Begin)
    ensures ConfirmedSince(size, confirms, events, After(hs, size, confirms, s, events).ix.stored + 1)
  {
    RunGrounds(hs, size, confirms, [], s, events);
    assert [] + events == events;
  }

  /** What a newly created indexer finds in its database; an empty one has a count of zero. */
  function Loaded(count: nat, heads: map<nat, nat>): Index {
    Index(count, 0, 0, count, heads)
  }

  /** An empty database is in order. */
  lemma EmptyIsOk(hs: Headers, size: nat)
    ensures Inv(hs, size, State(Loaded(0, map[]), Idle))
  {
  }

  /** Starting again from the database of an index in order gives an index in order. */
  lemma RestartKeeps(hs: Headers, size: nat, ix: Index)
    requires IndexOk(hs, size, ix)
    ensures Inv(hs, size, State(Loaded(ix.count, ix.heads), Idle))
  {
    SameHeads(hs, size, ix, Loaded(ix.count, ix.heads));
  }

  /** Starting again after a rollback has persisted its zero gives one exactly if no head is left. */
  lemma RestartWhileRolling(hs: Headers, size: nat, s: State)
    requires s.job.Rolling? && RollOk(s.ix, s.job.phase) && !s.job.phase.Persist?
    ensures Inv(hs, size, State(Loaded(s.ix.count, s.ix.heads), Idle)) <==> s.ix.heads == map[]
  {
    assert s.ix.heads == map[] <==> forall i: nat :: i !in s.ix.heads;
  }

  /** What is found at a place of the section is a header on top of the one before. */
  ghost predicate LinkAt(hs: Headers, found: seq<nat>, oldHead: nat, i: nat)
    requires i < |found|
  {
    found[i] in hs && hs[found[i]].parent == if i == 0 then oldHead else found[i - 1]
  }

  class ChainIndexer {
    const sectionSize: nat
    const confirmsReq: nat
    var storedSections: nat
    var knownSections: nat
    var cascadedHead: nat
    /** The index database: the persisted count and the section heads. */
    var count: nat
    var heads: map<nat, nat>

    ghost function View(): Index
      reads this
    {
      Index(storedSections, knownSections, cascadedHead, count, heads)
    }

    /** Takes over what an earlier indexer left in the database. */
    constructor (size: nat, confirms: nat, stored: nat, storedHeads: map<nat, nat>)
      requires size > 0
      ensures sectionSize == size && confirmsReq == confirms && View() == Loaded(stored, storedHeads)
    {
      sectionSize, confirmsReq := size, confirms;
      storedSections, knownSections, cascadedHead, count, heads := stored, 0, 0, stored, storedHeads;
    }

    /** Persists the count, then removes the heads of sections that are no longer valid. */
    method SetValidSections(sections: nat)
      modifies this`storedSections, this`count, this`heads
      ensures View() == SetValid(old(View()), sections)
    {
      count := sections;
      while storedSections > sections
        invariant count == sections && (storedSections <= old(storedSections))
        invariant storedSections >= sections || storedSections == old(storedSections)
        invariant heads == map i | i in old(heads) && !(storedSections <= i < old(storedSections)) :: old(heads)[i]
      {
        storedSections := storedSections - 1;
        heads := heads - {storedSections};
      }
      storedSections := sections;
    }

    lemma HeadMeaning(number: nat, reorg: bool)
      requires sectionSize > 0
      ensures var was, now := View(), NewHead(View(), sectionSize, confirmsReq, number, reorg);
        && (!reorg ==> now == was.(known := now.known) && forall s: nat :: s > 0 ==>
            (s <= now.known <==> s <= was.known || Confirmed(sectionSize, confirmsReq, number, s)))
        && (reorg ==> forall s: nat ::
            && (s <= now.known <==> s <= was.known && Untouched(sectionSize, number, s))
            && (s <= now.stored <==> s <= was.stored && Untouched(sectionSize, number, s)))
    {
      var was, now := View(), NewHead(View(), sectionSize, confirmsReq, number, reorg);
      if reorg {
        forall s: nat
          ensures s <= now.known <==> s <= was.known && Untouched(sectionSize, number, s)
          ensures s <= now.stored <==> s <= was.stored && Untouched(sectionSize, number, s)
        {
          NewHeadReverts(was, sectionSize, confirmsReq, number, s);
        }
      } else {
        NewHeadConfirms(was, sectionSize, confirmsReq, number, 1);
        forall s: nat | s > 0
          ensures s <= now.known <==> s <= was.known || Confirmed(sectionSize, confirmsReq, number, s)
        {
          NewHeadConfirms(was, sectionSize, confirmsReq, number, s);
        }
      }
    }

    /** A head event, with the lock held. */
    method HeadEvent(number: nat, reorg: bool)
      requires sectionSize > 0
      modifies this
      ensures View() == NewHead(old(View()), sectionSize, confirmsReq, number, reorg)
      ensures !reorg ==> View() == old(View()).(known := knownSections) && forall s: nat :: s > 0 ==>
        (s <= knownSections <==> s <= old(knownSections) || Confirmed(sectionSize, confirmsReq, number, s))
      ensures reorg ==> forall s: nat ::
        && (s <= knownSections <==> s <= old(knownSections) && Untouched(sectionSize, number, s))
        && (s <= storedSections <==> s <= old(storedSections) && Untouched(sectionSize, number, s))
    {
      HeadMeaning(number, reorg);
      if reorg {
        var changed := number / sectionSize;
        if changed < knownSections {
          knownSections := changed;
        }
        if changed < storedSections {
          SetValidSections(changed);
        }
        var head := changed * sectionSize;
        if head < cascadedHead {
          cascadedHead := head;
        }
        return;
      }
      if number >= confirmsReq {
        var sections := (number + 1 - confirmsReq) / sectionSize;
        if sections > knownSections {
          knownSections := sections;
        }
      }
    }

    /**
     Works through a section without the lock. `found` is what each look at the
     canonical chain finds; the result is a head exactly `sectionSize` links above
     the old one. A backend that cannot be reset costs the whole index.
     */
    method ProcessSection(hs: Headers, section: nat, oldHead: nat, reset: bool, found: seq<nat>, committed: bool)
      returns (ok: bool, newHead: nat)
      requires |found| == sectionSize && sectionSize > 0
      requires forall i :: 0 <= i < |found| && found[i] in hs ==> hs[found[i]].number == section * sectionSize + i
      modifies this`storedSections, this`count, this`heads
      ensures View() == if reset then old(View()) else SetValid(old(View()), 0)
      ensures ok ==> reset && committed && Reached(hs, oldHead, newHead, sectionSize) && newHead in hs && hs[newHead].number == section * sectionSize + sectionSize - 1
      ensures ok <==> reset && committed && forall i :: 0 <= i < |found| ==> LinkAt(hs, found, oldHead, i)
    {
      if !reset {
        SetValidSections(0);
        return false, ZERO;
      }
      newHead := oldHead;
      for i := 0 to |found|
        invariant View() == old(View()) && Reached(hs, oldHead, newHead, i) && newHead == (if i == 0 then oldHead else found[i - 1])
        invariant forall j :: 0 <= j < i ==> LinkAt(hs, found, oldHead, j)
      {
        assert LinkAt(hs, found, oldHead, i) <==> found[i] in hs && hs[found[i]].parent == newHead;
        if found[i] !in hs || hs[found[i]].parent != newHead {
          return false, ZERO;
        }
        newHead := found[i];
      }
      ok := committed;
    }

    /** Completes a section or gives up on it, with the lock held again. */
    method FinishSection(ok: bool, section: nat, oldHead: nat, newHead: nat)
      requires sectionSize > 0
      modifies this
      ensures View() == if ok then Complete(old(View()), sectionSize, section, oldHead, newHead) else old(View()).(known := old(View()).stored)
    {
      if ok && oldHead == SectionHead(heads, section - 1) {
        heads := heads[section := newHead];
        SetValidSections(section + 1);
        assert storedSections * sectionSize >= 1;
        cascadedHead := storedSections * sectionSize - 1;
      } else {
        knownSections := storedSections;
      }
    }
  }
}
