/**
 Promotion and demotion carried out on the list objects themselves: their caches may
 go stale on the way, but never on a list that stays in the pool.
 */
module PoolLists {
  import opened Basics
  import opened NonceOrder
  import opened TxSortedMap
  import opened ListSteps
  import opened PoolAccounts
  import opened PoolSteps
  import L = TxList

  /** What leaves a queued list when the account is promoted. */
  datatype Leavers = Leavers(outdated: seq<Tx>, dear: seq<Tx>, ready: seq<Tx>, over: seq<Tx>)

  /** Taking the ready transactions leaves what is not executable. */
  lemma ReadyStep(payable: Items, pendingNonce: nat, ready: seq<Tx>)
    requires Keyed(payable) && ReadyRun(payable, pendingNonce, ready)
    ensures IsFlat(Executable(payable, pendingNonce), ready)
    ensures AfterRun(payable, ready) == payable - Executable(payable, pendingNonce).Keys
  {
    if payable != map[] {
      ReadyIsRun(payable, pendingNonce, ready);
    }
  }

  /** Cutting down to the limit leaves the lowest nonces, and hands back the others from the top. */
  lemma CapStep(was: Items, limit: nat, now: Items, removed: seq<Tx>)
    requires |was| <= limit ==> now == was && removed == []
    requires |was| > limit ==> |now| == limit && |removed| == |was| - limit
    requires |was| > limit ==>
      var lowest := removed[|removed| - 1].nonce; now == Below(was, lowest) && IsFlat(From(was, lowest), Reversed(removed))
    ensures now == CapAt(was, limit) && IsFlat(was - now.Keys, Reversed(removed))
  {
    if |was| > limit {
      var lowest := removed[|removed| - 1].nonce;
      CapIsLowest(was, limit, now, lowest);
      assert was - now.Keys == From(was, lowest);
    } else {
      assert was - now.Keys == map[];
    }
  }

  /** Outdated transactions go, then those that are too dear. */
  method Prune(list: L.TxList, stateNonce: nat, costLimit: nat, gasLimit: nat) returns (outdated: seq<Tx>, dear: seq<Tx>)
    requires list.Sound() && !list.strict
    modifies list, list.txs
    ensures list.Sound() && list.txs.items == Payable(old(list.txs.items), stateNonce, L.TooDear(costLimit, gasLimit))
    ensures IsFlat(Below(old(list.txs.items), stateNonce), outdated)
    ensures LooselyFiltered(From(old(list.txs.items), stateNonce), L.TooDear(costLimit, gasLimit), list.txs.items, dear)
  {
    outdated := list.Forward(stateNonce);
    ghost var current := list.txs.items;
    var invalid;
    dear, invalid := list.Filter(costLimit, gasLimit);
    LooseFilterIsRest(current, L.TooDear(costLimit, gasLimit), list.txs.items, dear);
  }

  /** The executable transactions go, then what is over the limit; only a list left empty may have a stale cache. */
  method TakeReady(list: L.TxList, pendingNonce: nat, limit: Option<nat>) returns (ready: seq<Tx>, over: seq<Tx>)
    requires list.Sound()
    modifies list.txs
    ensures list.Valid() && (list.txs.items == map[] || list.Sound())
    ensures list.txs.items == Remaining(old(list.txs.items), pendingNonce, limit)
    ensures IsFlat(Executable(old(list.txs.items), pendingNonce), ready)
    ensures IsFlat(old(list.txs.items) - Executable(old(list.txs.items), pendingNonce).Keys - list.txs.items.Keys, Reversed(over))
  {
    ghost var payable := list.txs.items;
    ready := list.Ready(pendingNonce);
    ReadyStep(payable, pendingNonce, ready);
    ghost var queued := list.txs.items;
    over := [];
    if limit.Some? {
      over := list.Cap(limit.value);
      CapStep(queued, limit.value, list.txs.items, over);
    } else {
      assert queued - queued.Keys == map[];
    }
  }

  /**
   `promoteExecutable` on the queued list of an account: outdated transactions go, then
   those that are too dear, then the executable ones, then what is over the limit.
   */
  method PromoteList(list: L.TxList, stateNonce: nat, pendingNonce: nat, costLimit: nat, gasLimit: nat, limit: Option<nat>)
    returns (gone: Leavers)
    requires list.Sound() && !list.strict
    modifies list, list.txs
    ensures list.Valid() && (list.txs.items == map[] || list.Sound())
    ensures var was := old(list.txs.items);
            var payable := Payable(was, stateNonce, L.TooDear(costLimit, gasLimit));
            && list.txs.items == Remaining(payable, pendingNonce, limit)
            && IsFlat(Below(was, stateNonce), gone.outdated)
            && LooselyFiltered(From(was, stateNonce), L.TooDear(costLimit, gasLimit), payable, gone.dear)
            && IsFlat(Executable(payable, pendingNonce), gone.ready)
            && IsFlat(payable - Executable(payable, pendingNonce).Keys - list.txs.items.Keys, Reversed(gone.over))
  {
    var outdated, dear := Prune(list, stateNonce, costLimit, gasLimit);
    var ready, over := TakeReady(list, pendingNonce, limit);
    gone := Leavers(outdated, dear, ready, over);
  }

  /** What leaves a pending list for good when the account is demoted. */
  datatype Dropped = Dropped(outdated: seq<Tx>, unpaid: seq<Tx>)

  /** The list holds the transactions of a map, in whatever order. */
  ghost predicate Holds(s: seq<Tx>, items: Items) {
    (forall i :: 0 <= i < |s| ==> In(items, s[i])) && forall n :: n in items ==> items[n] in s
  }

  /** Adds transactions back to a queued list. */
  method Requeue(queue: L.TxList, back: seq<Tx>, ghost items: Items)
    requires queue.Sound() && Keyed(items) && Holds(back, items)
    modifies queue, queue.txs
    ensures queue.Sound() && queue.txs.items == old(queue.txs.items) + items
  {
    ghost var was := queue.txs.items;
    for i := 0 to |back|
      invariant queue.Sound() && queue.txs.items == was + Chosen(items, back[..i])
    {
      queue.AddUnchecked(back[i]);
      OneChosen(was, items, back, i);
    }
    assert back[..|back|] == back;
    assert Chosen(items, back) == items;
  }

  /** The entries of a map that are in a list. */
  ghost function Chosen(items: Items, s: seq<Tx>): Items {
    map n | n in items && items[n] in s :: items[n]
  }

  lemma OneChosen(was: Items, items: Items, s: seq<Tx>, i: nat)
    requires Keyed(items) && i < |s| && In(items, s[i])
    ensures (was + Chosen(items, s[..i]))[s[i].nonce := s[i]] == was + Chosen(items, s[..i + 1])
  {
    assert s[..i + 1] == s[..i] + [s[i]];
  }

  /** The strict filter, in terms of the pool. */
  lemma StrictStep(current: Items, dear: Tx -> bool, now: Items, removed: seq<Tx>, invalid: seq<Tx>)
    requires Keyed(current) && StrictlyFiltered(current, dear, now, removed, invalid)
    ensures now == Affordable(current, dear) && IsFlat(Unpaid(current, dear), removed)
    ensures IsFlat(current - Unpaid(current, dear).Keys - now.Keys, invalid)
  {
    StrictFilterIsCut(current, dear, now, removed, invalid);
    if Matches(current, dear) == map[] {
      assert current - Unpaid(current, dear).Keys - now.Keys == map[];
    } else {
      var c := Least(Matches(current, dear).Keys);
      assert c in current;
      assert current - Unpaid(current, dear).Keys - now.Keys == From(current, c + 1);
      assert Unpaid(current, dear) == map[c := current[c]];
    }
  }

  /** What the strict filter leaves and hands back of a pending list. */
  method FilterPending(pending: L.TxList, stateNonce: nat, costLimit: nat, gasLimit: nat)
    returns (gone: Dropped, invalid: seq<Tx>)
    requires pending.Sound() && pending.strict
    modifies pending, pending.txs
    ensures pending.Sound()
    ensures var current := From(old(pending.txs.items), stateNonce);
            var dear := L.TooDear(costLimit, gasLimit);
            && pending.txs.items == Affordable(current, dear)
            && IsFlat(Below(old(pending.txs.items), stateNonce), gone.outdated) && IsFlat(Unpaid(current, dear), gone.unpaid)
            && IsFlat(current - Unpaid(current, dear).Keys - pending.txs.items.Keys, invalid)
  {
    var outdated := pending.Forward(stateNonce);
    ghost var current := pending.txs.items;
    var unpaid;
    unpaid, invalid := pending.Filter(costLimit, gasLimit);
    StrictStep(current, L.TooDear(costLimit, gasLimit), pending.txs.items, unpaid, invalid);
    gone := Dropped(outdated, unpaid);
  }

  lemma FlatLists(items: Items, s: seq<Tx>)
    requires Keyed(items) && IsFlat(items, s)
    ensures Holds(s, items)
  {
    forall n | n in items
      ensures items[n] in s
    {
      assert NonceOrder.Lists(items, s, n);
    }
  }

  /** Nothing else is demoted: what the strict filter hands back, and all that is left if it does not start at the state's nonce. */
  lemma DemotedIs(pending: Items, stateNonce: nat, dear: Tx -> bool, kept: Items, invalid: Items)
    requires kept == Affordable(From(pending, stateNonce), dear)
    requires invalid == From(pending, stateNonce) - Unpaid(From(pending, stateNonce), dear).Keys - kept.Keys
    ensures stateNonce in kept ==> Staying(pending, stateNonce, dear) == kept && Demoted(pending, stateNonce, dear) == invalid
    ensures stateNonce !in kept ==> Staying(pending, stateNonce, dear) == map[] && Demoted(pending, stateNonce, dear) == invalid + kept
  {
    var current := From(pending, stateNonce);
    if Matches(current, dear) != map[] {
      assert Least(Matches(current, dear).Keys) in current;
    }
  }

  lemma AddedTwice(a: Items, b: Items, c: Items)
    ensures a + b + c == a + (b + c)
  {
  }

  /** Queues what the filter handed back, and all of a pending list that does not start at the state's nonce. */
  method Postpone(pending: L.TxList, queue: L.TxList, stateNonce: nat, invalid: seq<Tx>, ghost handed: Items) returns (stays: bool)
    requires pending.Sound() && queue.Sound() && pending != queue && pending.txs != queue.txs
    requires Keyed(handed) && IsFlat(handed, invalid)
    modifies queue, queue.txs
    ensures queue.Sound() && pending.Sound() && (stays <==> stateNonce in pending.txs.items)
    ensures queue.txs.items == old(queue.txs.items) + if stays then handed else handed + pending.txs.items
  {
    FlatLists(handed, invalid);
    Requeue(queue, invalid, handed);
    stays := stateNonce in pending.txs.items;
    if !stays {
      var rest := Values(pending.txs.items);
      Requeue(queue, rest, pending.txs.items);
      AddedTwice(old(queue.txs.items), handed, pending.txs.items);
    }
  }

  /** The list starts at a nonce, and all of it can be paid for. */
  ghost predicate Sustained(items: Items, nonce: nat, dear: Tx -> bool) {
    nonce in items && forall n :: n in items ==> n >= nonce && !dear(items[n])
  }

  /** What becomes of an account's two lists in a demotion. */
  ghost predicate DemotedTo(pending: Items, queue: Items, stateNonce: nat, dear: Tx -> bool, stays: bool, pending': Items, queue': Items) {
    && queue' == queue + Demoted(pending, stateNonce, dear)
    && (stays <==> Staying(pending, stateNonce, dear) != map[])
    && (stays ==> pending' == Staying(pending, stateNonce, dear) && Sustained(pending', stateNonce, dear))
  }

  lemma Demotes(pending: Items, queue: Items, stateNonce: nat, dear: Tx -> bool, kept: Items, invalid: Items, stays: bool)
    requires kept == Affordable(From(pending, stateNonce), dear) && (stays <==> stateNonce in kept)
    requires invalid == From(pending, stateNonce) - Unpaid(From(pending, stateNonce), dear).Keys - kept.Keys
    ensures DemotedTo(pending, queue, stateNonce, dear, stays, kept, queue + if stays then invalid else invalid + kept)
  {
    DemotedIs(pending, stateNonce, dear, kept, invalid);
    StayingMeaning(pending, stateNonce, dear);
  }

  /**
   `demoteUnexecutables` on the two lists of an account. The pending list stays only if
   it starts at the state's nonce; everything that can still be paid for goes to the queue.
   */
  method DemoteLists(pending: L.TxList, queue: L.TxList, stateNonce: nat, costLimit: nat, gasLimit: nat)
    returns (gone: Dropped, stays: bool)
    requires pending.Sound() && pending.strict && queue.Sound() && pending != queue && pending.txs != queue.txs
    modifies pending, pending.txs, queue, queue.txs
    ensures pending.Sound() && queue.Sound()
    ensures DemotedTo(old(pending.txs.items), old(queue.txs.items), stateNonce, L.TooDear(costLimit, gasLimit), stays,
                      pending.txs.items, queue.txs.items)
    ensures IsFlat(Below(old(pending.txs.items), stateNonce), gone.outdated)
    ensures IsFlat(Unpaid(From(old(pending.txs.items), stateNonce), L.TooDear(costLimit, gasLimit)), gone.unpaid)
  {
    ghost var was, queued, dear := pending.txs.items, queue.txs.items, L.TooDear(costLimit, gasLimit);
    var invalid;
    gone, invalid := FilterPending(pending, stateNonce, costLimit, gasLimit);
    ghost var handed := From(was, stateNonce) - Unpaid(From(was, stateNonce), dear).Keys - pending.txs.items.Keys;
    assert Keyed(handed);
    stays := Postpone(pending, queue, stateNonce, invalid, handed);
    Demotes(was, queued, stateNonce, dear, pending.txs.items, handed, stays);
  }

  lemma CutCounts(items: Items, cut: nat)
    ensures |items| == |Below(items, cut)| + |From(items, cut)|
  {
    assert items.Keys == Below(items, cut).Keys + From(items, cut).Keys;
  }

  lemma CutIsLowest(items: Items, cut: nat, dropped: nat)
    requires dropped == |From(items, cut)| && dropped > 0
    ensures dropped <= |items| && Below(items, cut) == CapAt(items, |items| - dropped)
  {
    CutCounts(items, cut);
    CapIsLowest(items, |items| - dropped, Below(items, cut), cut);
  }

  /** Dropping the last transactions of a list keeps the lowest nonces. */
  lemma ForLastIsLowest(was: Items, n: nat, now: Items, removed: seq<Tx>)
    requires Keyed(was) && |removed| == if n < |was| then n else |was|
    requires removed == [] ==> now == was
    requires removed != [] ==> now == Below(was, removed[0].nonce) && IsFlat(From(was, removed[0].nonce), removed)
    ensures now == CapAt(was, |was| - |removed|)
  {
    if removed != [] {
      FlatCount(From(was, removed[0].nonce), removed);
      CutIsLowest(was, removed[0].nonce, |removed|);
    }
  }

  /** What the pool does to a queued list that is longer than what has to go. */
  method DropLast(list: L.TxList, drop: nat) returns (removed: seq<Tx>)
    requires list.Sound() && drop <= |list.txs.items|
    modifies list.txs
    ensures list.Sound() && list.txs.items == CapAt(old(list.txs.items), |old(list.txs.items)| - drop) && |removed| == drop
  {
    removed := list.ForLast(drop);
    ForLastIsLowest(old(list.txs.items), drop, list.txs.items, removed);
  }
}
