/**
 Promotion and demotion of one account's transactions, as functions of its lists
 and its place in the chain state.
 */
module PoolSteps {
  import opened Basics
  import opened NonceOrder
  import opened TxSortedMap
  import opened ListSteps
  import opened PoolAccounts

  /**
   The pending nonces are exactly those from the state's nonce up to the pending
   state's, and what is queued and not outdated comes after them.
   */
  ghost predicate ContigOk(stateNonce: nat, pendingNonce: nat, pending: Items, queue: Items) {
    && stateNonce <= pendingNonce
    && (forall n: nat :: n in pending <==> stateNonce <= n < pendingNonce)
    && (forall n :: n in queue && n >= stateNonce ==> n >= pendingNonce)
  }

  /** What of the queue is neither outdated nor too dear. */
  function Payable(queue: Items, stateNonce: nat, dear: Tx -> bool): Items {
    From(queue, stateNonce) - Matches(From(queue, stateNonce), dear).Keys
  }

  /** Where the run of executable transactions ends: at the pending nonce itself if there is none. */
  function Next(payable: Items, pendingNonce: nat): nat {
    if payable == map[] || Least(payable.Keys) > pendingNonce then pendingNonce
    else RunEnd(payable, Least(payable.Keys))
  }

  /** The executable transactions. */
  function Executable(payable: Items, pendingNonce: nat): Items {
    if payable == map[] || Least(payable.Keys) > pendingNonce then map[]
    else Below(payable, RunEnd(payable, Least(payable.Keys)))
  }

  /** What stays queued: at most `limit` transactions, unless there is no limit. */
  function Remaining(payable: Items, pendingNonce: nat, limit: Option<nat>): Items {
    Capped(payable - Executable(payable, pendingNonce).Keys, limit)
  }

  function Capped(items: Items, limit: Option<nat>): (r: Items)
    ensures Part(r, items) && (limit.Some? ==> |r| <= limit.value)
  {
    if limit.None? then items else CapAt(items, limit.value)
  }

  /** Nothing executable stays behind, and the rest respects the limit and can be paid for. */
  lemma RemainingMeaning(queue: Items, stateNonce: nat, pendingNonce: nat, dear: Tx -> bool, limit: Option<nat>)
    ensures var payable := Payable(queue, stateNonce, dear);
            var rest := Remaining(payable, pendingNonce, limit);
            && Part(rest, queue) && Next(payable, pendingNonce) !in rest
            && (limit.Some? ==> |rest| <= limit.value)
            && (forall n :: n in rest ==> n >= stateNonce && !dear(rest[n]))
  {
    var payable := Payable(queue, stateNonce, dear);
    forall n | n in payable
      ensures n >= stateNonce && !dear(payable[n])
    {
      assert n !in Matches(From(queue, stateNonce), dear);
    }
    assert Part(Remaining(payable, pendingNonce, limit), payable);
    NextIsMissing(payable, pendingNonce);
  }

  /** The lowest nonce of a list. */
  ghost predicate StartsAt(items: Items, lo: nat) {
    lo in items && forall k :: k in items ==> lo <= k
  }

  /** What is executable: an unbroken run of what is neither outdated nor too dear, if it starts no later than at the pending nonce. */
  lemma ExecutableExactly(queue: Items, stateNonce: nat, pendingNonce: nat, dear: Tx -> bool, n: nat)
    ensures var payable := Payable(queue, stateNonce, dear);
      && (n in payable <==> n in queue && n >= stateNonce && !dear(queue[n]))
      && (n in Executable(payable, pendingNonce) <==>
          exists lo: nat :: lo <= n && lo <= pendingNonce && StartsAt(payable, lo) && forall m: nat :: lo <= m <= n ==> m in payable)
  {
    var current, payable := From(queue, stateNonce), Payable(queue, stateNonce, dear);
    assert n in current ==> (n in Matches(current, dear).Keys <==> dear(current[n]));
    if payable != map[] {
      var lo := Least(payable.Keys);
      assert StartsAt(payable, lo);
      assert forall other: nat :: StartsAt(payable, other) ==> other == lo;
    }
  }

  /** What stays queued is the rest, or its lowest nonces up to the limit if that is more. */
  lemma RemainingExactly(payable: Items, pendingNonce: nat, limit: Option<nat>)
    ensures var whole := payable - Executable(payable, pendingNonce).Keys;
            var rest := Remaining(payable, pendingNonce, limit);
            && (limit.None? || |whole| <= limit.value ==> rest == whole)
            && (limit.Some? && |whole| > limit.value ==> |rest| == limit.value)
            && Part(rest, whole) && forall n, k :: n in rest && k in whole && k !in rest ==> n < k
  {
    var whole := payable - Executable(payable, pendingNonce).Keys;
    var rest := Remaining(payable, pendingNonce, limit);
    forall n, k | n in rest && k in whole && k !in rest
      ensures n < k
    {
      CapKeepsLowest(whole, limit.value, n, k);
    }
  }

  lemma NextIsMissing(payable: Items, pendingNonce: nat)
    ensures Next(payable, pendingNonce) !in payable - Executable(payable, pendingNonce).Keys
  {
    if payable != map[] && Least(payable.Keys) > pendingNonce {
      assert pendingNonce !in payable.Keys;
    }
  }

  /** Promotion extends the pending interval. */
  lemma PromotionContig(stateNonce: nat, pendingNonce: nat, pending: Items, queue: Items, dear: Tx -> bool,
      limit: Option<nat>)
    requires ContigOk(stateNonce, pendingNonce, pending, queue)
    ensures var payable := Payable(queue, stateNonce, dear);
            ContigOk(stateNonce, Next(payable, pendingNonce), pending + Executable(payable, pendingNonce), Remaining(payable, pendingNonce, limit))
  {
    var payable := Payable(queue, stateNonce, dear);
    RemainingMeaning(queue, stateNonce, pendingNonce, dear, limit);
    var rest := Remaining(payable, pendingNonce, limit);
    assert Part(rest, payable - Executable(payable, pendingNonce).Keys);
    if payable != map[] && Least(payable.Keys) <= pendingNonce {
      assert Least(payable.Keys) in payable && Least(payable.Keys) == pendingNonce;
      ExecutableIsInterval(payable, pendingNonce);
    }
  }

  lemma ExecutableIsInterval(payable: Items, p: nat)
    requires payable != map[] && Least(payable.Keys) == p
    ensures forall n: nat :: n in Executable(payable, p) <==> p <= n < Next(payable, p)
  {
  }

  /** The pending transactions that stay pending: none if the first one is missing. */
  function Staying(pending: Items, stateNonce: nat, dear: Tx -> bool): Items {
    var strict := Affordable(From(pending, stateNonce), dear);
    if stateNonce in strict then strict else map[]
  }

  /** A strictly filtered list: everything before the first transaction that is too dear. */
  function Affordable(pending: Items, dear: Tx -> bool): Items {
    if Matches(pending, dear) == map[] then pending else Below(pending, Least(Matches(pending, dear).Keys))
  }

  /** What a strict filter removes. */
  function Unpaid(pending: Items, dear: Tx -> bool): Items {
    if Matches(pending, dear) == map[] then map[]
    else
      var c := Least(Matches(pending, dear).Keys);
      map[c := pending[c]]
  }

  /** The pending transactions that go back to the queue. */
  function Demoted(pending: Items, stateNonce: nat, dear: Tx -> bool): Items {
    var current := From(pending, stateNonce);
    current - Unpaid(current, dear).Keys - Staying(pending, stateNonce, dear).Keys
  }

  /** What stays pending can be paid for and starts at the state's nonce. */
  lemma StayingMeaning(pending: Items, stateNonce: nat, dear: Tx -> bool)
    ensures var stay := Staying(pending, stateNonce, dear);
            && Part(stay, pending) && (stay == map[] || stateNonce in stay)
            && (forall n :: n in stay ==> n >= stateNonce && !dear(stay[n]))
  {
    var current := From(pending, stateNonce);
    forall n | n in Affordable(current, dear)
      ensures !dear(current[n])
    {
      assert n in Matches(current, dear).Keys <==> dear(current[n]);
    }
  }

  /** Exactly those stay pending that are current and have nobody too dear up to them, if the first one is there. */
  lemma StayingExactly(pending: Items, stateNonce: nat, dear: Tx -> bool, n: nat)
    ensures n in Staying(pending, stateNonce, dear) <==>
      && n in pending && n >= stateNonce && stateNonce in pending
      && forall m :: m in pending && stateNonce <= m <= n ==> !dear(pending[m])
  {
    var current := From(pending, stateNonce);
    var matches := Matches(current, dear);
    assert forall m :: m in matches.Keys <==> m in pending && m >= stateNonce && dear(pending[m]);
    if matches != map[] { assert Least(matches.Keys) in matches.Keys; }
  }

  /** Of the other current ones all are queued again but the first that is too dear. */
  lemma DemotedExactly(pending: Items, stateNonce: nat, dear: Tx -> bool, n: nat)
    ensures n in Demoted(pending, stateNonce, dear) <==>
      && n in pending && n >= stateNonce && n !in Staying(pending, stateNonce, dear)
      && !(dear(pending[n]) && forall m :: m in pending && stateNonce <= m < n ==> !dear(pending[m]))
  {
    var current := From(pending, stateNonce);
    var matches := Matches(current, dear);
    assert forall m :: m in matches.Keys <==> m in pending && m >= stateNonce && dear(pending[m]);
    if matches != map[] { assert Least(matches.Keys) in matches.Keys; }
  }

  /** Taking out a pending transaction cuts the interval there. */
  lemma RemovalContig(stateNonce: nat, pendingNonce: nat, pending: Items, queue: Items, nonce: nat)
    requires ContigOk(stateNonce, pendingNonce, pending, queue) && nonce in pending
    ensures nonce < pendingNonce && ContigOk(stateNonce, nonce, Below(pending, nonce), queue + From(pending, nonce + 1))
  {
  }

  /** A shorter queue is still contiguous. */
  lemma ShorterQueueContig(stateNonce: nat, pendingNonce: nat, pending: Items, queue: Items, shorter: Items)
    requires ContigOk(stateNonce, pendingNonce, pending, queue) && Part(shorter, queue)
    ensures ContigOk(stateNonce, pendingNonce, pending, shorter)
  {
  }

  /** Everything between a nonce and an entry is there as well. */
  ghost predicate Gapless(items: Items, lo: nat) {
    forall n: nat, m {:trigger n in items, m in items} :: m in items && lo <= n <= m ==> n in items
  }

  /** The nonce after the last one of a list that starts at `lo`. */
  function AfterLast(items: Items, lo: nat): nat {
    if items == map[] then lo else Greatest(items.Keys) + 1
  }

  /** Whatever the lists were before, demotion leaves an account contiguous exactly if what stays pending has no gap. */
  lemma DemotionContigIff(stateNonce: nat, pending: Items, queue: Items, dear: Tx -> bool)
    requires pending.Keys !! queue.Keys
    ensures var stay := Staying(pending, stateNonce, dear);
            ContigOk(stateNonce, AfterLast(stay, stateNonce), stay, queue + Demoted(pending, stateNonce, dear)) <==> Gapless(stay, stateNonce)
  {
    var stay := Staying(pending, stateNonce, dear);
    var longer := queue + Demoted(pending, stateNonce, dear);
    StayingMeaning(pending, stateNonce, dear);
    if stay != map[] {
      var top := Greatest(stay.Keys);
      assert top in stay;
      if Gapless(stay, stateNonce) {
        assert forall n: nat :: n in stay <==> stateNonce <= n <= top;
        assert forall n :: n in longer ==> n !in stay;
      } else {
        var n: nat, m :| m in stay && stateNonce <= n <= m && n !in stay;
        assert m in stay.Keys && n < top + 1;
      }
    }
  }

  /** What a strict filter leaves of an interval is an interval. */
  lemma IntervalGapless(items: Items, lo: nat, hi: nat, dear: Tx -> bool)
    requires forall n: nat :: n in items <==> lo <= n < hi
    ensures Gapless(Affordable(items, dear), lo)
  {
  }

  /** The run that is promoted: payable, and an interval from the nonce it starts at. */
  lemma RunShape(queue: Items, now: nat, dear: Tx -> bool)
    ensures var payable := Payable(queue, now, dear);
            var run := Executable(payable, now);
            && Next(payable, now) >= now && (forall n: nat :: n in run <==> now <= n < Next(payable, now))
            && (forall n :: n in run ==> n in queue && run[n] == queue[n] && !dear(run[n]))
            && Next(payable, now) !in payable
  {
    var payable := Payable(queue, now, dear);
    forall n | n in payable
      ensures n >= now && !dear(payable[n])
    {
      assert n !in Matches(From(queue, now), dear);
    }
    if payable != map[] && Least(payable.Keys) <= now {
      assert Least(payable.Keys) in payable && Least(payable.Keys) == now;
      ExecutableIsInterval(payable, now);
    } else {
      NextIsMissing(payable, now);
      assert payable - {} == payable;
    }
  }

  /** A run that stops short of what was pending leaves a gap exactly if the first of that can be paid for. */
  lemma ShortRun(was: nat, upTo: nat, pending: Items, run: Items, now: nat, end: nat, dear: Tx -> bool)
    requires now < end < was < upTo && (forall n: nat :: n in pending <==> was <= n < upTo)
    requires (forall n: nat :: n in run <==> now <= n < end) && forall n :: n in run ==> !dear(run[n])
    ensures Gapless(Staying(pending + run, now, dear), now) <==> dear(pending[was])
  {
    var current := From(pending + run, now);
    assert current == pending + run;
    var stay := Staying(pending + run, now, dear);
    if Matches(current, dear) == map[] {
      assert was !in Matches(current, dear);
      assert was in stay && end !in stay;
    } else {
      var c := Least(Matches(current, dear).Keys);
      assert c in Matches(current, dear);
      assert dear(pending[was]) ==> was in Matches(current, dear).Keys;
      if c > was {
        assert was !in Matches(current, dear) && was in stay && end !in stay;
      } else {
        assert c == was;
        assert stay == run;
      }
    }
  }

  /**
   A run from the new state nonce `now` is promoted in front of what was pending from `was`
   on. What stays pending has a gap exactly if the run stops short of a transaction
   that was pending and can still be paid for.
   */
  lemma ReinjectionGap(was: nat, upTo: nat, pending: Items, queue: Items, now: nat, dear: Tx -> bool)
    requires was <= upTo && (forall n: nat :: n in pending <==> was <= n < upTo) && pending.Keys !! queue.Keys
    ensures var payable := Payable(queue, now, dear);
            var end := Next(payable, now);
            Gapless(Staying(pending + Executable(payable, now), now, dear), now) <==> !(now < end < was < upTo && !dear(pending[was]))
  {
    var payable := Payable(queue, now, dear);
    var run := Executable(payable, now);
    var end := Next(payable, now);
    var whole := pending + run;
    RunShape(queue, now, dear);
    if now == end {
      assert whole == pending;
      IntervalGapless(From(pending, now), if now < was then was else now, upTo, dear);
    } else if was == upTo || now >= upTo {
      assert forall n: nat :: n in From(whole, now) <==> now <= n < end;
      IntervalGapless(From(whole, now), now, end, dear);
    } else {
      assert now in run && now in queue.Keys && was in pending.Keys && was !in queue.Keys && was !in run;
      assert now < was && end <= was;
      if end == was {
        assert forall n: nat :: n in From(whole, now) <==> now <= n < upTo;
        IntervalGapless(From(whole, now), now, upTo, dear);
      } else {
        ShortRun(was, upTo, pending, run, now, end, dear);
      }
    }
  }

  /** A run of one transaction. */
  lemma RunOfOne(tx: Tx, dear: Tx -> bool)
    requires !dear(tx)
    ensures var payable := Payable(map[tx.nonce := tx], tx.nonce, dear);
            Executable(payable, tx.nonce) == map[tx.nonce := tx] && Next(payable, tx.nonce) == tx.nonce + 1
  {
    var n, queue := tx.nonce, map[tx.nonce := tx];
    var payable := Payable(queue, n, dear);
    assert n !in Matches(From(queue, n), dear) && n in payable;
    RunShape(queue, n, dear);
    assert n + 1 !in queue && n + 1 !in Executable(payable, n);
    assert Next(payable, n) == n + 1;
  }

  /** No later promotion fills a gap that a reinjected run has left: the nonce where it stopped is missing or too dear. */
  lemma GapStays(was: nat, upTo: nat, pending: Items, queue: Items, now: nat, dear: Tx -> bool, rest: Items, pendingNonce: nat)
    requires (forall n: nat :: n in pending <==> was <= n < upTo) && pending.Keys !! queue.Keys && Part(rest, queue)
    requires now < Next(Payable(queue, now, dear), now) < was < upTo && !dear(pending[was])
    ensures var end := Next(Payable(queue, now, dear), now);
            var longer := pending + Executable(Payable(queue, now, dear), now);
            var stay := Staying(longer, now, dear);
            var more := Executable(Payable(rest + Demoted(longer, now, dear), now, dear), pendingNonce);
            && was in stay && end !in stay && end !in more
  {
    var payable := Payable(queue, now, dear);
    var run, end := Executable(payable, now), Next(payable, now);
    var longer := pending + run;
    RunShape(queue, now, dear);
    FirstStays(was, upTo, pending, run, now, end, dear);
    StayingMeaning(longer, now, dear);
    var again := rest + Demoted(longer, now, dear);
    assert end !in longer && end !in Demoted(longer, now, dear);
    if end in again {
      assert again[end] == queue[end] && end in From(queue, now);
      assert end in Matches(From(queue, now), dear);
      assert end in Matches(From(again, now), dear);
    }
    assert end !in Payable(again, now, dear);
  }

  /** The first pending transaction behind a run stays, as long as it can be paid for. */
  lemma FirstStays(was: nat, upTo: nat, pending: Items, run: Items, now: nat, end: nat, dear: Tx -> bool)
    requires now < end < was < upTo && (forall n: nat :: n in pending <==> was <= n < upTo) && !dear(pending[was])
    requires (forall n: nat :: n in run <==> now <= n < end) && forall n :: n in run ==> !dear(run[n])
    ensures was in Staying(pending + run, now, dear)
  {
    var current := From(pending + run, now);
    assert current == pending + run;
    if Matches(current, dear) != map[] {
      var c := Least(Matches(current, dear).Keys);
      assert c in Matches(current, dear) && c != was;
    }
  }
}
