/**
 `TxPool`: pending and queued transactions by account, the set of all of them, and
 the nonces of the pending state.
 */
module TxPool {
  import opened Basics
  import opened NonceOrder
  import opened ListSteps
  import opened PoolAccounts
  import opened PoolSteps
  import TxList
  import opened TxSortedMap

  /** What the pool asks of the chain state. */
  datatype State = State(nonce: nat -> nat, balance: nat -> nat)

  datatype Error =
    | KnownTransaction
    | OversizedData
    | NegativeValue
    | GasLimit
    | InvalidSender
    | Underpriced
    | NonceTooLow
    | InsufficientFunds
    | OutOfGas
    | IntrinsicGas
    | PoolLimit
    | ReplaceUnderpriced

  /** Where a check comes in the validation of a transaction. */
  function Turn(e: Error): nat {
    match e
    case OversizedData => 0
    case NegativeValue => 1
    case GasLimit => 2
    case InvalidSender => 3
    case Underpriced => 4
    case NonceTooLow => 5
    case InsufficientFunds => 6
    case OutOfGas => 7
    case IntrinsicGas => 8
    case _ => 9
  }

  /** What the pool needs to know of how a transaction is written down; no intrinsic gas if it does not fit 64 bits. */
  datatype Form = Form(size: nat, negative: bool, signed: bool, intrinsic: Option<nat>)

  const MAX_SIZE: nat := 32 * 1024

  /** What new transactions are checked against. */
  datatype Rules = Rules(state: State, maxGas: nat, gasPrice: nat, locals: set<nat>)

  /** Whether a transaction fails one of the checks; the other errors are not checks. */
  predicate Fails(rules: Rules, e: Error, tx: Tx, form: Form, local: bool) {
    match e
    case OversizedData => form.size > MAX_SIZE
    case NegativeValue => form.negative
    case GasLimit => tx.gas > rules.maxGas
    case InvalidSender => !form.signed
    case Underpriced => tx.price < rules.gasPrice && !local && tx.from !in rules.locals
    case NonceTooLow => tx.nonce < rules.state.nonce(tx.from)
    case InsufficientFunds => rules.state.balance(tx.from) < tx.Cost()
    case OutOfGas => form.intrinsic.None?
    case IntrinsicGas => form.intrinsic.Some? && tx.gas < form.intrinsic.value
    case _ => false
  }

  ghost predicate Passes(rules: Rules, tx: Tx, form: Form, local: bool) {
    forall e :: !Fails(rules, e, tx, form, local)
  }

  /** It fails this check, and none that comes before. */
  ghost predicate FirstFailed(rules: Rules, error: Error, tx: Tx, form: Form, local: bool) {
    Fails(rules, error, tx, form, local) && forall e :: Fails(rules, e, tx, form, local) ==> Turn(error) <= Turn(e)
  }

  datatype Result = Added(replaced: bool) | Rejected(error: Error)

  datatype Config = Config(priceBump: nat, accountQueue: nat, globalSlots: nat, globalQueue: nat)

  /** The pending state's nonce of an account. */
  function NonceIn(state: State, nonces: map<nat, nat>, a: nat): nat {
    if a in nonces then nonces[a] else state.nonce(a)
  }

  /** Only one account's pending nonce changes. */
  ghost predicate OthersKeep(state: State, nonces: map<nat, nat>, nonces': map<nat, nat>, a: nat) {
    forall b :: b != a ==> NonceIn(state, nonces', b) == NonceIn(state, nonces, b)
  }

  /** How late an account was last active: an account without a record comes before all others. */
  function BeatOf(beats: map<nat, nat>, a: nat): nat {
    if a in beats then beats[a] + 1 else 0
  }

  /** The heartbeats once transactions of an account have been promoted, if there were any. */
  function Heard(beats: map<nat, nat>, promoted: Items, a: nat, now: nat): map<nat, nat> {
    if promoted == map[] then beats else beats[a := now]
  }

  /** An account has been idle for too long; one without a record always has. */
  predicate Idle(beats: map<nat, nat>, a: nat, now: nat, lifetime: nat) {
    a in beats ==> now > beats[a] + lifetime
  }

  ghost predicate ContigAt(state: State, nonces: map<nat, nat>, pending: Lists, queue: Lists, a: nat) {
    ContigOk(state.nonce(a), NonceIn(state, nonces, a), Get(pending, a), Get(queue, a))
  }

  ghost predicate AllContig(state: State, nonces: map<nat, nat>, pending: Lists, queue: Lists) {
    forall a {:trigger ContigAt(state, nonces, pending, queue, a)} :: ContigAt(state, nonces, pending, queue, a)
  }

  /** A change to one account that leaves it contiguous leaves all accounts contiguous. */
  lemma OneContig(state: State, nonces: map<nat, nat>, pending: Lists, queue: Lists, a: nat, nonces': map<nat, nat>,
      p: Items, q: Items)
    requires AllContig(state, nonces, pending, queue)
    requires ContigOk(state.nonce(a), NonceIn(state, nonces', a), p, q)
    requires OthersKeep(state, nonces, nonces', a)
    ensures AllContig(state, nonces', Put(pending, a, p), Put(queue, a, q))
  {
    var pending', queue' := Put(pending, a, p), Put(queue, a, q);
    forall b
      ensures ContigAt(state, nonces', pending', queue', b)
    {
      assert ContigAt(state, nonces, pending, queue, b);
    }
  }

  /** The pool's three views of its transactions. */
  datatype Views = Views(pending: Lists, queue: Lists, all: set<Tx>)

  /** What becomes of the views when a transaction is put in: it takes the place of the holder of its nonce if it outbids that one. */
  ghost function Inserted(tx: Tx, bump: nat, v: Views): (Result, Views) {
    var p, q := Get(v.pending, tx.from), Get(v.queue, tx.from);
    if tx.nonce in p then
      if TxList.Outbids(tx, p[tx.nonce], bump) then
        (Added(true), v.(pending := Put(v.pending, tx.from, p[tx.nonce := tx]), all := v.all - {p[tx.nonce]} + {tx}))
      else (Rejected(ReplaceUnderpriced), v)
    else if tx.nonce in q then
      if TxList.Outbids(tx, q[tx.nonce], bump) then
        (Added(true), v.(queue := Put(v.queue, tx.from, q[tx.nonce := tx]), all := v.all - {q[tx.nonce]} + {tx}))
      else (Rejected(ReplaceUnderpriced), v)
    else (Added(false), v.(queue := Put(v.queue, tx.from, q[tx.nonce := tx]), all := v.all + {tx}))
  }

  lemma InsertedOnly(tx: Tx, bump: nat, v: Views)
    ensures Inserted(tx, bump, v).1.all <= v.all + {tx}
  {
  }

  /**
   What becomes of the views when a pooled transaction is taken out: pending ones after
   it are queued again.
   */
  ghost function Removed(tx: Tx, v: Views): Views {
    var p, q := Get(v.pending, tx.from), Get(v.queue, tx.from);
    if In(p, tx) then
      Views(Put(v.pending, tx.from, Below(p, tx.nonce)), Put(v.queue, tx.from, q + From(p, tx.nonce + 1)), v.all - {tx})
    else v.(queue := Put(v.queue, tx.from, q - {tx.nonce}), all := v.all - {tx})
  }

  /** The transaction that holds a nonce of an account, pending or queued. */
  ghost function Holder(v: Views, a: nat, n: nat): Option<Tx> {
    if n in Get(v.pending, a) then Some(Get(v.pending, a)[n]) else if n in Get(v.queue, a) then Some(Get(v.queue, a)[n]) else None
  }

  /** Putting in: the nonce changes hands if it was free or its holder is outbid; the new holder is pending if the old one was; nothing else changes. */
  lemma InsertedMeaning(tx: Tx, bump: nat, v: Views, a: nat, n: nat)
    ensures var (r, v') := Inserted(tx, bump, v);
      var holder := Holder(v, tx.from, tx.nonce);
      && (r.Rejected? <==> holder.Some? && !TxList.Outbids(tx, holder.value, bump)) && (r.Rejected? ==> v' == v)
      && (r.Added? ==> (r.replaced <==> holder.Some?) && v'.all == v.all - (if holder.Some? then {holder.value} else {}) + {tx})
      && Holder(v', a, n) == (if r.Added? && a == tx.from && n == tx.nonce then Some(tx) else Holder(v, a, n))
      && (n in Get(v'.pending, a) <==> n in Get(v.pending, a))
  {
  }

  /** Taking out: the nonce becomes free, and what was pending after it is queued; nothing else changes. */
  lemma RemovedMeaning(tx: Tx, v: Views, a: nat, n: nat)
    requires PoolOk(v.all, v.pending, v.queue) && tx in v.all
    ensures var v' := Removed(tx, v);
      && Holder(v', a, n) == (if a == tx.from && n == tx.nonce then None else Holder(v, a, n)) && v'.all == v.all - {tx}
      && (n in Get(v'.pending, a) <==> n in Get(v.pending, a) && !(a == tx.from && tx.nonce in Get(v.pending, a) && n >= tx.nonce))
  {
    assert AccountOk(v.all, tx.from, Get(v.pending, tx.from), Get(v.queue, tx.from));
  }

  /** A transaction that the pool does not have, that passes the checks and for which there is room. */
  ghost predicate Admits(rules: Rules, limit: nat, v: Views, tx: Tx, form: Form, local: bool) {
    tx !in v.all && Passes(rules, tx, form, local) && |v.all| < limit
  }

  /**
   What the pool answers: a transaction gets as far as its nonce's holder exactly if it is admitted; otherwise the
   error is that it is known, the first check it fails, or that there is no room.
   */
  ghost predicate Judged(rules: Rules, limit: nat, bump: nat, v: Views, tx: Tx, form: Form, local: bool, r: Result) {
    && (r.Added? || r == Rejected(ReplaceUnderpriced) <==> Admits(rules, limit, v, tx, form, local))
    && (r.Added? || r == Rejected(ReplaceUnderpriced) ==> r == Inserted(tx, bump, v).0)
    && (r == Rejected(KnownTransaction) <==> tx in v.all)
    && (r == Rejected(PoolLimit) <==> tx !in v.all && Passes(rules, tx, form, local) && |v.all| >= limit)
    && (tx !in v.all && !Passes(rules, tx, form, local) ==> r.Rejected? && FirstFailed(rules, r.error, tx, form, local))
  }

  /** The pool once transactions have been added one by one, the accounts that have more of them now, and whether all were accepted. */
  datatype Readded = Readded(views: Views, dirty: set<nat>, accepted: bool)

  ghost function AddedNext(rules: Rules, limit: nat, bump: nat, so: Readded, tx: Tx, form: Form): Readded {
    if Admits(rules, limit, so.views, tx, form, false) then
      var (r, v) := Inserted(tx, bump, so.views);
      Readded(v, if r == Added(false) then so.dirty + {tx.from} else so.dirty, so.accepted && r.Added?)
    else so.(accepted := false)
  }

  ghost function AddedAll(rules: Rules, limit: nat, bump: nat, v: Views, txs: seq<Tx>, forms: Tx -> Form): Readded
    decreases |txs|
  {
    if txs == [] then Readded(v, {}, true)
    else
      var tx := txs[|txs| - 1];
      AddedNext(rules, limit, bump, AddedAll(rules, limit, bump, v, txs[..|txs| - 1], forms), tx, forms(tx))
  }

  /** Promoting one account's transactions keeps every account contiguous. */
  lemma PromotionAllContig(state: State, nonces: map<nat, nat>, nonces': map<nat, nat>, pending: Lists, queue: Lists,
      a: nat, dear: Tx -> bool, limit: Option<nat>)
    requires AllContig(state, nonces, pending, queue) && OthersKeep(state, nonces, nonces', a)
    requires NonceIn(state, nonces', a) == Next(Payable(Get(queue, a), state.nonce(a), dear), NonceIn(state, nonces, a))
    ensures var payable := Payable(Get(queue, a), state.nonce(a), dear);
            AllContig(state, nonces', Put(pending, a, Get(pending, a) + Executable(payable, NonceIn(state, nonces, a))),
                      Put(queue, a, Remaining(payable, NonceIn(state, nonces, a), limit)))
  {
    assert ContigAt(state, nonces, pending, queue, a);
    PromotionContig(state.nonce(a), NonceIn(state, nonces, a), Get(pending, a), Get(queue, a), dear, limit);
    var payable := Payable(Get(queue, a), state.nonce(a), dear);
    OneContig(state, nonces, pending, queue, a, nonces', Get(pending, a) + Executable(payable, NonceIn(state, nonces, a)),
              Remaining(payable, NonceIn(state, nonces, a), limit));
  }

  /** How many transactions an account may queue; local ones may without limit. */
  function LimitFor(locals: set<nat>, most: nat, a: nat): Option<nat> {
    if a in locals then None else Some(most)
  }

  /** What a change to one account's lists has to show for the whole pool to stay in order. */
  ghost predicate Kept(state: State, all: set<Tx>, pending: Lists, queue: Lists, nonces: map<nat, nat>,
      all': set<Tx>, pending': Lists, queue': Lists, nonces': map<nat, nat>)
  {
    && PoolOk(all', pending', queue')
    && (AllContig(state, nonces, pending, queue) ==> AllContig(state, nonces', pending', queue'))
  }

  lemma ReplaceKeeps(state: State, all: set<Tx>, pending: Lists, queue: Lists, nonces: map<nat, nat>, tx: Tx)
    requires PoolOk(all, pending, queue) && tx !in all && tx.nonce in Get(pending, tx.from)
    ensures var p := Get(pending, tx.from);
            && |all - {p[tx.nonce]} + {tx}| <= |all| + 1
            && Kept(state, all, pending, queue, nonces, all - {p[tx.nonce]} + {tx}, Put(pending, tx.from, p[tx.nonce := tx]), queue, nonces)
  {
    var p, q := Get(pending, tx.from), Get(queue, tx.from);
    assert AccountOk(all, tx.from, p, q);
    Replace(all, p, q, tx);
    OneAccount(all, pending, queue, tx.from, all - {p[tx.nonce]} + {tx}, p[tx.nonce := tx], q);
    SameList(queue, tx.from);
    if AllContig(state, nonces, pending, queue) {
      assert ContigAt(state, nonces, pending, queue, tx.from);
      OneContig(state, nonces, pending, queue, tx.from, nonces, p[tx.nonce := tx], q);
    }
  }

  lemma EnterKeeps(state: State, all: set<Tx>, pending: Lists, queue: Lists, nonces: map<nat, nat>, tx: Tx)
    requires PoolOk(all, pending, queue) && tx !in all && tx.nonce !in Get(pending, tx.from) && state.nonce(tx.from) <= tx.nonce
    ensures var q := Get(queue, tx.from);
            var all' := if tx.nonce in q then all - {q[tx.nonce]} + {tx} else all + {tx};
            && |all'| <= |all| + 1
            && Kept(state, all, pending, queue, nonces, all', pending, Put(queue, tx.from, q[tx.nonce := tx]), nonces)
  {
    var p, q := Get(pending, tx.from), Get(queue, tx.from);
    assert AccountOk(all, tx.from, p, q);
    Enter(all, p, q, tx);
    assert all - {} + {tx} == all + {tx};
    OneAccount(all, pending, queue, tx.from, if tx.nonce in q then all - {q[tx.nonce]} + {tx} else all + {tx}, p, q[tx.nonce := tx]);
    SameList(pending, tx.from);
    if AllContig(state, nonces, pending, queue) {
      assert ContigAt(state, nonces, pending, queue, tx.from);
      OneContig(state, nonces, pending, queue, tx.from, nonces, p, q[tx.nonce := tx]);
    }
  }

  lemma RemovalViews(tx: Tx, v: Views)
    requires In(Get(v.pending, tx.from), tx)
    ensures var p, q := Get(v.pending, tx.from), Get(v.queue, tx.from);
      && Removed(tx, v) == Views(Put(v.pending, tx.from, Below(p, tx.nonce)), Put(v.queue, tx.from, q + From(p, tx.nonce + 1)), v.all - {tx})
      && Get(Removed(tx, v).pending, tx.from) == Below(p, tx.nonce)
  {
  }

  lemma RemovalKeeps(state: State, all: set<Tx>, pending: Lists, queue: Lists, nonces: map<nat, nat>, tx: Tx,
      nonces': map<nat, nat>)
    requires PoolOk(all, pending, queue) && In(Get(pending, tx.from), tx)
    requires nonces' == if NonceIn(state, nonces, tx.from) > tx.nonce then nonces[tx.from := tx.nonce] else nonces
    ensures var p, q := Get(pending, tx.from), Get(queue, tx.from);
            Kept(state, all, pending, queue, nonces, all - {tx}, Put(pending, tx.from, Below(p, tx.nonce)),
                 Put(queue, tx.from, q + From(p, tx.nonce + 1)), nonces')
  {
    var a := tx.from;
    var p, q := Get(pending, a), Get(queue, a);
    assert AccountOk(all, a, p, q);
    DropOnePending(all, p, q, tx);
    var kept, longer := Below(p, tx.nonce), q + From(p, tx.nonce + 1);
    OneAccount(all, pending, queue, a, all - {tx}, kept, longer);
    if AllContig(state, nonces, pending, queue) {
      assert ContigAt(state, nonces, pending, queue, a);
      RemovalContig(state.nonce(a), NonceIn(state, nonces, a), p, q, tx.nonce);
      OneContig(state, nonces, pending, queue, a, nonces', kept, longer);
    }
  }

  lemma ShrinkKeeps(state: State, all: set<Tx>, pending: Lists, queue: Lists, nonces: map<nat, nat>, a: nat,
      kept: Items)
    requires PoolOk(all, pending, queue) && Part(kept, Get(queue, a))
    ensures Kept(state, all, pending, queue, nonces, all - (Get(queue, a) - kept.Keys).Values, pending, Put(queue, a, kept), nonces)
  {
    var p, q := Get(pending, a), Get(queue, a);
    var gone := q - kept.Keys;
    assert AccountOk(all, a, p, q);
    Complement(q, kept);
    DropQueued(all, a, p, q, gone);
    OneAccount(all, pending, queue, a, all - gone.Values, p, kept);
    SameList(pending, a);
    if AllContig(state, nonces, pending, queue) {
      assert ContigAt(state, nonces, pending, queue, a);
      ShorterQueueContig(state.nonce(a), NonceIn(state, nonces, a), p, q, kept);
      OneContig(state, nonces, pending, queue, a, nonces, p, kept);
    }
  }

  lemma OneOut(all: set<Tx>, a: nat, p: Items, q: Items, n: nat)
    requires AccountOk(all, a, p, q) && n in p
    ensures AccountOk(all - {p[n]}, a, p - {n}, q) && OnlyOf(all, all - {p[n]}, a)
  {
  }

  /** A cut splits a list into what is below, the entry itself, and what is above. */
  lemma CutParts(p: Items, cut: nat)
    requires cut in p
    ensures p - {cut} - From(p, cut + 1).Keys == Below(p, cut) && Part(From(p, cut + 1), p - {cut})
    ensures p - {cut} - Below(p, cut).Keys == From(p, cut + 1)
  {
  }

  /** What a demotion queues, with and without a gap in front. */
  lemma DemotedParts(p: Items, q: Items, nonce: nat, dear: Tx -> bool)
    ensures var current := From(p, nonce);
            var stay := Affordable(current, dear);
            var invalid := current - Unpaid(current, dear).Keys - stay.Keys;
            && (nonce in stay || stay == map[] ==> q + invalid == q + Demoted(p, nonce, dear))
            && (nonce !in stay ==> q + invalid + stay == q + Demoted(p, nonce, dear))
  {
    var current := From(p, nonce);
    var stay := Affordable(current, dear);
    assert Part(stay, current);
    assert stay.Keys !! Unpaid(current, dear).Keys;
  }

  /** Both lists of an account after its demotion. */
  ghost function DemotedLists(pending: Lists, queue: Lists, a: nat, nonce: nat, dear: Tx -> bool): (Lists, Lists) {
    var p := Get(pending, a);
    (Put(pending, a, Staying(p, nonce, dear)), Put(queue, a, Get(queue, a) + Demoted(p, nonce, dear)))
  }

  /** The account's lists are what a demotion makes of them. */
  ghost predicate DemotedAt(state: State, maxGas: nat, pending: Lists, queue: Lists, pending': Lists, queue': Lists,
      a: nat) {
    var dear := TxList.TooDear(state.balance(a), maxGas);
    && Get(pending', a) == Staying(Get(pending, a), state.nonce(a), dear)
    && Get(queue', a) == Get(queue, a) + Demoted(Get(pending, a), state.nonce(a), dear)
  }

  ghost predicate AllDemoted(state: State, maxGas: nat, pending: Lists, queue: Lists, pending': Lists, queue': Lists) {
    forall a {:trigger DemotedAt(state, maxGas, pending, queue, pending', queue', a)} :: DemotedAt(state, maxGas, pending, queue, pending', queue', a)
  }

  /** Accounts without pending transactions have nothing to demote. */
  lemma NobodyElse(state: State, maxGas: nat, pending: Lists, queue: Lists)
    ensures forall a {:trigger DemotedAt(state, maxGas, pending, queue, pending, queue, a)} ::
      a !in pending ==> DemotedAt(state, maxGas, pending, queue, pending, queue, a)
  {
    forall a | a !in pending
      ensures DemotedAt(state, maxGas, pending, queue, pending, queue, a)
    {
      assert Get(queue, a) + map[] == Get(queue, a);
    }
  }

  /** Of the accounts with pending transactions, `rest` have not been demoted yet. */
  ghost predicate Falling(rules: Rules, was: Stage, at: Stage, rest: set<nat>) {
    && (forall a {:trigger DemotedAt(rules.state, rules.maxGas, was.pending, was.queue, at.pending, at.queue, a)} ::
          a !in rest ==> DemotedAt(rules.state, rules.maxGas, was.pending, was.queue, at.pending, at.queue, a))
    && (forall a :: a in rest ==> a in was.pending && Get(at.pending, a) == Get(was.pending, a) && Get(at.queue, a) == Get(was.queue, a))
    && at.beats == was.beats - (was.pending.Keys - at.pending.Keys)
  }

  /** One more account has been demoted. */
  lemma OneDemoted(state: State, maxGas: nat, pending0: Lists, queue0: Lists, pending: Lists, queue: Lists,
      pending': Lists, queue': Lists, rest: set<nat>, a: nat)
    requires a in rest && Get(pending, a) == Get(pending0, a) && Get(queue, a) == Get(queue0, a)
    requires forall b {:trigger DemotedAt(state, maxGas, pending0, queue0, pending, queue, b)} ::
      b !in rest ==> DemotedAt(state, maxGas, pending0, queue0, pending, queue, b)
    requires (pending', queue') == DemotedLists(pending, queue, a, state.nonce(a), TxList.TooDear(state.balance(a), maxGas))
    ensures forall b {:trigger DemotedAt(state, maxGas, pending0, queue0, pending', queue', b)} ::
      b !in rest - {a} ==> DemotedAt(state, maxGas, pending0, queue0, pending', queue', b)
  {
    forall b | b !in rest - {a}
      ensures DemotedAt(state, maxGas, pending0, queue0, pending', queue', b)
    {
      if b != a { assert DemotedAt(state, maxGas, pending0, queue0, pending, queue, b); }
    }
  }

  lemma FallingOn(rules: Rules, was: Stage, at: Stage, next: Stage, rest: set<nat>, dear: Tx -> bool, a: nat)
    requires Falling(rules, was, at, rest) && a in rest && rest <= at.pending.Keys
    requires dear == TxList.TooDear(rules.state.balance(a), rules.maxGas)
    requires (next.pending, next.queue) == DemotedLists(at.pending, at.queue, a, rules.state.nonce(a), dear)
    requires next.beats == if Get(next.pending, a) == map[] then at.beats - {a} else at.beats
    ensures rest - {a} <= next.pending.Keys && Falling(rules, was, next, rest - {a})
  {
    OneDemoted(rules.state, rules.maxGas, was.pending, was.queue, at.pending, at.queue, next.pending, next.queue, rest, a);
    OnlyItGoes(at.pending, a, Staying(Get(at.pending, a), rules.state.nonce(a), dear));
    FewerHeard(was.beats, was.pending.Keys, at.pending.Keys, a);
  }

  lemma OnlyItGoes(lists: Lists, a: nat, items: Items)
    requires a in lists
    ensures Put(lists, a, items).Keys == if items == map[] then lists.Keys - {a} else lists.Keys
    ensures Get(Put(lists, a, items), a) == items && forall b :: b != a ==> Get(Put(lists, a, items), b) == Get(lists, b)
  {
  }

  lemma FewerHeard(beats: map<nat, nat>, was: set<nat>, at: set<nat>, a: nat)
    requires a in was
    ensures beats - (was - at) - {a} == beats - (was - (at - {a}))
  {
  }

  /** The nonces after the last pending transactions. */
  function NoncesAfter(pending: Lists): map<nat, nat>
    requires NoneEmpty(pending)
  {
    map a | a in pending :: Greatest(pending[a].Keys) + 1
  }

  /** No executable transaction of the account is queued. */
  ghost predicate Settled(state: State, nonces: map<nat, nat>, queue: Lists, a: nat) {
    NonceIn(state, nonces, a) !in Get(queue, a)
  }

  lemma SettledStays(state: State, nonces: map<nat, nat>, was: Lists, before: Lists, queue: Lists, locals: set<nat>,
      accounts: set<nat>)
    requires Shrunk(was, before, {}) && Shrunk(before, queue, locals)
    requires forall a :: a in accounts ==> Settled(state, nonces, before, a)
    ensures forall a :: a in accounts ==> Settled(state, nonces, queue, a)
    ensures Shrunk(was, queue, {})
  {
    forall a
      ensures Part(Get(queue, a), Get(before, a)) && Part(Get(before, a), Get(was, a))
    {
    }
    forall a | a in accounts
      ensures Settled(state, nonces, queue, a)
    {
      assert Settled(state, nonces, before, a) && Part(Get(queue, a), Get(before, a));
    }
  }

  /** Where an account's nonce goes back, the transactions that have to be executed again are among those given. */
  ghost predicate Covers(txs: seq<Tx>, state: State, state': State) {
    forall a, n: nat {:trigger Has(txs, a, n)} :: state'.nonce(a) <= n < state.nonce(a) ==> Has(txs, a, n)
  }

  ghost predicate Has(txs: seq<Tx>, a: nat, n: nat) {
    exists i :: 0 <= i < |txs| && txs[i].from == a && txs[i].nonce == n
  }

  /** A transaction's place is taken by one that can be executed: a pending one, or a queued one that can be paid for. */
  ghost predicate Placed(state: State, maxGas: nat, v: Views, tx: Tx) {
    var q := Get(v.queue, tx.from);
    tx.nonce in Get(v.pending, tx.from) || (tx.nonce in q && !TxList.TooDear(state.balance(tx.from), maxGas)(q[tx.nonce]))
  }

  ghost predicate AllPlaced(state: State, maxGas: nat, v: Views, txs: seq<Tx>) {
    forall i :: 0 <= i < |txs| ==> Placed(state, maxGas, v, txs[i])
  }

  ghost predicate SameKeys(was: Lists, now: Lists) {
    forall a :: Get(now, a).Keys == Get(was, a).Keys
  }

  /** Putting in a transaction that can be paid for keeps the pending nonces and all places. */
  lemma InsertedPlaces(state: State, maxGas: nat, tx: Tx, bump: nat, v: Views)
    requires Inserted(tx, bump, v).0.Added? && !TxList.TooDear(state.balance(tx.from), maxGas)(tx)
    ensures var v' := Inserted(tx, bump, v).1;
            && SameKeys(v.pending, v'.pending) && Placed(state, maxGas, v', tx)
            && forall other :: Placed(state, maxGas, v, other) ==> Placed(state, maxGas, v', other)
  {
  }

  /** Adding transactions keeps the pending nonces, and takes the place of each if all are accepted. */
  lemma {:induction false} AddedAllPlaces(rules: Rules, limit: nat, bump: nat, v: Views, txs: seq<Tx>, forms: Tx -> Form)
    ensures var added := AddedAll(rules, limit, bump, v, txs, forms);
            && SameKeys(v.pending, added.views.pending)
            && (added.accepted ==> AllPlaced(rules.state, rules.maxGas, added.views, txs))
    decreases |txs|
  {
    if txs == [] {
    } else {
      var front, tx := txs[..|txs| - 1], txs[|txs| - 1];
      AddedAllPlaces(rules, limit, bump, v, front, forms);
      AddedNextPlaces(rules, limit, bump, AddedAll(rules, limit, bump, v, front, forms), front, tx, forms(tx));
      assert txs == front + [tx];
    }
  }

  lemma AddedNextPlaces(rules: Rules, limit: nat, bump: nat, so: Readded, txs: seq<Tx>, tx: Tx, form: Form)
    requires so.accepted ==> AllPlaced(rules.state, rules.maxGas, so.views, txs)
    ensures var added := AddedNext(rules, limit, bump, so, tx, form);
            && SameKeys(so.views.pending, added.views.pending)
            && (added.accepted ==> AllPlaced(rules.state, rules.maxGas, added.views, txs + [tx]))
  {
    if Admits(rules, limit, so.views, tx, form, false) {
      assert !Fails(rules, GasLimit, tx, form, false) && !Fails(rules, InsufficientFunds, tx, form, false);
      OneMorePlaced(rules.state, rules.maxGas, txs, tx, bump, so.views);
    }
  }

  lemma OneMorePlaced(state: State, maxGas: nat, txs: seq<Tx>, tx: Tx, bump: nat, v: Views)
    requires tx.Cost() <= state.balance(tx.from) && tx.gas <= maxGas
    ensures var (r, v') := Inserted(tx, bump, v);
            && SameKeys(v.pending, v'.pending)
            && (r.Added? && AllPlaced(state, maxGas, v, txs) ==> AllPlaced(state, maxGas, v', txs + [tx]))
  {
    var (r, v') := Inserted(tx, bump, v);
    if r.Added? {
      InsertedPlaces(state, maxGas, tx, bump, v);
      if AllPlaced(state, maxGas, v, txs) {
        var longer := txs + [tx];
        forall j | 0 <= j < |longer|
          ensures Placed(state, maxGas, v', longer[j])
        {
          if j < |txs| { assert Placed(state, maxGas, v, txs[j]); }
        }
      }
    }
  }

  /** The given accounts' pending lists and nonces are what a promotion makes of them, the others' are as they were. */
  ghost predicate PromotedAt(state: State, maxGas: nat, nonces: map<nat, nat>, pending: Lists, queue: Lists,
      nonces': map<nat, nat>, pending': Lists, accounts: set<nat>, a: nat) {
    var payable := Payable(Get(queue, a), state.nonce(a), TxList.TooDear(state.balance(a), maxGas));
    var n := NonceIn(state, nonces, a);
    if a in accounts then Get(pending', a) == Get(pending, a) + Executable(payable, n) && NonceIn(state, nonces', a) == Next(payable, n)
    else Get(pending', a) == Get(pending, a) && NonceIn(state, nonces', a) == n
  }

  ghost predicate AllPromoted(state: State, maxGas: nat, nonces: map<nat, nat>, pending: Lists, queue: Lists,
      nonces': map<nat, nat>, pending': Lists, accounts: set<nat>) {
    forall a {:trigger PromotedAt(state, maxGas, nonces, pending, queue, nonces', pending', accounts, a)} ::
      PromotedAt(state, maxGas, nonces, pending, queue, nonces', pending', accounts, a)
  }

  /** Both lists of an account after its promotion, and its new pending nonce. */
  ghost function PromotedLists(pending: Lists, queue: Lists, a: nat, stateNonce: nat, pendingNonce: nat, dear: Tx -> bool,
      limit: Option<nat>): (Lists, Lists, nat) {
    var payable := Payable(Get(queue, a), stateNonce, dear);
    (Put(pending, a, Get(pending, a) + Executable(payable, pendingNonce)), Put(queue, a, Remaining(payable, pendingNonce, limit)),
     Next(payable, pendingNonce))
  }

  lemma EmptyQueue(stateNonce: nat, pendingNonce: nat, dear: Tx -> bool, limit: Option<nat>)
    ensures Payable(map[], stateNonce, dear) == map[] && Executable(map[], pendingNonce) == map[]
    ensures Remaining(map[], pendingNonce, limit) == map[] && Next(map[], pendingNonce) == pendingNonce
  {
    assert Part(Remaining(map[], pendingNonce, limit), map[]);
  }

  /** An account without queued transactions has nothing to promote. */
  lemma NothingQueued(pending: Lists, queue: Lists, a: nat, stateNonce: nat, pendingNonce: nat, dear: Tx -> bool, limit: Option<nat>)
    requires NoneEmpty(pending) && NoneEmpty(queue)
    ensures a !in queue ==> PromotedLists(pending, queue, a, stateNonce, pendingNonce, dear, limit) == (pending, queue, pendingNonce)
  {
    EmptyQueue(stateNonce, pendingNonce, dear, limit);
    SameList(pending, a);
    SameList(queue, a);
    assert Get(pending, a) + map[] == Get(pending, a);
  }

  /** Accounts that have not had their turn are as they were. */
  ghost predicate Yet(state: State, nonces: map<nat, nat>, pending: Lists, queue: Lists, nonces': map<nat, nat>,
      pending': Lists, queue': Lists, a: nat) {
    Get(pending', a) == Get(pending, a) && Get(queue', a) == Get(queue, a) && NonceIn(state, nonces', a) == NonceIn(state, nonces, a)
  }

  /** One account has been promoted, and nobody else touched. */
  ghost predicate TurnTaken(state: State, maxGas: nat, nonces: map<nat, nat>, pending: Lists, queue: Lists,
      nonces': map<nat, nat>, pending': Lists, queue': Lists, a: nat) {
    && PromotedAt(state, maxGas, nonces, pending, queue, nonces', pending', {a}, a)
    && Settled(state, nonces', queue', a) && Part(Get(queue', a), Get(queue, a))
    && forall b {:trigger Yet(state, nonces, pending, queue, nonces', pending', queue', b)} ::
         b != a ==> Yet(state, nonces, pending, queue, nonces', pending', queue', b)
  }

  /** Of the accounts to be promoted, `done` have been and `rest` have not had their turn. */
  ghost predicate Halfway(state: State, maxGas: nat, nonces: map<nat, nat>, pending: Lists, queue: Lists,
      nonces': map<nat, nat>, pending': Lists, queue': Lists, done: set<nat>, rest: set<nat>) {
    && AllPromoted(state, maxGas, nonces, pending, queue, nonces', pending', done) && Shrunk(queue, queue', {})
    && (forall a :: a in done ==> Settled(state, nonces', queue', a))
    && (forall a {:trigger Yet(state, nonces, pending, queue, nonces', pending', queue', a)} ::
          a in rest ==> Yet(state, nonces, pending, queue, nonces', pending', queue', a))
  }

  /** A change of one account's lists that promotes it is its turn. */
  lemma TurnWith(state: State, maxGas: nat, nonces: map<nat, nat>, pending: Lists, queue: Lists, nonces': map<nat, nat>,
      promoted: Items, left: Items, a: nat)
    requires PromotedAt(state, maxGas, nonces, pending, queue, nonces', Put(pending, a, promoted), {a}, a)
    requires OthersKeep(state, nonces, nonces', a) && Part(left, Get(queue, a)) && NonceIn(state, nonces', a) !in left
    ensures TurnTaken(state, maxGas, nonces, pending, queue, nonces', Put(pending, a, promoted), Put(queue, a, left), a)
  {
  }

  /** An account's turn: afterwards no executable transaction of it is queued. */
  lemma TurnOf(state: State, maxGas: nat, nonces: map<nat, nat>, pending: Lists, queue: Lists, nonces': map<nat, nat>,
      pending': Lists, queue': Lists, dear: Tx -> bool, limit: Option<nat>, a: nat)
    requires dear == TxList.TooDear(state.balance(a), maxGas) && OthersKeep(state, nonces, nonces', a)
    requires PromotedLists(pending, queue, a, state.nonce(a), NonceIn(state, nonces, a), dear, limit) == (pending', queue', NonceIn(state, nonces', a))
    ensures TurnTaken(state, maxGas, nonces, pending, queue, nonces', pending', queue', a)
  {
    var n, payable := NonceIn(state, nonces, a), Payable(Get(queue, a), state.nonce(a), dear);
    RemainingMeaning(Get(queue, a), state.nonce(a), n, dear, limit);
    TurnWith(state, maxGas, nonces, pending, queue, nonces', Get(pending, a) + Executable(payable, n), Remaining(payable, n, limit), a);
  }

  lemma NobodyYet(state: State, maxGas: nat, nonces: map<nat, nat>, pending: Lists, queue: Lists, rest: set<nat>)
    ensures Halfway(state, maxGas, nonces, pending, queue, nonces, pending, queue, {}, rest)
  {
  }

  /** One more account has been promoted. */
  lemma PromotedOn(state: State, maxGas: nat, nonces0: map<nat, nat>, pending0: Lists, queue0: Lists,
      nonces: map<nat, nat>, pending: Lists, queue: Lists, nonces': map<nat, nat>, pending': Lists, queue': Lists, done: set<nat>, a: nat)
    requires AllPromoted(state, maxGas, nonces0, pending0, queue0, nonces, pending, done)
    requires Yet(state, nonces0, pending0, queue0, nonces, pending, queue, a)
    requires TurnTaken(state, maxGas, nonces, pending, queue, nonces', pending', queue', a)
    ensures AllPromoted(state, maxGas, nonces0, pending0, queue0, nonces', pending', done + {a})
  {
    forall b
      ensures PromotedAt(state, maxGas, nonces0, pending0, queue0, nonces', pending', done + {a}, b)
    {
      if b != a {
        assert PromotedAt(state, maxGas, nonces0, pending0, queue0, nonces, pending, done, b);
        assert Yet(state, nonces, pending, queue, nonces', pending', queue', b);
      }
    }
  }

  lemma QueuesOn(state: State, maxGas: nat, queue0: Lists, nonces: map<nat, nat>, pending: Lists, queue: Lists,
      nonces': map<nat, nat>, pending': Lists, queue': Lists, done: set<nat>, a: nat)
    requires Shrunk(queue0, queue, {}) && (forall b :: b in done ==> Settled(state, nonces, queue, b))
    requires TurnTaken(state, maxGas, nonces, pending, queue, nonces', pending', queue', a)
    ensures Shrunk(queue0, queue', {}) && (forall b :: b in done + {a} ==> Settled(state, nonces', queue', b))
  {
    forall b
      ensures b != a ==> Get(queue', b) == Get(queue, b)
      ensures b in done + {a} ==> Settled(state, nonces', queue', b)
    {
      if b != a {
        assert Yet(state, nonces, pending, queue, nonces', pending', queue', b);
        assert b in done ==> Settled(state, nonces, queue, b);
      }
    }
    ShrinkMore(queue0, queue, queue', a, {});
  }

  lemma HalfwayOn(state: State, maxGas: nat, nonces0: map<nat, nat>, pending0: Lists, queue0: Lists,
      nonces: map<nat, nat>, pending: Lists, queue: Lists, nonces': map<nat, nat>, pending': Lists, queue': Lists,
      done: set<nat>, rest: set<nat>, dear: Tx -> bool, limit: Option<nat>, a: nat)
    requires Halfway(state, maxGas, nonces0, pending0, queue0, nonces, pending, queue, done, rest) && a in rest
    requires dear == TxList.TooDear(state.balance(a), maxGas) && OthersKeep(state, nonces, nonces', a)
    requires PromotedLists(pending, queue, a, state.nonce(a), NonceIn(state, nonces, a), dear, limit) == (pending', queue', NonceIn(state, nonces', a))
    ensures Halfway(state, maxGas, nonces0, pending0, queue0, nonces', pending', queue', done + {a}, rest - {a})
  {
    assert Yet(state, nonces0, pending0, queue0, nonces, pending, queue, a);
    TurnOf(state, maxGas, nonces, pending, queue, nonces', pending', queue', dear, limit, a);
    PromotedOn(state, maxGas, nonces0, pending0, queue0, nonces, pending, queue, nonces', pending', queue', done, a);
    QueuesOn(state, maxGas, queue0, nonces, pending, queue, nonces', pending', queue', done, a);
    forall b | b in rest - {a}
      ensures Yet(state, nonces0, pending0, queue0, nonces', pending', queue', b)
    {
      assert Yet(state, nonces0, pending0, queue0, nonces, pending, queue, b) && Yet(state, nonces, pending, queue, nonces', pending', queue', b);
    }
  }

  /** What an account has queued once the given accounts have been promoted. */
  ghost function LeftAt(rules: Rules, most: nat, nonces: map<nat, nat>, queue: Lists, accounts: set<nat>, a: nat): Items {
    if a in accounts then
      Remaining(Payable(Get(queue, a), rules.state.nonce(a), TxList.TooDear(rules.state.balance(a), rules.maxGas)),
                NonceIn(rules.state, nonces, a), LimitFor(rules.locals, most, a))
    else Get(queue, a)
  }

  ghost predicate AllLeft(rules: Rules, most: nat, nonces: map<nat, nat>, queue: Lists, accounts: set<nat>, left: Lists) {
    NoneEmpty(left) && forall a {:trigger LeftAt(rules, most, nonces, queue, accounts, a)} :: Get(left, a) == LeftAt(rules, most, nonces, queue, accounts, a)
  }

  /** One more account has had its turn. */
  lemma LeftTurn(rules: Rules, most: nat, nonces0: map<nat, nat>, queue0: Lists, nonces: map<nat, nat>, pending: Lists, queue: Lists,
      pending': Lists, queue': Lists, n: nat, done: set<nat>, dear: Tx -> bool, limit: Option<nat>, a: nat)
    requires dear == TxList.TooDear(rules.state.balance(a), rules.maxGas) && limit == LimitFor(rules.locals, most, a)
    requires AllLeft(rules, most, nonces0, queue0, done, queue) && a !in done
    requires Get(queue, a) == Get(queue0, a) && NonceIn(rules.state, nonces, a) == NonceIn(rules.state, nonces0, a)
    requires PromotedLists(pending, queue, a, rules.state.nonce(a), NonceIn(rules.state, nonces, a), dear, limit) == (pending', queue', n)
    ensures AllLeft(rules, most, nonces0, queue0, done + {a}, queue')
  {
    LeftPut(rules, most, nonces0, queue0, queue, LeftAt(rules, most, nonces0, queue0, done + {a}, a), done, a);
  }

  lemma LeftPut(rules: Rules, most: nat, nonces: map<nat, nat>, queue0: Lists, queue: Lists, left: Items, done: set<nat>, a: nat)
    requires AllLeft(rules, most, nonces, queue0, done, queue) && a !in done && left == LeftAt(rules, most, nonces, queue0, done + {a}, a)
    ensures AllLeft(rules, most, nonces, queue0, done + {a}, Put(queue, a, left))
  {
    var queue' := Put(queue, a, left);
    forall b
      ensures Get(queue', b) == LeftAt(rules, most, nonces, queue0, done + {a}, b)
    {
      if b != a {
        assert Get(queue', b) == Get(queue, b);
        SameLeft(rules, most, nonces, queue0, done, a, b);
      }
    }
  }

  lemma SameLeft(rules: Rules, most: nat, nonces: map<nat, nat>, queue: Lists, done: set<nat>, a: nat, b: nat)
    requires a != b
    ensures LeftAt(rules, most, nonces, queue, done + {a}, b) == LeftAt(rules, most, nonces, queue, done, b)
  {
  }

  /** The pool's lists, nonces and heartbeats between two steps. */
  datatype Stage = Stage(nonces: map<nat, nat>, pending: Lists, queue: Lists, beats: map<nat, nat>)

  /** What a promotion makes executable of an account's queue. */
  ghost function ReadyAt(rules: Rules, was: Stage, a: nat): Items {
    Executable(Payable(Get(was.queue, a), rules.state.nonce(a), TxList.TooDear(rules.state.balance(a), rules.maxGas)), NonceIn(rules.state, was.nonces, a))
  }

  /** Exactly the given accounts of which transactions have been promoted are active now. */
  ghost predicate HeardAt(rules: Rules, now: nat, was: Stage, beats: map<nat, nat>, accounts: set<nat>, a: nat) {
    BeatOf(beats, a) == if a in accounts && ReadyAt(rules, was, a) != map[] then now + 1 else BeatOf(was.beats, a)
  }

  ghost predicate AllHeard(rules: Rules, now: nat, was: Stage, beats: map<nat, nat>, accounts: set<nat>) {
    forall a {:trigger HeardAt(rules, now, was, beats, accounts, a)} :: HeardAt(rules, now, was, beats, accounts, a)
  }

  lemma HeardTurn(rules: Rules, now: nat, was: Stage, beats: map<nat, nat>, beats': map<nat, nat>, done: set<nat>, a: nat)
    requires AllHeard(rules, now, was, beats, done) && a !in done && HeardAt(rules, now, was, beats', {a}, a)
    requires forall b :: b != a ==> BeatOf(beats', b) == BeatOf(beats, b)
    ensures AllHeard(rules, now, was, beats', done + {a})
  {
    forall b
      ensures HeardAt(rules, now, was, beats', done + {a}, b)
    {
      assert HeardAt(rules, now, was, beats, done, b);
    }
  }

  lemma HeardNow(rules: Rules, now: nat, was: Stage, at: Stage, beats': map<nat, nat>, done: set<nat>, a: nat)
    requires AllHeard(rules, now, was, at.beats, done) && a !in done && beats' == Heard(at.beats, ReadyAt(rules, at, a), a, now)
    requires Get(at.queue, a) == Get(was.queue, a) && NonceIn(rules.state, at.nonces, a) == NonceIn(rules.state, was.nonces, a)
    ensures AllHeard(rules, now, was, beats', done + {a})
  {
    assert ReadyAt(rules, at, a) == ReadyAt(rules, was, a);
    assert HeardAt(rules, now, was, at.beats, done, a);
    HeardTurn(rules, now, was, at.beats, beats', done, a);
  }

  /** Of the accounts to be promoted `rest` have not had their turn; the others have exactly the lists their turn makes. */
  ghost predicate Along(rules: Rules, most: nat, now: nat, was: Stage, at: Stage, accounts: set<nat>, rest: set<nat>) {
    && Halfway(rules.state, rules.maxGas, was.nonces, was.pending, was.queue, at.nonces, at.pending, at.queue, accounts - rest, rest)
    && AllLeft(rules, most, was.nonces, was.queue, accounts - rest, at.queue) && AllHeard(rules, now, was, at.beats, accounts - rest)
  }

  lemma AlongStart(rules: Rules, most: nat, now: nat, was: Stage, accounts: set<nat>)
    requires NoneEmpty(was.queue)
    ensures Along(rules, most, now, was, was, accounts, accounts)
  {
    assert accounts - accounts == {};
    NobodyYet(rules.state, rules.maxGas, was.nonces, was.pending, was.queue, accounts);
  }

  lemma OneFewer(accounts: set<nat>, rest: set<nat>, a: nat)
    requires a in rest && rest <= accounts
    ensures accounts - (rest - {a}) == accounts - rest + {a}
  {
  }

  lemma AlongOn(rules: Rules, most: nat, now: nat, was: Stage, at: Stage, next: Stage, accounts: set<nat>, rest: set<nat>,
      dear: Tx -> bool, limit: Option<nat>, a: nat)
    requires Along(rules, most, now, was, at, accounts, rest) && a in rest && rest <= accounts
    requires dear == TxList.TooDear(rules.state.balance(a), rules.maxGas) && limit == LimitFor(rules.locals, most, a)
    requires OthersKeep(rules.state, at.nonces, next.nonces, a) && next.beats == Heard(at.beats, ReadyAt(rules, at, a), a, now)
    requires PromotedLists(at.pending, at.queue, a, rules.state.nonce(a), NonceIn(rules.state, at.nonces, a), dear, limit)
          == (next.pending, next.queue, NonceIn(rules.state, next.nonces, a))
    ensures Along(rules, most, now, was, next, accounts, rest - {a})
  {
    var done := accounts - rest;
    OneFewer(accounts, rest, a);
    assert Yet(rules.state, was.nonces, was.pending, was.queue, at.nonces, at.pending, at.queue, a);
    LeftTurn(rules, most, was.nonces, was.queue, at.nonces, at.pending, at.queue, next.pending, next.queue, NonceIn(rules.state, next.nonces, a),
             done, dear, limit, a);
    HeardNow(rules, now, was, at, next.beats, done, a);
    HalfwayOn(rules.state, rules.maxGas, was.nonces, was.pending, was.queue, at.nonces, at.pending, at.queue, next.nonces, next.pending, next.queue,
              done, rest, dear, limit, a);
  }

  /** None of the given accounts has too many transactions queued, except for local ones. */
  ghost predicate Few(queue: Lists, locals: set<nat>, most: nat, accounts: set<nat>) {
    forall a :: a in accounts && a !in locals ==> |Get(queue, a)| <= most
  }

  lemma FewLeft(rules: Rules, most: nat, nonces: map<nat, nat>, queue: Lists, accounts: set<nat>, left: Lists, queue': Lists)
    requires AllLeft(rules, most, nonces, queue, accounts, left) && Shrunk(left, queue', rules.locals)
    ensures Few(queue', rules.locals, most, accounts)
  {
    forall a | a in accounts && a !in rules.locals
      ensures |Get(queue', a)| <= most
    {
      assert Get(left, a) == LeftAt(rules, most, nonces, queue, accounts, a);
      FewerItems(Get(queue', a), Get(left, a));
    }
  }

  lemma FewerItems(part: Items, whole: Items)
    requires Part(part, whole)
    ensures |part| <= |whole|
  {
    assert whole.Keys == part.Keys + (whole.Keys - part.Keys);
    assert |part.Keys| == |part| && |whole.Keys| == |whole|;
  }

  /** Once all have had their turn. */
  lemma AlongAll(rules: Rules, most: nat, now: nat, was: Stage, at: Stage, accounts: set<nat>)
    requires Along(rules, most, now, was, at, accounts, {})
    ensures AllPromoted(rules.state, rules.maxGas, was.nonces, was.pending, was.queue, at.nonces, at.pending, accounts) && Shrunk(was.queue, at.queue, {})
    ensures AllLeft(rules, most, was.nonces, was.queue, accounts, at.queue) && AllHeard(rules, now, was, at.beats, accounts)
    ensures forall a :: a in accounts ==> Settled(rules.state, at.nonces, at.queue, a)
  {
    assert accounts - {} == accounts;
  }

  /**
   Once the reinjected transactions have been added (`mid`), a promotion of this account
   would stop short of transactions that were pending and can still be paid for.
   */
  ghost predicate Breaks(state: State, nonces: map<nat, nat>, state': State, maxGas: nat, mid: Views, a: nat) {
    var dear := TxList.TooDear(state'.balance(a), maxGas);
    var was, p := state.nonce(a), Get(mid.pending, a);
    && state'.nonce(a) < Next(Payable(Get(mid.queue, a), state'.nonce(a), dear), state'.nonce(a)) < was < NonceIn(state, nonces, a)
    && was in p && !dear(p[was])
  }

  /** Where every place is taken, the promotion does not stop short. */
  lemma CoveredNeverBreaks(txs: seq<Tx>, state: State, nonces: map<nat, nat>, pending: Lists, queue: Lists, state': State,
      maxGas: nat, mid: Views, a: nat)
    requires Covers(txs, state, state') && AllPlaced(state', maxGas, mid, txs)
    requires ContigAt(state, nonces, pending, queue, a) && SameKeys(pending, mid.pending)
    ensures !Breaks(state, nonces, state', maxGas, mid, a)
  {
    var now, dear := state'.nonce(a), TxList.TooDear(state'.balance(a), maxGas);
    var payable := Payable(Get(mid.queue, a), now, dear);
    var end := Next(payable, now);
    RunShape(Get(mid.queue, a), now, dear);
    forall n: nat | now <= n < state.nonce(a)
      ensures n in payable
    {
      assert Has(txs, a, n);
      var i :| 0 <= i < |txs| && txs[i].from == a && txs[i].nonce == n;
      assert Placed(state', maxGas, mid, txs[i]);
      assert n in Get(mid.pending, a).Keys <==> n in Get(pending, a).Keys;
      assert n in Get(mid.queue, a) && !dear(Get(mid.queue, a)[n]);
    }
    assert end >= now && end !in payable;
  }

  lemma CoveredNobodyBreaks(txs: seq<Tx>, state: State, nonces: map<nat, nat>, pending: Lists, queue: Lists, state': State,
      maxGas: nat, added: Readded)
    requires SameKeys(pending, added.views.pending) && (added.accepted ==> AllPlaced(state', maxGas, added.views, txs))
    ensures AllContig(state, nonces, pending, queue) && added.accepted && Covers(txs, state, state') ==>
      NobodyBreaks(state, nonces, state', maxGas, added)
  {
    if AllContig(state, nonces, pending, queue) && added.accepted && Covers(txs, state, state') {
      forall a
        ensures !Breaks(state, nonces, state', maxGas, added.views, a)
      {
        assert ContigAt(state, nonces, pending, queue, a);
        CoveredNeverBreaks(txs, state, nonces, pending, queue, state', maxGas, added.views, a);
      }
    }
  }

  /** One account after the reinjection and the demotion. */
  lemma ResetContigAt(state: State, nonces: map<nat, nat>, pending: Lists, queue: Lists, state': State, maxGas: nat,
      mid: Views, dirty: set<nat>, nonces': map<nat, nat>, pending': Lists, stay: Items, a: nat)
    requires ContigAt(state, nonces, pending, queue, a) && SameKeys(pending, mid.pending)
    requires (a in dirty ==> !Breaks(state, nonces, state', maxGas, mid, a)) && Get(mid.pending, a).Keys !! Get(mid.queue, a).Keys
    requires PromotedAt(state', maxGas, map[], mid.pending, mid.queue, nonces', pending', dirty, a)
    requires stay == Staying(Get(pending', a), state'.nonce(a), TxList.TooDear(state'.balance(a), maxGas))
    ensures Gapless(stay, state'.nonce(a)) && (stay == map[] ==> NonceIn(state', nonces', a) == state'.nonce(a))
  {
    var now, dear := state'.nonce(a), TxList.TooDear(state'.balance(a), maxGas);
    var was, upTo, p, q := state.nonce(a), NonceIn(state, nonces, a), Get(mid.pending, a), Get(mid.queue, a);
    assert forall n: nat :: n in p <==> n in Get(pending, a).Keys;
    if a in dirty {
      ReinjectionGap(was, upTo, p, q, now, dear);
      if Next(Payable(q, now, dear), now) != now { RunStays(p, q, now, dear); }
    } else {
      IntervalGapless(From(p, now), if now < was then was else now, upTo, dear);
    }
  }

  /** A run that is not empty stays pending. */
  lemma RunStays(p: Items, q: Items, now: nat, dear: Tx -> bool)
    requires p.Keys !! q.Keys && Next(Payable(q, now, dear), now) != now
    ensures now in Staying(p + Executable(Payable(q, now, dear), now), now, dear)
  {
    RunShape(q, now, dear);
    var run := Executable(Payable(q, now, dear), now);
    var current := From(p + run, now);
    assert now in run && current[now] == run[now];
    if Matches(current, dear) != map[] {
      var c := Least(Matches(current, dear).Keys);
      assert c in Matches(current, dear) && c != now;
    }
  }

  /** No account that has more transactions now has its promotion stop short. */
  ghost predicate NobodyBreaks(state: State, nonces: map<nat, nat>, state': State, maxGas: nat, added: Readded) {
    forall a {:trigger Breaks(state, nonces, state', maxGas, added.views, a)} ::
      a in added.dirty ==> !Breaks(state, nonces, state', maxGas, added.views, a)
  }

  /** The two passes of a reset over all accounts. */
  ghost predicate Passed(state: State, maxGas: nat, added: Readded, nonces1: map<nat, nat>, pending1: Lists, queue1: Lists,
      pending2: Lists, queue2: Lists) {
    && AllPromoted(state, maxGas, map[], added.views.pending, added.views.queue, nonces1, pending1, added.dirty)
    && Shrunk(added.views.queue, queue1, {}) && AllDemoted(state, maxGas, pending1, queue1, pending2, queue2)
  }

  /** The accounts that have more transactions now have been promoted. */
  ghost predicate Reinjected(rules: Rules, config: Config, now: nat, added: Readded, beats: map<nat, nat>, mid: Stage) {
    var was := Stage(map[], added.views.pending, added.views.queue, beats);
    if added.dirty == {} then mid == was else PromotedTo(rules, config, now, was, mid, added.dirty)
  }

  /** All accounts have been demoted and their nonces set; those without pending transactions are no longer heard of. */
  ghost predicate Fallen(rules: Rules, mid: Stage, low: Stage) {
    && AllDemoted(rules.state, rules.maxGas, mid.pending, mid.queue, low.pending, low.queue)
    && NoneEmpty(low.pending) && low.nonces == mid.nonces + NoncesAfter(low.pending)
    && low.beats == mid.beats - (mid.pending.Keys - low.pending.Keys)
  }

  /** Moving to another state leaves every account contiguous once it has been demoted and its nonce set, unless a reinjected run stops short. */
  lemma ResetContig(state: State, nonces: map<nat, nat>, pending: Lists, queue: Lists, state': State, maxGas: nat,
      added: Readded, nonces1: map<nat, nat>, pending1: Lists, queue1: Lists, all1: set<Tx>, pending': Lists, queue': Lists)
    requires AllContig(state, nonces, pending, queue) && SameKeys(pending, added.views.pending) && NoneEmpty(pending')
    requires PoolOk(added.views.all, added.views.pending, added.views.queue) && PoolOk(all1, pending1, queue1)
    requires NobodyBreaks(state, nonces, state', maxGas, added)
    requires Passed(state', maxGas, added, nonces1, pending1, queue1, pending', queue')
    ensures AllContig(state', nonces1 + NoncesAfter(pending'), pending', queue')
  {
    var nonces' := nonces1 + NoncesAfter(pending');
    var mid := added.views;
    forall a
      ensures ContigAt(state', nonces', pending', queue', a)
    {
      var dear := TxList.TooDear(state'.balance(a), maxGas);
      assert ContigAt(state, nonces, pending, queue, a);
      assert AccountOk(mid.all, a, Get(mid.pending, a), Get(mid.queue, a));
      assert AccountOk(all1, a, Get(pending1, a), Get(queue1, a));
      assert PromotedAt(state', maxGas, map[], mid.pending, mid.queue, nonces1, pending1, added.dirty, a);
      assert DemotedAt(state', maxGas, pending1, queue1, pending', queue', a);
      assert a in added.dirty ==> !Breaks(state, nonces, state', maxGas, mid, a);
      ResetContigAt(state, nonces, pending, queue, state', maxGas, mid, added.dirty, nonces1, pending1, Get(pending', a), a);
      DemotionContigIff(state'.nonce(a), Get(pending1, a), Get(queue1, a), dear);
      assert NonceIn(state', nonces', a) == AfterLast(Get(pending', a), state'.nonce(a));
    }
  }

  /** Where a run stops short, the gap is still there after the promotion that ends the reset. */
  lemma BreakStays(state: State, nonces: map<nat, nat>, pending: Lists, queue: Lists, state': State, maxGas: nat,
      added: Readded, nonces1: map<nat, nat>, pending1: Lists, queue1: Lists, nonces2: map<nat, nat>, pending2: Lists, queue2: Lists,
      nonces': map<nat, nat>, pending': Lists, queue': Lists, accounts: set<nat>, a: nat)
    requires ContigAt(state, nonces, pending, queue, a) && SameKeys(pending, added.views.pending)
    requires PoolOk(added.views.all, added.views.pending, added.views.queue)
    requires a in added.dirty && Breaks(state, nonces, state', maxGas, added.views, a)
    requires Passed(state', maxGas, added, nonces1, pending1, queue1, pending2, queue2)
    requires AllPromoted(state', maxGas, nonces2, pending2, queue2, nonces', pending', accounts)
    ensures !ContigAt(state', nonces', pending', queue', a)
  {
    var mid := added.views;
    var now, dear := state'.nonce(a), TxList.TooDear(state'.balance(a), maxGas);
    var was, upTo, p, q := state.nonce(a), NonceIn(state, nonces, a), Get(mid.pending, a), Get(mid.queue, a);
    assert AccountOk(mid.all, a, p, q);
    assert forall n: nat :: n in p <==> n in Get(pending, a).Keys;
    assert PromotedAt(state', maxGas, map[], mid.pending, mid.queue, nonces1, pending1, added.dirty, a);
    assert DemotedAt(state', maxGas, pending1, queue1, pending2, queue2, a);
    assert PromotedAt(state', maxGas, nonces2, pending2, queue2, nonces', pending', accounts, a);
    assert Part(Get(queue1, a), q);
    GapStays(was, upTo, p, q, now, dear, Get(queue1, a), NonceIn(state', nonces2, a));
    assert was in Get(pending', a) && Next(Payable(q, now, dear), now) !in Get(pending', a);
  }

  lemma UnqueueKeeps(state: State, all: set<Tx>, pending: Lists, queue: Lists, nonces: map<nat, nat>, tx: Tx)
    requires PoolOk(all, pending, queue) && In(Get(queue, tx.from), tx)
    ensures Kept(state, all, pending, queue, nonces, all - {tx}, pending, Put(queue, tx.from, Get(queue, tx.from) - {tx.nonce}), nonces)
  {
    var a := tx.from;
    var p, q := Get(pending, a), Get(queue, a);
    assert AccountOk(all, a, p, q);
    DropOneQueued(all, p, q, tx);
    OneAccount(all, pending, queue, a, all - {tx}, p, q - {tx.nonce});
    SameList(pending, a);
    if AllContig(state, nonces, pending, queue) {
      assert ContigAt(state, nonces, pending, queue, a);
      ShorterQueueContig(state.nonce(a), NonceIn(state, nonces, a), p, q, q - {tx.nonce});
      OneContig(state, nonces, pending, queue, a, nonces, p, q - {tx.nonce});
    }
  }

  lemma {:induction false} Fewer(a: set<Tx>, b: set<Tx>)
    requires a <= b
    ensures |a| <= |b|
    decreases |b|
  {
    if a == {} {
    } else {
      var x :| x in a;
      Fewer(a - {x}, b - {x});
    }
  }

  class TxPool {
    const config: Config
    var pending: Lists
    var queue: Lists
    var all: set<Tx>
    var locals: set<nat>
    /** When an account last had a transaction promoted. */
    var beats: map<nat, nat>
    var state: State
    /** Nonces set in the pending state, over those of the chain state. */
    var pendingNonces: map<nat, nat>
    var maxGas: nat
    var gasPrice: nat

    /** The views agree, and the pool is within its limit. */
    ghost predicate Valid()
      reads this
    {
      PoolOk(all, pending, queue) && |all| <= config.globalSlots + config.globalQueue
    }

    function PendingNonce(a: nat): nat
      reads this
    {
      NonceIn(state, pendingNonces, a)
    }

    ghost predicate Contiguous()
      reads this
    {
      AllContig(state, pendingNonces, pending, queue)
    }

    /** What an account cannot pay for, or a block cannot hold. */
    function Dear(a: nat): Tx -> bool
      reads this
    {
      TxList.TooDear(state.balance(a), maxGas)
    }

    constructor (cfg: Config, current: State, gasLimit: nat, price: nat)
      ensures Valid() && Contiguous() && config == cfg
      ensures Now() == Views(map[], map[], {}) && Checks() == Rules(current, gasLimit, price, {}) && pendingNonces == beats == map[]
    {
      config, state, maxGas, gasPrice := cfg, current, gasLimit, price;
      pending, queue, all, locals, beats, pendingNonces := map[], map[], {}, {}, map[], map[];
    }

    function Checks(): Rules
      reads this
    {
      Rules(state, maxGas, gasPrice, locals)
    }

    function Places(): nat {
      config.globalSlots + config.globalQueue
    }

    /** The first check in their order that a new transaction fails, if it fails any. */
    method Validate(tx: Tx, form: Form, local: bool) returns (error: Option<Error>)
      ensures error.None? ==> Passes(Checks(), tx, form, local)
      ensures error.None? ==> tx.gas <= maxGas && state.nonce(tx.from) <= tx.nonce && tx.Cost() <= state.balance(tx.from)
      ensures error.None? <==>
        && form.size <= 32768 && !form.negative && form.signed && (tx.price < gasPrice ==> local || tx.from in locals)
        && tx.gas <= maxGas && state.nonce(tx.from) <= tx.nonce && tx.Cost() <= state.balance(tx.from)
        && form.intrinsic.Some? && form.intrinsic.value <= tx.gas
      ensures error.Some? ==> FirstFailed(Checks(), error.value, tx, form, local)
    {
      if form.size > MAX_SIZE {
        return Some(OversizedData);
      }
      if form.negative {
        return Some(NegativeValue);
      }
      if maxGas < tx.gas {
        return Some(GasLimit);
      }
      if !form.signed {
        return Some(InvalidSender);
      }
      if !(local || tx.from in locals) && tx.price < gasPrice {
        return Some(Underpriced);
      }
      if state.nonce(tx.from) > tx.nonce {
        return Some(NonceTooLow);
      }
      if state.balance(tx.from) < tx.Cost() {
        return Some(InsufficientFunds);
      }
      if form.intrinsic.None? {
        return Some(OutOfGas);
      }
      if tx.gas < form.intrinsic.value {
        return Some(IntrinsicGas);
      }
      return None;
    }

    /**
     Adds a transaction: in place of a pending one with its nonce if it outbids
     it, otherwise to the queue.
     */
    method Add(tx: Tx, form: Form, local: bool) returns (r: Result)
      requires Valid()
      modifies this`pending, this`queue, this`all, this`locals
      ensures Valid() && (old(Contiguous()) ==> Contiguous())
      ensures r.Added? || r == Rejected(ReplaceUnderpriced) ==> (r, Now()) == Inserted(tx, config.priceBump, old(Now()))
      ensures r.Rejected? ==> Now() == old(Now())
      ensures locals == if r.Added? && local && tx.nonce !in Get(old(pending), tx.from) then old(locals) + {tx.from} else old(locals)
      ensures Judged(old(Checks()), Places(), config.priceBump, old(Now()), tx, form, local, r)
      ensures r.Added? ==> |old(all)| < config.globalSlots + config.globalQueue && state.nonce(tx.from) <= tx.nonce
      ensures r.Added? ==> tx.Cost() <= state.balance(tx.from) && tx.gas <= maxGas
    {
      if tx in all {
        return Rejected(KnownTransaction);
      }
      var error := Validate(tx, form, local);
      if error.Some? {
        return Rejected(error.value);
      }
      if |all| >= config.globalSlots + config.globalQueue {
        return Rejected(PoolLimit);
      }
      r := Insert(tx, local);
    }

    ghost function Now(): Views
      reads this
    {
      Views(pending, queue, all)
    }

    /** Where a transaction that passed the checks goes. */
    method Insert(tx: Tx, local: bool) returns (r: Result)
      requires Valid() && tx !in all && |all| < config.globalSlots + config.globalQueue && state.nonce(tx.from) <= tx.nonce
      modifies this`pending, this`queue, this`all, this`locals
      ensures Valid() && (old(Contiguous()) ==> Contiguous())
      ensures (r, Now()) == Inserted(tx, config.priceBump, old(Now()))
      ensures locals == if r.Added? && local && tx.nonce !in Get(old(pending), tx.from) then old(locals) + {tx.from} else old(locals)
    {
      if tx.nonce in Get(pending, tx.from) {
        r := ReplacePending(tx);
      } else {
        r := EnqueueTx(tx);
        if r.Added? && local {
          locals := locals + {tx.from};
        }
      }
    }

    /** Puts a transaction in the place of the pending one with its nonce, unless that is not outbid. */
    method ReplacePending(tx: Tx) returns (r: Result)
      requires Valid() && tx !in all && |all| < config.globalSlots + config.globalQueue && tx.nonce in Get(pending, tx.from)
      modifies this`pending, this`all
      ensures Valid() && (old(Contiguous()) ==> Contiguous())
      ensures (r, Now()) == Inserted(tx, config.priceBump, old(Now()))
    {
      var p := Get(pending, tx.from);
      if !TxList.Outbids(tx, p[tx.nonce], config.priceBump) {
        return Rejected(ReplaceUnderpriced);
      }
      ReplaceKeeps(state, all, pending, queue, pendingNonces, tx);
      all := all - {p[tx.nonce]} + {tx};
      pending := Put(pending, tx.from, p[tx.nonce := tx]);
      return Added(true);
    }

    /** Puts a transaction in the queue unless the one with its nonce there is not outbid. */
    method EnqueueTx(tx: Tx) returns (r: Result)
      requires Valid() && tx !in all && tx.nonce !in Get(pending, tx.from)
      requires |all| < config.globalSlots + config.globalQueue && state.nonce(tx.from) <= tx.nonce
      modifies this`queue, this`all
      ensures Valid() && (old(Contiguous()) ==> Contiguous())
      ensures (r, Now()) == Inserted(tx, config.priceBump, old(Now()))
    {
      var q := Get(queue, tx.from);
      if tx.nonce in q && !TxList.Outbids(tx, q[tx.nonce], config.priceBump) {
        return Rejected(ReplaceUnderpriced);
      }
      EnterKeeps(state, all, pending, queue, pendingNonces, tx);
      if tx.nonce in q {
        all := all - {q[tx.nonce]};
      }
      all := all + {tx};
      queue := Put(queue, tx.from, q[tx.nonce := tx]);
      return Added(tx.nonce in q);
    }

    /** Puts a transaction in the pending list unless the one with its nonce there is not outbid. */
    method PromoteTx(a: nat, tx: Tx, now: nat) returns (inserted: bool)
      modifies this`pending, this`all, this`beats, this`pendingNonces
      ensures var p := Get(old(pending), a);
        if tx.nonce in p && !TxList.Outbids(tx, p[tx.nonce], config.priceBump) then
          !inserted && all == old(all) - {tx} && pending == old(pending) && pendingNonces == old(pendingNonces) && beats == old(beats)
        else
          && inserted && pending == old(pending)[a := p[tx.nonce := tx]] && pendingNonces == old(pendingNonces)[a := tx.nonce + 1]
          && beats == old(beats)[a := now]
          && all == old(all) - (if tx.nonce in p then {p[tx.nonce]} else {}) + {tx}
    {
      var p := Get(pending, a);
      if tx.nonce in p && !TxList.Outbids(tx, p[tx.nonce], config.priceBump) {
        all := all - {tx};
        return false;
      }
      if tx.nonce in p {
        all := all - {p[tx.nonce]};
      }
      var longer: Items := p[tx.nonce := tx];
      pending := pending[a := longer];
      if tx !in all {
        all := all + {tx};
      }
      beats := beats[a := now];
      pendingNonces := pendingNonces[a := tx.nonce + 1];
      return true;
    }

    /** Promotes the transactions of a run, lowest nonce first. */
    method PromoteRun(a: nat, queued: Items, lo: nat, end: nat, now: nat)
      requires lo < end && Covered(queued, lo, end, all)
      requires queued.Keys !! Get(pending, a).Keys
      modifies this`pending, this`all, this`beats, this`pendingNonces
      ensures pending == old(pending)[a := Get(old(pending), a) + Span(queued, lo, end)]
      ensures all == old(all) && pendingNonces == old(pendingNonces)[a := end] && beats == old(beats)[a := now]
    {
      SpanStart(Get(pending, a), queued, lo);
      var n := lo;
      while n < end
        invariant lo <= n <= end && all == old(all)
        invariant RunUpTo(old(pending), old(pendingNonces), old(beats), pending, pendingNonces, beats, a, queued, lo, n, now)
      {
        PromoteOne(old(pending), old(pendingNonces), old(beats), a, queued, lo, n, end, now);
        n := n + 1;
      }
    }

    /** The next transaction of a run. */
    method PromoteOne(ghost pending0: Lists, ghost nonces0: map<nat, nat>, ghost beats0: map<nat, nat>, a: nat, queued: Items, ghost lo: nat,
        n: nat, ghost end: nat, now: nat)
      requires lo <= n < end && Covered(queued, lo, end, all) && queued.Keys !! Get(pending0, a).Keys
      requires RunUpTo(pending0, nonces0, beats0, pending, pendingNonces, beats, a, queued, lo, n, now)
      modifies this`pending, this`all, this`beats, this`pendingNonces
      ensures all == old(all) && RunUpTo(pending0, nonces0, beats0, pending, pendingNonces, beats, a, queued, lo, n + 1, now)
    {
      RunMore(pending0, nonces0, beats0, pending, pendingNonces, beats, a, queued, lo, n, now);
      var inserted := PromoteTx(a, queued[n], now);
    }

    /**
     Moves an account's executable transactions from the queue to the pending
     list, and drops what is outdated, too dear or over the account's limit.
     */
    method PromoteExecutable(a: nat, now: nat)
      requires Valid() && a in queue
      modifies this`pending, this`queue, this`all, this`beats, this`pendingNonces
      ensures Valid() && (old(Contiguous()) ==> Contiguous())
      ensures (pending, queue, PendingNonce(a)) ==
        PromotedLists(old(pending), old(queue), a, state.nonce(a), old(PendingNonce(a)), old(Dear(a)), old(QueueLimit(a)))
      ensures OthersKeep(state, old(pendingNonces), pendingNonces, a)
      ensures beats == Heard(old(beats), Executable(Payable(Get(old(queue), a), state.nonce(a), old(Dear(a))), old(PendingNonce(a))), a, now)
      ensures all <= old(all)
    {
      var dear, limit := Dear(a), QueueLimit(a);
      assert AccountOk(all, a, Get(pending, a), Get(queue, a));
      var rest := PromoteList(a, Get(queue, a), dear, limit, now);
      assert rest == Remaining(Payable(Get(queue, a), state.nonce(a), dear), old(PendingNonce(a)), limit);
      OneAccount(old(all), old(pending), queue, a, all, Get(pending, a), rest);
      if old(Contiguous()) {
        PromotionAllContig(state, old(pendingNonces), pendingNonces, old(pending), queue, a, dear, limit);
      }
      Fewer(all, old(all));
      queue := Put(queue, a, rest);
    }

    /** The steps of a promotion, on the account's queue. */
    method PromoteList(a: nat, list: Items, dear: Tx -> bool, limit: Option<nat>, now: nat) returns (rest: Items)
      requires AccountOk(all, a, Get(pending, a), list) && NoneEmpty(pending)
      modifies this`pending, this`all, this`beats, this`pendingNonces
      ensures rest == Remaining(Payable(list, state.nonce(a), dear), old(PendingNonce(a)), limit)
      ensures pending == Put(old(pending), a, Get(old(pending), a) + Executable(Payable(list, state.nonce(a), dear), old(PendingNonce(a))))
      ensures PendingNonce(a) == Next(Payable(list, state.nonce(a), dear), old(PendingNonce(a)))
      ensures OthersKeep(state, old(pendingNonces), pendingNonces, a)
      ensures beats == Heard(old(beats), Executable(Payable(list, state.nonce(a), dear), old(PendingNonce(a))), a, now)
      ensures AccountOk(all, a, Get(pending, a), rest) && OnlyOf(old(all), all, a) && all <= old(all)
    {
      var queued := Prune(a, list, dear);
      rest := ReadyUpTo(a, queued, limit, now);
    }

    /** Promotes the run of executable transactions out of a queue, and drops what is over the limit. */
    method ReadyUpTo(a: nat, queued: Items, limit: Option<nat>, now: nat) returns (rest: Items)
      requires AccountOk(all, a, Get(pending, a), queued) && NoneEmpty(pending)
      modifies this`pending, this`all, this`beats, this`pendingNonces
      ensures rest == Remaining(queued, old(PendingNonce(a)), limit)
      ensures pending == Put(old(pending), a, Get(old(pending), a) + Executable(queued, old(PendingNonce(a))))
      ensures PendingNonce(a) == Next(queued, old(PendingNonce(a)))
      ensures OthersKeep(state, old(pendingNonces), pendingNonces, a)
      ensures beats == Heard(old(beats), Executable(queued, old(PendingNonce(a))), a, now)
      ensures AccountOk(all, a, Get(pending, a), rest) && OnlyOf(old(all), all, a) && all <= old(all)
    {
      rest := Ready(a, queued, now);
      rest := Limit(a, rest, limit);
    }

    /** Drops what is outdated or too dear from a queue. */
    method Prune(a: nat, list: Items, dear: Tx -> bool) returns (queued: Items)
      requires AccountOk(all, a, Get(pending, a), list)
      modifies this`all
      ensures queued == Payable(list, state.nonce(a), dear)
      ensures AccountOk(all, a, Get(pending, a), queued) && OnlyOf(old(all), all, a) && all <= old(all)
    {
      var gone := Below(list, state.nonce(a));
      DropQueued(all, a, Get(pending, a), list, gone);
      queued := From(list, state.nonce(a));
      assert list - gone.Keys == queued;
      all := all - gone.Values;
      gone := Matches(queued, dear);
      DropQueued(all, a, Get(pending, a), queued, gone);
      all := all - gone.Values;
      queued := queued - gone.Keys;
    }

    /** Promotes the run of executable transactions out of a queue. */
    method Ready(a: nat, queued: Items, now: nat) returns (rest: Items)
      requires AccountOk(all, a, Get(pending, a), queued) && NoneEmpty(pending)
      modifies this`pending, this`all, this`beats, this`pendingNonces
      ensures rest == queued - Executable(queued, old(PendingNonce(a))).Keys
      ensures pending == Put(old(pending), a, Get(old(pending), a) + Executable(queued, old(PendingNonce(a))))
      ensures AccountOk(all, a, Get(pending, a), rest) && all == old(all)
      ensures PendingNonce(a) == Next(queued, old(PendingNonce(a)))
      ensures OthersKeep(state, old(pendingNonces), pendingNonces, a)
      ensures beats == Heard(old(beats), Executable(queued, old(PendingNonce(a))), a, now)
    {
      ghost var p := Get(pending, a);
      ghost var run := Executable(queued, PendingNonce(a));
      Promote(all, a, p, queued, run);
      if queued != map[] && Least(queued.Keys) <= PendingNonce(a) {
        var lo := Least(queued.Keys);
        var end := RunEnd(queued, lo);
        RunOf(queued, lo, end, PendingNonce(a));
        PromoteRun(a, queued, lo, end, now);
        rest := From(queued, end);
      } else {
        rest := queued;
        SameList(pending, a);
        assert p + map[] == p;
      }
    }

    /** Drops what is over the account's limit. */
    method Limit(a: nat, list: Items, limit: Option<nat>) returns (kept: Items)
      requires AccountOk(all, a, Get(pending, a), list)
      modifies this`all
      ensures kept == Capped(list, limit)
      ensures AccountOk(all, a, Get(pending, a), kept) && OnlyOf(old(all), all, a) && all <= old(all)
    {
      kept := Capped(list, limit);
      var gone := list - kept.Keys;
      DropQueued(all, a, Get(pending, a), list, gone);
      Complement(list, kept);
      all := all - gone.Values;
    }

    function QueueLimit(a: nat): Option<nat>
      reads this
    {
      LimitFor(locals, config.accountQueue, a)
    }

    /**
     Takes a transaction out of the pool. Pending ones after it go back to the
     queue, and the pending nonce falls back to it.
     */
    method RemoveTx(tx: Tx)
      requires Valid() && tx in all
      modifies this`pending, this`queue, this`all, this`beats, this`pendingNonces
      ensures Valid() && (old(Contiguous()) ==> Contiguous())
      ensures Now() == Removed(tx, old(Now()))
      ensures In(Get(old(pending), tx.from), tx) ==>
        PendingNonce(tx.from) == (if old(PendingNonce(tx.from)) > tx.nonce then tx.nonce else old(PendingNonce(tx.from)))
      ensures !In(Get(old(pending), tx.from), tx) ==> pendingNonces == old(pendingNonces)
      ensures OthersKeep(state, old(pendingNonces), pendingNonces, tx.from)
      ensures beats == if In(Get(old(pending), tx.from), tx) && Get(pending, tx.from) == map[] then old(beats) - {tx.from} else old(beats)
    {
      assert AccountOk(all, tx.from, Get(pending, tx.from), Get(queue, tx.from));
      if tx.from in pending && tx.nonce in pending[tx.from] {
        RemovePending(tx);
      } else {
        RemoveQueued(tx);
      }
    }

    method RemovePending(tx: Tx)
      requires Valid() && In(Get(pending, tx.from), tx)
      modifies this`pending, this`queue, this`all, this`beats, this`pendingNonces
      ensures Valid() && (old(Contiguous()) ==> Contiguous())
      ensures Now() == Removed(tx, old(Now()))
      ensures PendingNonce(tx.from) == if old(PendingNonce(tx.from)) > tx.nonce then tx.nonce else old(PendingNonce(tx.from))
      ensures beats == if Get(pending, tx.from) == map[] then old(beats) - {tx.from} else old(beats)
      ensures OthersKeep(state, old(pendingNonces), pendingNonces, tx.from)
    {
      ghost var nonces := if PendingNonce(tx.from) > tx.nonce then pendingNonces[tx.from := tx.nonce] else pendingNonces;
      RemovalKeeps(state, all, pending, queue, pendingNonces, tx, nonces);
      RemovalViews(tx, Now());
      Fewer(all - {tx}, all);
      CutPending(tx);
      if PendingNonce(tx.from) > tx.nonce {
        pendingNonces := pendingNonces[tx.from := tx.nonce];
      }
    }

    /** Takes a pending transaction out of the lists, and queues those after it. */
    method CutPending(tx: Tx)
      requires In(Get(pending, tx.from), tx)
      modifies this`pending, this`queue, this`all, this`beats
      ensures Now() == Removed(tx, old(Now()))
      ensures beats == if Get(pending, tx.from) == map[] then old(beats) - {tx.from} else old(beats)
    {
      var a := tx.from;
      var p := Get(pending, a);
      var kept := Below(p, tx.nonce);
      RemovalViews(tx, Now());
      all := all - {tx};
      pending := Put(pending, a, kept);
      queue := Put(queue, a, Get(queue, a) + From(p, tx.nonce + 1));
      if kept == map[] {
        beats := beats - {a};
      }
    }

    method RemoveQueued(tx: Tx)
      requires Valid() && In(Get(queue, tx.from), tx)
      modifies this`queue, this`all
      ensures Valid() && (old(Contiguous()) ==> Contiguous())
      ensures !In(Get(pending, tx.from), tx) ==> Now() == Removed(tx, old(Now()))
      ensures all == old(all) - {tx}
    {
      var a := tx.from;
      var q := Get(queue, a);
      UnqueueKeeps(state, all, pending, queue, pendingNonces, tx);
      Fewer(all - {tx}, all);
      all := all - {tx};
      queue := Put(queue, a, q - {tx.nonce});
    }

    /**
     Drops an account's pending transactions that are outdated or too dear, and
     moves those that are no longer executable back to the queue.
     */
    method DemoteAccount(a: nat)
      requires Valid() && a in pending
      modifies this`pending, this`queue, this`all, this`beats
      ensures Valid() && all <= old(all)
      ensures (pending, queue) == DemotedLists(old(pending), old(queue), a, state.nonce(a), old(Dear(a)))
      ensures beats == if Get(pending, a) == map[] then old(beats) - {a} else old(beats)
    {
      var p, q, dear := Get(pending, a), Get(queue, a), Dear(a);
      assert AccountOk(all, a, p, q);
      var stay, longer := DemoteList(a, p, q, dear);
      StoreLists(a, stay, longer, old(all));
    }

    /** Stores both lists of an account; without pending transactions its heartbeat is forgotten. */
    method StoreLists(a: nat, stay: Items, longer: Items, ghost before: set<Tx>)
      requires PoolOk(before, pending, queue) && AccountOk(all, a, stay, longer) && OnlyOf(before, all, a)
      requires all <= before && |before| <= config.globalSlots + config.globalQueue
      modifies this`pending, this`queue, this`beats
      ensures Valid() && (pending, queue) == (Put(old(pending), a, stay), Put(old(queue), a, longer))
      ensures beats == if stay == map[] then old(beats) - {a} else old(beats)
    {
      OneAccount(before, pending, queue, a, all, stay, longer);
      Fewer(all, before);
      queue := Put(queue, a, longer);
      pending := Put(pending, a, stay);
      if stay == map[] {
        beats := beats - {a};
      }
    }

    /** The steps of a demotion, on the account's two lists. */
    method DemoteList(a: nat, p: Items, q: Items, dear: Tx -> bool) returns (stay: Items, longer: Items)
      requires AccountOk(all, a, p, q)
      modifies this`all
      ensures stay == Staying(p, state.nonce(a), dear) && longer == q + Demoted(p, state.nonce(a), dear)
      ensures AccountOk(all, a, stay, longer) && OnlyOf(old(all), all, a) && all <= old(all)
    {
      var nonce := state.nonce(a);
      var gone := Below(p, nonce);
      DropPending(all, a, p, q, gone);
      all := all - gone.Values;
      stay := From(p, nonce);
      assert p - gone.Keys == stay;
      stay, longer := FilterPending(a, stay, q, dear);
      DemotedParts(p, q, nonce, dear);
      if stay != map[] && nonce !in stay {
        Demote(all, a, stay, longer, stay);
        assert stay - stay.Keys == map[];
        longer := longer + stay;
        stay := map[];
      }
    }

    /** Drops the first pending transaction that is too dear, and queues those after it. */
    method FilterPending(a: nat, p: Items, q: Items, dear: Tx -> bool) returns (stay: Items, longer: Items)
      requires AccountOk(all, a, p, q)
      modifies this`all
      ensures stay == Affordable(p, dear) && longer == q + (p - Unpaid(p, dear).Keys - stay.Keys)
      ensures AccountOk(all, a, stay, longer) && OnlyOf(old(all), all, a) && all <= old(all)
    {
      if Matches(p, dear) == map[] {
        stay, longer := p, q;
        assert p - Unpaid(p, dear).Keys - p.Keys == map[];
      } else {
        var cut := Least(Matches(p, dear).Keys);
        CutParts(p, cut);
        OneOut(all, a, p, q, cut);
        all := all - {p[cut]};
        Demote(all, a, p - {cut}, q, From(p, cut + 1));
        stay, longer := Below(p, cut), q + From(p, cut + 1);
        assert Unpaid(p, dear).Keys == {cut};
      }
    }

    /** Demotes every account. */
    method DemoteUnexecutables()
      requires Valid()
      modifies this`pending, this`queue, this`all, this`beats
      ensures Valid() && all <= old(all)
      ensures AllDemoted(state, maxGas, old(pending), old(queue), pending, queue)
      ensures beats == old(beats) - (old(pending).Keys - pending.Keys)
    {
      var rest := pending.Keys;
      NobodyElse(state, maxGas, pending, queue);
      while rest != {}
        invariant Valid() && all <= old(all) && rest <= pending.Keys
        invariant Falling(Checks(), old(Staged()), Staged(), rest)
        decreases |rest|
      {
        var a :| a in rest;
        DemoteNext(a, old(Staged()), rest);
        rest := rest - {a};
      }
    }

    /** An account's demotion among others. */
    method DemoteNext(a: nat, ghost was: Stage, ghost rest: set<nat>)
      requires Valid() && a in rest && rest <= pending.Keys && Falling(Checks(), was, Staged(), rest)
      modifies this`pending, this`queue, this`all, this`beats
      ensures Valid() && all <= old(all) && rest - {a} <= pending.Keys && Falling(Checks(), was, Staged(), rest - {a})
    {
      ghost var dear := Dear(a);
      DemoteAccount(a);
      FallingOn(Checks(), was, old(Staged()), Staged(), rest, dear, a);
    }

    /** Sets the pending nonce of every account with pending transactions to the one after the last. */
    method SetPendingNonces()
      requires Valid()
      modifies this`pendingNonces
      ensures pendingNonces == old(pendingNonces) + NoncesAfter(pending)
    {
      var rest := pending.Keys;
      while rest != {}
        invariant rest <= pending.Keys && pendingNonces.Keys == old(pendingNonces).Keys + (pending.Keys - rest)
        invariant forall a :: a in pendingNonces ==>
          pendingNonces[a] == if a in pending.Keys - rest then NoncesAfter(pending)[a] else old(pendingNonces)[a]
        decreases |rest|
      {
        var a :| a in rest;
        rest := rest - {a};
        pendingNonces := pendingNonces[a := Greatest(pending[a].Keys) + 1];
      }
    }

    /** Promotes the given accounts, then caps the queues. */
    method PromoteExecutables(accounts: set<nat>, now: nat)
      requires Valid()
      modifies this`pending, this`queue, this`all, this`beats, this`pendingNonces
      ensures Valid() && (old(Contiguous()) ==> Contiguous()) && all <= old(all)
      ensures forall a :: a in accounts ==> Settled(state, pendingNonces, queue, a)
      ensures PromotedTo(Checks(), config, now, old(Staged()), Staged(), accounts) && Within(queue, locals, config.globalQueue)
      ensures Few(queue, locals, config.accountQueue, accounts)
    {
      PromoteEach(accounts, now);
      AlongAll(Checks(), config.accountQueue, now, old(Staged()), Staged(), accounts);
      ghost var before := queue;
      CapQueue();
      SettledStays(state, pendingNonces, old(queue), before, queue, locals, accounts);
      assert Limited(Checks(), config, old(pendingNonces), old(queue), accounts, queue, beats);
      FewLeft(Checks(), config.accountQueue, old(pendingNonces), old(queue), accounts, before, queue);
    }

    method PromoteEach(accounts: set<nat>, now: nat)
      requires Valid()
      modifies this`pending, this`queue, this`all, this`beats, this`pendingNonces
      ensures Valid() && (old(Contiguous()) ==> Contiguous()) && all <= old(all)
      ensures Along(Checks(), config.accountQueue, now, old(Staged()), Staged(), accounts, {})
    {
      var rest := accounts;
      AlongStart(Checks(), config.accountQueue, now, Staged(), accounts);
      while rest != {}
        invariant rest <= accounts && Valid() && (old(Contiguous()) ==> Contiguous()) && all <= old(all)
        invariant Along(Checks(), config.accountQueue, now, old(Staged()), Staged(), accounts, rest)
        decreases |rest|
      {
        var a :| a in rest;
        TakeTurn(a, now, old(Staged()), accounts, rest);
        rest := rest - {a};
      }
    }

    /** An account's turn among others. */
    method TakeTurn(a: nat, now: nat, ghost was: Stage, ghost accounts: set<nat>, ghost rest: set<nat>)
      requires Valid() && a in rest && rest <= accounts && Along(Checks(), config.accountQueue, now, was, Staged(), accounts, rest)
      modifies this`pending, this`queue, this`all, this`beats, this`pendingNonces
      ensures Valid() && (old(Contiguous()) ==> Contiguous()) && all <= old(all)
      ensures Along(Checks(), config.accountQueue, now, was, Staged(), accounts, rest - {a})
    {
      ghost var dear, limit := Dear(a), QueueLimit(a);
      PromoteNext(a, now);
      AlongOn(Checks(), config.accountQueue, now, was, old(Staged()), Staged(), accounts, rest, dear, limit, a);
    }

    /** An account's turn, if it has queued transactions. */
    method PromoteNext(a: nat, now: nat)
      requires Valid()
      modifies this`pending, this`queue, this`all, this`beats, this`pendingNonces
      ensures Valid() && (old(Contiguous()) ==> Contiguous()) && all <= old(all)
      ensures (pending, queue, PendingNonce(a)) ==
        PromotedLists(old(pending), old(queue), a, state.nonce(a), old(PendingNonce(a)), old(Dear(a)), old(QueueLimit(a)))
      ensures OthersKeep(state, old(pendingNonces), pendingNonces, a)
      ensures beats == Heard(old(beats), Executable(Payable(Get(old(queue), a), state.nonce(a), old(Dear(a))), old(PendingNonce(a))), a, now)
    {
      NothingQueued(pending, queue, a, state.nonce(a), PendingNonce(a), Dear(a), QueueLimit(a));
      EmptyQueue(state.nonce(a), PendingNonce(a), Dear(a), QueueLimit(a));
      if a in queue {
        PromoteExecutable(a, now);
      }
    }

    /** Promotes one account of a pool in the given stage. */
    method PromoteOf(a: nat, now: nat, ghost was: Stage)
      requires Valid() && was == Staged()
      modifies this`pending, this`queue, this`all, this`beats, this`pendingNonces
      ensures Valid() && (old(Contiguous()) ==> Contiguous()) && all <= old(all)
      ensures Settled(state, pendingNonces, queue, a)
      ensures PromotedTo(Checks(), config, now, was, Staged(), {a}) && Within(queue, locals, config.globalQueue)
      ensures Few(queue, locals, config.accountQueue, {a})
    {
      PromoteExecutables({a}, now);
    }

    /** Adds a transaction and promotes what has become executable by it. */
    method AddTx(tx: Tx, form: Form, local: bool, now: nat) returns (r: Result)
      requires Valid()
      modifies this`pending, this`queue, this`all, this`locals, this`beats, this`pendingNonces
      ensures Valid() && (old(Contiguous()) ==> Contiguous())
      ensures r.Rejected? ==> pending == old(pending) && queue == old(queue) && all == old(all)
      ensures Judged(old(Checks()), Places(), config.priceBump, old(Now()), tx, form, local, r)
      ensures locals == if r.Added? && local && tx.nonce !in Get(old(pending), tx.from) then old(locals) + {tx.from} else old(locals)
      ensures r == Added(false) ==> Settled(state, pendingNonces, queue, tx.from)
      ensures r == Added(false) ==> var v := Inserted(tx, config.priceBump, old(Now())).1;
        PromotedTo(Checks(), config, now, Stage(old(pendingNonces), v.pending, v.queue, old(beats)), Staged(), {tx.from})
      ensures r == Added(false) ==> Within(queue, locals, config.globalQueue) && Few(queue, locals, config.accountQueue, {tx.from})
      ensures r != Added(false) ==> pendingNonces == old(pendingNonces) && beats == old(beats)
      ensures r == Added(true) ==> Now() == Inserted(tx, config.priceBump, old(Now())).1
      ensures all <= old(all) + {tx}
    {
      InsertedOnly(tx, config.priceBump, Now());
      ghost var v := Inserted(tx, config.priceBump, Now()).1;
      r := Add(tx, form, local);
      if r == Added(false) {
        PromoteOf(tx.from, now, Stage(old(pendingNonces), v.pending, v.queue, old(beats)));
      }
    }

    ghost function Staged(): Stage
      reads this
    {
      Stage(pendingNonces, pending, queue, beats)
    }

    /** What adding the transactions of an abandoned branch would do under a new chain state. */
    ghost function AddedUnder(newState: State, gasLimit: nat, txs: seq<Tx>, forms: Tx -> Form): Readded
      reads this
    {
      AddedAll(Rules(newState, gasLimit, gasPrice, locals), Places(), config.priceBump, Now(), txs, forms)
    }

    /**
     Moves the pool to a new chain state. Transactions of an abandoned branch are
     added again first; then every account is demoted and promoted. Contiguity survives
     exactly if no account's reinjected run stops short of what was pending.
     */
    method Reset(newState: State, gasLimit: nat, reinject: seq<Tx>, forms: Tx -> Form, now: nat)
      returns (accepted: bool, ghost mid: Stage, ghost low: Stage)
      requires Valid()
      modifies this
      ensures Valid() && state == newState && maxGas == gasLimit
      ensures var added := old(AddedUnder(newState, gasLimit, reinject, forms));
        && accepted == added.accepted
        && (old(Contiguous()) ==> (Contiguous() <==> NobodyBreaks(old(state), old(pendingNonces), newState, gasLimit, added)))
      ensures old(Contiguous()) && accepted && Covers(reinject, old(state), newState) ==> Contiguous()
      ensures forall a :: Settled(state, pendingNonces, queue, a)
      ensures Reinjected(Checks(), config, now, old(AddedUnder(newState, gasLimit, reinject, forms)), old(beats), mid)
      ensures Fallen(Checks(), mid, low) && PromotedTo(Checks(), config, now, low, Staged(), low.queue.Keys)
      ensures Within(queue, locals, config.globalQueue) && Few(queue, locals, config.accountQueue, queue.Keys)
      ensures locals == old(locals) && gasPrice == old(gasPrice)
    {
      ghost var added := AddedUnder(newState, gasLimit, reinject, forms);
      AddedAllPlaces(Rules(newState, gasLimit, gasPrice, locals), Places(), config.priceBump, Now(), reinject, forms);
      state, maxGas, pendingNonces := newState, gasLimit, map[];
      accepted := Readd(reinject, forms, now);
      CoveredNobodyBreaks(reinject, old(state), old(pendingNonces), old(pending), old(queue), newState, gasLimit, added);
      mid := Staged();
      low := Resettle(old(state), old(pendingNonces), old(pending), old(queue), added, now);
    }

    /** Demotes every account, sets the pending nonces and promotes all that is queued. */
    method Resettle(ghost was: State, ghost nonces: map<nat, nat>, ghost pending0: Lists, ghost queue0: Lists, ghost added: Readded, now: nat)
      returns (ghost low: Stage)
      requires Valid() && SameKeys(pending0, added.views.pending) && PoolOk(added.views.all, added.views.pending, added.views.queue)
      requires AllPromoted(state, maxGas, map[], added.views.pending, added.views.queue, pendingNonces, pending, added.dirty)
      requires Shrunk(added.views.queue, queue, {})
      modifies this`pending, this`queue, this`all, this`beats, this`pendingNonces
      ensures Valid()
      ensures AllContig(was, nonces, pending0, queue0) ==> (Contiguous() <==> NobodyBreaks(was, nonces, state, maxGas, added))
      ensures forall a :: Settled(state, pendingNonces, queue, a)
      ensures Fallen(Checks(), old(Staged()), low) && PromotedTo(Checks(), config, now, low, Staged(), low.queue.Keys)
      ensures Within(queue, locals, config.globalQueue) && Few(queue, locals, config.accountQueue, queue.Keys)
    {
      ghost var nonces1, pending1, queue1 := pendingNonces, pending, queue;
      DemoteAll(was, nonces, pending0, queue0, added);
      ghost var nonces2, pending2, queue2 := pendingNonces, pending, queue;
      low := Staged();
      PromoteAll(now);
      if AllContig(was, nonces, pending0, queue0) && !NobodyBreaks(was, nonces, state, maxGas, added) {
        var a :| a in added.dirty && Breaks(was, nonces, state, maxGas, added.views, a);
        assert ContigAt(was, nonces, pending0, queue0, a);
        BreakStays(was, nonces, pending0, queue0, state, maxGas, added, nonces1, pending1, queue1, nonces2, pending2, queue2,
                   pendingNonces, pending, queue, queue2.Keys, a);
      }
    }

    /** Promotes every account with queued transactions. */
    method PromoteAll(now: nat)
      requires Valid()
      modifies this`pending, this`queue, this`all, this`beats, this`pendingNonces
      ensures Valid() && (old(Contiguous()) ==> Contiguous())
      ensures forall a :: Settled(state, pendingNonces, queue, a)
      ensures PromotedTo(Checks(), config, now, old(Staged()), Staged(), old(queue).Keys)
      ensures Within(queue, locals, config.globalQueue) && Few(queue, locals, config.accountQueue, queue.Keys)
    {
      PromoteExecutables(queue.Keys, now);
      forall a
        ensures Settled(state, pendingNonces, queue, a)
      {
        assert Part(Get(queue, a), Get(old(queue), a));
      }
    }

    /** Demotes every account and sets the pending nonces. */
    method DemoteAll(ghost was: State, ghost nonces: map<nat, nat>, ghost pending0: Lists, ghost queue0: Lists, ghost added: Readded)
      requires Valid() && SameKeys(pending0, added.views.pending) && PoolOk(added.views.all, added.views.pending, added.views.queue)
      requires AllPromoted(state, maxGas, map[], added.views.pending, added.views.queue, pendingNonces, pending, added.dirty)
      requires Shrunk(added.views.queue, queue, {})
      modifies this`pending, this`queue, this`all, this`beats, this`pendingNonces
      ensures Valid() && Passed(state, maxGas, added, old(pendingNonces), old(pending), old(queue), pending, queue)
      ensures AllContig(was, nonces, pending0, queue0) && NobodyBreaks(was, nonces, state, maxGas, added) ==> Contiguous()
      ensures Fallen(Checks(), old(Staged()), Staged())
    {
      DemoteUnexecutables();
      SetPendingNonces();
      if AllContig(was, nonces, pending0, queue0) && NobodyBreaks(was, nonces, state, maxGas, added) {
        ResetContig(was, nonces, pending0, queue0, state, maxGas, added, old(pendingNonces), old(pending), old(queue), old(all), pending, queue);
      }
    }

    /** Adds the transactions of an abandoned branch again, and promotes the accounts that have more of them now. */
    method Readd(reinject: seq<Tx>, forms: Tx -> Form, now: nat) returns (accepted: bool)
      requires Valid() && pendingNonces == map[]
      modifies this`pending, this`queue, this`all, this`locals, this`beats, this`pendingNonces
      ensures Valid()
      ensures var added := AddedAll(old(Checks()), Places(), config.priceBump, old(Now()), reinject, forms);
        && accepted == added.accepted && PoolOk(added.views.all, added.views.pending, added.views.queue)
        && AllPromoted(state, maxGas, map[], added.views.pending, added.views.queue, pendingNonces, pending, added.dirty)
        && Shrunk(added.views.queue, queue, {}) && Reinjected(Checks(), config, now, added, old(beats), Staged())
      ensures locals == old(locals)
    {
      var dirty;
      accepted, dirty := AddAll(reinject, forms);
      if dirty != {} {
        PromoteExecutables(dirty, now);
      }
    }

    /** Adds transactions one by one; says whether all were accepted and which accounts have more of them now. */
    method AddAll(txs: seq<Tx>, forms: Tx -> Form) returns (accepted: bool, dirty: set<nat>)
      requires Valid()
      modifies this`pending, this`queue, this`all, this`locals
      ensures Valid() && locals == old(locals)
      ensures Readded(Now(), dirty, accepted) == AddedAll(old(Checks()), Places(), config.priceBump, old(Now()), txs, forms)
    {
      accepted, dirty := true, {};
      for i := 0 to |txs|
        invariant Valid() && locals == old(locals)
        invariant Readded(Now(), dirty, accepted) == AddedAll(old(Checks()), Places(), config.priceBump, old(Now()), txs[..i], forms)
      {
        assert txs[..i + 1][..i] == txs[..i];
        var r := Add(txs[i], forms(txs[i]), false);
        accepted := accepted && r.Added?;
        if r == Added(false) {
          dirty := dirty + {txs[i].from};
        }
      }
      assert txs[..|txs|] == txs;
    }

    /** Replaces an account's queue by part of it. */
    method ShrinkQueue(a: nat, kept: Items)
      requires Valid() && Part(kept, Get(queue, a))
      modifies this`queue, this`all
      ensures Valid() && (old(Contiguous()) ==> Contiguous())
      ensures queue == Put(old(queue), a, kept) && all <= old(all)
    {
      var q := Get(queue, a);
      var gone := q - kept.Keys;
      ShrinkKeeps(state, all, pending, queue, pendingNonces, a, kept);
      Fewer(all - gone.Values, all);
      all := all - gone.Values;
      queue := Put(queue, a, kept);
    }

    /** Drops the queues of accounts that have been idle for too long, except local ones. */
    method Evict(now: nat, lifetime: nat)
      requires Valid()
      modifies this`queue, this`all
      ensures Valid() && (old(Contiguous()) ==> Contiguous())
      ensures queue == Survivors(old(queue), {}, locals, beats, now, lifetime)
      ensures forall a :: a in queue <==> a in old(queue) && (a in locals || (a in beats && now <= beats[a] + lifetime))
      ensures forall a :: a in queue ==> queue[a] == old(queue)[a]
    {
      var rest := queue.Keys;
      EverybodyYet(queue, locals, beats, now, lifetime);
      while rest != {}
        invariant Valid() && (old(Contiguous()) ==> Contiguous())
        invariant rest <= old(queue).Keys && queue == Survivors(old(queue), rest, locals, beats, now, lifetime)
        decreases |rest|
      {
        var a :| a in rest;
        OneMoreTurn(old(queue), rest, locals, beats, now, lifetime, a);
        if a !in locals && Idle(beats, a, now, lifetime) {
          ShrinkQueue(a, map[]);
        }
        rest := rest - {a};
      }
    }

    /** Drops queued transactions of non-local accounts while the queues together are over the limit. */
    method CapQueue()
      requires Valid()
      modifies this`queue, this`all
      ensures Valid() && (old(Contiguous()) ==> Contiguous())
      ensures Trimmed(old(queue), queue, locals, beats, config.globalQueue) && all <= old(all)
    {
      var queued := Count();
      if queued > config.globalQueue {
        var addresses := Droppable();
        var drop: nat := queued - config.globalQueue;
        while drop > 0 && |addresses| > 0
          invariant Valid() && (old(Contiguous()) ==> Contiguous()) && all <= old(all)
          invariant Total(queue) == config.globalQueue + drop && Dropping(old(queue), queue, locals, beats)
          invariant drop > 0 ==> Waiting(old(queue), queue, locals, beats, addresses)
          decreases |addresses|
        {
          drop := DropNext(old(queue), addresses, drop);
          addresses := addresses[..|addresses| - 1];
        }
      }
    }

    /** The turn of the account listed last. */
    method DropNext(ghost was: Lists, addresses: seq<nat>, drop: nat) returns (left: nat)
      requires Valid() && drop > 0 && |addresses| > 0
      requires Dropping(was, queue, locals, beats) && Waiting(was, queue, locals, beats, addresses)
      modifies this`queue, this`all
      ensures Valid() && (old(Contiguous()) ==> Contiguous()) && all <= old(all) && Total(queue) + drop == Total(old(queue)) + left
      ensures Dropping(was, queue, locals, beats)
      ensures left > 0 ==> Waiting(was, queue, locals, beats, addresses[..|addresses| - 1])
    {
      var a := addresses[|addresses| - 1];
      left := DropLast(a, drop);
      ShrinkMore(was, old(queue), queue, a, locals);
      NextDropped(was, old(queue), queue, locals, beats, addresses);
      forall b
        ensures Lowest(Get(queue, b), Get(was, b))
      {
        assert Lowest(Get(old(queue), b), Get(was, b));
      }
    }

    /** Takes up to `drop` transactions off the top of a queue; says how many are left to drop. */
    method DropLast(a: nat, drop: nat) returns (left: nat)
      requires Valid() && drop > 0
      modifies this`queue, this`all
      ensures Valid() && (old(Contiguous()) ==> Contiguous()) && all <= old(all)
      ensures Total(queue) + drop == Total(old(queue)) + left && (a in queue ==> left == 0)
      ensures Part(Get(queue, a), Get(old(queue), a)) && Lowest(Get(queue, a), Get(old(queue), a))
      ensures forall b :: b != a ==> Get(queue, b) == Get(old(queue), b)
    {
      var list := Get(queue, a);
      LowestCap(list, if |list| <= drop then 0 else |list| - drop);
      TotalPut(queue, a, CapAt(list, if |list| <= drop then 0 else |list| - drop));
      if |list| <= drop {
        left := drop - |list|;
        ShrinkQueue(a, map[]);
      } else {
        left := 0;
        ShrinkQueue(a, CapAt(list, |list| - drop));
      }
    }

    /** How many transactions are queued. */
    method Count() returns (n: nat)
      ensures n == Total(queue)
    {
      n := 0;
      var rest := queue;
      while rest != map[]
        invariant n + Total(rest) == Total(queue)
        decreases |rest|
      {
        var a :| a in rest;
        TotalWithout(rest, a);
        n := n + |rest[a]|;
        Shorter(rest, a);
        rest := rest - {a};
      }
    }

    /** The non-local accounts with queued transactions, by the time of their last activity. */
    method Droppable() returns (addresses: seq<nat>)
      ensures Waiting(queue, queue, locals, beats, addresses)
    {
      var found := Members(queue.Keys - locals);
      var heard := beats;
      addresses := Sort(found, (a: nat) => BeatOf(heard, a));
      SortedMembers(found, addresses);
      ByBeat(addresses, heard);
    }

    /** Sets the price floor and drops what is under it, except for local accounts. */
    method SetGasPrice(price: nat)
      requires Valid()
      modifies this`gasPrice, this`pending, this`queue, this`all, this`beats, this`pendingNonces
      ensures Valid() && (old(Contiguous()) ==> Contiguous())
      ensures gasPrice == price && all == set tx | tx in old(all) && (tx.price >= price || tx.from in locals)
      ensures CutTo(old(pending), pending, {}, Floor(price, locals))
    {
      gasPrice := price;
      var rest := all;
      CutNobody(Now(), Floor(price, locals));
      while rest != {}
        invariant Valid() && (old(Contiguous()) ==> Contiguous())
        invariant rest <= all <= old(all) && gasPrice == price && CutTo(old(pending), pending, rest, Floor(price, locals))
        invariant forall tx :: tx in old(all) && tx !in rest ==> (tx in all <==> tx.price >= price || tx.from in locals)
        decreases |rest|
      {
        var tx :| tx in rest;
        CutOne(old(Now()), Now(), rest, Floor(price, locals), tx);
        rest := rest - {tx};
        if tx.price < price && tx.from !in locals {
          RemoveTx(tx);
        }
      }
    }
  }

  /** The transactions with nonces from `lo` up to `hi`. */
  function Span(items: Items, lo: nat, hi: nat): Items {
    map n | n in items && lo <= n < hi :: items[n]
  }

  ghost predicate Covered(items: Items, lo: nat, hi: nat, all: set<Tx>) {
    forall n: nat :: lo <= n < hi ==> n in items && items[n].nonce == n && items[n] in all
  }

  /** The run of an account has been promoted up to the nonce `n`. */
  ghost predicate RunUpTo(pending: Lists, nonces: map<nat, nat>, beats: map<nat, nat>, pending': Lists, nonces': map<nat, nat>,
      beats': map<nat, nat>, a: nat, queued: Items, lo: nat, n: nat, now: nat) {
    && Get(pending', a) == Get(pending, a) + Span(queued, lo, n)
    && (n > lo ==> pending' == pending[a := Get(pending, a) + Span(queued, lo, n)] && nonces' == nonces[a := n] && beats' == beats[a := now])
    && (n <= lo ==> pending' == pending && nonces' == nonces && beats' == beats)
  }

  lemma RunMore(pending0: Lists, nonces0: map<nat, nat>, beats0: map<nat, nat>, pending: Lists, nonces: map<nat, nat>, beats: map<nat, nat>, a: nat,
      queued: Items, lo: nat, n: nat, now: nat)
    requires RunUpTo(pending0, nonces0, beats0, pending, nonces, beats, a, queued, lo, n, now)
    requires lo <= n && n in queued && queued.Keys !! Get(pending0, a).Keys
    ensures n !in Get(pending, a)
    ensures RunUpTo(pending0, nonces0, beats0, pending[a := Get(pending, a)[n := queued[n]]], nonces[a := n + 1], beats[a := now], a, queued,
                    lo, n + 1, now)
  {
    SpanMore(Get(pending0, a), queued, lo, n);
    Overwrite(pending0, a, Get(pending, a), Get(pending, a)[n := queued[n]]);
    Overwrite(nonces0, a, n, n + 1);
    Overwrite(beats0, a, now, now);
  }

  lemma Overwrite<T>(m: map<nat, T>, a: nat, x: T, y: T)
    ensures m[a := x][a := y] == m[a := y]
  {
  }

  lemma SpanStart(p: Items, items: Items, lo: nat)
    ensures p + Span(items, lo, lo) == p
  {
  }

  lemma SpanMore(p: Items, items: Items, lo: nat, n: nat)
    requires lo <= n && n in items && p.Keys !! items.Keys
    ensures n !in p + Span(items, lo, n)
    ensures p + Span(items, lo, n + 1) == (p + Span(items, lo, n))[n := items[n]]
  {
  }

  /** The run of a queue, its span and what is left. */
  lemma RunOf(queued: Items, lo: nat, end: nat, pendingNonce: nat)
    requires queued != map[] && lo == Least(queued.Keys) <= pendingNonce && end == RunEnd(queued, lo)
    ensures lo < end && lo in queued && Executable(queued, pendingNonce) == Span(queued, lo, end)
    ensures From(queued, end) == queued - Executable(queued, pendingNonce).Keys
    ensures Span(queued, lo, end) != map[]
  {
    assert lo in Span(queued, lo, end);
  }

  lemma Complement(whole: Items, part: Items)
    requires Part(part, whole)
    ensures whole - (whole - part.Keys).Keys == part && Part(whole - part.Keys, whole)
  {
  }

  /** How many transactions some lists hold. */
  ghost function Total(lists: Lists): nat
    decreases |lists|
  {
    if lists == map[] then 0
    else
      var a := Least(lists.Keys);
      Shorter(lists, a);
      |lists[a]| + Total(lists - {a})
  }

  lemma Shorter(lists: Lists, a: nat)
    requires a in lists
    ensures |lists - {a}| < |lists|
  {
    assert (lists - {a}).Keys == lists.Keys - {a};
  }

  /** The total counts every list once, in whatever order. */
  lemma {:induction false} TotalWithout(lists: Lists, a: nat)
    requires a in lists
    ensures Total(lists) == |lists[a]| + Total(lists - {a})
    decreases |lists|
  {
    var b := Least(lists.Keys);
    if a == b {
    } else {
      Shorter(lists, b);
      TotalWithout(lists - {b}, a);
      Shorter(lists, a);
      assert b == Least((lists - {a}).Keys) by { assert b in (lists - {a}).Keys; assert Least((lists - {a}).Keys) in lists.Keys; }
      assert lists - {b} - {a} == lists - {a} - {b};
    }
  }

  lemma TotalAdd(lists: Lists, a: nat, items: Items)
    requires a !in lists
    ensures Total(lists[a := items]) == Total(lists) + |items|
  {
    TotalWithout(lists[a := items], a);
    assert lists[a := items] - {a} == lists;
  }

  lemma TotalPut(lists: Lists, a: nat, items: Items)
    requires NoneEmpty(lists)
    ensures Total(Put(lists, a, items)) + |Get(lists, a)| == Total(lists) + |items|
  {
    PutAgain(lists, a, items);
    if a in lists { TotalWithout(lists, a); }
    if items != map[] { TotalAdd(lists - {a}, a, items); }
  }

  lemma PutAgain(lists: Lists, a: nat, items: Items)
    ensures Put(lists, a, items) == if items == map[] then lists - {a} else (lists - {a})[a := items]
    ensures a !in lists ==> lists - {a} == lists
  {
  }

  /** Lists only get shorter, and those of local accounts stay as they are. */
  ghost predicate Shrunk(was: Lists, now: Lists, locals: set<nat>) {
    forall a {:trigger Get(now, a)} :: Part(Get(now, a), Get(was, a)) && (a in locals ==> Get(now, a) == Get(was, a))
  }

  lemma ShrinkMore(was: Lists, mid: Lists, now: Lists, a: nat, locals: set<nat>)
    requires Shrunk(was, mid, locals) && a !in locals && Part(Get(now, a), Get(mid, a))
    requires forall b :: b != a ==> Get(now, b) == Get(mid, b)
    ensures Shrunk(was, now, locals)
  {
    forall b
      ensures Part(Get(now, b), Get(was, b)) && (b in locals ==> Get(now, b) == Get(was, b))
    {
      assert Part(Get(mid, b), Get(was, b));
    }
  }

  /** A queue is shortened only once those of accounts active later have been dropped altogether. */
  ghost predicate LatestFirst(was: Lists, now: Lists, locals: set<nat>, beats: map<nat, nat>) {
    forall a, b {:trigger Get(now, a), Get(now, b)} :: b !in locals && BeatOf(beats, a) < BeatOf(beats, b) && Get(now, a) != Get(was, a) ==> b !in now
  }

  /** What is kept of a list is its lowest nonces. */
  ghost predicate Lowest(part: Items, whole: Items) {
    forall k, n :: n in part && k in whole && k < n ==> k in part
  }

  /**
   What a limit to all queues together makes of them: nothing changes while they are within it; otherwise just so
   much goes that they are, from the top of non-local queues, those of accounts active latest first.
   */
  ghost predicate Trimmed(was: Lists, now: Lists, locals: set<nat>, beats: map<nat, nat>, limit: nat) {
    && (Total(was) <= limit ==> now == was)
    && (Total(was) > limit ==> Total(now) >= limit)
    && Within(now, locals, limit) && Dropping(was, now, locals, beats)
  }

  /** The queues are within the limit, or only local accounts have any. */
  ghost predicate Within(queue: Lists, locals: set<nat>, limit: nat) {
    Total(queue) <= limit || forall a :: a in queue ==> a in locals
  }

  ghost predicate Dropping(was: Lists, now: Lists, locals: set<nat>, beats: map<nat, nat>) {
    && Shrunk(was, now, locals) && LatestFirst(was, now, locals, beats)
    && forall a {:trigger Get(now, a)} :: Lowest(Get(now, a), Get(was, a))
  }

  /** The given accounts have been promoted and the queues have been limited. */
  ghost predicate PromotedTo(rules: Rules, config: Config, now: nat, was: Stage, at: Stage, accounts: set<nat>) {
    && Shrunk(was.queue, at.queue, {})
    && AllPromoted(rules.state, rules.maxGas, was.nonces, was.pending, was.queue, at.nonces, at.pending, accounts)
    && Limited(rules, config, was.nonces, was.queue, accounts, at.queue, at.beats)
    && AllHeard(rules, now, was, at.beats, accounts)
  }

  /** The queues are what the promotion of the given accounts leaves in them, limited altogether. */
  ghost predicate Limited(rules: Rules, config: Config, nonces: map<nat, nat>, queue: Lists, accounts: set<nat>, queue': Lists,
      beats: map<nat, nat>) {
    exists left :: AllLeft(rules, config.accountQueue, nonces, queue, accounts, left) && Trimmed(left, queue', rules.locals, beats, config.globalQueue)
  }

  /** The accounts listed have their queues yet, in order of activity; the other non-local ones have been dealt with. */
  ghost predicate Waiting(was: Lists, now: Lists, locals: set<nat>, beats: map<nat, nat>, addresses: seq<nat>) {
    && (forall a :: a in now ==> a in locals || a in addresses)
    && (forall i :: 0 <= i < |addresses| ==> addresses[i] !in locals && Get(now, addresses[i]) == Get(was, addresses[i]))
    && (forall i, j :: 0 <= i < j < |addresses| ==> BeatOf(beats, addresses[i]) <= BeatOf(beats, addresses[j]))
    && (forall i, j :: 0 <= i < j < |addresses| ==> addresses[i] != addresses[j])
  }

  lemma LowestCap(items: Items, limit: nat)
    ensures Lowest(CapAt(items, limit), items)
  {
    forall k, n | n in CapAt(items, limit) && k in items && k < n
      ensures k in CapAt(items, limit)
    {
      if k !in CapAt(items, limit) { CapKeepsLowest(items, limit, n, k); }
    }
  }

  /** The members of a set, each once, in no particular order. */
  method Members(keys: set<nat>) returns (r: seq<nat>)
    ensures Once(r) && forall a :: a in r <==> a in keys
  {
    r := [];
    var rest := keys;
    while rest != {}
      invariant rest <= keys && Once(r) && forall a :: a in r <==> a in keys - rest
      decreases |rest|
    {
      var a :| a in rest;
      assert a !in r;
      r, rest := r + [a], rest - {a};
    }
  }

  lemma SortedMembers(found: seq<nat>, sorted: seq<nat>)
    requires Once(found) && multiset(sorted) == multiset(found)
    ensures forall a :: a in sorted <==> a in found
    ensures forall i, j :: 0 <= i < j < |sorted| ==> sorted[i] != sorted[j]
  {
    assert forall a :: a in sorted <==> a in multiset(sorted);
    assert forall a :: a in found <==> a in multiset(found);
    forall i, j | 0 <= i < j < |sorted|
      ensures sorted[i] != sorted[j]
    {
      OnceDiffers(sorted, i, j);
    }
  }

  lemma ByBeat(addresses: seq<nat>, heard: map<nat, nat>)
    requires Rising(addresses, (a: nat) => BeatOf(heard, a))
    ensures forall i, j :: 0 <= i < j < |addresses| ==> BeatOf(heard, addresses[i]) <= BeatOf(heard, addresses[j])
  {
    forall i, j | 0 <= i < j < |addresses|
      ensures BeatOf(heard, addresses[i]) <= BeatOf(heard, addresses[j])
    {
      assert ((a: nat) => BeatOf(heard, a))(addresses[i]) <= ((a: nat) => BeatOf(heard, a))(addresses[j]);
    }
  }

  /** The last account listed has been dealt with. */
  lemma NextDropped(was: Lists, before: Lists, now: Lists, locals: set<nat>, beats: map<nat, nat>, addresses: seq<nat>)
    requires Waiting(was, before, locals, beats, addresses) && LatestFirst(was, before, locals, beats) && |addresses| > 0
    requires var a := addresses[|addresses| - 1]; forall b :: b != a ==> Get(now, b) == Get(before, b)
    requires NoneEmpty(now) && NoneEmpty(before) && Part(Get(now, addresses[|addresses| - 1]), Get(before, addresses[|addresses| - 1]))
    ensures LatestFirst(was, now, locals, beats)
    ensures addresses[|addresses| - 1] !in now ==> Waiting(was, now, locals, beats, addresses[..|addresses| - 1])
  {
    var last := addresses[|addresses| - 1];
    forall b | b in now && b != last
      ensures b in before
    {
      assert Get(now, b) == Get(before, b);
    }
    forall a, b | b !in locals && BeatOf(beats, a) < BeatOf(beats, b) && Get(now, a) != Get(was, a)
      ensures b !in now
    {
      if a == last {
        assert b != last && b !in addresses;
      } else {
        assert Get(now, a) == Get(before, a);
        assert b !in before && Get(before, b) == map[];
        if b == last { assert Get(now, b) == map[]; }
      }
    }
  }

  /** The queues that survive an eviction of idle accounts, those in `rest` not having had their turn. */
  ghost function Survivors(was: Lists, rest: set<nat>, locals: set<nat>, beats: map<nat, nat>, now: nat,
      lifetime: nat): Lists {
    map a | a in was && (a in rest || a in locals || !Idle(beats, a, now, lifetime)) :: was[a]
  }

  lemma EverybodyYet(was: Lists, locals: set<nat>, beats: map<nat, nat>, now: nat, lifetime: nat)
    ensures Survivors(was, was.Keys, locals, beats, now, lifetime) == was
  {
  }

  lemma OneMoreTurn(was: Lists, rest: set<nat>, locals: set<nat>, beats: map<nat, nat>, now: nat, lifetime: nat, a: nat)
    requires a in rest && rest <= was.Keys
    ensures var before, after := Survivors(was, rest, locals, beats, now, lifetime), Survivors(was, rest - {a}, locals, beats, now, lifetime);
            && a in before
            && after == if a in locals || !Idle(beats, a, now, lifetime) then before else Put(before, a, map[])
  {
  }

  /** What a price floor lets stay. */
  ghost function Floor(price: nat, locals: set<nat>): Tx -> bool {
    (tx: Tx) => tx.price >= price || tx.from in locals
  }

  /** A pending transaction stays pending if it and all before it may stay; those in `rest` have not been looked at. */
  ghost predicate StillPending(was: Lists, rest: set<Tx>, stays: Tx -> bool, a: nat, n: nat) {
    n in Get(was, a) && forall m :: m in Get(was, a) && m <= n ==> Get(was, a)[m] in rest || stays(Get(was, a)[m])
  }

  ghost predicate CutTo(was: Lists, now: Lists, rest: set<Tx>, stays: Tx -> bool) {
    forall a, n: nat {:trigger StillPending(was, rest, stays, a, n)} :: n in Get(now, a) <==> StillPending(was, rest, stays, a, n)
  }

  lemma CutNobody(v: Views, stays: Tx -> bool)
    requires PoolOk(v.all, v.pending, v.queue)
    ensures CutTo(v.pending, v.pending, v.all, stays)
  {
    forall a, n: nat
      ensures n in Get(v.pending, a) <==> StillPending(v.pending, v.all, stays, a, n)
    {
      assert AccountOk(v.all, a, Get(v.pending, a), Get(v.queue, a));
    }
  }

  /** Looking at one more transaction makes a difference only from it on, and only if it was pending and may not stay. */
  lemma OneLookedAt(v0: Views, rest: set<Tx>, stays: Tx -> bool, tx: Tx, a: nat, n: nat)
    requires PoolOk(v0.all, v0.pending, v0.queue) && tx in rest && tx in v0.all
    ensures StillPending(v0.pending, rest - {tx}, stays, a, n) <==>
      StillPending(v0.pending, rest, stays, a, n) && (a == tx.from && tx.nonce in Get(v0.pending, a) && tx.nonce <= n ==> stays(tx))
  {
    var p := Get(v0.pending, a);
    assert AccountOk(v0.all, a, p, Get(v0.queue, a));
    assert a == tx.from && tx.nonce in p ==> p[tx.nonce] == tx;
    assert forall m :: m in p && p[m] == tx ==> a == tx.from && m == tx.nonce;
  }

  /** One more transaction has been looked at. */
  lemma CutOne(v0: Views, v: Views, rest: set<Tx>, stays: Tx -> bool, tx: Tx)
    requires PoolOk(v0.all, v0.pending, v0.queue) && PoolOk(v.all, v.pending, v.queue) && CutTo(v0.pending, v.pending, rest, stays)
    requires tx in rest && tx in v.all && v.all <= v0.all
    ensures CutTo(v0.pending, if stays(tx) then v.pending else Removed(tx, v).pending, rest - {tx}, stays)
  {
    var now := if stays(tx) then v.pending else Removed(tx, v).pending;
    forall a, n: nat
      ensures n in Get(now, a) <==> StillPending(v0.pending, rest - {tx}, stays, a, n)
    {
      RemovedMeaning(tx, v, a, n);
      OneLookedAt(v0, rest, stays, tx, a, n);
      assert n in Get(v.pending, a) <==> StillPending(v0.pending, rest, stays, a, n);
      assert tx.nonce in Get(v.pending, a) <==> StillPending(v0.pending, rest, stays, a, tx.nonce);
    }
  }

  /** Storing an account's own list again changes nothing. */
  lemma SameList(lists: Lists, a: nat)
    requires NoneEmpty(lists)
    ensures Put(lists, a, Get(lists, a)) == lists
  {
  }

  // ----- a reset that loses contiguity -----

  /** An account that has executed two transactions and has the third one pending goes back to the start. */
  ghost predicate GoesBack(v: Views, state: State, nonces: map<nat, nat>, first: Tx, second: Tx, third: Tx, state': State) {
    var a := third.from;
    && first.from == second.from == a && first.nonce == 0 && second.nonce == 1 && third.nonce == 2
    && Get(v.pending, a) == map[2 := third] && Get(v.queue, a) == map[]
    && state.nonce(a) == 2 && NonceIn(state, nonces, a) == 3 && state'.nonce(a) == 0
  }

  /** The first transaction is accepted again and the second is not. */
  lemma OnlyFirst(v: Views, first: Tx, second: Tx, rules: Rules, limit: nat, bump: nat, forms: Tx -> Form)
    requires Admits(rules, limit, v, first, forms(first), false) && !Passes(rules, second, forms(second), false)
    requires first.nonce !in Get(v.pending, first.from) && Get(v.queue, first.from) == map[]
    ensures AddedAll(rules, limit, bump, v, [first, second], forms) ==
      Readded(v.(queue := Put(v.queue, first.from, map[first.nonce := first]), all := v.all + {first}), {first.from}, false)
  {
    assert [first, second][..1] == [first] && [first][..0] == [];
    var start := AddedAll(rules, limit, bump, v, [], forms);
    var one := AddedNext(rules, limit, bump, start, first, forms(first));
    assert AddedAll(rules, limit, bump, v, [first], forms) == one;
    assert AddedAll(rules, limit, bump, v, [first, second], forms) == one.(accepted := false);
  }

  /** Then the promotion stops short of the third. */
  lemma SecondRejected(v: Views, state: State, nonces: map<nat, nat>, first: Tx, second: Tx, third: Tx, rules: Rules, limit: nat,
      bump: nat, forms: Tx -> Form)
    requires GoesBack(v, state, nonces, first, second, third, rules.state)
    requires Admits(rules, limit, v, first, forms(first), false) && !Passes(rules, second, forms(second), false)
    requires third.Cost() <= rules.state.balance(third.from) && third.gas <= rules.maxGas
    ensures !NobodyBreaks(state, nonces, rules.state, rules.maxGas, AddedAll(rules, limit, bump, v, [first, second], forms))
  {
    OnlyFirst(v, first, second, rules, limit, bump, forms);
    assert !Fails(rules, GasLimit, first, forms(first), false) && !Fails(rules, InsufficientFunds, first, forms(first), false);
    RunOfOne(first, TxList.TooDear(rules.state.balance(third.from), rules.maxGas));
    var added := AddedAll(rules, limit, bump, v, [first, second], forms);
    assert Breaks(state, nonces, rules.state, rules.maxGas, added.views, third.from);
  }

  /** What a promotion says of the account itself. */
  lemma PromotedOne(rules: Rules, config: Config, now: nat, was: Stage, at: Stage, a: nat)
    ensures PromotedTo(rules, config, now, was, at, {a}) ==>
      && PromotedAt(rules.state, rules.maxGas, was.nonces, was.pending, was.queue, at.nonces, at.pending, {a}, a)
      && Part(Get(at.queue, a), Get(was.queue, a))
  {
  }

  /** What adding one transaction at the state's nonce to an empty pool comes to. */
  lemma PendingAlone(state: State, maxGas: nat, tx: Tx, v: Views, nonces: map<nat, nat>, now: Views)
    requires PoolOk(now.all, now.pending, now.queue) && tx.nonce == state.nonce(tx.from)
    requires tx.Cost() <= state.balance(tx.from) && tx.gas <= maxGas
    requires Get(v.queue, tx.from) == map[tx.nonce := tx] && Get(v.pending, tx.from) == map[]
    requires PromotedAt(state, maxGas, map[], v.pending, v.queue, nonces, now.pending, {tx.from}, tx.from)
    requires Part(Get(now.queue, tx.from), Get(v.queue, tx.from))
    ensures Get(now.pending, tx.from) == map[tx.nonce := tx] && Get(now.queue, tx.from) == map[]
    ensures NonceIn(state, nonces, tx.from) == tx.nonce + 1
  {
    var a := tx.from;
    RunOfOne(tx, TxList.TooDear(state.balance(a), maxGas));
    assert AccountOk(now.all, a, Get(now.pending, a), Get(now.queue, a));
    assert tx.nonce in Get(now.pending, a).Keys;
    assert Get(now.queue, a).Keys == {};
  }

  lemma AddedAlone(rules: Rules, config: Config, now: nat, tx: Tx, at: Stage, all: set<Tx>)
    requires tx.nonce == rules.state.nonce(tx.from) && tx.Cost() <= rules.state.balance(tx.from) && tx.gas <= rules.maxGas
    ensures var v := Inserted(tx, config.priceBump, EMPTY).1;
      PoolOk(all, at.pending, at.queue) && PromotedTo(rules, config, now, Stage(map[], v.pending, v.queue, map[]), at, {tx.from}) ==>
      && Get(at.pending, tx.from) == map[tx.nonce := tx] && Get(at.queue, tx.from) == map[]
      && NonceIn(rules.state, at.nonces, tx.from) == tx.nonce + 1
  {
    var v := Inserted(tx, config.priceBump, EMPTY).1;
    var was := Stage(map[], v.pending, v.queue, map[]);
    if PoolOk(all, at.pending, at.queue) && PromotedTo(rules, config, now, was, at, {tx.from}) {
      PromotedOne(rules, config, now, was, at, tx.from);
      PendingAlone(rules.state, rules.maxGas, tx, v, at.nonces, Views(at.pending, at.queue, all));
    }
  }

  const EMPTY := Views(map[], map[], {})

  /** A new pool with one pending transaction. */
  method PoolWith(tx: Tx, form: Form, cfg: Config, current: State, gasLimit: nat, price: nat) returns (pool: TxPool)
    requires tx.nonce == current.nonce(tx.from)
    requires Admits(Rules(current, gasLimit, price, {}), cfg.globalSlots + cfg.globalQueue, EMPTY, tx, form, false)
    ensures fresh(pool) && pool.Valid() && pool.Contiguous() && pool.config == cfg && pool.Checks() == Rules(current, gasLimit, price, {})
    ensures Get(pool.pending, tx.from) == map[tx.nonce := tx] && Get(pool.queue, tx.from) == map[] && pool.all <= {tx}
    ensures pool.PendingNonce(tx.from) == tx.nonce + 1
  {
    pool := new TxPool(cfg, current, gasLimit, price);
    assert !Fails(pool.Checks(), GasLimit, tx, form, false) && !Fails(pool.Checks(), InsufficientFunds, tx, form, false);
    assert Inserted(tx, cfg.priceBump, EMPTY).0 == Added(false);
    var r := pool.AddTx(tx, form, false, 0);
    AddedAlone(pool.Checks(), cfg, 0, tx, pool.Staged(), pool.all);
  }

  /** A reset that takes an account back by two transactions, of which only the first is accepted again, leaves a gap. */
  method LoseSecond(pool: TxPool, first: Tx, second: Tx, third: Tx, newState: State, gasLimit: nat, forms: Tx -> Form)
    requires pool.Valid() && pool.Contiguous()
    requires GoesBack(pool.Now(), pool.state, pool.pendingNonces, first, second, third, newState)
    requires var rules := Rules(newState, gasLimit, pool.gasPrice, pool.locals);
             && Admits(rules, pool.Places(), pool.Now(), first, forms(first), false) && !Passes(rules, second, forms(second), false)
    requires third.Cost() <= newState.balance(third.from) && third.gas <= gasLimit
    modifies pool
    ensures pool.Valid() && !pool.Contiguous()
  {
    SecondRejected(pool.Now(), pool.state, pool.pendingNonces, first, second, third, Rules(newState, gasLimit, pool.gasPrice, pool.locals),
                   pool.Places(), pool.config.priceBump, forms);
    ghost var mid, low;
    var accepted;
    accepted, mid, low := pool.Reset(newState, gasLimit, [first, second], forms, 0);
  }

  /** A valid, contiguous pool, and a reset that leaves it with a gap. */
  method GapExample() returns (pool: TxPool)
    ensures fresh(pool) && pool.Valid() && !pool.Contiguous()
  {
    var rich := (a: nat) => 1_000_000_000;
    var first, second, third := Tx(10, 7, 0, 5, 21000, 0), Tx(11, 7, 1, 5, 21000, 0), Tx(12, 7, 2, 5, 21000, 0);
    var good, large := Form(100, false, true, Some(21000)), Form(MAX_SIZE + 1, false, true, Some(21000));
    pool := PoolWith(third, good, Config(10, 64, 4096, 1024), State((a: nat) => 2, rich), 8_000_000, 1);
    OneMember(pool.all, third);
    assert Fails(Rules(State((a: nat) => 0, rich), 8_000_000, 1, {}), OversizedData, second, large, false);
    LoseSecond(pool, first, second, third, State((a: nat) => 0, rich), 8_000_000, (tx: Tx) => if tx == second then large else good);
  }

  lemma OneMember(all: set<Tx>, tx: Tx)
    requires all <= {tx}
    ensures |all| <= 1
  {
    assert all == {} || all == {tx};
  }
}
