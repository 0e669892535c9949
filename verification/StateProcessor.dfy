/**
 Processing a block: transactions one after another against one gas pool, with a
 receipt for each.
 */
module StateProcessor {
  import opened Basics
  import opened Balances
  import opened StateTransition

  /** The receipt of a transaction: the gas used in the block so far, and by the transaction itself. */
  datatype Receipt = Receipt(failed: bool, cumulativeGasUsed: nat, gasUsed: nat)

  /** The total of the transactions' gas. */
  ghost function TotalUsed(receipts: seq<Receipt>): nat {
    if receipts == [] then 0 else TotalUsed(receipts[..|receipts| - 1]) + receipts[|receipts| - 1].gasUsed
  }

  /** Each receipt carries the total up to it. */
  ghost predicate Accumulates(receipts: seq<Receipt>) {
    forall i :: 0 <= i < |receipts| ==> receipts[i].cumulativeGasUsed == TotalUsed(receipts[..i + 1])
  }

  lemma AccumulatesMore(receipts: seq<Receipt>, receipt: Receipt)
    requires Accumulates(receipts) && receipt.cumulativeGasUsed == TotalUsed(receipts) + receipt.gasUsed
    ensures Accumulates(receipts + [receipt]) && TotalUsed(receipts + [receipt]) == receipt.cumulativeGasUsed
  {
    var longer := receipts + [receipt];
    assert longer[..|receipts|] == receipts;
    forall i | 0 <= i < |longer|
      ensures longer[i].cumulativeGasUsed == TotalUsed(longer[..i + 1])
    {
      if i < |receipts| { assert longer[..i + 1] == receipts[..i + 1]; } else { assert longer[..i + 1] == longer; }
    }
  }

  /** No transaction has used more gas than it bought. */
  ghost predicate Within(msgs: seq<Option<Message>>, receipts: seq<Receipt>) {
    |receipts| <= |msgs| && forall i :: 0 <= i < |receipts| ==> msgs[i].Some? && receipts[i].gasUsed <= msgs[i].value.gas
  }

  lemma WithinMore(msgs: seq<Option<Message>>, receipts: seq<Receipt>, receipt: Receipt)
    requires Within(msgs, receipts) && |receipts| < |msgs|
    requires msgs[|receipts|].Some? && receipt.gasUsed <= msgs[|receipts|].value.gas
    ensures Within(msgs, receipts + [receipt])
  {
  }

  // ----- what becomes of the accounts that destroy themselves -----

  /** `Finalise`: accounts that have destroyed themselves go, with whatever they hold by then. */
  function Finalised(w: World): World {
    World(w.balance - w.destroyed, w.nonces - w.destroyed, 0, {})
  }

  /** The wei that goes with them. */
  ghost function Lost(w: World): nat {
    Sum(Among(w.balance, w.destroyed))
  }

  /** Nothing is lost exactly if every destroyed account is empty by then. */
  lemma LostMeaning(w: World)
    ensures Sum(Finalised(w).balance) + Lost(w) == Sum(w.balance)
    ensures Lost(w) == 0 <==> forall a :: a in w.destroyed ==> Of(w.balance, a) == 0
  {
    SumSplit(w.balance, w.destroyed);
    SumZero(Among(w.balance, w.destroyed));
    if Lost(w) == 0 {
      forall a | a in w.destroyed
        ensures Of(w.balance, a) == 0
      {
        assert a in w.balance ==> a in Among(w.balance, w.destroyed);
      }
    }
  }

  /** What is left behind: exactly the other accounts as they were, and a clean slate for the next transaction. */
  lemma FinalisedMeaning(w: World, a: nat)
    ensures Of(Finalised(w).balance, a) == if a in w.destroyed then 0 else Of(w.balance, a)
    ensures Of(Finalised(w).nonces, a) == if a in w.destroyed then 0 else Of(w.nonces, a)
    ensures Finalised(w).refund == 0 && Finalised(w).destroyed == {}
  {
  }

  /** The circumstances of a block. */
  datatype Block = Block(coinbase: nat, homestead: bool)

  /** The world after a transaction. */
  ghost function Applied(w: World, msg: Message, evm: Evm, b: Block): World
    requires MintsNothing(evm) && Payable(w, msg, b.homestead)
  {
    Finalised(Ended(w, msg, evm, b.coinbase, b.homestead))
  }

  /** The wei a transaction destroys: in the run, and with the destroyed accounts. */
  ghost function Burnt(w: World, msg: Message, evm: Evm, b: Block): nat
    requires MintsNothing(evm) && Payable(w, msg, b.homestead)
  {
    RunLoss(w, msg, evm, b.homestead) + Lost(Ended(w, msg, evm, b.coinbase, b.homestead))
  }

  /** The run keeps all wei, and every account it destroyed is empty once fees have been paid. */
  ghost predicate Lossless(w: World, msg: Message, evm: Evm, b: Block)
    requires MintsNothing(evm) && Payable(w, msg, b.homestead)
  {
    var end := Ended(w, msg, evm, b.coinbase, b.homestead);
    && Sum(RunOf(w, msg, evm, b.homestead).world.balance) == Sum(Bought(w, msg).balance)
    && forall a :: a in end.destroyed ==> Of(end.balance, a) == 0
  }

  lemma BurntMeaning(w: World, msg: Message, evm: Evm, b: Block)
    requires MintsNothing(evm) && Payable(w, msg, b.homestead)
    ensures Burnt(w, msg, evm, b) == 0 <==> Lossless(w, msg, evm, b)
  {
    LostMeaning(Ended(w, msg, evm, b.coinbase, b.homestead));
  }

  // ----- a whole block -----

  /** What a transaction does to the world, the gas it uses, the wei it destroys, and whether its run failed. */
  datatype Change = Change(world: World, used: nat, burnt: nat, failed: bool)

  type Effect = (World, nat, Message) -> Option<Change>

  /** What transactions do in a block: none exactly if they do not go through. */
  ghost function EffectOf(evm: Evm, b: Block): Effect
    requires MintsNothing(evm)
  {
    (w: World, poolGas: nat, msg: Message) => Changed(w, poolGas, msg, evm, b)
  }

  ghost function Changed(w: World, poolGas: nat, msg: Message, evm: Evm, b: Block): Option<Change>
    requires MintsNothing(evm)
  {
    if GoesThrough(w, poolGas, msg, evm, b.homestead) then
      Some(Change(Applied(w, msg, evm, b), UsedBy(w, msg, evm, b.homestead), Burnt(w, msg, evm, b),
                  RunOf(w, msg, evm, b.homestead).error != NoError))
    else None
  }

  /** How far a block has got: world, gas used and wei destroyed so far, and whether all transactions were signed and went through. */
  datatype Standing = Standing(world: World, used: nat, burnt: nat, goes: bool)

  ghost function Onward(s: Standing, msg: Option<Message>, effect: Effect, gasLimit: nat): Standing {
    if !s.goes || msg.None? || s.used > gasLimit then s.(goes := false)
    else
      match effect(s.world, gasLimit - s.used, msg.value)
      case None => s.(goes := false)
      case Some(c) => Standing(c.world, s.used + c.used, s.burnt + c.burnt, true)
  }

  /** A block after its first transactions; it stops at the first that does not go through. */
  ghost function After(w: World, msgs: seq<Option<Message>>, effect: Effect, gasLimit: nat, n: nat): Standing
    requires n <= |msgs|
  {
    if n == 0 then Standing(w, 0, 0, true) else Onward(After(w, msgs, effect, gasLimit, n - 1), msgs[n - 1], effect, gasLimit)
  }

  lemma {:induction false} StopsThere(w: World, msgs: seq<Option<Message>>, effect: Effect, gasLimit: nat, n: nat, m: nat)
    requires n <= m <= |msgs|
    ensures After(w, msgs, effect, gasLimit, m).goes ==> After(w, msgs, effect, gasLimit, n).goes
    decreases m
  {
    if n == m {
    } else {
      StopsThere(w, msgs, effect, gasLimit, n, m - 1);
    }
  }

  /** The transaction at a place of a block destroys no wei. */
  ghost predicate LosslessAt(w: World, msgs: seq<Option<Message>>, evm: Evm, b: Block, gasLimit: nat, i: nat)
    requires MintsNothing(evm) && i < |msgs|
  {
    var s := After(w, msgs, EffectOf(evm, b), gasLimit, i);
    msgs[i].Some? && Payable(s.world, msgs[i].value, b.homestead) && Lossless(s.world, msgs[i].value, evm, b)
  }

  ghost predicate AllLossless(w: World, msgs: seq<Option<Message>>, evm: Evm, b: Block, gasLimit: nat, n: nat)
    requires MintsNothing(evm) && n <= |msgs|
  {
    n == 0 || (AllLossless(w, msgs, evm, b, gasLimit, n - 1) && LosslessAt(w, msgs, evm, b, gasLimit, n - 1))
  }

  lemma ChangedMeaning(w: World, poolGas: nat, msg: Message, evm: Evm, b: Block)
    requires MintsNothing(evm) && Changed(w, poolGas, msg, evm, b).Some?
    ensures Payable(w, msg, b.homestead) && (Changed(w, poolGas, msg, evm, b).value.burnt == 0 <==> Lossless(w, msg, evm, b))
  {
    BurntMeaning(w, msg, evm, b);
  }

  lemma {:induction false} BurntByMeaning(w: World, msgs: seq<Option<Message>>, evm: Evm, b: Block, gasLimit: nat, n: nat)
    requires MintsNothing(evm) && n <= |msgs| && After(w, msgs, EffectOf(evm, b), gasLimit, n).goes
    ensures After(w, msgs, EffectOf(evm, b), gasLimit, n).burnt == 0 <==> AllLossless(w, msgs, evm, b, gasLimit, n)
  {
    if n == 0 {
    } else {
      BurntByMeaning(w, msgs, evm, b, gasLimit, n - 1);
      var s := After(w, msgs, EffectOf(evm, b), gasLimit, n - 1);
      ChangedMeaning(s.world, gasLimit - s.used, msgs[n - 1].value, evm, b);
    }
  }

  /** What the next transaction makes of a block that has got so far. */
  lemma OneMore(w: World, msgs: seq<Option<Message>>, effect: Effect, gasLimit: nat, n: nat)
    requires n < |msgs|
    ensures var s := Onward(After(w, msgs, effect, gasLimit, n), msgs[n], effect, gasLimit);
            && After(w, msgs, effect, gasLimit, n + 1) == s && (!s.goes ==> !After(w, msgs, effect, gasLimit, |msgs|).goes)
  {
    StopsThere(w, msgs, effect, gasLimit, n + 1, |msgs|);
  }

  /** A receipt says what a transaction does to a block that has got so far. */
  ghost predicate Reports(s: Standing, msg: Option<Message>, effect: Effect, gasLimit: nat, receipt: Receipt) {
    && msg.Some? && s.used <= gasLimit
    && var change := effect(s.world, gasLimit - s.used, msg.value);
       change.Some? && receipt == Receipt(change.value.failed, s.used + change.value.used, change.value.used)
  }

  /** Where a block stands before each of its transactions. */
  ghost function Standings(w: World, msgs: seq<Option<Message>>, effect: Effect, gasLimit: nat): nat -> Standing {
    (i: nat) => After(w, msgs, effect, gasLimit, if i <= |msgs| then i else |msgs|)
  }

  ghost predicate AllReported(before: nat -> Standing, msgs: seq<Option<Message>>, effect: Effect, gasLimit: nat, receipts: seq<Receipt>)
    requires |receipts| <= |msgs|
  {
    forall i :: 0 <= i < |receipts| ==> Reports(before(i), msgs[i], effect, gasLimit, receipts[i])
  }

  lemma ReportMore(before: nat -> Standing, msgs: seq<Option<Message>>, effect: Effect, gasLimit: nat, receipts: seq<Receipt>, receipt: Receipt)
    requires |receipts| < |msgs| && AllReported(before, msgs, effect, gasLimit, receipts)
    requires Reports(before(|receipts|), msgs[|receipts|], effect, gasLimit, receipt)
    ensures AllReported(before, msgs, effect, gasLimit, receipts + [receipt])
  {
  }

  /** The receipts so far. */
  ghost predicate Booked(before: nat -> Standing, msgs: seq<Option<Message>>, effect: Effect, gasLimit: nat, receipts: seq<Receipt>, used: nat) {
    && Within(msgs, receipts) && Accumulates(receipts) && TotalUsed(receipts) == used
    && AllReported(before, msgs, effect, gasLimit, receipts)
  }

  lemma BookMore(before: nat -> Standing, msgs: seq<Option<Message>>, effect: Effect, gasLimit: nat, receipts: seq<Receipt>, used: nat,
      receipt: Receipt)
    requires Booked(before, msgs, effect, gasLimit, receipts, used) && |receipts| < |msgs|
    requires Reports(before(|receipts|), msgs[|receipts|], effect, gasLimit, receipt)
    requires receipt.cumulativeGasUsed == used + receipt.gasUsed && receipt.gasUsed <= msgs[|receipts|].value.gas
    ensures Booked(before, msgs, effect, gasLimit, receipts + [receipt], receipt.cumulativeGasUsed)
  {
    AccumulatesMore(receipts, receipt);
    WithinMore(msgs, receipts, receipt);
    ReportMore(before, msgs, effect, gasLimit, receipts, receipt);
  }

  // ----- no transaction twice -----

  /** The machine never lowers the account's nonce, and never destroys the account. */
  ghost predicate Spares(evm: Evm, a: nat) {
    forall w, m, g {:trigger evm(w, m, g)} ::
      Of(evm(w, m, g).world.nonces, a) >= Of(w.nonces, a) && (a in evm(w, m, g).world.destroyed ==> a in w.destroyed)
  }

  /** A creation that starts raises its sender's nonce. */
  ghost predicate CountsCreations(evm: Evm, a: nat) {
    forall w, m: Message, g {:trigger evm(w, m, g)} ::
      m.to.None? && m.from == a && evm(w, m, g).error != InsufficientBalance ==> Of(evm(w, m, g).world.nonces, a) > Of(w.nonces, a)
  }

  /** No transaction lowers the nonce of a spared account, and one that it sends raises it. */
  lemma NonceRises(w: World, msg: Message, evm: Evm, b: Block, poolGas: nat, a: nat)
    requires MintsNothing(evm) && GoesThrough(w, poolGas, msg, evm, b.homestead) && Spares(evm, a) && a !in w.destroyed
    ensures Of(Applied(w, msg, evm, b).nonces, a) >= Of(w.nonces, a) && Applied(w, msg, evm, b).destroyed == {}
    ensures msg.from == a && (msg.to.Some? || CountsCreations(evm, a)) ==> Of(Applied(w, msg, evm, b).nonces, a) > Of(w.nonces, a)
  {
    FinalisedMeaning(Ended(w, msg, evm, b.coinbase, b.homestead), a);
  }

  /** Transactions never lower the account's nonce, and raise it if they are the account's own; creations only if they are counted. */
  ghost predicate Raises(effect: Effect, a: nat, counted: bool) {
    forall w: World, g: nat, m: Message {:trigger effect(w, g, m)} :: a !in w.destroyed && effect(w, g, m).Some? ==>
      var w' := effect(w, g, m).value.world;
      && a !in w'.destroyed && Of(w'.nonces, a) >= Of(w.nonces, a)
      && (m.from == a && (m.to.Some? || counted) ==> Of(w'.nonces, a) > Of(w.nonces, a))
  }

  lemma EffectRaises(evm: Evm, b: Block, a: nat)
    requires MintsNothing(evm) && Spares(evm, a)
    ensures Raises(EffectOf(evm, b), a, CountsCreations(evm, a))
  {
    var effect := EffectOf(evm, b);
    forall w: World, g: nat, m: Message | a !in w.destroyed && effect(w, g, m).Some?
      ensures var w' := effect(w, g, m).value.world;
        && a !in w'.destroyed && Of(w'.nonces, a) >= Of(w.nonces, a)
        && (m.from == a && (m.to.Some? || CountsCreations(evm, a)) ==> Of(w'.nonces, a) > Of(w.nonces, a))
    {
      NonceRises(w, m, evm, b, g, a);
    }
  }

  lemma {:induction false} NoncesRise(w: World, msgs: seq<Option<Message>>, effect: Effect, gasLimit: nat, a: nat, counted: bool, i: nat, j: nat)
    requires Raises(effect, a, counted) && a !in w.destroyed && i <= j <= |msgs| && After(w, msgs, effect, gasLimit, j).goes
    ensures var s, s' := After(w, msgs, effect, gasLimit, i), After(w, msgs, effect, gasLimit, j);
      && s.goes && Of(s'.world.nonces, a) >= Of(s.world.nonces, a) && a !in s'.world.destroyed
      && (i < j && msgs[i].Some? && msgs[i].value.from == a && (msgs[i].value.to.Some? || counted) ==> Of(s'.world.nonces, a) > Of(s.world.nonces, a))
    decreases j
  {
    if j == 0 {
    } else {
      NoncesRise(w, msgs, effect, gasLimit, a, counted, if i < j then i else j - 1, j - 1);
    }
  }

  /** Two transactions of one sender that both name their nonce name rising ones. */
  ghost predicate InTurn(first: Message, second: Message, evm: Evm) {
    && first.from == second.from && first.checkNonce && second.checkNonce && Spares(evm, first.from)
    && (first.to.Some? || CountsCreations(evm, first.from))
    ==> first.nonce < second.nonce
  }

  ghost predicate NoReplay(msgs: seq<Option<Message>>, evm: Evm) {
    forall i, j :: 0 <= i < j < |msgs| && msgs[i].Some? && msgs[j].Some? ==> InTurn(msgs[i].value, msgs[j].value, evm)
  }

  /** In a block that is accepted no sender uses a nonce twice. */
  lemma AcceptedOnce(w: World, msgs: seq<Option<Message>>, evm: Evm, b: Block, gasLimit: nat)
    requires MintsNothing(evm) && w.destroyed == {} && After(w, msgs, EffectOf(evm, b), gasLimit, |msgs|).goes
    ensures NoReplay(msgs, evm)
  {
    forall i, j | 0 <= i < j < |msgs| && msgs[i].Some? && msgs[j].Some?
      ensures InTurn(msgs[i].value, msgs[j].value, evm)
    {
      InTurnAt(w, msgs, evm, b, gasLimit, i, j);
    }
  }

  /** A transaction that names its nonce goes through only with the nonce its sender has then. */
  lemma NonceIsNext(s: Standing, msg: Option<Message>, evm: Evm, b: Block, gasLimit: nat)
    requires MintsNothing(evm) && Onward(s, msg, EffectOf(evm, b), gasLimit).goes
    ensures msg.Some? && (msg.value.checkNonce ==> Of(s.world.nonces, msg.value.from) == msg.value.nonce)
  {
  }

  lemma InTurnAt(w: World, msgs: seq<Option<Message>>, evm: Evm, b: Block, gasLimit: nat, i: nat, j: nat)
    requires MintsNothing(evm) && w.destroyed == {} && After(w, msgs, EffectOf(evm, b), gasLimit, |msgs|).goes
    requires i < j < |msgs| && msgs[i].Some? && msgs[j].Some?
    ensures InTurn(msgs[i].value, msgs[j].value, evm)
  {
    var first, second := msgs[i].value, msgs[j].value;
    if first.from == second.from && Spares(evm, first.from) {
      var effect := EffectOf(evm, b);
      OneMore(w, msgs, effect, gasLimit, i);
      OneMore(w, msgs, effect, gasLimit, j);
      NonceIsNext(After(w, msgs, effect, gasLimit, i), msgs[i], evm, b, gasLimit);
      NonceIsNext(After(w, msgs, effect, gasLimit, j), msgs[j], evm, b, gasLimit);
      EffectRaises(evm, b, first.from);
      StopsThere(w, msgs, effect, gasLimit, j, |msgs|);
      NoncesRise(w, msgs, effect, gasLimit, first.from, CountsCreations(evm, first.from), i, j);
    }
  }

  /** Applies one transaction and adds its gas to the block's. */
  method ApplyTransaction(gp: GasPool, db: StateDB, msg: Message, evm: Evm, b: Block, usedGas: nat)
    returns (ok: bool, receipt: Receipt, used: nat, ghost change: Option<Change>)
    requires msg.Fields() && gp.gas + usedGas < U64 && MintsNothing(evm)
    modifies gp, db
    ensures change == Changed(old(db.world), old(gp.gas), msg, evm, b) && ok == change.Some?
    ensures ok ==>
      && gp.gas + used == old(gp.gas) + usedGas
      && receipt.cumulativeGasUsed == used == usedGas + receipt.gasUsed && receipt.gasUsed <= msg.gas
    ensures ok ==>
      && change.value.world == db.world && change.value.used == receipt.gasUsed && change.value.failed == receipt.failed
      && Sum(db.world.balance) + change.value.burnt == Sum(old(db.world).balance)
    ensures ok ==>
      && Payable(old(db.world), msg, b.homestead)
      && (Sum(db.world.balance) == Sum(old(db.world).balance) <==> Lossless(old(db.world), msg, evm, b))
    ensures ok ==> db.world.refund == 0 && db.world.destroyed == {}
    ensures !ok ==> used == usedGas
  {
    var st := new StateTransition(gp, db, msg, evm, b.coinbase, b.homestead);
    change := Changed(db.world, gp.gas, msg, evm, b);
    if change.Some? { ChangedMeaning(db.world, gp.gas, msg, evm, b); }
    var r := st.TransitionDb();
    if r.Failed? {
      return false, Receipt(true, 0, 0), usedGas, change;
    }
    LostMeaning(db.world);
    db.world := Finalised(db.world);
    used := usedGas + r.used;
    receipt := Receipt(r.failed, used, r.used);
    ok := true;
  }

  /** One round of a block: a message that is not signed or does not go through ends it. */
  method ApplyNext(gp: GasPool, db: StateDB, msg: Option<Message>, evm: Evm, b: Block, gasLimit: nat, usedGas: nat, ghost s: Standing)
    returns (ok: bool, receipt: Receipt, used: nat, ghost s': Standing)
    requires gp.gas + usedGas == gasLimit < U64 && MintsNothing(evm) && (msg.Some? ==> msg.value.Fields())
    requires s == Standing(db.world, usedGas, s.burnt, true)
    modifies gp, db
    ensures s' == Onward(s, msg, EffectOf(evm, b), gasLimit) && ok == s'.goes
    ensures ok ==>
      && s' == Standing(db.world, used, s'.burnt, true) && gp.gas + used == gasLimit
      && receipt.cumulativeGasUsed == used == usedGas + receipt.gasUsed && msg.Some? && receipt.gasUsed <= msg.value.gas
      && Reports(s, msg, EffectOf(evm, b), gasLimit, receipt)
      && Sum(db.world.balance) + s'.burnt == Sum(old(db.world).balance) + s.burnt
  {
    s' := Onward(s, msg, EffectOf(evm, b), gasLimit);
    if msg.None? {
      return false, Receipt(true, 0, 0), usedGas, s';
    }
    ghost var change;
    ok, receipt, used, change := ApplyTransaction(gp, db, msg.value, evm, b, usedGas);
  }

  /**
   Applies all transactions of a block, or refuses the block at the first one that
   cannot be applied. `msgs` holds no message where a signature is not valid.
   */
  method Process(msgs: seq<Option<Message>>, db: StateDB, evm: Evm, b: Block, gasLimit: nat)
    returns (ok: bool, receipts: seq<Receipt>, usedGas: nat)
    requires gasLimit < U64 && MintsNothing(evm)
    requires forall i :: 0 <= i < |msgs| && msgs[i].Some? ==> msgs[i].value.Fields()
    modifies db
    ensures ok == After(old(db.world), msgs, EffectOf(evm, b), gasLimit, |msgs|).goes
    ensures ok ==> |receipts| == |msgs| && usedGas == TotalUsed(receipts) <= gasLimit
    ensures ok ==> Accumulates(receipts) && Within(msgs, receipts)
    ensures ok ==> AllReported(Standings(old(db.world), msgs, EffectOf(evm, b), gasLimit), msgs, EffectOf(evm, b), gasLimit, receipts)
    ensures ok && old(db.world).destroyed == {} ==> NoReplay(msgs, evm)
    ensures ok ==> var end := After(old(db.world), msgs, EffectOf(evm, b), gasLimit, |msgs|);
      && db.world == end.world && usedGas == end.used && Sum(db.world.balance) + end.burnt == Sum(old(db.world).balance)
      && (Sum(db.world.balance) == Sum(old(db.world).balance)) == AllLossless(old(db.world), msgs, evm, b, gasLimit, |msgs|)
    ensures !ok ==> receipts == [] && usedGas == 0
  {
    ghost var w := db.world;
    ghost var end;
    ok, receipts, usedGas, end := ApplyAll(msgs, db, evm, b, gasLimit, Standings(w, msgs, EffectOf(evm, b), gasLimit));
    if ok {
      BurntByMeaning(w, msgs, evm, b, gasLimit, |msgs|);
      if w.destroyed == {} { AcceptedOnce(w, msgs, evm, b, gasLimit); }
    }
  }

  /** The rounds of a block; `before` is where it stands before each. */
  method ApplyAll(msgs: seq<Option<Message>>, db: StateDB, evm: Evm, b: Block, gasLimit: nat, ghost before: nat -> Standing)
    returns (ok: bool, receipts: seq<Receipt>, usedGas: nat, ghost s: Standing)
    requires gasLimit < U64 && MintsNothing(evm) && before == Standings(db.world, msgs, EffectOf(evm, b), gasLimit)
    requires forall i :: 0 <= i < |msgs| && msgs[i].Some? ==> msgs[i].value.Fields()
    modifies db
    ensures ok == After(old(db.world), msgs, EffectOf(evm, b), gasLimit, |msgs|).goes
    ensures ok ==>
      && s == After(old(db.world), msgs, EffectOf(evm, b), gasLimit, |msgs|) == Standing(db.world, usedGas, s.burnt, true)
      && Sum(db.world.balance) + s.burnt == Sum(old(db.world).balance) && usedGas <= gasLimit
      && |receipts| == |msgs| && Booked(before, msgs, EffectOf(evm, b), gasLimit, receipts, usedGas)
    ensures !ok ==> receipts == [] && usedGas == 0
  {
    var gp := new GasPool();
    gp.AddGas(gasLimit);
    ghost var w, effect := db.world, EffectOf(evm, b);
    s := Standing(w, 0, 0, true);
    receipts, usedGas := [], 0;
    for i := 0 to |msgs|
      invariant fresh(gp) && gp.gas + usedGas == gasLimit && |receipts| == i
      invariant Booked(before, msgs, effect, gasLimit, receipts, usedGas)
      invariant s == After(w, msgs, effect, gasLimit, i) && s == Standing(db.world, usedGas, s.burnt, true)
      invariant Sum(db.world.balance) + s.burnt == Sum(w.balance)
    {
      OneMore(w, msgs, effect, gasLimit, i);
      var applied, receipt, used;
      applied, receipt, used, s := ApplyNext(gp, db, msgs[i], evm, b, gasLimit, usedGas, s);
      if !applied {
        return false, [], 0, s;
      }
      BookMore(before, msgs, effect, gasLimit, receipts, usedGas, receipt);
      receipts, usedGas := receipts + [receipt], used;
    }
    ok := true;
  }

  // ----- wei that is destroyed although the virtual machine keeps it -----

  /** Fees paid to a miner's account that has destroyed itself are gone. */
  lemma FeeIsBurnt(w: World, msg: Message, evm: Evm, b: Block)
    requires MintsNothing(evm) && Payable(w, msg, b.homestead)
    requires b.coinbase in RunOf(w, msg, evm, b.homestead).world.destroyed
    ensures Burnt(w, msg, evm, b) >= UsedBy(w, msg, evm, b.homestead) * msg.price
  {
    var end := Ended(w, msg, evm, b.coinbase, b.homestead);
    SumAtLeast(Among(end.balance, end.destroyed), b.coinbase);
  }

  /** The account `m.from` calls destroys itself in its favour, and is then sent one wei back. */
  function PayDestroyed(w: World, m: Message, g: nat): Outcome {
    if m.to.None? || m.to.value == m.from || Of(w.balance, m.from) + Of(w.balance, m.to.value) == 0 then Outcome(w, g, NoError)
    else
      var all := Of(w.balance, m.from) + Of(w.balance, m.to.value);
      Outcome(w.(balance := w.balance[m.from := all - 1][m.to.value := 1], destroyed := w.destroyed + {m.to.value}), g, NoError)
  }

  /** That machine keeps all wei in every run, and every such transaction destroys one wei. */
  lemma PayDestroyedBurns(w: World, msg: Message, b: Block)
    requires msg.to.Some? && msg.to.value != msg.from && msg.price == 0 && w.destroyed == {}
    requires Payable(w, msg, b.homestead) && Of(w.balance, msg.from) > 0
    ensures forall w', m, g :: Sum(PayDestroyed(w', m, g).world.balance) == Sum(w'.balance)
    ensures MintsNothing(PayDestroyed) && Burnt(w, msg, PayDestroyed, b) == 1
  {
    forall w', m, g
      ensures Sum(PayDestroyed(w', m, g).world.balance) == Sum(w'.balance)
    {
      PayDestroyedKeeps(w', m, g);
    }
    var end := Ended(w, msg, PayDestroyed, b.coinbase, b.homestead);
    assert Of(end.balance, msg.to.value) == 1;
    assert Among(end.balance, end.destroyed) == map[msg.to.value := 1];
    SumWithout(map[msg.to.value := 1], msg.to.value);
    assert map[msg.to.value := 1] - {msg.to.value} == map[];
  }

  lemma PayDestroyedKeeps(w: World, m: Message, g: nat)
    ensures Sum(PayDestroyed(w, m, g).world.balance) == Sum(w.balance)
  {
    if m.to.Some? && m.to.value != m.from {
      var all := Of(w.balance, m.from) + Of(w.balance, m.to.value);
      if all > 0 {
        SumUpdate(w.balance, m.from, all - 1);
        SumUpdate(w.balance[m.from := all - 1], m.to.value, 1);
      }
    }
  }

  /** Difference of two 64-bit numbers. */
  function Minus(a: nat, b: nat): nat
    requires a < U64 && b < U64
  {
    (a - b + U64) % U64
  }

  /** Recovers what each transaction used from the cumulative figures, as stored receipts keep only those. */
  method RecoverGasUsed(receipts: seq<Receipt>) returns (used: seq<nat>)
    requires forall i :: 0 <= i < |receipts| ==> receipts[i].cumulativeGasUsed < U64
    ensures |used| == |receipts|
    ensures Accumulates(receipts) ==> forall i :: 0 <= i < |receipts| ==> used[i] == receipts[i].gasUsed
  {
    used := [];
    for j := 0 to |receipts|
      invariant |used| == j
      invariant Accumulates(receipts) ==> forall i :: 0 <= i < j ==> used[i] == receipts[i].gasUsed
    {
      var own := if j == 0 then receipts[j].cumulativeGasUsed
                 else Minus(receipts[j].cumulativeGasUsed, receipts[j - 1].cumulativeGasUsed);
      if Accumulates(receipts) { OwnPart(receipts, j); }
      used := used + [own];
    }
  }

  lemma OwnPart(receipts: seq<Receipt>, j: nat)
    requires Accumulates(receipts) && j < |receipts|
    ensures receipts[j].cumulativeGasUsed == receipts[j].gasUsed + if j == 0 then 0 else receipts[j - 1].cumulativeGasUsed
  {
    var up := receipts[..j + 1];
    assert up[..|up| - 1] == receipts[..j] && up[|up| - 1] == receipts[j];
    assert receipts[j].cumulativeGasUsed == TotalUsed(up);
    if j > 0 { assert receipts[j - 1].cumulativeGasUsed == TotalUsed(receipts[..j - 1 + 1]); }
  }
}
