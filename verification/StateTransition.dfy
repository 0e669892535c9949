/**
 Applying one transaction: buying gas, running it, and paying for what was used,
 as in section 6.2 of the Ethereum Yellow Paper (transaction execution).
 */
module StateTransition {
  import opened Basics
  import opened Balances

  const TX_GAS: nat := 21000
  const TX_GAS_CONTRACT_CREATION: nat := 53000
  const TX_DATA_ZERO_GAS: nat := 4
  const TX_DATA_NON_ZERO_GAS: nat := 68

  /** How many bytes are not zero. */
  ghost function NonZero(data: seq<Byte>): (n: nat)
    ensures n <= |data|
  {
    if data == [] then 0 else NonZero(data[..|data| - 1]) + if data[|data| - 1] != 0 then 1 else 0
  }

  /** What a transaction costs before it runs, in unbounded arithmetic. */
  ghost function Intrinsic(data: seq<Byte>, creation: bool): nat {
    (if creation then TX_GAS_CONTRACT_CREATION else TX_GAS) + TX_DATA_NON_ZERO_GAS * NonZero(data) + TX_DATA_ZERO_GAS * (|data| - NonZero(data))
  }

  /** Where they stand. */
  ghost function NonZeroAt(data: seq<Byte>): set<nat> {
    set i: nat | i < |data| && data[i] != 0
  }

  lemma {:induction false} NonZeroCounts(data: seq<Byte>)
    ensures NonZero(data) == |NonZeroAt(data)|
  {
    if data == [] {
      assert NonZeroAt(data) == {};
    } else {
      var n := |data| - 1;
      NonZeroCounts(data[..n]);
      assert NonZeroAt(data) == if data[n] != 0 then NonZeroAt(data[..n]) + {n} else NonZeroAt(data[..n]);
    }
  }

  /** Every byte has its price, wherever it stands. */
  lemma {:induction false} IntrinsicAdds(front: seq<Byte>, back: seq<Byte>, creation: bool)
    ensures Intrinsic(front + back, creation) + Intrinsic([], creation) == Intrinsic(front, creation) + Intrinsic(back, creation)
    ensures forall b: Byte :: Intrinsic([b], creation) == Intrinsic([], creation) + if b == 0 then 4 else 68
    ensures Intrinsic([], creation) == if creation then 53000 else 21000
  {
    if back == [] {
      assert front + back == front;
    } else {
      var n := |back| - 1;
      IntrinsicAdds(front, back[..n], creation);
      assert (front + back)[..|front| + n] == front + back[..n];
    }
  }

  /** The intrinsic gas, or nothing exactly when it does not fit 64 bits. */
  method IntrinsicGas(data: seq<Byte>, contractCreation: bool, homestead: bool) returns (r: Option<nat>)
    requires |data| < U64
    ensures var total := Intrinsic(data, contractCreation && homestead);
            r == if total < U64 then Some(total) else None
  {
    var gas := if contractCreation && homestead then TX_GAS_CONTRACT_CREATION else TX_GAS;
    if |data| > 0 {
      var nz := 0;
      for i := 0 to |data|
        invariant nz == NonZero(data[..i])
      {
        assert data[..i + 1][..i] == data[..i];
        if data[i] != 0 {
          nz := nz + 1;
        }
      }
      assert data[..|data|] == data;
      if (U64 - 1 - gas) / TX_DATA_NON_ZERO_GAS < nz {
        return None;
      }
      gas := gas + nz * TX_DATA_NON_ZERO_GAS;
      var z := |data| - nz;
      if (U64 - 1 - gas) / TX_DATA_ZERO_GAS < z {
        return None;
      }
      gas := gas + z * TX_DATA_ZERO_GAS;
    }
    return Some(gas);
  }

  class GasPool {
    var gas: nat

    constructor ()
      ensures gas == 0
    {
      gas := 0;
    }

    /** Panics past 64 bits, which callers have to rule out. */
    method AddGas(amount: nat)
      requires gas + amount < U64
      modifies this
      ensures gas == old(gas) + amount
    {
      gas := gas + amount;
    }

    method SubGas(amount: nat) returns (ok: bool)
      modifies this
      ensures ok <==> old(gas) >= amount
      ensures gas == if ok then old(gas) - amount else old(gas)
    {
      if gas < amount {
        return false;
      }
      gas := gas - amount;
      return true;
    }
  }

  datatype Message = Message(from: nat, to: Option<nat>, price: nat, gas: nat, value: nat, nonce: nat, checkNonce: bool, data: seq<Byte>) {
    predicate Fields() {
      gas < U64 && |data| < U64
    }
  }

  /** `destroyed` are the accounts that have destroyed themselves in the current transaction. */
  datatype World = World(balance: Balances, nonces: map<nat, nat>, refund: nat, destroyed: set<nat>)

  datatype VmError = NoError | Aborted | InsufficientBalance

  datatype Outcome = Outcome(world: World, left: nat, error: VmError)

  /** The virtual machine: what a message does to the world with some gas. */
  type Evm = (World, Message, nat) -> Outcome

  /** It makes no wei, and gives back no more gas than it got. */
  ghost predicate MintsNothing(evm: Evm) {
    forall w, m, g {:trigger evm(w, m, g)} :: Sum(evm(w, m, g).world.balance) <= Sum(w.balance) && evm(w, m, g).left <= g
  }

  datatype Error = NonceTooHigh | NonceTooLow | InsufficientBalanceForGas | GasLimitReached | OutOfGas | InsufficientBalanceForTransfer

  datatype Result = Done(used: nat, failed: bool) | Failed(error: Error)

  /** The gas a finished run is charged: the least that leaves no more than the refund, and no more than half, unpaid. */
  function Charged(bought: nat, left: nat, refund: nat): (used: nat)
    requires left <= bought
    ensures used <= bought - left <= 2 * used && bought - left <= used + refund
    ensures forall u: nat :: bought - left <= 2 * u && bought - left <= u + refund ==> used <= u
  {
    var used := bought - left;
    used - if used / 2 > refund then refund else used / 2
  }

  /** An account credited with an amount. */
  function Credited(m: Balances, a: nat, amount: nat): Balances {
    m[a := Of(m, a) + amount]
  }

  /** The world after the sender has paid for the gas up front. */
  ghost function Bought(w: World, msg: Message): World
    requires Of(w.balance, msg.from) >= msg.gas * msg.price
  {
    w.(balance := w.balance[msg.from := Of(w.balance, msg.from) - msg.gas * msg.price])
  }

  /** The world a message is run in: for a call, with the sender's nonce raised. */
  function Entered(w: World, msg: Message): World {
    if msg.to.Some? then w.(nonces := w.nonces[msg.from := Of(w.nonces, msg.from) + 1]) else w
  }

  /** The balances once the sender has got the unused gas back and the miner its fee. */
  ghost function Settled(m: Balances, msg: Message, coinbase: nat, used: nat): Balances
    requires used <= msg.gas
  {
    Credited(Credited(m, msg.from, (msg.gas - used) * msg.price), coinbase, used * msg.price)
  }

  /** The sender can pay for the gas, and the gas covers what the message costs before it runs. */
  ghost predicate Payable(w: World, msg: Message, homestead: bool) {
    Of(w.balance, msg.from) >= msg.gas * msg.price && Intrinsic(msg.data, msg.to.None? && homestead) <= msg.gas
  }

  /** What the virtual machine makes of a message. */
  ghost function RunOf(w: World, msg: Message, evm: Evm, homestead: bool): (out: Outcome)
    requires Payable(w, msg, homestead) && MintsNothing(evm)
    ensures out.left <= msg.gas
  {
    evm(Entered(Bought(w, msg), msg), msg, msg.gas - Intrinsic(msg.data, msg.to.None? && homestead))
  }

  ghost function UsedBy(w: World, msg: Message, evm: Evm, homestead: bool): (used: nat)
    requires Payable(w, msg, homestead) && MintsNothing(evm)
    ensures used <= msg.gas
  {
    var out := RunOf(w, msg, evm, homestead);
    Charged(msg.gas, out.left, out.world.refund)
  }

  /** The world a message leaves behind. */
  ghost function Ended(w: World, msg: Message, evm: Evm, coinbase: nat, homestead: bool): World
    requires Payable(w, msg, homestead) && MintsNothing(evm)
  {
    var out := RunOf(w, msg, evm, homestead).world;
    out.(balance := Settled(out.balance, msg, coinbase, UsedBy(w, msg, evm, homestead)))
  }

  /** The nonce is the sender's next one, if it is asked for. */
  ghost predicate NonceFits(w: World, msg: Message) {
    msg.checkNonce ==> Of(w.nonces, msg.from) == msg.nonce
  }

  /** Exactly the messages that go through: the nonce is right, funds and gas suffice, and the machine can make the first transfer. */
  ghost predicate GoesThrough(w: World, poolGas: nat, msg: Message, evm: Evm, homestead: bool)
    requires MintsNothing(evm)
  {
    && NonceFits(w, msg) && poolGas >= msg.gas && Payable(w, msg, homestead) && RunOf(w, msg, evm, homestead).error != InsufficientBalance
  }

  /** What the virtual machine destroys in its run: for one that follows the rules, what a contract leaves to itself. */
  ghost function RunLoss(w: World, msg: Message, evm: Evm, homestead: bool): nat
    requires Payable(w, msg, homestead) && MintsNothing(evm)
  {
    var out := RunOf(w, msg, evm, homestead);
    Sum(Bought(w, msg).balance) - Sum(out.world.balance)
  }

  /** It changes no nonces. */
  ghost predicate LeavesNonces(evm: Evm) {
    forall w, m, g {:trigger evm(w, m, g)} :: evm(w, m, g).world.nonces == w.nonces
  }

  /** It changes nothing at all. */
  ghost predicate DoesNothing(evm: Evm) {
    forall w, m, g {:trigger evm(w, m, g)} :: evm(w, m, g).world == w
  }

  /** Around a run that does nothing, a message only counts as sent and moves the price of its gas from sender to miner. */
  lemma AroundTheRun(w: World, msg: Message, evm: Evm, coinbase: nat, homestead: bool)
    requires Payable(w, msg, homestead) && MintsNothing(evm) && DoesNothing(evm)
    ensures var end := Ended(w, msg, evm, coinbase, homestead);
      var fee := UsedBy(w, msg, evm, homestead) * msg.price;
      && (forall a :: a != msg.from && a != coinbase ==> Of(end.balance, a) == Of(w.balance, a))
      && (msg.from != coinbase ==>
          Of(end.balance, msg.from) == Of(w.balance, msg.from) - fee && Of(end.balance, coinbase) == Of(w.balance, coinbase) + fee)
      && (msg.from == coinbase ==> Of(end.balance, coinbase) == Of(w.balance, coinbase))
      && (forall a :: Of(end.nonces, a) == Of(w.nonces, a) + if a == msg.from && msg.to.Some? then 1 else 0)
      && end.refund == w.refund && end.destroyed == w.destroyed
  {
    var used := UsedBy(w, msg, evm, homestead);
    Settles(msg.gas, used, msg.gas - used, msg.price);
  }

  class StateDB {
    var world: World

    constructor (w: World)
      ensures world == w
    {
      world := w;
    }

    function Balance(a: nat): nat
      reads this
    {
      Of(world.balance, a)
    }

    method AddBalance(a: nat, amount: nat)
      modifies this
      ensures world == old(world).(balance := Credited(old(world).balance, a, amount))
      ensures Sum(world.balance) == Sum(old(world).balance) + amount
    {
      SumUpdate(world.balance, a, Balance(a) + amount);
      world := world.(balance := world.balance[a := Balance(a) + amount]);
    }

    method SubBalance(a: nat, amount: nat)
      requires Balance(a) >= amount
      modifies this
      ensures world == old(world).(balance := old(world).balance[a := old(Balance(a)) - amount])
      ensures Sum(world.balance) == Sum(old(world).balance) - amount
    {
      SumUpdate(world.balance, a, Balance(a) - amount);
      world := world.(balance := world.balance[a := Balance(a) - amount]);
    }
  }

  class StateTransition {
    const gp: GasPool
    const state: StateDB
    const msg: Message
    const evm: Evm
    const coinbase: nat
    const homestead: bool
    var gas: nat
    var initialGas: nat

    constructor (pool: GasPool, db: StateDB, m: Message, vm: Evm, miner: nat, home: bool)
      ensures gp == pool && state == db && msg == m && evm == vm && coinbase == miner && homestead == home && gas == initialGas == 0
    {
      gp, state, msg, evm, coinbase, homestead := pool, db, m, vm, miner, home;
      gas, initialGas := 0, 0;
    }

    function GasUsed(): nat
      requires gas <= initialGas
      reads this
    {
      initialGas - gas
    }

    method UseGas(amount: nat) returns (ok: bool)
      modifies this`gas
      ensures ok <==> old(gas) >= amount
      ensures gas == if ok then old(gas) - amount else old(gas)
    {
      if gas < amount {
        return false;
      }
      gas := gas - amount;
      return true;
    }

    /** Takes the gas from the block's pool and its price from the sender. */
    method BuyGas() returns (error: Option<Error>)
      requires gas == 0
      modifies this, gp, state
      ensures error.Some? ==> gp.gas == old(gp.gas) && state.world == old(state.world)
      ensures error == Some(InsufficientBalanceForGas) <==> old(state.Balance(msg.from)) < msg.gas * msg.price
      ensures error == Some(GasLimitReached) <==> old(state.Balance(msg.from)) >= msg.gas * msg.price && old(gp.gas) < msg.gas
      ensures error.Some? ==> error.value in {InsufficientBalanceForGas, GasLimitReached}
      ensures error.None? ==>
        && gas == initialGas == msg.gas && gp.gas == old(gp.gas) - msg.gas && state.world == Bought(old(state.world), msg)
        && Sum(state.world.balance) == Sum(old(state.world).balance) - msg.gas * msg.price
    {
      var mgval := msg.gas * msg.price;
      if state.Balance(msg.from) < mgval {
        return Some(InsufficientBalanceForGas);
      }
      var ok := gp.SubGas(msg.gas);
      if !ok {
        return Some(GasLimitReached);
      }
      gas := gas + msg.gas;
      initialGas := msg.gas;
      state.SubBalance(msg.from, mgval);
      return None;
    }

    method PreCheck() returns (error: Option<Error>)
      requires gas == 0
      modifies this, gp, state
      ensures error.Some? ==> gp.gas == old(gp.gas) && state.world == old(state.world)
      ensures error.Some? ==> error.value !in {OutOfGas, InsufficientBalanceForTransfer}
      ensures error == Some(NonceTooHigh) <==> msg.checkNonce && Of(old(state.world).nonces, msg.from) < msg.nonce
      ensures error == Some(NonceTooLow) <==> msg.checkNonce && Of(old(state.world).nonces, msg.from) > msg.nonce
      ensures error == Some(InsufficientBalanceForGas) <==>
        NonceFits(old(state.world), msg) && old(state.Balance(msg.from)) < msg.gas * msg.price
      ensures error == Some(GasLimitReached) <==>
        NonceFits(old(state.world), msg) && old(state.Balance(msg.from)) >= msg.gas * msg.price && old(gp.gas) < msg.gas
      ensures error.None? <==>
        NonceFits(old(state.world), msg) && old(state.Balance(msg.from)) >= msg.gas * msg.price && old(gp.gas) >= msg.gas
      ensures error.None? ==>
        && gas == initialGas == msg.gas && gp.gas == old(gp.gas) - msg.gas && state.world == Bought(old(state.world), msg)
        && Sum(state.world.balance) == Sum(old(state.world).balance) - msg.gas * msg.price
    {
      if msg.checkNonce {
        var nonce := Of(state.world.nonces, msg.from);
        if nonce < msg.nonce {
          return Some(NonceTooHigh);
        } else if nonce > msg.nonce {
          return Some(NonceTooLow);
        }
      }
      error := BuyGas();
    }

    /** Gives the sender the price of the gas left and refunded, and the pool the gas. */
    method RefundGas()
      requires gas <= initialGas && gp.gas + initialGas < U64
      modifies this`gas, gp, state
      ensures gas <= initialGas && GasUsed() == Charged(initialGas, old(gas), old(state.world.refund))
      ensures gp.gas == old(gp.gas) + gas
      ensures state.world == old(state.world).(balance := Credited(old(state.world).balance, msg.from, gas * msg.price))
      ensures Sum(state.world.balance) == Sum(old(state.world).balance) + gas * msg.price
    {
      var refund := GasUsed() / 2;
      if refund > state.world.refund {
        refund := state.world.refund;
      }
      gas := gas + refund;
      state.AddBalance(msg.from, gas * msg.price);
      gp.AddGas(gas);
    }

    /**
     Applies the message. A transaction that goes through is charged for the gas
     it used, and all its money goes from account to account except what the run
     itself destroys; one that is refused before gas was bought changes nothing.
     */
    method TransitionDb() returns (r: Result)
      requires gas == 0 && msg.Fields() && gp.gas < U64 && MintsNothing(evm)
      modifies this, gp, state
      ensures r.Done? <==> GoesThrough(old(state.world), old(gp.gas), msg, evm, homestead)
      ensures r.Done? ==>
        && Payable(old(state.world), msg, homestead) && state.world == Ended(old(state.world), msg, evm, coinbase, homestead)
        && r.used == UsedBy(old(state.world), msg, evm, homestead) <= msg.gas && gp.gas + r.used == old(gp.gas)
        && r.failed == (RunOf(old(state.world), msg, evm, homestead).error != NoError)
        && Sum(state.world.balance) + RunLoss(old(state.world), msg, evm, homestead) == Sum(old(state.world).balance)
      ensures r.Done? && msg.to.Some? && LeavesNonces(evm) ==>
        forall a :: Of(state.world.nonces, a) == Of(old(state.world).nonces, a) + if a == msg.from then 1 else 0
      ensures r.Failed? && r.error !in {OutOfGas, InsufficientBalanceForTransfer} ==>
        gp.gas == old(gp.gas) && state.world == old(state.world)
      ensures r.Failed? && r.error in {OutOfGas, InsufficientBalanceForTransfer} ==>
        && gp.gas + msg.gas == old(gp.gas)
        && Sum(state.world.balance) + msg.gas * msg.price <= Sum(old(state.world).balance)
      ensures r == Failed(NonceTooHigh) <==> msg.checkNonce && Of(old(state.world).nonces, msg.from) < msg.nonce
      ensures r == Failed(NonceTooLow) <==> msg.checkNonce && Of(old(state.world).nonces, msg.from) > msg.nonce
      ensures r == Failed(InsufficientBalanceForGas) <==>
        NonceFits(old(state.world), msg) && old(state.Balance(msg.from)) < msg.gas * msg.price
      ensures r == Failed(GasLimitReached) <==>
        NonceFits(old(state.world), msg) && old(state.Balance(msg.from)) >= msg.gas * msg.price && old(gp.gas) < msg.gas
      ensures r == Failed(OutOfGas) <==>
        && NonceFits(old(state.world), msg) && old(state.Balance(msg.from)) >= msg.gas * msg.price && old(gp.gas) >= msg.gas
        && msg.gas < Intrinsic(msg.data, msg.to.None? && homestead)
      ensures r == Failed(OutOfGas) ==> state.world == Bought(old(state.world), msg)
      ensures r == Failed(InsufficientBalanceForTransfer) ==>
        && Payable(old(state.world), msg, homestead) && RunOf(old(state.world), msg, evm, homestead).error == InsufficientBalance
        && state.world == RunOf(old(state.world), msg, evm, homestead).world
    {
      var error := PreCheck();
      if error.Some? {
        return Failed(error.value);
      }
      r := Execute();
    }

    /** What follows once the gas has been bought. */
    method Execute() returns (r: Result)
      requires gas == initialGas == msg.gas && msg.Fields() && gp.gas + msg.gas < U64 && MintsNothing(evm)
      modifies this`gas, gp, state
      ensures r.Done? ==>
        && gp.gas + r.used == old(gp.gas) + msg.gas && r.used <= msg.gas
        && Intrinsic(msg.data, msg.to.None? && homestead) <= msg.gas
        && var out := evm(Entered(old(state.world), msg), msg, msg.gas - Intrinsic(msg.data, msg.to.None? && homestead));
           && out.left <= msg.gas && r.used == Charged(msg.gas, out.left, out.world.refund) && r.failed == (out.error != NoError)
           && state.world == out.world.(balance := Settled(out.world.balance, msg, coinbase, r.used))
           && Sum(state.world.balance) == Sum(out.world.balance) + msg.gas * msg.price
      ensures r.Failed? ==> r.error in {OutOfGas, InsufficientBalanceForTransfer}
      ensures var intrinsic := Intrinsic(msg.data, msg.to.None? && homestead);
        r.Done? <==> intrinsic <= msg.gas && evm(Entered(old(state.world), msg), msg, msg.gas - intrinsic).error != InsufficientBalance
      ensures r.Failed? ==> gp.gas == old(gp.gas) && Sum(state.world.balance) <= Sum(old(state.world).balance)
      ensures r == Failed(OutOfGas) <==> msg.gas < Intrinsic(msg.data, msg.to.None? && homestead)
      ensures r == Failed(OutOfGas) ==> state.world == old(state.world)
      ensures r == Failed(InsufficientBalanceForTransfer) ==>
        && Intrinsic(msg.data, msg.to.None? && homestead) <= msg.gas
        && var out := evm(Entered(old(state.world), msg), msg, msg.gas - Intrinsic(msg.data, msg.to.None? && homestead));
           out.error == InsufficientBalance && state.world == out.world
    {
      var intrinsic := IntrinsicGas(msg.data, msg.to.None?, homestead);
      if intrinsic.None? {
        return Failed(OutOfGas);
      }
      var ok := UseGas(intrinsic.value);
      if !ok {
        return Failed(OutOfGas);
      }
      var vmerr := Run();
      if vmerr == InsufficientBalance {
        return Failed(InsufficientBalanceForTransfer);
      }
      var used := Finish();
      return Done(used, vmerr != NoError);
    }

    /** Settles the account: the sender gets the unused gas paid back, the miner is paid for the rest. */
    method Finish() returns (used: nat)
      requires gas <= initialGas == msg.gas && gp.gas + msg.gas < U64
      modifies this`gas, gp, state
      ensures used == Charged(msg.gas, old(gas), old(state.world.refund)) && gp.gas + used == old(gp.gas) + msg.gas
      ensures state.world == old(state.world).(balance := Settled(old(state.world).balance, msg, coinbase, used))
      ensures Sum(state.world.balance) == Sum(old(state.world).balance) + msg.gas * msg.price
    {
      RefundGas();
      used := GasUsed();
      Settles(msg.gas, used, gas, msg.price);
      state.AddBalance(coinbase, used * msg.price);
    }

    /** Hands the gas to the virtual machine; a call first raises the sender's nonce. */
    method Run() returns (error: VmError)
      requires MintsNothing(evm)
      modifies this`gas, state
      ensures gas <= old(gas) && Sum(state.world.balance) <= Sum(old(state.world).balance)
      ensures Outcome(state.world, gas, error) == evm(Entered(old(state.world), msg), msg, old(gas))
    {
      var w := state.world;
      if msg.to.Some? {
        w := w.(nonces := w.nonces[msg.from := Of(w.nonces, msg.from) + 1]);
      }
      var out := evm(w, msg, gas);
      state.world := out.world;
      gas := out.left;
      return out.error;
    }
  }

  /** What was bought is what was used and what was given back, also in money. */
  lemma Settles(bought: nat, used: nat, left: nat, price: nat)
    requires bought == used + left
    ensures bought * price == used * price + left * price && used * price >= 0
  {
  }
}
