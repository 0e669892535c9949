/**
 `txList`: one account's transactions, with upper bounds on cost and gas that let
 a filter skip lists it cannot affect.
 */
module TxList {
  import opened Basics
  import opened NonceOrder
  import opened TxSortedMap

  /** The price a replacement has to reach; the percentage is added up in signed 64-bit arithmetic. */
  function Threshold(price: nat, priceBump: nat): int {
    price * Signed64((100 + priceBump) % U64) / 100
  }

  /** Whether `tx` may take the place of the incumbent. */
  predicate Outbids(tx: Tx, incumbent: Tx, priceBump: nat) {
    tx.price > incumbent.price && tx.price >= Threshold(incumbent.price, priceBump)
  }

  /** A replacement has to pay the bump on top, rounded down, exactly if the bump is below 2^63 - 100; beyond that any higher price will do. */
  lemma OutbidsMeaning(tx: Tx, incumbent: Tx, priceBump: nat)
    requires priceBump < U64
    ensures Outbids(tx, incumbent, priceBump) <==>
      tx.price > incumbent.price && (priceBump < U64 / 2 - 100 ==> 100 * (tx.price + 1) > incumbent.price * (100 + priceBump))
  {
    var signed := Signed64((100 + priceBump) % U64);
    Quotient(incumbent.price * signed, 100);
    if priceBump >= U64 / 2 - 100 {
      BelowOne(incumbent.price, signed);
    }
  }

  lemma Quotient(x: int, d: nat)
    requires d > 0
    ensures d * (x / d) <= x < d * (x / d + 1)
  {
  }

  lemma BelowOne(price: nat, percent: int)
    requires percent < 100
    ensures price * percent <= price * 100
  {
  }

  /** What the account or the block can no longer afford. */
  function TooDear(costLimit: nat, gasLimit: nat): Tx -> bool {
    (tx: Tx) => tx.Cost() > costLimit || tx.gas > gasLimit
  }

  class TxList {
    const strict: bool
    const txs: TxSortedMap
    var costcap: nat
    var gascap: nat

    /** No transaction exceeds the bounds. */
    ghost predicate Bounded()
      reads this, txs
    {
      forall n :: n in txs.items ==> txs.items[n].Cost() <= costcap && txs.items[n].gas <= gascap
    }

    ghost predicate Valid()
      reads this, txs
    {
      txs.Valid() && Bounded()
    }

    ghost predicate Sound()
      reads this, txs
    {
      txs.Sound() && Bounded()
    }

    constructor (isStrict: bool)
      ensures Sound() && strict == isStrict && txs.items == map[] && fresh(txs)
    {
      strict, costcap, gascap := isStrict, 0, 0;
      txs := new TxSortedMap();
    }

    predicate Overlaps(tx: Tx)
      reads this, txs
    {
      tx.nonce in txs.items
    }

    /** Adds a transaction unless the one with its nonce is not outbid; gives back the one replaced. */
    method Add(tx: Tx, priceBump: nat) returns (ok: bool, replaced: Option<Tx>)
      requires Valid()
      modifies this, txs
      ensures Valid() && (old(Sound()) || ok ==> Sound())
      ensures ok <==> !old(Overlaps(tx)) || Outbids(tx, old(txs.items)[tx.nonce], priceBump)
      ensures txs.items == if ok then old(txs.items)[tx.nonce := tx] else old(txs.items)
      ensures replaced == if ok && old(Overlaps(tx)) then Some(old(txs.items)[tx.nonce]) else None
    {
      replaced := txs.Get(tx.nonce);
      if replaced.Some? {
        var threshold := Threshold(replaced.value.price, priceBump);
        if replaced.value.price >= tx.price || tx.price < threshold {
          return false, None;
        }
      }
      AddUnchecked(tx);
      ok := true;
    }

    /** Adds a transaction and raises the bounds to cover it. */
    method AddUnchecked(tx: Tx)
      requires Valid()
      modifies this, txs
      ensures Sound() && txs.items == old(txs.items)[tx.nonce := tx]
    {
      txs.Put(tx);
      if costcap < tx.Cost() {
        costcap := tx.Cost();
      }
      if gascap < tx.gas {
        gascap := tx.gas;
      }
    }

    method Forward(threshold: nat) returns (removed: seq<Tx>)
      requires Valid()
      modifies txs
      ensures Valid() && (old(Sound()) ==> Sound())
      ensures txs.items == From(old(txs.items), threshold) && IsFlat(Below(old(txs.items), threshold), removed)
    {
      removed := txs.Forward(threshold);
    }

    /**
     Takes out what is too dear. Although it returns at once when the bounds are
     within the limits, it does in every case what a full scan would.
     */
    method Filter(costLimit: nat, gasLimit: nat) returns (removed: seq<Tx>, invalid: seq<Tx>)
      requires Valid() && (strict ==> Sound())
      modifies this, txs
      ensures Valid() && (old(Sound()) ==> Sound())
      ensures strict ==> StrictlyFiltered(old(txs.items), TooDear(costLimit, gasLimit), txs.items, removed, invalid)
      ensures !strict ==> LooselyFiltered(old(txs.items), TooDear(costLimit, gasLimit), txs.items, removed) && invalid == []
      ensures forall n :: n in txs.items ==> txs.items[n].Cost() <= costLimit && txs.items[n].gas <= gasLimit
    {
      removed, invalid := [], [];
      if costcap <= costLimit && gascap <= gasLimit {
        NothingTooDear(txs.items, costLimit, gasLimit);
        return;
      }
      costcap, gascap := costLimit, gasLimit;
      if strict {
        removed, invalid := txs.FilterStrict(TooDear(costLimit, gasLimit));
        StrictLeavesAffordable(old(txs.items), costLimit, gasLimit, txs.items, removed, invalid);
      } else {
        removed := txs.FilterLoose(TooDear(costLimit, gasLimit));
      }
    }

    method Cap(threshold: nat) returns (removed: seq<Tx>)
      requires Valid()
      modifies txs
      ensures Valid() && (old(Sound()) ==> Sound())
      ensures |old(txs.items)| <= threshold ==> txs.items == old(txs.items) && removed == []
      ensures |old(txs.items)| > threshold ==> |txs.items| == threshold && |removed| == |old(txs.items)| - threshold
      ensures |old(txs.items)| > threshold ==> var lowest := removed[|removed| - 1].nonce;
        txs.items == Below(old(txs.items), lowest) && IsFlat(From(old(txs.items), lowest), Reversed(removed))
    {
      removed := txs.Cap(threshold);
    }

    method ForLast(n: nat) returns (removed: seq<Tx>)
      requires Sound()
      modifies txs
      ensures Sound() && |removed| == (if n < |old(txs.items)| then n else |old(txs.items)|)
      ensures removed == [] ==> txs.items == old(txs.items)
      ensures removed != [] ==>
        txs.items == Below(old(txs.items), removed[0].nonce) && IsFlat(From(old(txs.items), removed[0].nonce), removed)
    {
      removed := txs.ForLast(n);
    }

    method Remove(tx: Tx) returns (ok: bool, invalid: seq<Tx>)
      requires Valid()
      modifies txs
      ensures Valid() && (old(Sound()) ==> Sound())
      ensures ok <==> old(Overlaps(tx))
      ensures !ok ==> txs.items == old(txs.items) && invalid == []
      ensures ok && !strict ==> txs.items == old(txs.items) - {tx.nonce} && invalid == []
      ensures ok && strict ==> txs.items == Below(old(txs.items), tx.nonce) && IsFlat(From(old(txs.items), tx.nonce + 1), invalid)
    {
      ok, invalid := txs.Remove(tx.nonce, strict);
      assert forall n :: n in txs.items ==> n in old(txs.items) && txs.items[n] == old(txs.items)[n];
    }

    method Ready(start: nat) returns (ready: seq<Tx>)
      requires Valid()
      modifies txs
      ensures Valid() && ReadyRun(old(txs.items), start, ready) && txs.items == AfterRun(old(txs.items), ready)
      ensures old(Sound()) && txs.items != map[] ==> Sound()
    {
      ready := txs.Ready(start);
    }
  }

  lemma NothingTooDear(items: Items, costLimit: nat, gasLimit: nat)
    requires forall n :: n in items ==> items[n].Cost() <= costLimit && items[n].gas <= gasLimit
    ensures StrictlyFiltered(items, TooDear(costLimit, gasLimit), items, [], [])
    ensures LooselyFiltered(items, TooDear(costLimit, gasLimit), items, [])
  {
    assert items == map n | n in items && !TooDear(costLimit, gasLimit)(items[n]) :: items[n];
  }

  lemma StrictLeavesAffordable(was: Items, costLimit: nat, gasLimit: nat, now: Items, removed: seq<Tx>,
      invalid: seq<Tx>)
    requires StrictlyFiltered(was, TooDear(costLimit, gasLimit), now, removed, invalid)
    ensures forall n :: n in now ==> now[n].Cost() <= costLimit && now[n].gas <= gasLimit
  {
    forall n | n in now
      ensures now[n].Cost() <= costLimit && now[n].gas <= gasLimit
    {
      assert !TooDear(costLimit, gasLimit)(was[n]);
    }
  }
}
