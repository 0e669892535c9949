/**
 The transaction lookup index of a chain: where each of its transactions sits.
 */
module TxLookup {
  import opened Basics
  import opened ChainTree
  import opened ChainFork

  datatype Pos = Pos(block: nat, index: nat)

  type Lookup = map<nat, Pos>

  /** The entries of the first `n` transactions of a block. */
  ghost function Entries(h: nat, txs: seq<nat>, n: nat): Lookup
    requires n <= |txs|
  {
    if n == 0 then map[] else Entries(h, txs, n - 1)[txs[n - 1] := Pos(h, n - 1)]
  }

  /** Entering one block after another, from the genesis to `h`. */
  ghost function LookupOf(hs: Headers, genesis: nat, body: nat -> seq<nat>, h: nat): Lookup
    requires Rooted(hs, genesis) && h in hs
    decreases hs[h].number
  {
    assert Linked(hs, genesis, h);
    if h == genesis then map[]
    else LookupOf(hs, genesis, body, hs[h].parent) + Entries(h, body(h), |body(h)|)
  }

  ghost predicate NoRepeats(txs: seq<nat>) {
    forall i, j :: 0 <= i < j < |txs| ==> txs[i] != txs[j]
  }

  /** A block's transactions are distinct and occur nowhere on the chain below it. */
  ghost predicate Fresh(hs: Headers, genesis: nat, body: nat -> seq<nat>, h: nat)
    requires Rooted(hs, genesis) && h in hs
  {
    assert Linked(hs, genesis, h);
    if h == genesis then body(h) == []
    else NoRepeats(body(h)) && forall t :: t in body(h) ==> t !in LookupOf(hs, genesis, body, hs[h].parent)
  }

  ghost predicate AllFresh(hs: Headers, genesis: nat, body: nat -> seq<nat>)
    requires Rooted(hs, genesis)
  {
    forall h {:trigger Fresh(hs, genesis, body, h)} :: h in hs ==> Fresh(hs, genesis, body, h)
  }

  lemma {:induction false} EntriesMeaning(h: nat, txs: seq<nat>, n: nat)
    requires n <= |txs|
    ensures Entries(h, txs, n).Keys == SetOf(txs[..n])
    ensures forall t :: t in Entries(h, txs, n) ==>
      var p := Entries(h, txs, n)[t]; p.block == h && p.index < n && txs[p.index] == t
  {
    if n == 0 {
    } else {
      EntriesMeaning(h, txs, n - 1);
      assert txs[..n] == txs[..n - 1] + [txs[n - 1]];
    }
  }

  /** `t` is transaction number `p.index` of block `p.block`, a block on the chain of `h`. */
  ghost predicate Located(hs: Headers, genesis: nat, body: nat -> seq<nat>, h: nat, t: nat, p: Pos)
    requires Rooted(hs, genesis) && h in hs
  {
    OnChain(hs, genesis, p.block, h) && p.index < |body(p.block)| && body(p.block)[p.index] == t
  }

  /** A block below the parent is below the block, and the other way round except for the block itself. */
  lemma OnChainUp(hs: Headers, genesis: nat, h: nat, b: nat)
    requires Rooted(hs, genesis) && h in hs && h != genesis
    ensures hs[h].parent in hs
    ensures OnChain(hs, genesis, b, h) <==> b == h || OnChain(hs, genesis, b, hs[h].parent)
  {
    assert Linked(hs, genesis, h);
  }

  /**
   With fresh transactions the index holds exactly the positions of the chain's
   transactions: every transaction on the chain has one position, and it is the
   one recorded.
   */
  lemma {:induction false} LookupMeaning(hs: Headers, genesis: nat, body: nat -> seq<nat>, h: nat, t: nat, p: Pos)
    requires Rooted(hs, genesis) && h in hs && AllFresh(hs, genesis, body)
    ensures Located(hs, genesis, body, h, t, p) <==> t in LookupOf(hs, genesis, body, h) && LookupOf(hs, genesis, body, h)[t] == p
    decreases hs[h].number
  {
    assert Linked(hs, genesis, h) && Fresh(hs, genesis, body, h);
    if h == genesis {
      if OnChain(hs, genesis, p.block, h) { assert Linked(hs, genesis, p.block); }
    } else {
      LookupMeaning(hs, genesis, body, hs[h].parent, t, p);
      OnChainUp(hs, genesis, h, p.block);
      EntriesMeaning(h, body(h), |body(h)|);
      assert body(h)[..|body(h)|] == body(h);
    }
  }

  /** More stored blocks do not change the index of a stored chain. */
  lemma {:induction false} LookupFrame(hs: Headers, hs': Headers, genesis: nat, body: nat -> seq<nat>, h: nat)
    requires Rooted(hs, genesis) && Rooted(hs', genesis) && h in hs
    requires forall x :: x in hs ==> x in hs' && hs'[x] == hs[x]
    ensures LookupOf(hs', genesis, body, h) == LookupOf(hs, genesis, body, h)
    decreases hs[h].number
  {
    assert Linked(hs, genesis, h);
    if h == genesis {
    } else {
      LookupFrame(hs, hs', genesis, body, hs[h].parent);
    }
  }

  lemma RootedUp(hs: Headers, genesis: nat, h: nat)
    requires Rooted(hs, genesis) && h in hs
    ensures hs[h].hash == h
    ensures h != genesis ==> hs[h].parent in hs && Up(hs, hs[h]) == Some(hs[hs[h].parent])
    ensures h == genesis <==> hs[h].number == 0
  {
    assert Linked(hs, genesis, h);
  }

  /** The index of a chain is the index of any block on it plus the branch above. */
  lemma {:induction false} BranchSplits(hs: Headers, genesis: nat, body: nat -> seq<nat>, h: nat, n: nat)
    requires Rooted(hs, genesis) && h in hs && n <= hs[h].number && AllFresh(hs, genesis, body)
    ensures var below := LookupOf(hs, genesis, body, At(hs, genesis, h, n));
            var branch := Branch(hs, body, hs[h], n);
            && branch !! below.Keys
            && LookupOf(hs, genesis, body, h).Keys == below.Keys + branch
            && LookupOf(hs, genesis, body, h) - branch == below
    decreases hs[h].number
  {
    if n >= hs[h].number {
    } else {
      RootedUp(hs, genesis, h);
      assert Fresh(hs, genesis, body, h);
      var parent := hs[h].parent;
      BranchSplits(hs, genesis, body, parent, n);
      assert At(hs, genesis, h, n) == At(hs, genesis, parent, n);
      EntriesMeaning(h, body(h), |body(h)|);
      assert body(h)[..|body(h)|] == body(h);
    }
  }

  /** Rewriting the index from one branch to another. */
  lemma Splice(below: Lookup, was: Lookup, now: Lookup, dropped: set<nat>, added: set<nat>)
    requires dropped !! below.Keys && was.Keys == below.Keys + dropped
    requires now.Keys == below.Keys + added
    ensures (was + now) - (dropped - added) == now
  {
  }
}
