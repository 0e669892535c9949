/**
 What the transaction pool takes back when its head changes to another branch.
 */
module Reinjection {
  import opened Basics
  import opened ChainTree
  import opened ChainFork

  const MAX_REORG_DEPTH: nat := 16

  /** Adds a block's transactions to those of the new branch. */
  method Include(included: set<nat>, txs: seq<nat>) returns (r: set<nat>)
    ensures r == included + SetOf(txs)
  {
    r := included;
    for i := 0 to |txs|
      invariant r == included + SetOf(txs[..i])
    {
      assert txs[..i + 1] == txs[..i] + [txs[i]];
      r := r + {txs[i]};
    }
    assert txs[..|txs|] == txs;
  }

  /** Drops transactions the new branch also has. */
  method Withdraw(reinject: set<nat>, txs: seq<nat>) returns (r: set<nat>)
    ensures r == reinject - SetOf(txs)
  {
    r := reinject;
    for i := 0 to |txs|
      invariant r == reinject - SetOf(txs[..i])
    {
      assert txs[..i + 1] == txs[..i] + [txs[i]];
      if txs[i] in r {
        r := r - {txs[i]};
      }
    }
    assert txs[..|txs|] == txs;
  }

  /** Takes back a dropped block's transactions, except those seen on the new branch. */
  method Collect(reinject: set<nat>, included: set<nat>, txs: seq<nat>) returns (r: set<nat>)
    ensures r == reinject + (SetOf(txs) - included)
  {
    r := reinject;
    for i := 0 to |txs|
      invariant r == reinject + (SetOf(txs[..i]) - included)
    {
      assert txs[..i + 1] == txs[..i] + [txs[i]];
      if txs[i] !in included {
        r := r + {txs[i]};
      }
    }
    assert txs[..|txs|] == txs;
  }

  /** Distance between two heights. */
  function Depth(a: nat, b: nat): nat {
    if a > b then a - b else b - a
  }

  /** What a change of head from `old` to `new` should take back. */
  ghost function Abandoned(db: Headers, body: nat -> seq<nat>, branch: Header, main: Header): set<nat>
    requires Meet(db, branch, main).Some?
  {
    var n := Meet(db, branch, main).value.number;
    Branch(db, body, branch, n) - Branch(db, body, main, n)
  }

  /**
   The transactions to take back, or nothing at all if a chain turns out to be
   unrooted on the way to the common ancestor.
   */
  method Reinject(db: Headers, body: nat -> seq<nat>, oldBlock: Option<Header>, newBlock: Header)
    returns (r: Option<set<nat>>)
    requires oldBlock.Some? ==> Comparable(db, oldBlock.value, newBlock)
    ensures oldBlock.None? || oldBlock.value.hash == newBlock.parent ==> r == Some({})
    ensures oldBlock.Some? && oldBlock.value.hash != newBlock.parent ==>
      if Depth(oldBlock.value.number, newBlock.number) > MAX_REORG_DEPTH then r == Some({})
      else if Meet(db, oldBlock.value, newBlock).None? then r == None
      else r == Some(Abandoned(db, body, oldBlock.value, newBlock))
  {
    if oldBlock.None? || oldBlock.value.hash == newBlock.parent {
      return Some({});
    }
    var depth := Depth(oldBlock.value.number, newBlock.number);
    if depth > MAX_REORG_DEPTH {
      return Some({});
    }
    r := Walk(db, body, oldBlock.value, newBlock);
  }

  /** The three loops that walk both branches up to where they meet. */
  method Walk(db: Headers, body: nat -> seq<nat>, oldBlock: Header, newBlock: Header) returns (r: Option<set<nat>>)
    requires Comparable(db, oldBlock, newBlock)
    ensures r == if Meet(db, oldBlock, newBlock).None? then None else Some(Abandoned(db, body, oldBlock, newBlock))
  {
    var branch, main := oldBlock, newBlock;
    var included, reinject := {}, {};
    ghost var dropped: set<nat> := {};
    ghost var n := Fork(db, oldBlock, newBlock);
    while main.number > oldBlock.number
      invariant Comparable(db, branch, main) && Meet(db, branch, main) == Meet(db, oldBlock, newBlock)
      invariant main == newBlock || main.number >= oldBlock.number
      invariant Covers(db, body, included, main, newBlock, n)
      decreases main.number
    {
      included := Include(included, body(main.hash));
      StillAbove(db, branch, main, n);
      var p := Up(db, main);
      if p.None? { return None; }
      CoverMore(db, body, included, main, newBlock, n);
      main := p.value;
    }
    while branch.number > newBlock.number
      invariant Comparable(db, branch, main) && Meet(db, branch, main) == Meet(db, oldBlock, newBlock)
      invariant branch.number >= main.number && (branch.number > newBlock.number ==> main == newBlock)
      invariant branch.number <= newBlock.number ==> branch.number == main.number
      invariant Covers(db, body, included, main, newBlock, n)
      invariant reinject == dropped - included && Covers(db, body, dropped, branch, oldBlock, n)
      decreases branch.number
    {
      reinject := Collect(reinject, included, body(branch.hash));
      StillAbove(db, branch, main, n);
      var p := Up(db, branch);
      if p.None? { return None; }
      CoverMore(db, body, dropped, branch, oldBlock, n);
      dropped := dropped + SetOf(body(branch.hash));
      branch := p.value;
    }
    while branch.hash != main.hash
      invariant Comparable(db, branch, main) && Meet(db, branch, main) == Meet(db, oldBlock, newBlock)
      invariant branch.number == main.number
      invariant Covers(db, body, included, main, newBlock, n)
      invariant reinject == dropped - included && Covers(db, body, dropped, branch, oldBlock, n)
      decreases branch.number
    {
      StillAbove(db, branch, main, n);
      reinject := Withdraw(reinject, body(main.hash));
      included := Include(included, body(main.hash));
      var p := Up(db, main);
      if p.None? { return None; }
      CoverMore(db, body, included, main, newBlock, n);
      main := p.value;
      reinject := Collect(reinject, included, body(branch.hash));
      p := Up(db, branch);
      if p.None? { return None; }
      CoverMore(db, body, dropped, branch, oldBlock, n);
      dropped := dropped + SetOf(body(branch.hash));
      branch := p.value;
    }
    r := Some(reinject);
  }
}
