/**
 `BlockChain`: writing blocks, choosing the head, and moving the number index and
 the transaction lookup index to another branch.
 */
module BlockChain {
  import opened Basics
  import opened ChainTree
  import opened ChainFork
  import opened TxLookup
  import HC = HeaderChain

  /** The blocks of the chain of `h`, highest first. */
  ghost predicate Downward(hs: Headers, genesis: nat, h: nat, chain: seq<Header>)
    requires Rooted(hs, genesis) && h in hs
  {
    && |chain| <= hs[h].number
    && forall j :: 0 <= j < |chain| ==> chain[j] == hs[At(hs, genesis, h, hs[h].number - j)]
  }

  lemma DownwardMore(hs: Headers, genesis: nat, h: nat, chain: seq<Header>, next: Header)
    requires Rooted(hs, genesis) && h in hs && Downward(hs, genesis, h, chain) && |chain| < hs[h].number
    requires next == hs[At(hs, genesis, h, hs[h].number - |chain|)]
    ensures next.parent in hs && hs[next.parent].number == next.number - 1 && next.hash in hs && hs[next.hash] == next
    ensures Downward(hs, genesis, h, chain + [next])
    ensures next.parent == At(hs, genesis, h, hs[h].number - |chain| - 1)
    ensures Up(hs, next) == Some(hs[next.parent])
  {
    AtParent(hs, genesis, h, hs[h].number - |chain|);
    RootedUp(hs, genesis, At(hs, genesis, h, hs[h].number - |chain|));
  }

  /** Two stored chains always meet, on both chains and nowhere above. */
  lemma {:induction false} RootedMeet(hs: Headers, genesis: nat, a: nat, b: nat)
    requires Rooted(hs, genesis) && a in hs && b in hs
    ensures Meet(hs, hs[a], hs[b]).Some?
    ensures var c := Meet(hs, hs[a], hs[b]).value;
            && c.hash in hs && hs[c.hash] == c && c.number <= hs[a].number && c.number <= hs[b].number
            && At(hs, genesis, a, c.number) == c.hash == At(hs, genesis, b, c.number)
    decreases hs[a].number + hs[b].number
  {
    RootedUp(hs, genesis, a);
    RootedUp(hs, genesis, b);
    if a == b {
    } else {
      if hs[a].number > hs[b].number {
        RootedMeet(hs, genesis, hs[a].parent, b);
      } else if hs[a].number < hs[b].number {
        RootedMeet(hs, genesis, a, hs[b].parent);
      } else {
        RootedMeet(hs, genesis, hs[a].parent, hs[b].parent);
      }
    }
  }

  /** The height of the last block two stored chains share. */
  ghost function ForkHeight(hs: Headers, genesis: nat, a: nat, b: nat): (n: nat)
    requires Rooted(hs, genesis) && a in hs && b in hs
    ensures n <= hs[a].number && n <= hs[b].number && n == Fork(hs, hs[a], hs[b])
    ensures At(hs, genesis, a, n) == At(hs, genesis, b, n)
  {
    RootedMeet(hs, genesis, a, b);
    Meet(hs, hs[a], hs[b]).value.number
  }

  lemma RootedComparable(hs: Headers, genesis: nat, a: nat, b: nat)
    requires Rooted(hs, genesis) && a in hs && b in hs
    ensures Comparable(hs, hs[a], hs[b])
  {
    forall h | h in hs
      ensures hs[h].hash == h
    {
      RootedUp(hs, genesis, h);
    }
  }

  /** An index that follows one chain follows the other up to where they meet. */
  lemma FollowsShared(hs: Headers, genesis: nat, canon: map<nat, nat>, a: nat, b: nat, n: nat)
    requires Rooted(hs, genesis) && a in hs && b in hs && n <= hs[a].number && n <= hs[b].number
    requires Follows(hs, genesis, canon, a, n) && At(hs, genesis, a, n) == At(hs, genesis, b, n)
    ensures Follows(hs, genesis, canon, b, n)
  {
    forall k: nat | k <= n
      ensures k in canon && canon[k] == At(hs, genesis, b, k)
    {
      AtBelow(hs, genesis, a, n, k);
      AtBelow(hs, genesis, b, n, k);
    }
  }

  /** A block's freshness depends only on the blocks below it. */
  lemma StoreFresh(hs: Headers, genesis: nat, body: nat -> seq<nat>, header: Header)
    requires Rooted(hs, genesis) && AllFresh(hs, genesis, body) && Fits(hs, genesis, header) && header.parent in hs
    requires NoRepeats(body(header.hash))
    requires forall t :: t in body(header.hash) ==> t !in LookupOf(hs, genesis, body, header.parent)
    ensures Rooted(hs[header.hash := header], genesis) && AllFresh(hs[header.hash := header], genesis, body)
  {
    StoreRooted(hs, genesis, header);
    var hs' := hs[header.hash := header];
    assert Linked(hs, genesis, genesis);
    forall h | h in hs'
      ensures Fresh(hs', genesis, body, h)
    {
      RootedUp(hs', genesis, h);
      if h == header.hash {
        LookupFrame(hs, hs', genesis, body, header.parent);
      } else {
        assert Fresh(hs, genesis, body, h);
        RootedUp(hs, genesis, h);
        if h != genesis { LookupFrame(hs, hs', genesis, body, hs[h].parent); }
      }
    }
  }

  /** The number index with the heads that are moved along with it. */
  datatype Marks = Marks(canon: map<nat, nat>, header: nat, fast: nat)

  /** The index has the chain of `h` at height `k`. */
  ghost predicate Has(hs: Headers, genesis: nat, canon: map<nat, nat>, h: nat, k: nat)
    requires Rooted(hs, genesis) && h in hs && k <= hs[h].number
  {
    CanonicalHash(canon, k) == At(hs, genesis, h, k)
  }

  /** Up to `top`, height `k` is the highest where the index does not have the chain of `h`. */
  ghost predicate LastLacking(hs: Headers, genesis: nat, canon: map<nat, nat>, h: nat, top: nat, k: nat)
    requires Rooted(hs, genesis) && h in hs && k <= top <= hs[h].number
  {
    !Has(hs, genesis, canon, h, k) && forall j: nat :: k < j <= top ==> Has(hs, genesis, canon, h, j)
  }

  /**
   The chain of `h` has been written up to `top`: nothing is changed above, and the header and
   fast heads are at the highest block that the index lacked; if it lacked none, they stay.
   */
  ghost predicate Moved(hs: Headers, genesis: nat, h: nat, top: nat, was: Marks, now: Marks)
    requires Rooted(hs, genesis) && h in hs && top <= hs[h].number
  {
    && (forall k: nat :: k > top ==> CanonicalHash(now.canon, k) == CanonicalHash(was.canon, k))
    && ((forall k: nat :: k <= top ==> Has(hs, genesis, was.canon, h, k)) ==> now.header == was.header && now.fast == was.fast)
    && (forall k: nat :: k <= top && LastLacking(hs, genesis, was.canon, h, top, k) ==> now.header == now.fast == At(hs, genesis, h, k))
  }

  lemma MovedOn(hs: Headers, genesis: nat, h: nat, top: nat, was: Marks, mid: Marks, now: Marks)
    requires Rooted(hs, genesis) && h in hs && top < hs[h].number && Moved(hs, genesis, h, top, was, mid)
    requires now.canon == mid.canon[top + 1 := At(hs, genesis, h, top + 1)]
    requires Has(hs, genesis, mid.canon, h, top + 1) ==> now.header == mid.header && now.fast == mid.fast
    requires !Has(hs, genesis, mid.canon, h, top + 1) ==> now.header == now.fast == At(hs, genesis, h, top + 1)
    ensures Moved(hs, genesis, h, top + 1, was, now)
  {
    assert Has(hs, genesis, mid.canon, h, top + 1) <==> Has(hs, genesis, was.canon, h, top + 1);
    forall k: nat | k <= top + 1 && LastLacking(hs, genesis, was.canon, h, top + 1, k)
      ensures now.header == now.fast == At(hs, genesis, h, k)
    {
      if k <= top {
        assert Has(hs, genesis, was.canon, h, top + 1);
        assert LastLacking(hs, genesis, was.canon, h, top, k);
      }
    }
  }

  /** Writing the top block once more changes nothing. */
  lemma MovedAgain(hs: Headers, genesis: nat, h: nat, was: Marks, mid: Marks, now: Marks)
    requires Rooted(hs, genesis) && h in hs && Moved(hs, genesis, h, hs[h].number, was, mid)
    requires now.canon == mid.canon[hs[h].number := h] && now.header == mid.header && now.fast == mid.fast
    ensures Moved(hs, genesis, h, hs[h].number, was, now)
  {
  }

  /** Whether a chain replaces that of the head: the heavier one is preferred, then the shorter one, then the coin decides. */
  method Prefers(td: nat, number: nat, headTd: nat, headNumber: nat, coin: bool) returns (reorg: bool)
    ensures reorg ==> td >= headTd && (td == headTd ==> number <= headNumber)
    ensures !reorg ==> td <= headTd && (td == headTd ==> number >= headNumber)
    ensures td == headTd && number == headNumber ==> reorg == coin
  {
    reorg := td > headTd;
    if !reorg && td == headTd {
      reorg := number < headNumber || (number == headNumber && coin);
    }
  }

  class BlockChain {
    const genesis: nat
    /** The transactions of a block, which its hash determines. */
    const body: nat -> seq<nat>
    var blocks: Headers
    var tds: map<nat, nat>
    /** The number to hash index; entries above the head may be left over from another branch. */
    var canon: map<nat, nat>
    var lookup: Lookup
    var currentBlock: nat
    var currentHeader: nat
    var currentFastBlock: nat

    ghost predicate Valid()
      reads this
    {
      && Rooted(blocks, genesis)
      && HC.DifficultiesOk(blocks, genesis, tds)
      && AllFresh(blocks, genesis, body)
      && currentBlock in blocks && Follows(blocks, genesis, canon, currentBlock, blocks[currentBlock].number)
      && (forall h :: h in tds ==> tds[h] <= tds[currentBlock])
      && lookup == LookupOf(blocks, genesis, body, currentBlock)
    }

    constructor (header: Header, bodies: nat -> seq<nat>)
      requires header.hash != ZERO && header.number == 0 && bodies(header.hash) == []
      ensures Valid() && currentBlock == genesis == header.hash && body == bodies
    {
      genesis, body := header.hash, bodies;
      blocks := map[header.hash := header];
      tds := map[header.hash := header.difficulty];
      canon := map[0 := header.hash];
      lookup := map[];
      currentBlock, currentHeader, currentFastBlock := header.hash, header.hash, header.hash;
    }

    /** The number index and the heads moved along with it. */
    ghost function Marked(): Marks
      reads this
    {
      Marks(canon, currentHeader, currentFastBlock)
    }

    /** Makes a block the head and indexes it; the header and fast heads follow if the index changes. */
    method Insert(block: Header)
      modifies this`canon, this`currentBlock, this`currentHeader, this`currentFastBlock
      ensures canon == old(canon)[block.number := block.hash] && currentBlock == block.hash
      ensures CanonicalHash(old(canon), block.number) == block.hash ==>
        currentHeader == old(currentHeader) && currentFastBlock == old(currentFastBlock)
      ensures CanonicalHash(old(canon), block.number) != block.hash ==>
        currentHeader == block.hash && currentFastBlock == block.hash
    {
      var updateHeads := CanonicalHash(canon, block.number) != block.hash;
      canon := canon[block.number := block.hash];
      currentBlock := block.hash;
      if updateHeads {
        currentHeader := block.hash;
        currentFastBlock := block.hash;
      }
    }

    method WriteTxLookupEntries(block: Header)
      modifies this`lookup
      ensures lookup == old(lookup) + Entries(block.hash, body(block.hash), |body(block.hash)|)
    {
      var txs := body(block.hash);
      for i := 0 to |txs|
        invariant lookup == old(lookup) + Entries(block.hash, txs, i)
      {
        lookup := lookup[txs[i] := Pos(block.hash, i)];
      }
    }

    /** Walks both branches down to the block they share; every parent is found. */
    method Split(oldHead: nat, newHead: nat) returns (newChain: seq<Header>, deletedTxs: seq<nat>)
      requires Rooted(blocks, genesis) && oldHead in blocks && newHead in blocks
      ensures var n := ForkHeight(blocks, genesis, oldHead, newHead);
              && |newChain| == blocks[newHead].number - n && Downward(blocks, genesis, newHead, newChain)
              && SetOf(deletedTxs) == Branch(blocks, body, blocks[oldHead], n)
    {
      newChain, deletedTxs := [], [];
      var oldBlock, newBlock := blocks[oldHead], blocks[newHead];
      ghost var n := ForkHeight(blocks, genesis, oldHead, newHead);
      RootedComparable(blocks, genesis, oldHead, newHead);
      if oldBlock.number > newBlock.number {
        while oldBlock.number != newBlock.number
          invariant newBlock == blocks[newHead] && oldBlock.number >= newBlock.number && newChain == []
          invariant Above(oldHead, newHead, oldBlock, newBlock) && Covers(blocks, body, SetOf(deletedTxs), oldBlock, blocks[oldHead], n)
          decreases oldBlock.number
        {
          AboveOld(oldHead, newHead, oldBlock, newBlock, deletedTxs);
          deletedTxs := deletedTxs + body(oldBlock.hash);
          oldBlock := blocks[oldBlock.parent];
        }
      } else {
        while newBlock.number != oldBlock.number
          invariant oldBlock == blocks[oldHead] && newBlock.number >= oldBlock.number && deletedTxs == []
          invariant Above(oldHead, newHead, oldBlock, newBlock) && NewSide(newHead, newBlock, newChain)
          decreases newBlock.number
        {
          AboveNew(oldHead, newHead, oldBlock, newBlock, newChain);
          newChain := newChain + [newBlock];
          newBlock := blocks[newBlock.parent];
        }
      }
      while oldBlock.hash != newBlock.hash
        invariant oldBlock.number == newBlock.number
        invariant Above(oldHead, newHead, oldBlock, newBlock) && NewSide(newHead, newBlock, newChain)
        invariant Covers(blocks, body, SetOf(deletedTxs), oldBlock, blocks[oldHead], n)
        decreases oldBlock.number
      {
        AboveOld(oldHead, newHead, oldBlock, newBlock, deletedTxs);
        AboveNew(oldHead, newHead, oldBlock, newBlock, newChain);
        newChain := newChain + [newBlock];
        deletedTxs := deletedTxs + body(oldBlock.hash);
        oldBlock, newBlock := blocks[oldBlock.parent], blocks[newBlock.parent];
      }
    }

    /** Two stored blocks whose lines meet where those of the heads do. */
    ghost predicate Above(oldHead: nat, newHead: nat, oldBlock: Header, newBlock: Header)
      requires Rooted(blocks, genesis) && oldHead in blocks && newHead in blocks
      reads this
    {
      && oldBlock.hash in blocks && blocks[oldBlock.hash] == oldBlock
      && newBlock.hash in blocks && blocks[newBlock.hash] == newBlock
      && Meet(blocks, oldBlock, newBlock) == Meet(blocks, blocks[oldHead], blocks[newHead])
    }

    ghost predicate NewSide(newHead: nat, newBlock: Header, newChain: seq<Header>)
      requires Rooted(blocks, genesis) && newHead in blocks
      reads this
    {
      && Downward(blocks, genesis, newHead, newChain)
      && newBlock == blocks[At(blocks, genesis, newHead, blocks[newHead].number - |newChain|)]
    }

    lemma AboveOld(oldHead: nat, newHead: nat, oldBlock: Header, newBlock: Header, deletedTxs: seq<nat>)
      requires Rooted(blocks, genesis) && oldHead in blocks && newHead in blocks
      requires Above(oldHead, newHead, oldBlock, newBlock) && oldBlock.number >= newBlock.number && oldBlock.hash != newBlock.hash
      requires Covers(blocks, body, SetOf(deletedTxs), oldBlock, blocks[oldHead], ForkHeight(blocks, genesis, oldHead, newHead))
      ensures Up(blocks, oldBlock) == Some(if oldBlock.parent in blocks then blocks[oldBlock.parent] else oldBlock) && oldBlock.parent in blocks
      ensures Covers(blocks, body, SetOf(deletedTxs + body(oldBlock.hash)), blocks[oldBlock.parent], blocks[oldHead], ForkHeight(blocks, genesis, oldHead, newHead))
    {
      RootedUp(blocks, genesis, oldBlock.hash);
      RootedUp(blocks, genesis, newBlock.hash);
      RootedComparable(blocks, genesis, oldBlock.hash, newBlock.hash);
      var n := ForkHeight(blocks, genesis, oldHead, newHead);
      StillAbove(blocks, oldBlock, newBlock, n);
      CoverMore(blocks, body, SetOf(deletedTxs), oldBlock, blocks[oldHead], n);
      assert SetOf(deletedTxs + body(oldBlock.hash)) == SetOf(deletedTxs) + SetOf(body(oldBlock.hash));
    }

    lemma AboveNew(oldHead: nat, newHead: nat, oldBlock: Header, newBlock: Header, newChain: seq<Header>)
      requires Rooted(blocks, genesis) && oldHead in blocks && newHead in blocks
      requires Above(oldHead, newHead, oldBlock, newBlock) && newBlock.number >= oldBlock.number && oldBlock.hash != newBlock.hash
      requires NewSide(newHead, newBlock, newChain)
      ensures newBlock.parent in blocks && Up(blocks, newBlock) == Some(blocks[newBlock.parent])
      ensures NewSide(newHead, blocks[newBlock.parent], newChain + [newBlock])
    {
      RootedUp(blocks, genesis, oldBlock.hash);
      RootedUp(blocks, genesis, newBlock.hash);
      DownwardMore(blocks, genesis, newHead, newChain, newBlock);
    }

    /** One round of the re-insertion. */
    method Extend(newHead: nat, block: Header, ghost marks: Marks)
      requires Rooted(blocks, genesis) && newHead in blocks && 0 < block.number <= blocks[newHead].number
      requires block.hash == At(blocks, genesis, newHead, block.number) && Follows(blocks, genesis, canon, newHead, block.number - 1)
      requires Moved(blocks, genesis, newHead, block.number - 1, marks, Marked())
      modifies this`canon, this`lookup, this`currentBlock, this`currentHeader, this`currentFastBlock
      ensures Follows(blocks, genesis, canon, newHead, block.number)
      ensures lookup == old(lookup) + Entries(block.hash, body(block.hash), |body(block.hash)|)
      ensures Moved(blocks, genesis, newHead, block.number, marks, Marked())
    {
      Insert(block);
      MovedOn(blocks, genesis, newHead, block.number - 1, marks, old(Marked()), Marked());
      WriteTxLookupEntries(block);
    }

    lemma MergeAssociates(a: Lookup, b: Lookup, block: Header)
      ensures (a + b) + Entries(block.hash, body(block.hash), |body(block.hash)|) == a + (b + Entries(block.hash, body(block.hash), |body(block.hash)|))
    {
    }

    /** The block of a chain at distance `i` from its head, in terms of the one below it. */
    lemma NextBlock(newHead: nat, newChain: seq<Header>, i: nat, n: nat)
      requires Rooted(blocks, genesis) && newHead in blocks && i + n < blocks[newHead].number
      requires i < |newChain| && Downward(blocks, genesis, newHead, newChain)
      ensures newChain[i].number == blocks[newHead].number - i && newChain[i].hash == At(blocks, genesis, newHead, blocks[newHead].number - i)
      ensures var b := At(blocks, genesis, newHead, blocks[newHead].number - i);
              var p := At(blocks, genesis, newHead, blocks[newHead].number - i - 1);
              && blocks[b].hash == b && blocks[b].parent == p && b != genesis
              && LookupOf(blocks, genesis, body, b) == LookupOf(blocks, genesis, body, p) + Entries(b, body(b), |body(b)|)
              && Branch(blocks, body, blocks[b], n) == SetOf(body(b)) + Branch(blocks, body, blocks[p], n)
    {
      AtParent(blocks, genesis, newHead, blocks[newHead].number - i);
      RootedUp(blocks, genesis, At(blocks, genesis, newHead, blocks[newHead].number - i));
    }

    /** The new chain has been re-inserted up to the block `i` links above its head. */
    ghost predicate Reinserted(newHead: nat, n: nat, i: nat, was: Lookup, marks: Marks, addedTxs: set<nat>)
      requires Rooted(blocks, genesis) && newHead in blocks
      reads this
    {
      && i + n <= blocks[newHead].number && Follows(blocks, genesis, canon, newHead, blocks[newHead].number - i)
      && Moved(blocks, genesis, newHead, blocks[newHead].number - i, marks, Marked())
      && var at := At(blocks, genesis, newHead, blocks[newHead].number - i);
         && lookup == was + LookupOf(blocks, genesis, body, at)
         && addedTxs == Branch(blocks, body, blocks[at], n)
    }

    method ReinsertNext(newHead: nat, newChain: seq<Header>, i: nat, ghost n: nat, ghost was: Lookup, ghost marks: Marks, addedTxs: set<nat>)
      returns (more: set<nat>)
      requires Rooted(blocks, genesis) && newHead in blocks && i < |newChain| == blocks[newHead].number - n
      requires Downward(blocks, genesis, newHead, newChain) && Reinserted(newHead, n, i + 1, was, marks, addedTxs)
      modifies this`canon, this`lookup, this`currentBlock, this`currentHeader, this`currentFastBlock
      ensures Reinserted(newHead, n, i, was, marks, more)
    {
      NextBlock(newHead, newChain, i, n);
      MergeAssociates(was, LookupOf(blocks, genesis, body, At(blocks, genesis, newHead, blocks[newHead].number - i - 1)), newChain[i]);
      Extend(newHead, newChain[i], marks);
      more := SetOf(body(newChain[i].hash)) + addedTxs;
    }

    /** Re-inserts the blocks of the new branch, lowest first. */
    method Reinsert(newHead: nat, newChain: seq<Header>, ghost n: nat) returns (addedTxs: set<nat>)
      requires Rooted(blocks, genesis) && newHead in blocks && n <= blocks[newHead].number
      requires |newChain| == blocks[newHead].number - n && Downward(blocks, genesis, newHead, newChain)
      requires Follows(blocks, genesis, canon, newHead, n)
      requires lookup + LookupOf(blocks, genesis, body, At(blocks, genesis, newHead, n)) == lookup
      modifies this`canon, this`lookup, this`currentBlock, this`currentHeader, this`currentFastBlock
      ensures Follows(blocks, genesis, canon, newHead, blocks[newHead].number)
      ensures lookup == old(lookup) + LookupOf(blocks, genesis, body, newHead)
      ensures addedTxs == Branch(blocks, body, blocks[newHead], n)
      ensures Moved(blocks, genesis, newHead, blocks[newHead].number, old(Marked()), Marked())
    {
      addedTxs := {};
      var i := |newChain|;
      while i > 0
        invariant 0 <= i <= |newChain| && Reinserted(newHead, n, i, old(lookup), old(Marked()), addedTxs)
      {
        i := i - 1;
        addedTxs := ReinsertNext(newHead, newChain, i, n, old(lookup), old(Marked()), addedTxs);
      }
    }

    /** Removes the lookups of transactions that only the old branch had. */
    method DeleteLookups(deletedTxs: seq<nat>, addedTxs: set<nat>)
      modifies this`lookup
      ensures lookup == old(lookup) - (SetOf(deletedTxs) - addedTxs)
    {
      for i := 0 to |deletedTxs|
        invariant lookup == old(lookup) - (SetOf(deletedTxs[..i]) - addedTxs)
      {
        assert deletedTxs[..i + 1] == deletedTxs[..i] + [deletedTxs[i]];
        if deletedTxs[i] !in addedTxs {
          lookup := lookup - {deletedTxs[i]};
        }
      }
      assert deletedTxs[..|deletedTxs|] == deletedTxs;
    }

    /** Moves both indexes from one stored chain to another. */
    method Reorg(oldHead: nat, newHead: nat)
      requires Rooted(blocks, genesis) && oldHead in blocks && newHead in blocks && AllFresh(blocks, genesis, body)
      requires Follows(blocks, genesis, canon, oldHead, blocks[oldHead].number)
      requires lookup == LookupOf(blocks, genesis, body, oldHead)
      modifies this`canon, this`lookup, this`currentBlock, this`currentHeader, this`currentFastBlock
      ensures Follows(blocks, genesis, canon, newHead, blocks[newHead].number)
      ensures lookup == LookupOf(blocks, genesis, body, newHead)
      ensures Moved(blocks, genesis, newHead, blocks[newHead].number, old(Marked()), Marked())
    {
      ghost var n := ForkHeight(blocks, genesis, oldHead, newHead);
      var newChain, deletedTxs := Split(oldHead, newHead);
      FollowsShared(blocks, genesis, canon, oldHead, newHead, n);
      BranchSplits(blocks, genesis, body, oldHead, n);
      BranchSplits(blocks, genesis, body, newHead, n);
      ghost var below := LookupOf(blocks, genesis, body, At(blocks, genesis, oldHead, n));
      Underneath(below, lookup, SetOf(deletedTxs));
      var addedTxs := Reinsert(newHead, newChain, n);
      DeleteLookups(deletedTxs, addedTxs);
      Splice(below, LookupOf(blocks, genesis, body, oldHead), LookupOf(blocks, genesis, body, newHead), SetOf(deletedTxs), addedTxs);
    }

    lemma Underneath(below: Lookup, was: Lookup, dropped: set<nat>)
      requires dropped !! below.Keys && was - dropped == below
      ensures was + below == was
    {
      forall t | t in below
        ensures t in was && was[t] == below[t]
      {
        assert t in was - dropped;
      }
    }

    /**
     Writes a block and makes it the head if its chain is heavier, or as heavy and
     shorter, or as heavy and as long and the coin says so.
     */
    method WriteBlockWithState(block: Header, coin: bool) returns (status: HC.WriteStatus)
      requires Valid() && Fits(blocks, genesis, block)
      requires block.parent in blocks ==> NoRepeats(body(block.hash))
      requires block.parent in blocks ==> forall t :: t in body(block.hash) ==> t !in LookupOf(blocks, genesis, body, block.parent)
      modifies this
      ensures Valid()
      ensures status == HC.NonStat <==> block.parent !in old(blocks)
      ensures blocks == if status == HC.NonStat then old(blocks) else old(blocks)[block.hash := block]
      ensures status != HC.NonStat ==>
        var td, headTd, headNumber := tds[block.hash], old(tds[currentBlock]), old(blocks[currentBlock].number);
        && td == old(tds)[block.parent] + block.difficulty
        && (status == HC.Canon ==> td >= headTd && (td == headTd ==> block.number <= headNumber))
        && (status == HC.Side ==> td <= headTd && (td == headTd ==> block.number >= headNumber))
        && (td == headTd && block.number == headNumber ==> (status == HC.Canon <==> coin))
      ensures currentBlock == if status == HC.Canon then block.hash else old(currentBlock)
      ensures status == HC.Canon ==> Moved(blocks, genesis, block.hash, block.number, old(Marked()), Marked())
      ensures status == HC.Canon && CanonicalHash(old(canon), block.number) != block.hash ==>
        currentHeader == currentFastBlock == block.hash
      ensures status != HC.Canon ==> Marked() == old(Marked()) && lookup == old(lookup)
    {
      if block.parent !in tds {
        return HC.NonStat;
      }
      var localTd := tds[currentBlock];
      var externTd := tds[block.parent] + block.difficulty;
      Store(block);
      var reorg := Prefers(externTd, block.number, localTd, blocks[currentBlock].number, coin);
      if reorg {
        MakeHead(block);
        assert !Has(blocks, genesis, old(canon), block.hash, block.number) ==>
          LastLacking(blocks, genesis, old(canon), block.hash, block.number, block.number);
        status := HC.Canon;
      } else {
        status := HC.Side;
      }
    }

    /** Puts a block and its total difficulty in the database. */
    method Store(block: Header)
      requires Rooted(blocks, genesis) && AllFresh(blocks, genesis, body) && HC.DifficultiesOk(blocks, genesis, tds)
      requires currentBlock in blocks && Follows(blocks, genesis, canon, currentBlock, blocks[currentBlock].number)
      requires lookup == LookupOf(blocks, genesis, body, currentBlock)
      requires Fits(blocks, genesis, block) && block.parent in blocks && NoRepeats(body(block.hash))
      requires forall t :: t in body(block.hash) ==> t !in LookupOf(blocks, genesis, body, block.parent)
      modifies this`blocks, this`tds
      ensures blocks == old(blocks)[block.hash := block]
      ensures tds == old(tds)[block.hash := old(tds)[block.parent] + block.difficulty]
      ensures Rooted(blocks, genesis) && AllFresh(blocks, genesis, body) && HC.DifficultiesOk(blocks, genesis, tds)
      ensures Follows(blocks, genesis, canon, currentBlock, blocks[currentBlock].number)
      ensures lookup == LookupOf(blocks, genesis, body, currentBlock)
      ensures blocks[currentBlock] == old(blocks)[currentBlock]
    {
      StoreRooted(blocks, genesis, block);
      StoreFresh(blocks, genesis, body, block);
      HC.StoreDifficulty(blocks, genesis, tds, block);
      HC.StoreFollows(blocks, genesis, canon, currentBlock, block);
      LookupFrame(blocks, blocks[block.hash := block], genesis, body, currentBlock);
      tds := tds[block.hash := tds[block.parent] + block.difficulty];
      blocks := blocks[block.hash := block];
    }

    /** Reorganises if the parent is not the head, then writes the block's lookups and makes it the head. */
    method MakeHead(block: Header)
      requires Rooted(blocks, genesis) && AllFresh(blocks, genesis, body)
      requires currentBlock in blocks && Follows(blocks, genesis, canon, currentBlock, blocks[currentBlock].number)
      requires lookup == LookupOf(blocks, genesis, body, currentBlock)
      requires block.hash in blocks && blocks[block.hash] == block && block.number > 0
      modifies this`canon, this`lookup, this`currentBlock, this`currentHeader, this`currentFastBlock
      ensures currentBlock == block.hash && Follows(blocks, genesis, canon, currentBlock, block.number)
      ensures lookup == LookupOf(blocks, genesis, body, currentBlock)
      ensures Moved(blocks, genesis, block.hash, block.number, old(Marked()), Marked())
    {
      RootedUp(blocks, genesis, block.hash);
      if block.parent != currentBlock {
        Reorg(currentBlock, block.hash);
      } else {
        FollowsChild(block);
      }
      ghost var mid := Marked();
      WriteTxLookupEntries(block);
      Insert(block);
      if block.parent == old(currentBlock) {
        MovedOn(blocks, genesis, block.hash, block.number - 1, old(Marked()), mid, Marked());
      } else {
        MovedAgain(blocks, genesis, block.hash, old(Marked()), mid, Marked());
      }
    }

    lemma FollowsChild(block: Header)
      requires Rooted(blocks, genesis) && block.hash in blocks && blocks[block.hash] == block && block.number > 0
      requires block.parent in blocks && Follows(blocks, genesis, canon, block.parent, blocks[block.parent].number)
      ensures Follows(blocks, genesis, canon, block.hash, block.number - 1)
    {
      RootedUp(blocks, genesis, block.hash);
      forall k: nat | k <= block.number - 1
        ensures k in canon && canon[k] == At(blocks, genesis, block.hash, k)
      {
      }
    }

    /** Writes a side block that is not heavier than the head. */
    method WriteBlockWithoutState(block: Header)
      requires Valid() && Fits(blocks, genesis, block) && block.parent in blocks && NoRepeats(body(block.hash))
      requires forall t :: t in body(block.hash) ==> t !in LookupOf(blocks, genesis, body, block.parent)
      requires tds[block.parent] + block.difficulty <= tds[currentBlock]
      modifies this`blocks, this`tds
      ensures Valid() && blocks == old(blocks)[block.hash := block]
    {
      Store(block);
    }
  }
}
