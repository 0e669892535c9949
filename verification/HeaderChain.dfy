/**
 `HeaderChain`: storing headers, following the heaviest chain, and walking back
 along it.
 */
module HeaderChain {
  import opened ChainTree

  datatype WriteStatus = NonStat | Canon | Side

  /** How an import of headers ends; a shutdown comes before some header. */
  datatype Import = Imported | UnknownAncestor | Aborted(at: nat)

  /** A shutdown before the first header comes before everything; after it the first header has to connect. */
  function ImportOf(chain: seq<Header>, stop: nat, connects: bool): Import {
    if stop > 0 && !connects then UnknownAncestor
    else if stop < |chain| then Aborted(stop)
    else Imported
  }

  /** The total difficulties a store must hold. */
  ghost predicate DifficultiesOk(hs: Headers, genesis: nat, tds: map<nat, nat>)
    requires Rooted(hs, genesis)
  {
    tds.Keys == hs.Keys && forall h :: h in tds ==> tds[h] == TotalDifficulty(hs, genesis, h)
  }

  lemma StoreDifficulty(hs: Headers, genesis: nat, tds: map<nat, nat>, header: Header)
    requires Rooted(hs, genesis) && DifficultiesOk(hs, genesis, tds)
    requires Fits(hs, genesis, header) && header.parent in hs
    ensures var hs' := hs[header.hash := header];
            Rooted(hs', genesis) && DifficultiesOk(hs', genesis, tds[header.hash := tds[header.parent] + header.difficulty])
  {
    StoreRooted(hs, genesis, header);
    var hs' := hs[header.hash := header];
    var tds' := tds[header.hash := tds[header.parent] + header.difficulty];
    forall h | h in tds'
      ensures tds'[h] == TotalDifficulty(hs', genesis, h)
    {
      if h == header.hash {
        assert Linked(hs, genesis, genesis) && Linked(hs', genesis, h);
        DifficultyFrame(hs, hs', genesis, header.parent);
      } else {
        DifficultyFrame(hs, hs', genesis, h);
      }
    }
  }

  /** Storing a header leaves an index that follows a stored chain as it was. */
  lemma StoreFollows(hs: Headers, genesis: nat, canon: map<nat, nat>, head: nat, header: Header)
    requires Rooted(hs, genesis) && head in hs && Follows(hs, genesis, canon, head, hs[head].number)
    requires Fits(hs, genesis, header) && header.parent in hs
    ensures Rooted(hs[header.hash := header], genesis) && Follows(hs[header.hash := header], genesis, canon, head, hs[head].number)
  {
    StoreRooted(hs, genesis, header);
    var hs' := hs[header.hash := header];
    forall k: nat | k <= hs'[head].number
      ensures k in canon && canon[k] == At(hs', genesis, head, k)
    {
      AncestorFrame(hs, hs', genesis, head, hs[head].number - k);
    }
  }

  /** What `ValidateHeaderChain` checks: one linked run. */
  ghost predicate Contiguous(chain: seq<Header>) {
    forall i :: 0 < i < |chain| ==> chain[i].parent == chain[i - 1].hash && chain[i].number == chain[i - 1].number + 1
  }

  /** Hashes identify headers. */
  ghost predicate OneHeaderPerHash(chain: seq<Header>) {
    forall i, j :: 0 <= i < |chain| && 0 <= j < |chain| && chain[i].hash == chain[j].hash ==> chain[i] == chain[j]
  }

  /** The store after a run of headers has been put in. */
  ghost function Stored(hs: Headers, chain: seq<Header>): Headers {
    if |chain| == 0 then hs
    else
      var last := chain[|chain| - 1];
      Stored(hs, chain[..|chain| - 1])[last.hash := last]
  }

  /** Storing a run keeps what was there and adds exactly the run. */
  lemma {:induction false} StoredMeaning(hs: Headers, chain: seq<Header>, h: nat)
    requires OneHeaderPerHash(chain)
    requires forall i :: 0 <= i < |chain| && chain[i].hash in hs ==> hs[chain[i].hash] == chain[i]
    ensures h in Stored(hs, chain) <==> h in hs || exists i :: 0 <= i < |chain| && chain[i].hash == h
    ensures h in hs ==> Stored(hs, chain)[h] == hs[h]
    ensures forall i :: 0 <= i < |chain| && chain[i].hash == h ==> h in Stored(hs, chain) && Stored(hs, chain)[h] == chain[i]
  {
    if |chain| == 0 {
    } else {
      var init := chain[..|chain| - 1];
      StoredMeaning(hs, init, h);
      assert forall i :: 0 <= i < |init| ==> init[i] == chain[i];
    }
  }

  /** A header of the run fits once the headers before it are stored, and then has its parent. */
  lemma NextFits(hs: Headers, genesis: nat, chain: seq<Header>, i: nat)
    requires i < |chain| && Contiguous(chain) && OneHeaderPerHash(chain)
    requires forall j :: 0 <= j < |chain| ==> Fits(hs, genesis, chain[j])
    ensures Fits(Stored(hs, chain[..i]), genesis, chain[i])
    ensures i > 0 ==> chain[i].parent in Stored(hs, chain[..i])
  {
    assert Fits(hs, genesis, chain[i]);
    StoredMeaning(hs, chain[..i], chain[i].hash);
    StoredMeaning(hs, chain[..i], chain[i].parent);
    if i > 0 { assert chain[..i][i - 1] == chain[i - 1]; }
  }

  /** An index covers the chain of one head only. */
  lemma OneHead(hs: Headers, genesis: nat, canon: map<nat, nat>, head: nat, other: nat)
    requires Indexed(hs, genesis, canon, head)
    ensures Indexed(hs, genesis, canon, other) ==> other == head
  {
    if Indexed(hs, genesis, canon, other) {
      assert canon[hs[head].number] == At(hs, genesis, head, hs[head].number) == head;
      assert canon[hs[other].number] == At(hs, genesis, other, hs[other].number) == other;
    }
  }

  /** Headers stay with their difficulties, and a new head is a new header, heavier than the old head unless a coin was for it. */
  ghost predicate HeadMoves(hs: Headers, head: nat, td: nat, hs': Headers, tds': map<nat, nat>, head': nat, coins: seq<bool>) {
    && hs.Keys <= hs'.Keys && head in tds' && tds'[head] == td && head' in tds'
    && (head' != head ==> head' !in hs && (tds'[head'] > td || (tds'[head'] == td && true in coins)))
  }

  lemma HeadMovesOn(hs0: Headers, head0: nat, td0: nat, hs: Headers, tds: map<nat, nat>, head: nat, tds': map<nat, nat>, head': nat, coins: seq<bool>,
      header: Header, i: nat)
    requires HeadMoves(hs0, head0, td0, hs, tds, head, coins) && i < |coins| && head0 in hs0 && tds.Keys == hs.Keys
    requires header.hash in hs ==> tds' == tds && head' == head
    requires header.hash !in hs ==>
      && header.hash in tds' && tds' == tds[header.hash := tds'[header.hash]]
      && head' == if tds'[header.hash] > tds[head] || (tds'[header.hash] == tds[head] && coins[i]) then header.hash else head
    ensures HeadMoves(hs0, head0, td0, hs[header.hash := header], tds', head', coins)
  {
  }

  class HeaderChain {
    const genesis: nat
    var headers: Headers
    var tds: map<nat, nat>
    /** The number to hash index. */
    var canon: map<nat, nat>
    var current: nat

    /** The index covers the current chain and nothing above it, and that chain is the heaviest. */
    ghost predicate Valid()
      reads this
    {
      && Indexed(headers, genesis, canon, current)
      && DifficultiesOk(headers, genesis, tds)
      && (forall h :: h in tds ==> tds[h] <= tds[current])
    }

    constructor (header: Header)
      requires header.hash != ZERO && header.number == 0
      ensures Valid() && genesis == current == header.hash && headers == map[header.hash := header]
    {
      genesis, current := header.hash, header.hash;
      headers := map[header.hash := header];
      tds := map[header.hash := header.difficulty];
      canon := map[0 := header.hash];
    }

    /**
     Starts again from what a chain has stored, with the recorded head block as current
     header, or the genesis if that is not known: in order exactly if that was the head.
     */
    constructor Restore(store: HeaderChain, head: nat)
      requires store.Valid()
      ensures genesis == store.genesis && headers == store.headers && tds == store.tds && canon == store.canon
      ensures current == if head in store.headers then head else store.genesis
      ensures Valid() <==> current == store.current
    {
      genesis, headers, tds, canon := store.genesis, store.headers, store.tds, store.canon;
      current := if head in store.headers then head else store.genesis;
      new;
      OneHead(headers, genesis, canon, store.current, current);
    }

    /**
     Stores a header and re-routes the index to it if it makes a heavier chain;
     `coin` decides between chains of equal weight.
     */
    method WriteHeader(header: Header, coin: bool) returns (status: WriteStatus)
      requires Valid() && Fits(headers, genesis, header)
      modifies this
      ensures Valid()
      ensures status == NonStat <==> header.parent !in old(headers)
      ensures status == NonStat ==> headers == old(headers) && tds == old(tds) && canon == old(canon) && current == old(current)
      ensures status != NonStat ==>
        headers == old(headers)[header.hash := header] && tds == old(tds)[header.hash := old(tds)[header.parent] + header.difficulty]
      ensures status == Canon <==>
        && header.parent in old(headers)
        && var td := old(tds)[header.parent] + header.difficulty;
           td > old(tds)[old(current)] || (td == old(tds)[old(current)] && coin)
      ensures current == if status == Canon then header.hash else old(current)
      ensures status == Side ==> canon == old(canon)
    {
      if header.parent !in tds {
        return NonStat;
      }
      var externTd := tds[header.parent] + header.difficulty;
      var localTd := tds[current];
      StoreDifficulty(headers, genesis, tds, header);
      StoreFollows(headers, genesis, canon, current, header);
      tds := tds[header.hash := externTd];
      headers := headers[header.hash := header];
      if externTd > localTd || (externTd == localTd && coin) {
        Reroute(header);
        status := Canon;
      } else {
        status := Side;
      }
    }

    /** Makes a stored header the head of the index. */
    method Reroute(header: Header)
      requires Rooted(headers, genesis) && header.hash in headers && headers[header.hash] == header && header.number > 0
      requires current in headers && Follows(headers, genesis, canon, current, headers[current].number)
      requires forall k :: k in canon ==> k <= headers[current].number
      modifies this`canon, this`current
      ensures current == header.hash && Follows(headers, genesis, canon, current, header.number)
      ensures forall k :: k in canon ==> k <= header.number
    {
      DeleteAbove(header.number);
      RewriteBelow(header);
      canon := canon[header.number := header.hash];
      current := header.hash;
    }

    /** The loop that drops index entries above the new head. */
    method DeleteAbove(number: nat)
      requires current in headers && (forall k: nat :: k <= headers[current].number <==> k in canon)
      modifies this`canon
      ensures canon == map k | k in old(canon) && k <= number :: old(canon)[k]
    {
      var i := number + 1;
      while i in canon
        invariant i > number
        invariant forall k :: k in canon <==> k in old(canon) && !(number < k < i)
        invariant forall k :: k in canon ==> canon[k] == old(canon)[k]
        decreases headers[current].number - i
      {
        canon := canon - {i};
        i := i + 1;
      }
    }

    /** The loop that rewrites stale index entries below the new head. */
    method RewriteBelow(header: Header)
      requires Rooted(headers, genesis) && header.hash in headers && headers[header.hash] == header && header.number > 0
      requires current in headers
      requires Follows(headers, genesis, canon, current, if header.number < headers[current].number then header.number else headers[current].number)
      requires forall k :: k in canon ==> k <= header.number && k <= headers[current].number
      modifies this`canon
      ensures Follows(headers, genesis, canon, header.hash, header.number - 1)
      ensures forall k :: k in canon ==> k <= header.number
    {
      var headHash := header.parent;
      var headNumber: nat := header.number - 1;
      assert Linked(headers, genesis, header.hash);
      AtParent(headers, genesis, header.hash, header.number);
      while CanonicalHash(canon, headNumber) != headHash
        invariant headNumber < header.number && headHash == At(headers, genesis, header.hash, headNumber)
        invariant forall k :: headNumber < k < header.number ==> k in canon && canon[k] == At(headers, genesis, header.hash, k)
        invariant forall k :: k in canon ==> k <= header.number
        invariant forall k: nat :: k <= headNumber ==> (k in canon <==> k in old(canon)) && (k in canon ==> canon[k] == old(canon)[k])
        decreases headNumber
      {
        assert Linked(headers, genesis, headHash);
        GenesisMatches(header.hash, headNumber);
        canon := canon[headNumber := headHash];
        AtParent(headers, genesis, header.hash, headNumber);
        headHash := headers[headHash].parent;
        headNumber := headNumber - 1;
      }
      Joined(old(canon), header.hash, headNumber);
    }

    /** Skips a known header, writes an unknown one. */
    method InsertHeader(header: Header, coin: bool) returns (ok: bool)
      requires Valid() && Fits(headers, genesis, header)
      modifies this
      ensures Valid()
      ensures ok <==> header.hash in old(headers) || header.parent in old(headers)
      ensures ok ==> headers == old(headers)[header.hash := header]
      ensures !ok ==> headers == old(headers) && canon == old(canon) && current == old(current)
      ensures header.hash in old(headers) ==> tds == old(tds) && canon == old(canon) && current == old(current)
      ensures ok && header.hash !in old(headers) ==>
        && tds == old(tds)[header.hash := old(tds)[header.parent] + header.difficulty]
        && var td, headTd := tds[header.hash], old(tds[current]);
           current == if td > headTd || (td == headTd && coin) then header.hash else old(current)
    {
      ok := true;
      if header.hash !in headers {
        var status := WriteHeader(header, coin);
        ok := status != NonStat;
      }
    }

    /**
     Imports a validated run of linked headers, skipping those already known. Only the
     first one can lack a parent, so unless the chain is shut down before header `stop`
     the import is all or nothing; a shutdown leaves the headers before it.
     */
    method InsertHeaderChain(chain: seq<Header>, coins: seq<bool>, stop: nat) returns (r: Import)
      requires Valid() && |chain| > 0 && |coins| == |chain|
      requires Contiguous(chain) && OneHeaderPerHash(chain)
      requires forall i :: 0 <= i < |chain| ==> Fits(headers, genesis, chain[i])
      modifies this
      ensures Valid()
      ensures r == ImportOf(chain, stop, chain[0].hash in old(headers) || chain[0].parent in old(headers))
      ensures r.Imported? ==> headers == Stored(old(headers), chain)
      ensures r.Aborted? ==> headers == Stored(old(headers), chain[..r.at])
      ensures r.UnknownAncestor? || r == Aborted(0) ==> headers == old(headers) && canon == old(canon) && current == old(current)
      ensures HeadMoves(old(headers), old(current), old(tds[current]), headers, tds, current, coins)
    {
      var i := 0;
      while i < |chain|
        invariant 0 <= i <= |chain| && i <= stop && Valid()
        invariant i == 0 ==> canon == old(canon) && current == old(current)
        invariant i > 0 ==> chain[0].hash in old(headers) || chain[0].parent in old(headers)
        invariant headers == Stored(old(headers), chain[..i])
        invariant HeadMoves(old(headers), old(current), old(tds[current]), headers, tds, current, coins)
      {
        if i == stop {
          return Aborted(i);
        }
        NextFits(old(headers), genesis, chain, i);
        assert chain[..i + 1][..i] == chain[..i];
        ghost var hs, ds, head := headers, tds, current;
        var stored := InsertHeader(chain[i], coins[i]);
        if !stored {
          return UnknownAncestor;
        }
        HeadMovesOn(old(headers), old(current), old(tds[current]), hs, ds, head, tds, current, coins, chain[i], i);
        i := i + 1;
      }
      assert chain[..i] == chain;
      r := Imported;
    }

    /** The database keys headers by number and hash. */
    predicate Known(hash: nat, number: nat)
      reads this
    {
      hash in headers && headers[hash].number == number
    }

    /**
     The block `ancestor` links above a block, jumping along the index once the
     walk meets it. At most `budget` blocks off the index are read; what is left
     of the budget is returned.
     */
    method GetAncestor(hash: nat, number: nat, ancestor: nat, budget: nat) returns (h: nat, n: nat, left: nat)
      requires Valid()
      ensures ancestor > number ==> h == ZERO && left == budget
      ensures ancestor == 0 ==> h == hash && n == number && left == budget
      // A known block: the plain parent walk, or zero exactly when the detour exceeds the budget.
      ensures Known(hash, number) && ancestor == 1 <= number ==>
        h == Ancestor(headers, genesis, hash, 1) && n == number - 1 && left == budget
      ensures Known(hash, number) && 2 <= ancestor <= number ==>
        var need := Needed(hash, ancestor);
        if need <= budget then h == Ancestor(headers, genesis, hash, ancestor) && n == number - ancestor && left == budget - need
        else h == ZERO && left == 0
      // An unknown block has no ancestors; the zero hash stands for every missing index entry.
      ensures !Known(hash, number) && 1 <= ancestor <= number && (hash != ZERO || number in canon || ancestor == 1) ==> h == ZERO
      ensures hash == ZERO && 2 <= ancestor <= number && number !in canon ==>
        h == CanonicalHash(canon, number - ancestor) && n == number - ancestor && left == budget
    {
      if ancestor > number {
        return ZERO, 0, budget;
      }
      if ancestor == 1 {
        if Known(hash, number) {
          assert Linked(headers, genesis, hash);
          assert Ancestor(headers, genesis, headers[hash].parent, 0) == headers[hash].parent;
          return headers[hash].parent, number - 1, budget;
        }
        return ZERO, 0, budget;
      }
      assert CanonicalHash(canon, number) == hash && hash != ZERO ==> Known(hash, number);
      h, n, left := hash, number, budget;
      var rest: nat := ancestor;
      while rest != 0
        invariant rest <= ancestor && n == number - (ancestor - rest)
        invariant Known(hash, number) ==>
          && Known(h, n) && h == Ancestor(headers, genesis, hash, ancestor - rest)
          && ancestor - rest <= Detour(headers, genesis, canon, current, hash)
          && left == budget - (ancestor - rest)
        invariant !Known(hash, number) ==> rest == ancestor && h == hash && left == budget
      {
        if CanonicalHash(canon, n) == h {
          n := n - rest;
          if Known(hash, number) {
            JumpIsWalk(hash, ancestor - rest, rest);
          }
          return CanonicalHash(canon, n), n, left;
        }
        if Known(hash, number) {
          WalkOn(hash, ancestor - rest);
        }
        if left == 0 {
          return ZERO, 0, 0;
        }
        left := left - 1;
        rest := rest - 1;
        if !Known(h, n) {
          return ZERO, 0, left;
        }
        h := headers[h].parent;
        n := n - 1;
      }
    }

    /** How much budget a walk of `ancestor` links uses. */
    ghost function Needed(h: nat, ancestor: nat): nat
      requires Valid() && h in headers
      reads this
    {
      var d := Detour(headers, genesis, canon, current, h);
      if ancestor < d then ancestor else d
    }

    /** Reading the index from a canonical block gives the block a walk would reach. */
    lemma JumpIsWalk(h: nat, done: nat, rest: nat)
      requires Valid() && h in headers && done + rest <= headers[h].number
      requires done <= Detour(headers, genesis, canon, current, h)
      requires CanonicalHash(canon, headers[h].number - done) == Ancestor(headers, genesis, h, done)
      ensures CanonicalHash(canon, headers[h].number - done - rest) == Ancestor(headers, genesis, h, done + rest)
      ensures done == Detour(headers, genesis, canon, current, h)
    {
      var a := Ancestor(headers, genesis, h, done);
      CanonicalBelow(headers, genesis, canon, current, a, headers[h].number - done - rest);
      AncestorAdd(headers, genesis, h, done, rest);
      DetourUp(headers, genesis, canon, current, h, done);
    }

    /** Off the index, the walk goes on to the parent. */
    lemma WalkOn(h: nat, done: nat)
      requires Valid() && h in headers && done < headers[h].number
      requires CanonicalHash(canon, headers[h].number - done) != Ancestor(headers, genesis, h, done)
      ensures done < Detour(headers, genesis, canon, current, h)
      ensures headers[Ancestor(headers, genesis, h, done)].parent == Ancestor(headers, genesis, h, done + 1)
    {
      DetourUp(headers, genesis, canon, current, h, done);
      AncestorAdd(headers, genesis, h, done, 1);
      var a := Ancestor(headers, genesis, h, done);
      assert Linked(headers, genesis, a);
      assert Ancestor(headers, genesis, a, 1) == Ancestor(headers, genesis, headers[a].parent, 0);
    }

    /** Every chain starts at the genesis. */
    lemma GenesisMatches(h: nat, k: nat)
      requires Rooted(headers, genesis) && h in headers && k <= headers[h].number && current in headers
      ensures k == 0 ==> At(headers, genesis, h, k) == At(headers, genesis, current, 0) == genesis
    {
      if k == 0 {
        assert Linked(headers, genesis, At(headers, genesis, h, 0));
        assert Linked(headers, genesis, At(headers, genesis, current, 0));
      }
    }

    /** Where the index meets the new chain, all below agrees as well. */
    lemma Joined(index: map<nat, nat>, h: nat, k: nat)
      requires Rooted(headers, genesis) && h in headers && k <= headers[h].number
      requires current in headers && k <= headers[current].number && Follows(headers, genesis, index, current, k)
      requires index[k] == At(headers, genesis, h, k)
      ensures Follows(headers, genesis, index, h, k)
    {
      forall j: nat | j <= k
        ensures j in index && index[j] == At(headers, genesis, h, j)
      {
        AtBelow(headers, genesis, h, k, j);
        AtBelow(headers, genesis, current, k, j);
      }
    }
  }
}
