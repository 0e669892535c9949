/**
 Stored headers as a tree of parent links, walked towards the genesis.

 Hashes are identifiers; zero stands for "no hash".
 */
module ChainTree {

  datatype Header = Header(hash: nat, parent: nat, number: nat, difficulty: nat)

  type Headers = map<nat, Header>

  const ZERO: nat := 0

  /** Header `h` is stored under its hash and, unless it is the genesis, sits on a stored parent. */
  ghost predicate Linked(hs: Headers, genesis: nat, h: nat)
    requires h in hs
  {
    && hs[h].hash == h
    && (hs[h].number == 0 <==> h == genesis)
    && (h != genesis ==> hs[h].parent in hs && hs[hs[h].parent].number + 1 == hs[h].number)
  }

  /** Every stored header leads back to the genesis. */
  ghost predicate Rooted(hs: Headers, genesis: nat) {
    ZERO !in hs && genesis in hs && forall h {:trigger Linked(hs, genesis, h)} :: h in hs ==> Linked(hs, genesis, h)
  }

  /** `n` parent links up from `h`. */
  ghost function Ancestor(hs: Headers, genesis: nat, h: nat, n: nat): (a: nat)
    requires Rooted(hs, genesis) && h in hs && n <= hs[h].number
    ensures a in hs && hs[a].number == hs[h].number - n
    decreases n
  {
    if n == 0 then h
    else
      assert Linked(hs, genesis, h);
      Ancestor(hs, genesis, hs[h].parent, n - 1)
  }

  /** The block at height `k` on the chain that ends in `head`. */
  ghost function At(hs: Headers, genesis: nat, head: nat, k: nat): (a: nat)
    requires Rooted(hs, genesis) && head in hs && k <= hs[head].number
    ensures a in hs && hs[a].number == k
  {
    Ancestor(hs, genesis, head, hs[head].number - k)
  }

  /** `a` lies on the chain that ends in `h`. */
  ghost predicate OnChain(hs: Headers, genesis: nat, a: nat, h: nat)
    requires Rooted(hs, genesis) && h in hs
  {
    a in hs && hs[a].number <= hs[h].number && At(hs, genesis, h, hs[a].number) == a
  }

  /** The sum of difficulties from the genesis up to `h`. */
  ghost function TotalDifficulty(hs: Headers, genesis: nat, h: nat): nat
    requires Rooted(hs, genesis) && h in hs
    decreases hs[h].number
  {
    assert Linked(hs, genesis, h);
    if h == genesis then hs[h].difficulty
    else hs[h].difficulty + TotalDifficulty(hs, genesis, hs[h].parent)
  }

  lemma {:induction false} AncestorAdd(hs: Headers, genesis: nat, h: nat, a: nat, b: nat)
    requires Rooted(hs, genesis) && h in hs && a + b <= hs[h].number
    ensures Ancestor(hs, genesis, Ancestor(hs, genesis, h, a), b) == Ancestor(hs, genesis, h, a + b)
    decreases a
  {
    assert Linked(hs, genesis, h);
    if a == 0 {
    } else {
      AncestorAdd(hs, genesis, hs[h].parent, a - 1, b);
    }
  }

  /** Below a block of the chain, the chain is that block's own chain. */
  lemma AtBelow(hs: Headers, genesis: nat, head: nat, k: nat, j: nat)
    requires Rooted(hs, genesis) && head in hs && j <= k <= hs[head].number
    ensures At(hs, genesis, At(hs, genesis, head, k), j) == At(hs, genesis, head, j)
  {
    AncestorAdd(hs, genesis, head, hs[head].number - k, k - j);
  }

  /** One link further down the chain. */
  lemma AtParent(hs: Headers, genesis: nat, head: nat, k: nat)
    requires Rooted(hs, genesis) && head in hs && 0 < k <= hs[head].number
    ensures hs[At(hs, genesis, head, k)].parent == At(hs, genesis, head, k - 1)
  {
    AtBelow(hs, genesis, head, k, k - 1);
    var a := At(hs, genesis, head, k);
    assert Linked(hs, genesis, a);
    assert Ancestor(hs, genesis, a, 1) == Ancestor(hs, genesis, hs[a].parent, 0);
  }

  /** Adding headers does not change the chains of those already there. */
  lemma {:induction false} AncestorFrame(hs: Headers, hs': Headers, genesis: nat, h: nat, n: nat)
    requires Rooted(hs, genesis) && Rooted(hs', genesis) && h in hs && n <= hs[h].number
    requires forall x :: x in hs ==> x in hs' && hs'[x] == hs[x]
    ensures Ancestor(hs', genesis, h, n) == Ancestor(hs, genesis, h, n)
    decreases n
  {
    assert Linked(hs, genesis, h);
    if n == 0 {
    } else {
      AncestorFrame(hs, hs', genesis, hs[h].parent, n - 1);
    }
  }

  lemma {:induction false} DifficultyFrame(hs: Headers, hs': Headers, genesis: nat, h: nat)
    requires Rooted(hs, genesis) && Rooted(hs', genesis) && h in hs
    requires forall x :: x in hs ==> x in hs' && hs'[x] == hs[x]
    ensures TotalDifficulty(hs', genesis, h) == TotalDifficulty(hs, genesis, h)
    decreases hs[h].number
  {
    assert Linked(hs, genesis, h);
    if h == genesis {
    } else {
      DifficultyFrame(hs, hs', genesis, hs[h].parent);
    }
  }

  /** A header fits the store: known parent one below, and no clash with a stored header. */
  ghost predicate Fits(hs: Headers, genesis: nat, header: Header) {
    && header.hash != ZERO
    && (header.hash in hs ==> hs[header.hash] == header)
    && (header.parent in hs ==> header.number == hs[header.parent].number + 1)
  }

  lemma StoreRooted(hs: Headers, genesis: nat, header: Header)
    requires Rooted(hs, genesis) && Fits(hs, genesis, header) && header.parent in hs
    ensures Rooted(hs[header.hash := header], genesis)
    ensures forall x :: x in hs ==> x in hs[header.hash := header] && hs[header.hash := header][x] == hs[x]
  {
    var hs' := hs[header.hash := header];
    assert Linked(hs, genesis, genesis);
    forall h | h in hs'
      ensures Linked(hs', genesis, h)
    {
      if h in hs { assert Linked(hs, genesis, h); }
    }
  }

  /** The number index gives the chain of `head` up to height `top`. */
  ghost predicate Follows(hs: Headers, genesis: nat, canon: map<nat, nat>, head: nat, top: nat)
    requires Rooted(hs, genesis)
  {
    && head in hs && top <= hs[head].number
    && forall k: nat :: k <= top ==> k in canon && canon[k] == At(hs, genesis, head, k)
  }

  /** The canonical hash at a height, zero if none is recorded. */
  function CanonicalHash(canon: map<nat, nat>, number: nat): nat {
    if number in canon then canon[number] else ZERO
  }

  /** A canonical block's own chain is the index below it. */
  lemma CanonicalBelow(hs: Headers, genesis: nat, canon: map<nat, nat>, head: nat, h: nat, k: nat)
    requires Rooted(hs, genesis) && head in hs && Follows(hs, genesis, canon, head, hs[head].number)
    requires h in hs && k <= hs[h].number <= hs[head].number && canon[hs[h].number] == h
    ensures canon[k] == At(hs, genesis, h, k)
  {
    AtBelow(hs, genesis, head, hs[h].number, k);
  }

  /** The index covers exactly the chain of `head`. */
  ghost predicate Indexed(hs: Headers, genesis: nat, canon: map<nat, nat>, head: nat) {
    && Rooted(hs, genesis) && head in hs && Follows(hs, genesis, canon, head, hs[head].number)
    && forall k :: k in canon ==> k <= hs[head].number
  }

  /** A genesis-rooted index holds the genesis. */
  lemma GenesisIndexed(hs: Headers, genesis: nat, canon: map<nat, nat>, head: nat)
    requires Indexed(hs, genesis, canon, head)
    ensures CanonicalHash(canon, 0) == genesis
  {
    assert Linked(hs, genesis, At(hs, genesis, head, 0));
  }

  /** How many blocks of the chain of `h` come before the first canonical one. */
  ghost function Detour(hs: Headers, genesis: nat, canon: map<nat, nat>, head: nat, h: nat): nat
    requires Indexed(hs, genesis, canon, head) && h in hs
    decreases hs[h].number
  {
    if CanonicalHash(canon, hs[h].number) == h then 0
    else
      GenesisIndexed(hs, genesis, canon, head);
      assert Linked(hs, genesis, h);
      1 + Detour(hs, genesis, canon, head, hs[h].parent)
  }

  /** Walking up the chain walks off the detour. */
  lemma {:induction false} DetourUp(hs: Headers, genesis: nat, canon: map<nat, nat>, head: nat, h: nat, n: nat)
    requires Indexed(hs, genesis, canon, head) && h in hs && n <= hs[h].number
    ensures var d := Detour(hs, genesis, canon, head, h);
            Detour(hs, genesis, canon, head, Ancestor(hs, genesis, h, n)) == if n <= d then d - n else 0
    decreases n
  {
    if n == 0 {
    } else {
      assert Linked(hs, genesis, h);
      var parent := hs[h].parent;
      if CanonicalHash(canon, hs[h].number) == h {
        CanonicalBelow(hs, genesis, canon, head, h, hs[h].number - 1);
        assert At(hs, genesis, h, hs[h].number - 1) == Ancestor(hs, genesis, h, 1) == Ancestor(hs, genesis, parent, 0);
      }
      DetourUp(hs, genesis, canon, head, parent, n - 1);
    }
  }
}
