/**
 The transaction pool seen account by account: what its three views have to agree
 on, and the moves between them.
 */
module PoolAccounts {
  import opened NonceOrder
  import opened TxSortedMap

  type Lists = map<nat, Items>

  /** An account's list; accounts without one have nothing listed. */
  function Get(lists: Lists, a: nat): Items {
    if a in lists then lists[a] else map[]
  }

  /** Stores an account's list, or drops the entry if the list has become empty. */
  function Put(lists: Lists, a: nat, items: Items): (r: Lists)
    ensures Get(r, a) == items
    ensures forall b :: b != a ==> Get(r, b) == Get(lists, b)
    ensures NoneEmpty(lists) ==> NoneEmpty(r)
  {
    if items == map[] then lists - {a} else lists[a := items]
  }

  predicate NoneEmpty(lists: Lists) {
    forall a :: a in lists ==> lists[a] != map[]
  }

  ghost predicate In(items: Items, tx: Tx) {
    tx.nonce in items && items[tx.nonce] == tx
  }

  /** All of the list's transactions are the account's, filed under their nonces. */
  ghost predicate Owned(items: Items, a: nat) {
    forall n :: n in items ==> items[n].nonce == n && items[n].from == a
  }

  /** The account's part of `all` is the disjoint union of its two lists, which share no nonce. */
  ghost predicate AccountOk(all: set<Tx>, a: nat, pending: Items, queue: Items) {
    && Owned(pending, a) && Owned(queue, a) && pending.Keys !! queue.Keys
    && forall tx: Tx {:trigger tx in all} :: tx.from == a ==> (tx in all <==> In(pending, tx) || In(queue, tx))
  }

  ghost predicate PoolOk(all: set<Tx>, pending: Lists, queue: Lists) {
    && NoneEmpty(pending) && NoneEmpty(queue)
    && forall a {:trigger AccountOk(all, a, Get(pending, a), Get(queue, a))} :: AccountOk(all, a, Get(pending, a), Get(queue, a))
  }

  /** `part` is some of `whole`. */
  ghost predicate Part(part: Items, whole: Items) {
    forall n :: n in part ==> n in whole && whole[n] == part[n]
  }

  /** Only transactions of the account come or go. */
  ghost predicate OnlyOf(all: set<Tx>, all': set<Tx>, a: nat) {
    forall tx: Tx :: tx.from != a ==> (tx in all <==> tx in all')
  }

  /** A change to one account that leaves that account in order leaves the pool in order. */
  lemma OneAccount(all: set<Tx>, pending: Lists, queue: Lists, a: nat, all': set<Tx>, p: Items, q: Items)
    requires PoolOk(all, pending, queue) && OnlyOf(all, all', a) && AccountOk(all', a, p, q)
    ensures PoolOk(all', Put(pending, a, p), Put(queue, a, q))
  {
    var pending', queue' := Put(pending, a, p), Put(queue, a, q);
    forall b
      ensures AccountOk(all', b, Get(pending', b), Get(queue', b))
    {
      if b != a {
        assert AccountOk(all, b, Get(pending, b), Get(queue, b));
        OtherAccount(all, all', a, b, Get(pending, b), Get(queue, b));
      }
    }
  }

  lemma OtherAccount(all: set<Tx>, all': set<Tx>, a: nat, b: nat, p: Items, q: Items)
    requires OnlyOf(all, all', a) && b != a && AccountOk(all, b, p, q)
    ensures AccountOk(all', b, p, q)
  {
    forall tx: Tx | tx.from == b
      ensures tx in all' <==> In(p, tx) || In(q, tx)
    {
      assert tx in all <==> tx in all';
    }
  }

  lemma ValuesOf(part: Items, a: nat)
    requires Owned(part, a)
    ensures forall tx: Tx :: tx in part.Values <==> In(part, tx)
  {
  }

  /** Dropping transactions from the queue. */
  lemma DropQueued(all: set<Tx>, a: nat, p: Items, q: Items, part: Items)
    requires AccountOk(all, a, p, q) && Part(part, q)
    ensures AccountOk(all - part.Values, a, p, q - part.Keys) && OnlyOf(all, all - part.Values, a)
  {
    ValuesOf(part, a);
  }

  /** Dropping transactions from the pending list. */
  lemma DropPending(all: set<Tx>, a: nat, p: Items, q: Items, part: Items)
    requires AccountOk(all, a, p, q) && Part(part, p)
    ensures AccountOk(all - part.Values, a, p - part.Keys, q) && OnlyOf(all, all - part.Values, a)
  {
    ValuesOf(part, a);
  }

  /** Moving pending transactions to the queue overwrites nothing there. */
  lemma Demote(all: set<Tx>, a: nat, p: Items, q: Items, part: Items)
    requires AccountOk(all, a, p, q) && Part(part, p)
    ensures part.Keys !! q.Keys && AccountOk(all, a, p - part.Keys, q + part)
  {
  }

  /** Moving queued transactions to the pending list overwrites nothing there. */
  lemma Promote(all: set<Tx>, a: nat, p: Items, q: Items, part: Items)
    requires AccountOk(all, a, p, q) && Part(part, q)
    ensures part.Keys !! p.Keys && AccountOk(all, a, p + part, q - part.Keys)
  {
  }

  /** Entering a new transaction into the queue, in place of the one with its nonce if there is one. */
  lemma Enter(all: set<Tx>, p: Items, q: Items, tx: Tx)
    requires AccountOk(all, tx.from, p, q) && tx !in all && tx.nonce !in p
    ensures var gone := if tx.nonce in q then {q[tx.nonce]} else {};
            && AccountOk(all - gone + {tx}, tx.from, p, q[tx.nonce := tx])
            && OnlyOf(all, all - gone + {tx}, tx.from) && gone <= all
  {
  }

  /** Replacing a pending transaction. */
  lemma Replace(all: set<Tx>, p: Items, q: Items, tx: Tx)
    requires AccountOk(all, tx.from, p, q) && tx !in all && tx.nonce in p
    ensures AccountOk(all - {p[tx.nonce]} + {tx}, tx.from, p[tx.nonce := tx], q)
    ensures OnlyOf(all, all - {p[tx.nonce]} + {tx}, tx.from) && p[tx.nonce] in all
  {
  }

  /** Taking one transaction out of the queue. */
  lemma DropOneQueued(all: set<Tx>, p: Items, q: Items, tx: Tx)
    requires AccountOk(all, tx.from, p, q) && In(q, tx)
    ensures AccountOk(all - {tx}, tx.from, p, q - {tx.nonce}) && OnlyOf(all, all - {tx}, tx.from)
  {
  }

  /** Taking one pending transaction out and moving those after it to the queue, where they overwrite nothing. */
  lemma DropOnePending(all: set<Tx>, p: Items, q: Items, tx: Tx)
    requires AccountOk(all, tx.from, p, q) && In(p, tx)
    ensures From(p, tx.nonce + 1).Keys !! q.Keys
    ensures AccountOk(all - {tx}, tx.from, Below(p, tx.nonce), q + From(p, tx.nonce + 1)) && OnlyOf(all, all - {tx}, tx.from)
  {
  }
}
