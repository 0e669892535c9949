/**
 Where two chains meet: `FindCommonAncestor` and the walks like it, over a store
 that may be missing ancestors.
 */
module ChainFork {
  import opened Basics
  import opened ChainTree

  /** Headers are stored under their hashes. */
  ghost predicate Keyed(db: Headers) {
    forall h :: h in db ==> db[h].hash == h
  }

  /** The parent of a header, if the store has it: headers are looked up by number and hash. */
  function Up(db: Headers, x: Header): (p: Option<Header>)
    ensures p.Some? ==> p.value.number + 1 == x.number
  {
    if x.number > 0 && x.parent in db && db[x.parent].number == x.number - 1 then Some(db[x.parent]) else None
  }

  /** The header at height `k` on the line of parents of `x`. */
  ghost function Line(db: Headers, x: Header, k: nat): (a: Option<Header>)
    ensures a.Some? ==> a.value.number == k <= x.number
    decreases x.number
  {
    if k == x.number then Some(x)
    else if k > x.number || Up(db, x).None? then None
    else Line(db, Up(db, x).value, k)
  }

  /** Both lines run through the same header at height `k`. */
  ghost predicate Shared(db: Headers, a: Header, b: Header, k: nat) {
    Line(db, a, k).Some? && Line(db, b, k).Some? && Line(db, a, k).value.hash == Line(db, b, k).value.hash
  }

  /** Two headers that may be compared by hash: hashes identify headers, also those not yet stored. */
  ghost predicate Comparable(db: Headers, a: Header, b: Header) {
    && Keyed(db)
    && (a.hash == b.hash ==> a == b)
    && (a.hash in db ==> db[a.hash] == a)
    && (b.hash in db ==> db[b.hash] == b)
  }

  /** Walking the higher line up, then both, until they meet. */
  ghost function Meet(db: Headers, a: Header, b: Header): (c: Option<Header>)
    decreases a.number + b.number
  {
    if a.hash == b.hash then Some(a)
    else if a.number > b.number then
      if Up(db, a).None? then None else Meet(db, Up(db, a).value, b)
    else if a.number < b.number then
      if Up(db, b).None? then None else Meet(db, a, Up(db, b).value)
    else if Up(db, a).None? || Up(db, b).None? then None
    else Meet(db, Up(db, a).value, Up(db, b).value)
  }

  /** Lines go on the same way from a header they share. */
  lemma {:induction false} LineBelow(db: Headers, x: Header, k: nat, j: nat)
    requires j <= k && Line(db, x, k).Some?
    ensures Line(db, x, j) == Line(db, Line(db, x, k).value, j)
    decreases x.number
  {
    if k >= x.number {
    } else {
      LineBelow(db, Up(db, x).value, k, j);
    }
  }

  /** Stepping one line up loses no shared height as long as the other line is not higher. */
  lemma SharedUp(db: Headers, a: Header, b: Header, k: nat)
    requires Comparable(db, a, b) && a.hash != b.hash && a.number >= b.number
    ensures k == a.number ==> !Shared(db, a, b, k)
    ensures k != a.number && Up(db, a).Some? ==> (Shared(db, a, b, k) <==> Shared(db, Up(db, a).value, b, k))
    ensures Up(db, a).None? ==> !Shared(db, a, b, k)
  {
  }

  lemma SharedSwaps(db: Headers, a: Header, b: Header, k: nat)
    ensures Shared(db, a, b, k) <==> Shared(db, b, a, k)
  {
  }

  /**
   The meeting point is the highest header on both lines, and there is one
   exactly when the lines share any header at all.
   */
  lemma {:induction false} MeetIsHighest(db: Headers, a: Header, b: Header, k: nat)
    requires Comparable(db, a, b)
    ensures var c := Meet(db, a, b);
            && (c.None? ==> !Shared(db, a, b, k))
            && (c.Some? ==>
                  && Shared(db, a, b, c.value.number)
                  && Line(db, a, c.value.number) == c == Line(db, b, c.value.number)
                  && (k > c.value.number ==> !Shared(db, a, b, k)))
    decreases a.number + b.number
  {
    if a.hash == b.hash {
    } else {
      if a.number > b.number {
        SharedUp(db, a, b, k);
        if Up(db, a).Some? { MeetIsHighest(db, Up(db, a).value, b, k); }
      } else if a.number < b.number {
        SharedSwaps(db, a, b, k);
        SharedUp(db, b, a, k);
        if Up(db, b).Some? {
          MeetIsHighest(db, a, Up(db, b).value, k);
          SharedSwaps(db, a, Up(db, b).value, k);
        }
      } else {
        SharedUp(db, a, b, k);
        SharedSwaps(db, a, b, k);
        SharedUp(db, b, a, k);
        if Up(db, a).Some? && Up(db, b).Some? {
          MeetIsHighest(db, Up(db, a).value, Up(db, b).value, k);
        }
      }
    }
  }

  method FindCommonAncestor(db: Headers, a: Header, b: Header) returns (c: Option<Header>)
    requires Comparable(db, a, b)
    ensures c == Meet(db, a, b)
    ensures c.None? <==> forall k :: !Shared(db, a, b, k)
    ensures c.Some? ==> Line(db, a, c.value.number) == c && Shared(db, a, b, c.value.number)
    ensures c.Some? ==> forall k :: k > c.value.number ==> !Shared(db, a, b, k)
  {
    forall k: nat
      ensures Meet(db, a, b).None? ==> !Shared(db, a, b, k)
      ensures Meet(db, a, b).Some? && k > Meet(db, a, b).value.number ==> !Shared(db, a, b, k)
    {
      MeetIsHighest(db, a, b, k);
    }
    MeetIsHighest(db, a, b, 0);
    var x, y := a, b;
    while x.number > b.number
      invariant Comparable(db, x, y) && y == b && (x.number <= b.number ==> x == a || x.number == b.number)
      invariant Meet(db, x, y) == Meet(db, a, b)
      decreases x.number
    {
      var p := Up(db, x);
      if p.None? { return None; }
      x := p.value;
    }
    while x.number < y.number
      invariant Comparable(db, x, y)
      invariant Meet(db, x, y) == Meet(db, a, b) && x.number <= y.number
      decreases y.number
    {
      var p := Up(db, y);
      if p.None? { return None; }
      y := p.value;
    }
    while x.hash != y.hash
      invariant Comparable(db, x, y) && x.number == y.number
      invariant Meet(db, x, y) == Meet(db, a, b)
      decreases x.number
    {
      var p := Up(db, x);
      if p.None? { return None; }
      var r := Up(db, y);
      if r.None? { return None; }
      x, y := p.value, r.value;
    }
    c := Some(x);
  }

  /** Until the lines have met, the meeting point lies strictly above on the line that is not shorter. */
  lemma {:induction false} MeetAbove(db: Headers, a: Header, b: Header)
    requires Comparable(db, a, b) && Meet(db, a, b).Some?
    ensures var c := Meet(db, a, b).value;
            && c.number <= a.number && c.number <= b.number
            && (a.hash != b.hash && a.number >= b.number ==> c.number < a.number)
            && (a.hash != b.hash && b.number >= a.number ==> c.number < b.number)
  {
    MeetIsHighest(db, a, b, if a.number < b.number then a.number else b.number);
  }

  function SetOf(txs: seq<nat>): set<nat> {
    set t | t in txs
  }

  /** The transactions on the line of `x` above height `n`; a block's hash determines its body. */
  ghost function Branch(db: Headers, body: nat -> seq<nat>, x: Header, n: nat): set<nat>
    decreases x.number
  {
    if x.number <= n then {}
    else SetOf(body(x.hash)) + if Up(db, x).None? then {} else Branch(db, body, Up(db, x).value, n)
  }

  /** The block at height `k` of the line of `x` has the transaction. */
  ghost predicate HasAt(db: Headers, body: nat -> seq<nat>, x: Header, k: nat, t: nat) {
    Line(db, x, k).Some? && t in body(Line(db, x, k).value.hash)
  }

  /** A transaction is on a branch exactly if some block of the line above `n` has it. */
  lemma {:induction false} BranchMeaning(db: Headers, body: nat -> seq<nat>, x: Header, n: nat, t: nat)
    ensures t in Branch(db, body, x, n) <==> exists k: nat :: k > n && HasAt(db, body, x, k, t)
    decreases x.number
  {
    if x.number > n {
      assert HasAt(db, body, x, x.number, t) <==> t in body(x.hash);
      if Up(db, x).Some? {
        var p := Up(db, x).value;
        BranchMeaning(db, body, p, n, t);
        assert forall k: nat :: k != x.number ==> (HasAt(db, body, x, k, t) <==> HasAt(db, body, p, k, t));
        assert !HasAt(db, body, p, x.number, t);
      } else {
        assert forall k: nat :: k != x.number ==> !HasAt(db, body, x, k, t);
      }
    } else {
      assert forall k: nat :: k > x.number ==> !HasAt(db, body, x, k, t);
    }
  }

  /** The height above which both branches are read. */
  ghost function Fork(db: Headers, branch: Header, main: Header): nat {
    if Meet(db, branch, main).Some? then Meet(db, branch, main).value.number else 0
  }

  /** `seen` and what is left of the line of `x` make up the branch of `top`. */
  ghost predicate Covers(db: Headers, body: nat -> seq<nat>, seen: set<nat>, x: Header, top: Header, n: nat) {
    seen + Branch(db, body, x, n) == Branch(db, body, top, n)
  }

  lemma CoverMore(db: Headers, body: nat -> seq<nat>, seen: set<nat>, x: Header, top: Header, n: nat)
    requires Covers(db, body, seen, x, top, n) && x.number > n && Up(db, x).Some?
    ensures Covers(db, body, seen + SetOf(body(x.hash)), Up(db, x).value, top, n)
  {
  }

  /** The higher line has not met the other one yet, so it is still above the fork. */
  lemma StillAbove(db: Headers, a: Header, b: Header, n: nat)
    requires Comparable(db, a, b) && a.hash != b.hash && n == Fork(db, a, b)
    ensures a.number >= b.number && Up(db, a).Some? ==> a.number > n
    ensures b.number >= a.number && Up(db, b).Some? ==> b.number > n
  {
    if Meet(db, a, b).Some? { MeetAbove(db, a, b); }
  }
}
