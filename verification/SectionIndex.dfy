/**
 The figures a chain indexer keeps, and the two ways they are set back: at once, with
 the lock held, and access by access, without it.
 */
module SectionIndex {
  import opened Basics
  import opened ChainTree

  /** The indexer's figures and its database: the persisted count and the section heads. */
  datatype Index = Index(stored: nat, known: nat, cascaded: nat, count: nat, heads: map<nat, nat>)

  /** A section head, zero if there is none; asking for the one before the first finds none. */
  function SectionHead(heads: map<nat, nat>, section: int): nat {
    if section >= 0 && section in heads then heads[section] else ZERO
  }

  /** Setting the number of valid sections drops the heads from there on. */
  function SetValid(ix: Index, sections: nat): Index {
    ix.(stored := sections, count := sections, heads := map i | i in ix.heads && !(sections <= i < ix.stored) :: ix.heads[i])
  }

  function NewHead(ix: Index, size: nat, confirms: nat, head: nat, reorg: bool): Index
    requires size > 0
  {
    if reorg then
      var changed := head / size;
      var lower := if changed < ix.known then ix.(known := changed) else ix;
      var cut := if changed < ix.stored then SetValid(lower, changed) else lower;
      if changed * size < cut.cascaded then cut.(cascaded := changed * size) else cut
    else if head >= confirms && (head + 1 - confirms) / size > ix.known then
      ix.(known := (head + 1 - confirms) / size)
    else ix
  }

  /** The first `sections` sections end at least `confirms` blocks below the head. */
  predicate Confirmed(size: nat, confirms: nat, head: nat, sections: nat) {
    sections * size + confirms <= head + 1
  }

  /** They end below the block where the chain forks off. */
  predicate Untouched(size: nat, fork: nat, sections: nat) {
    sections * size <= fork
  }

  /** Without a reorganisation exactly the confirmed sections become known besides, and nothing else changes. */
  lemma NewHeadConfirms(ix: Index, size: nat, confirms: nat, head: nat, s: nat)
    requires size > 0 && s > 0
    ensures var ix' := NewHead(ix, size, confirms, head, false);
      && ix' == ix.(known := ix'.known)
      && (s <= ix'.known <==> s <= ix.known || Confirmed(size, confirms, head, s))
  {
    if head >= confirms {
      AtMostQuotient(s, head + 1 - confirms, size);
    } else {
      assert s * size >= size;
    }
  }

  /** A reorganisation leaves exactly the untouched ones known, and stored with their heads. */
  lemma NewHeadReverts(ix: Index, size: nat, confirms: nat, fork: nat, s: nat)
    requires size > 0
    ensures var ix' := NewHead(ix, size, confirms, fork, true);
      && (s <= ix'.known <==> s <= ix.known && Untouched(size, fork, s))
      && (s <= ix'.stored <==> s <= ix.stored && Untouched(size, fork, s))
      && ix'.count == (if ix'.stored == ix.stored then ix.count else ix'.stored)
      && ix'.heads == (map i | i in ix.heads && !(ix'.stored <= i < ix.stored) :: ix.heads[i])
      && ix'.cascaded == (if ix.cascaded <= fork / size * size then ix.cascaded else fork - fork % size)
  {
    AtMostQuotient(s, fork, size);
  }

  lemma AtMostQuotient(s: nat, n: nat, size: nat)
    requires size > 0
    ensures (s <= n / size <==> s * size <= n) && n / size * size == n - n % size
  {
    var q := n / size;
    assert n == q * size + n % size;
    if s <= q {
      assert s * size <= q * size;
    } else {
      assert s * size >= (q + 1) * size;
    }
  }

  /** Heads exactly below the stored count, and the persisted count agreeing. */
  ghost predicate InOrder(ix: Index) {
    ix.count == ix.stored && forall i: nat :: i in ix.heads <==> i < ix.stored
  }

  /** The next access of the unlocked rollback to zero, and what it has read so far. */
  datatype Phase = Persist | Guard | Load | Store(read: nat) | Pick | Remove(section: nat) | Final | Over

  datatype Racing = Racing(ix: Index, phase: Phase)

  /** Counting down by one, in 64 bits. */
  function Lowered(n: nat): nat {
    if n > 0 then n - 1 else U64 - 1
  }

  /** One access of the rollback to the count or to the database. */
  function Access(r: Racing): Racing {
    match r.phase
    case Persist => Racing(r.ix.(count := 0), Guard)
    case Guard => r.(phase := if r.ix.stored > 0 then Load else Final)
    case Load => r.(phase := Store(r.ix.stored))
    case Store(read) => Racing(r.ix.(stored := Lowered(read)), Pick)
    case Pick => r.(phase := Remove(r.ix.stored))
    case Remove(section) => Racing(r.ix.(heads := r.ix.heads - {section}), Guard)
    case Final => Racing(r.ix.(stored := 0), Over)
    case Over => r
  }
}
