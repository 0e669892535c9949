/**
 Serving a GetBlockHeaders query (message 0x03 of the Ethereum Wire Protocol)
 from a header chain.
 */
module HeaderQuery {
  import opened Basics
  import opened ChainTree
  import opened HeaderChain

  const MAX_NON_CANONICAL: nat := 100
  const SOFT_RESPONSE_LIMIT: nat := 2 * 1024 * 1024
  const EST_HEADER_RLP_SIZE: nat := 500
  const MAX_HEADER_FETCH: nat := 192

  /** The origin is a hash, or a number when the hash is zero. */
  datatype Query = Query(hash: nat, number: nat, amount: nat, skip: nat, reverse: bool) {
    predicate Fields() {
      number < U64 && amount < U64 && skip < U64
    }

    predicate HashMode() {
      hash != ZERO
    }

    /** The amount as a signed 64-bit integer. */
    function Limit(): int {
      Signed64(amount)
    }
  }

  /** The number the next header of a number query is looked up under. */
  function NextNumber(q: Query, number: nat): nat
    requires q.reverse ==> number >= (q.skip + 1) % U64
  {
    if q.reverse then number - (q.skip + 1) % U64 else (number + q.skip + 1) % U64
  }

  ghost predicate Canonical(hc: HeaderChain, a: Header)
    reads hc
  {
    CanonicalHash(hc.canon, a.number) == a.hash
  }

  ghost predicate Holds(hc: HeaderChain, a: Header)
    reads hc
  {
    a.hash in hc.headers && hc.headers[a.hash] == a
  }

  /** `a` is the header the query asks for first. */
  ghost predicate Starts(hc: HeaderChain, q: Query, a: Header)
    reads hc
  {
    Holds(hc, a) && if q.HashMode() then a.hash == q.hash else a.number == q.number && Canonical(hc, a)
  }

  /** `b` is the header that comes after `a` in the reply, in terms of parent links. */
  ghost predicate Spaced(hc: HeaderChain, q: Query, a: Header, b: Header)
    requires hc.Valid()
    reads hc
  {
    && Holds(hc, a) && Holds(hc, b)
    && (if q.HashMode() && q.reverse then
          q.skip + 1 <= a.number && b.hash == Ancestor(hc.headers, hc.genesis, a.hash, q.skip + 1)
        else if q.HashMode() then
          q.skip + 1 <= b.number && a.hash == Ancestor(hc.headers, hc.genesis, b.hash, q.skip + 1) && Canonical(hc, b)
        else
          (q.reverse ==> a.number >= (q.skip + 1) % U64) && b.number == NextNumber(q, a.number) && Canonical(hc, a) && Canonical(hc, b))
  }

  /** Links walked for `n` headers of a reply. */
  ghost function Links(q: Query, n: nat): nat {
    n * (q.skip + 1)
  }

  lemma MoreLinks(q: Query, n: nat)
    ensures Links(q, 0) == 0 && Links(q, n + 1) == Links(q, n) + q.skip + 1
  {
  }

  /** What the walk off the index has cost after `n` links from the origin. */
  ghost function Spent(hc: HeaderChain, q: Query, n: nat): nat
    requires hc.Valid() && q.hash in hc.headers
    reads hc
  {
    if q.skip == 0 then 0 else hc.Needed(q.hash, n)
  }

  /** No header can follow this reply. */
  ghost predicate Exhausted(hc: HeaderChain, q: Query, reply: seq<Header>)
    requires hc.Valid()
    reads hc
  {
    if |reply| == 0 then
      if q.HashMode() then q.hash !in hc.headers else q.number !in hc.canon
    else
      var last := reply[|reply| - 1];
      if q.HashMode() && q.reverse then
        q.skip + 1 > last.number || (q.hash in hc.headers && Spent(hc, q, Links(q, |reply|)) > MAX_NON_CANONICAL)
      else if q.HashMode() then
        !Canonical(hc, last) || last.number + q.skip + 1 !in hc.canon
      else
        if q.reverse && last.number < (q.skip + 1) % U64 then true else NextNumber(q, last.number) !in hc.canon
  }

  ghost predicate NumbersFit(hc: HeaderChain)
    reads hc
  {
    forall h :: h in hc.headers ==> hc.headers[h].number < U64
  }

  /** The index holds 64-bit numbers only. */
  lemma IndexFits(hc: HeaderChain)
    requires hc.Valid() && NumbersFit(hc)
    ensures forall k :: k in hc.canon ==> k < U64
    ensures forall h :: h in hc.headers ==> hc.headers[h].number < U64
  {
    assert hc.headers[hc.current].number < U64;
  }

  /** `GetHeaderByNumber`. */
  method HeaderByNumber(hc: HeaderChain, number: nat) returns (ok: bool, header: Header)
    requires hc.Valid()
    ensures ok <==> number in hc.canon
    ensures ok ==> Holds(hc, header) && header.number == number && Canonical(hc, header)
  {
    ok := number in hc.canon;
    if ok {
      assert Linked(hc.headers, hc.genesis, hc.canon[number]);
      header := hc.headers[hc.canon[number]];
    } else {
      header := hc.headers[hc.current];
    }
  }

  /** On the index an ancestor costs no budget. */
  method CanonicalAncestor(hc: HeaderChain, header: Header, n: nat, budget: nat) returns (h: nat, left: nat)
    requires hc.Valid() && Holds(hc, header) && Canonical(hc, header) && 0 < n <= header.number
    ensures h == Ancestor(hc.headers, hc.genesis, header.hash, n) == CanonicalHash(hc.canon, header.number - n)
    ensures left == budget
  {
    var number;
    h, number, left := hc.GetAncestor(header.hash, header.number, n, budget);
    CanonicalAbove(hc, header.hash, n);
  }

  /** Hash based step towards the leaf: taken when the origin is `skip + 1` links above the new header. */
  method Forward(hc: HeaderChain, q: Query, origin: Header, budget: nat)
    returns (unknown: bool, hash: nat, number: nat, left: nat)
    requires hc.Valid() && NumbersFit(hc) && q.Fields() && q.HashMode() && Holds(hc, origin)
    ensures unknown <==> !Canonical(hc, origin) || origin.number + q.skip + 1 !in hc.canon
    ensures !unknown ==> hc.Known(hash, number) && Spaced(hc, q.(reverse := false), origin, hc.headers[hash])
    ensures left == budget
  {
    unknown, hash, number, left := true, origin.hash, origin.number, budget;
    IndexFits(hc);
    var next := (origin.number + q.skip + 1) % U64;
    WrapShows(origin.number, q.skip);
    if next <= origin.number {
      return;
    }
    var found, header := HeaderByNumber(hc, next);
    if !found {
      return;
    }
    var expOld;
    expOld, left := CanonicalAncestor(hc, header, q.skip + 1, budget);
    if expOld == origin.hash {
      return false, header.hash, next, left;
    }
  }

  /** The blocks above a canonical block are canonical, and the only ones at their height. */
  lemma CanonicalAbove(hc: HeaderChain, h: nat, n: nat)
    requires hc.Valid() && h in hc.headers && Canonical(hc, hc.headers[h]) && n <= hc.headers[h].number
    requires hc.headers[h].hash == h
    ensures CanonicalHash(hc.canon, hc.headers[h].number - n) == Ancestor(hc.headers, hc.genesis, h, n)
  {
    CanonicalBelow(hc.headers, hc.genesis, hc.canon, hc.current, h, hc.headers[h].number - n);
  }

  /** A wrapped sum of two 64-bit numbers and one is not above the first number. */
  lemma WrapShows(current: nat, skip: nat)
    requires current < U64 && skip < U64
    ensures var next := (current + skip + 1) % U64;
            if current + skip + 1 < U64 then next == current + skip + 1 else next <= current
  {
  }

  /** The cost of a walk is the cost of its two parts. */
  lemma NeededSplits(hc: HeaderChain, h: nat, a: nat, b: nat)
    requires hc.Valid() && h in hc.headers && a + b <= hc.headers[h].number
    ensures var above := Ancestor(hc.headers, hc.genesis, h, a);
            && hc.Needed(h, a + b) == hc.Needed(h, a) + hc.Needed(above, b)
            && Ancestor(hc.headers, hc.genesis, above, b) == Ancestor(hc.headers, hc.genesis, h, a + b)
  {
    DetourUp(hc.headers, hc.genesis, hc.canon, hc.current, h, a);
    AncestorAdd(hc.headers, hc.genesis, h, a, b);
  }

  /** Hash based step towards the genesis. */
  method Backward(hc: HeaderChain, q: Query, origin: Header, budget: nat)
    returns (unknown: bool, hash: nat, number: nat, left: nat)
    requires hc.Valid() && NumbersFit(hc) && q.Fields() && Holds(hc, origin)
    ensures unknown <==> q.skip + 1 > origin.number || (q.skip > 0 && hc.Needed(origin.hash, q.skip + 1) > budget)
    ensures !unknown ==> hash == Ancestor(hc.headers, hc.genesis, origin.hash, q.skip + 1) && number == origin.number - (q.skip + 1)
    ensures !unknown ==> left == budget - if q.skip == 0 then 0 else hc.Needed(origin.hash, q.skip + 1)
  {
    unknown, hash, number, left := true, origin.hash, origin.number, budget;
    assert origin.number < U64;
    var ancestor := (q.skip + 1) % U64;
    if ancestor == 0 {
      return;
    }
    hash, number, left := hc.GetAncestor(origin.hash, origin.number, ancestor, budget);
    unknown := hash == ZERO;
  }

  /** Where a hash query stands: the header it reads next and the budget it has left. */
  ghost predicate Poised(hc: HeaderChain, q: Query, reply: seq<Header>, hash: nat, number: nat, budget: nat)
    requires hc.Valid()
    reads hc
  {
    && |reply| > 0 && Holds(hc, reply[|reply| - 1])
    && if q.HashMode() then
         && hc.Known(hash, number) && Spaced(hc, q, reply[|reply| - 1], hc.headers[hash])
         && (q.reverse ==> OnTrack(hc, q, Links(q, |reply|), hash, budget))
       else
         && Canonical(hc, reply[|reply| - 1])
         && (q.reverse ==> reply[|reply| - 1].number >= (q.skip + 1) % U64)
         && number == NextNumber(q, reply[|reply| - 1].number)
  }

  /** `links` above the origin of a reverse hash query. */
  ghost predicate OnTrack(hc: HeaderChain, q: Query, links: nat, hash: nat, budget: nat)
    requires hc.Valid()
    reads hc
  {
    && q.hash in hc.headers && links <= hc.headers[q.hash].number
    && hash == Ancestor(hc.headers, hc.genesis, q.hash, links)
    && budget == MAX_NON_CANONICAL - Spent(hc, q, links)
  }

  lemma StepBack(hc: HeaderChain, q: Query, reply: seq<Header>, origin: Header, budget: nat)
    requires hc.Valid() && q.HashMode() && q.reverse
    requires Holds(hc, origin) && OnTrack(hc, q, Links(q, |reply|), origin.hash, budget)
    ensures q.skip + 1 > origin.number || (q.skip > 0 && hc.Needed(origin.hash, q.skip + 1) > budget) ==>
      Exhausted(hc, q, reply + [origin])
    ensures !(q.skip + 1 > origin.number || (q.skip > 0 && hc.Needed(origin.hash, q.skip + 1) > budget)) ==>
      var h := Ancestor(hc.headers, hc.genesis, origin.hash, q.skip + 1);
      Poised(hc, q, reply + [origin], h, origin.number - (q.skip + 1), budget - if q.skip == 0 then 0 else hc.Needed(origin.hash, q.skip + 1))
  {
    MoreLinks(q, |reply|);
    if q.skip + 1 <= origin.number {
      NeededSplits(hc, q.hash, Links(q, |reply|), q.skip + 1);
      assert Linked(hc.headers, hc.genesis, Ancestor(hc.headers, hc.genesis, origin.hash, q.skip + 1));
    }
  }

  /** Moves the query on past the header just read. */
  method Advance(hc: HeaderChain, q: Query, ghost reply: seq<Header>, origin: Header, budget: nat)
    returns (unknown: bool, hash: nat, number: nat, left: nat)
    requires hc.Valid() && NumbersFit(hc) && q.Fields() && Holds(hc, origin)
    requires if q.HashMode() then q.reverse ==> OnTrack(hc, q, Links(q, |reply|), origin.hash, budget) else Canonical(hc, origin)
    ensures unknown ==> Exhausted(hc, q, reply + [origin])
    ensures !unknown ==> Poised(hc, q, reply + [origin], hash, number, left)
    ensures !q.HashMode() ==> hash == ZERO
  {
    unknown, hash, number, left := false, ZERO, origin.number, budget;
    if q.HashMode() {
      if q.reverse {
        StepBack(hc, q, reply, origin, budget);
        unknown, hash, number, left := Backward(hc, q, origin, budget);
      } else {
        unknown, hash, number, left := Forward(hc, q, origin, budget);
      }
    } else {
      unknown, number := AdvanceNumber(q, number);
    }
  }

  /** Number based steps: sums and differences of 64-bit numbers. */
  method AdvanceNumber(q: Query, origin: nat) returns (unknown: bool, number: nat)
    requires q.Fields()
    ensures unknown <==> q.reverse && origin < (q.skip + 1) % U64
    ensures !unknown ==> number == NextNumber(q, origin)
  {
    unknown, number := false, origin;
    if q.reverse {
      if origin >= (q.skip + 1) % U64 {
        number := origin - (q.skip + 1) % U64;
      } else {
        unknown := true;
      }
    } else {
      number := (origin + (q.skip + 1) % U64) % U64;
    }
  }

  /** Reads the header the query stands at. */
  method Fetch(hc: HeaderChain, q: Query, first: bool, hash: nat, number: nat) returns (found: bool, origin: Header)
    requires hc.Valid() && (first && q.HashMode() ==> hash == q.hash)
    ensures found <==> if !q.HashMode() then number in hc.canon else if first then q.hash in hc.headers else hc.Known(hash, number)
    ensures found ==> Holds(hc, origin)
    ensures found ==> if q.HashMode() then origin.hash == hash else origin.number == number && Canonical(hc, origin)
  {
    if q.HashMode() {
      found := hash in hc.headers && (first || hc.headers[hash].number == number);
      origin := hc.headers[if found then hash else hc.current];
      assert Linked(hc.headers, hc.genesis, if found then hash else hc.current);
    } else {
      found, origin := HeaderByNumber(hc, number);
    }
  }

  /** Every two neighbours of the reply are spaced as the query asks. */
  ghost predicate AllSpaced(hc: HeaderChain, q: Query, reply: seq<Header>)
    requires hc.Valid()
    reads hc
  {
    && (|reply| > 0 ==> Starts(hc, q, reply[0]))
    && forall i :: 0 <= i < |reply| - 1 ==> Spaced(hc, q, reply[i], reply[i + 1])
  }

  /** The query's state between two rounds of the loop. */
  ghost predicate Between(hc: HeaderChain, q: Query, reply: seq<Header>, hash: nat, number: nat, budget: nat)
    requires hc.Valid()
    reads hc
  {
    if |reply| == 0 then hash == q.hash && number == q.number && budget == MAX_NON_CANONICAL
    else Poised(hc, q, reply, hash, number, budget)
  }

  /** The header fetched continues the reply, and the walk is where its budget says. */
  lemma Continues(hc: HeaderChain, q: Query, reply: seq<Header>, hash: nat, number: nat, budget: nat, origin: Header)
    requires hc.Valid() && AllSpaced(hc, q, reply) && Between(hc, q, reply, hash, number, budget)
    requires Holds(hc, origin)
    requires if q.HashMode() then origin.hash == hash else origin.number == number && Canonical(hc, origin)
    ensures AllSpaced(hc, q, reply + [origin])
    ensures q.HashMode() && q.reverse ==> OnTrack(hc, q, Links(q, |reply|), origin.hash, budget)
  {
    MoreLinks(q, |reply|);
    if |reply| > 0 { assert Spaced(hc, q, reply[|reply| - 1], origin); }
  }

  /**
   Answers a query: the reply starts at the origin, its neighbours are spaced by
   `skip + 1` links, and it stops only at a limit or when nothing can follow.
   */
  method GetBlockHeaders(hc: HeaderChain, q: Query) returns (reply: seq<Header>)
    requires hc.Valid() && NumbersFit(hc) && q.Fields()
    ensures |reply| <= MAX_HEADER_FETCH && (|reply| == 0 || |reply| <= q.Limit())
    ensures AllSpaced(hc, q, reply)
    ensures |reply| >= q.Limit() || |reply| == MAX_HEADER_FETCH || Exhausted(hc, q, reply)
  {
    reply := [];
    var hash, number, budget := q.hash, q.number, MAX_NON_CANONICAL;
    var first, unknown, bytes := true, false, 0;
    while !unknown && |reply| < q.Limit() && bytes < SOFT_RESPONSE_LIMIT && |reply| < MAX_HEADER_FETCH
      invariant bytes == EST_HEADER_RLP_SIZE * |reply| && first == (|reply| == 0)
      invariant |reply| <= MAX_HEADER_FETCH && (|reply| == 0 || |reply| <= q.Limit())
      invariant AllSpaced(hc, q, reply)
      invariant if unknown then Exhausted(hc, q, reply) else Between(hc, q, reply, hash, number, budget)
      decreases MAX_HEADER_FETCH - |reply|
    {
      var found, origin := Fetch(hc, q, first, hash, number);
      first := false;
      if !found {
        assert Exhausted(hc, q, reply);
        break;
      }
      Continues(hc, q, reply, hash, number, budget, origin);
      bytes := bytes + EST_HEADER_RLP_SIZE;
      unknown, hash, number, budget := Advance(hc, q, reply, origin, budget);
      reply := reply + [origin];
    }
  }

  /** In a reverse hash reply, header `i` is exactly `i * (skip + 1)` links above the origin. */
  lemma {:induction false} ReverseReply(hc: HeaderChain, q: Query, reply: seq<Header>, i: nat)
    requires hc.Valid() && q.HashMode() && q.reverse && AllSpaced(hc, q, reply) && i < |reply|
    ensures q.hash in hc.headers && Links(q, i) <= hc.headers[q.hash].number
    ensures reply[i].hash == Ancestor(hc.headers, hc.genesis, q.hash, Links(q, i))
  {
    MoreLinks(q, if i == 0 then 0 else i - 1);
    if i == 0 {
    } else {
      ReverseReply(hc, q, reply, i - 1);
      assert Spaced(hc, q, reply[i - 1], reply[i]);
      AncestorAdd(hc.headers, hc.genesis, q.hash, Links(q, i - 1), q.skip + 1);
    }
  }

  /** In a forward hash reply, the origin is exactly `i * (skip + 1)` links above header `i`. */
  lemma {:induction false} ForwardReply(hc: HeaderChain, q: Query, reply: seq<Header>, i: nat)
    requires hc.Valid() && q.HashMode() && !q.reverse && AllSpaced(hc, q, reply) && i < |reply|
    ensures Holds(hc, reply[i]) && Links(q, i) <= reply[i].number
    ensures Ancestor(hc.headers, hc.genesis, reply[i].hash, Links(q, i)) == q.hash
  {
    MoreLinks(q, if i == 0 then 0 else i - 1);
    if i == 0 {
    } else {
      ForwardReply(hc, q, reply, i - 1);
      assert Spaced(hc, q, reply[i - 1], reply[i]);
      AncestorAdd(hc.headers, hc.genesis, reply[i].hash, q.skip + 1, Links(q, i - 1));
    }
  }

  /** Number replies are spaced by `skip + 1` blocks exactly when the 64-bit arithmetic does not wrap. */
  lemma NumberSpacing(hc: HeaderChain, q: Query, a: Header, b: Header)
    requires hc.Valid() && NumbersFit(hc) && q.Fields() && !q.HashMode() && Spaced(hc, q, a, b)
    ensures !q.reverse ==> (b.number == a.number + q.skip + 1 <==> a.number + q.skip + 1 < U64)
    ensures q.reverse ==> (a.number == b.number + q.skip + 1 <==> q.skip + 1 < U64)
  {
  }

  /** With the largest skip a number query repeats its origin, in either direction. */
  lemma LargestSkipRepeats(hc: HeaderChain, q: Query, a: Header, b: Header)
    requires hc.Valid() && NumbersFit(hc) && q.Fields() && !q.HashMode() && q.skip == U64 - 1
    requires Holds(hc, a) && Canonical(hc, a)
    ensures Spaced(hc, q, a, b) <==> b == a
  {
    assert a.number < U64;
    assert NextNumber(q, a.number) == a.number;
  }
}
