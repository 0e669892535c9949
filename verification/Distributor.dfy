/**
 `requestDistributor`: an ordered queue of requests, matched with the peers that can
 serve them.
 */
module Distributor {
  import opened WeightedSelect

  /** What requests and peers answer when asked. */
  datatype Env = Env(
    canQueue: nat -> bool,
    canSend: (nat, nat) -> bool,
    cost: (nat, nat) -> nat,
    wait: (nat, nat) -> nat,
    buffer: (nat, nat) -> real)

  /** A peer offered for a request, with the weight of its remaining buffer. */
  datatype PeerItem = PeerItem(peer: nat, req: nat, weight: nat)

  /** The position of the oldest request a peer can serve; the queue's length if there is none. */
  ghost function First(env: Env, queue: seq<nat>, peer: nat): (i: nat)
    ensures i <= |queue| && (i < |queue| ==> env.canSend(queue[i], peer)) && forall k :: 0 <= k < i ==> !env.canSend(queue[k], peer)
  {
    if queue == [] || env.canSend(queue[0], peer) then 0 else 1 + First(env, queue[1..], peer)
  }

  /** A registered peer that has room and some request it can serve. */
  ghost predicate Able(env: Env, queue: seq<nat>, peers: set<nat>, peer: nat) {
    peer in peers && env.canQueue(peer) && First(env, queue, peer) < |queue|
  }

  /** The request a peer would get: the oldest one it can serve. */
  ghost function Oldest(env: Env, queue: seq<nat>, peers: set<nat>, peer: nat): nat
    requires Able(env, queue, peers, peer)
  {
    queue[First(env, queue, peer)]
  }

  /** How long the peer has to wait before its oldest request can be sent. */
  ghost function Delay(env: Env, queue: seq<nat>, peers: set<nat>, peer: nat): nat
    requires Able(env, queue, peers, peer)
  {
    var req := Oldest(env, queue, peers, peer);
    env.wait(peer, env.cost(req, peer))
  }

  /** No registered peer can both queue and serve the request. */
  ghost predicate Unservable(env: Env, peers: set<nat>, req: nat) {
    forall p :: p in peers ==> !(env.canQueue(p) && env.canSend(req, p))
  }

  /** Requests in strictly ascending order of creation. */
  ghost predicate Ordered(queue: seq<nat>, order: map<nat, nat>) {
    && (forall i :: 0 <= i < |queue| ==> queue[i] in order)
    && (forall i, j :: 0 <= i < j < |queue| ==> order[queue[i]] < order[queue[j]])
  }

  ghost function Members(queue: seq<nat>): set<nat> {
    set r | r in queue
  }

  lemma OrderedInsert(queue: seq<nat>, order: map<nat, nat>, r: nat, k: nat)
    requires Ordered(queue, order) && r in order && k <= |queue|
    requires forall i :: 0 <= i < k ==> order[queue[i]] < order[r]
    requires k < |queue| ==> order[r] < order[queue[k]]
    ensures Ordered(queue[..k] + [r] + queue[k..], order)
    ensures Members(queue[..k] + [r] + queue[k..]) == Members(queue) + {r}
  {
    var q := queue[..k] + [r] + queue[k..];
    forall i, j | 0 <= i < j < |q|
      ensures q[i] in order && q[j] in order && order[q[i]] < order[q[j]]
    {
      var a, b := if i < k then queue[i] else if i == k then r else queue[i - 1],
                  if j < k then queue[j] else if j == k then r else queue[j - 1];
      assert q[i] == a && q[j] == b;
      if i == k { assert order[queue[k]] <= order[queue[j - 1]]; }
    }
    InsertMembers(queue, r, k);
  }

  lemma InsertMembers(queue: seq<nat>, r: nat, k: nat)
    requires k <= |queue|
    ensures Members(queue[..k] + [r] + queue[k..]) == Members(queue) + {r}
  {
    assert queue == queue[..k] + queue[k..];
  }

  lemma OrderedRemove(queue: seq<nat>, order: map<nat, nat>, k: nat)
    requires Ordered(queue, order) && k < |queue|
    ensures Ordered(queue[..k] + queue[k + 1..], order)
    ensures Members(queue[..k] + queue[k + 1..]) == Members(queue) - {queue[k]}
  {
    var q := queue[..k] + queue[k + 1..];
    assert forall i :: 0 <= i < k ==> q[i] == queue[i];
    assert forall i :: k <= i < |q| ==> q[i] == queue[i + 1];
    forall r
      ensures r in Members(q) <==> r in Members(queue) - {queue[k]}
    {
      if r in queue && r != queue[k] {
        var i :| 0 <= i < |queue| && queue[i] == r;
        assert q[if i < k then i else i - 1] == r;
      }
    }
  }

  class Distributor {
    var reqQueue: seq<nat>
    var lastReqOrder: nat
    /** The order numbers given to requests. */
    var order: map<nat, nat>
    /** The requests whose channel is open. */
    var open: set<nat>
    var peers: set<nat>

    /** The queue is strictly ordered, and no two requests have the same number. */
    ghost predicate Valid()
      reads this
    {
      && Ordered(reqQueue, order) && open == Members(reqQueue)
      && (forall r :: r in order ==> 0 < order[r] <= lastReqOrder)
      && (forall r, s :: r in order && s in order && order[r] == order[s] ==> r == s)
    }

    constructor ()
      ensures Valid() && reqQueue == [] && peers == {}
    {
      reqQueue, lastReqOrder, order, open, peers := [], 0, map[], {}, {};
    }

    method RegisterPeer(p: nat)
      requires Valid()
      modifies this`peers
      ensures Valid() && peers == old(peers) + {p}
    {
      peers := peers + {p};
    }

    method UnregisterPeer(p: nat)
      requires Valid()
      modifies this`peers
      ensures Valid() && peers == old(peers) - {p}
    {
      peers := peers - {p};
    }

    /** Queues a request: a new one at the end, one that is sent again where its number belongs. */
    method Queue(r: nat)
      requires Valid() && r !in reqQueue
      modifies this`reqQueue, this`lastReqOrder, this`order, this`open
      ensures Valid()
      ensures r in old(order) ==> order == old(order)
      ensures r !in old(order) ==> order == old(order)[r := old(lastReqOrder) + 1] && reqQueue == old(reqQueue) + [r]
      ensures Members(reqQueue) == Members(old(reqQueue)) + {r} && |reqQueue| == |old(reqQueue)| + 1
    {
      if r !in order {
        lastReqOrder := lastReqOrder + 1;
        order := order[r := lastReqOrder];
      }
      var k := |reqQueue|;
      if |reqQueue| > 0 && order[r] <= order[reqQueue[|reqQueue| - 1]] {
        k := 0;
        while order[reqQueue[k]] < order[r]
          invariant k < |reqQueue| && forall i :: 0 <= i < k ==> order[reqQueue[i]] < order[r]
          decreases |reqQueue| - k
        {
          k := k + 1;
        }
      }
      OrderedInsert(reqQueue, order, r, k);
      open := open + {r};
      reqQueue := reqQueue[..k] + [r] + reqQueue[k..];
    }

    /** Takes a request out of the queue if it has not been sent yet. */
    method Cancel(r: nat) returns (ok: bool)
      requires Valid()
      modifies this`reqQueue, this`open
      ensures Valid() && (ok <==> r in old(reqQueue))
      ensures Members(reqQueue) == Members(old(reqQueue)) - {r} && (!ok ==> reqQueue == old(reqQueue))
    {
      if r !in open {
        return false;
      }
      Remove(r);
      return true;
    }

    method Remove(r: nat)
      requires Valid() && r in reqQueue
      modifies this`reqQueue, this`open
      ensures Valid() && Members(reqQueue) == Members(old(reqQueue)) - {r}
      ensures r == old(reqQueue)[0] ==> reqQueue == old(reqQueue)[1..]
    {
      var k := 0;
      while reqQueue[k] != r
        invariant k < |reqQueue| && r in reqQueue[k..]
        decreases |reqQueue| - k
      {
        k := k + 1;
      }
      OrderedRemove(reqQueue, order, k);
      open := open - {r};
      reqQueue := reqQueue[..k] + reqQueue[k + 1..];
    }

    /**
     Picks the next request and peer. Requests at the front that no peer can serve are
     failed and dropped; every other peer is considered for the oldest request it can
     serve, and for no other. If some can send at once, one of these is drawn;
     otherwise the one with the shortest wait is named.
     */
    method NextRequest(env: Env) returns (found: bool, peer: nat, req: nat, wait: nat, failed: nat)
      requires Valid() && forall p, c :: env.buffer(p, c) >= 0.0
      modifies this`reqQueue, this`open
      ensures Valid() && failed <= |old(reqQueue)| && reqQueue == old(reqQueue)[failed..]
      ensures forall i :: 0 <= i < failed ==> Unservable(env, peers, old(reqQueue)[i])
      ensures failed < |old(reqQueue)| ==> !Unservable(env, peers, old(reqQueue)[failed])
      ensures found ==>
        && Able(env, old(reqQueue), peers, peer) && req == Oldest(env, old(reqQueue), peers, peer)
        && wait == Delay(env, old(reqQueue), peers, peer)
      ensures found ==> forall p :: Able(env, old(reqQueue), peers, p) ==> wait <= Delay(env, old(reqQueue), peers, p)
      ensures !found ==> forall p :: !Able(env, old(reqQueue), peers, p)
    {
      var q := reqQueue;
      var offers, best;
      ghost var j, checked;
      offers, best, failed, j, checked := Scan(env);
      found, peer, req, wait := Pick(env, q, peers, j, offers, best, checked);
    }

    /** Walks through the queue as long as there are peers, or nothing but failed requests so far. */
    method Scan(env: Env)
      returns (offers: seq<PeerItem>, best: Candidate, failed: nat, ghost j: nat, ghost seen: set<nat>)
      requires Valid() && forall p, c :: env.buffer(p, c) >= 0.0
      modifies this`reqQueue, this`open
      ensures Valid() && failed <= j <= |old(reqQueue)| && Trimmed(env, old(reqQueue), peers, j, failed) && reqQueue == old(reqQueue)[failed..]
      ensures Progress(env, old(reqQueue), peers, j, peers, seen, Offered(offers), best)
      ensures j == |old(reqQueue)| || (peers == {} && j > failed)
      ensures JustOffers(env, old(reqQueue), peers, Offered(offers))
    {
      var q := reqQueue;
      assert q[0..] == q;
      offers, best, failed := [], Nobody, 0;
      var checked: set<nat>, i := {}, 0;
      StartProgress(env, q, peers);
      assert Offered(offers) == {};
      while (|peers| > 0 || i == failed) && i < |q|
        invariant Valid() && failed <= i <= |q| && Trimmed(env, q, peers, i, failed) && reqQueue == q[failed..]
        invariant Progress(env, q, peers, i, peers, checked, Offered(offers), best)
      {
        offers, best, checked, failed := Visit(env, q, i, failed, offers, best, checked);
        i := i + 1;
      }
      j, seen := i, checked;
      AllOffered(env, q, peers, j, seen, Offered(offers), best);
    }

    /** Puts one request to the peers, and drops it if it is at the front and nobody can serve it. */
    method Visit(env: Env, q: seq<nat>, j: nat, failed: nat, offers: seq<PeerItem>, best: Candidate, checked: set<nat>)
      returns (offers': seq<PeerItem>, best': Candidate, checked': set<nat>, failed': nat)
      requires Valid() && failed <= j < |q| && Trimmed(env, q, peers, j, failed) && reqQueue == q[failed..]
      requires Progress(env, q, peers, j, peers, checked, Offered(offers), best) && forall p, c :: env.buffer(p, c) >= 0.0
      modifies this`reqQueue, this`open
      ensures Valid() && failed' <= j + 1 && Trimmed(env, q, peers, j + 1, failed') && reqQueue == q[failed'..]
      ensures Progress(env, q, peers, j + 1, peers, checked', Offered(offers'), best')
    {
      failed' := failed;
      var canSend;
      offers', best', checked', canSend := Row(env, q, peers, j, offers, best, checked);
      NextRow(env, q, peers, j, checked', Offered(offers'), best');
      if j == failed { FrontRow(env, q, peers, j); }
      if !canSend && j == failed {
        assert reqQueue[0] == q[j];
        Remove(q[j]);
        failed' := failed + 1;
      }
    }
  }

  /** The first `failed` requests are those nobody can serve; if there are more before `j`, the next one can be served. */
  ghost predicate Trimmed(env: Env, queue: seq<nat>, peers: set<nat>, j: nat, failed: nat)
    requires failed <= j <= |queue|
  {
    && (forall i :: 0 <= i < failed ==> Unservable(env, peers, queue[i]))
    && (j > failed ==> !Unservable(env, peers, queue[failed]))
  }

  /** The best peer found that has to wait. */
  datatype Candidate = Nobody | Best(peer: nat, req: nat, wait: nat)

  /** The items offered so far. */
  ghost function Offered(offers: seq<PeerItem>): set<PeerItem> {
    set it | it in offers
  }

  /** The peer has been considered: its oldest request was passed, or is the current one and the peer's turn is over. */
  ghost predicate Done(env: Env, queue: seq<nat>, peers: set<nat>, j: nat, rest: set<nat>, p: nat) {
    Able(env, queue, peers, p) && (First(env, queue, p) < j || (First(env, queue, p) == j && p !in rest))
  }

  /** A peer that can send its oldest request at once, weighed by the next whole number above its remaining buffer in millionths. */
  ghost predicate Offer(env: Env, queue: seq<nat>, peers: set<nat>, it: PeerItem) {
    && Able(env, queue, peers, it.peer) && it.req == Oldest(env, queue, peers, it.peer) && Delay(env, queue, peers, it.peer) == 0
    && Weighs(env, it)
  }

  ghost predicate Weighs(env: Env, it: PeerItem) {
    it.weight > 0 && (it.weight - 1) as real <= env.buffer(it.peer, env.cost(it.req, it.peer)) * 1000000.0 < it.weight as real
  }

  /** The peer is among those offered. */
  ghost predicate IsOffered(offered: set<PeerItem>, p: nat) {
    exists it :: it in offered && it.peer == p
  }

  /** Exactly the peers that can send at once are offered. */
  ghost predicate JustOffers(env: Env, queue: seq<nat>, peers: set<nat>, offered: set<PeerItem>) {
    && (forall it :: it in offered ==> Offer(env, queue, peers, it))
    && (forall p :: Able(env, queue, peers, p) && Delay(env, queue, peers, p) == 0 ==> IsOffered(offered, p))
  }

  /** What is known after the requests before `j`, and for request `j` the peers not in `rest`. */
  ghost predicate Progress(env: Env, queue: seq<nat>, peers: set<nat>, j: nat, rest: set<nat>, checked: set<nat>,
      offered: set<PeerItem>, best: Candidate) {
    && (forall p {:trigger Done(env, queue, peers, j, rest, p)} :: p in checked <==> Done(env, queue, peers, j, rest, p))
    && (forall it :: it in offered ==> Done(env, queue, peers, j, rest, it.peer) && Offer(env, queue, peers, it))
    && (best.Best? ==>
          && Done(env, queue, peers, j, rest, best.peer) && best.req == Oldest(env, queue, peers, best.peer)
          && best.wait == Delay(env, queue, peers, best.peer) > 0)
    && (forall p {:trigger Done(env, queue, peers, j, rest, p)} :: Done(env, queue, peers, j, rest, p) ==>
          if Delay(env, queue, peers, p) == 0 then IsOffered(offered, p) else best.Best? && best.wait <= Delay(env, queue, peers, p))
  }

  /** Nothing has been considered yet. */
  lemma StartProgress(env: Env, queue: seq<nat>, peers: set<nat>)
    ensures Progress(env, queue, peers, 0, peers, {}, {}, Nobody) && Trimmed(env, queue, peers, 0, 0)
  {
  }

  /** The current request has been put to every peer. */
  lemma NextRow(env: Env, queue: seq<nat>, peers: set<nat>, j: nat, checked: set<nat>, offered: set<PeerItem>,
      best: Candidate)
    requires Progress(env, queue, peers, j, {}, checked, offered, best)
    ensures Progress(env, queue, peers, j + 1, peers, checked, offered, best)
  {
    forall p
      ensures Done(env, queue, peers, j + 1, peers, p) <==> Done(env, queue, peers, j, {}, p)
      ensures p in checked <==> Done(env, queue, peers, j + 1, peers, p)
    {
      assert p in checked <==> Done(env, queue, peers, j, {}, p);
    }
    forall p | Done(env, queue, peers, j + 1, peers, p)
      ensures if Delay(env, queue, peers, p) == 0 then IsOffered(offered, p) else best.Best? && best.wait <= Delay(env, queue, peers, p)
    {
      assert Done(env, queue, peers, j, {}, p);
    }
  }

  /** Everything has been considered. */
  lemma AllRows(env: Env, queue: seq<nat>, peers: set<nat>, j: nat, checked: set<nat>, offered: set<PeerItem>,
      best: Candidate)
    requires Progress(env, queue, peers, j, peers, checked, offered, best) && (j >= |queue| || peers == {})
    ensures forall p :: Able(env, queue, peers, p) ==> Done(env, queue, peers, j, peers, p)
  {
  }

  lemma AllOffered(env: Env, queue: seq<nat>, peers: set<nat>, j: nat, checked: set<nat>, offered: set<PeerItem>, best: Candidate)
    requires Progress(env, queue, peers, j, peers, checked, offered, best) && (j >= |queue| || peers == {})
    ensures JustOffers(env, queue, peers, offered)
  {
    AllRows(env, queue, peers, j, checked, offered, best);
    forall p | Able(env, queue, peers, p) && Delay(env, queue, peers, p) == 0
      ensures IsOffered(offered, p)
    {
      assert Done(env, queue, peers, j, peers, p);
    }
  }

  /** Some peer outside `rest` has request `j` as its oldest. */
  ghost predicate Hit(env: Env, queue: seq<nat>, peers: set<nat>, j: nat, rest: set<nat>) {
    exists p :: Able(env, queue, peers, p) && First(env, queue, p) == j && p !in rest
  }

  /** The front request is hit exactly if some peer can queue and serve it. */
  lemma FrontRow(env: Env, queue: seq<nat>, peers: set<nat>, j: nat)
    requires j < |queue| && forall i :: 0 <= i < j ==> Unservable(env, peers, queue[i])
    ensures Hit(env, queue, peers, j, {}) <==> !Unservable(env, peers, queue[j])
  {
    if !Unservable(env, peers, queue[j]) {
      var p :| p in peers && env.canQueue(p) && env.canSend(queue[j], p);
      forall i | 0 <= i < j
        ensures !env.canSend(queue[i], p)
      {
        assert Unservable(env, peers, queue[i]);
      }
      assert Able(env, queue, peers, p) && First(env, queue, p) == j;
    }
  }

  /** A peer that is passed over does not have this request as its oldest. */
  lemma Skip(env: Env, queue: seq<nat>, peers: set<nat>, j: nat, rest: set<nat>, checked: set<nat>,
      offered: set<PeerItem>, best: Candidate, p: nat)
    requires Progress(env, queue, peers, j, rest, checked, offered, best) && p in rest && rest <= peers && j < |queue|
    requires p in checked || !env.canQueue(p) || !env.canSend(queue[j], p)
    ensures Progress(env, queue, peers, j, rest - {p}, checked, offered, best)
    ensures Hit(env, queue, peers, j, rest - {p}) <==> Hit(env, queue, peers, j, rest)
  {
    assert p in checked <==> Done(env, queue, peers, j, rest, p);
    forall x
      ensures Done(env, queue, peers, j, rest - {p}, x) <==> Done(env, queue, peers, j, rest, x)
    {
    }
  }

  /** A peer that is taken has this request as its oldest. */
  lemma Take(env: Env, queue: seq<nat>, peers: set<nat>, j: nat, rest: set<nat>, checked: set<nat>,
      offered: set<PeerItem>, best: Candidate, p: nat)
    requires Progress(env, queue, peers, j, rest, checked, offered, best) && p in rest && rest <= peers && j < |queue|
    requires p !in checked && env.canQueue(p) && env.canSend(queue[j], p)
    ensures Able(env, queue, peers, p) && First(env, queue, p) == j
    ensures Hit(env, queue, peers, j, rest - {p})
    ensures forall x :: Done(env, queue, peers, j, rest - {p}, x) <==> x == p || Done(env, queue, peers, j, rest, x)
  {
    assert !Done(env, queue, peers, j, rest, p);
  }

  /** Taking a peer that can send at once. */
  lemma TakeReady(env: Env, queue: seq<nat>, peers: set<nat>, j: nat, rest: set<nat>, checked: set<nat>,
      offered: set<PeerItem>, best: Candidate, p: nat, it: PeerItem)
    requires Progress(env, queue, peers, j, rest, checked, offered, best) && p in rest && rest <= peers && j < |queue|
    requires p !in checked && env.canQueue(p) && env.canSend(queue[j], p)
    requires env.wait(p, env.cost(queue[j], p)) == 0 && it.peer == p && it.req == queue[j] && Weighs(env, it)
    ensures Progress(env, queue, peers, j, rest - {p}, checked + {p}, offered + {it}, best) && Hit(env, queue, peers, j, rest - {p})
  {
    Take(env, queue, peers, j, rest, checked, offered, best, p);
    assert it in offered + {it};
  }

  /** Taking a peer that has to wait. */
  lemma TakeWaiting(env: Env, queue: seq<nat>, peers: set<nat>, j: nat, rest: set<nat>, checked: set<nat>,
      offered: set<PeerItem>, best: Candidate, p: nat, best': Candidate)
    requires Progress(env, queue, peers, j, rest, checked, offered, best) && p in rest && rest <= peers && j < |queue|
    requires p !in checked && env.canQueue(p) && env.canSend(queue[j], p)
    requires var w := env.wait(p, env.cost(queue[j], p));
      w > 0 && best' == if best.Nobody? || w < best.wait then Best(p, queue[j], w) else best
    ensures Progress(env, queue, peers, j, rest - {p}, checked + {p}, offered, best') && Hit(env, queue, peers, j, rest - {p})
  {
    Take(env, queue, peers, j, rest, checked, offered, best, p);
  }

  /** Puts what was offered into a selection and draws from it; the weights do not change. */
  method Draw(offers: seq<PeerItem>) returns (it: PeerItem)
    requires offers != [] && forall i :: 0 <= i < |offers| ==> offers[i].weight > 0
    ensures it in offers
  {
    var sel := new WeightedRandomSelect<PeerItem>();
    Fill(sel, offers);
    it := DrawFrom(sel, offers[0]);
  }

  /** Everything offered, with its weight. */
  ghost function Weights(offers: seq<PeerItem>): map<PeerItem, int> {
    map it | it in offers :: it.weight
  }

  /** Puts everything offered into a selection. */
  method Fill(sel: WeightedRandomSelect<PeerItem>, offers: seq<PeerItem>)
    requires sel.Valid() && sel.Stored() == map[] && forall i :: 0 <= i < |offers| ==> offers[i].weight > 0
    modifies sel.Repr
    ensures sel.Valid() && sel.Stored() == Weights(offers) && fresh(sel.Repr - old(sel.Repr))
  {
    for i := 0 to |offers|
      invariant sel.Valid() && sel.Stored() == Weights(offers[..i]) && fresh(sel.Repr - old(sel.Repr))
    {
      Longer(offers, i);
      sel.SetWeight(offers[i], offers[i].weight);
    }
    assert offers[..|offers|] == offers;
  }

  lemma Longer(offers: seq<PeerItem>, i: nat)
    requires i < |offers|
    ensures Weights(offers[..i + 1]) == Weights(offers[..i])[offers[i] := offers[i].weight]
  {
    assert offers[..i + 1] == offers[..i] + [offers[i]];
  }

  /** A draw from a selection that holds an item of some weight. */
  method DrawFrom(sel: WeightedRandomSelect<PeerItem>, ghost some: PeerItem) returns (it: PeerItem)
    requires sel.Valid() && some in sel.Stored() && some.weight > 0
    modifies sel.Repr
    ensures it in old(sel.Stored())
  {
    var choice := sel.Choose((x: PeerItem) => x.weight);
    assert some in sel.Stored();
    it := choice.value;
  }

  /** Considers a peer, unless it was considered for an older request or cannot take this one. */
  method One(env: Env, q: seq<nat>, peers: set<nat>, j: nat, ghost rest: set<nat>, offers: seq<PeerItem>,
      best: Candidate, checked: set<nat>, p: nat)
    returns (offers': seq<PeerItem>, best': Candidate, checked': set<nat>, taken: bool)
    requires j < |q| && forall p, c :: env.buffer(p, c) >= 0.0
    requires Progress(env, q, peers, j, rest, checked, Offered(offers), best) && p in rest && rest <= peers
    ensures Progress(env, q, peers, j, rest - {p}, checked', Offered(offers'), best')
    ensures Hit(env, q, peers, j, rest - {p}) <==> taken || Hit(env, q, peers, j, rest)
  {
    offers', best', checked', taken := offers, best, checked, false;
    if p !in checked && env.canQueue(p) && env.canSend(q[j], p) {
      offers', best' := Consider(env, q, peers, j, rest, offers, best, checked, p);
      checked', taken := checked + {p}, true;
    } else {
      Skip(env, q, peers, j, rest, checked, Offered(offers), best, p);
    }
  }

  /** Offers a peer that can send at once, or remembers the one with the shortest wait. */
  method Consider(env: Env, q: seq<nat>, peers: set<nat>, j: nat, ghost rest: set<nat>, offers: seq<PeerItem>,
      best: Candidate, ghost checked: set<nat>, p: nat)
    returns (offers': seq<PeerItem>, best': Candidate)
    requires j < |q| && forall p, c :: env.buffer(p, c) >= 0.0
    requires Progress(env, q, peers, j, rest, checked, Offered(offers), best)
    requires p in rest && rest <= peers && p !in checked && env.canQueue(p) && env.canSend(q[j], p)
    ensures Progress(env, q, peers, j, rest - {p}, checked + {p}, Offered(offers'), best')
    ensures Hit(env, q, peers, j, rest - {p})
  {
    offers', best' := offers, best;
    var cost := env.cost(q[j], p);
    var wait := env.wait(p, cost);
    if wait == 0 {
      var weight: nat := (env.buffer(p, cost) * 1000000.0).Floor + 1;
      TakeReady(env, q, peers, j, rest, checked, Offered(offers), best, p, PeerItem(p, q[j], weight));
      offers' := offers + [PeerItem(p, q[j], weight)];
      assert Offered(offers') == Offered(offers) + {PeerItem(p, q[j], weight)};
    } else {
      best' := if best.Nobody? || wait < best.wait then Best(p, q[j], wait) else best;
      TakeWaiting(env, q, peers, j, rest, checked, Offered(offers), best, p, best');
    }
  }

  /** Draws from those that can send at once, or else names the one with the shortest wait. */
  method Pick(env: Env, q: seq<nat>, peers: set<nat>, ghost j: nat, offers: seq<PeerItem>, best: Candidate,
      ghost checked: set<nat>)
    returns (found: bool, peer: nat, req: nat, wait: nat)
    requires Progress(env, q, peers, j, peers, checked, Offered(offers), best) && (j >= |q| || peers == {})
    ensures found ==> Able(env, q, peers, peer) && req == Oldest(env, q, peers, peer) && wait == Delay(env, q, peers, peer)
    ensures found ==> forall p :: Able(env, q, peers, p) ==> wait <= Delay(env, q, peers, p)
    ensures !found ==> forall p :: !Able(env, q, peers, p)
  {
    AllRows(env, q, peers, j, checked, Offered(offers), best);
    if offers != [] {
      assert forall i :: 0 <= i < |offers| ==> offers[i] in Offered(offers);
      var it := Draw(offers);
      return true, it.peer, it.req, 0;
    }
    found := best.Best?;
    if found {
      peer, req, wait := best.peer, best.req, best.wait;
    } else {
      peer, req, wait := 0, 0, 0;
    }
  }

  /** Puts one request to every peer that has not been considered yet. */
  method Row(env: Env, q: seq<nat>, peers: set<nat>, j: nat, offers: seq<PeerItem>, best: Candidate, checked: set<nat>)
    returns (offers': seq<PeerItem>, best': Candidate, checked': set<nat>, canSend: bool)
    requires j < |q| && forall p, c :: env.buffer(p, c) >= 0.0
    requires Progress(env, q, peers, j, peers, checked, Offered(offers), best)
    ensures Progress(env, q, peers, j, {}, checked', Offered(offers'), best')
    ensures canSend <==> Hit(env, q, peers, j, {})
  {
    offers', best', checked', canSend := offers, best, checked, false;
    var rest := peers;
    while rest != {}
      invariant rest <= peers && Progress(env, q, peers, j, rest, checked', Offered(offers'), best')
      invariant canSend <==> Hit(env, q, peers, j, rest)
      decreases |rest|
    {
      var p :| p in rest;
      var taken;
      offers', best', checked', taken := One(env, q, peers, j, rest, offers', best', checked', p);
      canSend := canSend || taken;
      rest := rest - {p};
    }
  }
}
