/**
 What the operations of a transaction list do to the map it stands for, as
 functions, and that the list's own operations do exactly that.
 */
module ListSteps {
  import opened NonceOrder
  import opened TxSortedMap

  lemma {:induction false} FindLeast(s: set<nat>) returns (m: nat)
    requires s != {}
    ensures m in s && forall k :: k in s ==> m <= k
    decreases |s|
  {
    m :| m in s;
    if s - {m} != {} {
      var rest := FindLeast(s - {m});
      assert forall k :: k in s ==> k == m || k in s - {m};
      if rest < m { m := rest; }
    } else {
      assert s == {m};
    }
  }

  lemma {:induction false} FindGreatest(s: set<nat>) returns (m: nat)
    requires s != {}
    ensures m in s && forall k :: k in s ==> k <= m
    decreases |s|
  {
    m :| m in s;
    if s - {m} != {} {
      var rest := FindGreatest(s - {m});
      assert forall k :: k in s ==> k == m || k in s - {m};
      if rest > m { m := rest; }
    } else {
      assert s == {m};
    }
  }

  lemma LeastExists(s: set<nat>)
    requires s != {}
    ensures exists m :: m in s && forall k :: k in s ==> m <= k
  {
    var m := FindLeast(s);
  }

  function Least(s: set<nat>): (m: nat)
    requires s != {}
    ensures m in s && forall k :: k in s ==> m <= k
  {
    LeastExists(s);
    var m :| m in s && forall k :: k in s ==> m <= k;
    m
  }

  lemma GreatestExists(s: set<nat>)
    requires s != {}
    ensures exists m :: m in s && forall k :: k in s ==> k <= m
  {
    var m := FindGreatest(s);
  }

  function Greatest(s: set<nat>): (m: nat)
    requires s != {}
    ensures m in s && forall k :: k in s ==> k <= m
  {
    GreatestExists(s);
    var m :| m in s && forall k :: k in s ==> k <= m;
    m
  }

  /** The matches of a filter. */
  function Matches(items: Items, filter: Tx -> bool): Items {
    map n | n in items && filter(items[n]) :: items[n]
  }

  /** The first nonce from `n` on that is missing. */
  function RunEnd(items: Items, n: nat): (e: nat)
    ensures e >= n && e !in items && forall k: nat :: n <= k < e ==> k in items
    decreases |From(items, n)|
  {
    if n !in items then n
    else
      FewerAbove(items, n);
      RunEnd(items, n + 1)
  }

  lemma FewerAbove(items: Items, n: nat)
    requires n in items
    ensures |From(items, n + 1)| < |From(items, n)|
  {
    LeastApart(From(items, n), n);
    assert From(From(items, n), n + 1) == From(items, n + 1);
  }

  lemma Smaller(items: Items, n: nat)
    requires n in items
    ensures |items - {n}| == |items| - 1
  {
    assert (items - {n}).Keys == items.Keys - {n};
  }

  /** The lowest nonces, up to a limit. */
  function CapAt(items: Items, limit: nat): (r: Items)
    ensures |items| <= limit ==> r == items
    ensures |items| > limit ==> |r| == limit
    ensures forall n :: n in r ==> n in items && r[n] == items[n]
    decreases |items|
  {
    if |items| <= limit then items
    else
      var top := Greatest(items.Keys);
      Smaller(items, top);
      CapAt(items - {top}, limit)
  }

  lemma {:induction false} CapKeepsLowest(items: Items, limit: nat, n: nat, k: nat)
    requires n in CapAt(items, limit) && k in items && k !in CapAt(items, limit)
    ensures n < k
    decreases |items|
  {
    var top := Greatest(items.Keys);
    Smaller(items, top);
    if k != top {
      CapKeepsLowest(items - {top}, limit, n, k);
    } else {
      assert n in items.Keys;
      assert n in CapAt(items - {top}, limit);
    }
  }

  /** A strict filter cuts the list at its first match. */
  lemma StrictFilterIsCut(was: Items, filter: Tx -> bool, now: Items, removed: seq<Tx>, invalid: seq<Tx>)
    requires StrictlyFiltered(was, filter, now, removed, invalid)
    ensures Matches(was, filter) == map[] ==> now == was && removed == [] && invalid == []
    ensures Matches(was, filter) != map[] ==>
      var c := Least(Matches(was, filter).Keys);
      now == Below(was, c) && removed == [was[c]] && IsFlat(From(was, c + 1), invalid)
  {
    if Matches(was, filter) != map[] {
      var c := Least(Matches(was, filter).Keys);
      assert c in was && filter(was[c]);
      assert removed[0].nonce in Matches(was, filter).Keys;
    } else {
      forall n | n in was
        ensures !filter(was[n])
      {
        assert n !in Matches(was, filter);
      }
    }
  }

  /** A loose filter keeps what does not match. */
  lemma LooseFilterIsRest(was: Items, filter: Tx -> bool, now: Items, removed: seq<Tx>)
    requires LooselyFiltered(was, filter, now, removed)
    ensures now == was - Matches(was, filter).Keys
  {
  }

  /** The run ends where its length says. */
  lemma RunLength(items: Items, run: seq<Tx>)
    requires |run| > 0 && Consecutive(items, run) && run[0].nonce + |run| !in items
    ensures RunEnd(items, run[0].nonce) == run[0].nonce + |run|
  {
    var lo := run[0].nonce;
    forall k: nat | lo <= k < lo + |run|
      ensures k in items
    {
      assert run[k - lo].nonce == k;
    }
  }

  lemma RunIsFlat(items: Items, run: seq<Tx>)
    requires |run| > 0 && Keyed(items) && Consecutive(items, run) && forall n :: n in items ==> run[0].nonce <= n
    ensures IsFlat(Below(items, run[0].nonce + |run|), run)
  {
    var lo := run[0].nonce;
    var part := Below(items, lo + |run|);
    forall n: nat
      ensures Lists(part, run, n)
    {
      if n in part { assert run[n - lo] == items[n]; }
    }
  }

  lemma ReadyStarts(items: Items, start: nat, ready: seq<Tx>)
    requires items != map[] && ReadyRun(items, start, ready)
    ensures if Least(items.Keys) > start then ready == [] else |ready| > 0 && ready[0].nonce == Least(items.Keys)
  {
    var lo := Least(items.Keys);
    assert lo in items;
    if lo <= start { assert ready[0].nonce in items.Keys; }
  }

  /** The ready transactions are those below the end of the run. */
  lemma ReadyIsRun(items: Items, start: nat, ready: seq<Tx>)
    requires Keyed(items) && items != map[] && ReadyRun(items, start, ready)
    ensures Least(items.Keys) > start ==> ready == []
    ensures Least(items.Keys) <= start ==>
      var e := RunEnd(items, Least(items.Keys));
      AfterRun(items, ready) == From(items, e) && IsFlat(Below(items, e), ready)
  {
    ReadyStarts(items, start, ready);
    if ready != [] {
      RunLength(items, ready);
      RunIsFlat(items, ready);
    }
  }

  /** Capping a list keeps its lowest nonces. */
  lemma CapIsLowest(was: Items, limit: nat, now: Items, lowest: nat)
    requires |was| > limit && now == Below(was, lowest) && |now| == limit
    ensures now == CapAt(was, limit)
  {
    var r := CapAt(was, limit);
    forall n, k | n in r && k in now && k !in r
      ensures n in now
    {
      CapKeepsLowest(was, limit, n, k);
    }
    assert now.Keys <= r.Keys || r.Keys <= now.Keys;
    if now.Keys <= r.Keys {
      SameSize(now.Keys, r.Keys);
    } else {
      SameSize(r.Keys, now.Keys);
    }
  }

  lemma {:induction false} SameSize(a: set<nat>, b: set<nat>)
    requires a <= b && |a| == |b|
    ensures a == b
    decreases |a|
  {
    if a == {} {
    } else {
      var x :| x in a;
      SameSize(a - {x}, b - {x});
      assert a == a - {x} + {x} && b == b - {x} + {x};
    }
  }
}
