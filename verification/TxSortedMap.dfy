/**
 `txSortedMap`: transactions by nonce, with a heap of the nonces and a cached
 listing kept beside the map.
 */
module TxSortedMap {
  import opened Basics
  import opened NonceOrder
  import Heap = NonceHeap

  ghost predicate Rising<T>(s: seq<T>, key: T -> nat) {
    forall i, j :: 0 <= i < j < |s| ==> key(s[i]) <= key(s[j])
  }

  lemma PlacedRises<T>(s: seq<T>, key: T -> nat, x: T, k: nat)
    requires Rising(s, key) && k <= |s|
    requires k > 0 ==> key(s[k - 1]) <= key(x)
    requires k < |s| ==> key(s[k]) > key(x)
    ensures Rising(s[..k] + [x] + s[k..], key)
  {
    var r := s[..k] + [x] + s[k..];
    forall i, j | 0 <= i < j < |r|
      ensures key(r[i]) <= key(r[j])
    {
      assert i < k ==> r[i] == s[i];
      assert i > k ==> r[i] == s[i - 1];
      assert j < k ==> r[j] == s[j];
      assert j > k ==> r[j] == s[j - 1];
    }
  }

  /** Puts an element in its place among ordered ones. */
  method Place<T>(s: seq<T>, key: T -> nat, x: T) returns (r: seq<T>)
    requires Rising(s, key)
    ensures Rising(r, key) && multiset(r) == multiset(s) + multiset{x}
  {
    var k := |s|;
    while k > 0 && key(s[k - 1]) > key(x)
      invariant 0 <= k <= |s| && (k < |s| ==> key(s[k]) > key(x))
    {
      k := k - 1;
    }
    PlacedRises(s, key, x, k);
    assert s == s[..k] + s[k..];
    r := s[..k] + [x] + s[k..];
  }

  /** `sort.Sort`: the same elements in order of their keys. */
  method Sort<T>(s: seq<T>, key: T -> nat) returns (r: seq<T>)
    ensures Rising(r, key) && multiset(r) == multiset(s)
  {
    r := [];
    for i := 0 to |s|
      invariant Rising(r, key) && multiset(r) == multiset(s[..i])
    {
      assert s[..i + 1] == s[..i] + [s[i]];
      r := Place(r, key, s[i]);
    }
    assert s[..|s|] == s;
  }

  /** No element occurs twice. */
  ghost predicate Once<T(!new)>(s: seq<T>) {
    forall x :: multiset(s)[x] <= 1
  }

  lemma OnceDiffers<T(!new)>(s: seq<T>, i: nat, j: nat)
    requires Once(s) && i < j < |s|
    ensures s[i] != s[j]
  {
    assert s == s[..i] + [s[i]] + s[i + 1..j] + [s[j]] + s[j + 1..];
    assert multiset(s)[s[i]] <= 1;
  }

  /** A sorted listing of a map's transactions is its listing. */
  lemma SortedIsFlat(items: Items, s: seq<Tx>, r: seq<Tx>)
    requires Keyed(items) && Once(s) && multiset(r) == multiset(s) && Rising(r, (tx: Tx) => tx.nonce)
    requires forall i :: 0 <= i < |s| ==> s[i].nonce in items && items[s[i].nonce] == s[i]
    requires forall n :: n in items ==> items[n] in s
    ensures IsFlat(items, r)
  {
    forall i | 0 <= i < |r|
      ensures r[i].nonce in items && items[r[i].nonce] == r[i]
    {
      assert r[i] in multiset(r);
      assert r[i] in s;
    }
    forall i, j | 0 <= i < j < |r|
      ensures r[i].nonce < r[j].nonce
    {
      OnceDiffers(r, i, j);
      assert r[i].nonce <= r[j].nonce by {
        assert ((tx: Tx) => tx.nonce)(r[i]) <= ((tx: Tx) => tx.nonce)(r[j]);
      }
    }
    forall n
      ensures Lists(items, r, n)
    {
      if n in items {
        assert items[n] in multiset(s);
        assert items[n] in r;
      }
    }
  }

  /** `sort.Search` on a listing: the first entry with at least this nonce. */
  method Search(s: seq<Tx>, nonce: nat) returns (k: nat)
    requires Ascending(s)
    ensures CutsAt(s, nonce, k)
  {
    var i, j := 0, |s|;
    while i < j
      invariant 0 <= i <= j <= |s|
      invariant forall m :: 0 <= m < i ==> s[m].nonce < nonce
      invariant forall m :: j <= m < |s| ==> s[m].nonce >= nonce
    {
      var h := (i + j) / 2;
      if s[h].nonce < nonce { i := h + 1; } else { j := h; }
    }
    k := i;
  }

  /** Where a nonce is in a slice that has it. */
  method Position(s: seq<nat>, nonce: nat) returns (i: nat)
    requires nonce in s
    ensures i < |s| && s[i] == nonce
  {
    i := 0;
    while s[i] != nonce
      invariant i < |s| && nonce in s[i..]
      decreases |s| - i
    {
      i := i + 1;
    }
  }

  /** The nonces of a map, in no particular order. */
  method Keys(items: Items) returns (r: seq<nat>)
    ensures multiset(r) == multiset(items.Keys)
  {
    r := [];
    var rest := items.Keys;
    while rest != {}
      invariant rest <= items.Keys && multiset(r) + multiset(rest) == multiset(items.Keys)
      decreases |rest|
    {
      var n :| n in rest;
      r, rest := r + [n], rest - {n};
    }
  }

  /** The transactions of a map, in no particular order. */
  method Values(items: Items) returns (r: seq<Tx>)
    requires Keyed(items)
    ensures forall i :: 0 <= i < |r| ==> r[i].nonce in items && items[r[i].nonce] == r[i]
    ensures forall n :: n in items ==> items[n] in r
    ensures Once(r)
  {
    r := [];
    var rest := items.Keys;
    while rest != {}
      invariant rest <= items.Keys
      invariant forall i :: 0 <= i < |r| ==> r[i].nonce in items && items[r[i].nonce] == r[i] && r[i].nonce !in rest
      invariant forall n :: n in items && n !in rest ==> items[n] in r
      invariant Once(r)
      decreases |rest|
    {
      var n :| n in rest;
      r, rest := r + [items[n]], rest - {n};
    }
  }

  /** Consecutive nonces from the first one on, all of them in the map. */
  ghost predicate Consecutive(items: Items, run: seq<Tx>) {
    forall i :: 0 <= i < |run| ==> run[i].nonce == run[0].nonce + i && run[i].nonce in items && items[run[i].nonce] == run[i]
  }

  /** The maximal run of consecutive nonces that starts at the least one, if that is not above `start`. */
  ghost predicate ReadyRun(items: Items, start: nat, ready: seq<Tx>) {
    if forall n :: n in items ==> n > start then ready == []
    else
      && |ready| > 0 && ready[0].nonce <= start
      && (forall n :: n in items ==> ready[0].nonce <= n)
      && Consecutive(items, ready)
      && ready[0].nonce + |ready| !in items
  }

  /** What a run takes out of a map. */
  ghost function AfterRun(items: Items, ready: seq<Tx>): Items {
    if ready == [] then items else From(items, ready[0].nonce + |ready|)
  }

  /** A strict filter takes out the first match and, as invalid, everything above it. */
  ghost predicate StrictlyFiltered(was: Items, filter: Tx -> bool, now: Items, removed: seq<Tx>, invalid: seq<Tx>) {
    if forall n :: n in was ==> !filter(was[n]) then now == was && removed == [] && invalid == []
    else
      && |removed| == 1 && removed[0].nonce in was && was[removed[0].nonce] == removed[0] && filter(removed[0])
      && (forall n :: n in was && n < removed[0].nonce ==> !filter(was[n]))
      && now == Below(was, removed[0].nonce) && IsFlat(From(was, removed[0].nonce + 1), invalid)
  }

  /** A loose filter takes out every match, once. */
  ghost predicate LooselyFiltered(was: Items, filter: Tx -> bool, now: Items, removed: seq<Tx>) {
    && now == (map n | n in was && !filter(was[n]) :: was[n])
    && Once(removed) && (forall n :: n in was && filter(was[n]) ==> was[n] in removed)
    && (forall i :: 0 <= i < |removed| ==> removed[i].nonce in was && was[removed[i].nonce] == removed[i] && filter(removed[i]))
  }

  /** The transactions of a map under the given nonces. */
  ghost function Listing(items: Items, nonces: seq<nat>): (r: seq<Tx>)
    requires forall n :: n in nonces ==> n in items
    ensures |r| == |nonces| && forall k :: 0 <= k < |nonces| ==> r[k] == items[nonces[k]]
  {
    seq(|nonces|, k requires 0 <= k < |nonces| => items[nonces[k]])
  }

  /** Sorted keys of a set are its members, each once. */
  lemma SortedKeys(keys: set<nat>, nonces: seq<nat>)
    requires Rising(nonces, (n: nat) => n) && multiset(nonces) == multiset(keys)
    ensures |nonces| == |keys| && forall n :: n in nonces <==> n in keys
    ensures forall i, j :: 0 <= i < j < |nonces| ==> nonces[i] < nonces[j]
  {
    assert |multiset(nonces)| == |multiset(keys)|;
    assert forall n :: n in nonces <==> n in multiset(nonces);
    assert Once(nonces);
    forall i, j | 0 <= i < j < |nonces|
      ensures nonces[i] < nonces[j]
    {
      OnceDiffers(nonces, i, j);
      assert ((n: nat) => n)(nonces[i]) <= ((n: nat) => n)(nonces[j]);
    }
  }

  lemma ListingIsFlat(items: Items, nonces: seq<nat>)
    requires Keyed(items) && forall n :: n in nonces <==> n in items
    requires forall i, j :: 0 <= i < j < |nonces| ==> nonces[i] < nonces[j]
    ensures IsFlat(items, Listing(items, nonces))
  {
    var r := Listing(items, nonces);
    forall i | 0 <= i < |r|
      ensures r[i].nonce == nonces[i] && nonces[i] in items
    {
      assert nonces[i] in nonces;
    }
    forall n
      ensures Lists(items, r, n)
    {
      if n in items {
        assert n in nonces;
        var i :| 0 <= i < |nonces| && nonces[i] == n;
        assert r[i] == items[n];
      }
    }
  }

  /** The sorted heap gives the listing. */
  lemma SortedKeysList(items: Items, nonces: seq<nat>)
    requires Keyed(items) && Rising(nonces, (n: nat) => n) && multiset(nonces) == multiset(items.Keys)
    ensures |nonces| == |items| && (forall n :: n in nonces ==> n in items)
    ensures IsFlat(items, Listing(items, nonces))
  {
    SortedKeys(items.Keys, nonces);
    ListingIsFlat(items, nonces);
  }

  /** The last of a listing's first entries, and what is left without it. */
  lemma WithoutLast(items: Items, s: seq<Tx>)
    requires Keyed(items) && IsFlat(items, s) && |s| > 0
    ensures s[|s| - 1].nonce in items && items[s[|s| - 1].nonce] == s[|s| - 1]
    ensures IsFlat(items - {s[|s| - 1].nonce}, s[..|s| - 1])
  {
    FlatWithout(items, s, |s| - 1);
    assert s[..|s| - 1] + s[|s|..] == s[..|s| - 1];
  }

  lemma OneMore(keys: set<nat>, n: nat)
    requires n !in keys
    ensures multiset(keys + {n}) == multiset(keys) + multiset{n}
  {
  }

  lemma LessOne(keys: set<nat>, n: nat, index: seq<nat>)
    requires n in keys && multiset(index) + multiset{n} == multiset(keys)
    ensures multiset(index) == multiset(keys - {n})
  {
    assert multiset(keys - {n}) == multiset(keys) - multiset{n};
    assert multiset(index) == (multiset(index) + multiset{n}) - multiset{n};
  }

  class TxSortedMap {
    var items: Items
    var index: seq<nat>
    var cache: Option<seq<Tx>>

    ghost predicate IndexOk()
      reads this
    {
      Keyed(items) && Heap.IsHeap(index) && multiset(index) == multiset(items.Keys)
    }

    /** Heap and map hold the same nonces, and so does the cache unless the map is empty. */
    ghost predicate Valid()
      reads this
    {
      IndexOk() && (cache.Some? ==> IsFlat(items, cache.value) || items == map[])
    }

    /** The cache is right as well. */
    ghost predicate Sound()
      reads this
    {
      Valid() && (cache.Some? ==> IsFlat(items, cache.value))
    }

    constructor ()
      ensures Sound() && items == map[]
    {
      items, index, cache := map[], [], None;
    }

    method Get(nonce: nat) returns (tx: Option<Tx>)
      ensures tx == if nonce in items then Some(items[nonce]) else None
    {
      tx := if nonce in items then Some(items[nonce]) else None;
    }

    method Put(tx: Tx)
      requires Valid()
      modifies this
      ensures Sound() && items == old(items)[tx.nonce := tx]
    {
      if tx.nonce !in items {
        index := Heap.Push(index, tx.nonce);
        OneMore(items.Keys, tx.nonce);
      }
      items, cache := items[tx.nonce := tx], None;
      assert items.Keys == old(items).Keys + {tx.nonce};
    }

    /** Rebuilds the heap from the map. */
    method Reindex()
      requires Keyed(items)
      modifies this`index
      ensures IndexOk()
    {
      var keys := Keys(items);
      index := Heap.Init(keys);
    }

    /** Sorts the map's transactions unless that has been done. */
    method EnsureCache()
      requires Sound()
      modifies this`cache
      ensures Sound() && cache.Some? && IsFlat(items, cache.value)
    {
      if cache.None? {
        var txs := Values(items);
        var sorted := Sort(txs, (tx: Tx) => tx.nonce);
        SortedIsFlat(items, txs, sorted);
        cache := Some(sorted);
      }
    }

    method Flatten() returns (txs: seq<Tx>)
      requires Sound()
      modifies this`cache
      ensures Sound() && IsFlat(items, txs)
    {
      EnsureCache();
      txs := cache.value;
    }

    method Last() returns (tx: Tx)
      requires Sound() && items != map[]
      modifies this`cache
      ensures Sound() && tx.nonce in items && items[tx.nonce] == tx && forall n :: n in items ==> n <= tx.nonce
    {
      EnsureCache();
      FlatCount(items, cache.value);
      tx := cache.value[|cache.value| - 1];
      forall n | n in items
        ensures n <= tx.nonce
      {
        assert Lists(items, cache.value, n);
      }
    }

    /** Takes the least nonce off the heap and out of the map. */
    method PopLeast() returns (tx: Tx)
      requires IndexOk() && |index| > 0
      modifies this`index, this`items
      ensures IndexOk() && tx.nonce == old(index[0]) && tx.nonce in old(items) && old(items)[tx.nonce] == tx
      ensures items == old(items) - {tx.nonce} && |index| == |old(index)| - 1
      ensures forall n :: n in old(items) ==> tx.nonce <= n
    {
      LeastInIndex();
      var nonce;
      index, nonce := Heap.Pop(index);
      tx := items[nonce];
      items := items - {nonce};
      LessOne(old(items).Keys, nonce, index);
      assert items.Keys == old(items).Keys - {nonce};
    }

    /** The root of the heap is the least nonce of the map. */
    lemma LeastInIndex()
      requires IndexOk() && |index| > 0
      ensures index[0] in items && forall n :: n in items ==> index[0] <= n
    {
      assert index[0] in multiset(index);
      forall n | n in items
        ensures index[0] <= n
      {
        assert n in multiset(items.Keys);
        assert n in index;
        var i :| 0 <= i < |index| && index[i] == n;
        Heap.RootIsLeast(index, i);
      }
    }

    lemma IndexEmpty()
      requires IndexOk()
      ensures |index| == 0 <==> items == map[]
    {
      if |index| == 0 {
        assert |multiset(items.Keys)| == 0;
        assert items.Keys == {};
      } else {
        LeastInIndex();
      }
    }

    /** Takes out every transaction with a nonce under the threshold, in nonce order. */
    method Forward(threshold: nat) returns (removed: seq<Tx>)
      requires Valid()
      modifies this
      ensures Valid() && (old(Sound()) ==> Sound())
      ensures items == From(old(items), threshold) && IsFlat(Below(old(items), threshold), removed)
    {
      removed := [];
      ghost var cut: nat := 0;
      assert Below(items, 0) == map[] && From(items, 0) == items;
      while |index| > 0 && index[0] < threshold
        invariant IndexOk() && cache == old(cache) && cut <= threshold
        invariant items == From(old(items), cut) && IsFlat(Below(old(items), cut), removed)
        decreases |index|
      {
        ghost var before := items;
        var tx := PopLeast();
        assert forall n :: n in old(items) && n >= cut ==> n in before;
        TookLeast(old(items), cut, removed, tx);
        removed := removed + [tx];
        cut := tx.nonce + 1;
      }
      RestIsAbove(old(items), cut, threshold, removed);
      if cache.Some? {
        CachePrefix(old(items), cache.value, threshold, removed);
        cache := Some(cache.value[|removed|..]);
      }
    }

    /** Having taken the least nonce left, the next cut is just above it. */
    lemma TookLeast(was: Items, cut: nat, removed: seq<Tx>, tx: Tx)
      requires Keyed(was) && IsFlat(Below(was, cut), removed)
      requires tx.nonce >= cut && tx.nonce in was && was[tx.nonce] == tx
      requires forall n :: n in was && n >= cut ==> tx.nonce <= n
      ensures IsFlat(Below(was, tx.nonce + 1), removed + [tx])
      ensures From(was, tx.nonce + 1) == From(was, cut) - {tx.nonce}
    {
      var up, r := Below(was, tx.nonce + 1), removed + [tx];
      forall n
        ensures Lists(up, r, n)
      {
        assert Lists(Below(was, cut), removed, n);
      }
    }

    lemma RestIsAbove(was: Items, cut: nat, threshold: nat, removed: seq<Tx>)
      requires IndexOk() && items == From(was, cut) && cut <= threshold && IsFlat(Below(was, cut), removed)
      requires |index| > 0 ==> index[0] >= threshold
      ensures items == From(was, threshold) && IsFlat(Below(was, threshold), removed)
    {
      IndexEmpty();
      if |index| > 0 { LeastInIndex(); }
      assert forall n :: n in was && n >= cut ==> n in items;
      assert Below(was, threshold) == Below(was, cut);
    }

    /** What the heap gave up first is the front of the cache. */
    lemma CachePrefix(was: Items, s: seq<Tx>, threshold: nat, removed: seq<Tx>)
      requires Keyed(was) && IsFlat(Below(was, threshold), removed) && (IsFlat(was, s) || was == map[])
      ensures |removed| <= |s| && (was == map[] ==> removed == [])
      ensures IsFlat(was, s) ==> IsFlat(From(was, threshold), s[|removed|..])
    {
      FlatCount(Below(was, threshold), removed);
      if IsFlat(was, s) {
        var k := FindCut(s, threshold);
        FlatBelow(was, s, threshold, k);
        FlatFrom(was, s, threshold, k);
        FlatIsUnique(Below(was, threshold), s[..k], removed);
      }
    }

    /**
     Takes out the run of consecutive nonces that starts at the least one.
     A cached listing that the run uses up entirely is left behind as it was.
     */
    method Ready(start: nat) returns (ready: seq<Tx>)
      requires Valid()
      modifies this
      ensures Valid() && ReadyRun(old(items), start, ready) && items == AfterRun(old(items), ready)
      ensures old(Sound()) ==> (Sound() <==> old(cache).None? || ready == [] || items != map[])
    {
      IndexEmpty();
      if |index| > 0 { LeastInIndex(); }
      if |index| == 0 || index[0] > start {
        return [];
      }
      if cache.None? {
        ready := ReadyHeap();
      } else {
        ready := ReadyCache();
      }
    }

    /** The run taken off the heap. */
    method ReadyHeap() returns (ready: seq<Tx>)
      requires IndexOk() && cache.None? && |index| > 0
      modifies this`items, this`index
      ensures IndexOk() && |ready| > 0 && ReadyRun(old(items), ready[0].nonce, ready) && items == AfterRun(old(items), ready)
    {
      ready := [];
      LeastInIndex();
      ghost var first := index[0];
      var next := index[0];
      assert From(items, first) == items;
      while |index| > 0 && index[0] == next
        invariant IndexOk() && next == first + |ready| && items == From(old(items), next)
        invariant forall i :: 0 <= i < |ready| ==> ready[i].nonce == first + i && ready[i].nonce in old(items) && old(items)[ready[i].nonce] == ready[i]
        invariant |ready| == 0 ==> |index| > 0 && index[0] == next
        decreases |index|
      {
        var tx := PopLeast();
        ready := ready + [tx];
        next := next + 1;
        assert items == From(old(items), next);
      }
      IndexEmpty();
      if |index| > 0 { LeastInIndex(); }
      assert next !in items;
    }

    /** The run read off the cache. */
    method ReadyCache() returns (ready: seq<Tx>)
      requires Valid() && cache.Some? && |index| > 0
      modifies this
      ensures Valid() && |ready| > 0 && ReadyRun(old(items), ready[0].nonce, ready) && items == AfterRun(old(items), ready)
      ensures Sound() <==> items != map[]
    {
      IndexEmpty();
      var s := cache.value;
      FlatCount(items, s);
      FirstIsLeast(items, s);
      var i := TakeRun(s);
      RunEnds(old(items), s, i);
      ready := s[..i];
      if i < |s| {
        cache := Some(s[i..]);
      }
      Reindex();
    }

    /** Deletes the consecutive nonces at the front of the listing from the map. */
    method TakeRun(s: seq<Tx>) returns (i: nat)
      requires Keyed(items) && IsFlat(items, s) && |s| > 0
      modifies this`items
      ensures 0 < i <= |s| && (i < |s| ==> s[i].nonce != s[0].nonce + i)
      ensures forall k :: 0 <= k < i ==> s[k].nonce == s[0].nonce + k
      ensures items == From(old(items), s[0].nonce + i)
    {
      FirstIsLeast(items, s);
      var next := s[0].nonce;
      i := 0;
      assert From(items, next) == items;
      while i < |s| && s[i].nonce == next
        invariant i <= |s| && next == s[0].nonce + i
        invariant items == From(old(items), next)
        invariant forall k :: 0 <= k < i ==> s[k].nonce == s[0].nonce + k
      {
        items := items - {s[i].nonce};
        next := next + 1;
        i := i + 1;
        assert items == From(old(items), next);
      }
    }

    /** Where the run stops, the rest of the listing begins. */
    lemma RunEnds(was: Items, s: seq<Tx>, i: nat)
      requires Keyed(was) && IsFlat(was, s) && 0 < i <= |s|
      requires forall k :: 0 <= k < i ==> s[k].nonce == s[0].nonce + k
      requires i < |s| ==> s[i].nonce != s[0].nonce + i
      ensures s[0].nonce + i !in was && IsFlat(From(was, s[0].nonce + i), s[i..])
      ensures i == |s| <==> From(was, s[0].nonce + i) == map[]
    {
      assert s[i - 1].nonce == s[0].nonce + i - 1;
      assert i < |s| ==> s[i].nonce > s[i - 1].nonce;
      FlatFrom(was, s, s[0].nonce + i, i);
      assert Lists(was, s, s[0].nonce + i);
      FlatCount(From(was, s[0].nonce + i), s[i..]);
    }

    /** Deletes the back of the listing from the map. */
    method DropFrom(s: seq<Tx>, i: nat)
      requires Keyed(items) && IsFlat(items, s) && i <= |s|
      modifies this`items
      ensures Keyed(items) && IsFlat(items, s[..i])
      ensures items == if i < |s| then Below(old(items), s[i].nonce) else old(items)
    {
      assert s == s[..i] + s[i..];
      for j := i to |s|
        invariant Keyed(items) && IsFlat(items, s[..i] + s[j..]) && (i == |s| ==> items == old(items))
      {
        DropOne(items, s, i, j);
        items := items - {s[j].nonce};
      }
      assert s[..i] + s[|s|..] == s[..i];
      if i < |s| {
        FlatBelow(old(items), s, s[i].nonce, i);
        FlatDetermines(items, Below(old(items), s[i].nonce), s[..i]);
      }
    }

    lemma DropOne(was: Items, s: seq<Tx>, i: nat, j: nat)
      requires i <= j < |s| && Keyed(was) && IsFlat(was, s[..i] + s[j..])
      ensures IsFlat(was - {s[j].nonce}, s[..i] + s[j + 1..])
    {
      var t := s[..i] + s[j..];
      FlatWithout(was, t, i);
      assert t[i] == s[j] && t[..i] + t[i + 1..] == s[..i] + s[j + 1..];
    }

    method FilterStrict(filter: Tx -> bool) returns (removed: seq<Tx>, invalid: seq<Tx>)
      requires Sound()
      modifies this
      ensures Sound() && StrictlyFiltered(old(items), filter, items, removed, invalid)
    {
      removed, invalid := [], [];
      EnsureCache();
      var s := cache.value;
      var i := 0;
      while i < |s| && !filter(s[i])
        invariant i <= |s| && forall j :: 0 <= j < i ==> !filter(s[j])
      {
        i := i + 1;
      }
      Unmatched(s, filter, i);
      if i < |s| {
        FlatFrom(items, s, s[i].nonce + 1, i + 1);
        DropFrom(s, i);
        removed, invalid := [s[i]], s[i + 1..];
        cache := Some(s[..i]);
        Reindex();
      }
    }

    lemma Unmatched(s: seq<Tx>, filter: Tx -> bool, i: nat)
      requires Keyed(items) && IsFlat(items, s) && i <= |s| && forall j :: 0 <= j < i ==> !filter(s[j])
      ensures i == |s| ==> forall n :: n in items ==> !filter(items[n])
      ensures i < |s| ==> forall n :: n in items && n < s[i].nonce ==> !filter(items[n])
    {
      forall n | n in items && (i < |s| ==> n < s[i].nonce)
        ensures !filter(items[n])
      {
        assert Lists(items, s, n);
        var j :| 0 <= j < |s| && s[j] == items[n];
      }
    }

    /** Deletes every match from the map, in whatever order the map is walked. */
    method Sift(filter: Tx -> bool) returns (removed: seq<Tx>)
      requires Keyed(items)
      modifies this`items
      ensures LooselyFiltered(old(items), filter, items, removed)
    {
      removed := [];
      var rest := items.Keys;
      while rest != {}
        invariant rest <= items.Keys <= old(items).Keys
        invariant forall n :: n in items ==> items[n] == old(items)[n]
        invariant forall n :: n in old(items) && n !in rest ==> (n in items <==> !filter(old(items)[n]))
        invariant Once(removed) && forall n :: n in old(items) && n !in items ==> old(items)[n] in removed
        invariant forall i :: 0 <= i < |removed| ==>
          removed[i].nonce in old(items) && removed[i].nonce !in items && old(items)[removed[i].nonce] == removed[i] && filter(removed[i])
        decreases |rest|
      {
        var n :| n in rest;
        rest := rest - {n};
        if filter(items[n]) {
          removed := removed + [items[n]];
          items := items - {n};
        }
      }
    }

    method FilterLoose(filter: Tx -> bool) returns (removed: seq<Tx>)
      requires Valid()
      modifies this
      ensures Valid() && (old(Sound()) ==> Sound()) && LooselyFiltered(old(items), filter, items, removed)
    {
      removed := Sift(filter);
      if removed != [] {
        Reindex();
        cache := None;
      } else {
        assert items == old(items);
      }
    }

    /** Takes out the highest `n` transactions, in nonce order. */
    method ForLast(n: nat) returns (removed: seq<Tx>)
      requires Sound()
      modifies this
      ensures Sound() && |removed| == (if n < |old(items)| then n else |old(items)|)
      ensures removed == [] ==> items == old(items)
      ensures removed != [] ==> items == Below(old(items), removed[0].nonce) && IsFlat(From(old(items), removed[0].nonce), removed)
    {
      EnsureCache();
      var s := cache.value;
      FlatCount(items, s);
      var i := if |s| - n < 0 then 0 else |s| - n;
      if i < |s| { FlatFrom(items, s, s[i].nonce, i); }
      removed := s[i..];
      DropFrom(s, i);
      cache := Some(s[..i]);
      Reindex();
    }

    /** Takes out one nonce; in strict mode everything above it as well. */
    method Remove(nonce: nat, strict: bool) returns (ok: bool, invalid: seq<Tx>)
      requires Valid()
      modifies this
      ensures Valid() && (old(Sound()) ==> Sound())
      ensures ok <==> nonce in old(items)
      ensures !ok ==> items == old(items) && invalid == []
      ensures ok && !strict ==> items == old(items) - {nonce} && invalid == []
      ensures ok && strict ==> items == Below(old(items), nonce) && IsFlat(From(old(items), nonce + 1), invalid)
    {
      if nonce !in items {
        return false, [];
      }
      ok, invalid := true, [];
      EnsureCache();
      var s := cache.value;
      var i := Search(s, nonce);
      Found(s, nonce, i);
      if !strict {
        FlatWithout(items, s, i);
        items := items - {nonce};
        cache := Some(s[..i] + s[i + 1..]);
        Unindex(nonce);
      } else {
        FlatFrom(items, s, nonce + 1, i + 1);
        DropFrom(s, i);
        invalid := s[i + 1..];
        cache := Some(s[..i]);
        Reindex();
      }
    }

    lemma Found(s: seq<Tx>, nonce: nat, i: nat)
      requires Keyed(items) && IsFlat(items, s) && nonce in items && CutsAt(s, nonce, i)
      ensures i < |s| && s[i].nonce == nonce
    {
      assert Lists(items, s, nonce);
      var j :| 0 <= j < |s| && s[j] == items[nonce];
    }

    /** Finds a nonce in the heap by scanning it, and removes it. */
    method Unindex(nonce: nat)
      requires Heap.IsHeap(index) && nonce !in items && multiset(index) == multiset(items.Keys + {nonce})
      requires Keyed(items)
      modifies this`index
      ensures IndexOk()
    {
      assert nonce in multiset(index);
      var i := Position(index, nonce);
      index := Heap.Remove(index, i);
      LessOne(items.Keys + {nonce}, nonce, index);
      assert items.Keys + {nonce} - {nonce} == items.Keys;
    }

    /** Keeps the lowest nonces up to a limit; the others are given back highest first. */
    method Cap(threshold: nat) returns (removed: seq<Tx>)
      requires Valid()
      modifies this
      ensures Valid() && (old(Sound()) ==> Sound())
      ensures |old(items)| <= threshold ==> items == old(items) && removed == []
      ensures |old(items)| > threshold ==> |items| == threshold && |removed| == |old(items)| - threshold
      ensures |old(items)| > threshold ==> var lowest := removed[|removed| - 1].nonce;
        items == Below(old(items), lowest) && IsFlat(From(old(items), lowest), Reversed(removed))
    {
      removed := [];
      if |items| <= threshold {
        return;
      }
      index := Sort(index, (n: nat) => n);
      SortedKeysList(items, index);
      ghost var s := Listing(items, index);
      removed := DropTop(threshold, s);
      Capped(old(items), items, s, threshold, removed);
      index := Heap.Init(index[..threshold]);
      if cache.Some? {
        FlatIsUnique(old(items), s, cache.value);
        cache := Some(cache.value[..|cache.value| - |removed|]);
      }
    }

    /** Deletes the highest nonces, which the sorted heap has at its end. */
    method DropTop(threshold: nat, ghost s: seq<Tx>) returns (removed: seq<Tx>)
      requires Keyed(items) && multiset(index) == multiset(items.Keys) && |index| == |s| == |items| && threshold < |items|
      requires IsFlat(items, s) && forall k :: 0 <= k < |s| ==> s[k].nonce == index[k]
      modifies this`items
      ensures Keyed(items) && multiset(index[..threshold]) == multiset(items.Keys)
      ensures IsFlat(items, s[..threshold]) && removed == Reversed(s[threshold..])
    {
      removed := [];
      var size := |items|;
      assert index[..size] == index && s[..size] == s;
      while size > threshold
        invariant threshold <= size <= |s| && Keyed(items)
        invariant multiset(index[..size]) == multiset(items.Keys)
        invariant IsFlat(items, s[..size]) && removed == Reversed(s[size..])
      {
        TopOff(items, index[..size], s[..size]);
        OneMoreReversed(s, size - 1);
        assert s[..size][..size - 1] == s[..size - 1] && index[..size][..size - 1] == index[..size - 1];
        removed := removed + [items[index[size - 1]]];
        items := items - {index[size - 1]};
        size := size - 1;
      }
    }

    /** The highest nonce of a list, last in the sorted heap, is taken off. */
    lemma TopOff(items: Items, index: seq<nat>, s: seq<Tx>)
      requires Keyed(items) && multiset(index) == multiset(items.Keys) && |index| == |s| > 0
      requires IsFlat(items, s) && forall k :: 0 <= k < |s| ==> s[k].nonce == index[k]
      ensures var n, less := |s| - 1, items - {index[|s| - 1]};
        && index[n] in items && items[index[n]] == s[n]
        && Keyed(less) && multiset(index[..n]) == multiset(less.Keys) && IsFlat(less, s[..n])
    {
      var n := |s| - 1;
      WithoutLast(items, s);
      assert index == index[..n] + [index[n]];
      LessOne(items.Keys, index[n], index[..n]);
      assert (items - {index[n]}).Keys == items.Keys - {index[n]};
    }

    lemma OneMoreReversed(s: seq<Tx>, n: nat)
      requires n < |s|
      ensures Reversed(s[n..]) == Reversed(s[n + 1..]) + [s[n]]
    {
      assert s[n..][1..] == s[n + 1..];
    }

    lemma Capped(was: Items, now: Items, s: seq<Tx>, threshold: nat, removed: seq<Tx>)
      requires Keyed(was) && Keyed(now) && IsFlat(was, s) && threshold < |s| && IsFlat(now, s[..threshold])
      requires removed == Reversed(s[threshold..])
      ensures |now| == threshold && |removed| == |s| - threshold && |s| == |was|
      ensures removed[|removed| - 1] == s[threshold]
      ensures now == Below(was, s[threshold].nonce) && IsFlat(From(was, s[threshold].nonce), Reversed(removed))
    {
      FlatCount(now, s[..threshold]);
      FlatCount(was, s);
      FlatBelow(was, s, s[threshold].nonce, threshold);
      FlatFrom(was, s, s[threshold].nonce, threshold);
      FlatDetermines(now, Below(was, s[threshold].nonce), s[..threshold]);
      assert Reversed(removed) == s[threshold..];
    }
  }
}
