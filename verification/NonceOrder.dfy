/**
 Transactions, and the plain nonce-to-transaction maps that the pool's lists stand
 for, listed in nonce order.
 */
module NonceOrder {

  datatype Tx = Tx(hash: nat, from: nat, nonce: nat, price: nat, gas: nat, value: nat) {
    /** The most the transaction can take from its sender. */
    function Cost(): nat {
      price * gas + value
    }
  }

  type Items = map<nat, Tx>

  ghost predicate Keyed(items: Items) {
    forall n :: n in items ==> items[n].nonce == n
  }

  ghost predicate Ascending(s: seq<Tx>) {
    forall i, j :: 0 <= i < j < |s| ==> s[i].nonce < s[j].nonce
  }

  ghost predicate Lists(items: Items, s: seq<Tx>, n: nat) {
    n in items ==> items[n] in s
  }

  /** `s` lists the map's transactions in nonce order. */
  ghost predicate IsFlat(items: Items, s: seq<Tx>) {
    && Ascending(s)
    && (forall i :: 0 <= i < |s| ==> s[i].nonce in items && items[s[i].nonce] == s[i])
    && (forall n {:trigger Lists(items, s, n)} :: Lists(items, s, n))
  }

  function Below(items: Items, nonce: nat): Items {
    map n | n in items && n < nonce :: items[n]
  }

  function From(items: Items, nonce: nat): Items {
    map n | n in items && n >= nonce :: items[n]
  }

  /** `k` entries of the listing have nonces under `nonce`. */
  ghost predicate CutsAt(s: seq<Tx>, nonce: nat, k: nat) {
    k <= |s| && forall i :: 0 <= i < |s| ==> (s[i].nonce < nonce <==> i < k)
  }

  /** Cutting the listing at a nonce cuts the map there: the part below. */
  lemma FlatBelow(items: Items, s: seq<Tx>, nonce: nat, k: nat)
    requires Keyed(items) && IsFlat(items, s) && CutsAt(s, nonce, k)
    ensures IsFlat(Below(items, nonce), s[..k])
  {
    forall n
      ensures Lists(Below(items, nonce), s[..k], n)
    {
      assert Lists(items, s, n);
      if n in Below(items, nonce) {
        var i :| 0 <= i < |s| && s[i] == items[n];
        assert s[..k][i] == s[i];
      }
    }
  }

  /** The part from the nonce on. */
  lemma FlatFrom(items: Items, s: seq<Tx>, nonce: nat, k: nat)
    requires Keyed(items) && IsFlat(items, s) && CutsAt(s, nonce, k)
    ensures IsFlat(From(items, nonce), s[k..])
  {
    forall n
      ensures Lists(From(items, nonce), s[k..], n)
    {
      assert Lists(items, s, n);
      if n in From(items, nonce) {
        var i :| 0 <= i < |s| && s[i] == items[n];
        assert s[k..][i - k] == s[i];
      }
    }
  }

  /** Every nonce cuts the listing somewhere. */
  lemma FindCut(s: seq<Tx>, nonce: nat) returns (k: nat)
    requires Ascending(s)
    ensures CutsAt(s, nonce, k)
  {
    k := 0;
    while k < |s| && s[k].nonce < nonce
      invariant k <= |s| && forall i :: 0 <= i < k ==> s[i].nonce < nonce
    {
      k := k + 1;
    }
  }

  lemma FirstIsLeast(items: Items, s: seq<Tx>)
    requires Keyed(items) && IsFlat(items, s) && |s| > 0
    ensures s[0].nonce in items && forall n :: n in items ==> s[0].nonce <= n
  {
    forall n | n in items
      ensures s[0].nonce <= n
    {
      assert Lists(items, s, n);
    }
  }

  /** The listing after its first entry. */
  lemma FlatTail(items: Items, s: seq<Tx>)
    requires Keyed(items) && IsFlat(items, s) && |s| > 0
    ensures IsFlat(From(items, s[0].nonce + 1), s[1..])
    ensures |items| == |From(items, s[0].nonce + 1)| + 1
  {
    FlatFrom(items, s, s[0].nonce + 1, 1);
    FirstIsLeast(items, s);
    LeastApart(items, s[0].nonce);
  }

  lemma SameFirst(items: Items, s: seq<Tx>, t: seq<Tx>)
    requires Keyed(items) && IsFlat(items, s) && IsFlat(items, t) && |s| > 0 && |t| > 0
    ensures s[0] == t[0]
  {
    FirstIsLeast(items, s);
    FirstIsLeast(items, t);
  }

  /** A listing has as many entries as the map. */
  lemma {:induction false} FlatCount(items: Items, s: seq<Tx>)
    requires Keyed(items) && IsFlat(items, s)
    ensures |s| == |items|
    decreases |s|
  {
    if s == [] {
      EmptyListing(items, s);
    } else {
      FlatTail(items, s);
      FlatCount(From(items, s[0].nonce + 1), s[1..]);
    }
  }

  lemma EmptyListing(items: Items, s: seq<Tx>)
    requires IsFlat(items, s) && s == []
    ensures |items| == 0
  {
    forall n
      ensures n !in items
    {
      assert Lists(items, s, n);
    }
    assert items == map[];
  }

  lemma LeastApart(items: Items, least: nat)
    requires least in items && forall n :: n in items ==> least <= n
    ensures |items| == |From(items, least + 1)| + 1
  {
    assert items.Keys == From(items, least + 1).Keys + {least};
  }

  /** The listing of a map is unique. */
  lemma {:induction false} FlatIsUnique(items: Items, s: seq<Tx>, t: seq<Tx>)
    requires Keyed(items) && IsFlat(items, s) && IsFlat(items, t)
    ensures s == t
    decreases |s|
  {
    FlatCount(items, s);
    FlatCount(items, t);
    if |s| == 0 {
    } else {
      SameFirst(items, s, t);
      FlatTail(items, s);
      FlatTail(items, t);
      FlatIsUnique(From(items, s[0].nonce + 1), s[1..], t[1..]);
      assert s == [s[0]] + s[1..] && t == [t[0]] + t[1..];
    }
  }

  /** Taking one transaction out of the listing takes it out of the map. */
  lemma FlatWithout(items: Items, s: seq<Tx>, i: nat)
    requires Keyed(items) && IsFlat(items, s) && i < |s|
    ensures IsFlat(items - {s[i].nonce}, s[..i] + s[i + 1..])
  {
    var t := s[..i] + s[i + 1..];
    WithoutAscends(s, i);
    forall n
      ensures Lists(items - {s[i].nonce}, t, n)
    {
      assert Lists(items, s, n);
      if n in items - {s[i].nonce} {
        var j :| 0 <= j < |s| && s[j] == items[n];
        assert t[if j < i then j else j - 1] == s[j];
      }
    }
  }

  lemma WithoutAscends(s: seq<Tx>, i: nat)
    requires Ascending(s) && i < |s|
    ensures Ascending(s[..i] + s[i + 1..])
    ensures forall j {:trigger (s[..i] + s[i + 1..])[j]} :: 0 <= j < |s| - 1 ==>
      (s[..i] + s[i + 1..])[j] == s[if j < i then j else j + 1]
  {
  }

  /** A listing determines its map. */
  lemma FlatDetermines(a: Items, b: Items, s: seq<Tx>)
    requires Keyed(a) && Keyed(b) && IsFlat(a, s) && IsFlat(b, s)
    ensures a == b
  {
    forall n
      ensures n in a <==> n in b
      ensures n in a ==> n in b && a[n] == b[n]
    {
      assert Lists(a, s, n) && Lists(b, s, n);
    }
  }

  function Reversed(s: seq<Tx>): (r: seq<Tx>)
    ensures |r| == |s| && forall i :: 0 <= i < |s| ==> r[i] == s[|s| - 1 - i]
  {
    seq(|s|, i requires 0 <= i < |s| => s[|s| - 1 - i])
  }
}
