/**
 Account balances and their total.
 */
module Balances {
  type Balances = map<nat, nat>

  /** All wei there is. */
  ghost function Sum(m: Balances): nat
    decreases |m|
  {
    if m == map[] then 0
    else
      var a: nat :| a in m;
      Fewer(m, a);
      m[a] + Sum(m - {a})
  }

  lemma Fewer(m: Balances, a: nat)
    requires a in m
    ensures |m - {a}| < |m|
  {
    assert (m - {a}).Keys == m.Keys - {a};
  }

  /** The total does not depend on the order of counting. */
  lemma {:induction false} SumWithout(m: Balances, a: nat)
    requires a in m
    ensures Sum(m) == m[a] + Sum(m - {a})
    decreases |m|
  {
    var b: nat :| b in m && Sum(m) == m[b] + Sum(m - {b});
    if a == b {
    } else {
      Fewer(m, b);
      SumWithout(m - {b}, a);
      Fewer(m, a);
      SumWithout(m - {a}, b);
      assert m - {b} - {a} == m - {a} - {b};
    }
  }

  function Of(m: Balances, a: nat): nat {
    if a in m then m[a] else 0
  }

  /** Changing one balance changes the total by the difference. */
  lemma SumUpdate(m: Balances, a: nat, v: nat)
    ensures Sum(m[a := v]) + Of(m, a) == Sum(m) + v
  {
    SumWithout(m[a := v], a);
    assert m[a := v] - {a} == m - {a};
    if a in m { SumWithout(m, a); } else { assert m - {a} == m; }
  }

  /** The balances of some accounts only. */
  function Among(m: Balances, accounts: set<nat>): Balances {
    map a | a in m && a in accounts :: m[a]
  }

  /** Taking accounts away takes just their balances from the total. */
  lemma {:induction false} SumSplit(m: Balances, accounts: set<nat>)
    ensures Sum(m) == Sum(m - accounts) + Sum(Among(m, accounts))
    decreases |m|
  {
    if a :| a in m && a in accounts {
      Fewer(m, a);
      SumSplit(m - {a}, accounts);
      SumWithout(m, a);
      SumWithout(Among(m, accounts), a);
      assert Among(m - {a}, accounts) == Among(m, accounts) - {a};
      assert m - {a} - accounts == m - accounts;
    } else {
      assert m - accounts == m && Among(m, accounts) == map[];
    }
  }

  lemma {:induction false} SumAtLeast(m: Balances, a: nat)
    ensures Sum(m) >= Of(m, a)
  {
    if a in m { SumWithout(m, a); }
  }

  /** The total is zero exactly if every balance is. */
  lemma {:induction false} SumZero(m: Balances)
    ensures Sum(m) == 0 <==> forall a :: a in m ==> m[a] == 0
    decreases |m|
  {
    if m == map[] {
    } else {
      var a: nat :| a in m;
      Fewer(m, a);
      SumWithout(m, a);
      SumZero(m - {a});
      forall b | b in m
        ensures Sum(m) >= m[b]
      {
        SumAtLeast(m, b);
      }
    }
  }
}
