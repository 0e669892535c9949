/**
 The weighted random selection tree: an 8-ary tree of running sums whose leaves
 are numbered places, and the item index kept beside it.
 */
module WeightedSelect {
  import opened Basics
  import opened WrsFlat

  const BRANCHES: nat := 8

  /** The number of places below one branch of a node. */
  function Cap(level: nat): (c: nat)
    ensures c > 0
  {
    if level == 0 then 1 else BRANCHES * Cap(level - 1)
  }

  datatype Slot<I> = Nil | Item(item: I) | Sub(node: WrsNode<I>)

  /** What a node of the given level says about itself, given what lies below each branch. */
  ghost predicate Consistent<I>(level: nat, maxItems: nat, itemCnt: nat, sumWeight: int, weights: seq<int>,
      parts: seq<Flat<I>>) {
    && |weights| == BRANCHES && |parts| == BRANCHES && EachLong(parts, Cap(level))
    && maxItems == BRANCHES * Cap(level)
    && Positive(Join(parts))
    && sumWeight == Total(Join(parts)) && itemCnt == Count(Join(parts))
    && forall i :: 0 <= i < BRANCHES ==> weights[i] == Total(parts[i])
  }

  /** Recording one new entry keeps all running figures right. */
  lemma EntryChanged<I>(level: nat, maxItems: nat, itemCnt: nat, sumWeight: int, weights: seq<int>, parts: seq<Flat<I>>,
                        b: nat, j: nat, e: Option<Entry<I>>, diff: int, more: int)
    requires Consistent(level, maxItems, itemCnt, sumWeight, weights, parts)
    requires b < BRANCHES && j < Cap(level) && (e.Some? ==> e.value.weight > 0)
    requires diff == WeightAt(e) - WeightAt(parts[b][j])
    requires more == (if e.Some? then 1 else 0) - (if parts[b][j].Some? then 1 else 0)
    ensures itemCnt + more >= 0
    ensures Consistent(level, maxItems, itemCnt + more, sumWeight + diff, weights[b := weights[b] + diff], parts[b := parts[b][j := e]])
  {
    JoinUpdate(parts, Cap(level), b, j, e);
    TotalUpdate(Join(parts), b * Cap(level) + j, e);
    TotalUpdate(parts[b], j, e);
  }

  /** Where the change shows in the whole row. */
  lemma EntryPlace<I>(level: nat, parts: seq<Flat<I>>, b: nat, j: nat, e: Option<Entry<I>>, at: nat)
    requires |parts| == BRANCHES && EachLong(parts, Cap(level)) && b < BRANCHES && j < Cap(level)
    requires at == b * Cap(level) + j
    ensures at < |Join(parts)| == BRANCHES * Cap(level) && Join(parts)[at] == parts[b][j]
    ensures Join(parts[b := parts[b][j := e]]) == Join(parts)[at := e]
    ensures (forall i :: 0 <= i < b ==> Count(parts[i]) == Cap(level)) && LowestFree(parts[b], j) ==> LowestFree(Join(parts), at)
  {
    JoinUpdate(parts, Cap(level), b, j, e);
    if (forall i :: 0 <= i < b ==> Count(parts[i]) == Cap(level)) && LowestFree(parts[b], j) {
      JoinLowestFree(parts, Cap(level), b, j);
    }
  }

  /** Below capacity some branch has room. */
  lemma SomeRoom<I>(level: nat, parts: seq<Flat<I>>)
    requires |parts| == BRANCHES && EachLong(parts, Cap(level)) && Count(Join(parts)) < BRANCHES * Cap(level)
    ensures exists b :: 0 <= b < BRANCHES && Count(parts[b]) < Cap(level)
  {
    if forall b :: 0 <= b < BRANCHES ==> Count(parts[b]) >= Cap(level) {
      JoinLength(parts, Cap(level));
      FullJoin(parts, Cap(level));
      FullMeaning(Join(parts));
    }
  }

  /** What the slots hold agrees with what lies below them. */
  ghost predicate SlotsFit<I>(items: seq<Slot<I>>, parts: seq<Flat<I>>, level: nat) {
    && |items| == BRANCHES && |parts| == BRANCHES
    && forall i :: 0 <= i < BRANCHES ==>
         match items[i]
         case Nil => parts[i] == Empty(Cap(level))
         case Item(x) => level == 0 && |parts[i]| == 1 && parts[i][0].Some? && parts[i][0].value.item == x
         case Sub(_) => level > 0
  }

  /** Changing the weight of an item on the lowest level, or taking it out. */
  lemma SlotSet<I>(items: seq<Slot<I>>, parts: seq<Flat<I>>, b: nat, weight: int)
    requires SlotsFit(items, parts, 0) && b < BRANCHES && |parts[b]| == 1 && parts[b][0].Some?
    ensures SlotsFit(if weight == 0 then items[b := Nil] else items, parts[b := parts[b][0 := Reweighted(parts[b][0], weight)]], 0)
  {
    assert weight == 0 ==> parts[b][0 := None] == Empty(1);
  }

  /** A change below a slot that holds a subtree. */
  lemma SlotSub<I>(items: seq<Slot<I>>, parts: seq<Flat<I>>, level: nat, b: nat, part: Flat<I>)
    requires SlotsFit(items, parts, level) && b < BRANCHES && items[b].Sub?
    ensures SlotsFit(items, parts[b := part], level)
  {
  }

  class WrsNode<I> {
    var items: seq<Slot<I>>
    var weights: seq<int>
    var sumWeight: int
    var level: nat
    var itemCnt: nat
    var maxItems: nat
    /** What lies below each branch. */
    ghost var parts: seq<Flat<I>>
    ghost var Repr: set<object>

    /** All places below this node, in index order. */
    ghost function Contents(): Flat<I>
      reads this
    {
      Join(parts)
    }

    ghost predicate SlotsOk()
      reads this
    {
      SlotsFit(items, parts, level)
    }

    /** The child below branch `i` is a sound tree of the next lower level. */
    ghost predicate ChildOk(i: nat)
      requires this in Repr && i < |items| && items[i].Sub?
      reads this, Repr
      decreases Repr, 0
    {
      var n := items[i].node;
      && n in Repr && n.Repr <= Repr && this !in n.Repr
      && n.Valid() && n.level + 1 == level
    }

    ghost predicate Valid()
      reads this, Repr
      ensures Valid() ==> this in Repr
      decreases Repr, 1
    {
      && this in Repr
      && Consistent(level, maxItems, itemCnt, sumWeight, weights, parts)
      && SlotsOk()
      && (forall i :: 0 <= i < BRANCHES && items[i].Sub? ==> ChildOk(i) && items[i].node.Contents() == parts[i])
      && (forall i, j :: 0 <= i < j < BRANCHES && items[i].Sub? && items[j].Sub? ==> items[i].node.Repr !! items[j].node.Repr)
    }

    constructor (level: nat, maxItems: nat)
      requires maxItems == BRANCHES * Cap(level)
      ensures Valid() && fresh(Repr) && this.level == level && this.maxItems == maxItems && itemCnt == 0
      ensures Contents() == Empty(maxItems)
    {
      items := seq(BRANCHES, _ => Nil);
      weights := seq(BRANCHES, _ => 0);
      sumWeight, itemCnt := 0, 0;
      this.level, this.maxItems := level, maxItems;
      parts := seq(BRANCHES, _ => Empty(Cap(level)));
      Repr := {this};
      new;
      EmptyParts(parts, Cap(level));
      JoinLength(parts, Cap(level));
      EmptyUnique(Join(parts));
    }

    /** A new root above a full tree. */
    constructor Above(child: WrsNode<I>)
      requires child.Valid()
      ensures Valid() && Repr == {this} + child.Repr && level == child.level + 1 && maxItems == BRANCHES * child.maxItems
      ensures itemCnt == child.itemCnt && sumWeight == child.sumWeight
      ensures Contents() == child.Contents() + Empty(maxItems - child.maxItems)
    {
      items := [Sub(child)] + seq(BRANCHES - 1, _ => Nil);
      weights := [child.sumWeight] + seq(BRANCHES - 1, _ => 0);
      sumWeight, itemCnt := child.sumWeight, child.itemCnt;
      level, maxItems := child.level + 1, child.maxItems * BRANCHES;
      parts := Padded(child.Contents(), Cap(child.level + 1));
      Repr := {this} + child.Repr;
      new;
      JoinLength(child.parts, Cap(child.level));
      PaddedParts(child.Contents(), Cap(level));
      assert child.Valid() && child.Contents() == parts[0];
      assert ChildOk(0);
    }

    lemma CountFits()
      requires Valid()
      ensures 0 <= itemCnt <= maxItems == |Contents()| && maxItems > 0
    {
      JoinLength(parts, Cap(level));
    }

    /** The figures a child reports are those of its part. */
    lemma ChildFigures(i: nat)
      requires Valid() && i < BRANCHES && items[i].Sub?
      ensures var n := items[i].node;
              n.itemCnt == Count(parts[i]) && n.maxItems == Cap(level) && n.sumWeight == Total(parts[i]) == weights[i]
    {
      assert ChildOk(i);
      var n := items[i].node;
      assert n.Valid();
    }

    /** The first branch with room. */
    method FindBranch() returns (branch: nat)
      requires Valid() && itemCnt < maxItems
      ensures branch < BRANCHES && Count(parts[branch]) < Cap(level)
      ensures forall i :: 0 <= i < branch ==> Count(parts[i]) == Cap(level)
    {
      SomeRoom(level, parts);
      branch := 0;
      while !items[branch].Nil? && (level == 0 || items[branch].node.itemCnt == items[branch].node.maxItems)
        invariant branch < BRANCHES && forall i :: 0 <= i < branch ==> Count(parts[i]) == Cap(level)
        decreases BRANCHES - branch
      {
        if level > 0 { ChildFigures(branch); }
        branch := branch + 1;
        if branch == BRANCHES {
          assert false;
        }
      }
      if level > 0 && items[branch].Sub? { ChildFigures(branch); }
    }

    /** Makes sure a branch has a child node. */
    method ChildAt(branch: nat) returns (sub: WrsNode<I>)
      requires Valid() && branch < BRANCHES && level > 0
      modifies this
      ensures Valid() && fresh(Repr - old(Repr)) && items[branch] == Sub(sub)
      ensures parts == old(parts) && weights == old(weights) && sumWeight == old(sumWeight)
      ensures itemCnt == old(itemCnt) && level == old(level) && maxItems == old(maxItems)
    {
      if items[branch].Nil? {
        sub := new WrsNode<I>(level - 1, maxItems / BRANCHES);
        items := items[branch := Sub(sub)];
        Repr := Repr + sub.Repr;
        forall i | 0 <= i < BRANCHES && items[i].Sub?
          ensures ChildOk(i) && items[i].node.Contents() == parts[i]
        {
          if i != branch { assert old(ChildOk(i)); }
        }
      } else {
        sub := items[branch].node;
      }
    }

    /** Stores a new item at the lowest free place and returns that place. */
    method Insert(item: I, weight: int) returns (idx: nat)
      requires Valid() && weight > 0 && itemCnt < maxItems
      modifies Repr
      ensures Valid() && fresh(Repr - old(Repr)) && level == old(level) && maxItems == old(maxItems)
      ensures LowestFree(old(Contents()), idx)
      ensures Contents() == old(Contents())[idx := Some(Entry(item, weight))]
      decreases level, 2
    {
      var branch := FindBranch();
      if level == 0 {
        InsertItem(branch, item, weight);
        idx := branch;
      } else {
        idx := InsertBelow(branch, item, weight);
      }
    }

    method InsertItem(branch: nat, item: I, weight: int)
      requires Valid() && weight > 0 && level == 0 && branch < BRANCHES && Count(parts[branch]) < 1
      requires forall i :: 0 <= i < branch ==> Count(parts[i]) == 1
      modifies this
      ensures Valid() && Repr == old(Repr) && level == 0 && maxItems == old(maxItems)
      ensures LowestFree(old(Contents()), branch)
      ensures Contents() == old(Contents())[branch := Some(Entry(item, weight))]
    {
      ghost var e := Some(Entry(item, weight));
      EntryChanged(level, maxItems, itemCnt, sumWeight, weights, parts, branch, 0, e, weight, 1);
      EntryPlace(level, parts, branch, 0, e, branch);
      itemCnt := itemCnt + 1;
      sumWeight := sumWeight + weight;
      weights := weights[branch := weights[branch] + weight];
      items := items[branch := Item(item)];
      parts := parts[branch := parts[branch][0 := e]];
    }

    method InsertBelow(branch: nat, item: I, weight: int) returns (idx: nat)
      requires Valid() && weight > 0 && level > 0 && branch < BRANCHES && Count(parts[branch]) < Cap(level)
      requires forall i :: 0 <= i < branch ==> Count(parts[i]) == Cap(level)
      modifies Repr
      ensures Valid() && fresh(Repr - old(Repr)) && level == old(level) && maxItems == old(maxItems)
      ensures LowestFree(old(Contents()), idx)
      ensures Contents() == old(Contents())[idx := Some(Entry(item, weight))]
      decreases level, 1
    {
      ghost var before := parts;
      var sub := ChildAt(branch);
      ChildFigures(branch);
      var subIdx := InsertInto(branch, sub, item, weight);
      idx := branch * sub.maxItems + subIdx;
      EntryPlace(level, before, branch, subIdx, Some(Entry(item, weight)), idx);
    }

    method InsertInto(branch: nat, sub: WrsNode<I>, item: I, weight: int) returns (subIdx: nat)
      requires Valid() && weight > 0 && level > 0 && branch < BRANCHES && items[branch] == Sub(sub)
      requires Count(parts[branch]) < Cap(level)
      modifies Repr
      ensures Valid() && fresh(Repr - old(Repr)) && level == old(level) && maxItems == old(maxItems)
      ensures sub.maxItems == old(sub.maxItems)
      ensures LowestFree(old(parts[branch]), subIdx)
      ensures parts == old(parts)[branch := old(parts[branch])[subIdx := Some(Entry(item, weight))]]
      decreases level, 0
    {
      ChildFigures(branch);
      assert ChildOk(branch);
      subIdx := sub.Insert(item, weight);
      OthersKept(branch);
      Repr := Repr + sub.Repr;
      Record(branch, subIdx, Some(Entry(item, weight)), weight, 1);
    }

    /** A change confined to one child leaves the others alone. */
    twostate lemma OthersKept(b: nat)
      requires old(Valid()) && b < BRANCHES && old(items[b]).Sub?
      requires forall o :: o in old(Repr) && o !in old(items[b].node.Repr) ==> unchanged(o)
      requires forall o :: o in old(items[b]).node.Repr && o !in old(items[b].node.Repr) ==> fresh(o)
      ensures this in Repr && items == old(items) && parts == old(parts) && |items| == BRANCHES && |parts| == BRANCHES
      ensures forall i :: 0 <= i < BRANCHES && items[i].Sub? && i != b ==> ChildOk(i) && items[i].node.Contents() == parts[i]
      ensures forall i :: 0 <= i < BRANCHES && items[i].Sub? && i != b ==> items[i].node.Repr !! old(items[b]).node.Repr
    {
      forall i | 0 <= i < BRANCHES && items[i].Sub? && i != b
        ensures ChildOk(i) && items[i].node.Contents() == parts[i] && items[i].node.Repr !! old(items[b]).node.Repr
      {
        assert old(ChildOk(i)) && old(ChildOk(b));
        assert items[i].node.Repr <= old(Repr) - old(items[b].node.Repr);
      }
    }

    /** Takes over a change of one place below branch `b`. */
    method Record(b: nat, ghost j: nat, ghost e: Option<Entry<I>>, diff: int, more: int)
      requires this in Repr && Consistent(level, maxItems, itemCnt, sumWeight, weights, parts) && SlotsOk()
      requires b < BRANCHES && items[b].Sub? && j < Cap(level) && (e.Some? ==> e.value.weight > 0)
      requires diff == WeightAt(e) - WeightAt(parts[b][j])
      requires more == (if e.Some? then 1 else 0) - (if parts[b][j].Some? then 1 else 0)
      requires forall i :: 0 <= i < BRANCHES && items[i].Sub? ==> ChildOk(i) && items[i].node.Contents() == parts[b := parts[b][j := e]][i]
      requires forall i, j :: 0 <= i < j < BRANCHES && items[i].Sub? && items[j].Sub? ==> items[i].node.Repr !! items[j].node.Repr
      modifies this`itemCnt, this`sumWeight, this`weights, this`parts
      ensures Valid()
      ensures parts == old(parts)[b := old(parts[b])[j := e]]
    {
      ghost var part := parts[b][j := e];
      EntryChanged(level, maxItems, itemCnt, sumWeight, weights, parts, b, j, e, diff, more);
      SlotSub(items, parts, level, b, part);
      itemCnt, sumWeight := itemCnt + more, sumWeight + diff;
      weights := weights[b := weights[b] + diff];
      parts := parts[b := part];
      FiguresOnly();
    }

    /** A change of the node's own figures leaves its children alone. */
    twostate lemma FiguresOnly()
      requires this in old(Repr) && items == old(items) && Repr == old(Repr) && level == old(level) && |items| == BRANCHES
      requires forall o :: o in old(Repr) && o != this ==> unchanged(o)
      requires forall i :: 0 <= i < BRANCHES && old(items)[i].Sub? ==> old(ChildOk(i))
      ensures forall i :: 0 <= i < BRANCHES && items[i].Sub? ==> ChildOk(i) && items[i].node.Contents() == old(items[i].node.Contents())
    {
      forall i | 0 <= i < BRANCHES && items[i].Sub?
        ensures ChildOk(i) && items[i].node.Contents() == old(items[i].node.Contents())
      {
        assert old(ChildOk(i));
      }
    }

    /** Changes the weight stored at an occupied place; weight zero frees the place. */
    method SetWeight(idx: nat, weight: int) returns (diff: int)
      requires Valid() && weight >= 0 && idx < |Contents()| && Contents()[idx].Some?
      modifies Repr
      ensures Valid() && fresh(Repr - old(Repr)) && level == old(level) && maxItems == old(maxItems)
      ensures Contents() == old(Contents())[idx := Reweighted(old(Contents())[idx], weight)]
      ensures diff == weight - old(Contents())[idx].value.weight
      decreases level, 1
    {
      if level == 0 {
        diff := SetItemWeight(idx, weight);
      } else {
        var branch, subIdx := Locate(idx);
        EntryPlace(level, parts, branch, subIdx, Reweighted(Contents()[idx], weight), idx);
        diff := SetWeightBelow(branch, subIdx, weight);
      }
    }

    /** Dividing an index by the branch capacity finds its branch. */
    method Locate(idx: nat) returns (branch: nat, subIdx: nat)
      requires |parts| == BRANCHES && EachLong(parts, Cap(level)) && maxItems == BRANCHES * Cap(level) && idx < |Contents()|
      ensures branch < BRANCHES && subIdx < Cap(level) && idx == branch * Cap(level) + subIdx
    {
      JoinLength(parts, Cap(level));
      SplitIndex(idx, Cap(level));
      var branchItems := maxItems / BRANCHES;
      branch := idx / branchItems;
      subIdx := idx - branch * branchItems;
    }

    method SetItemWeight(idx: nat, weight: int) returns (diff: int)
      requires Valid() && level == 0 && weight >= 0 && idx < |Contents()| && Contents()[idx].Some?
      modifies this
      ensures Valid() && Repr == old(Repr) && level == 0 && maxItems == old(maxItems)
      ensures Contents() == old(Contents())[idx := Reweighted(old(Contents())[idx], weight)]
      ensures diff == weight - old(Contents())[idx].value.weight
    {
      ItemFigures(idx, weight);
      ghost var e := Reweighted(parts[idx][0], weight);
      diff := weight - weights[idx];
      weights, sumWeight := weights[idx := weight], sumWeight + diff;
      parts := parts[idx := parts[idx][0 := e]];
      if weight == 0 {
        items, itemCnt := items[idx := Nil], itemCnt - 1;
      }
    }

    /** The figures after changing an item of the lowest level. */
    lemma ItemFigures(idx: nat, weight: int)
      requires Valid() && level == 0 && weight >= 0 && idx < |Contents()| && Contents()[idx].Some?
      ensures idx < BRANCHES && |parts[idx]| == 1 && parts[idx][0] == Contents()[idx] && weights[idx] == parts[idx][0].value.weight
      ensures var e := Reweighted(parts[idx][0], weight);
              var parts' := parts[idx := parts[idx][0 := e]];
              && Join(parts') == Contents()[idx := e]
              && SlotsFit(if weight == 0 then items[idx := Nil] else items, parts', 0)
              && (weight == 0 ==> itemCnt > 0)
              && Consistent(0, maxItems, if weight == 0 then itemCnt - 1 else itemCnt, sumWeight + weight - weights[idx], weights[idx := weight], parts')
      ensures forall i :: 0 <= i < BRANCHES ==> !items[i].Sub?
    {
      JoinLength(parts, 1);
      var e := Reweighted(Contents()[idx], weight);
      EntryPlace(level, parts, idx, 0, e, idx);
      TotalUpdate(parts[idx], 0, e);
      EntryChanged(level, maxItems, itemCnt, sumWeight, weights, parts, idx, 0, e, weight - weights[idx], if weight == 0 then -1 else 0);
      SlotSet(items, parts, idx, weight);
    }

    method SetWeightBelow(branch: nat, subIdx: nat, weight: int) returns (diff: int)
      requires Valid() && level > 0 && weight >= 0 && branch < BRANCHES && subIdx < Cap(level) && parts[branch][subIdx].Some?
      modifies Repr
      ensures Valid() && fresh(Repr - old(Repr)) && level == old(level) && maxItems == old(maxItems)
      ensures parts == old(parts)[branch := old(parts[branch])[subIdx := Reweighted(old(parts)[branch][subIdx], weight)]]
      ensures diff == weight - old(parts)[branch][subIdx].value.weight
      decreases level, 0
    {
      var sub := items[branch].node;
      ChildFigures(branch);
      assert ChildOk(branch);
      diff := sub.SetWeight(subIdx, weight);
      OthersKept(branch);
      Repr := Repr + sub.Repr;
      Record(branch, subIdx, Reweighted(parts[branch][subIdx], weight), diff, if weight == 0 then -1 else 0);
    }

    /** Finds the item whose weight interval contains `val`. */
    method Choose(val: int) returns (item: I, weight: int)
      requires Valid() && 0 <= val < sumWeight
      ensures Contents()[Pick(Contents(), val)] == Some(Entry(item, weight))
      decreases level
    {
      var rest := val;
      var i := 0;
      assert parts[..0] == [] && parts[..BRANCHES] == parts;
      while i < BRANCHES
        invariant 0 <= i <= BRANCHES && rest >= 0
        invariant rest == val - Total(Join(parts[..i]))
      {
        if rest < weights[i] {
          JoinPick(parts, Cap(level), i, rest);
          if level == 0 {
            assert items[i].Item?;
            item, weight := items[i].item, weights[i];
          } else {
            assert items[i].Sub?;
            ChildFigures(i);
            item, weight := items[i].node.Choose(rest);
          }
          return;
        } else {
          rest := rest - weights[i];
          TotalOfPrefix(parts, i);
        }
        i := i + 1;
      }
      assert false;
    }
  }

  /** The entry at a place after its weight has been set. */
  function Reweighted<I>(e: Option<Entry<I>>, weight: int): Option<Entry<I>>
    requires e.Some?
  {
    if weight == 0 then None else Some(Entry(e.value.item, weight))
  }

  lemma TotalOfPrefix<I>(parts: seq<Flat<I>>, i: nat)
    requires i < |parts|
    ensures Total(Join(parts[..i + 1])) == Total(Join(parts[..i])) + Total(parts[i])
  {
    assert parts[..i + 1] == parts[..i] + [parts[i]];
    JoinConcat(parts[..i], [parts[i]]);
    assert Join([parts[i]]) == parts[i];
    TotalConcat(Join(parts[..i]), parts[i]);
  }

  lemma SplitIndex(idx: nat, cap: nat)
    requires cap > 0 && idx < BRANCHES * cap
    ensures (BRANCHES * cap) / BRANCHES == cap
    ensures var b := idx / cap; b < BRANCHES && 0 <= idx - b * cap < cap
  {
    var b := idx / cap;
    assert idx == b * cap + idx % cap;
    assert b >= BRANCHES ==> b * cap >= BRANCHES * cap;
  }

  lemma {:induction false} EmptyParts<I>(parts: seq<Flat<I>>, cap: nat)
    requires forall i :: 0 <= i < |parts| ==> parts[i] == Empty(cap)
    ensures Total(Join(parts)) == 0 && Count(Join(parts)) == 0
    ensures forall i :: 0 <= i < |Join(parts)| ==> Join(parts)[i].None?
  {
    if parts == [] {
    } else {
      EmptyParts(parts[1..], cap);
      TotalConcat(parts[0], Join(parts[1..]));
    }
  }

  /** One part followed by empty ones. */
  ghost function Padded<I>(f: Flat<I>, cap: nat): (parts: seq<Flat<I>>)
    ensures |parts| == BRANCHES && parts[0] == f && forall i :: 0 < i < BRANCHES ==> parts[i] == Empty(cap)
  {
    [f] + seq(BRANCHES - 1, _ => Empty(cap))
  }

  lemma PaddedParts<I>(f: Flat<I>, cap: nat)
    requires |f| == cap && Positive(f)
    ensures var parts := Padded(f, cap);
            && EachLong(parts, cap)
            && Join(parts) == f + Empty(BRANCHES * cap - cap)
            && Total(Join(parts)) == Total(f) && Count(Join(parts)) == Count(f) && Positive(Join(parts))
  {
    var rest := Padded(f, cap)[1..];
    EmptyParts(rest, cap);
    JoinLength(rest, cap);
    EmptyUnique(Join(rest));
    TotalConcat(f, Join(rest));
  }

  lemma {:induction false} EmptyUnique<I>(f: Flat<I>)
    requires forall i :: 0 <= i < |f| ==> f[i].None?
    ensures f == Empty(|f|)
  {
  }

  /** The index names exactly the occupied places, by the item stored there. */
  ghost predicate IndexOk<I(!new)>(idx: map<I, nat>, f: Flat<I>) {
    && (forall x :: x in idx ==> idx[x] < |f| && f[idx[x]].Some? && f[idx[x]].value.item == x)
    && (forall i :: 0 <= i < |f| && f[i].Some? ==> f[i].value.item in idx && idx[f[i].value.item] == i)
  }

  /** The weights an index and a row stand for. */
  ghost function StoredIn<I(!new)>(idx: map<I, nat>, f: Flat<I>): (m: map<I, int>)
    requires IndexOk(idx, f)
    ensures m.Keys == idx.Keys
  {
    map x | x in idx :: f[idx[x]].value.weight
  }

  lemma IndexAfterInsert<I(!new)>(idx: map<I, nat>, f: Flat<I>, x: I, w: int, at: nat)
    requires IndexOk(idx, f) && x !in idx && at < |f| && f[at].None?
    ensures IndexOk(idx[x := at], f[at := Some(Entry(x, w))])
    ensures StoredIn(idx[x := at], f[at := Some(Entry(x, w))]) == StoredIn(idx, f)[x := w]
  {
  }

  lemma IndexAfterGrow<I(!new)>(idx: map<I, nat>, f: Flat<I>, g: Flat<I>)
    requires IndexOk(idx, f) && |f| <= |g| && g[..|f|] == f && forall i :: |f| <= i < |g| ==> g[i].None?
    ensures IndexOk(idx, g) && StoredIn(idx, g) == StoredIn(idx, f)
  {
    assert forall i :: 0 <= i < |f| ==> g[i] == g[..|f|][i];
  }

  lemma IndexAfterSet<I(!new)>(idx: map<I, nat>, f: Flat<I>, x: I, w: int)
    requires IndexOk(idx, f) && x in idx
    ensures var idx', f' := if w == 0 then idx - {x} else idx, f[idx[x] := Reweighted(f[idx[x]], w)];
            && IndexOk(idx', f')
            && StoredIn(idx', f') == if w == 0 then StoredIn(idx, f) - {x} else StoredIn(idx, f)[x := w]
  {
  }

  /** `after` is `before` with some weights brought up to date; what is now zero may be gone. */
  ghost predicate Corrected<I(!new)>(before: map<I, int>, after: map<I, int>, current: I -> int) {
    && after.Keys <= before.Keys
    && (forall x :: x in before && x !in after ==> current(x) == 0)
    && (forall x :: x in after ==> after[x] == before[x] || after[x] == current(x))
  }

  lemma CorrectOne<I(!new)>(before: map<I, int>, after: map<I, int>, current: I -> int, x: I)
    requires Corrected(before, after, current) && x in after
    ensures Corrected(before, if current(x) == 0 then after - {x} else after[x := current(x)], current)
  {
  }

  /** A set of items with weights, from which one can be drawn at random. */
  class WeightedRandomSelect<I(==, !new)> {
    var root: WrsNode<I>
    var idx: map<I, nat>
    ghost var Repr: set<object>

    ghost predicate Valid()
      reads this, Repr
      ensures Valid() ==> this in Repr
    {
      && this in Repr && root in Repr && root.Repr <= Repr && this !in root.Repr
      && root.Valid() && IndexOk(idx, root.Contents())
    }

    /** The weights last stored, item by item. */
    ghost function Stored(): (m: map<I, int>)
      reads this, Repr
      requires Valid()
      ensures m.Keys == idx.Keys && forall x :: x in m ==> m[x] > 0
    {
      StoredIn(idx, root.Contents())
    }

    constructor ()
      ensures Valid() && fresh(Repr) && Stored() == map[]
    {
      root := new WrsNode(0, BRANCHES);
      idx := map[];
      new;
      Repr := {this} + root.Repr;
    }

    /**
     Stores, changes or removes one item; all other items keep both their weight
     and their place, also when the tree grows a level.
     */
    method SetWeight(item: I, weight: int)
      requires Valid() && weight >= 0
      modifies Repr
      ensures Valid() && fresh(Repr - old(Repr))
      ensures Stored() == if weight == 0 then old(Stored()) - {item} else old(Stored())[item := weight]
      ensures forall x :: x in idx && x in old(idx) ==> idx[x] == old(idx)[x]
      ensures root.sumWeight == old(root.sumWeight) + weight - (if item in old(idx) then old(Stored())[item] else 0)
    {
      if item in idx {
        Change(item, weight);
      } else if weight != 0 {
        root.CountFits();
        if root.itemCnt == root.maxItems {
          Grow();
        }
        Add(item, weight);
      }
    }

    method Change(item: I, weight: int)
      requires Valid() && weight >= 0 && item in idx
      modifies Repr
      ensures Valid() && fresh(Repr - old(Repr))
      ensures Stored() == if weight == 0 then old(Stored()) - {item} else old(Stored())[item := weight]
      ensures forall x :: x in idx && x in old(idx) ==> idx[x] == old(idx)[x]
      ensures root.sumWeight == old(root.sumWeight) + weight - old(Stored())[item]
    {
      var at := idx[item];
      IndexAfterSet(idx, root.Contents(), item, weight);
      TotalUpdate(root.Contents(), at, Reweighted(root.Contents()[at], weight));
      var diff := root.SetWeight(at, weight);
      if weight == 0 {
        idx := idx - {item};
      }
      Repr := Repr + root.Repr;
    }

    /** Adds a level on top. */
    method Grow()
      requires Valid() && root.itemCnt == root.maxItems
      modifies this
      ensures Valid() && fresh(Repr - old(Repr)) && idx == old(idx) && Stored() == old(Stored())
      ensures root.itemCnt < root.maxItems && root.sumWeight == old(root.sumWeight)
    {
      root.CountFits();
      ghost var f := root.Contents();
      var newRoot := new WrsNode<I>.Above(root);
      assert newRoot.Contents()[..|f|] == f;
      IndexAfterGrow(idx, f, newRoot.Contents());
      root := newRoot;
      Repr := Repr + newRoot.Repr;
    }

    method Add(item: I, weight: int)
      requires Valid() && weight > 0 && item !in idx && root.itemCnt < root.maxItems
      modifies Repr
      ensures Valid() && fresh(Repr - old(Repr))
      ensures Stored() == old(Stored())[item := weight]
      ensures forall x :: x in old(idx) ==> x in idx && idx[x] == old(idx)[x]
      ensures root.sumWeight == old(root.sumWeight) + weight
    {
      ghost var f := root.Contents();
      var at := root.Insert(item, weight);
      IndexAfterInsert(idx, f, item, weight, at);
      TotalUpdate(f, at, Some(Entry(item, weight)));
      idx := idx[item := at];
      Repr := Repr + root.Repr;
    }

    /**
     Draws an item with probability proportional to its stored weight, correcting
     weights that have fallen since they were stored. `current` gives the weights
     as they are now. The loop ends because every rejected draw lowers the total.
     */
    method Choose(current: I -> int) returns (choice: Option<I>)
      requires Valid() && forall x :: current(x) >= 0
      modifies Repr
      ensures Valid() && fresh(Repr - old(Repr))
      ensures Corrected(old(Stored()), Stored(), current)
      ensures choice.Some? ==> choice.value in Stored() && Stored()[choice.value] == current(choice.value) > 0
      ensures choice.None? ==> Stored() == map[]
    {
      while true
        invariant Valid() && fresh(Repr - old(Repr))
        invariant Corrected(old(Stored()), Stored(), current)
        decreases root.sumWeight
      {
        NothingStored();
        if root.sumWeight == 0 {
          return None;
        }
        ghost var before, prev := Stored(), Repr;
        var val :| 0 <= val < root.sumWeight;
        var seed: nat :| 0 <= seed < U64;
        var accepted, item := Round(current, val, seed);
        assert fresh(Repr - prev);
        CorrectOne(old(Stored()), before, current, item);
        if accepted {
          return Some(item);
        }
      }
    }

    /**
     One draw with two random numbers: `val` picks an item, whose weight is brought up to date, and
     `seed`, cut down to the old weight, decides with a chance of new to old weight whether the draw stands.
     */
    method Round(current: I -> int, val: int, seed: nat) returns (accepted: bool, item: I)
      requires Valid() && 0 <= val < root.sumWeight && forall x :: current(x) >= 0
      modifies Repr
      ensures Valid() && fresh(Repr - old(Repr)) && item in old(Stored())
      ensures old(root.Contents())[Pick(old(root.Contents()), val)] == Some(Entry(item, old(Stored())[item]))
      ensures Stored() == if current(item) == 0 then old(Stored()) - {item} else old(Stored())[item := current(item)]
      ensures old(Stored())[item] > 0 && (accepted <==> seed % old(Stored())[item] < current(item))
      ensures !accepted ==> 0 <= root.sumWeight < old(root.sumWeight)
    {
      var lastWeight;
      item, lastWeight := Draw(val);
      var weight := current(item);
      assert Stored()[item := lastWeight] == Stored();
      if weight != lastWeight {
        SetWeight(item, weight);
      }
      NothingStored();
      accepted := weight >= lastWeight || seed % lastWeight < weight;
    }

    /** The item that a number below the total picks from the tree. */
    method Draw(val: int) returns (item: I, weight: int)
      requires Valid() && 0 <= val < root.sumWeight
      ensures item in idx && weight == Stored()[item] > 0
      ensures root.Contents()[Pick(root.Contents(), val)] == Some(Entry(item, weight))
    {
      item, weight := root.Choose(val);
    }

    /** The total is zero exactly when nothing is stored. */
    lemma NothingStored()
      requires Valid()
      ensures root.sumWeight >= 0
      ensures root.sumWeight == 0 <==> Stored() == map[]
    {
      TotalPositive(root.Contents());
    }
  }
}
