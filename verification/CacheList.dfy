/** The list through the slots, as a sequence from the least to the most recently used. */
module CacheList {
  import opened Bytes
  import opened Cache

  ghost predicate Distinct(order: seq<int>) {
    forall a, b :: 0 <= a < b < |order| ==> order[a] != order[b]
  }

  function Before(order: seq<int>, k: nat): int
    requires k < |order|
  {
    if k == 0 then -1 else order[k - 1]
  }

  function Behind(order: seq<int>, k: nat): int
    requires k < |order|
  {
    if k + 1 == |order| then -1 else order[k + 1]
  }

  ghost predicate NodeOk(items: seq<Item>, order: seq<int>, k: nat)
    requires k < |order|
  {
    && 0 <= order[k] < |items|
    && items[order[k]].prev == Before(order, k) && items[order[k]].next == Behind(order, k)
  }

  ghost predicate Linked(items: seq<Item>, order: seq<int>) {
    Distinct(order) && forall k :: 0 <= k < |order| ==> NodeOk(items, order, k)
  }

  /** Following `next` from slot i. */
  function Walk(items: seq<Item>, i: int, fuel: nat): seq<int>
    decreases fuel
  {
    if fuel == 0 || !(0 <= i < |items|) then [] else [i] + Walk(items, items[i].next, fuel - 1)
  }

  /** Following `prev` from slot i. */
  function WalkBack(items: seq<Item>, i: int, fuel: nat): seq<int>
    decreases fuel
  {
    if fuel == 0 || !(0 <= i < |items|) then [] else WalkBack(items, items[i].prev, fuel - 1) + [i]
  }

  lemma {:induction false} WalkFrom(items: seq<Item>, order: seq<int>, k: nat, fuel: nat)
    requires Linked(items, order) && k < |order| && fuel >= |order| - k
    ensures Walk(items, order[k], fuel) == order[k..]
    decreases |order| - k
  {
    assert NodeOk(items, order, k);
    if k + 1 < |order| {
      WalkFrom(items, order, k + 1, fuel - 1);
      assert Walk(items, order[k], fuel) == [order[k]] + Walk(items, order[k + 1], fuel - 1);
      assert order[k..] == [order[k]] + order[k + 1..];
    } else {
      assert Walk(items, order[k], fuel) == [order[k]] + Walk(items, -1, fuel - 1);
      assert order[k..] == [order[k]];
    }
  }

  lemma {:induction false} WalkBackFrom(items: seq<Item>, order: seq<int>, k: nat, fuel: nat)
    requires Linked(items, order) && k < |order| && fuel >= k + 1
    ensures WalkBack(items, order[k], fuel) == order[..k + 1]
  {
    assert NodeOk(items, order, k);
    if k > 0 {
      WalkBackFrom(items, order, k - 1, fuel - 1);
      assert order[..k + 1] == order[..k] + [order[k]];
    } else {
      assert order[..1] == [order[0]];
      assert WalkBack(items, -1, fuel - 1) == [];
    }
  }

  function Without(order: seq<int>, k: nat): seq<int>
    requires k < |order|
  {
    order[..k] + order[k + 1..]
  }

  function ToBack(order: seq<int>, k: nat): seq<int>
    requires k < |order|
  {
    Without(order, k) + [order[k]]
  }

  lemma WithoutElements(order: seq<int>, k: nat)
    requires k < |order| && Distinct(order)
    ensures Distinct(Without(order, k)) && order[k] !in Without(order, k)
    ensures forall i :: i in order <==> i in Without(order, k) || i == order[k]
    ensures forall i :: i in order <==> i in ToBack(order, k)
  {
    var w := Without(order, k);
    forall i | i in order ensures i in w || i == order[k] {
      var j :| 0 <= j < |order| && order[j] == i;
      if j < k { assert w[j] == i; } else if j > k { assert w[j - 1] == i; }
    }
  }

  lemma DistinctAt(order: seq<int>, a: nat, b: nat)
    requires Distinct(order) && a < |order| && b < |order| && order[a] == order[b]
    ensures a == b
  {
  }

  /** A slot leaves the list. */
  lemma UnlinkKeeps(items: seq<Item>, order: seq<int>, k: nat, after: seq<Item>)
    requires Linked(items, order) && k < |order|
    requires after == SetPrev(SetNext(items, Before(order, k), Behind(order, k)), Behind(order, k), Before(order, k))
    ensures Linked(after, Without(order, k))
  {
    var w := Without(order, k);
    WithoutElements(order, k);
    assert NodeOk(items, order, k);
    if k + 1 < |order| { assert NodeOk(items, order, k + 1); }
    if k > 0 { assert NodeOk(items, order, k - 1); }
    forall j | 0 <= j < |w| ensures NodeOk(after, w, j) {
      var o := if j < k then j else j + 1;
      assert w[j] == order[o] && NodeOk(items, order, o);
      if k + 1 < |order| && order[o] == order[k + 1] { DistinctAt(order, o, k + 1); }
      if k > 0 && order[o] == order[k - 1] { DistinctAt(order, o, k - 1); }
    }
  }

  /** A slot outside the list joins it at the end. */
  lemma LinkLastKeeps(items: seq<Item>, order: seq<int>, i: int, after: seq<Item>)
    requires Linked(items, order) && 0 <= i < |items| && i !in order && |after| == |items|
    requires after[i].next == -1 && after[i].prev == (if order == [] then -1 else order[|order| - 1])
    requires forall k :: 0 <= k < |items| && k != i ==>
               after[k].prev == items[k].prev
               && after[k].next == (if order != [] && k == order[|order| - 1] then i else items[k].next)
    ensures Linked(after, order + [i])
  {
    var w := order + [i];
    forall j | 0 <= j < |w| ensures NodeOk(after, w, j) {
      if j < |order| {
        assert w[j] == order[j] && order[j] != i && NodeOk(items, order, j);
        if order[j] == order[|order| - 1] { DistinctAt(order, j, |order| - 1); }
      }
    }
  }

  /** The first slot leaves the list. */
  lemma DropFirstKeeps(items: seq<Item>, order: seq<int>, after: seq<Item>)
    requires Linked(items, order) && |order| >= 2 && |after| == |items|
    requires forall k :: 0 <= k < |items| && k != order[0] ==>
               after[k].next == items[k].next && after[k].prev == (if k == order[1] then -1 else items[k].prev)
    ensures Linked(after, order[1..])
  {
    var w := order[1..];
    forall j | 0 <= j < |w| ensures NodeOk(after, w, j) {
      assert w[j] == order[j + 1] && NodeOk(items, order, j + 1);
      assert order[0] != order[j + 1];
      if order[j + 1] == order[1] { DistinctAt(order, j + 1, 1); }
    }
  }

  /** Changing nothing but other fields of the slots. */
  lemma SameLinks(items: seq<Item>, order: seq<int>, after: seq<Item>)
    requires Linked(items, order) && |after| == |items|
    requires forall k :: 0 <= k < |items| ==> after[k].prev == items[k].prev && after[k].next == items[k].next
    ensures Linked(after, order)
  {
    forall k | 0 <= k < |order| ensures NodeOk(after, order, k) { assert NodeOk(items, order, k); }
  }
}
