/** What the cache's operations keep, and what a hit returns. */
module CacheInvariant {
  import opened Bytes
  import opened Cache
  import opened CacheList

  /** Which file each path leads to, and what happened so far: the bytes last inserted under each path, the files the
      kernel watches and the ids it has ever issued, the paths whose file was modified since their last insertion,
      and when each slot was last used. */
  datatype History = History(files: Path -> nat, latest: map<Path, Data>, kernel: map<int, nat>, issued: set<int>,
                             stale: set<Path>, used: map<int, nat>, clock: nat)

  /** The list holds the occupied slots, each once, and its ends are right; the other slots are free and blank. */
  ghost predicate Shape(c: Rep, order: seq<int>) {
    && |c.items| >= 2
    && Linked(c.items, order)
    && c.lowest == (if order == [] then -1 else order[0])
    && c.highest == (if order == [] then -1 else order[|order| - 1])
    && (forall i :: i in c.free <==> 0 <= i < |c.items| && i !in order)
    && (forall i :: i in c.free ==> c.items[i] == Blank)
  }

  ghost predicate Lookup(c: Rep, order: seq<int>) {
    && (forall i :: i in c.idxToPath <==> i in order)
    && (forall p :: p in c.pathToIdx ==> c.pathToIdx[p] in c.idxToPath && c.idxToPath[c.pathToIdx[p]] == p)
  }

  /** The clients using the file in slot i. */
  function Holders(c: Rep, i: int): set<nat> {
    set u | u in c.users && u in c.clientToIdx && c.clientToIdx[u] == i
  }

  ghost predicate Locks(c: Rep, order: seq<int>) {
    && (forall u :: u in c.users ==> u in c.clientToIdx && c.clientToIdx[u] in order)
    && (forall i :: 0 <= i < |c.items| ==> c.items[i].lock >= |Holders(c, i)|)
  }

  ghost predicate Contents(c: Rep, h: History) {
    forall p :: p in c.pathToIdx ==>
      var item := At(c.items, c.pathToIdx[p]);
      && p in h.latest && item.buffer == h.latest[p] && (item.outdated <==> p in h.stale)
  }

  /** The slot a path is found in is watched for that path. */
  ghost predicate PathWatched(c: Rep, h: History, p: Path)
    requires p in c.pathToIdx
  {
    var w := At(c.items, c.pathToIdx[p]).watch;
    w in c.watchToIdx && c.watchToIdx[w] == c.pathToIdx[p] && w in h.kernel && h.kernel[w] == h.files(p)
  }

  /** The id an occupied slot remembers was issued; if the kernel still uses it, then for the slot's own file. */
  ghost predicate SlotWatched(c: Rep, h: History, i: int)
    requires i in c.idxToPath
  {
    var w := At(c.items, i).watch;
    w in h.issued && (w in h.kernel ==> h.kernel[w] == h.files(c.idxToPath[i]))
  }

  ghost predicate WatchMapped(c: Rep, order: seq<int>, h: History, w: int)
    requires w in c.watchToIdx
  {
    c.watchToIdx[w] in order && At(c.items, c.watchToIdx[w]).watch == w && w in h.kernel
  }

  ghost predicate KernelOk(h: History) {
    && (forall w :: w in h.kernel ==> w in h.issued)
    && -1 !in h.issued
    && (forall v, w :: v in h.kernel && w in h.kernel && h.kernel[v] == h.kernel[w] ==> v == w)
  }

  /** Occupied slots that remember the same watch in use hold the same path. */
  ghost predicate OneName(c: Rep, h: History) {
    forall i, j :: i in c.idxToPath && j in c.idxToPath ==>
      (At(c.items, i).watch == At(c.items, j).watch && At(c.items, i).watch in h.kernel ==>
        c.idxToPath[i] == c.idxToPath[j])
  }

  ghost predicate Watches(c: Rep, order: seq<int>, h: History) {
    && (forall p :: p in c.pathToIdx ==> PathWatched(c, h, p))
    && (forall i :: i in c.idxToPath ==> SlotWatched(c, h, i))
    && (forall w :: w in c.watchToIdx ==> WatchMapped(c, order, h, w))
    && KernelOk(h)
    && OneName(c, h)
  }

  ghost predicate Earlier(order: seq<int>, h: History, a: nat, b: nat)
    requires a < |order| && b < |order|
  {
    order[a] in h.used && order[b] in h.used ==> h.used[order[a]] < h.used[order[b]]
  }

  /** The list is in the order of last use. */
  ghost predicate Recency(order: seq<int>, h: History) {
    && (forall i :: i in order ==> i in h.used && h.used[i] < h.clock)
    && (forall a, b :: 0 <= a < b < |order| ==> Earlier(order, h, a, b))
  }

  ghost predicate Good(c: Rep, order: seq<int>, h: History) {
    && Shape(c, order) && Lookup(c, order) && Locks(c, order)
    && Contents(c, h) && Watches(c, order, h) && Recency(order, h)
  }

  // ----- what the list looks like from its ends -----

  /** Following `next` from the lowest slot visits every occupied slot once and ends at the highest; following
      `prev` from the highest visits them the other way round; the free slots are the rest. */
  lemma WalksVisitAll(c: Rep, order: seq<int>)
    requires Shape(c, order)
    ensures |order| <= |c.items|
    ensures Walk(c.items, c.lowest, |c.items|) == order == WalkBack(c.items, c.highest, |c.items|)
    ensures forall i :: 0 <= i < |c.items| ==> (i in c.free <==> i !in order)
  {
    OrderFits(order, |c.items|) by {
      forall k | 0 <= k < |order| ensures 0 <= order[k] < |c.items| { assert NodeOk(c.items, order, k); }
    }
    if order != [] {
      WalkFrom(c.items, order, 0, |c.items|);
      WalkBackFrom(c.items, order, |order| - 1, |c.items|);
      assert order[0..] == order && order[..|order|] == order;
    }
  }

  lemma {:induction false} UpToSize(n: nat)
    ensures |UpTo(n)| == n
  {
    if n > 0 { UpToSize(n - 1); }
  }

  lemma {:induction false} DistinctSize(order: seq<int>)
    requires Distinct(order)
    ensures |set i | i in order| == |order|
  {
    if order != [] {
      var init, last := order[..|order| - 1], order[|order| - 1];
      DistinctSize(init);
      assert last !in init;
      assert (set i | i in order) == (set i | i in init) + {last};
    }
  }

  lemma OrderFits(order: seq<int>, n: nat)
    requires Distinct(order) && forall k :: 0 <= k < |order| ==> 0 <= order[k] < n
    ensures |order| <= n
  {
    DistinctSize(order);
    UpToSize(n);
    SubsetSize((set i | i in order), UpTo(n));
  }

  lemma {:induction false} SubsetSize<T>(a: set<T>, b: set<T>)
    requires a <= b
    ensures |a| <= |b|
    decreases |a|
  {
    if a != {} {
      var x :| x in a;
      SubsetSize(a - {x}, b - {x});
    }
  }

  lemma InRange(c: Rep, order: seq<int>)
    requires Shape(c, order)
    ensures forall i :: i in order ==> 0 <= i < |c.items|
  {
    forall i | i in order ensures 0 <= i < |c.items| {
      var k :| 0 <= k < |order| && order[k] == i;
      assert NodeOk(c.items, order, k);
    }
  }
}
