/** Each operation of the cache keeps its invariant. */
module CacheProofs {
  import opened Bytes
  import opened Cache
  import opened CacheList
  import opened CacheInvariant

  /** The slots hold the same files, watched by the same ids. */
  ghost predicate SameFiles(a: seq<Item>, b: seq<Item>) {
    |a| == |b| && forall j :: 0 <= j < |a| ==>
      a[j].buffer == b[j].buffer && a[j].outdated == b[j].outdated && a[j].watch == b[j].watch
  }

  // ----- a hit -----

  ghost predicate Hit(c: Rep, order: seq<int>, path: Path, k: nat) {
    && path in c.pathToIdx && k < |order| && order[k] == c.pathToIdx[path]
    && !At(c.items, order[k]).outdated
  }

  lemma HitSlot(c: Rep, order: seq<int>, path: Path) returns (k: nat)
    requires Shape(c, order) && Lookup(c, order) && path in c.pathToIdx
    ensures k < |order| && order[k] == c.pathToIdx[path] && 0 <= order[k] < |c.items|
    ensures NodeOk(c.items, order, k)
  {
    var i := c.pathToIdx[path];
    assert i in order;
    k :| 0 <= k < |order| && order[k] == i;
    assert NodeOk(c.items, order, k);
  }

  lemma LockLinks(c: Rep, order: seq<int>, i: int, client: nat)
    requires Linked(c.items, order)
    ensures Linked(Lock(c, i, client).items, order) && SameFiles(c.items, Lock(c, i, client).items)
  {
    SameLinks(c.items, order, Lock(c, i, client).items);
  }

  lemma UnlinkList(c: Rep, order: seq<int>, k: nat)
    requires Shape(c, order) && k + 1 < |order|
    ensures var u := Unlink(c, order[k]);
            && Linked(u.items, Without(order, k)) && SameFiles(c.items, u.items)
            && u == c.(items := u.items, lowest := Without(order, k)[0])
            && forall j :: 0 <= j < |c.items| ==> u.items[j].lock == c.items[j].lock
  {
    assert NodeOk(c.items, order, k) && NodeOk(c.items, order, k + 1);
    if k > 0 { assert NodeOk(c.items, order, k - 1); }
    UnlinkKeeps(c.items, order, k, Unlink(c, order[k]).items);
  }

  lemma MoveToBack(c: Rep, order: seq<int>, k: nat)
    requires Shape(c, order) && k + 1 < |order|
    ensures var u := LinkLast(Unlink(c, order[k]), order[k]);
            && Shape(u, ToBack(order, k)) && SameFiles(c.items, u.items)
            && u == c.(items := u.items, highest := u.highest, lowest := u.lowest)
            && forall j :: 0 <= j < |c.items| ==> u.items[j].lock == c.items[j].lock
  {
    var i := order[k];
    var w := Without(order, k);
    var c2 := Unlink(c, i);
    var u := LinkLast(c2, i);
    UnlinkList(c, order, k);
    WithoutElements(order, k);
    assert NodeOk(c.items, order, k) && NodeOk(c.items, order, |order| - 1);
    assert w[|w| - 1] == order[|order| - 1] == c.highest;
    LinkLastKeeps(c2.items, w, i, u.items);
    InRange(c, order);
    forall j | j in u.free ensures u.items[j] == Blank {
      if k > 0 { assert NodeOk(c.items, order, k - 1); }
      assert NodeOk(c.items, order, k + 1);
      assert j !in order && c.items[j] == Blank;
      BlankUntouched(c, order, k, j);
    }
  }

  lemma UnlinkUntouched(c: Rep, order: seq<int>, k: nat, j: int)
    requires Shape(c, order) && k + 1 < |order| && 0 <= j < |c.items| && j !in order
    ensures Unlink(c, order[k]).items[j] == c.items[j] && Unlink(c, order[k]).highest == c.highest
  {
    assert NodeOk(c.items, order, k);
    assert order[k + 1] in order;
    if k > 0 { assert order[k - 1] in order; }
  }

  /** A slot outside the list is not changed by moving another to the back. */
  lemma BlankUntouched(c: Rep, order: seq<int>, k: nat, j: int)
    requires Shape(c, order) && k + 1 < |order| && 0 <= j < |c.items| && j !in order
    ensures LinkLast(Unlink(c, order[k]), order[k]).items[j] == c.items[j]
  {
    UnlinkUntouched(c, order, k, j);
    assert order[k] in order && order[|order| - 1] in order;
  }

  lemma FetchHit(c: Rep, order: seq<int>, path: Path, client: nat, k: nat)
    requires Shape(c, order) && Hit(c, order, path, k)
    ensures 0 <= order[k] < |c.items|
    ensures var c1 := Lock(c, order[k], client);
            Fetch(c, path, client)
              == (if k + 1 == |order| then c1 else LinkLast(Unlink(c1, order[k]), order[k]),
                  Found(c.items[order[k]].buffer))
  {
    assert NodeOk(c.items, order, k);
    if k + 1 < |order| { assert NodeOk(c.items, order, k + 1); }
  }

  /** A hit moves its slot to the back of the list and locks it; the other slots are unchanged but for their links. */
  lemma FetchMoves(c: Rep, order: seq<int>, path: Path, client: nat, k: nat)
    requires Shape(c, order) && Hit(c, order, path, k)
    ensures var u := Fetch(c, path, client).0;
            && Shape(u, ToBack(order, k)) && SameFiles(c.items, u.items)
            && u == Lock(c, order[k], client).(items := u.items, highest := u.highest, lowest := u.lowest)
            && 0 <= order[k] < |c.items|
            && forall j :: 0 <= j < |c.items| ==>
                 u.items[j].lock == c.items[j].lock + (if j == order[k] then 1 else 0)
  {
    var i := order[k];
    var c1 := Lock(c, i, client);
    FetchHit(c, order, path, client, k);
    LockLinks(c, order, i, client);
    assert i in order;
    assert Shape(c1, order);
    if k + 1 == |order| {
      assert ToBack(order, k) == order;
    } else {
      MoveToBack(c1, order, k);
    }
  }

  // ----- locks -----

  lemma LocksAfterFetch(c: Rep, u: Rep, order: seq<int>, i: int, client: nat)
    requires Locks(c, order) && i in order && 0 <= i < |c.items| == |u.items|
    requires u.users == c.users + {client} && u.clientToIdx == c.clientToIdx[client := i]
    requires forall j :: 0 <= j < |c.items| ==> u.items[j].lock == c.items[j].lock + (if j == i then 1 else 0)
    ensures Locks(u, order)
  {
    forall j | 0 <= j < |u.items| ensures u.items[j].lock >= |Holders(u, j)| {
      if j == i {
        SubsetSize(Holders(u, j), Holders(c, j) + {client});
      } else {
        SubsetSize(Holders(u, j), Holders(c, j));
      }
    }
  }

  /** Locks are counted exactly: one per client using the slot. */
  ghost predicate LocksExact(c: Rep) {
    forall i :: 0 <= i < |c.items| ==> c.items[i].lock == |Holders(c, i)|
  }

  lemma HoldersAfterFetch(c: Rep, u: Rep, i: int, client: nat, j: int)
    requires u.users == c.users + {client} && u.clientToIdx == c.clientToIdx[client := i]
    ensures Holders(u, j) == if j == i then Holders(c, j) + {client} else Holders(c, j) - {client}
  {
  }

  /** A hit keeps the count exact exactly when the client is not already using a file. */
  lemma FetchLocksExact(c: Rep, order: seq<int>, path: Path, client: nat, k: nat)
    requires Shape(c, order) && Locks(c, order) && LocksExact(c) && Hit(c, order, path, k)
    ensures LocksExact(Fetch(c, path, client).0) <==> client !in c.users
  {
    var u := Fetch(c, path, client).0;
    var i := order[k];
    FetchMoves(c, order, path, client, k);
    if client !in c.users {
      forall j | 0 <= j < |u.items| ensures u.items[j].lock == |Holders(u, j)| {
        HoldersAfterFetch(c, u, i, client, j);
        assert client !in Holders(c, j);
      }
    } else {
      var j := c.clientToIdx[client];
      InRange(c, order);
      HoldersAfterFetch(c, u, i, client, j);
      assert client in Holders(c, j);
      assert u.items[j].lock != |Holders(u, j)|;
    }
  }

  /** Finishing gives the lock back. */
  lemma FinishedKeeps(c: Rep, order: seq<int>, h: History, client: nat)
    requires Good(c, order, h)
    ensures Good(Finished(c, client), order, h)
    ensures LocksExact(c) ==> LocksExact(Finished(c, client))
  {
    var u := Finished(c, client);
    if client in c.users {
      var i := c.clientToIdx[client];
      InRange(c, order);
      SameLinks(c.items, order, u.items);
      forall j | 0 <= j < |u.items|
        ensures u.items[j].lock - |Holders(u, j)| == c.items[j].lock - |Holders(c, j)|
      {
        if j == i {
          assert Holders(u, j) == Holders(c, j) - {client} && client in Holders(c, j);
        } else {
          assert Holders(u, j) == Holders(c, j);
        }
      }
      KeepFiles(c, u, order, order, h);
    }
  }

  // ----- files and watches -----

  /** Nothing about files, paths and watches changes. */
  lemma KeepFiles(c: Rep, u: Rep, order: seq<int>, after: seq<int>, h: History)
    requires Shape(c, order) && Lookup(c, order) && Contents(c, h) && Watches(c, order, h)
    requires SameFiles(c.items, u.items)
    requires u.pathToIdx == c.pathToIdx && u.idxToPath == c.idxToPath && u.watchToIdx == c.watchToIdx
    requires forall i :: i in order <==> i in after
    ensures Lookup(u, after) && Contents(u, h) && Watches(u, after, h)
  {
    InRange(c, order);
    forall p | p in u.pathToIdx ensures PathWatched(u, h, p) { assert PathWatched(c, h, p); }
    forall i | i in u.idxToPath ensures SlotWatched(u, h, i) { assert SlotWatched(c, h, i); }
    forall w | w in u.watchToIdx ensures WatchMapped(u, after, h, w) { assert WatchMapped(c, order, h, w); }
  }

  /** The history of uses does not matter for files and watches. */
  lemma TouchedKeeps(c: Rep, order: seq<int>, h: History, i: int)
    requires Contents(c, h) && Watches(c, order, h)
    ensures Contents(c, Touched(h, i)) && Watches(c, order, Touched(h, i))
  {
    var g := Touched(h, i);
    forall p | p in c.pathToIdx ensures PathWatched(c, g, p) { assert PathWatched(c, h, p); }
    forall j | j in c.idxToPath ensures SlotWatched(c, g, j) { assert SlotWatched(c, h, j); }
    forall w | w in c.watchToIdx ensures WatchMapped(c, order, g, w) { assert WatchMapped(c, order, h, w); }
  }

  // ----- recency -----

  function Touched(h: History, i: int): History {
    h.(used := h.used[i := h.clock], clock := h.clock + 1)
  }

  lemma RecencyToBack(order: seq<int>, h: History, k: nat)
    requires Recency(order, h) && Distinct(order) && k < |order|
    ensures Recency(ToBack(order, k), Touched(h, order[k]))
  {
    var w, g := ToBack(order, k), Touched(h, order[k]);
    WithoutElements(order, k);
    forall i | i in w ensures i in g.used && g.used[i] < g.clock { assert i in order; }
    forall a, b | 0 <= a < b < |w| ensures Earlier(w, g, a, b) {
      var c := if a < k then a else a + 1;
      assert w[a] == order[c] && w[a] in Without(order, k);
      if b + 1 < |w| {
        var d := if b < k then b else b + 1;
        assert w[b] == order[d] && w[b] in Without(order, k) && Earlier(order, h, c, d);
      }
    }
  }

  /** A hit keeps everything. */
  lemma FetchKeeps(c: Rep, order: seq<int>, h: History, path: Path, client: nat, k: nat)
    requires Good(c, order, h) && Hit(c, order, path, k)
    ensures Good(Fetch(c, path, client).0, ToBack(order, k), Touched(h, order[k]))
    ensures path in h.latest && Fetch(c, path, client).1 == Found(h.latest[path])
  {
    var u := Fetch(c, path, client).0;
    var g := Touched(h, order[k]);
    assert NodeOk(c.items, order, k);
    FetchMoves(c, order, path, client, k);
    FetchHit(c, order, path, client, k);
    WithoutElements(order, k);
    LocksAfterFetch(c, u, order, order[k], client);
    assert Locks(u, ToBack(order, k));
    KeepFiles(c, u, order, ToBack(order, k), h);
    TouchedKeeps(u, ToBack(order, k), h, order[k]);
    RecencyToBack(order, h, k);
  }

  // ----- a modification event -----

  function Noted(h: History, watch: int): History {
    if watch in h.kernel then
      h.(stale := h.stale + set p | p in h.latest && h.files(p) == h.kernel[watch])
    else h
  }

  lemma ModifiedShape(c: Rep, order: seq<int>, h: History, watch: int)
    requires Good(c, order, h)
    ensures var u := Modified(c, watch);
            && Shape(u, order) && Locks(u, order) && Lookup(u, order)
            && u == c.(items := u.items) && |u.items| == |c.items|
            && (LocksExact(c) ==> LocksExact(u))
            && forall j :: 0 <= j < |c.items| ==>
                 u.items[j].buffer == c.items[j].buffer && u.items[j].watch == c.items[j].watch
                 && u.items[j].outdated ==
                      (c.items[j].outdated || (watch in c.watchToIdx && c.watchToIdx[watch] == j))
  {
    var u := Modified(c, watch);
    InRange(c, order);
    SameLinks(c.items, order, u.items);
    forall j | 0 <= j < |u.items| ensures u.items[j].lock == c.items[j].lock && Holders(u, j) == Holders(c, j) { }
  }

  /** The path a slot is found under, and the watch that outdates it. */
  lemma WatchedPath(c: Rep, order: seq<int>, h: History, watch: int, p: Path)
    requires Watches(c, order, h) && p in c.pathToIdx
    ensures watch in h.kernel && h.kernel[watch] == h.files(p) <==>
            watch in c.watchToIdx && c.watchToIdx[watch] == c.pathToIdx[p]
  {
    assert PathWatched(c, h, p);
    if watch in c.watchToIdx { assert WatchMapped(c, order, h, watch); }
  }

  lemma NotedKeepsWatches(c: Rep, u: Rep, order: seq<int>, h: History, watch: int)
    requires Shape(c, order) && Lookup(c, order) && Watches(c, order, h)
    requires u == c.(items := u.items) && |u.items| == |c.items|
    requires forall j :: 0 <= j < |c.items| ==> u.items[j].watch == c.items[j].watch
    ensures Watches(u, order, Noted(h, watch))
  {
    var g := Noted(h, watch);
    InRange(c, order);
    assert OneName(u, g) by {
      forall i | i in c.idxToPath ensures At(u.items, i).watch == At(c.items, i).watch { assert i in order; }
    }
    forall p | p in u.pathToIdx ensures PathWatched(u, g, p) { assert PathWatched(c, h, p); }
    forall i | i in u.idxToPath ensures SlotWatched(u, g, i) { assert SlotWatched(c, h, i); }
    forall w | w in u.watchToIdx ensures WatchMapped(u, order, g, w) { assert WatchMapped(c, order, h, w); }
  }

  lemma ModifiedContents(c: Rep, u: Rep, order: seq<int>, h: History, watch: int)
    requires Shape(c, order) && Lookup(c, order) && Contents(c, h) && Watches(c, order, h)
    requires u == c.(items := u.items) && |u.items| == |c.items|
    requires forall j :: 0 <= j < |c.items| ==>
               u.items[j].buffer == c.items[j].buffer
               && u.items[j].outdated == (c.items[j].outdated || (watch in c.watchToIdx && c.watchToIdx[watch] == j))
    ensures Contents(u, Noted(h, watch))
  {
    InRange(c, order);
    var g := Noted(h, watch);
    forall p | p in u.pathToIdx
      ensures var item := At(u.items, u.pathToIdx[p]);
              p in g.latest && item.buffer == g.latest[p] && (item.outdated <==> p in g.stale)
    {
      WatchedPath(c, order, h, watch, p);
      assert c.pathToIdx[p] in order;
    }
  }

  /** A modification event keeps everything; the path it is about is stale from then on. */
  lemma ModifiedKeeps(c: Rep, order: seq<int>, h: History, watch: int)
    requires Good(c, order, h)
    ensures Good(Modified(c, watch), order, Noted(h, watch))
  {
    var u := Modified(c, watch);
    ModifiedShape(c, order, h, watch);
    NotedKeepsWatches(c, u, order, h, watch);
    ModifiedContents(c, u, order, h, watch);
    forall a, b | 0 <= a < b < |order| ensures Earlier(order, Noted(h, watch), a, b) { assert Earlier(order, h, a, b); }
  }

  // ----- an insertion -----

  /** The list without the slot an insertion takes. */
  function Rest(c: Rep, order: seq<int>): seq<int> {
    if c.free != {} || order == [] then order else order[1..]
  }

  lemma FullList(c: Rep, order: seq<int>)
    requires Shape(c, order) && c.free == {}
    ensures |order| == |c.items| && c.lowest == order[0] && NodeOk(c.items, order, 0) && NodeOk(c.items, order, 1)
  {
    UpToSize(|c.items|);
    DistinctSize(order);
    assert (set i | i in order) >= UpTo(|c.items|) by {
      forall i | i in UpTo(|c.items|) ensures i in order { assert i !in c.free; }
    }
    SubsetSize(UpTo(|c.items|), (set i | i in order));
    WalksVisitAll(c, order);
    assert NodeOk(c.items, order, 0) && NodeOk(c.items, order, 1);
  }

  /** After the slot is claimed it is blank, outside the list and unlocked, and the list is whole without it. */
  ghost predicate Claimed(c: Rep, u: Rep, rest: seq<int>, i: int) {
    && |u.items| == |c.items| >= 2 && 0 <= i < |u.items| && i !in rest
    && Linked(u.items, rest) && u.items[i] == Blank
    && u.highest == (if rest == [] then -1 else rest[|rest| - 1])
    && u.lowest == (if rest == [] then i else rest[0])
    && (forall j :: j in u.free <==> 0 <= j < |u.items| && j !in rest && j != i)
    && (forall j :: j in u.free ==> u.items[j] == Blank)
    && (forall j :: 0 <= j < |c.items| && j != i ==>
          u.items[j].buffer == c.items[j].buffer && u.items[j].outdated == c.items[j].outdated
          && u.items[j].watch == c.items[j].watch && u.items[j].lock == c.items[j].lock)
    && c.items[i].lock == 0
    && u.users == c.users && u.clientToIdx == c.clientToIdx
  }

  lemma ClaimFree(c: Rep, order: seq<int>, i: int)
    requires Shape(c, order) && Takes(c, i) && c.free != {}
    ensures Claimed(c, Claim(c, i), Rest(c, order), i)
  {
    if order != [] { assert NodeOk(c.items, order, 0); }
  }

  lemma ClaimEvict(c: Rep, order: seq<int>, i: int)
    requires Shape(c, order) && Takes(c, i) && c.free == {}
    ensures Claimed(c, Claim(c, i), Rest(c, order), i)
    ensures i == order[0]
  {
    var u := Claim(c, i);
    FullList(c, order);
    assert c.items[i].next == order[1];
    DropFirstKeeps(c.items, order, u.items);
    forall j | 0 <= j < |u.items| ensures j in order[1..] || j == i {
      assert j !in c.free && j in order;
      var k :| 0 <= k < |order| && order[k] == j;
      if k > 0 { assert order[1..][k - 1] == j; }
    }
  }

  lemma ClaimOk(c: Rep, order: seq<int>, i: int)
    requires Shape(c, order) && Takes(c, i)
    ensures Claimed(c, Claim(c, i), Rest(c, order), i)
    ensures c.free == {} ==> order != [] && i == order[0]
  {
    if c.free != {} { ClaimFree(c, order, i); } else { ClaimEvict(c, order, i); }
  }

  /** The claimed slot is filled and joins the list at its back. */
  lemma FillOk(c: Rep, u: Rep, rest: seq<int>, i: int, path: Path, buffer: Data, watch: int)
    requires Claimed(c, u, rest, i)
    ensures var v := Fill(u, i, path, buffer, watch);
            && Shape(v, rest + [i])
            && v.items[i].buffer == buffer && v.items[i].watch == watch && !v.items[i].outdated
            && v.items[i].lock == 0
            && forall j :: 0 <= j < |u.items| && j != i ==>
                 v.items[j].buffer == u.items[j].buffer && v.items[j].outdated == u.items[j].outdated
                 && v.items[j].watch == u.items[j].watch && v.items[j].lock == u.items[j].lock
  {
    var v := Fill(u, i, path, buffer, watch);
    if rest != [] { assert NodeOk(u.items, rest, |rest| - 1); }
    LinkLastKeeps(u.items, rest, i, v.items);
  }

  /** The kernel's watches once the evicted slot's watch is removed. */
  function KernelAfterClaim(c: Rep, h: History): map<int, nat> {
    if c.free != {} then h.kernel else h.kernel - {At(c.items, c.lowest).watch}
  }

  /** What the kernel answers when a watch is added: the id it already has for the file, or one never issued. */
  ghost predicate WatchFor(c: Rep, h: History, path: Path, watch: int) {
    var kernel := KernelAfterClaim(c, h);
    && watch != -1
    && if exists w :: w in kernel && kernel[w] == h.files(path) then watch in kernel && kernel[watch] == h.files(path)
       else watch !in h.issued
  }

  /** Or it refuses to watch the file. */
  ghost predicate Answer(c: Rep, h: History, path: Path, watch: int) {
    watch == -1 || WatchFor(c, h, path, watch)
  }

  /** Another slot remembers this id for another path: both paths lead to the same file. */
  ghost predicate OtherName(c: Rep, i: int, path: Path, watch: int) {
    exists j :: j in c.idxToPath && j != i && At(c.items, j).watch == watch && c.idxToPath[j] != path
  }

  function Inserted(c: Rep, h: History, i: int, path: Path, buffer: Data, watch: int): History {
    var kernel := KernelAfterClaim(c, h);
    History(h.files, h.latest[path := buffer], if watch == -1 then kernel else kernel[watch := h.files(path)],
            if watch == -1 then h.issued else h.issued + {watch}, h.stale - {path}, h.used[i := h.clock], h.clock + 1)
  }

  lemma RestElements(c: Rep, order: seq<int>, i: int)
    requires Shape(c, order) && Takes(c, i)
    ensures forall j :: j in Rest(c, order) <==> j in order && j != i
    ensures forall j :: j in Rest(c, order) + [i] <==> j in order || j == i
  {
    ClaimOk(c, order, i);
    var rest := Rest(c, order);
    forall j | j in order && j != i ensures j in rest {
      var k :| 0 <= k < |order| && order[k] == j;
      if c.free == {} { assert rest[k - 1] == j; }
    }
  }

  lemma InsertShape(c: Rep, order: seq<int>, i: int, path: Path, buffer: Data, watch: int)
    requires Shape(c, order) && Takes(c, i)
    ensures var v := Insert(c, i, path, buffer, watch);
            && Shape(v, Rest(c, order) + [i])
            && v.items[i].buffer == buffer && v.items[i].watch == watch && !v.items[i].outdated
            && v.items[i].lock == 0 == c.items[i].lock
            && v.users == c.users && v.clientToIdx == c.clientToIdx && |v.items| == |c.items|
            && forall j :: 0 <= j < |c.items| && j != i ==>
                 v.items[j].buffer == c.items[j].buffer && v.items[j].outdated == c.items[j].outdated
                 && v.items[j].watch == c.items[j].watch && v.items[j].lock == c.items[j].lock
  {
    ClaimOk(c, order, i);
    FillOk(c, Claim(c, i), Rest(c, order), i, path, buffer, watch);
  }

  lemma InsertLocks(c: Rep, order: seq<int>, i: int, path: Path, buffer: Data, watch: int)
    requires Shape(c, order) && Locks(c, order) && Takes(c, i)
    ensures Locks(Insert(c, i, path, buffer, watch), Rest(c, order) + [i])
    ensures LocksExact(c) ==> LocksExact(Insert(c, i, path, buffer, watch))
    ensures Holders(c, i) == {}
  {
    var v := Insert(c, i, path, buffer, watch);
    InsertShape(c, order, i, path, buffer, watch);
    RestElements(c, order, i);
    forall j | 0 <= j < |v.items| ensures Holders(v, j) == Holders(c, j) && v.items[j].lock == c.items[j].lock { }
  }

  lemma InsertLookup(c: Rep, order: seq<int>, h: History, i: int, path: Path, buffer: Data, watch: int)
    requires Shape(c, order) && Lookup(c, order) && Takes(c, i)
    ensures var v := Insert(c, i, path, buffer, watch);
            && Lookup(v, Rest(c, order) + [i])
            && path in v.pathToIdx && v.pathToIdx[path] == i && v.idxToPath[i] == path
            && (forall p :: p in v.pathToIdx && p != path ==>
                  p in c.pathToIdx && v.pathToIdx[p] == c.pathToIdx[p] != i)
            && (c.free == {} ==> order != [] && i in c.idxToPath && c.idxToPath[i] !in v.pathToIdx - {path})
            && (forall j :: j in v.idxToPath && j != i ==> j in c.idxToPath && v.idxToPath[j] == c.idxToPath[j])
  {
    ClaimOk(c, order, i);
    RestElements(c, order, i);
    if c.free != {} { assert i !in order; }
  }

  lemma InsertContents(c: Rep, order: seq<int>, h: History, i: int, path: Path, buffer: Data, watch: int)
    requires Shape(c, order) && Lookup(c, order) && Contents(c, h) && Takes(c, i)
    ensures Contents(Insert(c, i, path, buffer, watch), Inserted(c, h, i, path, buffer, watch))
  {
    InsertShape(c, order, i, path, buffer, watch);
    InsertLookup(c, order, h, i, path, buffer, watch);
    InRange(c, order);
  }

  lemma InsertRecency(c: Rep, order: seq<int>, h: History, i: int, path: Path, buffer: Data, watch: int)
    requires Shape(c, order) && Recency(order, h) && Takes(c, i)
    ensures Recency(Rest(c, order) + [i], Inserted(c, h, i, path, buffer, watch))
  {
    var g := Inserted(c, h, i, path, buffer, watch);
    var rest := Rest(c, order);
    var w := rest + [i];
    RestElements(c, order, i);
    forall a, b | 0 <= a < b < |w| ensures Earlier(w, g, a, b) {
      var d := |order| - |rest|;
      assert w[a] == rest[a] == order[a + d] && rest[a] in rest;
      if b < |rest| { assert w[b] == rest[b] == order[b + d] && rest[b] in rest && Earlier(order, h, a + d, b + d); }
    }
  }

  /** A path found in another slot than the one claimed keeps its watch. */
  lemma OtherPathWatched(c: Rep, order: seq<int>, h: History, i: int, p: Path)
    requires Good(c, order, h) && Takes(c, i) && p in c.pathToIdx && c.pathToIdx[p] != i
    requires c.free == {} ==> i in c.idxToPath && c.idxToPath[i] != p
    ensures var w := At(c.items, c.pathToIdx[p]).watch;
            w in KernelAfterClaim(c, h) && h.kernel[w] == h.files(p) && (c.free == {} ==> w != At(c.items, i).watch)
  {
    var j := c.pathToIdx[p];
    assert PathWatched(c, h, p);
    assert j in c.idxToPath && c.idxToPath[j] == p;
    if c.free == {} { assert At(c.items, i).watch != At(c.items, j).watch; }
  }

  lemma InsertMaps(c: Rep, order: seq<int>, i: int, path: Path, buffer: Data, watch: int)
    requires Shape(c, order) && Takes(c, i)
    ensures Insert(c, i, path, buffer, watch).watchToIdx
         == (if c.free != {} then c.watchToIdx else c.watchToIdx - {At(c.items, i).watch})[watch := i]
  {
  }

  lemma OwnPathWatched(c: Rep, order: seq<int>, h: History, i: int, path: Path, buffer: Data, watch: int)
    requires Shape(c, order) && Lookup(c, order) && Takes(c, i) && watch != -1
    ensures path in Insert(c, i, path, buffer, watch).pathToIdx
    ensures PathWatched(Insert(c, i, path, buffer, watch), Inserted(c, h, i, path, buffer, watch), path)
  {
    InsertShape(c, order, i, path, buffer, watch);
    InsertMaps(c, order, i, path, buffer, watch);
  }

  /** The slot of another path keeps its place and its watch. */
  lemma OtherPathKept(c: Rep, order: seq<int>, h: History, i: int, path: Path, buffer: Data, watch: int, p: Path)
    requires Good(c, order, h) && Takes(c, i)
    requires p in Insert(c, i, path, buffer, watch).pathToIdx && p != path
    ensures var v := Insert(c, i, path, buffer, watch);
            && p in c.pathToIdx && v.pathToIdx[p] == c.pathToIdx[p] != i
            && c.pathToIdx[p] in c.idxToPath && c.idxToPath[c.pathToIdx[p]] == p
            && At(v.items, c.pathToIdx[p]).watch == At(c.items, c.pathToIdx[p]).watch
            && At(c.items, c.pathToIdx[p]).watch in KernelAfterClaim(c, h)
            && (c.free == {} ==> At(c.items, c.pathToIdx[p]).watch != At(c.items, i).watch)
  {
    InsertShape(c, order, i, path, buffer, watch);
    InsertLookup(c, order, h, i, path, buffer, watch);
    var j := c.pathToIdx[p];
    InRange(c, order);
    assert j in order && j in c.idxToPath && c.idxToPath[j] == p;
    OtherPathWatched(c, order, h, i, p);
  }

  lemma OtherPathStaysWatched(c: Rep, order: seq<int>, h: History, i: int, path: Path, buffer: Data, watch: int,
                              p: Path)
    requires Good(c, order, h) && Takes(c, i)
    requires p in Insert(c, i, path, buffer, watch).pathToIdx && p != path && p in c.pathToIdx
    ensures PathWatched(Insert(c, i, path, buffer, watch), Inserted(c, h, i, path, buffer, watch), p)
       <==> At(c.items, c.pathToIdx[p]).watch != watch
  {
    OtherPathKept(c, order, h, i, path, buffer, watch, p);
    InsertMaps(c, order, i, path, buffer, watch);
    assert PathWatched(c, h, p);
  }

  /** A path stays watched exactly when its slot does not remember the new watch, or is the new slot. */
  lemma InsertPathWatched(c: Rep, order: seq<int>, h: History, i: int, path: Path, buffer: Data, watch: int, p: Path)
    requires Good(c, order, h) && Takes(c, i) && WatchFor(c, h, path, watch)
    requires p in Insert(c, i, path, buffer, watch).pathToIdx
    ensures PathWatched(Insert(c, i, path, buffer, watch), Inserted(c, h, i, path, buffer, watch), p)
       <==> p == path || (p in c.pathToIdx && At(c.items, c.pathToIdx[p]).watch != watch)
  {
    if p == path {
      OwnPathWatched(c, order, h, i, path, buffer, watch);
    } else {
      OtherPathKept(c, order, h, i, path, buffer, watch, p);
      OtherPathStaysWatched(c, order, h, i, path, buffer, watch, p);
    }
  }

  /** Another path, found in the cache once the slot is claimed, is watched by this id. */
  ghost predicate OtherFound(c: Rep, i: int, path: Path, watch: int) {
    var u := Claim(c, i);
    exists p :: p in u.pathToIdx && p != path && At(u.items, u.pathToIdx[p]).watch == watch
  }

  lemma FoundAfterInsert(c: Rep, order: seq<int>, h: History, i: int, path: Path, buffer: Data, watch: int, p: Path)
    requires Good(c, order, h) && Takes(c, i) && p != path
    ensures p in Insert(c, i, path, buffer, watch).pathToIdx <==> p in Claim(c, i).pathToIdx
    ensures p in Claim(c, i).pathToIdx ==>
              p in c.pathToIdx && c.pathToIdx[p] == Claim(c, i).pathToIdx[p]
              && At(Claim(c, i).items, c.pathToIdx[p]).watch == At(c.items, c.pathToIdx[p]).watch
  {
    ClaimOk(c, order, i);
    if p in Claim(c, i).pathToIdx { OtherPathKept(c, order, h, i, path, buffer, watch, p); }
  }

  /** Every path found stays watched exactly when the kernel watches the file, by an id that is not kept for another
      path found in the cache. */
  lemma InsertWatchesExact(c: Rep, order: seq<int>, h: History, i: int, path: Path, buffer: Data, watch: int)
    requires Good(c, order, h) && Takes(c, i) && Answer(c, h, path, watch)
    ensures var v, g := Insert(c, i, path, buffer, watch), Inserted(c, h, i, path, buffer, watch);
            (forall p :: p in v.pathToIdx ==> PathWatched(v, g, p)) <==> watch != -1 && !OtherFound(c, i, path, watch)
  {
    if watch == -1 {
      UnwatchedPath(c, order, h, i, path, buffer);
    } else {
      GrantedWatchesExact(c, order, h, i, path, buffer, watch);
    }
  }

  lemma UnwatchedPath(c: Rep, order: seq<int>, h: History, i: int, path: Path, buffer: Data)
    requires Good(c, order, h) && Takes(c, i)
    ensures var v := Insert(c, i, path, buffer, -1);
            path in v.pathToIdx && !PathWatched(v, Inserted(c, h, i, path, buffer, -1), path)
  {
    InsertShape(c, order, i, path, buffer, -1);
  }

  lemma GrantedWatchesExact(c: Rep, order: seq<int>, h: History, i: int, path: Path, buffer: Data, watch: int)
    requires Good(c, order, h) && Takes(c, i) && WatchFor(c, h, path, watch)
    ensures var v, g := Insert(c, i, path, buffer, watch), Inserted(c, h, i, path, buffer, watch);
            (forall p :: p in v.pathToIdx ==> PathWatched(v, g, p)) <==> !OtherFound(c, i, path, watch)
  {
    var u, v := Claim(c, i), Insert(c, i, path, buffer, watch);
    var g := Inserted(c, h, i, path, buffer, watch);
    if OtherFound(c, i, path, watch) {
      var p :| p in u.pathToIdx && p != path && At(u.items, u.pathToIdx[p]).watch == watch;
      FoundAfterInsert(c, order, h, i, path, buffer, watch, p);
      InsertPathWatched(c, order, h, i, path, buffer, watch, p);
    } else {
      forall p | p in v.pathToIdx ensures PathWatched(v, g, p) {
        if p != path { FoundAfterInsert(c, order, h, i, path, buffer, watch, p); }
        InsertPathWatched(c, order, h, i, path, buffer, watch, p);
      }
    }
  }

  /** The other slots keep their paths and watches. */
  lemma InsertOthers(c: Rep, order: seq<int>, h: History, i: int, path: Path, buffer: Data, watch: int)
    requires Shape(c, order) && Lookup(c, order) && Takes(c, i)
    ensures var v := Insert(c, i, path, buffer, watch);
            && i in v.idxToPath && v.idxToPath[i] == path && At(v.items, i).watch == watch
            && (forall j :: j != i ==> (j in v.idxToPath <==> j in c.idxToPath))
            && (forall j :: j != i && j in c.idxToPath ==>
                  v.idxToPath[j] == c.idxToPath[j] && At(v.items, j).watch == At(c.items, j).watch)
  {
    InsertShape(c, order, i, path, buffer, watch);
    ClaimOk(c, order, i);
    InRange(c, order);
  }

  lemma InsertSlotWatched(c: Rep, order: seq<int>, h: History, i: int, path: Path, buffer: Data, watch: int, j: int)
    requires Good(c, order, h) && Takes(c, i)
    requires WatchFor(c, h, path, watch) && !OtherName(c, i, path, watch)
    requires j in Insert(c, i, path, buffer, watch).idxToPath
    ensures SlotWatched(Insert(c, i, path, buffer, watch), Inserted(c, h, i, path, buffer, watch), j)
  {
    InsertOthers(c, order, h, i, path, buffer, watch);
    if j != i { assert SlotWatched(c, h, j); }
  }

  lemma InsertOneName(c: Rep, order: seq<int>, h: History, i: int, path: Path, buffer: Data, watch: int)
    requires Shape(c, order) && Lookup(c, order) && OneName(c, h) && KernelOk(h) && Takes(c, i)
    ensures OneName(Insert(c, i, path, buffer, watch), Inserted(c, h, i, path, buffer, watch))
       <==> watch == -1 || !OtherName(c, i, path, watch)
  {
    InsertOthers(c, order, h, i, path, buffer, watch);
  }

  lemma OtherWatchMapped(c: Rep, order: seq<int>, h: History, i: int, path: Path, buffer: Data, watch: int, w: int)
    requires Good(c, order, h) && Takes(c, i) && w != watch
    requires w in Insert(c, i, path, buffer, watch).watchToIdx
    ensures w in c.watchToIdx && c.watchToIdx[w] in order && c.watchToIdx[w] != i
    ensures Insert(c, i, path, buffer, watch).watchToIdx[w] == c.watchToIdx[w]
    ensures w in KernelAfterClaim(c, h)
  {
    InsertMaps(c, order, i, path, buffer, watch);
    ClaimOk(c, order, i);
    assert WatchMapped(c, order, h, w);
    if c.free != {} { assert i !in order; }
  }

  lemma InsertWatchMapped(c: Rep, order: seq<int>, h: History, i: int, path: Path, buffer: Data, watch: int, w: int)
    requires Good(c, order, h) && Takes(c, i)
    requires WatchFor(c, h, path, watch) && !OtherName(c, i, path, watch)
    requires w in Insert(c, i, path, buffer, watch).watchToIdx
    ensures WatchMapped(Insert(c, i, path, buffer, watch), Rest(c, order) + [i],
                        Inserted(c, h, i, path, buffer, watch), w)
  {
    InsertShape(c, order, i, path, buffer, watch);
    RestElements(c, order, i);
    if w != watch {
      OtherWatchMapped(c, order, h, i, path, buffer, watch, w);
      InRange(c, order);
      assert WatchMapped(c, order, h, w);
    } else {
      InsertMaps(c, order, i, path, buffer, watch);
    }
  }

  lemma InsertWatches(c: Rep, order: seq<int>, h: History, i: int, path: Path, buffer: Data, watch: int)
    requires Good(c, order, h) && Takes(c, i)
    requires WatchFor(c, h, path, watch) && !OtherName(c, i, path, watch)
    ensures Watches(Insert(c, i, path, buffer, watch), Rest(c, order) + [i], Inserted(c, h, i, path, buffer, watch))
  {
    var v, g := Insert(c, i, path, buffer, watch), Inserted(c, h, i, path, buffer, watch);
    forall p | p in v.pathToIdx ensures PathWatched(v, g, p) {
      InsertPathWatched(c, order, h, i, path, buffer, watch, p);
      if p != path { OtherPathKept(c, order, h, i, path, buffer, watch, p); }
    }
    forall j | j in v.idxToPath ensures SlotWatched(v, g, j) {
      InsertSlotWatched(c, order, h, i, path, buffer, watch, j);
    }
    forall w | w in v.watchToIdx ensures WatchMapped(v, Rest(c, order) + [i], g, w) {
      InsertWatchMapped(c, order, h, i, path, buffer, watch, w);
    }
    InsertOneName(c, order, h, i, path, buffer, watch);
  }

  /** An insertion keeps everything: the new slot goes to the back of the list, in place of the least recently used
      one if none was free. */
  lemma InsertKeeps(c: Rep, order: seq<int>, h: History, i: int, path: Path, buffer: Data, watch: int)
    requires Good(c, order, h) && Takes(c, i)
    requires WatchFor(c, h, path, watch) && !OtherName(c, i, path, watch)
    ensures Good(Insert(c, i, path, buffer, watch), Rest(c, order) + [i], Inserted(c, h, i, path, buffer, watch))
  {
    InsertShape(c, order, i, path, buffer, watch);
    InsertLookup(c, order, h, i, path, buffer, watch);
    InsertLocks(c, order, i, path, buffer, watch);
    InsertContents(c, order, h, i, path, buffer, watch);
    InsertWatches(c, order, h, i, path, buffer, watch);
    InsertRecency(c, order, h, i, path, buffer, watch);
  }

  /** An insertion keeps everything exactly when the kernel watches the file, by an id that no other slot remembers for
      another path. */
  lemma InsertExact(c: Rep, order: seq<int>, h: History, i: int, path: Path, buffer: Data, watch: int)
    requires Good(c, order, h) && Takes(c, i) && Answer(c, h, path, watch)
    ensures Good(Insert(c, i, path, buffer, watch), Rest(c, order) + [i], Inserted(c, h, i, path, buffer, watch))
       <==> watch != -1 && !OtherName(c, i, path, watch)
  {
    if watch == -1 {
      UnwatchedPath(c, order, h, i, path, buffer);
    } else if OtherName(c, i, path, watch) {
      InsertOneName(c, order, h, i, path, buffer, watch);
    } else {
      InsertKeeps(c, order, h, i, path, buffer, watch);
    }
  }

  /** No event will ever outdate a file that is cached without a watch. */
  lemma UnwatchedNeverOutdated(c: Rep, order: seq<int>, h: History, i: int, path: Path, buffer: Data, event: int,
                               client: nat)
    requires Good(c, order, h) && Takes(c, i) && event != -1
    ensures Fetch(Modified(Insert(c, i, path, buffer, -1), event), path, client).1 == Found(buffer)
  {
    var v, after := Insert(c, i, path, buffer, -1), Rest(c, order) + [i];
    InsertShape(c, order, i, path, buffer, -1);
    InsertLookup(c, order, h, i, path, buffer, -1);
    OtherWatchesKept(c, order, h, i, path, buffer, event);
    var k := HitSlot(v, after, path);
    MarkedKeepsShape(v, after, event);
    FetchHit(Modified(v, event), after, path, client, k);
  }

  lemma MarkedKeepsShape(c: Rep, order: seq<int>, event: int)
    requires Shape(c, order) && (event in c.watchToIdx ==> c.watchToIdx[event] in order)
    ensures Shape(Modified(c, event), order)
  {
    SameLinks(c.items, order, Modified(c, event).items);
  }

  /** Only the id an insertion gets leads to its slot. */
  lemma OtherWatchesKept(c: Rep, order: seq<int>, h: History, i: int, path: Path, buffer: Data, event: int)
    requires Good(c, order, h) && Takes(c, i) && event != -1
    ensures var w := Insert(c, i, path, buffer, -1).watchToIdx; event in w ==> w[event] != i && w[event] in order
  {
    InsertMaps(c, order, i, path, buffer, -1);
    ClaimOk(c, order, i);
    if event in c.watchToIdx {
      assert WatchMapped(c, order, h, event);
      if c.free != {} { assert i !in order; }
    }
  }
}
