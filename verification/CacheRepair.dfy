/** What would hold if a fetch took an outdated slot apart the way an eviction does: out of the list, the lookup maps
    and the watches, and only once no client uses it.  Everything else is the cache as it is. */
module CacheRepair {
  import opened Bytes
  import opened Cache
  import opened CacheList
  import opened CacheInvariant
  import opened CacheProofs
  import opened CacheRuns

  /** The slot found under the path leaves the list from wherever it stands, and everything that leads to it goes. */
  function Drop(c: Rep, path: Path): Rep
    requires path in c.pathToIdx
  {
    var i := c.pathToIdx[path];
    var item := At(c.items, i);
    var items := SetPrev(SetNext(c.items, item.prev, item.next), item.next, item.prev);
    c.(items := Put(items, i, Blank), free := c.free + {i},
       lowest := if item.prev == -1 then item.next else c.lowest,
       highest := if item.next == -1 then item.prev else c.highest,
       pathToIdx := c.pathToIdx - {path}, idxToPath := c.idxToPath - {i}, watchToIdx := c.watchToIdx - {item.watch})
  }

  /** A fetch that drops an outdated slot nobody uses, and otherwise leaves it alone; it misses in both cases. */
  function Refetch(c: Rep, path: Path, client: nat): (Rep, Fetched) {
    if !FetchesOutdated(c, path) then Fetch(c, path, client)
    else if At(c.items, c.pathToIdx[path]).lock == 0 then (Drop(c, path), Missing)
    else (c, Missing)
  }

  function Redone(c: Rep, op: Op): Rep
    requires op.InsertOp? ==> Takes(c, op.slot)
  {
    if op.FetchOp? then Refetch(c, op.path, op.client).0 else Done(c, op)
  }

  function Rerecorded(c: Rep, h: History, op: Op): History {
    if op.FetchOp? && FetchesOutdated(c, op.path) then
      var item := At(c.items, c.pathToIdx[op.path]);
      if item.lock == 0 then h.(kernel := h.kernel - {item.watch}) else h
    else Recorded(c, h, op)
  }

  // ----- dropping a slot -----

  lemma DropShape(c: Rep, order: seq<int>, path: Path, k: nat)
    requires Shape(c, order) && path in c.pathToIdx && k < |order| && order[k] == c.pathToIdx[path]
    ensures var d := Drop(c, path);
            && Shape(d, Without(order, k)) && |d.items| == |c.items| && 0 <= order[k] < |c.items|
            && d.items[order[k]] == Blank
  {
    var d := Drop(c, path);
    var w := Without(order, k);
    var item := At(c.items, order[k]);
    var items := SetPrev(SetNext(c.items, item.prev, item.next), item.next, item.prev);
    assert NodeOk(c.items, order, k);
    if k > 0 { assert NodeOk(c.items, order, k - 1); }
    if k + 1 < |order| { assert NodeOk(c.items, order, k + 1); }
    WithoutElements(order, k);
    UnlinkKeeps(c.items, order, k, items);
    forall j | 0 <= j < |w| ensures NodeOk(d.items, w, j) { assert NodeOk(items, w, j) && w[j] != order[k]; }
    InRange(c, order);
    forall j | j in d.free ensures d.items[j] == Blank {
      if j != order[k] { DropElsewhere(c, order, path, k, j); }
    }
  }

  /** The other slots keep everything but their links, and those outside the list keep those too. */
  lemma DropElsewhere(c: Rep, order: seq<int>, path: Path, k: nat, j: int)
    requires Shape(c, order) && path in c.pathToIdx && k < |order| && order[k] == c.pathToIdx[path]
    requires 0 <= j < |c.items| && j != order[k]
    ensures var d := Drop(c, path);
            && At(d.items, j) == c.items[j].(next := At(d.items, j).next, prev := At(d.items, j).prev)
            && (j !in order ==> At(d.items, j) == c.items[j])
  {
    assert NodeOk(c.items, order, k);
    if k > 0 { assert order[k - 1] in order; }
    if k + 1 < |order| { assert order[k + 1] in order; }
  }

  lemma DropWatches(c: Rep, order: seq<int>, h: History, path: Path, k: nat)
    requires Good(c, order, h) && path in c.pathToIdx && k < |order| && order[k] == c.pathToIdx[path]
    ensures var w := At(c.items, order[k]).watch;
            Watches(Drop(c, path), Without(order, k), h.(kernel := h.kernel - {w}))
  {
    var d, i := Drop(c, path), order[k];
    var g := h.(kernel := h.kernel - {At(c.items, i).watch});
    InRange(c, order);
    WithoutElements(order, k);
    forall j | j in order && j != i ensures At(d.items, j).watch == At(c.items, j).watch {
      DropElsewhere(c, order, path, k, j);
    }
    forall p | p in d.pathToIdx ensures PathWatched(d, g, p) {
      assert PathWatched(c, h, p) && PathWatched(c, h, path);
      assert c.idxToPath[c.pathToIdx[p]] == p && c.idxToPath[i] == path;
      assert At(c.items, c.pathToIdx[p]).watch != At(c.items, i).watch;
    }
    forall j | j in d.idxToPath ensures SlotWatched(d, g, j) { assert SlotWatched(c, h, j); }
    forall w | w in d.watchToIdx ensures WatchMapped(d, Without(order, k), g, w) {
      assert WatchMapped(c, order, h, w);
    }
  }

  lemma DropLocks(c: Rep, order: seq<int>, path: Path, k: nat)
    requires Shape(c, order) && Locks(c, order) && path in c.pathToIdx && k < |order| && order[k] == c.pathToIdx[path]
    requires At(c.items, order[k]).lock == 0
    ensures Locks(Drop(c, path), Without(order, k))
    ensures LocksExact(c) ==> LocksExact(Drop(c, path))
  {
    var d := Drop(c, path);
    InRange(c, order);
    DropShape(c, order, path, k);
    WithoutElements(order, k);
    assert Holders(c, order[k]) == {};
    forall u | u in d.users ensures d.clientToIdx[u] in Without(order, k) {
      assert u !in Holders(c, order[k]);
    }
    forall j | 0 <= j < |d.items| ensures Holders(d, j) == Holders(c, j) && d.items[j].lock == c.items[j].lock {
      if j != order[k] { DropElsewhere(c, order, path, k, j); }
    }
  }

  lemma DropRecency(order: seq<int>, h: History, g: History, k: nat)
    requires Recency(order, h) && k < |order| && g.used == h.used && g.clock == h.clock
    ensures Recency(Without(order, k), g)
  {
    var w := Without(order, k);
    forall i | i in w ensures i in g.used && g.used[i] < g.clock { assert i in order; }
    forall a, b | 0 <= a < b < |w| ensures Earlier(w, g, a, b) {
      var x, y := if a < k then a else a + 1, if b < k then b else b + 1;
      assert w[a] == order[x] && w[b] == order[y] && Earlier(order, h, x, y);
    }
  }

  /** Dropping a slot nobody uses keeps everything. */
  lemma DropKeeps(c: Rep, order: seq<int>, h: History, path: Path, k: nat)
    requires Good(c, order, h) && path in c.pathToIdx && k < |order| && order[k] == c.pathToIdx[path]
    requires At(c.items, order[k]).lock == 0
    ensures Good(Drop(c, path), Without(order, k), h.(kernel := h.kernel - {At(c.items, order[k]).watch}))
    ensures LocksExact(c) ==> LocksExact(Drop(c, path))
  {
    var d := Drop(c, path);
    InRange(c, order);
    DropShape(c, order, path, k);
    WithoutElements(order, k);
    DropWatches(c, order, h, path, k);
    DropLocks(c, order, path, k);
    DropRecency(order, h, h.(kernel := h.kernel - {At(c.items, order[k]).watch}), k);
    forall p | p in d.pathToIdx ensures d.pathToIdx[p] in order && d.pathToIdx[p] != order[k] {
      assert c.idxToPath[c.pathToIdx[p]] == p && c.idxToPath[order[k]] == path;
    }
    forall j | j in order && j != order[k]
      ensures At(d.items, j).buffer == At(c.items, j).buffer && At(d.items, j).outdated == At(c.items, j).outdated
    {
      DropElsewhere(c, order, path, k, j);
    }
  }

  // ----- runs -----

  /** What is left to ask: that the kernel watches a file inserted, by an id of its own. */
  ghost predicate Watched(c: Rep, op: Op) {
    op.InsertOp? ==> op.watch != -1 && !OtherName(c, op.slot, op.path, op.watch)
  }

  ghost predicate Leads(s: State, op: Op, t: State) {
    Possible(s.c, s.h, op) && t == State(Redone(s.c, op), Rerecorded(s.c, s.h, op))
  }

  ghost predicate Run(n: nat, files: Path -> nat, states: seq<State>, ops: seq<Op>) {
    && |states| == |ops| + 1 && states[0] == State(Empty(n), NoHistory(files))
    && forall k :: 0 <= k < |ops| ==> Leads(states[k], ops[k], states[k + 1])
  }

  lemma StepExact(s: State, op: Op, t: State)
    requires InOrder(s) && Leads(s, op, t)
    ensures InOrder(t) <==> Watched(s.c, op)
  {
    if op.FetchOp? && FetchesOutdated(s.c, op.path) {
      var order :| Good(s.c, order, s.h);
      var k := HitSlot(s.c, order, op.path);
      if At(s.c.items, order[k]).lock == 0 { DropKeeps(s.c, order, s.h, op.path, k); }
    } else {
      CacheRuns.StepExact(s, op, t);
    }
  }

  /** Such a cache stays in order all along a run exactly when its insertions are watched, outdated files or not. */
  lemma RunExact(n: nat, files: Path -> nat, states: seq<State>, ops: seq<Op>)
    requires n >= 2 && Run(n, files, states, ops)
    ensures (forall k :: 0 <= k <= |ops| ==> InOrder(states[k]))
       <==> (forall k :: 0 <= k < |ops| ==> Watched(states[k].c, ops[k]))
  {
    EmptyGood(n, files);
    if forall k :: 0 <= k < |ops| ==> Watched(states[k].c, ops[k]) {
      for m := 0 to |ops|
        invariant forall k :: 0 <= k <= m ==> InOrder(states[k])
      {
        assert Leads(states[m], ops[m], states[m + 1]) && Watched(states[m].c, ops[m]);
        StepExact(states[m], ops[m], states[m + 1]);
      }
    } else {
      var k :| 0 <= k < |ops| && !Watched(states[k].c, ops[k]);
      assert Leads(states[k], ops[k], states[k + 1]);
      if InOrder(states[k]) { StepExact(states[k], ops[k], states[k + 1]); }
    }
  }

  /** Then every fetch of every run returns the bytes last inserted under its path, or misses; and it misses whenever
      the file was modified since. */
  lemma RefetchReturnsLatest(n: nat, files: Path -> nat, states: seq<State>, ops: seq<Op>, path: Path, client: nat)
    requires n >= 2 && Run(n, files, states, ops) && forall k :: 0 <= k < |ops| ==> Watched(states[k].c, ops[k])
    ensures var s := states[|ops|];
            && (path in s.c.pathToIdx ==> path in s.h.latest)
            && Refetch(s.c, path, client).1
                 == if path in s.c.pathToIdx && path !in s.h.stale then Found(s.h.latest[path]) else Missing
  {
    RunExact(n, files, states, ops);
    var s := states[|ops|];
    assert InOrder(s);
    var order :| Good(s.c, order, s.h);
    if path in s.c.pathToIdx && !FetchesOutdated(s.c, path) {
      var k := HitSlot(s.c, order, path);
      FetchKeeps(s.c, order, s.h, path, client, k);
    }
  }

  /** And no operation of others takes a slot a client is using. */
  lemma UsedSlotAlwaysKept(n: nat, files: Path -> nat, states: seq<State>, ops: seq<Op>, op: Op, user: nat)
    requires n >= 2 && Run(n, files, states, ops) && forall k :: 0 <= k < |ops| ==> Watched(states[k].c, ops[k])
    requires Possible(states[|ops|].c, states[|ops|].h, op) && user in states[|ops|].c.users && Foreign(op, user)
    ensures Keeps(states[|ops|].c, Redone(states[|ops|].c, op), user)
  {
    RunExact(n, files, states, ops);
    var c, h := states[|ops|].c, states[|ops|].h;
    assert InOrder(states[|ops|]);
    var order :| Good(c, order, h);
    UserLocks(c, order, user);
    if op.FetchOp? && FetchesOutdated(c, op.path) {
      var k := HitSlot(c, order, op.path);
      if At(c.items, order[k]).lock == 0 { DropElsewhere(c, order, op.path, k, c.clientToIdx[user]); }
    } else {
      StepKeepsUser(c, order, h, op, user);
    }
  }
}
