/** Which slot an insertion takes, which paths it leaves, and how a fetch takes an outdated slot out of the list. */
module CacheEffects {
  import opened Bytes
  import opened Cache
  import opened CacheList
  import opened CacheInvariant
  import opened CacheProofs
  import opened CacheRuns

  // ----- the slot an insertion takes -----

  /** No slot was used before this one. */
  ghost predicate UsedFirst(c: Rep, h: History, i: int) {
    i in h.used && forall j :: 0 <= j < |c.items| ==> j in h.used && h.used[i] <= h.used[j]
  }

  lemma OnlyOneUsedFirst(c: Rep, order: seq<int>, h: History, i: int)
    requires Shape(c, order) && Recency(order, h) && c.free == {} && 0 <= i < |c.items|
    ensures UsedFirst(c, h, i) <==> i == c.lowest
  {
    FullList(c, order);
    forall j | 0 <= j < |c.items| ensures j in h.used && h.used[order[0]] <= h.used[j] && j in order {
      assert j !in c.free && j in order;
      var k :| 0 <= k < |order| && order[k] == j;
      if k > 0 { assert Earlier(order, h, 0, k); }
    }
    if i != c.lowest {
      assert i !in c.free && i in order;
      var k :| 0 <= k < |order| && order[k] == i;
      assert Earlier(order, h, 0, k) && 0 <= order[0] < |c.items|;
    }
  }

  /** An insertion may take any slot that holds no file; if there is none, the slot whose last use lies furthest back,
      provided it is not locked, and no other. */
  lemma TakesExact(n: nat, ops: seq<Op>, c: Rep, h: History, i: int)
    requires n >= 2 && Reached(n, ops, c, h)
    ensures Takes(c, i) <==>
              && 0 <= i < |c.items|
              && if exists j :: 0 <= j < |c.items| && j !in c.idxToPath then i !in c.idxToPath
                 else At(c.items, i).lock == 0 && UsedFirst(c, h, i)
    ensures Refuses(c) <==> forall j :: !Takes(c, j)
  {
    var order := RunGood(n, ops, c, h);
    FreeMeansUnfilled(c, order);
    if c.free == {} {
      FullList(c, order);
      if 0 <= i < |c.items| { OnlyOneUsedFirst(c, order, h, i); }
      assert Refuses(c) <==> !Takes(c, c.lowest);
    } else {
      var j := Element(c.free);
      FreeIsTaken(c, j);
    }
  }

  lemma FreeIsTaken(c: Rep, j: int)
    requires j in c.free && 0 <= j < |c.items|
    ensures Takes(c, j) && !Refuses(c)
  {
  }

  lemma FreeMeansUnfilled(c: Rep, order: seq<int>)
    requires Shape(c, order) && Lookup(c, order)
    ensures forall i :: i in c.free <==> 0 <= i < |c.items| && i !in c.idxToPath
  {
  }

  // ----- the paths an insertion leaves -----

  /** Another path is found after an insertion where it was found before, unless the slot taken held it. */
  lemma InsertedPaths(c: Rep, order: seq<int>, i: int, path: Path, buffer: Data, watch: int, p: Path)
    requires Shape(c, order) && Lookup(c, order) && Takes(c, i)
    ensures var v := Insert(c, i, path, buffer, watch);
            && (p in v.pathToIdx <==> p == path || (p in c.pathToIdx && !(i in c.idxToPath && c.idxToPath[i] == p)))
            && (p in v.pathToIdx ==> v.pathToIdx[p] == if p == path then i else c.pathToIdx[p])
  {
    ClaimOk(c, order, i);
    if c.free == {} { FullList(c, order); }
  }

  lemma InsertedNames(c: Rep, order: seq<int>, i: int, path: Path, buffer: Data, watch: int, j: int)
    requires Shape(c, order) && Lookup(c, order) && Takes(c, i)
    ensures var v := Insert(c, i, path, buffer, watch);
            && (j in v.idxToPath <==> j == i || j in c.idxToPath)
            && (j in v.idxToPath ==> v.idxToPath[j] == if j == i then path else c.idxToPath[j])
  {
    ClaimOk(c, order, i);
    if c.free == {} { FullList(c, order); }
  }

  // ----- the paths found after a run -----

  /** The last insertion into slot i, or -1. */
  function LastInto(ops: seq<Op>, i: int): (k: int)
    ensures -1 <= k < |ops|
    ensures k >= 0 ==> ops[k].InsertOp? && ops[k].slot == i
  {
    if ops == [] then -1 else
      var last := |ops| - 1;
      if ops[last].InsertOp? && ops[last].slot == i then last else LastInto(ops[..last], i)
  }

  /** The last insertion under this path, or -1. */
  function LastUnder(ops: seq<Op>, p: Path): (k: int)
    ensures -1 <= k < |ops|
    ensures k >= 0 ==> ops[k].InsertOp? && ops[k].path == p
  {
    if ops == [] then -1 else
      var last := |ops| - 1;
      if ops[last].InsertOp? && ops[last].path == p then last else LastUnder(ops[..last], p)
  }

  /** The k-th operation refills a slot that was last filled under this path. */
  predicate Evicts(ops: seq<Op>, k: nat, p: Path)
    requires k < |ops|
  {
    ops[k].InsertOp? && var f := LastInto(ops[..k], ops[k].slot); f >= 0 && ops[f].path == p
  }

  /** The path was inserted, and no slot filled under it was refilled since. */
  predicate Kept(ops: seq<Op>, p: Path) {
    LastUnder(ops, p) >= 0 && forall k :: LastUnder(ops, p) < k < |ops| ==> !Evicts(ops, k, p)
  }

  /** The path is found exactly if it was kept, in the slot of its last insertion. */
  ghost predicate PathIs(c: Rep, ops: seq<Op>, p: Path) {
    && (p in c.pathToIdx <==> Kept(ops, p))
    && (p in c.pathToIdx ==> c.pathToIdx[p] == ops[LastUnder(ops, p)].slot)
  }

  /** The slot is named after the last insertion into it. */
  ghost predicate NameIs(c: Rep, ops: seq<Op>, i: int) {
    && (i in c.idxToPath <==> LastInto(ops, i) >= 0)
    && (i in c.idxToPath ==> c.idxToPath[i] == ops[LastInto(ops, i)].path)
  }

  ghost predicate PathsAre(c: Rep, ops: seq<Op>) {
    (forall i :: NameIs(c, ops, i)) && (forall p :: PathIs(c, ops, p))
  }

  lemma KeptNext(ops: seq<Op>, op: Op, p: Path)
    ensures Kept(ops + [op], p) <==>
              (op.InsertOp? && op.path == p) || (Kept(ops, p) && !Evicts(ops + [op], |ops|, p))
  {
    var all := ops + [op];
    assert all[..|ops|] == ops;
    forall k | 0 <= k < |ops| ensures Evicts(all, k, p) == Evicts(ops, k, p) { assert all[..k] == ops[..k]; }
  }

  lemma HitKeepsMaps(c: Rep, order: seq<int>, path: Path, client: nat)
    requires Shape(c, order) && Lookup(c, order) && !FetchesOutdated(c, path)
    ensures var u := Fetch(c, path, client).0; u.pathToIdx == c.pathToIdx && u.idxToPath == c.idxToPath
  {
    if path in c.pathToIdx {
      var k := HitSlot(c, order, path);
      FetchMoves(c, order, path, client, k);
    }
  }

  lemma LastNext(ops: seq<Op>, op: Op, p: Path, i: int)
    ensures LastUnder(ops + [op], p) == if op.InsertOp? && op.path == p then |ops| else LastUnder(ops, p)
    ensures LastInto(ops + [op], i) == if op.InsertOp? && op.slot == i then |ops| else LastInto(ops, i)
  {
    assert (ops + [op])[..|ops|] == ops;
  }

  lemma EvictsNext(ops: seq<Op>, op: Op, p: Path)
    ensures Evicts(ops + [op], |ops|, p) <==>
              op.InsertOp? && LastInto(ops, op.slot) >= 0 && ops[LastInto(ops, op.slot)].path == p
  {
    assert (ops + [op])[..|ops|] == ops;
  }

  lemma PathNext(c: Rep, order: seq<int>, ops: seq<Op>, op: Op, p: Path)
    requires Shape(c, order) && Lookup(c, order) && Orderly(c, op) && (op.InsertOp? ==> Takes(c, op.slot))
    requires PathIs(c, ops, p) && (op.InsertOp? ==> NameIs(c, ops, op.slot))
    ensures PathIs(Done(c, op), ops + [op], p)
  {
    KeptNext(ops, op, p);
    LastNext(ops, op, p, 0);
    if op.InsertOp? {
      EvictsNext(ops, op, p);
      InsertedPaths(c, order, op.slot, op.path, op.buffer, op.watch, p);
    } else if op.FetchOp? {
      HitKeepsMaps(c, order, op.path, op.client);
    }
  }

  lemma NameNext(c: Rep, order: seq<int>, ops: seq<Op>, op: Op, i: int)
    requires Shape(c, order) && Lookup(c, order) && Orderly(c, op) && (op.InsertOp? ==> Takes(c, op.slot))
    requires NameIs(c, ops, i)
    ensures NameIs(Done(c, op), ops + [op], i)
  {
    LastNext(ops, op, "", i);
    if op.InsertOp? {
      InsertedNames(c, order, op.slot, op.path, op.buffer, op.watch, i);
    } else if op.FetchOp? {
      HitKeepsMaps(c, order, op.path, op.client);
    }
  }

  lemma PathsNext(s: State, ops: seq<Op>, op: Op, t: State)
    requires InOrder(s) && Leads(s, op, t) && Orderly(s.c, op) && PathsAre(s.c, ops)
    ensures PathsAre(t.c, ops + [op])
  {
    var order :| Good(s.c, order, s.h);
    forall p ensures PathIs(t.c, ops + [op], p) { PathNext(s.c, order, ops, op, p); }
    forall i ensures NameIs(t.c, ops + [op], i) { NameNext(s.c, order, ops, op, i); }
  }

  lemma PathsStep(states: seq<State>, ops: seq<Op>, m: nat)
    requires Run(states, ops) && AllOrderly(states, ops) && m < |ops| && InOrder(states[m])
    requires PathsAre(states[m].c, ops[..m])
    ensures PathsAre(states[m + 1].c, ops[..m + 1])
  {
    assert Leads(states[m], ops[m], states[m + 1]) && Orderly(states[m].c, ops[m]);
    PathsNext(states[m], ops[..m], ops[m], states[m + 1]);
    assert ops[..m] + [ops[m]] == ops[..m + 1];
  }

  lemma PathsAlong(n: nat, files: Path -> nat, states: seq<State>, ops: seq<Op>)
    requires n >= 2 && Run(states, ops) && AllOrderly(states, ops) && states[0] == State(Empty(n), NoHistory(files))
    ensures PathsAre(states[|ops|].c, ops)
  {
    RunExact(n, files, states, ops);
    for m := 0 to |ops|
      invariant PathsAre(states[m].c, ops[..m])
    {
      PathsStep(states, ops, m);
    }
    assert ops[..|ops|] == ops;
  }

  /** After a run of orderly operations a path is found exactly when it was inserted, and no slot that was filled under
      it has been refilled since; and it is found in the slot of its last insertion. */
  lemma PathsExact(n: nat, ops: seq<Op>, c: Rep, h: History, p: Path)
    requires n >= 2 && Reached(n, ops, c, h)
    ensures p in c.pathToIdx <==> Kept(ops, p)
    ensures p in c.pathToIdx ==> c.pathToIdx[p] == ops[LastUnder(ops, p)].slot
  {
    var states: seq<State> :| Run(states, ops) && AllOrderly(states, ops)
      && states[0] == State(Empty(n), NoHistory(h.files)) && states[|ops|] == State(c, h);
    PathsAlong(n, h.files, states, ops);
    assert PathIs(c, ops, p);
  }

  // ----- what a fetch returns after a run -----

  /** The kernel reports at the k-th operation that the path's file was modified. */
  ghost predicate EventAt(states: seq<State>, ops: seq<Op>, k: nat, p: Path)
    requires k < |ops| < |states|
  {
    var h := states[k].h;
    ops[k].ModifyOp? && ops[k].watch in h.kernel && h.kernel[ops[k].watch] == h.files(p)
  }

  /** And it does so after the last insertion under the path, within the first m operations. */
  ghost predicate ModifiedSince(states: seq<State>, ops: seq<Op>, m: nat, p: Path)
    requires m <= |ops| < |states|
  {
    exists k :: LastUnder(ops[..m], p) < k < m && EventAt(states, ops, k, p)
  }

  ghost predicate StoryIs(states: seq<State>, ops: seq<Op>, m: nat, p: Path)
    requires m <= |ops| < |states|
  {
    var h, l := states[m].h, LastUnder(ops[..m], p);
    && (p in h.latest <==> l >= 0) && (l >= 0 ==> h.latest[p] == ops[l].buffer)
    && (p in h.stale <==> l >= 0 && ModifiedSince(states, ops, m, p))
  }

  lemma StoryStep(states: seq<State>, ops: seq<Op>, m: nat, p: Path)
    requires Run(states, ops) && m < |ops| && StoryIs(states, ops, m, p)
    ensures StoryIs(states, ops, m + 1, p)
  {
    assert Leads(states[m], ops[m], states[m + 1]);
    assert ops[..m + 1][..m] == ops[..m];
    if ops[m].InsertOp? && ops[m].path == p {
      assert LastUnder(ops[..m + 1], p) == m;
    } else {
      assert LastUnder(ops[..m + 1], p) == LastUnder(ops[..m], p);
      if EventAt(states, ops, m, p) { assert p in states[m].h.latest ==> ModifiedSince(states, ops, m + 1, p); }
    }
  }

  lemma StoryAlong(states: seq<State>, ops: seq<Op>, p: Path)
    requires Run(states, ops) && states[0].h == NoHistory(states[0].h.files)
    ensures StoryIs(states, ops, |ops|, p)
  {
    for m := 0 to |ops|
      invariant StoryIs(states, ops, m, p)
    {
      StoryStep(states, ops, m, p);
    }
  }

  /** When a fetch hits, and what it returns: after a run of orderly operations it returns the bytes of the path's last
      insertion exactly when no slot filled under the path was refilled since, and no event about its file came. */
  lemma HitExact(n: nat, files: Path -> nat, states: seq<State>, ops: seq<Op>, p: Path, client: nat)
    requires n >= 2 && Run(states, ops) && AllOrderly(states, ops) && states[0] == State(Empty(n), NoHistory(files))
    ensures Fetch(states[|ops|].c, p, client).1
         == if Kept(ops, p) && !ModifiedSince(states, ops, |ops|, p) then Found(ops[LastUnder(ops, p)].buffer)
            else Missing
  {
    var c, h := states[|ops|].c, states[|ops|].h;
    FilesKept(states, ops, |ops|);
    assert Reached(n, ops, c, h);
    PathsExact(n, ops, c, h, p);
    StoryAlong(states, ops, p);
    assert ops[..|ops|] == ops;
    FetchReturnsLatest(n, ops, c, h, p, client);
  }

  lemma {:induction false} FilesKept(states: seq<State>, ops: seq<Op>, m: nat)
    requires Run(states, ops) && m <= |ops|
    ensures states[m].h.files == states[0].h.files
  {
    if m > 0 {
      FilesKept(states, ops, m - 1);
      assert Leads(states[m - 1], ops[m - 1], states[m]);
    }
  }

  // ----- an outdated slot is taken out of the list -----

  lemma OutdatedUnlinks(c: Rep, order: seq<int>, path: Path, client: nat, k: nat)
    requires Shape(c, order) && FetchesOutdated(c, path) && k < |order| && order[k] == c.pathToIdx[path]
    ensures Linked(Fetch(c, path, client).0.items, Without(order, k))
  {
    var d, w, i := Fetch(c, path, client).0, Without(order, k), order[k];
    var c1 := Lock(c, i, client);
    assert NodeOk(c.items, order, k);
    LockLinks(c, order, i, client);
    WithoutElements(order, k);
    var items := SetPrev(SetNext(c1.items, Before(order, k), Behind(order, k)), Behind(order, k), Before(order, k));
    UnlinkKeeps(c1.items, order, k, items);
    assert d.items == Put(items, i, Blank);
    forall j | 0 <= j < |w| ensures NodeOk(d.items, w, j) { assert NodeOk(items, w, j) && w[j] != i; }
  }

  lemma OutdatedEnds(c: Rep, order: seq<int>, path: Path, client: nat, k: nat)
    requires Shape(c, order) && FetchesOutdated(c, path) && k < |order| && order[k] == c.pathToIdx[path]
    ensures var d := Fetch(c, path, client).0;
            && d.lowest == (if k == 0 && |order| > 1 then order[1] else c.lowest) && d.highest == c.highest
            && d == c.(items := d.items, lowest := d.lowest, free := d.free, watchToIdx := d.watchToIdx,
                       users := d.users, clientToIdx := d.clientToIdx)
            && d.free == c.free + {order[k]} && d.watchToIdx == c.watchToIdx - {At(c.items, order[k]).watch}
            && d.users == c.users + {client} && d.clientToIdx == c.clientToIdx[client := order[k]]
  {
    assert NodeOk(c.items, order, k);
    if k > 0 { assert NodeOk(c.items, order, k - 1); }
    if k + 1 < |order| { assert NodeOk(c.items, order, k + 1); }
  }

  lemma OutdatedSpares(c: Rep, order: seq<int>, path: Path, client: nat, k: nat, j: int)
    requires Shape(c, order) && FetchesOutdated(c, path) && k < |order| && order[k] == c.pathToIdx[path]
    requires 0 <= j < |c.items|
    ensures var d := Fetch(c, path, client).0;
            && |d.items| == |c.items|
            && (j == order[k] ==> d.items[j] == Blank)
            && (j != order[k] ==> d.items[j] == c.items[j].(next := d.items[j].next, prev := d.items[j].prev))
  {
    assert NodeOk(c.items, order, k);
  }

  lemma OutdatedOutside(c: Rep, order: seq<int>, path: Path, client: nat, k: nat, j: int)
    requires Shape(c, order) && FetchesOutdated(c, path) && k < |order| && order[k] == c.pathToIdx[path]
    requires 0 <= j < |c.items| && j !in order
    ensures var d := Fetch(c, path, client).0; |d.items| == |c.items| && d.items[j] == c.items[j]
  {
    assert NodeOk(c.items, order, k);
    if k > 0 { assert order[k - 1] in order; }
    if k + 1 < |order| { assert order[k + 1] in order; }
  }

  /** What is left of the cache by a fetch that meets an outdated slot: the slot is out of the list, wherever it stood,
      free and blank; its watch, and no other, is forgotten; the other slots keep their order, and everything but
      links.  The head of the list stays behind: it still points to the slot if that was the most recently used. */
  ghost predicate TakenOut(c: Rep, d: Rep, order: seq<int>, k: nat, client: nat)
    requires k < |order|
  {
    var w, i := Without(order, k), order[k];
    && 0 <= i < |c.items| == |d.items| && Linked(d.items, w) && d.items[i] == Blank
    && d.free == c.free + {i}
    && d.lowest == (if k == 0 && w != [] then w[0] else c.lowest) && d.highest == c.highest
    && d.pathToIdx == c.pathToIdx && d.idxToPath == c.idxToPath
    && (forall x :: x in d.watchToIdx <==> x in c.watchToIdx && x != c.items[i].watch)
    && (forall x :: x in d.watchToIdx ==> d.watchToIdx[x] == c.watchToIdx[x])
    && d.users == c.users + {client} && d.clientToIdx == c.clientToIdx[client := i]
    && (forall j :: 0 <= j < |c.items| && j != i ==>
          d.items[j] == c.items[j].(next := d.items[j].next, prev := d.items[j].prev))
    && (forall j :: 0 <= j < |c.items| && j !in order ==> d.items[j] == c.items[j])
  }

  lemma OutdatedLeavesList(n: nat, ops: seq<Op>, c: Rep, h: History, path: Path, client: nat)
      returns (order: seq<int>, k: nat)
    requires n >= 2 && Reached(n, ops, c, h) && FetchesOutdated(c, path)
    ensures Shape(c, order) && k < |order| && order[k] == c.pathToIdx[path]
    ensures Fetch(c, path, client).1 == Missing && TakenOut(c, Fetch(c, path, client).0, order, k, client)
  {
    order := RunGood(n, ops, c, h);
    k := HitSlot(c, order, path);
    WipedSlot(c, order, path, client, k);
    OutdatedUnlinks(c, order, path, client, k);
    OutdatedEnds(c, order, path, client, k);
    forall j | 0 <= j < |c.items| { OutdatedSpares(c, order, path, client, k, j); }
    forall j | 0 <= j < |c.items| && j !in order { OutdatedOutside(c, order, path, client, k, j); }
  }

  lemma TakenOutShape(c: Rep, d: Rep, order: seq<int>, k: nat, client: nat)
    requires Shape(c, order) && k + 1 < |order| && TakenOut(c, d, order, k, client)
    ensures Shape(d, Without(order, k))
  {
    var w := Without(order, k);
    WithoutElements(order, k);
    assert w[|w| - 1] == order[|order| - 1] && (k > 0 ==> w[0] == order[0]);
  }

  /** If the slot was not the most recently used one, the list is whole without it: refilled, it joins the list at its
      back, and the list starts with the least recently used of the others. */
  lemma OutdatedThenRefilled(n: nat, ops: seq<Op>, c: Rep, h: History, path: Path, client: nat,
                             next: Path, buffer: Data, watch: int) returns (order: seq<int>, k: nat)
    requires n >= 2 && Reached(n, ops, c, h) && FetchesOutdated(c, path) && c.pathToIdx[path] != c.highest
    ensures Shape(c, order) && k < |order| && order[k] == c.pathToIdx[path]
    ensures var d := Fetch(c, path, client).0;
            && Shape(d, Without(order, k)) && Takes(d, order[k])
            && Shape(Insert(d, order[k], next, buffer, watch), ToBack(order, k))
  {
    order, k := OutdatedLeavesList(n, ops, c, h, path, client);
    var d := Fetch(c, path, client).0;
    TakenOutShape(c, d, order, k, client);
    InsertShape(d, Without(order, k), order[k], next, buffer, watch);
  }

  // ----- a lock is given back -----

  /** Finishing gives back the client's lock, once, and nothing else: a client using no file changes nothing. */
  lemma FinishedGivesBack(n: nat, ops: seq<Op>, c: Rep, h: History, client: nat)
    requires n >= 2 && Reached(n, ops, c, h)
    ensures var d := Finished(c, client);
            && d == c.(items := d.items, users := d.users) && |d.items| == |c.items|
            && client !in d.users && d.users + {client} == c.users + {client}
            && forall j :: 0 <= j < |c.items| ==>
                 d.items[j] == c.items[j].(lock := c.items[j].lock - (if client in Holders(c, j) then 1 else 0))
  {
    var order := RunGood(n, ops, c, h);
    InRange(c, order);
  }
}
