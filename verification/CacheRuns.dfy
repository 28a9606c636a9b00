/** Runs of cache operations: what every run guarantees, and exactly which operation ends the guarantees. */
module CacheRuns {
  import opened Bytes
  import opened Cache
  import opened CacheList
  import opened CacheInvariant
  import opened CacheProofs

  datatype Op =
    | FetchOp(path: Path, client: nat)
    | InsertOp(slot: int, path: Path, buffer: Data, watch: int)
    | ModifyOp(watch: int)
    | FinishOp(client: nat)
    | RenewOp(client: nat)

  function NoHistory(files: Path -> nat): History {
    History(files, map[], map[], {}, {}, map[], 0)
  }

  predicate FetchesOutdated(c: Rep, path: Path) {
    path in c.pathToIdx && At(c.items, c.pathToIdx[path]).outdated
  }

  /** An insertion takes a slot it may take, and the kernel answers as it may. */
  ghost predicate Possible(c: Rep, h: History, op: Op) {
    op.InsertOp? ==> Takes(c, op.slot) && Answer(c, h, op.path, op.watch)
  }

  /** What the code would have to test: that the slot a fetch finds is not outdated, that the kernel watches a file
      inserted, and that no other slot remembers its watch for another path. */
  ghost predicate Orderly(c: Rep, op: Op) {
    match op
    case FetchOp(path, _) => !FetchesOutdated(c, path)
    case InsertOp(i, path, _, watch) => watch != -1 && !OtherName(c, i, path, watch)
    case _ => true
  }

  function Done(c: Rep, op: Op): Rep
    requires op.InsertOp? ==> Takes(c, op.slot)
  {
    match op
    case FetchOp(path, client) => Fetch(c, path, client).0
    case InsertOp(i, path, buffer, watch) => Insert(c, i, path, buffer, watch)
    case ModifyOp(watch) => Modified(c, watch)
    case FinishOp(client) => Finished(c, client)
    case RenewOp(client) => Renewed(c, client)
  }

  function Recorded(c: Rep, h: History, op: Op): History {
    match op
    case FetchOp(path, _) =>
      if path !in c.pathToIdx then h
      else if FetchesOutdated(c, path) then h.(kernel := h.kernel - {At(c.items, c.pathToIdx[path]).watch})
      else Touched(h, c.pathToIdx[path])
    case InsertOp(i, path, buffer, watch) => Inserted(c, h, i, path, buffer, watch)
    case ModifyOp(watch) => Noted(h, watch)
    case _ => h
  }

  datatype State = State(c: Rep, h: History)

  ghost predicate Leads(s: State, op: Op, t: State) {
    Possible(s.c, s.h, op) && t == State(Done(s.c, op), Recorded(s.c, s.h, op))
  }

  /** The states of a run and the operations between them. */
  ghost predicate Run(states: seq<State>, ops: seq<Op>) {
    |states| == |ops| + 1 && forall k :: 0 <= k < |ops| ==> Leads(states[k], ops[k], states[k + 1])
  }

  lemma RunSnoc(states: seq<State>, ops: seq<Op>, op: Op, t: State)
    requires Run(states, ops) && Leads(states[|ops|], op, t)
    ensures Run(states + [t], ops + [op])
    ensures AllOrderly(states, ops) && Orderly(states[|ops|].c, op) ==> AllOrderly(states + [t], ops + [op])
  {
    var all, more := states + [t], ops + [op];
    forall k | 0 <= k < |more| ensures Leads(all[k], more[k], all[k + 1]) {
      if k < |ops| { assert Leads(states[k], ops[k], states[k + 1]); }
    }
  }

  ghost predicate AllOrderly(states: seq<State>, ops: seq<Op>)
    requires |states| == |ops| + 1
  {
    forall k :: 0 <= k < |ops| ==> Orderly(states[k].c, ops[k])
  }

  /** `c` and `h` are reached from an empty cache of `n` slots by `ops`, all of them orderly. */
  ghost predicate Reached(n: nat, ops: seq<Op>, c: Rep, h: History) {
    exists states :: Run(states, ops) && AllOrderly(states, ops)
      && states[0] == State(Empty(n), NoHistory(h.files)) && states[|ops|] == State(c, h)
  }

  lemma EmptyGood(n: nat, files: Path -> nat)
    requires n >= 2
    ensures Good(Empty(n), [], NoHistory(files))
  {
    var c := Empty(n);
    forall i | 0 <= i < n ensures Holders(c, i) == {} { }
  }

  /** A client fetches only while it is not using a file, and then only one that is not outdated; and its slot gets a
      new connection only then. */
  ghost predicate Disciplined(c: Rep, op: Op) {
    match op
    case FetchOp(path, client) => path in c.pathToIdx ==> client !in c.users && !FetchesOutdated(c, path)
    case RenewOp(client) => client !in c.users
    case _ => true
  }

  lemma RenewedKeeps(c: Rep, order: seq<int>, h: History, client: nat)
    requires Good(c, order, h)
    ensures Good(Renewed(c, client), order, h)
    ensures LocksExact(c) ==> (LocksExact(Renewed(c, client)) <==> client !in c.users)
  {
    var u := Renewed(c, client);
    forall i | 0 <= i < |c.items| ensures u.items[i].lock >= |Holders(u, i)| {
      SubsetSize(Holders(u, i), Holders(c, i));
    }
    KeepFiles(c, u, order, order, h);
    if client in c.users {
      var i := c.clientToIdx[client];
      InRange(c, order);
      assert client in Holders(c, i) && Holders(u, i) == Holders(c, i) - {client};
    } else {
      assert u == c;
    }
  }

  lemma StepGood(c: Rep, order: seq<int>, h: History, op: Op) returns (after: seq<int>)
    requires Good(c, order, h) && Possible(c, h, op) && Orderly(c, op)
    ensures Good(Done(c, op), after, Recorded(c, h, op))
    ensures LocksExact(c) && Disciplined(c, op) ==> LocksExact(Done(c, op))
  {
    after := order;
    match op
    case FetchOp(path, client) =>
      if path in c.pathToIdx {
        var k := HitSlot(c, order, path);
        FetchKeeps(c, order, h, path, client, k);
        if LocksExact(c) { FetchLocksExact(c, order, path, client, k); }
        after := ToBack(order, k);
      }
    case InsertOp(i, path, buffer, watch) =>
      InsertKeeps(c, order, h, i, path, buffer, watch);
      InsertLocks(c, order, i, path, buffer, watch);
      after := Rest(c, order) + [i];
    case ModifyOp(watch) =>
      ModifiedKeeps(c, order, h, watch);
      ModifiedShape(c, order, h, watch);
    case FinishOp(client) =>
      FinishedKeeps(c, order, h, client);
    case RenewOp(client) =>
      RenewedKeeps(c, order, h, client);
  }

  ghost predicate InOrder(s: State) {
    exists order :: Good(s.c, order, s.h)
  }

  /** An operation keeps the cache in order exactly when it is orderly. */
  lemma StepExact(s: State, op: Op, t: State)
    requires InOrder(s) && Leads(s, op, t)
    ensures InOrder(t) <==> Orderly(s.c, op)
  {
    var order :| Good(s.c, order, s.h);
    if Orderly(s.c, op) {
      var after := StepGood(s.c, order, s.h, op);
    } else if op.FetchOp? {
      FetchBreaks(s.c, order, op.path, op.client);
    } else if op.watch == -1 {
      UnwatchedPath(s.c, order, s.h, op.slot, op.path, op.buffer);
    } else {
      InsertOneName(s.c, order, s.h, op.slot, op.path, op.buffer, op.watch);
    }
  }

  /** A run keeps the cache in order all along exactly when every operation is orderly. */
  lemma RunExact(n: nat, files: Path -> nat, states: seq<State>, ops: seq<Op>)
    requires n >= 2 && Run(states, ops) && states[0] == State(Empty(n), NoHistory(files))
    ensures (forall k :: 0 <= k <= |ops| ==> InOrder(states[k])) <==> AllOrderly(states, ops)
  {
    EmptyGood(n, files);
    if AllOrderly(states, ops) {
      for m := 0 to |ops|
        invariant forall k :: 0 <= k <= m ==> InOrder(states[k])
      {
        assert Orderly(states[m].c, ops[m]);
        StepExact(states[m], ops[m], states[m + 1]);
      }
    } else {
      var k :| 0 <= k < |ops| && !Orderly(states[k].c, ops[k]);
      assert Leads(states[k], ops[k], states[k + 1]);
      if InOrder(states[k]) { StepExact(states[k], ops[k], states[k + 1]); }
    }
  }

  lemma RunGood(n: nat, ops: seq<Op>, c: Rep, h: History) returns (order: seq<int>)
    requires n >= 2 && Reached(n, ops, c, h)
    ensures Good(c, order, h)
  {
    var states :| Run(states, ops) && AllOrderly(states, ops)
      && states[0] == State(Empty(n), NoHistory(h.files)) && states[|ops|] == State(c, h);
    RunExact(n, h.files, states, ops);
    assert InOrder(states[|ops|]);
    order :| Good(c, order, h);
  }

  // ----- what every run guarantees -----

  lemma LinksIndexed(c: Rep, order: seq<int>, i: int)
    requires Shape(c, order) && 0 <= i < |c.items|
    ensures -1 <= c.items[i].next < |c.items| && -1 <= c.items[i].prev < |c.items|
  {
    if i in order {
      var k :| 0 <= k < |order| && order[k] == i;
      assert NodeOk(c.items, order, k);
      if k > 0 { assert NodeOk(c.items, order, k - 1); }
      if k + 1 < |order| { assert NodeOk(c.items, order, k + 1); }
    } else {
      assert i in c.free;
    }
  }

  /** The operations never index outside the array. */
  lemma RunIndexed(n: nat, ops: seq<Op>, c: Rep, h: History)
    requires n >= 2 && Reached(n, ops, c, h)
    ensures Indexed(c)
  {
    var order := RunGood(n, ops, c, h);
    InRange(c, order);
    forall w | w in c.watchToIdx ensures IsSlot(c, c.watchToIdx[w]) { assert WatchMapped(c, order, h, w); }
    forall i | 0 <= i < |c.items|
      ensures -1 <= c.items[i].next < |c.items| && -1 <= c.items[i].prev < |c.items|
    {
      LinksIndexed(c, order, i);
    }
    if order != [] { assert NodeOk(c.items, order, 0) && NodeOk(c.items, order, |order| - 1); }
    if c.free == {} { FullList(c, order); }
    assert c.pathToIdx != map[] ==> order != [] by {
      if c.pathToIdx != map[] {
        var p :| p in c.pathToIdx;
        assert c.pathToIdx[p] in order;
      }
    }
  }

  /** A fetch returns the bytes last inserted under its path, or misses; it misses whenever the file was modified
      since, even if that makes it the fetch that ends the run. */
  lemma FetchReturnsLatest(n: nat, ops: seq<Op>, c: Rep, h: History, path: Path, client: nat)
    requires n >= 2 && Reached(n, ops, c, h)
    ensures Fetch(c, path, client).1
         == if path in c.pathToIdx && path !in h.stale && path in h.latest then Found(h.latest[path]) else Missing
    ensures path in c.pathToIdx ==> path in h.latest
  {
    var order := RunGood(n, ops, c, h);
    if path in c.pathToIdx {
      var k := HitSlot(c, order, path);
      if !FetchesOutdated(c, path) {
        FetchKeeps(c, order, h, path, client, k);
      }
    }
  }

  /** A finished file read: the bytes inserted are the bytes the fetch right after returns, whatever the kernel
      answered. */
  lemma InsertedThenFetched(n: nat, ops: seq<Op>, c: Rep, h: History,
                            i: int, path: Path, buffer: Data, watch: int, client: nat)
    requires n >= 2 && Reached(n, ops, c, h) && Takes(c, i)
    ensures Fetch(Insert(c, i, path, buffer, watch), path, client).1 == Found(buffer)
  {
    var order := RunGood(n, ops, c, h);
    var v := Insert(c, i, path, buffer, watch);
    InsertShape(c, order, i, path, buffer, watch);
    InsertLookup(c, order, h, i, path, buffer, watch);
    var k := HitSlot(v, Rest(c, order) + [i], path);
    FetchHit(v, Rest(c, order) + [i], path, client, k);
  }

  /** The operation belongs to another client, or to none. */
  predicate Foreign(op: Op, user: nat) {
    op != FinishOp(user) && op != RenewOp(user) && (op.FetchOp? ==> op.client != user)
  }

  /** A fetch that meets the slot and finds it outdated. */
  predicate Wipes(c: Rep, op: Op, i: int) {
    op.FetchOp? && FetchesOutdated(c, op.path) && c.pathToIdx[op.path] == i
  }

  /** While a client uses a slot no operation of others takes it or changes its bytes, exactly but for a fetch that
      finds it outdated: that one wipes it, lock and all. */
  lemma UsedSlotKept(n: nat, ops: seq<Op>, c: Rep, h: History, op: Op, user: nat)
    requires n >= 2 && Reached(n, ops, c, h) && Possible(c, h, op)
    requires user in c.users && Foreign(op, user)
    ensures user in c.clientToIdx && At(c.items, c.clientToIdx[user]).lock >= 1
    ensures Keeps(c, Done(c, op), user) <==> !Wipes(c, op, c.clientToIdx[user])
  {
    var order := RunGood(n, ops, c, h);
    UserLocks(c, order, user);
    StepKeepsUser(c, order, h, op, user);
  }

  /** The client goes on using the same slot, which stays locked, with the same bytes. */
  ghost predicate Keeps(c: Rep, d: Rep, user: nat) {
    && user in c.clientToIdx && user in d.users && user in d.clientToIdx && d.clientToIdx[user] == c.clientToIdx[user]
    && At(d.items, d.clientToIdx[user]).buffer == At(c.items, c.clientToIdx[user]).buffer
    && At(d.items, d.clientToIdx[user]).lock >= 1
  }

  lemma UserLocks(c: Rep, order: seq<int>, user: nat)
    requires Shape(c, order) && Locks(c, order) && user in c.users
    ensures user in c.clientToIdx && 0 <= c.clientToIdx[user] < |c.items| && c.items[c.clientToIdx[user]].lock >= 1
  {
    var i := c.clientToIdx[user];
    InRange(c, order);
    assert user in Holders(c, i);
    SubsetSize({user}, Holders(c, i));
  }

  lemma FetchKeepsUser(c: Rep, order: seq<int>, path: Path, client: nat, user: nat)
    requires Shape(c, order) && Lookup(c, order) && Locks(c, order) && path in c.pathToIdx
    requires user in c.users && user != client
    ensures user in c.clientToIdx
    ensures Keeps(c, Fetch(c, path, client).0, user) <==> !Wipes(c, FetchOp(path, client), c.clientToIdx[user])
  {
    UserLocks(c, order, user);
    var k := HitSlot(c, order, path);
    if FetchesOutdated(c, path) {
      WipedSlot(c, order, path, client, k);
      if c.clientToIdx[user] != order[k] { OthersNotWiped(c, order, path, client, k, c.clientToIdx[user]); }
    } else {
      FetchMoves(c, order, path, client, k);
    }
  }

  lemma StepKeepsUser(c: Rep, order: seq<int>, h: History, op: Op, user: nat)
    requires Good(c, order, h) && Possible(c, h, op) && user in c.users && Foreign(op, user)
    ensures user in c.clientToIdx
    ensures Keeps(c, Done(c, op), user) <==> !Wipes(c, op, c.clientToIdx[user])
  {
    UserLocks(c, order, user);
    match op
    case FetchOp(path, client) => if path in c.pathToIdx { FetchKeepsUser(c, order, path, client, user); }
    case InsertOp(j, path, buffer, watch) => InsertShape(c, order, j, path, buffer, watch);
    case ModifyOp(watch) =>
    case FinishOp(client) =>
      FinishedKeeps(c, order, h, client);
      UserLocks(Finished(c, client), order, user);
    case RenewOp(_) =>
  }

  /** The slot evicted is the one whose last use lies furthest back, among all occupied slots. */
  lemma EvictsLeastRecentlyUsed(n: nat, ops: seq<Op>, c: Rep, h: History, i: int, j: int)
    requires n >= 2 && Reached(n, ops, c, h) && c.free == {} && i == c.lowest && 0 <= j < |c.items|
    ensures i in h.used && j in h.used && h.used[i] <= h.used[j]
  {
    var order := RunGood(n, ops, c, h);
    FullList(c, order);
    assert j !in c.free && j in order && order[0] in order;
    var k :| 0 <= k < |order| && order[k] == j;
    if k > 0 { assert Earlier(order, h, 0, k); }
  }

  /** Both walks through the links visit every occupied slot exactly once, in opposite orders. */
  lemma RunLinks(n: nat, ops: seq<Op>, c: Rep, h: History)
    requires n >= 2 && Reached(n, ops, c, h)
    ensures var order := Walk(c.items, c.lowest, |c.items|);
            && Distinct(order) && order == WalkBack(c.items, c.highest, |c.items|)
            && (forall i :: 0 <= i < |c.items| ==> (i in order <==> i !in c.free))
            && (order != [] ==> order[|order| - 1] == c.highest)
  {
    var order := RunGood(n, ops, c, h);
    WalksVisitAll(c, order);
  }

  /** Locks stay counted exactly, one per client using the slot, exactly as long as clients are disciplined. */
  lemma DisciplinedStep(n: nat, ops: seq<Op>, c: Rep, h: History, op: Op)
    requires n >= 2 && Reached(n, ops, c, h) && LocksExact(c) && Possible(c, h, op)
    ensures LocksExact(Done(c, op)) <==> Disciplined(c, op)
  {
    var order := RunGood(n, ops, c, h);
    match op
    case FetchOp(path, client) => if path in c.pathToIdx { FetchDisciplined(c, order, path, client); }
    case InsertOp(i, path, buffer, watch) => InsertLocks(c, order, i, path, buffer, watch);
    case ModifyOp(watch) => ModifiedShape(c, order, h, watch);
    case FinishOp(client) => FinishedKeeps(c, order, h, client);
    case RenewOp(client) => RenewedKeeps(c, order, h, client);
  }

  /** A wiped slot is locked by nobody, and its client counts on it. */
  lemma FetchDisciplined(c: Rep, order: seq<int>, path: Path, client: nat)
    requires Shape(c, order) && Lookup(c, order) && Locks(c, order) && LocksExact(c) && path in c.pathToIdx
    ensures LocksExact(Fetch(c, path, client).0) <==> Disciplined(c, FetchOp(path, client))
  {
    var k := HitSlot(c, order, path);
    if FetchesOutdated(c, path) {
      var u := Fetch(c, path, client).0;
      WipedSlot(c, order, path, client, k);
      assert client in Holders(u, order[k]);
      assert u.items[order[k]].lock != |Holders(u, order[k])|;
    } else {
      FetchLocksExact(c, order, path, client, k);
    }
  }

  // ----- a fetch that meets an outdated slot -----

  ghost predicate SomeList(c: Rep) {
    exists order :: Shape(c, order) && Lookup(c, order)
  }

  /** The slot is emptied and freed, whoever is using it; the client that fetched it goes on using it. */
  lemma WipedSlot(c: Rep, order: seq<int>, path: Path, client: nat, k: nat)
    requires Shape(c, order) && Lookup(c, order) && FetchesOutdated(c, path)
    requires k < |order| && order[k] == c.pathToIdx[path]
    ensures var r := Fetch(c, path, client);
            && r.1 == Missing && r.0.pathToIdx == c.pathToIdx && order[k] in r.0.free
            && 0 <= order[k] < |r.0.items| == |c.items| && r.0.items[order[k]] == Blank
            && (k + 1 == |order| ==> r.0.highest == order[k])
            && r.0.users == c.users + {client} && r.0.clientToIdx == c.clientToIdx[client := order[k]]
  {
    assert NodeOk(c.items, order, k);
    if k + 1 < |order| { assert NodeOk(c.items, order, k + 1); }
  }

  lemma OthersNotWiped(c: Rep, order: seq<int>, path: Path, client: nat, k: nat, j: int)
    requires Shape(c, order) && FetchesOutdated(c, path) && k < |order| && order[k] == c.pathToIdx[path]
    requires 0 <= j < |c.items| && j != order[k]
    ensures var u := Fetch(c, path, client).0;
            At(u.items, j).lock == c.items[j].lock && At(u.items, j).buffer == c.items[j].buffer
  {
    assert NodeOk(c.items, order, k);
  }

  lemma FoundButFree(c: Rep, order: seq<int>, path: Path)
    requires path in c.pathToIdx && c.pathToIdx[path] in c.free
    ensures !(Shape(c, order) && Lookup(c, order))
  {
    var i := c.pathToIdx[path];
    if Lookup(c, order) {
      assert i in c.idxToPath;
      assert i in order;
    }
  }

  lemma FetchBreaks(c: Rep, order: seq<int>, path: Path, client: nat)
    requires Shape(c, order) && Lookup(c, order) && FetchesOutdated(c, path)
    ensures !SomeList(Fetch(c, path, client).0)
  {
    var u := Fetch(c, path, client).0;
    var k := HitSlot(c, order, path);
    WipedSlot(c, order, path, client, k);
    forall other ensures !(Shape(u, other) && Lookup(u, other)) { FoundButFree(u, other, path); }
  }

  /** A fetch leaves list and lookup maps in order exactly when it does not meet an outdated slot. */
  lemma FetchExact(n: nat, ops: seq<Op>, c: Rep, h: History, path: Path, client: nat)
    requires n >= 2 && Reached(n, ops, c, h)
    ensures SomeList(Fetch(c, path, client).0) <==> !FetchesOutdated(c, path)
  {
    var order := RunGood(n, ops, c, h);
    if FetchesOutdated(c, path) {
      FetchBreaks(c, order, path, client);
    } else {
      var after := StepGood(c, order, h, FetchOp(path, client));
    }
  }

  /** After such a fetch the path is still found: the next fetch of it reports a hit with no bytes. */
  lemma OutdatedFetchThenEmptyHit(n: nat, ops: seq<Op>, c: Rep, h: History, path: Path, client: nat, other: nat)
    requires n >= 2 && Reached(n, ops, c, h) && FetchesOutdated(c, path)
    ensures Fetch(c, path, client).1 == Missing
    ensures Fetch(Fetch(c, path, client).0, path, other).1 == Found([])
  {
    var order := RunGood(n, ops, c, h);
    var k := HitSlot(c, order, path);
    WipedSlot(c, order, path, client, k);
  }

  /** If the slot was the most recently used one, it stays the head of the list although it is free: refilled, it
      becomes its own predecessor. */
  lemma OutdatedTopLinksToItself(n: nat, ops: seq<Op>, c: Rep, h: History, path: Path, client: nat,
                                 next: Path, buffer: Data, watch: int)
    requires n >= 2 && Reached(n, ops, c, h) && FetchesOutdated(c, path) && c.pathToIdx[path] == c.highest
    ensures var u := Fetch(c, path, client).0;
            Takes(u, c.highest) && Insert(u, c.highest, next, buffer, watch).items != []
            && At(Insert(u, c.highest, next, buffer, watch).items, c.highest).prev == c.highest
  {
    var order := RunGood(n, ops, c, h);
    var k := HitSlot(c, order, path);
    DistinctAt(order, k, |order| - 1);
    WipedSlot(c, order, path, client, k);
  }
}
