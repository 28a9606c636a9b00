/** Responses written straight from the cache: each write in flight holds a pointer into a slot's buffer, and the
    client's lock is to keep that slot until the write is over. */
module CacheServing {
  import opened Bytes
  import opened Cache
  import opened CacheInvariant
  import opened CacheProofs
  import opened CacheRuns

  /** A write reading from slot `slot`, which held `bytes` when the write was queued. */
  datatype Reading = Reading(client: nat, slot: int, bytes: Data)

  datatype Serving = Serving(s: State, writes: map<nat, Reading>)

  datatype Act =
    | Serve(write: nat, path: Path, client: nat)  // a fetch, and on a hit a write from the slot's buffer
    | Written(write: nat)                         // that write is over
    | Other(op: Op)                               // any other operation on the cache

  ghost predicate CanAct(v: Serving, a: Act) {
    match a
    case Serve(write, path, client) => write !in v.writes
    case Written(_) => true
    case Other(op) => !op.FetchOp? && Possible(v.s.c, v.s.h, op)
  }

  function Step(s: State, op: Op): State
    requires op.InsertOp? ==> Takes(s.c, op.slot)
  {
    State(Done(s.c, op), Recorded(s.c, s.h, op))
  }

  ghost function Acted(v: Serving, a: Act): Serving
    requires CanAct(v, a)
  {
    match a
    case Serve(write, path, client) =>
      var t := Step(v.s, FetchOp(path, client));
      if Fetch(v.s.c, path, client).1.Missing? then v.(s := t) else
        var i := v.s.c.pathToIdx[path];
        Serving(t, v.writes[write := Reading(client, i, At(v.s.c.items, i).buffer)])
    case Written(write) => v.(writes := v.writes - {write})
    case Other(op) => v.(s := Step(v.s, op))
  }

  /** The write's client uses the slot it reads from, which is locked and holds what it held. */
  ghost predicate Backed(c: Rep, w: Reading) {
    && w.client in c.users && w.client in c.clientToIdx && c.clientToIdx[w.client] == w.slot
    && At(c.items, w.slot).buffer == w.bytes && At(c.items, w.slot).lock >= 1
  }

  ghost predicate AllBacked(v: Serving) {
    forall id :: id in v.writes ==> Backed(v.s.c, v.writes[id])
  }

  /** Serving this path to this client takes nothing from the write: it neither wipes the write's slot nor moves its
      client to another slot. */
  predicate Spares(c: Rep, path: Path, client: nat, w: Reading)
    requires path in c.pathToIdx
  {
    var i := c.pathToIdx[path];
    if FetchesOutdated(c, path) then w.slot != i && w.client != client else w.client == client ==> w.slot == i
  }

  /** No lock is given back or forgotten while one of the client's writes is in flight, and no fetch takes anything
      from a write in flight. */
  ghost predicate Careful(v: Serving, a: Act) {
    match a
    case Serve(_, path, client) =>
      path in v.s.c.pathToIdx ==> forall id :: id in v.writes ==> Spares(v.s.c, path, client, v.writes[id])
    case Written(_) => true
    case Other(op) =>
      op.FinishOp? || op.RenewOp? ==> forall id :: id in v.writes ==> v.writes[id].client != op.client
  }

  /** What is done to the cache underneath is orderly. */
  ghost predicate Orderly(v: Serving, a: Act) {
    match a
    case Serve(_, path, client) => CacheRuns.Orderly(v.s.c, FetchOp(path, client))
    case Written(_) => true
    case Other(op) => CacheRuns.Orderly(v.s.c, op)
  }

  lemma OtherKeepsBacked(v: Serving, op: Op, id: nat)
    requires InOrder(v.s) && AllBacked(v) && CanAct(v, Other(op)) && id in v.writes
    ensures Backed(Done(v.s.c, op), v.writes[id])
       <==> !((op.FinishOp? || op.RenewOp?) && op.client == v.writes[id].client)
  {
    var order :| Good(v.s.c, order, v.s.h);
    var user := v.writes[id].client;
    assert Backed(v.s.c, v.writes[id]);
    if op != FinishOp(user) && op != RenewOp(user) { StepKeepsUser(v.s.c, order, v.s.h, op, user); }
  }

  lemma HitIndex(c: Rep, order: seq<int>, path: Path, client: nat)
    requires Shape(c, order) && Lookup(c, order) && path in c.pathToIdx && !FetchesOutdated(c, path)
    ensures var u := Fetch(c, path, client).0;
            && !Fetch(c, path, client).1.Missing?
            && u.users == c.users + {client} && u.clientToIdx == c.clientToIdx[client := c.pathToIdx[path]]
            && (forall i :: At(u.items, i).buffer == At(c.items, i).buffer)
            && (forall i :: At(u.items, i).lock == At(c.items, i).lock + (if i == c.pathToIdx[path] then 1 else 0))
  {
    var k := HitSlot(c, order, path);
    FetchMoves(c, order, path, client, k);
    FetchHit(c, order, path, client, k);
  }

  lemma ServeKeepsBacked(v: Serving, path: Path, client: nat, id: nat)
    requires InOrder(v.s) && AllBacked(v) && path in v.s.c.pathToIdx && id in v.writes
    ensures Backed(Fetch(v.s.c, path, client).0, v.writes[id]) <==> Spares(v.s.c, path, client, v.writes[id])
  {
    var order :| Good(v.s.c, order, v.s.h);
    var w := v.writes[id];
    assert Backed(v.s.c, w);
    UserLocks(v.s.c, order, w.client);
    var k := HitSlot(v.s.c, order, path);
    if !FetchesOutdated(v.s.c, path) {
      HitIndex(v.s.c, order, path, client);
    } else {
      WipedSlot(v.s.c, order, path, client, k);
      if w.slot != order[k] { OthersNotWiped(v.s.c, order, path, client, k, w.slot); }
    }
  }

  /** Every write in flight stays backed exactly when the step is careful. */
  lemma ActExact(v: Serving, a: Act)
    requires InOrder(v.s) && AllBacked(v) && CanAct(v, a)
    ensures AllBacked(Acted(v, a)) <==> Careful(v, a)
    ensures InOrder(Acted(v, a).s) <==> Orderly(v, a)
  {
    match a
    case Written(_) =>
    case Other(op) =>
      StepExact(v.s, op, Step(v.s, op));
      forall id | id in v.writes { OtherKeepsBacked(v, op, id); }
    case Serve(write, path, client) =>
      StepExact(v.s, FetchOp(path, client), Step(v.s, FetchOp(path, client)));
      ServeExact(v, write, path, client);
  }

  /** The write a hit starts is backed. */
  lemma ServedBacked(v: Serving, write: nat, path: Path, client: nat)
    requires InOrder(v.s) && write !in v.writes && path in v.s.c.pathToIdx
    ensures var u := Acted(v, Serve(write, path, client));
            if FetchesOutdated(v.s.c, path) then u.writes == v.writes
            else exists w :: u.writes == v.writes[write := w] && Backed(u.s.c, w)
  {
    var order :| Good(v.s.c, order, v.s.h);
    var k := HitSlot(v.s.c, order, path);
    if FetchesOutdated(v.s.c, path) {
      WipedSlot(v.s.c, order, path, client, k);
    } else {
      HitIndex(v.s.c, order, path, client);
      var u := Acted(v, Serve(write, path, client));
      assert v.s.c.items[order[k]].lock >= |Holders(v.s.c, order[k])|;
      assert Backed(u.s.c, u.writes[write]);
      assert u.writes == v.writes[write := u.writes[write]];
    }
  }

  lemma ServeExact(v: Serving, write: nat, path: Path, client: nat)
    requires InOrder(v.s) && AllBacked(v) && write !in v.writes
    ensures AllBacked(Acted(v, Serve(write, path, client))) <==> Careful(v, Serve(write, path, client))
  {
    if path in v.s.c.pathToIdx {
      var u := Acted(v, Serve(write, path, client));
      ServedBacked(v, write, path, client);
      forall id | id in v.writes
        ensures id in u.writes && u.writes[id] == v.writes[id]
        ensures Backed(u.s.c, v.writes[id]) <==> Spares(v.s.c, path, client, v.writes[id])
      {
        ServeKeepsBacked(v, path, client, id);
      }
    }
  }

  /** Which writes are in flight after a step: those before, less the one that is over, and the one a hit starts, which
      reads from the slot the path is found in. */
  lemma WritesExact(v: Serving, a: Act, id: nat)
    requires InOrder(v.s) && CanAct(v, a)
    ensures var u := Acted(v, a);
            var starts := a.Serve? && a.write == id && Fetch(v.s.c, a.path, a.client).1.Found?;
            && (id in u.writes <==> starts || (id in v.writes && a != Written(id)))
            && (starts ==> a.path in v.s.c.pathToIdx
                           && u.writes[id] == Reading(a.client, v.s.c.pathToIdx[a.path],
                                                      Fetch(v.s.c, a.path, a.client).1.buffer))
            && (id in u.writes && !starts ==> u.writes[id] == v.writes[id])
  {
    var order :| Good(v.s.c, order, v.s.h);
    if a.Serve? && a.path in v.s.c.pathToIdx {
      var k := HitSlot(v.s.c, order, a.path);
      if !FetchesOutdated(v.s.c, a.path) { FetchHit(v.s.c, order, a.path, a.client, k); }
    }
  }

  // ----- runs -----

  ghost predicate Leads(v: Serving, a: Act, u: Serving) {
    CanAct(v, a) && u == Acted(v, a)
  }

  /** A run from an empty cache with no write in flight. */
  ghost predicate Run(n: nat, files: Path -> nat, vs: seq<Serving>, acts: seq<Act>) {
    && |vs| == |acts| + 1 && vs[0] == Serving(State(Empty(n), NoHistory(files)), map[])
    && forall k :: 0 <= k < |acts| ==> Leads(vs[k], acts[k], vs[k + 1])
  }

  lemma RunSnoc(n: nat, files: Path -> nat, vs: seq<Serving>, acts: seq<Act>, a: Act, u: Serving)
    requires Run(n, files, vs, acts) && Leads(vs[|acts|], a, u)
    ensures Run(n, files, vs + [u], acts + [a])
  {
    var all, more := vs + [u], acts + [a];
    forall k | 0 <= k < |more| ensures Leads(all[k], more[k], all[k + 1]) {
      if k < |acts| { assert Leads(vs[k], acts[k], vs[k + 1]); }
    }
  }

  ghost predicate Sound(v: Serving) {
    InOrder(v.s) && AllBacked(v)
  }

  ghost predicate Safe(v: Serving, a: Act) {
    Orderly(v, a) && Careful(v, a)
  }

  lemma LeadsExact(v: Serving, a: Act, u: Serving)
    requires Sound(v) && Leads(v, a, u)
    ensures Sound(u) <==> Safe(v, a)
  {
    ActExact(v, a);
  }

  /** A run keeps the cache in order and every write backed all along exactly when each step is orderly and careful. */
  lemma RunExact(n: nat, files: Path -> nat, vs: seq<Serving>, acts: seq<Act>)
    requires n >= 2 && Run(n, files, vs, acts)
    ensures (forall k :: 0 <= k <= |acts| ==> Sound(vs[k])) <==> (forall k :: 0 <= k < |acts| ==> Safe(vs[k], acts[k]))
  {
    EmptyGood(n, files);
    assert Sound(vs[0]);
    if forall k :: 0 <= k < |acts| ==> Safe(vs[k], acts[k]) {
      for m := 0 to |acts|
        invariant forall k :: 0 <= k <= m ==> Sound(vs[k])
      {
        assert Safe(vs[m], acts[m]);
        LeadsExact(vs[m], acts[m], vs[m + 1]);
      }
    } else {
      var k :| 0 <= k < |acts| && !Safe(vs[k], acts[k]);
      assert Leads(vs[k], acts[k], vs[k + 1]);
      if Sound(vs[k]) { LeadsExact(vs[k], acts[k], vs[k + 1]); }
    }
  }

  /** In every such run, every write in flight finds in its slot the bytes it was queued with. */
  lemma CachedBytesOutliveWrites(n: nat, files: Path -> nat, vs: seq<Serving>, acts: seq<Act>, id: nat)
    requires n >= 2 && Run(n, files, vs, acts) && forall k :: 0 <= k < |acts| ==> Safe(vs[k], acts[k])
    requires id in vs[|acts|].writes
    ensures var w := vs[|acts|].writes[id]; At(vs[|acts|].s.c.items, w.slot).buffer == w.bytes
  {
    RunExact(n, files, vs, acts);
    assert Sound(vs[|acts|]);
    assert Backed(vs[|acts|].s.c, vs[|acts|].writes[id]);
  }
}
