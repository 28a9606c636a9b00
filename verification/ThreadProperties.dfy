/** What the thread invariant means for the sockets, and exactly where the handlers stop keeping it. */
module ThreadProperties {
  import opened Bytes
  import opened ServerThread
  import opened ThreadInvariant
  import opened ThreadProofs

  function WritesOf(t: Thread, i: nat): set<ReqId> {
    set id | id in t.inflight && t.inflight[id].client == i
  }

  /** num_write_reqs counts the writes in flight: one exactly when something is queued, never two, and the one
      covers the unwritten rest of the queue's front. */
  lemma OneWriteInFlight(t: Thread, i: nat)
    requires ThreadInv(t) && i < |t.clients|
    ensures var c := t.clients[i];
            && |WritesOf(t, i)| == c.numWriteReqs <= 1
            && (c.numWriteReqs == 1 <==> c.queue != [])
            && forall id :: id in WritesOf(t, i) ==>
                 var r := t.inflight[id];
                 && r.id == c.id && i in t.active && r.item == c.queue[0] && r.written <= |c.queue[0].Payload()|
                 && c.wire == Flatten(c.confirmed) + c.queue[0].Payload()[..r.written]
  {
    assert SlotOk(t, i);
    if t.clients[i].queue != [] {
      var id :| id in t.inflight && t.inflight[id].client == i;
      forall other | other in WritesOf(t, i) ensures other == id {
        assert RequestOk(t, id) && RequestOk(t, other);
      }
      assert WritesOf(t, i) == {id};
    } else {
      forall other | other in t.inflight ensures other !in WritesOf(t, i) { assert RequestOk(t, other); }
      assert WritesOf(t, i) == {};
    }
    forall id | id in WritesOf(t, i) ensures RequestOk(t, id) { }
  }

  /** The bytes the socket accepted are a prefix of the messages handed over, in order, and all of them once the
      queue of an open connection is empty; the callbacks fired are those of the first messages, in order. */
  lemma StreamIsPrefix(t: Thread, i: nat)
    requires ThreadInv(t) && i < |t.clients|
    ensures var c := t.clients[i];
            && c.wire <= Flatten(c.posted)
            && (i in t.active && c.queue == [] ==> c.wire == Flatten(c.posted) && c.confirmed == c.posted)
            && (i in t.active ==> c.confirmed <= c.posted && Flatten(c.confirmed) <= c.wire)
  {
    var c := t.clients[i];
    assert SlotOk(t, i);
    if i in t.active {
      if c.queue == [] {
        assert c.confirmed + Payloads(c.queue) == c.confirmed;
      } else {
        var id :| id in t.inflight && t.inflight[id].client == i;
        assert RequestOk(t, id);
        PartialIsPrefix(c, t.inflight[id].written);
      }
    }
  }

  /** Closing frees a slot only with an empty queue and no write in flight, so it discards nothing; otherwise the
      connection stays as it was. */
  lemma CloseDiscardsNothing(t: Thread, i: nat)
    requires ThreadInv(t) && i < |t.clients|
    ensures var u := CloseConnection(t, i);
            && u.clients == t.clients && u.inflight == t.inflight
            && (i !in u.active && i in t.active ==> t.clients[i].queue == [] && WritesOf(t, i) == {})
            && (WritesOf(t, i) != {} ==> u == t)
            && (WritesOf(t, i) == {} ==> i in u.freed && i !in u.active)
  {
    OneWriteInFlight(t, i);
    assert SlotOk(t, i);
    if t.clients[i].queue == [] {
      assert t.clients[i].(queue := []) == t.clients[i];
      assert t.clients[i := t.clients[i]] == t.clients;
    }
  }

  /** A write completion always meets the connection that started it, so the generation test the event loop applies
      to every slot but the first makes no difference. */
  lemma CompletionMeetsItsConnection(t: Thread, id: ReqId)
    requires ThreadInv(t) && id in t.inflight
    ensures var r := t.inflight[id];
            r.client < |t.clients| && r.client in t.active && t.clients[r.client].id == r.id && Dispatchable(t, id)
  {
    assert RequestOk(t, id);
    QueueItemsKnown(t, t.inflight[id].client);
  }

  /** A broadcast entry still queued means its use count is exactly the number of such entries on this thread. */
  lemma UsesAreQueueEntries(t: Thread, i: nat, k: nat)
    requires ThreadInv(t) && i < |t.clients| && k < |t.clients[i].queue| && t.clients[i].queue[k].Shared?
    ensures var item := t.clients[i].queue[k].msg.item;
            item < |t.broadcastData| && t.broadcastData[item].uses == Owed(t.clients, item) >= 1
  {
    var item := t.clients[i].queue[k].msg.item;
    EntriesPositive(t.clients[i].queue, k, item);
    OwedAtLeast(t.clients, i, item);
    assert Counted(t, item);
  }

  /** The entry a fan-out overwrites is finished: nothing on this thread points to that item any more. */
  lemma FanOutOverwritesFinished(t: Thread)
    requires ThreadInv(t) && t.inbox.queue != []
    ensures Owed(t.clients, t.inbox.queue[0].item) == 0
    ensures Messages(t.inbox.queue, t.inbox.queue[0].item) == 1 && Messages(t.outbox.queue, t.inbox.queue[0].item) == 0
  {
    HeadNotOwed(t);
    MessagesPositive(t.inbox.queue, 0);
    assert Holds(t, t.inbox.queue[0].item) <= 1;
  }

  // ----- where the handlers do not keep the invariant -----

  lemma UnguardedBreaks(t: Thread, e: Event)
    requires ThreadInv(t) && Enabled(t, e) && !Guarded(t, e)
    ensures !ThreadInv(Turn(t, e))
  {
    match e
    case Upgrade(i, reply) => StrayWrite(t, t.(websockets := t.websockets + {i}), i, reply);
    case Send(i, reply) => StrayWrite(t, t, i, reply);
    case Retire(i, reply) => StrayWrite(t, KillClient(t, i), i, reply);
    case Respond(r, reply) => StrayWrite(t, ReadDone(t, r), t.files.pending[r].slot, reply);
    case Sweep(i) => SweptInFlight(t, i);
  }

  /** A turn keeps the invariant exactly when it writes to a live slot, and reaps no connection with a write in
      flight. */
  lemma TurnExact(t: Thread, e: Event)
    requires ThreadInv(t) && Enabled(t, e)
    ensures ThreadInv(Turn(t, e)) <==> Guarded(t, e)
  {
    if Guarded(t, e) { TurnKeeps(t, e); } else { UnguardedBreaks(t, e); }
  }

  lemma SweptInFlight(t: Thread, i: nat)
    requires ThreadInv(t) && i in t.active && i < |t.clients| && t.clients[i].numWriteReqs != 0
    requires ItemsKnown(t.clients[i].queue, |t.broadcastData|)
    ensures !ThreadInv(Turn(t, Sweep(i)))
  {
    var u := Turn(t, Sweep(i));
    assert u.clients[i].queue == [] && u.clients[i].numWriteReqs == t.clients[i].numWriteReqs;
    assert !SlotOk(u, i);
  }

  lemma StrayWrite(t: Thread, w: Thread, i: nat, data: Data)
    requires i < |t.clients| && i !in t.active && w == t.(websockets := w.websockets, files := w.files)
    ensures !ThreadInv(WriteConnection(w, i, Owned(data)).(serial := t.serial + 1))
  {
    var u := WriteConnection(w, i, Owned(data)).(serial := t.serial + 1);
    assert u.clients[i].queue != [];
    assert !SlotOk(u, i);
  }

  /** A write queued on a freed slot outlives it: once the slot is reused, a request of the old generation is in
      flight that the new connection knows nothing of. */
  lemma StrayWriteOutlivesSlot(t: Thread, i: nat, data: Data)
    requires ThreadInv(t) && i in t.freed && IsNextIndex(t, i)
    ensures var u := Accept(WriteConnection(t, i, Owned(data)), i);
            && ReqId(i, t.serial) in u.inflight && u.inflight[ReqId(i, t.serial)].client == i
            && u.inflight[ReqId(i, t.serial)].id != u.clients[i].id
            && i in u.active && u.clients[i].numWriteReqs == 0 && u.clients[i].posted == []
  {
    assert SlotOk(t, i);
  }

  // ----- whose connection is it -----

  /** The response is on its way to the slot's nth connection. */
  ghost predicate Queued(t: Thread, u: Thread, slot: nat, nth: nat, reply: Data) {
    && slot in u.active && slot < |t.clients| && slot < |u.clients| && u.clients[slot].nth == nth
    && u.clients[slot].posted == t.clients[slot].posted + [reply]
  }

  /** A response read from a file goes to the connection that asked exactly when that one is still there; it goes to
      another one exactly when the slot is live with another; and it breaks the invariant exactly when the slot is
      free. */
  lemma ResponseReachesAsker(t: Thread, read: nat, reply: Data)
    requires ThreadInv(t) && read in t.files.pending
    ensures var a := t.files.pending[read];
            && Enabled(t, Respond(read, reply))
            && var u := Turn(t, Respond(read, reply));
            && (Queued(t, u, a.slot, a.nth, reply) <==> a.slot in t.active && t.clients[a.slot].nth == a.nth)
            && ((exists other :: other != a.nth && Queued(t, u, a.slot, other, reply))
                  <==> a.slot in t.active && t.clients[a.slot].nth != a.nth)
            && (!ThreadInv(u) <==> a.slot !in t.active)
  {
    var a := t.files.pending[read];
    var u := Turn(t, Respond(read, reply));
    TurnExact(t, Respond(read, reply));
    WriteServes(ReadDone(t, read), a.slot, Owned(reply));
    assert u.clients[a.slot].posted == t.clients[a.slot].posted + [reply];
    if a.slot in t.active && t.clients[a.slot].nth != a.nth {
      assert Queued(t, u, a.slot, t.clients[a.slot].nth, reply);
    }
  }

  /** A finished file read is cached under the path its asker named exactly when that is the last path the slot's
      present connection named.  It is when that connection is the asker and has named no other; and if the connection
      has named one path at most, it is exactly then, or when it named the same. */
  lemma FiledExact(t: Thread, read: nat)
    requires ThreadInv(t) && read in t.files.pending && t.files.pending[read].path != ""
    ensures var a := t.files.pending[read];
            a.slot < |t.clients|
            && var asker, paths := t.clients[a.slot].nth == a.nth, Requested(t, a.slot);
            && (FiledUnder(t, read) == a.path <==> paths != [] && paths[|paths| - 1] == a.path)
            && (asker && (forall p :: p in paths ==> p == a.path) ==> FiledUnder(t, read) == a.path)
            && (|paths| <= 1 ==> (FiledUnder(t, read) == a.path <==> asker || paths == [a.path]))
  {
    var a := t.files.pending[read];
    var paths := Requested(t, a.slot);
    assert AskOk(t, a);
    if paths != [] {
      assert paths[|paths| - 1] in paths;
      if |paths| == 1 && paths[0] == a.path { assert paths == [a.path]; }
    }
  }

  lemma Remainder(x: int, q: int, r: int)
    requires x == 100 * q + r && 0 <= r < 100
    ensures x % 100 == r
  {
  }

  lemma SameRemainder(x: nat, y: nat)
    ensures x % 100 == y % 100 <==> (y - x) % 100 == 0
  {
    var a, b, c, d := x / 100, x % 100, y / 100, y % 100;
    if b <= d {
      Remainder(y - x, c - a, d - b);
    } else {
      Remainder(y - x, c - a - 1, d - b + 100);
    }
  }

  /** Comparing generations tells a slot's connections apart, except those a multiple of 100 reuses apart (the very
      first, whose generation never comes back, from all). */
  lemma GenerationTells(m: nat, n: nat)
    ensures Generation(m) == Generation(n) <==> m == n || (m > 0 && n > 0 && (n - m) % 100 == 0)
  {
    if m > 0 && n > 0 { SameRemainder(m - 1, n - 1); }
  }

  /** What a completed socket read is tested for before its bytes go to the slot's read callback. */
  predicate ReadTaken(t: Thread, slot: nat, id: int, res: int)
    requires slot < |t.clients|
  {
    res > 0 && (slot == 0 || t.clients[slot].id == id)
  }

  /** The bytes of a late read, asked for by the slot's nth connection, are taken for a later connection's exactly
      when the slot is the first, or has been reused a multiple of 100 times since. */
  lemma LateReadExact(t: Thread, slot: nat, nth: nat, res: int)
    requires ThreadInv(t) && slot < |t.clients| && nth < t.clients[slot].nth && res > 0
    ensures ReadTaken(t, slot, Generation(nth), res)
       <==> slot == 0 || (nth > 0 && (t.clients[slot].nth - nth) % 100 == 0)
  {
    GenerationTells(nth, t.clients[slot].nth);
  }

  // ----- signals -----

  /** Reading the eventfd swallows all signals but one: the messages of the others wait for a later post.
      No other turn leaves a message behind. */
  lemma CoalescingStrands(t: Thread, e: Event)
    requires ThreadInv(t) && Enabled(t, e)
    ensures Turn(t, e).inbox.Stranded() == t.inbox.Stranded() + (if e.EfdRead? then t.inbox.efd - 1 else 0)
    ensures Turn(t, e).inbox.Stranded() == t.inbox.Stranded() <==> !(e.EfdRead? && t.inbox.efd > 1)
  {
    if e.Wake? {
      WakeKeepsSignals(t);
    } else if !e.EfdRead? && !e.Connect? && !e.Ask? {
      HandleOnlyReports(t, e);
    }
  }
}
