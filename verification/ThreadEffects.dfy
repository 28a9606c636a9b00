/** What one turn of the event loop does to each connection: what is queued on it, what leaves its queue, which bytes
    it is given, and whether its slot stays in use. */
module ThreadEffects {
  import opened Bytes
  import opened ServerThread
  import opened ThreadInvariant
  import opened ThreadProofs

  // ----- what a turn means for a connection -----

  /** The messages the turn queues on slot i. */
  ghost function Handed(t: Thread, e: Event, i: nat): seq<SendItem> {
    match e
    case Wake => if i in t.websockets && t.inbox.queue != [] then [Shared(t.inbox.queue[0])] else []
    case Upgrade(j, reply) => if j == i then [Owned(reply)] else []
    case Send(j, reply) => if j == i then [Owned(reply)] else []
    case Retire(j, reply) => if j == i then [Owned(reply)] else []
    case Respond(r, reply) => if r in t.files.pending && t.files.pending[r].slot == i then [Owned(reply)] else []
    case _ => []
  }

  /** A write of slot i completes in this turn. */
  ghost predicate Completes(t: Thread, e: Event, i: nat) {
    e.Complete? && e.id in t.inflight && t.inflight[e.id].client == i
  }

  /** With this completion the front of the queue is written to its end. */
  ghost predicate Finishes(t: Thread, e: Event, i: nat) {
    Completes(t, e, i) && e.res > 0 && t.inflight[e.id].written + e.res == t.inflight[e.id].Total()
  }

  /** How many messages leave the front of the queue: the one finished, or all of them when a write fails. */
  ghost function Removed(t: Thread, e: Event, i: nat): nat
    requires i < |t.clients|
  {
    if Completes(t, e, i) && e.res <= 0 then |t.clients[i].queue| else if Finishes(t, e, i) then 1 else 0
  }

  /** The bytes the socket accepts: the next `res` ones of the message being written. */
  ghost function BytesTaken(t: Thread, e: Event, i: nat): Data
    requires Enabled(t, e)
  {
    if Completes(t, e, i) && e.res > 0 then
      var r := t.inflight[e.id];
      if r.written + e.res <= r.Total() then r.item.Payload()[r.written..r.written + e.res] else []
    else []
  }

  /** Something ends the connection: the web layer or the peer hangs up, a read or a write fails, or a response that
      closes it is written. */
  ghost predicate Ends(t: Thread, e: Event, i: nat) {
    || e == Hangup(i) || e == ReadFailed(i) || e == Sweep(i)
    || (Completes(t, e, i) && (e.res <= 0 || (e.closes && Finishes(t, e, i))))
  }

  /** The slot's connection after the turn, as far as others can see it. */
  ghost predicate Follows(t: Thread, e: Event, u: Thread, i: nat)
    requires Enabled(t, e) && i < |t.clients| <= |u.clients| && Removed(t, e, i) <= |t.clients[i].queue|
  {
    var c, d := t.clients[i], u.clients[i];
    if e == Connect(i) then
      d.queue == [] && d.posted == [] && d.confirmed == [] && d.wire == [] && d.nth == c.nth + 1
    else
      && d.queue == c.queue[Removed(t, e, i)..] + Handed(t, e, i)
      && d.posted == c.posted + Payloads(Handed(t, e, i))
      && d.confirmed == c.confirmed + (if Finishes(t, e, i) then [c.queue[0].Payload()] else [])
      && d.wire == c.wire + BytesTaken(t, e, i)
      && d.nth == c.nth && d.id == c.id
  }

  /** The slot is in use after the turn exactly if it is taken in it, or was in use and is not ended with nothing left
      to write. */
  ghost predicate ActiveFollows(t: Thread, e: Event, u: Thread, i: nat)
    requires i < |t.clients| <= |u.clients|
  {
    i in u.active <==> e == Connect(i) || (i in t.active && !(Ends(t, e, i) && u.clients[i].queue == []))
  }

  /** The slot is a websocket client after the turn exactly if it becomes one in it, or was one and is neither closing
      nor ended; a failed read ends nothing while a write is in flight. */
  ghost predicate SocketFollows(t: Thread, e: Event, u: Thread, i: nat)
    requires i < |t.clients|
  {
    i in u.websockets <==>
      || (e.Upgrade? && e.slot == i)
      || (i in t.websockets && !(e.Retire? && e.slot == i)
          && !(Ends(t, e, i) && (e == ReadFailed(i) ==> t.clients[i].queue == [])))
  }

  ghost predicate AllFollows(t: Thread, e: Event, u: Thread, i: nat)
    requires Enabled(t, e) && i < |t.clients|
  {
    && |t.clients| <= |u.clients| && Removed(t, e, i) <= |t.clients[i].queue|
    && Follows(t, e, u, i) && ActiveFollows(t, e, u, i) && SocketFollows(t, e, u, i)
  }

  // ----- a posted message -----

  /** The front of the inbox is handed to every websocket client, behind what is queued there, and to no other
      connection; if there is none, it is reported. */
  ghost predicate HandedOn(t: Thread, u: Thread) {
    && t.inbox.queue != [] && u.inbox.queue == t.inbox.queue[1..]
    && |u.clients| == |t.clients| && u.active == t.active && u.websockets == t.websockets
    && (forall i :: 0 <= i < |t.clients| ==>
          var c, d, msg := t.clients[i], u.clients[i], t.inbox.queue[0];
          if i in t.websockets then d.queue == c.queue + [Shared(msg)] && d.posted == c.posted + [msg.data] else d == c)
    && u.outbox == (if t.websockets == {} then t.outbox.Post(t.inbox.queue[0]) else t.outbox)
    && (t.websockets != {} ==>
          var msg := t.inbox.queue[0];
          msg.item < |u.broadcastData|
          && u.broadcastData[msg.item] == BroadcastItem(msg.ptr, msg.data, |t.websockets|))
  }

  lemma WakeHandsOn(t: Thread)
    requires ThreadInv(t) && t.inbox.woken
    ensures HandedOn(t, Turn(t, Wake))
    ensures forall k :: 0 <= k < |t.clients| ==>
              Turn(t, Wake).clients[k]
                == if k in t.websockets then Served(t.clients[k], Shared(t.inbox.queue[0])) else t.clients[k]
  {
    var w := t.(inbox := t.inbox.Handled());
    assert t.inbox.queue != [];
    forall i | 0 <= i < |t.clients| && i in t.websockets
      ensures EventCb(w).clients[i] == Served(t.clients[i], Shared(t.inbox.queue[0]))
    {
    }
  }

  lemma WakeShows(t: Thread, u: Thread, i: nat)
    requires Enabled(t, Wake) && HandedOn(t, u) && i < |t.clients|
    requires forall k :: 0 <= k < |t.clients| ==>
               u.clients[k]
                 == if k in t.websockets then Served(t.clients[k], Shared(t.inbox.queue[0])) else t.clients[k]
    ensures AllFollows(t, Wake, u, i)
  {
    NoneComplete(t, Wake, i);
    assert Payloads([]) == [] && Payloads([Shared(t.inbox.queue[0])]) == [t.inbox.queue[0].data];
  }

  lemma WakeFollows(t: Thread, i: nat)
    requires ThreadInv(t) && t.inbox.woken && i < |t.clients|
    ensures AllFollows(t, Wake, Turn(t, Wake), i)
  {
    WakeHandsOn(t);
    WakeShows(t, Turn(t, Wake), i);
  }

  // ----- a reply -----

  /** A reply goes to slot j, with the websocket clients `w.websockets` by then. */
  lemma ReplyFollows(t: Thread, w: Thread, j: nat, reply: Data, i: nat)
    requires w == t.(websockets := w.websockets, files := w.files) && i < |t.clients| && j < |t.clients|
    ensures var u := WriteConnection(w, j, Owned(reply));
            && u.active == t.active && u.websockets == w.websockets && |u.clients| == |t.clients|
            && var c, d := t.clients[i], u.clients[i];
            && d.queue == c.queue + (if i == j then [Owned(reply)] else [])
            && d.posted == c.posted + (if i == j then [reply] else [])
            && d.confirmed == c.confirmed && d.wire == c.wire && d.nth == c.nth && d.id == c.id
  {
    WriteServes(w, j, Owned(reply));
  }

  lemma ReplyTurn(t: Thread, e: Event) returns (j: nat, w: Thread)
    requires Enabled(t, e) && (e.Upgrade? || e.Send? || e.Retire? || e.Respond?)
    ensures j < |t.clients| && w == t.(websockets := w.websockets, files := w.files)
    ensures Turn(t, e) == WriteConnection(w, j, Owned(e.reply)).(serial := t.serial + 1)
    ensures w.websockets
         == if e.Upgrade? then t.websockets + {j} else if e.Retire? then t.websockets - {j} else t.websockets
    ensures !e.Respond? ==> e.slot == j
    ensures forall i: nat :: Handed(t, e, i) == if i == j then [Owned(e.reply)] else []
  {
    match e
    case Upgrade(i, _) => j, w := i, t.(websockets := t.websockets + {i});
    case Send(i, _) => j, w := i, t;
    case Retire(i, _) => j, w := i, KillClient(t, i);
    case Respond(r, _) => j, w := t.files.pending[r].slot, ReadDone(t, r);
  }

  lemma NoneComplete(t: Thread, e: Event, i: nat)
    requires Enabled(t, e) && !e.Complete? && i < |t.clients|
    ensures Removed(t, e, i) == 0 && !Finishes(t, e, i) && BytesTaken(t, e, i) == []
  {
  }

  lemma ReplyEventFollows(t: Thread, e: Event, i: nat)
    requires Enabled(t, e) && i < |t.clients| && (e.Upgrade? || e.Send? || e.Retire? || e.Respond?)
    ensures AllFollows(t, e, Turn(t, e), i)
  {
    var j, w := ReplyTurn(t, e);
    ReplyFollows(t, w, j, e.reply, i);
    NoneComplete(t, e, i);
    assert Payloads([Owned(e.reply)]) == [e.reply] && Payloads([]) == [];
  }

  // ----- a connection -----

  lemma ConnectFollows(t: Thread, j: nat, i: nat)
    requires ThreadInv(t) && Enabled(t, Connect(j)) && i < |t.clients|
    ensures AllFollows(t, Connect(j), Turn(t, Connect(j)), i)
  {
    AcceptReplaces(t, j);
    assert Payloads([]) == [];
  }

  /** A connection gets the smallest index that carries none, and the generation after its predecessor's. */
  lemma ConnectExact(t: Thread, j: nat)
    requires ThreadInv(t)
    ensures Enabled(t, Connect(j)) <==> j !in t.active && j <= |t.clients| && forall k: nat :: k < j ==> k in t.active
    ensures Enabled(t, Connect(j)) ==>
              var u := Turn(t, Connect(j));
              && |u.clients| == (if j == |t.clients| then j + 1 else |t.clients|) && j in u.active
              && var nth := if j == |t.clients| then 0 else t.clients[j].nth + 1;
                 u.clients[j] == Client(Generation(nth), [], 0, [], [], [], nth)
  {
    forall k | 0 <= k < |t.clients| ensures k in t.active <==> k !in t.freed { assert SlotOk(t, k); }
    if j < |t.clients| { assert t.clients[j].id == Generation(t.clients[j].nth); }
  }

  lemma ClosingChanges(t: Thread, e: Event)
    requires ThreadInv(t) && Enabled(t, e) && Guarded(t, e) && (e.Hangup? || e.ReadFailed? || e.Sweep?)
    ensures var u, idle := Turn(t, e), t.clients[e.slot].queue == [];
            && u.clients == t.clients
            && u.active == (if idle then t.active - {e.slot} else t.active)
            && u.websockets == (if idle || e.Hangup? then t.websockets - {e.slot} else t.websockets)
  {
    assert SlotOk(t, e.slot);
    WebCloseKeeps(t, e.slot, t.serial);
    if t.clients[e.slot].queue == [] { IdleGiveUpIsClose(t, e.slot); }
  }

  lemma ClosingShows(t: Thread, e: Event, u: Thread, i: nat)
    requires Enabled(t, e) && i < |t.clients| && (e.Hangup? || e.ReadFailed? || e.Sweep?)
    requires e.Sweep? ==> t.clients[e.slot].queue == []
    requires var idle := t.clients[e.slot].queue == [];
             && u.clients == t.clients
             && u.active == (if idle then t.active - {e.slot} else t.active)
             && u.websockets == (if idle || e.Hangup? then t.websockets - {e.slot} else t.websockets)
    ensures AllFollows(t, e, u, i)
  {
    NoneComplete(t, e, i);
    assert Handed(t, e, i) == [] && Payloads([]) == [];
  }

  lemma ClosingFollows(t: Thread, e: Event, i: nat)
    requires ThreadInv(t) && Enabled(t, e) && Guarded(t, e) && i < |t.clients|
    requires e.Hangup? || e.ReadFailed? || e.Sweep?
    ensures AllFollows(t, e, Turn(t, e), i)
  {
    ClosingChanges(t, e);
    assert e.Sweep? ==> t.clients[e.slot].queue == [] by { assert SlotOk(t, e.slot); }
    ClosingShows(t, e, Turn(t, e), i);
  }

  // ----- a write completes -----

  lemma PartialChanges(t: Thread, e: Event)
    requires ThreadInv(t) && e.Complete? && Enabled(t, e)
    requires e.res > 0 && t.inflight[e.id].written + e.res < t.inflight[e.id].Total()
    ensures var i, u := t.inflight[e.id].client, Turn(t, e);
            && u.clients == t.clients[i := t.clients[i].(wire := t.clients[i].wire + BytesTaken(t, e, i))]
            && u.active == t.active && u.websockets == t.websockets
  {
    assert RequestOk(t, e.id);
  }

  lemma PartialFollows(t: Thread, e: Event, i: nat)
    requires ThreadInv(t) && e.Complete? && Enabled(t, e) && i < |t.clients|
    requires e.res > 0 && t.inflight[e.id].written + e.res < t.inflight[e.id].Total()
    ensures AllFollows(t, e, Turn(t, e), i)
  {
    PartialChanges(t, e);
    assert Handed(t, e, i) == [] && Removed(t, e, i) == 0 && !Ends(t, e, i) && Payloads([]) == [];
  }

  lemma FailureChanges(t: Thread, e: Event)
    requires ThreadInv(t) && e.Complete? && Enabled(t, e) && e.res <= 0
    ensures var u, j := Turn(t, e), t.inflight[e.id].client;
            && u.clients == t.clients[j := t.clients[j].(queue := [], numWriteReqs := 0)]
            && u.active == t.active - {j} && u.websockets == t.websockets - {j}
  {
    assert RequestOk(t, e.id) && SlotOk(t, t.inflight[e.id].client);
  }

  lemma NoBytesTaken(t: Thread, e: Event, i: nat)
    requires e.Complete? && Enabled(t, e) && i < |t.clients| && e.res <= 0
    ensures Handed(t, e, i) == [] && BytesTaken(t, e, i) == [] && !Finishes(t, e, i)
    ensures Removed(t, e, i) == if t.inflight[e.id].client == i then |t.clients[i].queue| else 0
    ensures Ends(t, e, i) <==> t.inflight[e.id].client == i
  {
  }

  lemma FailureShows(t: Thread, e: Event, u: Thread, i: nat)
    requires e.Complete? && Enabled(t, e) && i < |t.clients| && e.res <= 0
    requires var j := t.inflight[e.id].client;
             && u.clients == t.clients[j := t.clients[j].(queue := [], numWriteReqs := 0)]
             && u.active == t.active - {j} && u.websockets == t.websockets - {j}
    ensures AllFollows(t, e, u, i)
  {
    NoBytesTaken(t, e, i);
    assert Payloads([]) == [];
  }

  lemma FailureFollows(t: Thread, e: Event, i: nat)
    requires ThreadInv(t) && e.Complete? && Enabled(t, e) && i < |t.clients| && e.res <= 0
    ensures AllFollows(t, e, Turn(t, e), i)
  {
    FailureChanges(t, e);
    FailureShows(t, e, Turn(t, e), i);
  }

  /** The front leaves the queue, and its callback may close the slot. */
  lemma FinishChanges(t: Thread, id: ReqId, closes: bool)
    requires Delivered(t, id) && Accounts(t) && Dispatchable(t, id)
    ensures var i, u := t.inflight[id].client, FinishedWrite(t, id, closes);
            var c, d := t.clients[i], u.clients[i];
            && u.clients == t.clients[i := d] && d.queue == c.queue[1..]
            && d.confirmed == c.confirmed + [c.queue[0].Payload()]
            && d.posted == c.posted && d.wire == c.wire && d.nth == c.nth && d.id == c.id
            && u.active == (if closes && d.queue == [] then t.active - {i} else t.active)
            && u.websockets == (if closes then t.websockets - {i} else t.websockets)
  {
    var i := t.inflight[id].client;
    var v := Advance(DropRequest(t, id), i);
    assert RequestOk(t, id);
    AdvanceReplacesRequest(t, id);
    AdvanceMovesFront(t, id);
    AdvanceSettles(t, id);
    var r := ReportUse(v, t.clients[i].queue[0].Info());
    assert FinishedWrite(t, id, closes) == if closes then WebClose(r, i) else r;
    if closes { WebCloseKeeps(r, i, t.serial + 1); }
  }

  lemma FinishTurn(t: Thread, e: Event)
    requires ThreadInv(t) && e.Complete? && Enabled(t, e)
    requires e.res > 0 && t.inflight[e.id].written + e.res == t.inflight[e.id].Total()
    ensures var i, u := t.inflight[e.id].client, Turn(t, e);
            var c, d := t.clients[i], u.clients[i];
            && u.clients == t.clients[i := d] && d.queue == c.queue[1..]
            && d.confirmed == c.confirmed + [c.queue[0].Payload()]
            && d.posted == c.posted && d.wire == c.wire + BytesTaken(t, e, i) && d.nth == c.nth && d.id == c.id
            && u.active == (if e.closes && d.queue == [] then t.active - {i} else t.active)
            && u.websockets == (if e.closes then t.websockets - {i} else t.websockets)
  {
    var a := Accepted(t, e.id, e.res);
    assert RequestOk(t, e.id);
    AcceptedKeepsSlots(t, e.id, e.res);
    AcceptedKeepsRequests(t, e.id, e.res);
    AcceptedKeepsAccounts(t, e.id, e.res);
    FinishChanges(a, e.id, e.closes);
    assert Turn(t, e) == FinishedWrite(a, e.id, e.closes).(serial := t.serial + 1);
  }

  lemma FinishShows(t: Thread, e: Event, u: Thread, i: nat)
    requires e.Complete? && Enabled(t, e) && i < |t.clients| == |u.clients|
    requires e.res > 0 && t.inflight[e.id].written + e.res == t.inflight[e.id].Total()
    requires var j := t.inflight[e.id].client;
             var c, d := t.clients[j], u.clients[j];
             && u.clients == t.clients[j := d] && d.queue == c.queue[1..]
             && d.confirmed == c.confirmed + [c.queue[0].Payload()]
             && d.posted == c.posted && d.wire == c.wire + BytesTaken(t, e, j) && d.nth == c.nth && d.id == c.id
             && u.active == (if e.closes && d.queue == [] then t.active - {j} else t.active)
             && u.websockets == (if e.closes then t.websockets - {j} else t.websockets)
    ensures AllFollows(t, e, u, i)
  {
    assert Payloads([]) == [];
  }

  lemma FinishFollows(t: Thread, e: Event, i: nat)
    requires ThreadInv(t) && e.Complete? && Enabled(t, e) && i < |t.clients|
    requires e.res > 0 && t.inflight[e.id].written + e.res == t.inflight[e.id].Total()
    ensures AllFollows(t, e, Turn(t, e), i)
  {
    FinishTurn(t, e);
    FinishShows(t, e, Turn(t, e), i);
  }

  /** A completion that comes for an older connection of its slot: all it does is that the request is gone, except in
      the first slot, where it takes a write off the present connection's count, and may close it. */
  lemma StaleCompletion(t: Thread, id: ReqId, res: int, closes: bool)
    requires Enabled(t, Complete(id, res, closes)) && t.clients[t.inflight[id].client].id != t.inflight[id].id
    ensures var u, r := Turn(t, Complete(id, res, closes)), t.inflight[id];
            && (r.client > 0 || res <= 0 ==> u == t.(inflight := t.inflight - {id}, serial := t.serial + 1))
            && (r.client == 0 && 0 < res == r.Total() - r.written ==>
                  && u.inflight == t.inflight - {id}
                  && u.clients[0].numWriteReqs == t.clients[0].numWriteReqs - 1
                  && u.websockets == (if closes then t.websockets - {0} else t.websockets)
                  && var last := closes && t.clients[0].numWriteReqs == 1;
                     && u.active == (if last then t.active - {0} else t.active)
                     && u.clients[0].queue == (if last then [] else t.clients[0].queue))
  {
  }

  /** A finished write is reported exactly when it was the last use of a broadcast message on this thread, with the
      buffer recorded when that message was fanned out. */
  lemma FinishReports(t: Thread, e: Event)
    requires ThreadInv(t) && e.Complete? && Enabled(t, e)
    requires e.res > 0 && t.inflight[e.id].written + e.res == t.inflight[e.id].Total()
    ensures var front := t.clients[t.inflight[e.id].client].queue[0];
            if front.Shared? && Owed(t.clients, front.msg.item) == 1 then
              var item := front.msg.item;
              item < |t.broadcastData|
              && Turn(t, e).outbox
                   == t.outbox.Post(Msg(t.broadcastData[item].ptr, t.broadcastData[item].data, item))
            else Turn(t, e).outbox == t.outbox
  {
    var i := t.inflight[e.id].client;
    var front := t.clients[i].queue[0];
    assert RequestOk(t, e.id);
    if front.Shared? {
      EntriesPositive(t.clients[i].queue, 0, front.msg.item);
      OwedAtLeast(t.clients, i, front.msg.item);
      assert Counted(t, front.msg.item);
    }
  }

  // ----- every turn -----

  /** For every turn and every connection: exactly the messages the turn is about are queued at the back, exactly the
      finished or given-up ones leave the front, the socket accepts exactly the bytes completed, and the slot is in use
      and a websocket client afterwards exactly if the turn does not end it. */
  lemma TurnFollows(t: Thread, e: Event, i: nat)
    requires ThreadInv(t) && Enabled(t, e) && Guarded(t, e) && i < |t.clients|
    ensures AllFollows(t, e, Turn(t, e), i)
  {
    match e
    case Wake => WakeFollows(t, i);
    case Connect(j) => ConnectFollows(t, j, i);
    case Complete(id, res, _) =>
      if res <= 0 { FailureFollows(t, e, i); }
      else if t.inflight[id].written + res < t.inflight[id].Total() { PartialFollows(t, e, i); }
      else { FinishFollows(t, e, i); }
    case EfdRead => assert Payloads([]) == [];
    case Ask(_, _) => assert Payloads([]) == [];
    case Upgrade(_, _) => ReplyEventFollows(t, e, i);
    case Send(_, _) => ReplyEventFollows(t, e, i);
    case Retire(_, _) => ReplyEventFollows(t, e, i);
    case Respond(_, _) => ReplyEventFollows(t, e, i);
    case _ => ClosingFollows(t, e, i);
  }

  // ----- file reads -----

  lemma FilesKept(t: Thread, e: Event)
    requires Enabled(t, e) && !e.Connect? && !e.Ask? && !e.Respond?
    ensures Turn(t, e).files == t.files
  {
    if e.Wake? && t.inbox.queue != [] { EventCbTakesOne(t.(inbox := t.inbox.Handled())); }
  }

  /** A connection's requested paths start empty and grow by what it asks for; a file read is under way from its request
      to its response, and names who asked for what. */
  lemma FilesFollow(t: Thread, e: Event, i: nat, read: nat)
    requires ThreadInv(t) && Enabled(t, e) && i < |t.clients|
    ensures var u := Turn(t, e);
            && Requested(u, i) == (if e == Connect(i) then []
                                   else Requested(t, i) + (if e.Ask? && e.slot == i then [e.path] else []))
            && (read in u.files.pending <==>
                  (e.Ask? && read == t.serial) || (read in t.files.pending && !(e.Respond? && e.read == read)))
            && (read in u.files.pending ==>
                  u.files.pending[read] == if e.Ask? && read == t.serial
                                           then FileAsk(e.slot, t.clients[e.slot].nth, e.path)
                                           else t.files.pending[read])
  {
    if !e.Connect? && !e.Ask? && !e.Respond? { FilesKept(t, e); }
  }
}
