/** Every turn of the event loop keeps the thread invariant and the number of reports the thread owes. */
module ThreadProofs {
  import opened Bytes
  import opened ServerThread
  import opened ThreadInvariant

  ghost predicate SameDebts(t: Thread, u: Thread) {
    forall item: nat :: Holds(u, item) == Holds(t, item)
  }

  lemma QueueItemsKnown(t: Thread, i: nat)
    requires Accounts(t) && i < |t.clients|
    ensures ItemsKnown(t.clients[i].queue, |t.broadcastData|)
  {
    var q := t.clients[i].queue;
    forall k | 0 <= k < |q| && q[k].Shared? ensures q[k].msg.item < |t.broadcastData| {
      var item := q[k].msg.item;
      EntriesPositive(q, k, item);
      OwedAtLeast(t.clients, i, item);
      assert Counted(t, item);
    }
  }

  /** Changing queues without changing how many entries point to each item, and nothing else that is counted. */
  lemma AccountsFrame(t: Thread, u: Thread)
    requires Accounts(t)
    requires forall item: nat :: Owed(u.clients, item) == Owed(t.clients, item)
    requires u.broadcastData == t.broadcastData && u.inbox.queue == t.inbox.queue && u.outbox.queue == t.outbox.queue
    ensures Accounts(u) && SameDebts(t, u)
  {
    forall item: nat ensures Counted(u, item) && Holds(u, item) == Holds(t, item) {
      assert Counted(t, item);
    }
  }

  /** The connections, their requests and the set of used slots stay as they are. */
  lemma SlotsFrame(t: Thread, u: Thread, bound: nat, after: nat)
    requires Slots(t) && Requests(t, bound) && bound <= after
    requires u.clients == t.clients && u.inflight == t.inflight && u.active == t.active && u.freed == t.freed
    requires u.websockets <= t.active
    ensures Slots(u) && Requests(u, after)
  {
    forall id | id in u.inflight ensures RequestOk(u, id) && id.serial < after { assert RequestOk(t, id); }
    forall k | 0 <= k < |u.clients| ensures SlotOk(u, k) { assert SlotOk(t, k); }
  }

  // ----- queueing a message -----

  lemma PayloadsSnoc(q: seq<SendItem>, x: SendItem)
    ensures Payloads(q + [x]) == Payloads(q) + [x.Payload()]
  {
  }

  lemma ServedOk(c: Client, item: SendItem)
    requires ClientOk(c, true)
    ensures ClientOk(Served(c, item), true)
  {
    PayloadsSnoc(c.queue, item);
    assert c.confirmed + Payloads(c.queue + [item]) == c.posted + [item.Payload()];
  }

  lemma ServedWrites(r: Request, c: Client, item: SendItem)
    requires Writes(r, c)
    ensures Writes(r, Served(c, item))
  {
  }

  lemma FirstWrites(c: Client, i: nat, item: SendItem)
    requires ClientOk(c, true) && c.queue == []
    ensures Writes(Request(i, c.id, 0, item), Served(c, item))
  {
    assert Flatten(c.confirmed) + item.Payload()[..0] == Flatten(c.confirmed);
  }

  lemma WriteServes(t: Thread, i: nat, item: SendItem)
    requires i < |t.clients|
    ensures var u := WriteConnection(t, i, item);
            && u.clients == t.clients[i := Served(t.clients[i], item)]
            && u.inflight == (if t.clients[i].queue != [] then t.inflight
                              else t.inflight[ReqId(i, t.serial) := Request(i, t.clients[i].id, 0, item)])
  {
    assert PushItem(t.clients[i], item).queue == t.clients[i].queue + [item];
  }

  lemma WriteKeepsSlots(t: Thread, i: nat, item: SendItem)
    requires Slots(t) && Requests(t, t.serial) && i in t.active
    ensures var u := WriteConnection(t, i, item); Slots(u) && Requests(u, t.serial + 1)
  {
    var u := WriteConnection(t, i, item);
    var c := t.clients[i];
    assert SlotOk(t, i);
    WriteServes(t, i, item);
    ServedOk(c, item);
    if c.queue == [] { FirstWrites(c, i, item); }
    forall id | id in u.inflight ensures RequestOk(u, id) && id.serial < t.serial + 1 {
      if id in t.inflight && id != ReqId(i, t.serial) {
        assert RequestOk(t, id);
        if id.slot == i { ServedWrites(t.inflight[id], c, item); }
      }
    }
    forall k | 0 <= k < |u.clients| ensures SlotOk(u, k) {
      assert SlotOk(t, k);
      if k == i && c.queue == [] {
        assert u.inflight[ReqId(i, t.serial)].client == i;
      } else if u.clients[k].queue != [] {
        var id :| id in t.inflight && t.inflight[id].client == k;
        assert RequestOk(t, id);
        assert id in u.inflight && u.inflight[id].client == k;
      }
    }
    forall a, b | a in u.inflight && b in u.inflight && a.slot == b.slot ensures a == b {
      if a in t.inflight { assert RequestOk(t, a); }
      if b in t.inflight { assert RequestOk(t, b); }
    }
  }

  lemma WriteKeepsAccounts(t: Thread, i: nat, item: SendItem)
    requires Accounts(t) && i < |t.clients| && item.Owned?
    ensures var u := WriteConnection(t, i, item); Accounts(u) && SameDebts(t, u)
  {
    var u := WriteConnection(t, i, item);
    forall k: nat ensures Owed(u.clients, k) == Owed(t.clients, k) {
      EntriesSnoc(t.clients[i].queue, item, k);
      OwedUpdate(t.clients, i, u.clients[i], k);
      assert u.clients == t.clients[i := u.clients[i]];
    }
    AccountsFrame(t, u);
  }

  // ----- closing -----

  lemma WebCloseKeeps(t: Thread, i: nat, bound: nat)
    requires Slots(t) && Requests(t, bound) && i < |t.clients|
    ensures var u := WebClose(t, i); Slots(u) && Requests(u, bound)
    ensures var u := WebClose(t, i); u.clients == t.clients && u.inflight == t.inflight
  {
    var u := WebClose(t, i);
    var c := t.clients[i];
    assert SlotOk(t, i);
    if c.numWriteReqs == 0 {
      assert c.(queue := []) == c;
      assert u.clients == t.clients;
      if i in t.active { assert c.confirmed + Payloads(c.queue) == c.confirmed; }
    }
    forall id | id in u.inflight ensures RequestOk(u, id) && id.serial < bound {
      assert RequestOk(t, id);
    }
    forall k | 0 <= k < |u.clients| ensures SlotOk(u, k) {
      assert SlotOk(t, k);
    }
  }

  // ----- accepting -----

  lemma AcceptReplaces(t: Thread, i: nat)
    requires Slots(t) && IsNextIndex(t, i)
    ensures var u := Accept(t, i);
            && i !in t.active && (i < |t.clients| ==> t.clients[i].queue == [])
            && u == t.(clients := u.clients, active := t.active + {i}, freed := t.freed - {i},
                       files := t.files.(paths := t.files.paths[i := []]))
            && i < |u.clients| && |t.clients| <= |u.clients| && u.clients[i].queue == []
            && ClientOk(u.clients[i], true)
            && forall k :: 0 <= k < |u.clients| && k != i ==> k < |t.clients| && u.clients[k] == t.clients[k]
  {
    if i < |t.clients| { assert SlotOk(t, i); }
    assert Payloads([]) == [];
  }

  lemma AcceptKeepsSlots(t: Thread, i: nat)
    requires Slots(t) && Requests(t, t.serial) && IsNextIndex(t, i)
    ensures var u := Accept(t, i); Slots(u) && Requests(u, t.serial)
  {
    var u := Accept(t, i);
    AcceptReplaces(t, i);
    forall id | id in u.inflight ensures RequestOk(u, id) { assert RequestOk(t, id); }
    forall k | 0 <= k < |u.clients| ensures SlotOk(u, k) {
      if k != i {
        assert SlotOk(t, k);
        if u.clients[k].queue != [] { assert Covered(t, k) && Covered(u, k); }
      }
    }
  }

  lemma AcceptKeepsAccounts(t: Thread, i: nat)
    requires Accounts(t) && Slots(t) && IsNextIndex(t, i)
    ensures var u := Accept(t, i); Accounts(u) && SameDebts(t, u)
  {
    var u := Accept(t, i);
    AcceptReplaces(t, i);
    forall item: nat ensures Owed(u.clients, item) == Owed(t.clients, item) {
      if i < |t.clients| {
        OwedUpdate(t.clients, i, u.clients[i], item);
      } else {
        OwedSnoc(t.clients, u.clients[i], item);
      }
    }
    AccountsFrame(t, u);
  }

  /** The new connection gets the generation after its predecessor's. */
  lemma AcceptKeepsIdentities(t: Thread, i: nat)
    requires Identities(t, t.serial) && IsNextIndex(t, i)
    ensures Identities(Accept(t, i), t.serial + 1)
  {
    var u := Accept(t, i);
    forall k | 0 <= k < |u.clients| ensures u.clients[k].id == Generation(u.clients[k].nth) {
      if k < |t.clients| { assert t.clients[k].id == Generation(t.clients[k].nth); }
    }
    forall r | r in u.files.pending ensures r < t.serial + 1 && AskOk(u, u.files.pending[r]) {
      assert AskOk(t, t.files.pending[r]);
    }
  }

  /** Accepting a connection into the smallest freed slot, or a new one, keeps the invariant. */
  lemma AcceptKeeps(t: Thread, i: nat)
    requires ThreadInv(t) && IsNextIndex(t, i)
    ensures var u := Accept(t, i);
            Slots(u) && Requests(u, t.serial) && Accounts(u) && SameDebts(t, u) && Identities(u, t.serial + 1)
  {
    AcceptKeepsSlots(t, i);
    AcceptKeepsAccounts(t, i);
    AcceptKeepsIdentities(t, i);
  }

  // ----- a write makes progress -----

  /** The socket accepts n more bytes of the front. */
  lemma MoreWritten(r: Request, c: Client, n: nat)
    requires Writes(r, c) && r.written + n <= r.Total()
    ensures Writes(r.(written := r.written + n),
                   c.(wire := c.wire + r.item.Payload()[r.written..r.written + n]))
  {
    var p := r.item.Payload();
    assert p[..r.written] + p[r.written..r.written + n] == p[..r.written + n];
  }

  lemma AcceptedKeepsRequests(t: Thread, id: ReqId, n: nat)
    requires Requests(t, t.serial) && id in t.inflight
    requires t.inflight[id].written + n <= t.inflight[id].Total()
    requires t.inflight[id].client < |t.clients|
    ensures Requests(Accepted(t, id, n), t.serial)
  {
    var u := Accepted(t, id, n);
    var r := t.inflight[id];
    assert RequestOk(t, id);
    MoreWritten(r, t.clients[r.client], n);
    forall a | a in u.inflight ensures RequestOk(u, a) && a.serial < t.serial {
      assert RequestOk(t, a);
      if a != id {
        assert a.slot != id.slot && u.inflight[a] == t.inflight[a] && u.clients[a.slot] == t.clients[a.slot];
      }
    }
  }

  lemma AcceptedKeepsSlots(t: Thread, id: ReqId, n: nat)
    requires Slots(t) && Requests(t, t.serial) && id in t.inflight
    requires t.inflight[id].written + n <= t.inflight[id].Total()
    requires t.inflight[id].client < |t.clients|
    ensures Slots(Accepted(t, id, n))
  {
    var u := Accepted(t, id, n);
    assert RequestOk(t, id);
    forall k | 0 <= k < |u.clients| ensures SlotOk(u, k) {
      assert SlotOk(t, k);
      if u.clients[k].queue != [] {
        var a :| a in t.inflight && t.inflight[a].client == k;
        assert a in u.inflight && u.inflight[a].client == k;
      }
    }
  }

  lemma AcceptedKeepsAccounts(t: Thread, id: ReqId, n: nat)
    requires Accounts(t) && id in t.inflight
    requires t.inflight[id].written + n <= t.inflight[id].Total()
    requires t.inflight[id].client < |t.clients|
    ensures var u := Accepted(t, id, n); Accounts(u) && SameDebts(t, u)
  {
    var u := Accepted(t, id, n);
    var i := t.inflight[id].client;
    SameQueueSameOwed(t.clients, i, u.clients[i]);
    AccountsFrame(t, u);
  }

  lemma SameQueueSameOwed(clients: seq<Client>, i: nat, c: Client)
    requires i < |clients| && c.queue == clients[i].queue
    ensures forall item: nat :: Owed(clients[i := c], item) == Owed(clients, item)
  {
    forall item: nat ensures Owed(clients[i := c], item) == Owed(clients, item) {
      OwedUpdate(clients, i, c, item);
    }
  }

  // ----- a write finishes -----

  ghost predicate Delivered(t: Thread, id: ReqId) {
    && Slots(t) && Requests(t, t.serial) && id in t.inflight
    && t.inflight[id].written == t.inflight[id].Total()
    && t.inflight[id].client < |t.clients| && t.clients[t.inflight[id].client].queue != []
  }

  /** The finished message moves from the queue to the confirmed ones. */
  lemma AdvanceMovesFront(t: Thread, id: ReqId)
    requires Delivered(t, id)
    ensures var i := t.inflight[id].client;
            var c := t.clients[i];
            var d := Advance(DropRequest(t, id), i).clients[i];
            && d.id == c.id && d.queue == c.queue[1..] && d.posted == c.posted && d.wire == Flatten(d.confirmed)
            && d.numWriteReqs == (if d.queue == [] then 0 else 1)
            && d.confirmed + Payloads(d.queue) == d.posted && i in t.active
  {
    var r := t.inflight[id];
    var i := r.client;
    var c := t.clients[i];
    assert RequestOk(t, id) && SlotOk(t, i);
    var p := c.queue[0].Payload();
    assert p[..r.written] == p;
    FlattenSnoc(c.confirmed, p);
    assert Payloads(c.queue) == [p] + Payloads(c.queue[1..]);
    assert c.confirmed + [p] + Payloads(c.queue[1..]) == c.confirmed + Payloads(c.queue);
  }

  /** The finished request makes way for the next one. */
  lemma AdvanceReplacesRequest(t: Thread, id: ReqId)
    requires Delivered(t, id)
    ensures var i := t.inflight[id].client;
            var c := t.clients[i];
            var u := Advance(DropRequest(t, id), i);
            && u.active == t.active && u.freed == t.freed && u.websockets == t.websockets
            && u.clients == t.clients[i := u.clients[i]] && |u.clients| == |t.clients|
            && u.inflight == (if |c.queue| == 1 then t.inflight - {id}
                              else (t.inflight - {id})[ReqId(i, t.serial) := Request(i, c.id, 0, c.queue[1])])
  {
  }

  lemma NextWrites(c: Client, i: nat)
    requires c.queue != [] && c.wire == Flatten(c.confirmed)
    ensures Writes(Request(i, c.id, 0, c.queue[0]), c)
  {
    assert Flatten(c.confirmed) + c.queue[0].Payload()[..0] == Flatten(c.confirmed);
  }

  lemma AdvanceKeepsOther(t: Thread, id: ReqId, a: ReqId)
    requires Delivered(t, id) && a in t.inflight && a != id
    ensures var u := Advance(DropRequest(t, id), t.inflight[id].client);
            a in u.inflight && RequestOk(u, a) && a.slot != t.inflight[id].client
  {
    AdvanceReplacesRequest(t, id);
    assert RequestOk(t, id) && RequestOk(t, a);
  }

  lemma AdvanceKeepsRequests(t: Thread, id: ReqId)
    requires Delivered(t, id)
    ensures Requests(Advance(DropRequest(t, id), t.inflight[id].client), t.serial + 1)
  {
    var i := t.inflight[id].client;
    var u := Advance(DropRequest(t, id), i);
    AdvanceMovesFront(t, id);
    AdvanceReplacesRequest(t, id);
    forall a | a in u.inflight
      ensures RequestOk(u, a) && a.serial < t.serial + 1
      ensures if a == ReqId(i, t.serial) then a !in t.inflight else a in t.inflight && a.slot != i
    {
      if a in t.inflight {
        AdvanceKeepsOther(t, id, a);
      } else {
        NextWrites(u.clients[i], i);
      }
    }
  }

  lemma AdvanceKeepsSlots(t: Thread, id: ReqId)
    requires Delivered(t, id)
    ensures Slots(Advance(DropRequest(t, id), t.inflight[id].client))
  {
    var i := t.inflight[id].client;
    var u := Advance(DropRequest(t, id), i);
    AdvanceMovesFront(t, id);
    AdvanceReplacesRequest(t, id);
    assert RequestOk(t, id);
    forall k | 0 <= k < |u.clients| ensures SlotOk(u, k) {
      assert SlotOk(t, k);
      if k == i {
        if u.clients[k].queue != [] { assert u.inflight[ReqId(i, t.serial)].client == i; }
      } else {
        assert u.clients[k] == t.clients[k];
        if u.clients[k].queue != [] {
          var a :| a in t.inflight && t.inflight[a].client == k;
          assert a in u.inflight && u.inflight[a].client == k;
        }
      }
    }
  }

  lemma PopOwed(clients: seq<Client>, i: nat, c: Client, item: nat)
    requires i < |clients| && clients[i].queue != [] && c.queue == clients[i].queue[1..]
    ensures Owed(clients[i := c], item)
         == Owed(clients, item) - (if clients[i].queue[0].Info() == Item(item) then 1 else 0)
  {
    OwedUpdate(clients, i, c, item);
  }

  /** `u` is `t` with one entry for `info` removed from the queues: reporting that use settles the account. */
  lemma ReportSettles(t: Thread, u: Thread, info: ItemRef)
    requires Accounts(t)
    requires info.Item? ==> info.item < |u.broadcastData| && Owed(t.clients, info.item) > 0
    requires forall item: nat :: Owed(u.clients, item) == Owed(t.clients, item) - (if info == Item(item) then 1 else 0)
    requires u.broadcastData == t.broadcastData && u.inbox.queue == t.inbox.queue && u.outbox.queue == t.outbox.queue
    ensures var v := ReportUse(u, info); Accounts(v) && SameDebts(t, v)
  {
    var v := ReportUse(u, info);
    forall item: nat ensures Counted(v, item) && Holds(v, item) == Holds(t, item) {
      assert Counted(t, item);
      if info.Item? {
        assert Counted(t, info.item);
        var b := u.broadcastData[info.item];
        MessagesSnoc(u.outbox.queue, Msg(b.ptr, b.data, info.item), item);
      }
    }
  }

  lemma ReportKeepsSlots(t: Thread, info: ItemRef, bound: nat)
    requires Slots(t) && Requests(t, bound)
    requires info.Item? ==> info.item < |t.broadcastData|
    ensures var u := ReportUse(t, info);
            Slots(u) && Requests(u, bound) && u.clients == t.clients && u.serial == t.serial
  {
    SlotsFrame(t, ReportUse(t, info), bound, bound);
  }

  lemma ClosingKeepsAccounts(t: Thread, i: nat, bound: nat)
    requires Accounts(t) && Slots(t) && Requests(t, bound) && i < |t.clients|
    ensures var u := WebClose(t, i); Accounts(u) && SameDebts(t, u)
  {
    WebCloseKeeps(t, i, bound);
    AccountsFrame(t, WebClose(t, i));
  }

  lemma AdvancePopsOwed(t: Thread, id: ReqId, item: nat)
    requires Delivered(t, id)
    ensures var i := t.inflight[id].client;
            Owed(Advance(DropRequest(t, id), i).clients, item)
              == Owed(t.clients, item) - (if t.clients[i].queue[0].Info() == Item(item) then 1 else 0)
  {
    var i := t.inflight[id].client;
    AdvanceMovesFront(t, id);
    AdvanceReplacesRequest(t, id);
    PopOwed(t.clients, i, Advance(DropRequest(t, id), i).clients[i], item);
  }

  /** The finished message's use is reported. */
  lemma AdvanceSettles(t: Thread, id: ReqId)
    requires Delivered(t, id) && Accounts(t)
    ensures var i := t.inflight[id].client;
            var u := Advance(DropRequest(t, id), i);
            var info := t.clients[i].queue[0].Info();
            (info.Item? ==> info.item < |u.broadcastData|)
            && var v := ReportUse(u, info);
            Slots(v) && Requests(v, t.serial + 1) && Accounts(v) && SameDebts(t, v) && v.serial == t.serial
            && |v.clients| == |t.clients|
  {
    var i := t.inflight[id].client;
    var u := Advance(DropRequest(t, id), i);
    var info := t.clients[i].queue[0].Info();
    AdvanceKeepsSlots(t, id);
    AdvanceKeepsRequests(t, id);
    forall item: nat { AdvancePopsOwed(t, id, item); }
    QueueItemsKnown(t, i);
    if info.Item? {
      EntriesPositive(t.clients[i].queue, 0, info.item);
      OwedAtLeast(t.clients, i, info.item);
    }
    ReportSettles(t, u, info);
    ReportKeepsSlots(u, info, t.serial + 1);
  }

  /** A write that has delivered its last byte. */
  lemma FinishKeeps(t: Thread, id: ReqId, closes: bool)
    requires Delivered(t, id) && Accounts(t) && Dispatchable(t, id)
    ensures var v := FinishedWrite(t, id, closes);
            Slots(v) && Requests(v, t.serial + 1) && Accounts(v) && SameDebts(t, v)
  {
    var i := t.inflight[id].client;
    assert RequestOk(t, id);
    AdvanceSettles(t, id);
    var v := ReportUse(Advance(DropRequest(t, id), i), t.clients[i].queue[0].Info());
    assert FinishedWrite(t, id, closes) == if closes then WebClose(v, i) else v;
    if closes {
      WebCloseKeeps(v, i, t.serial + 1);
      ClosingKeepsAccounts(v, i, t.serial + 1);
    }
  }

  // ----- a connection fails -----

  lemma DropFrontKeepsAccounts(t: Thread, i: nat)
    requires Accounts(t) && i < |t.clients| && t.clients[i].queue != []
    requires ItemsKnown(t.clients[i].queue, |t.broadcastData|)
    ensures var u := DropFront(t, i); Accounts(u) && SameDebts(t, u)
  {
    var info := t.clients[i].queue[0].Info();
    var popped := PopFront(t, i);
    forall item: nat
      ensures Owed(popped.clients, item) == Owed(t.clients, item) - (if info == Item(item) then 1 else 0)
    {
      PopOwed(t.clients, i, popped.clients[i], item);
    }
    if info.Item? {
      EntriesPositive(t.clients[i].queue, 0, info.item);
      OwedAtLeast(t.clients, i, info.item);
    }
    ReportSettles(t, popped, info);
    var reported := ReportUse(popped, info);
    assert DropFront(t, i) == KillClient(reported, i);
    AccountsFrame(reported, KillClient(reported, i));
  }

  lemma {:induction false} DrainKeepsAccounts(t: Thread, i: nat)
    requires Accounts(t) && i < |t.clients| && ItemsKnown(t.clients[i].queue, |t.broadcastData|)
    ensures var u := Drain(t, i); Accounts(u) && SameDebts(t, u)
    decreases |t.clients[i].queue|
  {
    if t.clients[i].queue != [] {
      var u := DropFront(t, i);
      DropFrontKeepsAccounts(t, i);
      DrainKeepsAccounts(u, i);
      assert Drain(t, i) == Drain(u, i);
    }
  }

  lemma PartialIsPrefix(c: Client, n: nat)
    requires c.queue != [] && n <= |c.queue[0].Payload()|
    requires c.confirmed + Payloads(c.queue) == c.posted
    ensures Flatten(c.confirmed) + c.queue[0].Payload()[..n] <= Flatten(c.posted)
  {
    var p := c.queue[0].Payload();
    assert Payloads(c.queue) == [p] + Payloads(c.queue[1..]);
    FlattenAppend(c.confirmed, Payloads(c.queue));
    assert Flatten(Payloads(c.queue)) == p + Flatten(Payloads(c.queue[1..]));
  }

  /** A failed write: the rest of the queue is given up, and the slot is freed with nothing left in flight. */
  lemma FailedWriteKeepsSlots(t: Thread, id: ReqId)
    requires Slots(t) && Requests(t, t.serial) && Dispatchable(t, id)
    ensures var u := FailedWrite(t, id, 0); Slots(u) && Requests(u, t.serial)
  {
    var r := t.inflight[id];
    var i := r.client;
    var c := t.clients[i];
    assert RequestOk(t, id) && SlotOk(t, i);
    var u := FailClient(DropRequest(t, id), i);
    assert u.clients == t.clients[i := c.(queue := [], numWriteReqs := 0)];
    assert u.active == t.active - {i} && u.freed == t.freed + {i} && u.inflight == t.inflight - {id};
    PartialIsPrefix(c, r.written);
    forall a | a in u.inflight ensures RequestOk(u, a) {
      assert RequestOk(t, a) && a != id;
      assert a.slot != id.slot;
    }
    forall k | 0 <= k < |u.clients| ensures SlotOk(u, k) {
      assert SlotOk(t, k);
      if u.clients[k].queue != [] {
        var a :| a in t.inflight && t.inflight[a].client == k;
        assert a in u.inflight && u.inflight[a].client == k;
      }
    }
  }

  lemma GiveUpKeepsAccounts(t: Thread, i: nat)
    requires Accounts(t) && i < |t.clients| && ItemsKnown(t.clients[i].queue, |t.broadcastData|)
    ensures var u := GiveUp(t, i); Accounts(u) && SameDebts(t, u)
  {
    DrainKeepsAccounts(t, i);
    var d := Drain(t, i);
    var u := GiveUp(t, i);
    assert d.clients[i].(queue := []) == d.clients[i];
    assert u.clients == d.clients;
    AccountsFrame(d, u);
  }

  lemma FailedWriteKeepsAccounts(t: Thread, id: ReqId)
    requires Slots(t) && Requests(t, t.serial) && Accounts(t) && Dispatchable(t, id)
    ensures var u := FailedWrite(t, id, 0); Accounts(u) && SameDebts(t, u)
  {
    var i := t.inflight[id].client;
    var d := DropRequest(t, id);
    assert RequestOk(t, id) && SlotOk(t, i);
    SameQueueSameOwed(t.clients, i, d.clients[i]);
    AccountsFrame(t, d);
    GiveUpKeepsAccounts(d, i);
  }

  /** With no write in flight the queue is empty, so giving up is an ordinary close. */
  lemma IdleGiveUpIsClose(t: Thread, i: nat)
    requires i < |t.clients| && t.clients[i].queue == []
    ensures GiveUp(t, i) == WebClose(t, i)
  {
  }

  // ----- a broadcast message is fanned out -----

  lemma {:induction false} FanOutOwed(clients: seq<Client>, receivers: set<nat>, item: SendItem, k: nat)
    requires forall i :: i in receivers ==> i < |clients|
    ensures Owed(FanOut(clients, receivers, item), k)
         == Owed(clients, k) + (if item.Info() == Item(k) then |receivers| else 0)
    decreases |receivers|
  {
    if receivers == {} {
      assert FanOut(clients, receivers, item) == clients;
    } else {
      var i :| i in receivers;
      var rest := receivers - {i};
      FanOutOwed(clients, rest, item, k);
      var before := FanOut(clients, rest, item);
      assert FanOut(clients, receivers, item) == before[i := Served(clients[i], item)];
      OwedUpdate(before, i, Served(clients[i], item), k);
      EntriesSnoc(clients[i].queue, item, k);
    }
  }

  lemma BroadcastRequests(t: Thread, item: SendItem, id: ReqId)
    requires Slots(t) && Requests(t, t.serial)
    ensures var u := Broadcast(t, item);
            && (id in t.inflight ==> id in u.inflight && u.inflight[id] == t.inflight[id])
            && (id in u.inflight && id !in t.inflight ==>
                  && id.slot in t.websockets && t.clients[id.slot].queue == [] && id == ReqId(id.slot, t.serial)
                  && u.inflight[id] == Request(id.slot, t.clients[id.slot].id, 0, item))
            && (id.slot in t.websockets && t.clients[id.slot].queue == [] && id.serial == t.serial ==> id in u.inflight)
  {
    if id in t.inflight { assert RequestOk(t, id); }
    if id.slot in t.websockets && t.clients[id.slot].queue == [] && id.serial == t.serial {
      assert id == ReqId(id.slot, t.serial);
    }
  }

  lemma BroadcastKeepsRequests(t: Thread, item: SendItem)
    requires Slots(t) && Requests(t, t.serial)
    ensures Requests(Broadcast(t, item), t.serial + 1)
  {
    var u := Broadcast(t, item);
    forall id | id in u.inflight ensures RequestOk(u, id) && id.serial < t.serial + 1 {
      BroadcastRequests(t, item, id);
      var c := t.clients[id.slot];
      if id in t.inflight {
        assert RequestOk(t, id);
        ServedWrites(t.inflight[id], c, item);
      } else {
        assert SlotOk(t, id.slot);
        FirstWrites(c, id.slot, item);
      }
    }
    forall a, b | a in u.inflight && b in u.inflight && a.slot == b.slot ensures a == b {
      BroadcastRequests(t, item, a);
      BroadcastRequests(t, item, b);
      if a in t.inflight { assert RequestOk(t, a); }
      if b in t.inflight { assert RequestOk(t, b); }
    }
  }

  lemma BroadcastKeepsSlot(t: Thread, item: SendItem, k: nat)
    requires Slots(t) && Requests(t, t.serial) && k < |t.clients|
    ensures SlotOk(Broadcast(t, item), k)
  {
    var u := Broadcast(t, item);
    var c := t.clients[k];
    assert SlotOk(t, k);
    if c.queue != [] {
      var a :| a in t.inflight && t.inflight[a].client == k;
      BroadcastRequests(t, item, a);
      assert Covered(u, k);
    }
    if k in t.websockets {
      ServedOk(c, item);
      assert u.clients[k] == Served(c, item);
      if c.queue == [] {
        BroadcastRequests(t, item, ReqId(k, t.serial));
        assert u.inflight[ReqId(k, t.serial)].client == k;
      }
    }
  }

  lemma BroadcastKeepsSlots(t: Thread, item: SendItem)
    requires Slots(t) && Requests(t, t.serial)
    ensures Slots(Broadcast(t, item))
  {
    forall k | 0 <= k < |t.clients| ensures SlotOk(Broadcast(t, item), k) { BroadcastKeepsSlot(t, item, k); }
  }

  /** The message at the head of the queue is the only trace of its item on this thread. */
  lemma HeadNotOwed(t: Thread)
    requires Accounts(t) && t.inbox.queue != []
    ensures Owed(t.clients, t.inbox.queue[0].item) == 0
  {
    MessagesPositive(t.inbox.queue, 0);
    assert Holds(t, t.inbox.queue[0].item) <= 1;
  }

  /** Taking the head of the queue and making room for its entry. */
  function Taken(t: Thread, b: seq<BroadcastItem>): Thread
    requires t.inbox.queue != []
  {
    t.(inbox := t.inbox.Taken(), broadcastData := b)
  }

  lemma FanOutKeeps(t: Thread)
    requires ThreadInv(t) && t.inbox.queue != [] && t.websockets != {}
    ensures var u := EventCb(t); Slots(u) && Requests(u, t.serial + 1) && Accounts(u) && SameDebts(t, u)
  {
    var msg := t.inbox.queue[0];
    var item := Shared(msg);
    var u := EventCb(t);
    var t1 := Taken(t, u.broadcastData);
    HeadNotOwed(t);
    assert u == Broadcast(t1, item);
    SlotsFrame(t, t1, t.serial, t.serial);
    BroadcastKeepsSlots(t1, item);
    BroadcastKeepsRequests(t1, item);
    assert |t.websockets| > 0;
    forall k: nat ensures Counted(u, k) && Holds(u, k) == Holds(t, k) {
      assert Counted(t, k);
      FanOutOwed(t1.clients, t.websockets, item, k);
    }
  }

  lemma NoReceiversKeeps(t: Thread)
    requires ThreadInv(t) && t.inbox.queue != [] && t.websockets == {}
    ensures var u := EventCb(t); Slots(u) && Requests(u, t.serial) && Accounts(u) && SameDebts(t, u)
  {
    var msg := t.inbox.queue[0];
    var u := EventCb(t);
    assert u == PostToProgram(Taken(t, u.broadcastData), msg);
    SlotsFrame(t, u, t.serial, t.serial);
    forall k: nat ensures Counted(u, k) && Holds(u, k) == Holds(t, k) {
      assert Counted(t, k);
      MessagesSnoc(t.outbox.queue, msg, k);
    }
  }

  lemma EventCbKeeps(t: Thread)
    requires ThreadInv(t) && t.inbox.queue != []
    ensures var u := EventCb(t); Slots(u) && Requests(u, t.serial + 1) && Accounts(u) && SameDebts(t, u)
  {
    if t.websockets != {} { FanOutKeeps(t); } else { NoReceiversKeeps(t); }
  }

  // ----- every turn -----

  lemma CompleteWriteKeeps(t: Thread, id: ReqId, res: int, closes: bool)
    requires ThreadInv(t) && Dispatchable(t, id)
    requires res <= t.inflight[id].Total() - t.inflight[id].written
    ensures var u := CompleteWrite(t, id, res, closes);
            Slots(u) && Requests(u, t.serial + 1) && Accounts(u) && SameDebts(t, u)
  {
    assert RequestOk(t, id);
    if res <= 0 {
      FailedWriteKeepsSlots(t, id);
      FailedWriteKeepsAccounts(t, id);
    } else {
      var u := Accepted(t, id, res);
      AcceptedKeepsSlots(t, id, res);
      AcceptedKeepsRequests(t, id, res);
      AcceptedKeepsAccounts(t, id, res);
      if t.inflight[id].written + res == t.inflight[id].Total() {
        FinishKeeps(u, id, closes);
      }
    }
  }

  /** Messages for the central thread are only added, one signal each; every slot keeps its connection, and no file
      is asked for. */
  ghost predicate OnlyReports(t: Thread, u: Thread) {
    && u.inbox == t.inbox && OnlyPosts(t.outbox, u.outbox)
    && |u.clients| == |t.clients| && (forall i :: 0 <= i < |t.clients| ==> 
          u.clients[i].nth == t.clients[i].nth && u.clients[i].id == t.clients[i].id)
    && u.files.pending.Keys <= t.files.pending.Keys
    && (forall r :: r in u.files.pending ==> u.files.pending[r] == t.files.pending[r])
    && u.files.paths == t.files.paths
  }

  lemma OnlyReportsKeeps(t: Thread, u: Thread)
    requires Signals(t) && Identities(t, t.serial) && OnlyReports(t, u)
    ensures Signals(u) && Identities(u, t.serial + 1)
  {
    forall r | r in u.files.pending ensures r < t.serial && AskOk(u, u.files.pending[r]) {
      assert r in t.files.pending && AskOk(t, t.files.pending[r]);
    }
  }

  lemma FailOnlyReports(t: Thread, i: nat)
    requires i < |t.clients| && ItemsKnown(t.clients[i].queue, |t.broadcastData|)
    ensures OnlyReports(t, GiveUp(t, i)) && OnlyReports(t, FailClient(t, i))
  {
  }

  lemma CloseOnlyReports(t: Thread, i: nat)
    requires i < |t.clients|
    ensures OnlyReports(t, WebClose(t, i))
  {
  }

  lemma ReplyOnlyReports(t: Thread, i: nat, item: SendItem)
    requires i < |t.clients|
    ensures OnlyReports(t, WriteConnection(t, i, item))
  {
  }

  lemma WriteCbOnlyReports(t: Thread, i: nat, info: ItemRef, closes: bool)
    requires i < |t.clients| && (info.Item? ==> info.item < |t.broadcastData|)
    ensures OnlyReports(t, WriteCb(t, i, info, closes))
  {
    CloseOnlyReports(ReportUse(t, info), i);
  }

  lemma AdvanceOnlyReports(t: Thread, i: nat)
    requires i < |t.clients| && t.clients[i].queue != []
    ensures OnlyReports(t, Advance(t, i))
    ensures Advance(t, i).broadcastData == t.broadcastData
  {
  }

  lemma DropOnlyReports(t: Thread, id: ReqId)
    requires id in t.inflight && t.inflight[id].client < |t.clients|
    ensures OnlyReports(t, DropRequest(t, id)) && DropRequest(t, id).broadcastData == t.broadcastData
  {
  }

  lemma AcceptedOnlyReports(t: Thread, id: ReqId, n: nat)
    requires id in t.inflight && t.inflight[id].client < |t.clients|
    requires t.inflight[id].written + n <= t.inflight[id].Total()
    ensures OnlyReports(t, Accepted(t, id, n)) && Accepted(t, id, n).broadcastData == t.broadcastData
  {
  }

  lemma FailedOnlyReports(t: Thread, id: ReqId, res: int)
    requires Dispatchable(t, id)
    ensures OnlyReports(t, FailedWrite(t, id, res))
  {
    DropOnlyReports(t, id);
    FailOnlyReports(DropRequest(t, id), t.inflight[id].client);
  }

  lemma FinishedOnlyReports(t: Thread, id: ReqId, closes: bool)
    requires Dispatchable(t, id)
    ensures OnlyReports(t, FinishedWrite(t, id, closes))
  {
    var i := t.inflight[id].client;
    var d := DropRequest(t, id);
    DropOnlyReports(t, id);
    AdvanceOnlyReports(d, i);
    WriteCbOnlyReports(Advance(d, i), i, t.clients[i].queue[0].Info(), closes);
    WriteCbOnlyReports(d, i, NoItem, closes);
  }

  lemma CompleteWriteOnlyReports(t: Thread, id: ReqId, res: int, closes: bool)
    requires Dispatchable(t, id)
    requires res <= t.inflight[id].Total() - t.inflight[id].written
    ensures OnlyReports(t, CompleteWrite(t, id, res, closes))
  {
    FailedOnlyReports(t, id, res);
    if res > 0 {
      AcceptedOnlyReports(t, id, res);
      FinishedOnlyReports(Accepted(t, id, res), id, closes);
    }
  }

  /** Waking takes one message from the inbox, and adds at most a report. */
  lemma EventCbTakesOne(t: Thread)
    requires t.inbox.queue != []
    ensures var u := EventCb(t);
            && u.inbox == t.inbox.Taken() && OnlyPosts(t.outbox, u.outbox)
            && u.files == t.files && |u.clients| == |t.clients|
            && forall i :: 0 <= i < |t.clients| ==>
                 u.clients[i].nth == t.clients[i].nth && u.clients[i].id == t.clients[i].id
  {
  }

  lemma WakeKeepsSignals(t: Thread)
    requires ThreadInv(t) && t.inbox.woken
    ensures var u := EventCb(t.(inbox := t.inbox.Handled())); Signals(u) && Identities(u, t.serial + 1)
    ensures var u := EventCb(t.(inbox := t.inbox.Handled()));
            u.inbox == t.inbox.Taken().Handled()
  {
    var u := EventCb(t.(inbox := t.inbox.Handled()));
    EventCbTakesOne(t.(inbox := t.inbox.Handled()));
    forall r | r in u.files.pending ensures r < t.serial + 1 && AskOk(u, u.files.pending[r]) {
      assert AskOk(t, t.files.pending[r]);
    }
  }

  /** The connection has asked for one more file. */
  lemma AskKeepsIdentities(t: Thread, i: nat, path: string)
    requires Identities(t, t.serial) && i < |t.clients|
    ensures Identities(AskFile(t, i, path, t.serial), t.serial + 1)
  {
    var u := AskFile(t, i, path, t.serial);
    forall r | r in u.files.pending ensures r < t.serial + 1 && AskOk(u, u.files.pending[r]) {
      if r != t.serial { assert r in t.files.pending && AskOk(t, t.files.pending[r]); }
    }
  }

  /** Everything but accepting, waking and asking for a file only adds reports. */
  lemma HandleOnlyReports(t: Thread, e: Event)
    requires Enabled(t, e) && !e.EfdRead? && !e.Wake? && !e.Connect? && !e.Ask?
    ensures OnlyReports(t, Handle(t, e))
  {
    match e
    case Complete(id, res, closes) => CompleteWriteOnlyReports(t, id, res, closes);
    case ReadFailed(i) => FailOnlyReports(t, i);
    case Upgrade(i, reply) => ReplyOnlyReports(t.(websockets := t.websockets + {i}), i, Owned(reply));
    case Send(i, reply) => ReplyOnlyReports(t, i, Owned(reply));
    case Retire(i, reply) => ReplyOnlyReports(KillClient(t, i), i, Owned(reply));
    case Respond(r, reply) =>
      ReplyOnlyReports(ReadDone(t, r), t.files.pending[r].slot, Owned(reply));
    case Hangup(i) => CloseOnlyReports(t, i);
    case Sweep(i) => FailOnlyReports(t, i);
  }

  lemma HandleKeepsSignals(t: Thread, e: Event)
    requires ThreadInv(t) && Enabled(t, e)
    ensures Signals(Handle(t, e)) && Identities(Handle(t, e), t.serial + 1)
  {
    if e.Wake? {
      WakeKeepsSignals(t);
    } else if e.Connect? {
      AcceptKeepsIdentities(t, e.slot);
    } else if e.Ask? {
      AskKeepsIdentities(t, e.slot, e.path);
    } else if !e.EfdRead? {
      HandleOnlyReports(t, e);
      OnlyReportsKeeps(t, Handle(t, e));
    }
  }

  /** Queueing an owned message on a live slot, with other websocket clients or file reads than before. */
  lemma SocketTurnKeeps(t: Thread, w: Thread, i: nat, reply: Data)
    requires ThreadInv(t) && i in t.active && i < |t.clients|
    requires w == t.(websockets := w.websockets, files := w.files) && w.websockets <= t.active
    ensures var u := WriteConnection(w, i, Owned(reply));
            Slots(u) && Requests(u, t.serial + 1) && Accounts(u) && SameDebts(t, u)
  {
    SlotsFrame(t, w, t.serial, t.serial);
    AccountsFrame(t, w);
    WriteKeepsSlots(w, i, Owned(reply));
    WriteKeepsAccounts(w, i, Owned(reply));
  }

  /** Giving up a connection with nothing queued. */
  lemma IdleGiveUpKeeps(t: Thread, i: nat)
    requires ThreadInv(t) && i < |t.clients| && t.clients[i].numWriteReqs == 0
    ensures ItemsKnown(t.clients[i].queue, |t.broadcastData|)
    ensures var u := GiveUp(t, i); Slots(u) && Requests(u, t.serial + 1) && Accounts(u) && SameDebts(t, u)
  {
    assert SlotOk(t, i);
    IdleGiveUpIsClose(t, i);
    WebCloseKeeps(t, i, t.serial);
    ClosingKeepsAccounts(t, i, t.serial);
  }

  lemma HandleKeeps(t: Thread, e: Event)
    requires ThreadInv(t) && Enabled(t, e) && Guarded(t, e)
    ensures var u := Handle(t, e); Slots(u) && Requests(u, t.serial + 1) && Accounts(u) && SameDebts(t, u)
  {
    match e
    case EfdRead => MovedSignal(t, Handle(t, e));
    case Wake =>
      var w := t.(inbox := t.inbox.Handled());
      MovedSignal(t, w);
      EventCbKeeps(w);
    case Complete(id, res, closes) => CompleteWriteKeeps(t, id, res, closes);
    case ReadFailed(i) => if t.clients[i].numWriteReqs == 0 { IdleGiveUpKeeps(t, i); }
    case Connect(i) => AcceptKeeps(t, i);
    case Upgrade(i, reply) => SocketTurnKeeps(t, t.(websockets := t.websockets + {i}), i, reply);
    case Send(i, reply) => SocketTurnKeeps(t, t, i, reply);
    case Retire(i, reply) => SocketTurnKeeps(t, KillClient(t, i), i, reply);
    case Ask(_, _) => MovedSignal(t, Handle(t, e));
    case Respond(r, reply) => SocketTurnKeeps(t, ReadDone(t, r), t.files.pending[r].slot, reply);
    case Hangup(i) =>
      WebCloseKeeps(t, i, t.serial);
      ClosingKeepsAccounts(t, i, t.serial);
    case Sweep(i) => IdleGiveUpKeeps(t, i);
  }

  /** Moving a signal between the eventfd and its completion, or asking for a file, changes nothing else. */
  lemma MovedSignal(t: Thread, u: Thread)
    requires Slots(t) && Requests(t, t.serial) && Accounts(t)
    requires u == t.(inbox := t.inbox.(efd := u.inbox.efd, woken := u.inbox.woken), files := u.files)
    ensures Slots(u) && Requests(u, t.serial) && Accounts(u) && SameDebts(t, u)
  {
    SlotsFrame(t, u, t.serial, t.serial);
    AccountsFrame(t, u);
  }

  /** The invariant survives every guarded turn of the loop, and none changes how many reports the thread owes. */
  lemma TurnKeeps(t: Thread, e: Event)
    requires ThreadInv(t) && Enabled(t, e) && Guarded(t, e)
    ensures ThreadInv(Turn(t, e)) && SameDebts(t, Turn(t, e))
  {
    var h := Handle(t, e);
    var u := Turn(t, e);
    HandleKeeps(t, e);
    HandleKeepsSignals(t, e);
    SlotsFrame(h, u, t.serial + 1, u.serial);
    AccountsFrame(h, u);
  }

  lemma FreshThreadOk()
    ensures ThreadInv(FreshThread())
    ensures forall item: nat :: Holds(FreshThread(), item) == 0
  {
  }
}
