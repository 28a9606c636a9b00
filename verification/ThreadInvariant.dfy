/** What every turn of a server thread's event loop keeps. */
module ThreadInvariant {
  import opened Bytes
  import opened ServerThread

  // ----- counting -----

  /** Entries of a queue that point into the buffer of a store slot. */
  function Entries(q: seq<SendItem>, item: nat): nat {
    if q == [] then 0
    else (if q[0].Info() == Item(item) then 1 else 0) + Entries(q[1..], item)
  }

  /** Entries over all send queues of a thread. */
  function Owed(clients: seq<Client>, item: nat): nat {
    if clients == [] then 0
    else Entries(clients[0].queue, item) + Owed(clients[1..], item)
  }

  function Messages(q: seq<Msg>, item: nat): nat {
    if q == [] then 0
    else (if q[0].item == item then 1 else 0) + Messages(q[1..], item)
  }

  /** How many reports about a store slot this thread still owes the central thread. */
  function Holds(t: Thread, item: nat): nat {
    Messages(t.inbox.queue, item) + (if Owed(t.clients, item) > 0 then 1 else 0) + Messages(t.outbox.queue, item)
  }

  lemma {:induction false} EntriesSnoc(q: seq<SendItem>, x: SendItem, item: nat)
    ensures Entries(q + [x], item) == Entries(q, item) + (if x.Info() == Item(item) then 1 else 0)
  {
    if q == [] {
      assert (q + [x])[1..] == [];
    } else {
      assert (q + [x])[0] == q[0] && (q + [x])[1..] == q[1..] + [x];
      EntriesSnoc(q[1..], x, item);
    }
  }

  lemma {:induction false} EntriesPositive(q: seq<SendItem>, k: nat, item: nat)
    requires k < |q| && q[k].Info() == Item(item)
    ensures Entries(q, item) > 0
  {
    if k > 0 { EntriesPositive(q[1..], k - 1, item); }
  }

  lemma {:induction false} MessagesSnoc(q: seq<Msg>, x: Msg, item: nat)
    ensures Messages(q + [x], item) == Messages(q, item) + (if x.item == item then 1 else 0)
  {
    if q == [] {
      assert (q + [x])[1..] == [];
    } else {
      assert (q + [x])[0] == q[0] && (q + [x])[1..] == q[1..] + [x];
      MessagesSnoc(q[1..], x, item);
    }
  }

  lemma {:induction false} MessagesPositive(q: seq<Msg>, k: nat)
    requires k < |q|
    ensures Messages(q, q[k].item) > 0
  {
    if k > 0 { MessagesPositive(q[1..], k - 1); }
  }

  lemma {:induction false} OwedUpdate(clients: seq<Client>, i: nat, c: Client, item: nat)
    requires i < |clients|
    ensures Owed(clients[i := c], item)
         == Owed(clients, item) - Entries(clients[i].queue, item) + Entries(c.queue, item)
  {
    if i == 0 {
      assert clients[i := c][1..] == clients[1..];
    } else {
      assert clients[i := c][1..] == clients[1..][i - 1 := c];
      OwedUpdate(clients[1..], i - 1, c, item);
    }
  }

  lemma {:induction false} OwedSnoc(clients: seq<Client>, c: Client, item: nat)
    ensures Owed(clients + [c], item) == Owed(clients, item) + Entries(c.queue, item)
  {
    if clients == [] {
      assert (clients + [c])[1..] == [];
    } else {
      assert (clients + [c])[0] == clients[0] && (clients + [c])[1..] == clients[1..] + [c];
      OwedSnoc(clients[1..], c, item);
    }
  }

  lemma {:induction false} OwedAtLeast(clients: seq<Client>, i: nat, item: nat)
    requires i < |clients|
    ensures Owed(clients, item) >= Entries(clients[i].queue, item)
  {
    if i > 0 { OwedAtLeast(clients[1..], i - 1, item); }
  }

  // ----- the invariant -----

  function Payloads(q: seq<SendItem>): seq<Data> {
    seq(|q|, k requires 0 <= k < |q| => q[k].Payload())
  }

  /** What a connection's fields say of each other, while its slot is used and after. */
  ghost predicate ClientOk(c: Client, live: bool) {
    && c.numWriteReqs == (if c.queue == [] then 0 else 1)
    && (live ==> c.confirmed + Payloads(c.queue) == c.posted)
    && (live && c.queue == [] ==> c.wire == Flatten(c.confirmed))
    && (!live ==> c.queue == [] && c.wire <= Flatten(c.posted))
  }

  ghost predicate Covered(t: Thread, i: nat) {
    exists id :: id in t.inflight && t.inflight[id].client == i
  }

  ghost predicate SlotOk(t: Thread, i: nat)
    requires i < |t.clients|
  {
    && ClientOk(t.clients[i], i in t.active)
    && (i in t.active <==> i !in t.freed)
    && (t.clients[i].queue != [] ==> Covered(t, i))
  }

  /** Slots are used or free, and each has at most one write outstanding, over the front of its queue. */
  ghost predicate Slots(t: Thread) {
    && (forall i :: i in t.active || i in t.freed ==> i < |t.clients|)
    && t.websockets <= t.active
    && (forall i :: 0 <= i < |t.clients| ==> SlotOk(t, i))
  }

  /** The request writes the front of the connection's queue, whose bytes before `written` are on the wire. */
  ghost predicate Writes(r: Request, c: Client) {
    && r.id == c.id
    && c.queue != [] && r.item == c.queue[0]
    && r.written <= r.Total()
    && c.wire == Flatten(c.confirmed) + r.item.Payload()[..r.written]
  }

  ghost predicate RequestOk(t: Thread, id: ReqId)
    requires id in t.inflight
  {
    var r := t.inflight[id];
    && id.slot == r.client < |t.clients|
    && r.client in t.active
    && Writes(r, t.clients[r.client])
  }

  ghost predicate Requests(t: Thread, bound: nat) {
    && (forall id :: id in t.inflight ==> RequestOk(t, id) && id.serial < bound)
    && (forall a, b :: a in t.inflight && b in t.inflight && a.slot == b.slot ==> a == b)
  }

  /** The per-thread use count of a broadcast item is the number of queue entries that still point to it. */
  ghost predicate Counted(t: Thread, item: nat) {
    Owed(t.clients, item) > 0 ==> item < |t.broadcastData| && t.broadcastData[item].uses == Owed(t.clients, item)
  }

  ghost predicate Accounts(t: Thread) {
    && (forall item: nat :: Counted(t, item))
    && (forall item: nat :: Holds(t, item) <= 1)
  }

  /** A wake-up is only ever signalled for a message that is in the queue. */
  ghost predicate Signals(t: Thread) {
    t.inbox.Stranded() >= 0 && t.outbox.Stranded() >= 0
  }

  /** The generations a slot's connections get: -1, then 0 to 99 over and over. */
  function Generation(nth: nat): int {
    if nth == 0 then -1 else (nth - 1) % 100
  }

  /** A file read remembers one of its slot's connections so far, and if that is the present one, it has asked for the
      file. */
  ghost predicate AskOk(t: Thread, a: FileAsk) {
    && a.slot < |t.clients| && a.nth <= t.clients[a.slot].nth
    && (a.nth == t.clients[a.slot].nth ==> a.path in Requested(t, a.slot))
  }

  /** Generations are given out in this order, and file reads remember who asked. */
  ghost predicate Identities(t: Thread, bound: nat) {
    && (forall i :: 0 <= i < |t.clients| ==> t.clients[i].id == Generation(t.clients[i].nth))
    && (forall r :: r in t.files.pending ==> r < bound && AskOk(t, t.files.pending[r]))
  }

  ghost predicate ThreadInv(t: Thread) {
    Slots(t) && Requests(t, t.serial) && Accounts(t) && Signals(t) && Identities(t, t.serial)
  }
}
