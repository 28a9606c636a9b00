/** The server thread as it runs: every handler updates the connection slots, sets and queues in place, and is
    proved to do what the function of module `ServerThread` with the same name says. */
module TcpServer {
  import opened Bytes
  import opened ServerThread

  lemma StartOneMore(t: Thread, served: set<nat>, k: nat, item: SendItem)
    requires k < |t.clients|
    ensures Starts(t, served + {k}, item)
         == Starts(t, served, item)
          + (if t.clients[k].queue == [] then map[ReqId(k, t.serial) := Request(k, t.clients[k].id, 0, item)]
             else map[])
  {
  }

  lemma ServeQueue(t: Thread, served: set<nat>, k: nat, item: SendItem)
    requires k < |t.clients| && k !in served
    ensures FanOut(t.clients, served, item)[k] == t.clients[k]
    ensures FanOut(t.clients, served + {k}, item) == FanOut(t.clients, served, item)[k := Served(t.clients[k], item)]
  {
  }

  function Started(c: Client, id: ReqId, item: SendItem): map<ReqId, Request> {
    if c.queue == [] then map[id := Request(id.slot, c.id, 0, item)] else map[]
  }

  /** write_connection, as one push and at most one write. */
  lemma WriteIsServe(t: Thread, k: nat, item: SendItem)
    requires k < |t.clients|
    ensures ServerThread.WriteConnection(t, k, item)
         == t.(clients := t.clients[k := Served(t.clients[k], item)],
               inflight := t.inflight + Started(t.clients[k], ReqId(k, t.serial), item))
  {
    var u := ServerThread.WriteConnection(t, k, item);
    var c := t.clients[k];
    assert PushItem(c, item).queue == c.queue + [item];
    assert u.clients == t.clients[k := Served(c, item)];
    assert u.inflight == t.inflight + Started(c, ReqId(k, t.serial), item);
  }

  lemma UnionAssociates(a: map<ReqId, Request>, b: map<ReqId, Request>, c: map<ReqId, Request>)
    ensures (a + b) + c == a + (b + c)
  {
  }

  /** One more receiver: writing to its connection extends the fan-out by that slot. */
  lemma ServeOneMore(t: Thread, served: set<nat>, k: nat, item: SendItem)
    requires k < |t.clients| && k !in served
    ensures var before := BroadcastTo(t, served, item);
            BroadcastTo(t, served + {k}, item) == ServerThread.WriteConnection(before, k, item)
  {
    var c := t.clients[k];
    ServeQueue(t, served, k, item);
    StartOneMore(t, served, k, item);
    WriteIsServe(BroadcastTo(t, served, item), k, item);
    UnionAssociates(t.inflight, Starts(t, served, item), Started(c, ReqId(k, t.serial), item));
  }

  lemma {:induction false} Smallest(s: set<nat>) returns (least: nat)
    requires s != {}
    ensures least in s && forall j :: j in s ==> least <= j
    decreases |s|
  {
    var i :| i in s;
    least := i;
    if s - {i} != {} {
      var m := Smallest(s - {i});
      least := if i < m then i else m;
    }
    forall j | j in s ensures least <= j {
      if j != i { assert j in s - {i}; }
    }
  }

  class Server {
    var clients: seq<Client>
    var activeConnections: set<nat>
    var freedIndexes: set<nat>
    var websockets: set<nat>
    var broadcastData: seq<BroadcastItem>
    var toServerQueue: seq<Msg>
    var notificationEfd: nat
    var notified: bool
    var toProgramQueue: seq<Msg>
    var communicationEfd: nat
    var communicated: bool
    var ring: map<ReqId, Request>
    var customReads: map<nat, FileAsk>
    var requestedFiles: map<nat, seq<string>>
    var serial: nat

    function View(): Thread
      reads this
    {
      Thread(clients, activeConnections, freedIndexes, websockets, broadcastData,
             Channel(toServerQueue, notificationEfd, notified),
             Channel(toProgramQueue, communicationEfd, communicated), ring,
             Files(customReads, requestedFiles), serial)
    }

    constructor ()
      ensures View() == FreshThread()
    {
      clients, activeConnections, freedIndexes, websockets, broadcastData := [], {}, {}, {}, [];
      toServerQueue, notificationEfd, notified := [], 0, false;
      toProgramQueue, communicationEfd, communicated := [], 0, false;
      ring, customReads, requestedFiles, serial := map[], map[], map[], 0;
    }

    method AddWriteReq(i: nat)
      requires i < |clients| && clients[i].queue != []
      modifies this
      ensures View() == ServerThread.AddWriteReq(old(View()), i)
    {
      var c := clients[i];
      clients := clients[i := c.(numWriteReqs := c.numWriteReqs + 1)];
      ring := ring[ReqId(i, serial) := Request(i, c.id, 0, c.queue[0])];
    }

    method WriteConnection(i: nat, item: SendItem)
      requires i < |clients|
      modifies this
      ensures View() == ServerThread.WriteConnection(old(View()), i, item)
    {
      clients := clients[i := PushItem(clients[i], item)];
      if |clients[i].queue| == 1 {
        AddWriteReq(i);
      }
    }

    method BroadcastMessage(item: SendItem)
      requires forall k :: k in websockets ==> k < |clients|
      modifies this
      ensures View() == ServerThread.Broadcast(old(View()), item)
    {
      ghost var before := View();
      var rest := websockets;
      assert FanOut(clients, {}, item) == clients;
      assert BroadcastTo(before, {}, item).inflight == ring;
      while rest != {}
        invariant rest <= before.websockets
        invariant View() == BroadcastTo(before, before.websockets - rest, item)
        decreases |rest|
      {
        var k :| k in rest;
        ServeOneMore(before, before.websockets - rest, k, item);
        assert before.websockets - (rest - {k}) == before.websockets - rest + {k};
        WriteConnection(k, item);
        rest := rest - {k};
      }
      assert before.websockets - {} == before.websockets;
    }

    method CloseConnection(i: nat)
      requires i < |clients|
      modifies this
      ensures View() == ServerThread.CloseConnection(old(View()), i)
    {
      if clients[i].numWriteReqs == 0 {
        activeConnections := activeConnections - {i};
        clients := clients[i := clients[i].(queue := [])];
        freedIndexes := freedIndexes + {i};
      }
    }

    method SetupClient() returns (i: nat)
      requires forall j :: j in freedIndexes ==> j < |clients|
      modifies this
      ensures IsNextIndex(old(View()), i) && View() == ServerThread.SetupClient(old(View()), i)
    {
      if |freedIndexes| > 0 {
        ghost var least := Smallest(freedIndexes);
        i :| i in freedIndexes && forall j :: j in freedIndexes ==> i <= j;
        freedIndexes := freedIndexes - {i};
        var newId := (clients[i].id + 1) % 100;
        clients := clients[i := FreshClient(newId, clients[i].nth + 1)];
      } else {
        clients := clients + [FreshClient(-1, 0)];
        i := |clients| - 1;
      }
    }

    /** custom_read_req on behalf of a connection. */
    method AskFile(i: nat, path: string)
      requires i < |clients|
      modifies this
      ensures View() == ServerThread.AskFile(old(View()), i, path, serial)
    {
      var before := if i in requestedFiles then requestedFiles[i] else [];
      requestedFiles := requestedFiles[i := before + [path]];
      customReads := customReads[serial := FileAsk(i, clients[i].nth, path)];
    }

    /** custom_read_cb: the response goes to the slot the request names. */
    method CustomReadCb(read: nat, reply: Data)
      requires read in customReads && customReads[read].slot < |clients|
      modifies this
      ensures View() == ServerThread.FileDone(old(View()), read, reply)
    {
      var i := customReads[read].slot;
      customReads := customReads - {read};
      WriteConnection(i, Owned(reply));
    }

    method Accept() returns (i: nat)
      requires forall j :: j in freedIndexes ==> j < |clients|
      modifies this
      ensures IsNextIndex(old(View()), i) && View() == ServerThread.Accept(old(View()), i)
    {
      i := SetupClient();
      activeConnections := activeConnections + {i};
      requestedFiles := requestedFiles[i := []];
    }

    method PostMessageToProgram(msg: Msg)
      modifies this
      ensures View() == ServerThread.PostToProgram(old(View()), msg)
    {
      toProgramQueue := toProgramQueue + [msg];
      communicationEfd := communicationEfd + 1;
    }

    method GetFromToServerQueue() returns (msg: Msg)
      modifies this
      ensures var t := old(View());
              msg == t.inbox.Front() && View() == t.(inbox := t.inbox.Taken())
    {
      msg := NoMessage;
      if toServerQueue != [] {
        msg, toServerQueue := toServerQueue[0], toServerQueue[1..];
      }
    }

    method ReportUse(info: ItemRef)
      requires info.Item? ==> info.item < |broadcastData|
      modifies this
      ensures View() == ServerThread.ReportUse(old(View()), info)
    {
      if info.Item? {
        var b := broadcastData[info.item];
        broadcastData := broadcastData[info.item := b.(uses := b.uses - 1)];
        if broadcastData[info.item].uses == 0 {
          PostMessageToProgram(Msg(b.ptr, b.data, info.item));
        }
      }
    }

    method CloseCb(i: nat, info: ItemRef)
      requires info.Item? ==> info.item < |broadcastData|
      modifies this
      ensures View() == ServerThread.CloseCb(old(View()), i, info)
    {
      ReportUse(info);
      websockets := websockets - {i};
    }

    method WebClose(i: nat)
      requires i < |clients|
      modifies this
      ensures View() == ServerThread.WebClose(old(View()), i)
    {
      websockets := websockets - {i};
      CloseConnection(i);
    }

    method WriteCb(i: nat, info: ItemRef, closes: bool)
      requires i < |clients| && (info.Item? ==> info.item < |broadcastData|)
      modifies this
      ensures View() == ServerThread.WriteCb(old(View()), i, info, closes)
    {
      ReportUse(info);
      if closes {
        WebClose(i);
      }
    }

    method EventCb()
      requires forall k :: k in websockets ==> k < |clients|
      modifies this
      ensures View() == ServerThread.EventCb(old(View()))
    {
      var msg := GetFromToServerQueue();
      broadcastData := Grown(broadcastData, msg.item);
      if websockets != {} {
        broadcastData := broadcastData[msg.item := BroadcastItem(msg.ptr, msg.data, |websockets|)];
        BroadcastMessage(Shared(msg));
      } else {
        PostMessageToProgram(msg);
      }
    }

    /** The body of those loops. */
    method DropFront(i: nat)
      requires i < |clients| && clients[i].queue != [] && ItemsKnown(clients[i].queue, |broadcastData|)
      modifies this
      ensures View() == ServerThread.DropFront(old(View()), i)
    {
      CloseCb(i, clients[i].queue[0].Info());
      clients := clients[i := clients[i].(queue := clients[i].queue[1..])];
    }

    /** The two sweeping loops: every queued item is reported and dropped, then the slot is closed. */
    method GiveUp(i: nat)
      requires i < |clients| && ItemsKnown(clients[i].queue, |broadcastData|)
      modifies this
      ensures View() == ServerThread.GiveUp(old(View()), i)
    {
      while clients[i].queue != []
        invariant i < |clients| && ItemsKnown(clients[i].queue, |broadcastData|)
        invariant Drain(View(), i) == Drain(old(View()), i)
        decreases |clients[i].queue|
      {
        DropFront(i);
      }
      CloseCb(i, NoItem);
      CloseConnection(i);
    }

    method FailClient(i: nat)
      requires i < |clients| && ItemsKnown(clients[i].queue, |broadcastData|)
      modifies this
      ensures View() == ServerThread.FailClient(old(View()), i)
    {
      if clients[i].numWriteReqs == 0 {
        GiveUp(i);
      }
    }

    method DropRequest(id: ReqId)
      requires id in ring && ring[id].client < |clients|
      modifies this
      ensures View() == ServerThread.DropRequest(old(View()), id)
    {
      var i := ring[id].client;
      clients := clients[i := clients[i].(numWriteReqs := clients[i].numWriteReqs - 1)];
      ring := ring - {id};
    }

    /** The queue's front is done: pop it, and start on the next. */
    method Advance(i: nat)
      requires i < |clients| && clients[i].queue != []
      modifies this
      ensures View() == ServerThread.Advance(old(View()), i)
    {
      var front := clients[i].queue[0];
      clients := clients[i := clients[i].(queue := clients[i].queue[1..],
                                          confirmed := clients[i].confirmed + [front.Payload()])];
      if |clients[i].queue| > 0 {
        AddWriteReq(i);
      }
    }

    method CompleteWrite(id: ReqId, res: int, closes: bool)
      requires Dispatchable(View(), id) && res <= ring[id].Total() - ring[id].written
      modifies this
      ensures View() == ServerThread.CompleteWrite(old(View()), id, res, closes)
    {
      var r := ring[id];
      var i := r.client;
      if res <= 0 || (i > 0 && clients[i].id != r.id) {
        if res <= 0 && clients[i].id == r.id {
          DropRequest(id);
          FailClient(i);
        } else {
          ring := ring - {id};
        }
        return;
      }
      var c := clients[i];
      clients := clients[i := c.(wire := c.wire + r.item.Payload()[r.written..r.written + res])];
      ring := ring[id := r.(written := r.written + res)];
      if r.written + res < r.Total() {
        return;
      }
      DropRequest(id);
      if i in activeConnections && clients[i].id == r.id {
        var info := clients[i].queue[0].Info();
        Advance(i);
        WriteCb(i, info, closes);
      } else {
        WriteCb(i, NoItem, closes);
      }
    }
  }
}
