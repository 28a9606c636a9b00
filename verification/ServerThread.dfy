/** One server thread: the TCP layer's connection slots and write queues, the web layer's callbacks that
    run on the same event loop, and the two message queues it shares with the central thread.  The functions
    here say what each handler does to that state; class `TcpServer` runs the same handlers in place. */
module ServerThread {
  import opened Bytes

  /** A message_post_data: the buffer pointed at (`ptr` identifies the allocation), the bytes that buffer held
      when the message was posted, and the store slot the buffer came from. */
  datatype Msg = Msg(ptr: nat, data: Data, item: nat)

  /** A write_data: bytes the queue owns, or a pointer into a broadcast buffer owned by the store. */
  datatype SendItem = Owned(bytes: Data) | Shared(msg: Msg) {
    function Payload(): Data {
      if Owned? then bytes else msg.data
    }

    function Info(): ItemRef {
      if Shared? then Item(msg.item) else NoItem
    }
  }

  /** broadcast_additional_info: -1 or a store slot. */
  datatype ItemRef = NoItem | Item(item: nat)

  /** A connection slot.  The last four fields observe the connection: every message handed to its queue, the
      messages whose write callback has fired, the bytes the socket has accepted, and how many connections the slot
      carried before. */
  datatype Client = Client(id: int, queue: seq<SendItem>, numWriteReqs: int,
                           posted: seq<Data>, confirmed: seq<Data>, wire: Data, nth: nat)

  /** A WRITE request the kernel holds; it reads the bytes of `item` from offset `written`. */
  datatype Request = Request(client: nat, id: int, written: nat, item: SendItem) {
    function Total(): nat { |item.Payload()| }
  }

  /** A CUSTOM_READ request: it keeps the slot of the connection that asked for the file, and nothing else of it.
      `nth` observes which of the slot's connections that was, and `path` which file it asked for. */
  datatype FileAsk = FileAsk(slot: nat, nth: nat, path: string)

  /** The address of a request object: unique among the requests in flight. */
  datatype ReqId = ReqId(slot: nat, serial: nat)

  /** broadcast_data_items. */
  datatype BroadcastItem = BroadcastItem(ptr: nat, data: Data, uses: int)

  /** The file reads under way, and per slot the files its present connection had to have read; the web layer's
      last_requested_read_filepath is the last of them. */
  datatype Files = Files(pending: map<nat, FileAsk>, paths: map<nat, seq<string>>)

  /** A message queue and its eventfd: the signals the eventfd holds, and whether a read of it has completed and
      waits to be handled. */
  datatype Channel = Channel(queue: seq<Msg>, efd: nat, woken: bool) {
    function Post(msg: Msg): Channel { Channel(queue + [msg], efd + 1, woken) }

    function Read(): Channel { Channel(queue, 0, true) }

    function Handled(): Channel { Channel(queue, efd, false) }

    function Front(): Msg { if queue == [] then NoMessage else queue[0] }

    function Taken(): Channel { Channel(if queue == [] then [] else queue[1..], efd, woken) }

    /** Messages no pending wake-up will collect. */
    function Stranded(): int { |queue| - efd - (if woken then 1 else 0) }
  }

  datatype Thread = Thread(
    clients: seq<Client>, active: set<nat>, freed: set<nat>, websockets: set<nat>,
    broadcastData: seq<BroadcastItem>,
    inbox: Channel, outbox: Channel,
    inflight: map<ReqId, Request>, files: Files, serial: nat)

  const Unset: BroadcastItem := BroadcastItem(0, [], -1)
  const NoMessage: Msg := Msg(0, [], 0)

  function FreshThread(): Thread {
    Thread([], {}, {}, {}, [], Channel([], 0, false), Channel([], 0, false), map[], Files(map[], map[]), 0)
  }

  // ----- TCP layer -----

  function FreshClient(id: int, nth: nat): Client {
    Client(id, [], 0, [], [], [], nth)
  }

  function AddWriteReq(t: Thread, i: nat): Thread
    requires i < |t.clients| && t.clients[i].queue != []
  {
    var c := t.clients[i];
    t.(clients := t.clients[i := c.(numWriteReqs := c.numWriteReqs + 1)],
       inflight := t.inflight[ReqId(i, t.serial) := Request(i, c.id, 0, c.queue[0])])
  }

  function PushItem(c: Client, item: SendItem): Client {
    c.(queue := c.queue + [item], posted := c.posted + [item.Payload()])
  }

  function WriteConnection(t: Thread, i: nat, item: SendItem): (r: Thread)
    requires i < |t.clients|
    ensures r == t.(clients := r.clients, inflight := r.inflight)
  {
    var t1 := t.(clients := t.clients[i := PushItem(t.clients[i], item)]);
    if |t1.clients[i].queue| == 1 then AddWriteReq(t1, i) else t1
  }

  /** A client of the fan-out: its queue grows, and a write starts when the queue was empty. */
  function Served(c: Client, item: SendItem): Client {
    var c1 := PushItem(c, item);
    if c.queue == [] then c1.(numWriteReqs := c.numWriteReqs + 1) else c1
  }

  function FanOut(clients: seq<Client>, receivers: set<nat>, item: SendItem): seq<Client> {
    seq(|clients|, k requires 0 <= k < |clients| =>
        if k in receivers then Served(clients[k], item) else clients[k])
  }

  /** The writes a fan-out starts: one for each receiver whose queue was empty. */
  function Starts(t: Thread, receivers: set<nat>, item: SendItem): map<ReqId, Request> {
    map k | k in receivers && k < |t.clients| && t.clients[k].queue == []
      :: ReqId(k, t.serial) := Request(k, t.clients[k].id, 0, item)
  }

  /** broadcast_message: each receiver, in no particular order. */
  function BroadcastTo(t: Thread, receivers: set<nat>, item: SendItem): Thread {
    t.(clients := FanOut(t.clients, receivers, item), inflight := t.inflight + Starts(t, receivers, item))
  }

  function Broadcast(t: Thread, item: SendItem): Thread {
    BroadcastTo(t, t.websockets, item)
  }

  function CloseConnection(t: Thread, i: nat): (r: Thread)
    requires i < |t.clients|
    ensures r == t.(active := r.active, clients := r.clients, freed := r.freed) && |r.clients| == |t.clients|
  {
    if t.clients[i].numWriteReqs == 0 then
      t.(active := t.active - {i}, clients := t.clients[i := t.clients[i].(queue := [])], freed := t.freed + {i})
    else t
  }

  ghost predicate IsNextIndex(t: Thread, i: nat) {
    if t.freed == {} then i == |t.clients|
    else i in t.freed && i < |t.clients| && forall j :: j in t.freed ==> i <= j
  }

  function SetupClient(t: Thread, i: nat): Thread
    requires i <= |t.clients|
  {
    if i < |t.clients| then
      var c := t.clients[i];
      t.(freed := t.freed - {i}, clients := t.clients[i := FreshClient((c.id + 1) % 100, c.nth + 1)])
    else
      t.(clients := t.clients + [FreshClient(-1, 0)])
  }

  function Accept(t: Thread, i: nat): Thread
    requires i <= |t.clients|
  {
    var t1 := SetupClient(t, i);
    t1.(active := t1.active + {i}, files := t1.files.(paths := t1.files.paths[i := []]))
  }

  // ----- web layer callbacks -----

  /** Messages are only added, one signal each. */
  predicate OnlyPosts(a: Channel, b: Channel) {
    |b.queue| - |a.queue| == b.efd - a.efd >= 0 && b.woken == a.woken
  }

  function PostToProgram(t: Thread, msg: Msg): Thread {
    t.(outbox := t.outbox.Post(msg))
  }

  function PostToServer(t: Thread, msg: Msg): Thread {
    t.(inbox := t.inbox.Post(msg))
  }

  /** One client is done with a broadcast item; the last one reports it to the central thread. */
  function ReportUse(t: Thread, info: ItemRef): (r: Thread)
    requires info.Item? ==> info.item < |t.broadcastData|
    ensures r == t.(broadcastData := r.broadcastData, outbox := r.outbox) && OnlyPosts(t.outbox, r.outbox)
    ensures |r.broadcastData| == |t.broadcastData|
  {
    if info.NoItem? then t else
      var b := t.broadcastData[info.item];
      var b1 := b.(uses := b.uses - 1);
      var t1 := t.(broadcastData := t.broadcastData[info.item := b1]);
      if b1.uses == 0 then PostToProgram(t1, Msg(b.ptr, b.data, info.item)) else t1
  }

  function KillClient(t: Thread, i: nat): Thread {
    t.(websockets := t.websockets - {i})
  }

  function CloseCb(t: Thread, i: nat, info: ItemRef): Thread
    requires info.Item? ==> info.item < |t.broadcastData|
  {
    KillClient(ReportUse(t, info), i)
  }

  function WebClose(t: Thread, i: nat): Thread
    requires i < |t.clients|
  {
    CloseConnection(KillClient(t, i), i)
  }

  /** `closes` is false exactly when the slot carries a websocket that stays open. */
  function WriteCb(t: Thread, i: nat, info: ItemRef, closes: bool): Thread
    requires i < |t.clients|
    requires info.Item? ==> info.item < |t.broadcastData|
  {
    var t1 := ReportUse(t, info);
    if closes then WebClose(t1, i) else t1
  }

  function Grown(b: seq<BroadcastItem>, item: nat): (r: seq<BroadcastItem>)
    ensures item < |r|
  {
    if |b| <= item then b + seq(item + 1 - |b|, _ => Unset) else b
  }

  function EventCb(t: Thread): Thread {
    var msg := t.inbox.Front();
    var t1 := t.(inbox := t.inbox.Taken(), broadcastData := Grown(t.broadcastData, msg.item));
    if t.websockets != {} then
      var entry := BroadcastItem(msg.ptr, msg.data, |t.websockets|);
      Broadcast(t1.(broadcastData := t1.broadcastData[msg.item := entry]), Shared(msg))
    else
      PostToProgram(t1, msg)
  }

  // ----- completions -----

  function ItemsKnown(q: seq<SendItem>, bound: nat): (r: bool)
    ensures r <==> forall k :: 0 <= k < |q| ==> q[k].Shared? ==> q[k].msg.item < bound
  {
    forall k :: 0 <= k < |q| ==> q[k].Shared? ==> q[k].msg.item < bound
  }

  function PopFront(t: Thread, i: nat): Thread
    requires i < |t.clients| && t.clients[i].queue != []
  {
    t.(clients := t.clients[i := t.clients[i].(queue := t.clients[i].queue[1..])])
  }

  /** One turn of the failure branch's loop: the front item is given up. */
  function DropFront(t: Thread, i: nat): (r: Thread)
    requires i < |t.clients| && t.clients[i].queue != [] && ItemsKnown(t.clients[i].queue, |t.broadcastData|)
    ensures r.clients == t.clients[i := t.clients[i].(queue := t.clients[i].queue[1..])]
    ensures ItemsKnown(r.clients[i].queue, |r.broadcastData|)
    ensures r.active == t.active && r.freed == t.freed && r.inflight == t.inflight && r.serial == t.serial
    ensures r.files == t.files
    ensures r.websockets == t.websockets - {i}
    ensures r.inbox == t.inbox && OnlyPosts(t.outbox, r.outbox)
  {
    PopFront(CloseCb(t, i, t.clients[i].queue[0].Info()), i)
  }

  /** The loop of the failure branch: every queued item is given up. */
  function Drain(t: Thread, i: nat): (r: Thread)
    requires i < |t.clients| && ItemsKnown(t.clients[i].queue, |t.broadcastData|)
    ensures r.clients == t.clients[i := t.clients[i].(queue := [])]
    ensures r.active == t.active && r.freed == t.freed && r.inflight == t.inflight && r.serial == t.serial
    ensures r.files == t.files
    ensures t.websockets - {i} <= r.websockets <= t.websockets
    ensures r.inbox == t.inbox && OnlyPosts(t.outbox, r.outbox)
    decreases |t.clients[i].queue|
  {
    if t.clients[i].queue == [] then t
    else Drain(DropFront(t, i), i)
  }

  function GiveUp(t: Thread, i: nat): Thread
    requires i < |t.clients| && ItemsKnown(t.clients[i].queue, |t.broadcastData|)
  {
    var t1 := CloseCb(Drain(t, i), i, NoItem);
    CloseConnection(t1, i)
  }

  /** A failed read, or the tail of a failed write: the slot is torn down once no write is in flight. */
  function FailClient(t: Thread, i: nat): Thread
    requires i < |t.clients| && ItemsKnown(t.clients[i].queue, |t.broadcastData|)
  {
    if t.clients[i].numWriteReqs == 0 then GiveUp(t, i) else t
  }

  function DropRequest(t: Thread, id: ReqId): Thread
    requires id in t.inflight && t.inflight[id].client < |t.clients|
  {
    var i := t.inflight[id].client;
    var c := t.clients[i];
    t.(inflight := t.inflight - {id}, clients := t.clients[i := c.(numWriteReqs := c.numWriteReqs - 1)])
  }

  function Accepted(t: Thread, id: ReqId, n: nat): Thread
    requires id in t.inflight && t.inflight[id].client < |t.clients|
    requires t.inflight[id].written + n <= t.inflight[id].Total()
  {
    var r := t.inflight[id];
    var c := t.clients[r.client];
    t.(clients := t.clients[r.client := c.(wire := c.wire + r.item.Payload()[r.written..r.written + n])],
       inflight := t.inflight[id := r.(written := r.written + n)])
  }

  /** What the code needs of a slot whose write completes. */
  predicate Dispatchable(t: Thread, id: ReqId) {
    && id in t.inflight
    && t.inflight[id].client < |t.clients|
    && t.clients[t.inflight[id].client].queue != []
    && ItemsKnown(t.clients[t.inflight[id].client].queue, |t.broadcastData|)
  }

  /** The queue's front is finished: it is removed, and the next item starts being written. */
  function Advance(t: Thread, i: nat): (r: Thread)
    requires i < |t.clients| && t.clients[i].queue != []
    ensures r == t.(clients := r.clients, inflight := r.inflight) && |r.clients| == |t.clients|
  {
    var c := t.clients[i];
    var t1 := PopFront(t, i);
    var t2 := t1.(clients := t1.clients[i := t1.clients[i].(confirmed := c.confirmed + [c.queue[0].Payload()])]);
    if t2.clients[i].queue != [] then AddWriteReq(t2, i) else t2
  }

  /** A write that failed, or whose slot has another generation by now. */
  function FailedWrite(t: Thread, id: ReqId, res: int): Thread
    requires Dispatchable(t, id)
  {
    if res <= 0 && t.clients[t.inflight[id].client].id == t.inflight[id].id
    then FailClient(DropRequest(t, id), t.inflight[id].client)
    else t.(inflight := t.inflight - {id})
  }

  /** A write whose last byte is accepted. */
  function FinishedWrite(t: Thread, id: ReqId, closes: bool): Thread
    requires Dispatchable(t, id)
  {
    var r := t.inflight[id];
    var i := r.client;
    var dropped := DropRequest(t, id);
    if i in t.active && t.clients[i].id == r.id
    then WriteCb(Advance(dropped, i), i, t.clients[i].queue[0].Info(), closes)
    else WriteCb(dropped, i, NoItem, closes)
  }

  /** A WRITE completion with result `res`, as the event loop dispatches it. */
  function CompleteWrite(t: Thread, id: ReqId, res: int, closes: bool): Thread
    requires Dispatchable(t, id)
    requires res <= t.inflight[id].Total() - t.inflight[id].written
  {
    var r := t.inflight[id];
    var i := r.client;
    if res <= 0 || (i > 0 && t.clients[i].id != r.id) then FailedWrite(t, id, res)
    else if r.written + res < r.Total() then Accepted(t, id, res)
    else FinishedWrite(Accepted(t, id, res), id, closes)
  }

  /** A response is to be read from a file; `read` names the request. */
  function AskFile(t: Thread, i: nat, path: string, read: nat): Thread
    requires i < |t.clients|
  {
    t.(files := Files(t.files.pending[read := FileAsk(i, t.clients[i].nth, path)],
                      t.files.paths[i := Requested(t, i) + [path]]))
  }

  function Requested(t: Thread, i: nat): seq<string> {
    if i in t.files.paths then t.files.paths[i] else []
  }

  /** The path a finished file read is cached under. */
  function FiledUnder(t: Thread, read: nat): string
    requires read in t.files.pending
  {
    var paths := Requested(t, t.files.pending[read].slot);
    if paths == [] then "" else paths[|paths| - 1]
  }

  function ReadDone(t: Thread, read: nat): Thread {
    t.(files := t.files.(pending := t.files.pending - {read}))
  }

  /** The file has been read: the response is queued for the slot the request names, whoever has it now. */
  function FileDone(t: Thread, read: nat, reply: Data): Thread
    requires read in t.files.pending && t.files.pending[read].slot < |t.clients|
  {
    WriteConnection(ReadDone(t, read), t.files.pending[read].slot, Owned(reply))
  }

  /** The timer's sweep over one connection whose peer has closed: no check for a write in flight. */
  function Reap(t: Thread, i: nat): Thread
    requires i < |t.clients| && ItemsKnown(t.clients[i].queue, |t.broadcastData|)
  {
    GiveUp(t, i)
  }

  // ----- the event loop -----

  datatype Event =
    | EfdRead                                       // the armed read of the notification eventfd completes
    | Wake                                          // its completion is handled
    | Complete(id: ReqId, res: int, closes: bool)   // a write completes
    | ReadFailed(slot: nat)                         // a read fails or the peer hung up
    | Connect(slot: nat)                            // a connection is accepted
    | Upgrade(slot: nat, reply: Data)               // a slot becomes a websocket client
    | Send(slot: nat, reply: Data)                  // a response or a frame is queued
    | Retire(slot: nat, reply: Data)                // a websocket starts closing: its close frame is queued
    | Ask(slot: nat, path: string)                  // a response has to be read from a file first
    | Respond(read: nat, reply: Data)               // the file has been read: its response is queued
    | Hangup(slot: nat)                             // the web layer closes a connection
    | Sweep(slot: nat)                              // the timer reaps a connection

  /** What the loop may be given to handle.  Of a completed write it is asked that there is a queue front for the code
      to read; of a connection, that its queue names items the thread knows. */
  ghost predicate Enabled(t: Thread, e: Event) {
    match e
    case EfdRead => t.inbox.efd > 0 && !t.inbox.woken
    case Wake => t.inbox.woken
    case Complete(id, res, _) => Dispatchable(t, id) && res <= t.inflight[id].Total() - t.inflight[id].written
    case ReadFailed(i) => i < |t.clients| && ItemsKnown(t.clients[i].queue, |t.broadcastData|)
    case Connect(i) => IsNextIndex(t, i)
    case Upgrade(i, _) => i < |t.clients|
    case Send(i, _) => i < |t.clients|
    case Retire(i, _) => i < |t.clients|
    case Ask(i, _) => i < |t.clients|
    case Respond(r, _) => r in t.files.pending && t.files.pending[r].slot < |t.clients|
    case Hangup(i) => i < |t.clients|
    case Sweep(i) => i in t.active && i < |t.clients| && ItemsKnown(t.clients[i].queue, |t.broadcastData|)
  }

  /** What the code would have to test: that the slot written to is live, and that the connection reaped has no
      write in flight. */
  ghost predicate Guarded(t: Thread, e: Event)
    requires Enabled(t, e)
  {
    match e
    case Upgrade(i, _) => i in t.active
    case Send(i, _) => i in t.active
    case Retire(i, _) => i in t.active
    case Respond(r, _) => t.files.pending[r].slot in t.active
    case Sweep(i) => t.clients[i].numWriteReqs == 0
    case _ => true
  }

  ghost function Handle(t: Thread, e: Event): Thread
    requires Enabled(t, e)
  {
    match e
    case EfdRead => t.(inbox := t.inbox.Read())
    case Wake => EventCb(t.(inbox := t.inbox.Handled()))
    case Complete(id, res, closes) => CompleteWrite(t, id, res, closes)
    case ReadFailed(i) => FailClient(t, i)
    case Connect(i) => Accept(t, i)
    case Upgrade(i, reply) => WriteConnection(t.(websockets := t.websockets + {i}), i, Owned(reply))
    case Send(i, reply) => WriteConnection(t, i, Owned(reply))
    case Retire(i, reply) => WriteConnection(KillClient(t, i), i, Owned(reply))
    case Ask(i, path) => AskFile(t, i, path, t.serial)
    case Respond(r, reply) => FileDone(t, r, reply)
    case Hangup(i) => WebClose(t, i)
    case Sweep(i) => Reap(t, i)
  }

  /** One turn of the event loop. */
  ghost function Turn(t: Thread, e: Event): Thread
    requires Enabled(t, e)
  {
    Handle(t, e).(serial := t.serial + 1)
  }
}
