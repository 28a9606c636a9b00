/** The broadcast protocol: the central thread's store and posting loop, any number of server threads, and the
    message queues and eventfds between them, interleaved one step at a time. */
module Broadcast {
  import opened Bytes
  import opened ServerThread
  import opened ThreadInvariant
  import opened ThreadProofs
  import opened ThreadProperties
  import opened DataStore

  /** The central thread between two of its posts, or back in its loop. */
  datatype Posting = Idle | Posting(msg: Msg, next: nat)

  /** `attached` says which server threads have started; `missed` counts, per slot, the posts skipped because the
      thread had not. */
  datatype System = System(store: Store, posting: Posting, threads: seq<Thread>, attached: seq<bool>,
                           missed: map<nat, nat>)

  datatype Step =
    | Tick(frame: Data, item: nat)       // the timer: a frame is stored with one use per thread
    | Post                               // the posting loop reaches the next thread
    | Attach(thread: nat)                // a server thread finishes starting up
    | OnThread(thread: nat, event: Event)
    | ProgramEfdRead(thread: nat)        // the armed read of a thread's communication eventfd completes
    | CentralWake(thread: nat)           // its completion is handled: one finished message is taken

  function Missed(s: System, item: nat): nat {
    if item in s.missed then s.missed[item] else 0
  }

  ghost predicate Init(s: System) {
    && s.store == Store([], {}, 0) && s.posting == Idle && s.missed == map[]
    && |s.threads| == |s.attached| >= 1
    && forall k :: 0 <= k < |s.threads| ==> s.threads[k] == FreshThread()
  }

  ghost predicate CanStep(s: System, a: Step) {
    match a
    case Tick(_, item) => s.posting.Idle? && Insertable(s.store, item)
    case Post => s.posting.Posting? && s.posting.next < |s.threads| == |s.attached|
    case Attach(k) => k < |s.attached|
    case OnThread(k, e) => k < |s.threads| == |s.attached| && s.attached[k] && Enabled(s.threads[k], e)
    case ProgramEfdRead(k) => k < |s.threads| && s.threads[k].outbox.efd > 0 && !s.threads[k].outbox.woken
    case CentralWake(k) => s.posting.Idle? && k < |s.threads| && s.threads[k].outbox.woken
  }

  function DoTick(s: System, frame: Data, item: nat): System
    requires Insertable(s.store, item)
  {
    var store := InsertItem(s.store, frame, |s.threads|, item);
    s.(store := store, missed := s.missed - {item},
       posting := Posting(Msg(store.slots[item].ptr, frame, item), 0))
  }

  function DoPost(s: System): System
    requires s.posting.Posting? && s.posting.next < |s.threads| == |s.attached|
  {
    var k, msg := s.posting.next, s.posting.msg;
    var s1 := if s.attached[k]
              then s.(threads := s.threads[k := PostToServer(s.threads[k], msg)])
              else s.(missed := s.missed[msg.item := Missed(s, msg.item) + 1]);
    s1.(posting := if k + 1 < |s.threads| then Posting(msg, k + 1) else Idle)
  }

  function TakeReport(t: Thread): Thread {
    t.(outbox := t.outbox.Taken().Handled())
  }

  function DoCentralWake(s: System, k: nat): System
    requires k < |s.threads|
  {
    var t := s.threads[k];
    var msg := t.outbox.Front();
    s.(threads := s.threads[k := TakeReport(t)],
       store := if msg.item < |s.store.slots| then FreeItem(s.store, msg.item) else s.store)
  }

  ghost function Next(s: System, a: Step): System
    requires CanStep(s, a)
  {
    match a
    case Tick(frame, item) => DoTick(s, frame, item)
    case Post => DoPost(s)
    case Attach(k) => s.(attached := s.attached[k := true])
    case OnThread(k, e) => s.(threads := s.threads[k := Turn(s.threads[k], e)])
    case ProgramEfdRead(k) =>
      s.(threads := s.threads[k := s.threads[k].(outbox := s.threads[k].outbox.Read())])
    case CentralWake(k) => DoCentralWake(s, k)
  }

  ghost predicate Leads(s: System, a: Step, u: System) {
    CanStep(s, a) && u == Next(s, a)
  }

  /** The states of a run and the steps between them. */
  ghost predicate Run(states: seq<System>, run: seq<Step>) {
    |states| == |run| + 1 && forall k :: 0 <= k < |run| ==> Leads(states[k], run[k], states[k + 1])
  }

  lemma RunCons(s: System, a: Step, states: seq<System>, run: seq<Step>)
    requires Run(states, run) && Leads(s, a, states[0])
    ensures Run([s] + states, [a] + run)
  {
    var all, steps := [s] + states, [a] + run;
    forall k | 0 <= k < |steps| ensures Leads(all[k], steps[k], all[k + 1]) {
      if k > 0 { assert Leads(states[k - 1], run[k - 1], states[k]); }
    }
  }

  /** What the code would have to test of a step: see `Guarded`. */
  ghost predicate Guards(s: System, a: Step)
    requires CanStep(s, a)
  {
    a.OnThread? ==> Guarded(s.threads[a.thread], a.event)
  }

  ghost predicate AllGuarded(states: seq<System>, run: seq<Step>)
    requires Run(states, run)
  {
    forall k :: 0 <= k < |run| ==> Leads(states[k], run[k], states[k + 1]) && Guards(states[k], run[k])
  }

  function Last(states: seq<System>): System
    requires states != []
  {
    states[|states| - 1]
  }

  lemma RunSnoc(states: seq<System>, run: seq<Step>, a: Step, u: System)
    requires Run(states, run) && Leads(Last(states), a, u)
    ensures Run(states + [u], run + [a]) && (states + [u])[0] == states[0] && Last(states + [u]) == u
  {
    var all, steps := states + [u], run + [a];
    forall k | 0 <= k < |steps| ensures Leads(all[k], steps[k], all[k + 1]) {
      if k < |run| {
        assert all[k] == states[k] && all[k + 1] == states[k + 1] && steps[k] == run[k];
        assert Leads(states[k], run[k], states[k + 1]);
      } else {
        assert all[k] == Last(states) && all[k + 1] == u && steps[k] == a;
      }
    }
  }

  lemma GuardedSnoc(states: seq<System>, run: seq<Step>, a: Step, u: System)
    requires Run(states, run) && Leads(Last(states), a, u)
    requires AllGuarded(states, run) && Guards(Last(states), a)
    ensures Run(states + [u], run + [a]) && AllGuarded(states + [u], run + [a])
    ensures (states + [u])[0] == states[0] && Last(states + [u]) == u
  {
    var all, steps := states + [u], run + [a];
    RunSnoc(states, run, a, u);
    forall k | 0 <= k < |steps| ensures Leads(all[k], steps[k], all[k + 1]) && Guards(all[k], steps[k]) {
      assert Leads(all[k], steps[k], all[k + 1]);
      if k < |run| {
        assert all[k] == states[k] && steps[k] == run[k];
        assert Leads(states[k], run[k], states[k + 1]) && Guards(states[k], run[k]);
      }
    }
  }

  /** A guarded run from the start of the program. */
  ghost predicate SafeRun(states: seq<System>, run: seq<Step>) {
    Run(states, run) && Init(states[0]) && AllGuarded(states, run)
  }

  // ----- the invariant -----

  function SumHolds(threads: seq<Thread>, item: nat): nat {
    if threads == [] then 0 else Holds(threads[0], item) + SumHolds(threads[1..], item)
  }

  function Pending(s: System, item: nat): int {
    if s.posting.Posting? && s.posting.msg.item == item then |s.threads| - s.posting.next else 0
  }

  /** A message points into a live slot that still holds the bytes posted. */
  ghost predicate Matches(store: Store, m: Msg) {
    && store.Live(m.item)
    && store.slots[m.item].ptr == m.ptr && store.slots[m.item].data == m.data
  }

  /** A message waits for this thread, or one of its send queues points to the message's buffer. */
  ghost predicate Refers(t: Thread, m: Msg) {
    m in t.inbox.queue || exists i :: 0 <= i < |t.clients| && Shared(m) in t.clients[i].queue
  }

  ghost predicate Balanced(s: System, item: nat) {
    if s.store.Live(item) then
      s.store.slots[item].uses == SumHolds(s.threads, item) + Pending(s, item) + Missed(s, item) >= 1
    else
      SumHolds(s.threads, item) == Missed(s, item) == 0
  }

  ghost predicate PostingOk(s: System) {
    s.posting.Posting? ==>
      && s.posting.next < |s.threads|
      && Matches(s.store, s.posting.msg)
      && forall k :: s.posting.next <= k < |s.threads| ==> Holds(s.threads[k], s.posting.msg.item) == 0
  }

  ghost predicate SystemInv(s: System) {
    && |s.threads| == |s.attached| >= 1
    && (forall k :: 0 <= k < |s.threads| ==> ThreadInv(s.threads[k]))
    && (forall i :: i in s.store.free ==> i < |s.store.slots|)
    && PostingOk(s)
    && (forall item: nat :: Balanced(s, item))
    && (forall k, m :: 0 <= k < |s.threads| && Refers(s.threads[k], m) ==> Matches(s.store, m))
  }

  // ----- sums over threads -----

  lemma {:induction false} SumUpdate(threads: seq<Thread>, k: nat, t: Thread, item: nat)
    requires k < |threads|
    ensures SumHolds(threads[k := t], item) == SumHolds(threads, item) - Holds(threads[k], item) + Holds(t, item)
  {
    if k == 0 {
      assert threads[k := t][1..] == threads[1..];
    } else {
      assert threads[k := t][1..] == threads[1..][k - 1 := t];
      SumUpdate(threads[1..], k - 1, t, item);
    }
  }

  lemma {:induction false} SumAtLeast(threads: seq<Thread>, k: nat, item: nat)
    requires k < |threads|
    ensures SumHolds(threads, item) >= Holds(threads[k], item)
  {
    if k > 0 { SumAtLeast(threads[1..], k - 1, item); }
  }

  lemma {:induction false} SumOfFresh(threads: seq<Thread>, item: nat)
    requires forall k :: 0 <= k < |threads| ==> threads[k] == FreshThread()
    ensures SumHolds(threads, item) == 0
  {
    if threads != [] { SumOfFresh(threads[1..], item); }
  }

  // ----- references -----

  lemma {:induction false} EntriesMember(q: seq<SendItem>, m: Msg)
    requires Shared(m) in q
    ensures Entries(q, m.item) > 0
  {
    var k :| 0 <= k < |q| && q[k] == Shared(m);
    EntriesPositive(q, k, m.item);
  }

  lemma RefersHolds(t: Thread, m: Msg)
    requires Refers(t, m)
    ensures Holds(t, m.item) >= 1
  {
    if m in t.inbox.queue {
      var k :| 0 <= k < |t.inbox.queue| && t.inbox.queue[k] == m;
      MessagesPositive(t.inbox.queue, k);
    } else {
      var i :| 0 <= i < |t.clients| && Shared(m) in t.clients[i].queue;
      EntriesMember(t.clients[i].queue, m);
      OwedAtLeast(t.clients, i, m.item);
    }
  }

  /** No queue of `u` holds a pointer that a queue of `t`, or its inbox, did not hold. */
  ghost predicate NoNewPointers(t: Thread, u: Thread) {
    && |t.clients| <= |u.clients|
    && (forall i, m :: 0 <= i < |u.clients| && Shared(m) in u.clients[i].queue ==> Refers(t, m))
    && (forall m :: m in u.inbox.queue ==> m in t.inbox.queue)
  }

  lemma KeptPointers(t: Thread, u: Thread)
    requires |t.clients| <= |u.clients|
    requires forall i, m :: 0 <= i < |u.clients| && Shared(m) in u.clients[i].queue ==>
               i < |t.clients| && Shared(m) in t.clients[i].queue
    requires u.inbox.queue == t.inbox.queue
    ensures NoNewPointers(t, u)
  {
  }

  /** The other queues are left alone; that of slot `i` is kept, popped or cleared. */
  ghost predicate OnlyShortens(t: Thread, u: Thread, i: nat)
    requires i < |t.clients|
  {
    && |u.clients| == |t.clients|
    && (forall k :: 0 <= k < |t.clients| && k != i ==> u.clients[k].queue == t.clients[k].queue)
    && forall x :: x in u.clients[i].queue ==> x in t.clients[i].queue
  }

  lemma FailShortens(t: Thread, i: nat)
    requires i < |t.clients| && ItemsKnown(t.clients[i].queue, |t.broadcastData|)
    ensures OnlyShortens(t, FailClient(t, i), i)
  {
  }

  lemma WriteCbShortens(t: Thread, i: nat, info: ItemRef, closes: bool)
    requires i < |t.clients| && (info.Item? ==> info.item < |t.broadcastData|)
    ensures OnlyShortens(t, WriteCb(t, i, info, closes), i)
  {
  }

  lemma AdvanceShortens(t: Thread, i: nat)
    requires i < |t.clients| && t.clients[i].queue != []
    ensures OnlyShortens(t, Advance(t, i), i)
  {
    assert Advance(t, i).clients[i].queue == t.clients[i].queue[1..];
  }

  lemma FinishShortens(t: Thread, id: ReqId, closes: bool)
    requires Dispatchable(t, id)
    ensures OnlyShortens(t, FinishedWrite(t, id, closes), t.inflight[id].client)
  {
    var i := t.inflight[id].client;
    var d := DropRequest(t, id);
    AdvanceShortens(d, i);
    WriteCbShortens(Advance(d, i), i, t.clients[i].queue[0].Info(), closes);
    WriteCbShortens(d, i, NoItem, closes);
  }

  lemma FailedShortens(t: Thread, id: ReqId, res: int)
    requires Dispatchable(t, id)
    ensures OnlyShortens(t, FailedWrite(t, id, res), t.inflight[id].client)
  {
    FailShortens(DropRequest(t, id), t.inflight[id].client);
  }

  lemma CompletePointers(t: Thread, id: ReqId, res: int, closes: bool)
    requires Dispatchable(t, id)
    requires res <= t.inflight[id].Total() - t.inflight[id].written
    ensures NoNewPointers(t, CompleteWrite(t, id, res, closes))
  {
    FailedShortens(t, id, res);
    if res > 0 { FinishShortens(Accepted(t, id, res), id, closes); }
    CompleteWriteOnlyReports(t, id, res, closes);
    KeptPointers(t, CompleteWrite(t, id, res, closes));
  }

  lemma ReplyPointers(t: Thread, i: nat, reply: Data)
    requires i < |t.clients|
    ensures NoNewPointers(t, WriteConnection(t, i, Owned(reply)))
  {
    KeptPointers(t, WriteConnection(t, i, Owned(reply)));
  }

  lemma EventCbPointers(t: Thread)
    requires t.inbox.queue != []
    ensures NoNewPointers(t, EventCb(t))
  {
    var u := EventCb(t);
    var msg := t.inbox.queue[0];
    forall i, m | 0 <= i < |u.clients| && Shared(m) in u.clients[i].queue ensures Refers(t, m) {
      if Shared(m) !in t.clients[i].queue {
        assert u.clients[i].queue == t.clients[i].queue + [Shared(msg)];
        assert m == msg;
      }
    }
  }

  lemma GiveUpPointers(t: Thread, i: nat)
    requires i < |t.clients| && ItemsKnown(t.clients[i].queue, |t.broadcastData|)
    ensures NoNewPointers(t, GiveUp(t, i)) && NoNewPointers(t, FailClient(t, i))
  {
    FailOnlyReports(t, i);
    KeptPointers(t, GiveUp(t, i));
    KeptPointers(t, FailClient(t, i));
  }

  lemma AcceptPointers(t: Thread, i: nat)
    requires IsNextIndex(t, i)
    ensures NoNewPointers(t, Accept(t, i))
  {
    KeptPointers(t, Accept(t, i));
  }

  lemma HandlePointers(t: Thread, e: Event)
    requires ThreadInv(t) && Enabled(t, e)
    ensures NoNewPointers(t, Handle(t, e))
  {
    match e
    case EfdRead => KeptPointers(t, Handle(t, e));
    case Wake =>
      var w := t.(inbox := t.inbox.Handled());
      EventCbPointers(w);
      assert forall m :: Refers(w, m) ==> Refers(t, m);
    case Complete(id, res, closes) => CompletePointers(t, id, res, closes);
    case ReadFailed(i) => GiveUpPointers(t, i);
    case Connect(i) => AcceptPointers(t, i);
    case Upgrade(i, reply) => SocketPointers(t, t.(websockets := t.websockets + {i}), i, reply);
    case Send(i, reply) => SocketPointers(t, t, i, reply);
    case Retire(i, reply) => SocketPointers(t, KillClient(t, i), i, reply);
    case Ask(_, _) => KeptPointers(t, Handle(t, e));
    case Respond(r, reply) => SocketPointers(t, ReadDone(t, r), t.files.pending[r].slot, reply);
    case Hangup(i) => KeptPointers(t, WebClose(t, i));
    case Sweep(i) => GiveUpPointers(t, i);
  }

  lemma SocketPointers(t: Thread, w: Thread, i: nat, reply: Data)
    requires i < |t.clients| && w == t.(websockets := w.websockets, files := w.files)
    ensures NoNewPointers(t, WriteConnection(w, i, Owned(reply)))
  {
    ReplyPointers(w, i, reply);
    assert forall m :: Refers(w, m) ==> Refers(t, m);
  }

  lemma TurnPointers(t: Thread, e: Event)
    requires ThreadInv(t) && Enabled(t, e)
    ensures NoNewPointers(t, Turn(t, e))
  {
    HandlePointers(t, e);
    var h := Handle(t, e);
    var u := Turn(t, e);
    forall i, m | 0 <= i < |u.clients| && Shared(m) in u.clients[i].queue ensures Refers(t, m) {
      assert Shared(m) in h.clients[i].queue;
    }
  }

  // ----- every step keeps the invariant -----

  lemma InitOk(s: System)
    requires Init(s)
    ensures SystemInv(s)
  {
    forall item: nat ensures Balanced(s, item) { SumOfFresh(s.threads, item); }
    FreshThreadOk();
  }

  /** A slot that is not live is not mentioned anywhere. */
  lemma DeadUnmentioned(s: System, item: nat)
    requires SystemInv(s) && !s.store.Live(item)
    ensures forall k :: 0 <= k < |s.threads| ==> Holds(s.threads[k], item) == 0
    ensures forall k, m :: 0 <= k < |s.threads| && Refers(s.threads[k], m) ==> m.item != item
  {
    assert Balanced(s, item);
    forall k | 0 <= k < |s.threads| ensures Holds(s.threads[k], item) == 0 { SumAtLeast(s.threads, k, item); }
    forall k, m | 0 <= k < |s.threads| && Refers(s.threads[k], m) ensures m.item != item {
      assert Matches(s.store, m);
    }
  }

  lemma TickKeeps(s: System, frame: Data, item: nat)
    requires SystemInv(s) && s.posting.Idle? && Insertable(s.store, item)
    ensures SystemInv(DoTick(s, frame, item))
  {
    var u := DoTick(s, frame, item);
    DeadUnmentioned(s, item);
    forall j: nat ensures Balanced(u, j) {
      assert Balanced(s, j);
      assert u.store.Live(j) <==> s.store.Live(j) || j == item;
    }
    forall k, m | 0 <= k < |u.threads| && Refers(u.threads[k], m) ensures Matches(u.store, m) {
      assert Matches(s.store, m) && m.item != item;
    }
  }

  /** Replacing one thread by one that owes the same and points to nothing new. */
  lemma ReplaceThreadKeeps(s: System, k: nat, t: Thread)
    requires SystemInv(s) && k < |s.threads| && ThreadInv(t)
    requires SameDebts(s.threads[k], t) && NoNewPointers(s.threads[k], t)
    ensures SystemInv(s.(threads := s.threads[k := t]))
  {
    var u := s.(threads := s.threads[k := t]);
    forall item: nat ensures Balanced(u, item) {
      assert Balanced(s, item);
      SumUpdate(s.threads, k, t, item);
      assert Holds(t, item) == Holds(s.threads[k], item);
    }
    forall j, m | 0 <= j < |u.threads| && Refers(u.threads[j], m) ensures Matches(u.store, m) {
      assert Refers(s.threads[j], m);
    }
  }

  lemma PostedThread(t: Thread, msg: Msg)
    requires ThreadInv(t) && Holds(t, msg.item) == 0
    ensures var u := PostToServer(t, msg);
            && ThreadInv(u)
            && (forall item: nat :: Holds(u, item) == Holds(t, item) + (if item == msg.item then 1 else 0))
            && (forall m :: Refers(u, m) ==> Refers(t, m) || m == msg)
  {
    var u := PostToServer(t, msg);
    SlotsFrame(t, u, t.serial, t.serial);
    forall item: nat
      ensures Counted(u, item) && Holds(u, item) == Holds(t, item) + (if item == msg.item then 1 else 0)
      ensures Holds(u, item) <= 1
    {
      assert Counted(t, item) && Holds(t, item) <= 1;
      MessagesSnoc(t.inbox.queue, msg, item);
    }
  }

  lemma PostBalances(s: System, item: nat)
    requires SystemInv(s) && s.posting.Posting?
    ensures Balanced(DoPost(s), item)
  {
    var k, msg := s.posting.next, s.posting.msg;
    var t := PostToServer(s.threads[k], msg);
    PostedThread(s.threads[k], msg);
    assert Balanced(s, item);
    assert DoPost(s).store == s.store;
    if s.attached[k] {
      SumUpdate(s.threads, k, t, item);
      assert Holds(t, item) == Holds(s.threads[k], item) + (if item == msg.item then 1 else 0);
      assert Missed(DoPost(s), item) == Missed(s, item);
    } else {
      assert DoPost(s).threads == s.threads;
    }
  }

  lemma PostKeeps(s: System)
    requires SystemInv(s) && s.posting.Posting?
    ensures SystemInv(DoPost(s))
  {
    var u := DoPost(s);
    var k, msg := s.posting.next, s.posting.msg;
    PostedThread(s.threads[k], msg);
    forall item: nat ensures Balanced(u, item) { PostBalances(s, item); }
    forall j, m | 0 <= j < |u.threads| && Refers(u.threads[j], m) ensures Matches(u.store, m) {
      assert m == msg || Refers(s.threads[j], m);
    }
  }

  lemma TakenReport(t: Thread)
    requires ThreadInv(t) && t.outbox.woken
    ensures var u := TakeReport(t);
            && t.outbox.queue != [] && ThreadInv(u) && NoNewPointers(t, u)
            && forall item: nat ::
                 Holds(u, item) == Holds(t, item) - (if item == t.outbox.queue[0].item then 1 else 0)
  {
    var u := TakeReport(t);
    SlotsFrame(t, u, t.serial, t.serial);
    forall item: nat ensures Counted(u, item) && Holds(u, item) <= Holds(t, item) <= 1 {
      assert Counted(t, item) && Holds(t, item) <= 1;
    }
    KeptPointers(t, u);
  }

  /** The report taken is about a live item, which loses one use. */
  lemma ReportIsLive(s: System, k: nat)
    requires SystemInv(s) && k < |s.threads| && s.threads[k].outbox.woken
    ensures s.threads[k].outbox.queue != []
    ensures var item := s.threads[k].outbox.queue[0].item;
            s.store.Live(item) && DoCentralWake(s, k).store == FreeItem(s.store, item)
  {
    TakenReport(s.threads[k]);
    var item := s.threads[k].outbox.queue[0].item;
    MessagesPositive(s.threads[k].outbox.queue, 0);
    SumAtLeast(s.threads, k, item);
    assert Balanced(s, item);
  }

  lemma CentralWakeBalances(s: System, k: nat, j: nat)
    requires SystemInv(s) && s.posting.Idle? && k < |s.threads| && s.threads[k].outbox.woken
    ensures Balanced(DoCentralWake(s, k), j)
  {
    ReportIsLive(s, k);
    TakenReport(s.threads[k]);
    assert Balanced(s, j);
    SumUpdate(s.threads, k, TakeReport(s.threads[k]), j);
  }

  lemma CentralWakeKeeps(s: System, k: nat)
    requires SystemInv(s) && s.posting.Idle? && k < |s.threads| && s.threads[k].outbox.woken
    ensures SystemInv(DoCentralWake(s, k))
  {
    var u := DoCentralWake(s, k);
    ReportIsLive(s, k);
    TakenReport(s.threads[k]);
    forall j: nat ensures Balanced(u, j) { CentralWakeBalances(s, k, j); }
    forall j, m | 0 <= j < |u.threads| && Refers(u.threads[j], m) ensures Matches(u.store, m) {
      assert Refers(s.threads[j], m) && Matches(s.store, m);
      RefersHolds(u.threads[j], m);
      SumAtLeast(u.threads, j, m.item);
      assert Balanced(u, m.item);
    }
  }

  lemma SignalledThread(t: Thread)
    requires ThreadInv(t) && t.outbox.efd > 0 && !t.outbox.woken
    ensures var u := t.(outbox := t.outbox.Read());
            ThreadInv(u) && SameDebts(t, u) && NoNewPointers(t, u)
  {
    var u := t.(outbox := t.outbox.Read());
    SlotsFrame(t, u, t.serial, t.serial);
    AccountsFrame(t, u);
    KeptPointers(t, u);
  }

  lemma StepKeeps(s: System, a: Step)
    requires SystemInv(s) && CanStep(s, a) && Guards(s, a)
    ensures SystemInv(Next(s, a))
  {
    match a
    case Tick(frame, item) => TickKeeps(s, frame, item);
    case Post => PostKeeps(s);
    case Attach(k) =>
      var u := Next(s, a);
      forall item: nat ensures Balanced(u, item) { assert Balanced(s, item); }
    case OnThread(k, e) =>
      TurnKeeps(s.threads[k], e);
      TurnPointers(s.threads[k], e);
      ReplaceThreadKeeps(s, k, Turn(s.threads[k], e));
    case ProgramEfdRead(k) =>
      var t := s.threads[k];
      SignalledThread(t);
      ReplaceThreadKeeps(s, k, t.(outbox := t.outbox.Read()));
    case CentralWake(k) => CentralWakeKeeps(s, k);
  }

  /** A step keeps the invariant exactly when it is guarded. */
  lemma StepExact(s: System, a: Step)
    requires SystemInv(s) && CanStep(s, a)
    ensures SystemInv(Next(s, a)) <==> Guards(s, a)
  {
    if Guards(s, a) {
      StepKeeps(s, a);
    } else {
      TurnExact(s.threads[a.thread], a.event);
      assert Next(s, a).threads[a.thread] == Turn(s.threads[a.thread], a.event);
    }
  }

  lemma GuardedRunKeeps(states: seq<System>, run: seq<Step>)
    requires SafeRun(states, run)
    ensures forall k :: 0 <= k < |states| ==> SystemInv(states[k])
  {
    InitOk(states[0]);
    for n := 0 to |run|
      invariant forall k :: 0 <= k <= n ==> SystemInv(states[k])
    {
      var s, a, u := states[n], run[n], states[n + 1];
      assert Leads(s, a, u) && Guards(s, a);
      StepKeeps(s, a);
    }
  }

  lemma LeadsExact(s: System, a: Step, u: System)
    requires SystemInv(s) && Leads(s, a, u)
    ensures SystemInv(u) <==> Guards(s, a)
  {
    StepExact(s, a);
  }

  /** A run keeps the invariant all along exactly when every step of it is guarded. */
  lemma RunExact(states: seq<System>, run: seq<Step>)
    requires Run(states, run) && Init(states[0])
    ensures (forall k :: 0 <= k < |states| ==> SystemInv(states[k])) <==> AllGuarded(states, run)
  {
    if AllGuarded(states, run) {
      GuardedRunKeeps(states, run);
    } else {
      var k :| 0 <= k < |run| && !(Leads(states[k], run[k], states[k + 1]) && Guards(states[k], run[k]));
      assert Leads(states[k], run[k], states[k + 1]);
      if SystemInv(states[k]) { LeadsExact(states[k], run[k], states[k + 1]); }
    }
  }

  lemma RunKeeps(states: seq<System>, run: seq<Step>)
    requires SafeRun(states, run)
    ensures SystemInv(Last(states))
  {
    GuardedRunKeeps(states, run);
  }

  // ----- what every run guarantees -----

  /** What the kernel is writing stands at the front of a send queue. */
  lemma InFlightIsQueued(t: Thread)
    requires ThreadInv(t)
    ensures forall id, m :: id in t.inflight && t.inflight[id].item == Shared(m) ==> Refers(t, m)
  {
    forall id, m | id in t.inflight && t.inflight[id].item == Shared(m) ensures Refers(t, m) {
      assert RequestOk(t, id);
      assert Shared(m) in t.clients[id.slot].queue;
    }
  }

  /** No buffer is released, and no slot reused, while a thread may still read it: whatever waits in a thread's
      inbox, stands in a send queue, or is being written by the kernel, points to a live slot that still holds
      the very buffer and bytes posted. */
  lemma BuffersOutliveReaders(states: seq<System>, run: seq<Step>, k: nat, m: Msg)
    requires SafeRun(states, run) && k < |Last(states).threads|
    requires var t := Last(states).threads[k];
             Refers(t, m) || exists id :: id in t.inflight && t.inflight[id].item == Shared(m)
    ensures Matches(Last(states).store, m)
  {
    RunKeeps(states, run);
    InFlightIsQueued(Last(states).threads[k]);
  }

  /** Conservation of uses. */
  lemma UsesConserved(states: seq<System>, run: seq<Step>, item: nat)
    requires SafeRun(states, run) && Last(states).store.Live(item)
    ensures var s := Last(states);
            && s.store.slots[item].uses
                 == SumHolds(s.threads, item) + Pending(s, item) + Skipped(states, run, item) >= 1
            && forall k :: 0 <= k < |s.threads| ==> Holds(s.threads[k], item) <= 1
  {
    var s := Last(states);
    RunKeeps(states, run);
    MissedIsSkipped(states, run, item);
    assert Balanced(s, item);
    forall k | 0 <= k < |s.threads| ensures Holds(s.threads[k], item) <= 1 { assert Accounts(s.threads[k]); }
  }

  // ----- reports no wake-up collects -----

  lemma TurnStrandsNoReport(t: Thread, e: Event)
    requires ThreadInv(t) && Enabled(t, e)
    ensures Turn(t, e).outbox.Stranded() == t.outbox.Stranded()
  {
    if e.Wake? {
      EventCbTakesOne(t.(inbox := t.inbox.Handled()));
    } else if !e.EfdRead? && !e.Connect? && !e.Ask? {
      HandleOnlyReports(t, e);
    }
  }

  /** Reading a thread's communication eventfd swallows all signals but one: the reports of the others wait for a later
      one, and their buffers with them.  No other step leaves a report behind. */
  lemma CoalescingStrandsReports(s: System, a: Step, k: nat)
    requires SystemInv(s) && CanStep(s, a) && k < |s.threads|
    ensures k < |Next(s, a).threads|
    ensures var t := s.threads[k];
            Next(s, a).threads[k].outbox.Stranded()
              == t.outbox.Stranded() + (if a == ProgramEfdRead(k) then t.outbox.efd - 1 else 0)
  {
    if a.OnThread? && a.thread == k { TurnStrandsNoReport(s.threads[k], a.event); }
    if a.CentralWake? && a.thread == k { TakenReport(s.threads[k]); }
  }

  /** A report left behind keeps its store slot occupied. */
  lemma StrandedKeepsBuffer(s: System, k: nat, m: Msg)
    requires SystemInv(s) && k < |s.threads| && m in s.threads[k].outbox.queue
    ensures s.store.Live(m.item) && s.store.slots[m.item].uses >= 1
  {
    var j :| 0 <= j < |s.threads[k].outbox.queue| && s.threads[k].outbox.queue[j] == m;
    MessagesPositive(s.threads[k].outbox.queue, j);
    SumAtLeast(s.threads, k, m.item);
    assert Balanced(s, m.item);
  }

  // ----- posts to threads that have not started -----

  /** This step is a post of the item that is skipped. */
  predicate Skips(s: System, a: Step, item: nat) {
    a.Post? && s.posting.Posting? && s.posting.msg.item == item
    && s.posting.next < |s.attached| && !s.attached[s.posting.next]
  }

  /** How many posts of the item the run has skipped. */
  ghost function Skipped(states: seq<System>, run: seq<Step>, item: nat): nat
    requires |run| <= |states|
  {
    if run == [] then 0 else
      var n := |run| - 1;
      Skipped(states[..n], run[..n], item) + (if Skips(states[n], run[n], item) then 1 else 0)
  }

  lemma MissedStep(s: System, a: Step, item: nat)
    requires SystemInv(s) && CanStep(s, a)
    ensures Missed(Next(s, a), item) == Missed(s, item) + (if Skips(s, a, item) then 1 else 0)
  {
    if a.Tick? && a.item == item { DeadUnmentioned(s, item); assert Balanced(s, item); }
  }

  lemma RunPrefix(states: seq<System>, run: seq<Step>, n: nat)
    requires SafeRun(states, run) && n <= |run|
    ensures SafeRun(states[..n + 1], run[..n])
  {
    forall k | 0 <= k < n
      ensures Leads(states[..n + 1][k], run[..n][k], states[..n + 1][k + 1])
              && Guards(states[..n + 1][k], run[..n][k])
    {
      assert Leads(states[k], run[k], states[k + 1]);
    }
  }

  lemma {:induction false} MissedIsSkipped(states: seq<System>, run: seq<Step>, item: nat)
    requires SafeRun(states, run)
    ensures Missed(Last(states), item) == Skipped(states, run, item)
    decreases |run|
  {
    if run != [] {
      var n := |run| - 1;
      RunPrefix(states, run, n);
      MissedIsSkipped(states[..n + 1], run[..n], item);
      RunKeeps(states[..n + 1], run[..n]);
      assert Leads(states[n], run[n], states[n + 1]);
      MissedStep(states[n], run[n], item);
      SkippedPrefix(states[..n + 1], run[..n], states[..n], item);
    }
  }

  /** Only the states before the steps matter. */
  lemma {:induction false} SkippedPrefix(a: seq<System>, run: seq<Step>, b: seq<System>, item: nat)
    requires |run| <= |a| && |run| <= |b| && a[..|run|] == b[..|run|]
    ensures Skipped(a, run, item) == Skipped(b, run, item)
    decreases |run|
  {
    if run != [] {
      var n := |run| - 1;
      assert a[n] == a[..|run|][n] == b[n];
      assert a[..n] == a[..|run|][..n] == b[..n];
    }
  }

  ghost predicate Quiet(t: Thread) {
    t.inbox.queue == [] && t.outbox.queue == [] && forall i :: 0 <= i < |t.clients| ==> t.clients[i].queue == []
  }

  lemma {:induction false} NothingOwed(clients: seq<Client>, item: nat)
    requires forall i :: 0 <= i < |clients| ==> clients[i].queue == []
    ensures Owed(clients, item) == 0
  {
    if clients != [] { NothingOwed(clients[1..], item); }
  }

  lemma {:induction false} QuietHoldsNothing(threads: seq<Thread>, item: nat)
    requires forall k :: 0 <= k < |threads| ==> Quiet(threads[k])
    ensures SumHolds(threads, item) == 0
  {
    if threads != [] {
      NothingOwed(threads[0].clients, item);
      QuietHoldsNothing(threads[1..], item);
    }
  }

  /** When nothing is under way a slot is free exactly if no post of it was ever skipped because a thread had not
      started; otherwise it is lost for good, with one use left per skipped post. */
  lemma QuiescentFreesAll(states: seq<System>, run: seq<Step>, item: nat)
    requires SafeRun(states, run) && item < |Last(states).store.slots|
    requires Last(states).posting.Idle?
    requires forall k :: 0 <= k < |Last(states).threads| ==> Quiet(Last(states).threads[k])
    ensures var store := Last(states).store;
            && (item in store.free <==> forall k :: 0 <= k < |run| ==> !Skips(states[k], run[k], item))
            && (item !in store.free ==> store.slots[item].uses == Skipped(states, run, item))
  {
    RunKeeps(states, run);
    MissedIsSkipped(states, run, item);
    SkippedNone(states, run, item);
    QuietHoldsNothing(Last(states).threads, item);
    assert Balanced(Last(states), item);
  }

  lemma {:induction false} SkippedNone(states: seq<System>, run: seq<Step>, item: nat)
    requires |run| <= |states|
    ensures Skipped(states, run, item) == 0 <==> forall k :: 0 <= k < |run| ==> !Skips(states[k], run[k], item)
    decreases |run|
  {
    if run != [] {
      var n := |run| - 1;
      SkippedNone(states[..n], run[..n], item);
      forall k | 0 <= k < n ensures states[..n][k] == states[k] && run[..n][k] == run[k] { }
    }
  }

  /** One server thread's turn never changes how many reports it owes, so each thread reports once per item. */
  lemma ThreadReportsOnce(states: seq<System>, run: seq<Step>, k: nat, e: Event, item: nat)
    requires SafeRun(states, run) && CanStep(Last(states), OnThread(k, e)) && Guards(Last(states), OnThread(k, e))
    ensures Holds(Next(Last(states), OnThread(k, e)).threads[k], item) == Holds(Last(states).threads[k], item) <= 1
  {
    var t := Last(states).threads[k];
    RunKeeps(states, run);
    TurnKeeps(t, e);
    assert SameDebts(t, Turn(t, e)) && Accounts(t);
  }

  /** On every connection of every thread, what the socket has accepted is a prefix of what was queued, in order,
      and all of it once the queue of an open connection is empty. */
  lemma SocketsGetPrefixes(states: seq<System>, run: seq<Step>, k: nat, i: nat)
    requires SafeRun(states, run) && k < |Last(states).threads| && i < |Last(states).threads[k].clients|
    ensures var t := Last(states).threads[k];
            var c := t.clients[i];
            && c.wire <= Flatten(c.posted)
            && (i in t.active && c.queue == [] ==> c.wire == Flatten(c.posted))
            && |WritesOf(t, i)| == c.numWriteReqs <= 1
  {
    RunKeeps(states, run);
    StreamIsPrefix(Last(states).threads[k], i);
    OneWriteInFlight(Last(states).threads[k], i);
  }

  /** A wake-up, on either side, finds a message. */
  lemma WakeUpsFindMessages(states: seq<System>, run: seq<Step>, k: nat)
    requires SafeRun(states, run) && k < |Last(states).threads|
    ensures Last(states).threads[k].inbox.woken ==> Last(states).threads[k].inbox.queue != []
    ensures Last(states).threads[k].outbox.woken ==> Last(states).threads[k].outbox.queue != []
  {
    RunKeeps(states, run);
    assert ThreadInv(Last(states).threads[k]);
  }
}
