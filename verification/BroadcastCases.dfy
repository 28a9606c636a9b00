/** Runs in which the protocol goes wrong, step by step from the start of the program, with one server thread. */
module BroadcastCases {
  import opened Bytes
  import opened ServerThread
  import opened ThreadInvariant
  import opened ThreadProofs
  import opened ThreadProperties
  import opened DataStore
  import opened Broadcast

  const Reply: Data := [72]
  const Frame: Data := [129, 1, 65]
  const Message: Msg := Msg(1, Frame, 0)

  const NoSlots: Store := Store([], {}, 0)
  const OneSlot: Store := Store([Slot(1, Frame, 1)], {}, 1)

  function Alone(store: Store, posting: Posting, t: Thread): System {
    System(store, posting, [t], [true], map[])
  }

  /** The thread of a run has come to `t`, by guarded steps. */
  ghost predicate Comes(states: seq<System>, run: seq<Step>, store: Store, t: Thread) {
    SafeRun(states, run) && Last(states) == Alone(store, Idle, t)
  }

  lemma Started() returns (states: seq<System>, run: seq<Step>)
    ensures Comes(states, run, NoSlots, FreshThread()) && run == [Attach(0)]
  {
    var s := System(NoSlots, Idle, [FreshThread()], [false], map[]);
    assert [false][0 := true] == [true];
    assert Run([s], []) && AllGuarded([s], []);
    GuardedSnoc([s], [], Attach(0), Alone(NoSlots, Idle, FreshThread()));
    states, run := [s] + [Alone(NoSlots, Idle, FreshThread())], [] + [Attach(0)];
  }

  lemma OneTurn(before: seq<System>, steps: seq<Step>, store: Store, t: Thread, e: Event, u: Thread)
      returns (states: seq<System>, run: seq<Step>)
    requires Comes(before, steps, store, t) && Enabled(t, e) && Guarded(t, e) && Turn(t, e) == u
    ensures Comes(states, run, store, u) && run == steps + [OnThread(0, e)]
  {
    var s := Alone(store, Idle, u);
    assert [t][0 := u] == [u];
    GuardedSnoc(before, steps, OnThread(0, e), s);
    states, run := before + [s], steps + [OnThread(0, e)];
  }

  // ----- a response that goes to a stranger -----

  const First: Client := FreshClient(-1, 0)
  const Second: Client := FreshClient(0, 1)

  function Seat(c: Client, live: bool, files: Files, serial: nat): Thread {
    FreshThread().(clients := [c], active := if live then {0} else {}, freed := if live then {} else {0},
                   files := files, serial := serial)
  }

  /** The first connection's request for a file, and what the second has asked for. */
  function Asking(paths: seq<string>): Files {
    Files(map[1 := FileAsk(0, 0, "a")], map[0 := paths])
  }

  lemma FirstAsks() returns (states: seq<System>, run: seq<Step>)
    ensures Comes(states, run, NoSlots, Seat(First, true, Asking(["a"]), 2))
    ensures run == [Attach(0), OnThread(0, Connect(0)), OnThread(0, Ask(0, "a"))]
  {
    var t := Seat(First, true, Files(map[], map[0 := []]), 1);
    states, run := Started();
    states, run := OneTurn(states, run, NoSlots, FreshThread(), Connect(0), t);
    assert [] + ["a"] == ["a"];
    states, run := OneTurn(states, run, NoSlots, t, Ask(0, "a"), Seat(First, true, Asking(["a"]), 2));
  }

  lemma FirstReaped() returns (states: seq<System>, run: seq<Step>)
    ensures Comes(states, run, NoSlots, Seat(First, false, Asking(["a"]), 3))
    ensures run == [Attach(0), OnThread(0, Connect(0)), OnThread(0, Ask(0, "a")), OnThread(0, Sweep(0))]
  {
    var t := Seat(First, true, Asking(["a"]), 2);
    IdleGiveUpIsClose(t, 0);
    assert [First][0 := First] == [First];
    states, run := FirstAsks();
    states, run := OneTurn(states, run, NoSlots, t, Sweep(0), Seat(First, false, Asking(["a"]), 3));
  }

  lemma SecondConnects() returns (states: seq<System>, run: seq<Step>)
    ensures Comes(states, run, NoSlots, Seat(Second, true, Asking([]), 4))
    ensures run == [Attach(0), OnThread(0, Connect(0)), OnThread(0, Ask(0, "a")), OnThread(0, Sweep(0)),
                    OnThread(0, Connect(0))]
  {
    states, run := FirstReaped();
    states, run := OneTurn(states, run, NoSlots, Seat(First, false, Asking(["a"]), 3), Connect(0),
                           Seat(Second, true, Asking([]), 4));
  }

  lemma Answered()
    ensures var t := Seat(Second, true, Asking([]), 4);
            && Enabled(t, Respond(1, Reply)) && Guarded(t, Respond(1, Reply))
            && Turn(t, Respond(1, Reply)).clients == [Client(0, [Owned(Reply)], 1, [Reply], [], [], 1)]
            && Turn(t, Respond(1, Reply)).active == {0}
  {
    var t := Seat(Second, true, Asking([]), 4);
    WriteServes(ReadDone(t, 1), 0, Owned(Reply));
    assert Served(Second, Owned(Reply)) == Client(0, [Owned(Reply)], 1, [Reply], [], [], 1);
  }

  /** A client asks for a file, goes away and is reaped with nothing in flight; the next client in its slot gets the
      file.  Every step of this run is guarded. */
  lemma ResponseToStranger() returns (states: seq<System>, run: seq<Step>)
    ensures SafeRun(states, run) && |Last(states).threads| == 1
    ensures run == [Attach(0), OnThread(0, Connect(0)), OnThread(0, Ask(0, "a")), OnThread(0, Sweep(0)),
                    OnThread(0, Connect(0)), OnThread(0, Respond(1, Reply))]
    ensures Last(states).threads[0].clients == [Client(0, [Owned(Reply)], 1, [Reply], [], [], 1)]
    ensures Last(states).threads[0].active == {0}
  {
    var t := Seat(Second, true, Asking([]), 4);
    states, run := SecondConnects();
    Answered();
    states, run := OneTurn(states, run, NoSlots, t, Respond(1, Reply), Turn(t, Respond(1, Reply)));
  }

  /** If the next client has asked for another file by then, the first file is cached under that path.  Every step of
      this run is guarded, too. */
  lemma FiledUnderOther() returns (states: seq<System>, run: seq<Step>)
    ensures SafeRun(states, run) && |Last(states).threads| == 1
    ensures run == [Attach(0), OnThread(0, Connect(0)), OnThread(0, Ask(0, "a")), OnThread(0, Sweep(0)),
                    OnThread(0, Connect(0)), OnThread(0, Ask(0, "b"))]
    ensures var t := Last(states).threads[0];
            1 in t.files.pending && t.files.pending[1].path == "a" && FiledUnder(t, 1) == "b"
  {
    var t := Seat(Second, true, Asking([]), 4);
    states, run := SecondConnects();
    assert [] + ["b"] == ["b"];
    states, run := OneTurn(states, run, NoSlots, t, Ask(0, "b"), Turn(t, Ask(0, "b")));
  }

  // ----- a response to nobody -----

  lemma Strayed()
    ensures var t := Seat(First, false, Asking(["a"]), 3);
            && Enabled(t, Respond(1, Reply)) && !Guarded(t, Respond(1, Reply))
            && var u := Turn(t, Respond(1, Reply));
            && Enabled(u, Connect(0)) && Turn(u, Connect(0)).clients == [Second] && Turn(u, Connect(0)).active == {0}
            && Turn(u, Connect(0)).inflight == map[ReqId(0, 3) := Request(0, -1, 0, Owned(Reply))]
  {
    var t := Seat(First, false, Asking(["a"]), 3);
    WriteServes(ReadDone(t, 1), 0, Owned(Reply));
    var none: map<ReqId, Request> := map[];
    assert none[ReqId(0, 3) := Request(0, -1, 0, Owned(Reply))] == map[ReqId(0, 3) := Request(0, -1, 0, Owned(Reply))];
  }

  lemma RawTurn(before: seq<System>, steps: seq<Step>, store: Store, t: Thread, e: Event)
      returns (states: seq<System>)
    requires Run(before, steps) && Last(before) == Alone(store, Idle, t) && Enabled(t, e)
    ensures Run(states, steps + [OnThread(0, e)]) && states[0] == before[0]
    ensures Last(states) == Alone(store, Idle, Turn(t, e))
  {
    var s := Alone(store, Idle, Turn(t, e));
    assert [t][0 := Turn(t, e)] == [Turn(t, e)];
    RunSnoc(before, steps, OnThread(0, e), s);
    states := before + [s];
  }

  /** The file is read before the slot has a new connection: a write of the old generation is in flight when it gets
      one, which counts no writes. */
  lemma StrayWriteReached() returns (states: seq<System>, run: seq<Step>)
    ensures Run(states, run) && Init(states[0]) && |Last(states).threads| == 1
    ensures run == [Attach(0), OnThread(0, Connect(0)), OnThread(0, Ask(0, "a")), OnThread(0, Sweep(0)),
                    OnThread(0, Respond(1, Reply)), OnThread(0, Connect(0))]
    ensures var t := Last(states).threads[0];
            t.clients == [Second] && t.active == {0}
            && t.inflight == map[ReqId(0, 3) := Request(0, -1, 0, Owned(Reply))]
  {
    var t := Seat(First, false, Asking(["a"]), 3);
    Strayed();
    states, run := FirstReaped();
    states := RawTurn(states, run, NoSlots, t, Respond(1, Reply));
    run := run + [OnThread(0, Respond(1, Reply))];
    states := RawTurn(states, run, NoSlots, Turn(t, Respond(1, Reply)), Connect(0));
    run := run + [OnThread(0, Connect(0))];
  }

  // ----- a message nobody gets -----

  /** The timer fires before the thread has started: the message is not posted, and its slot is occupied for good. */
  lemma SkippedPost() returns (states: seq<System>, run: seq<Step>)
    ensures SafeRun(states, run) && run == [Tick(Frame, 0), Post]
    ensures var s := Last(states);
            s.posting.Idle? && |s.threads| == 1 && Quiet(s.threads[0]) && s.store == OneSlot && 0 !in s.store.free
  {
    var s := System(NoSlots, Idle, [FreshThread()], [false], map[]);
    var u := System(OneSlot, Posting(Message, 0), [FreshThread()], [false], map[]);
    var v := System(OneSlot, Idle, [FreshThread()], [false], map[0 := 1]);
    assert DoTick(s, Frame, 0) == u by {
      var none: map<nat, nat> := map[];
      assert none - {0} == none;
    }
    assert DoPost(u) == v;
    assert Run([s], []) && AllGuarded([s], []);
    GuardedSnoc([s], [], Tick(Frame, 0), u);
    GuardedSnoc([s] + [u], [] + [Tick(Frame, 0)], Post, v);
    states, run := [s] + [u] + [v], [] + [Tick(Frame, 0)] + [Post];
  }

  // ----- a message left behind -----

  /** The timer fires: the frame is stored and posted. */
  lemma Posted(before: seq<System>, steps: seq<Step>, t: Thread) returns (states: seq<System>, run: seq<Step>)
    requires Comes(before, steps, NoSlots, t)
    ensures Comes(states, run, OneSlot, PostToServer(t, Message)) && run == steps + [Tick(Frame, 0), Post]
  {
    var s := Alone(NoSlots, Idle, t);
    var u := Alone(OneSlot, Posting(Message, 0), t);
    var v := Alone(OneSlot, Idle, PostToServer(t, Message));
    assert DoTick(s, Frame, 0) == u by {
      var none: map<nat, nat> := map[];
      assert none - {0} == none;
    }
    GuardedSnoc(before, steps, Tick(Frame, 0), u);
    assert DoPost(u) == v;
    GuardedSnoc(before + [u], steps + [Tick(Frame, 0)], Post, v);
    states, run := before + [u] + [v], steps + [Tick(Frame, 0)] + [Post];
  }

  const TwoSlots: Store := Store([Slot(1, Frame, 1), Slot(2, Reply, 1)], {}, 2)

  /** It fires again before the thread has looked. */
  lemma PostedAgain(before: seq<System>, steps: seq<Step>, t: Thread) returns (states: seq<System>, run: seq<Step>)
    requires Comes(before, steps, OneSlot, t)
    ensures Comes(states, run, TwoSlots, PostToServer(t, Msg(2, Reply, 1))) && run == steps + [Tick(Reply, 1), Post]
  {
    var s := Alone(OneSlot, Idle, t);
    var u := Alone(TwoSlots, Posting(Msg(2, Reply, 1), 0), t);
    var v := Alone(TwoSlots, Idle, PostToServer(t, Msg(2, Reply, 1)));
    assert DoTick(s, Reply, 1) == u by {
      var none: map<nat, nat> := map[];
      assert none - {1} == none;
    }
    GuardedSnoc(before, steps, Tick(Reply, 1), u);
    assert DoPost(u) == v;
    GuardedSnoc(before + [u], steps + [Tick(Reply, 1)], Post, v);
    states, run := before + [u] + [v], steps + [Tick(Reply, 1)] + [Post];
  }

  /** Two messages are posted before the thread reads its eventfd: one read collects both signals, and one message is
      left without a wake-up. */
  lemma CoalescedPost() returns (states: seq<System>, run: seq<Step>)
    ensures SafeRun(states, run) && |Last(states).threads| == 1
    ensures run == [Attach(0), Tick(Frame, 0), Post, Tick(Reply, 1), Post, OnThread(0, EfdRead), OnThread(0, Wake)]
    ensures var t := Last(states).threads[0];
            t.inbox == Channel([Msg(2, Reply, 1)], 0, false) && t.inbox.Stranded() == 1
  {
    var t := PostToServer(PostToServer(FreshThread(), Message), Msg(2, Reply, 1));
    assert t.inbox.queue == [Message, Msg(2, Reply, 1)];
    var woken := t.(inbox := t.inbox.Read(), serial := 1);
    states, run := Started();
    states, run := Posted(states, run, FreshThread());
    states, run := PostedAgain(states, run, PostToServer(FreshThread(), Message));
    states, run := OneTurn(states, run, TwoSlots, t, EfdRead, woken);
    states, run := OneTurn(states, run, TwoSlots, woken, Wake, Turn(woken, Wake));
  }

  // ----- a report left behind -----

  /** A thread without connections that has looked at a message and reported it. */
  function Reported(reports: seq<Msg>, serial: nat): Thread {
    FreshThread().(broadcastData := seq(|reports|, _ => Unset), outbox := Channel(reports, |reports|, false),
                   serial := serial)
  }

  lemma ReportedAtOnce(reports: seq<Msg>, m: Msg, serial: nat)
    requires m.item == |reports|
    ensures var t := PostToServer(Reported(reports, serial), m);
            var woken := Reported(reports, serial + 1).(inbox := Channel([m], 0, true));
            && Enabled(t, EfdRead) && Guarded(t, EfdRead) && Turn(t, EfdRead) == woken
            && Enabled(woken, Wake) && Guarded(woken, Wake) && Turn(woken, Wake) == Reported(reports + [m], serial + 2)
  {
    var woken := Reported(reports, serial + 1).(inbox := Channel([m], 0, false));
    assert [] + [m] == [m];
    assert Grown(woken.broadcastData, m.item) == seq(|reports| + 1, _ => Unset);
    assert EventCb(woken) == Reported(reports + [m], serial + 1);
  }

  lemma FirstReported() returns (states: seq<System>, run: seq<Step>)
    ensures Comes(states, run, OneSlot, Reported([Message], 2))
    ensures run == [Attach(0), Tick(Frame, 0), Post, OnThread(0, EfdRead), OnThread(0, Wake)]
  {
    var woken := Reported([], 1).(inbox := Channel([Message], 0, true));
    assert Reported([], 0) == FreshThread();
    ReportedAtOnce([], Message, 0);
    assert [] + [Message] == [Message];
    states, run := Started();
    states, run := Posted(states, run, FreshThread());
    states, run := OneTurn(states, run, OneSlot, PostToServer(FreshThread(), Message), EfdRead, woken);
    states, run := OneTurn(states, run, OneSlot, woken, Wake, Reported([Message], 2));
  }

  lemma BothReported() returns (states: seq<System>, run: seq<Step>)
    ensures Comes(states, run, TwoSlots, Reported([Message, Msg(2, Reply, 1)], 4))
    ensures run == [Attach(0), Tick(Frame, 0), Post, OnThread(0, EfdRead), OnThread(0, Wake),
                    Tick(Reply, 1), Post, OnThread(0, EfdRead), OnThread(0, Wake)]
  {
    var m := Msg(2, Reply, 1);
    var woken := Reported([Message], 3).(inbox := Channel([m], 0, true));
    ReportedAtOnce([Message], m, 2);
    assert [Message] + [m] == [Message, m];
    states, run := FirstReported();
    states, run := PostedAgain(states, run, Reported([Message], 2));
    states, run := OneTurn(states, run, TwoSlots, PostToServer(Reported([Message], 2), m), EfdRead, woken);
    states, run := OneTurn(states, run, TwoSlots, woken, Wake, Reported([Message, m], 4));
  }

  /** A thread reports two messages before the central thread reads its eventfd: one read collects both signals, one
      report is taken, and the other's slot stays occupied without a wake-up. */
  lemma CoalescedReport() returns (states: seq<System>, run: seq<Step>)
    ensures SafeRun(states, run) && |Last(states).threads| == 1
    ensures run == [Attach(0), Tick(Frame, 0), Post, OnThread(0, EfdRead), OnThread(0, Wake),
                    Tick(Reply, 1), Post, OnThread(0, EfdRead), OnThread(0, Wake), ProgramEfdRead(0), CentralWake(0)]
    ensures var t := Last(states).threads[0];
            && t.outbox == Channel([Msg(2, Reply, 1)], 0, false) && t.outbox.Stranded() == 1
            && Last(states).store == Store([Released, Slot(2, Reply, 1)], {0}, 2)
  {
    var m := Msg(2, Reply, 1);
    var t := Reported([Message, m], 4);
    var read := t.(outbox := t.outbox.Read());
    var a := Alone(TwoSlots, Idle, read);
    var b := Alone(Store([Released, Slot(2, Reply, 1)], {0}, 2), Idle, TakeReport(read));
    states, run := BothReported();
    assert [t][0 := read] == [read] && [read][0 := TakeReport(read)] == [TakeReport(read)];
    GuardedSnoc(states, run, ProgramEfdRead(0), a);
    assert DoCentralWake(a, 0) == b;
    GuardedSnoc(states + [a], run + [ProgramEfdRead(0)], CentralWake(0), b);
    states, run := states + [a] + [b], run + [ProgramEfdRead(0)] + [CentralWake(0)];
  }

  // ----- a buffer freed under the kernel -----

  const Greeted: Client := Client(-1, [], 0, [Reply], [Reply], Reply, 0)

  /** A thread whose only slot carries a websocket. */
  function Socket(c: Client, writes: map<ReqId, Request>, items: seq<BroadcastItem>, serial: nat): Thread {
    FreshThread().(clients := [c], active := {0}, websockets := {0}, inflight := writes, broadcastData := items,
                   files := Files(map[], map[0 := []]), serial := serial)
  }

  lemma Upgraded() returns (states: seq<System>, run: seq<Step>)
    ensures Comes(states, run, NoSlots, Socket(Served(First, Owned(Reply)),
                                               map[ReqId(0, 1) := Request(0, -1, 0, Owned(Reply))], [], 2))
    ensures run == [Attach(0), OnThread(0, Connect(0)), OnThread(0, Upgrade(0, Reply))]
  {
    var t := Seat(First, true, Files(map[], map[0 := []]), 1);
    states, run := Started();
    states, run := OneTurn(states, run, NoSlots, FreshThread(), Connect(0), t);
    WriteServes(t.(websockets := {0}), 0, Owned(Reply));
    states, run := OneTurn(states, run, NoSlots, t, Upgrade(0, Reply),
      Socket(Served(First, Owned(Reply)), map[ReqId(0, 1) := Request(0, -1, 0, Owned(Reply))], [], 2));
  }

  lemma UpgradeWritten()
    ensures var t := Socket(Served(First, Owned(Reply)), map[ReqId(0, 1) := Request(0, -1, 0, Owned(Reply))], [], 2);
            var e := Complete(ReqId(0, 1), 1, false);
            Enabled(t, e) && Guarded(t, e) && Turn(t, e) == Socket(Greeted, map[], [], 3)
  {
    var id := ReqId(0, 1);
    var t := Socket(Served(First, Owned(Reply)), map[id := Request(0, -1, 0, Owned(Reply))], [], 2);
    var c := Served(First, Owned(Reply));
    assert c == Client(-1, [Owned(Reply)], 1, [Reply], [], [], 0);
    assert Reply[0..1] == Reply && [] + Reply == Reply;
    var u := Accepted(t, id, 1);
    assert u.clients == [c.(wire := Reply)];
    var d := DropRequest(u, id);
    assert d.clients == [c.(wire := Reply, numWriteReqs := 0)] && d.inflight == map[];
    assert Advance(d, 0).clients == [Greeted];
    assert FinishedWrite(u, id, false) == Socket(Greeted, map[], [], 2);
  }

  const FannedOut: Client := Client(-1, [Shared(Message)], 1, [Reply, Frame], [Reply], Reply, 0)
  const HalfWritten: Client := FannedOut.(wire := [72, 129])

  lemma Fanned()
    ensures var t := Socket(Greeted, map[], [], 4).(inbox := Channel([Message], 0, true));
            Enabled(t, Wake) && Guarded(t, Wake)
            && Turn(t, Wake) == Socket(FannedOut, map[ReqId(0, 4) := Request(0, -1, 0, Shared(Message))],
                                       [BroadcastItem(1, Frame, 1)], 5)
  {
    var w := Socket(Greeted, map[], [], 4).(inbox := Channel([Message], 0, false));
    assert Grown([], 0) == [Unset];
    var t1 := w.(inbox := Channel([], 0, false), broadcastData := [BroadcastItem(1, Frame, 1)]);
    assert EventCb(w) == ServerThread.Broadcast(t1, Shared(Message));
    assert Served(Greeted, Shared(Message)) == FannedOut;
    assert FanOut([Greeted], {0}, Shared(Message)) == [FannedOut];
    assert Starts(t1, {0}, Shared(Message)) == map[ReqId(0, 4) := Request(0, -1, 0, Shared(Message))];
  }

  lemma FirstByteWritten()
    ensures var t := Socket(FannedOut, map[ReqId(0, 4) := Request(0, -1, 0, Shared(Message))],
                            [BroadcastItem(1, Frame, 1)], 5);
            var e := Complete(ReqId(0, 4), 1, false);
            Enabled(t, e) && Guarded(t, e)
            && Turn(t, e) == Socket(HalfWritten, map[ReqId(0, 4) := Request(0, -1, 1, Shared(Message))],
                                    [BroadcastItem(1, Frame, 1)], 6)
  {
    assert Frame[0..1] == [129] && Reply + [129] == [72, 129];
  }

  lemma WrittenHalf(before: seq<System>, steps: seq<Step>) returns (states: seq<System>, run: seq<Step>)
    requires Comes(before, steps, OneSlot, PostToServer(Socket(Greeted, map[], [], 3), Message))
    ensures Comes(states, run, OneSlot, Socket(HalfWritten, map[ReqId(0, 4) := Request(0, -1, 1, Shared(Message))],
                                               [BroadcastItem(1, Frame, 1)], 6))
    ensures run == steps + [OnThread(0, EfdRead), OnThread(0, Wake), OnThread(0, Complete(ReqId(0, 4), 1, false))]
  {
    var t := PostToServer(Socket(Greeted, map[], [], 3), Message);
    var woken := Socket(Greeted, map[], [], 4).(inbox := Channel([Message], 0, true));
    var fanned := Socket(FannedOut, map[ReqId(0, 4) := Request(0, -1, 0, Shared(Message))],
                         [BroadcastItem(1, Frame, 1)], 5);
    states, run := OneTurn(before, steps, OneSlot, t, EfdRead, woken);
    Fanned();
    states, run := OneTurn(states, run, OneSlot, woken, Wake, fanned);
    FirstByteWritten();
    states, run := OneTurn(states, run, OneSlot, fanned, Complete(ReqId(0, 4), 1, false),
      Socket(HalfWritten, map[ReqId(0, 4) := Request(0, -1, 1, Shared(Message))], [BroadcastItem(1, Frame, 1)], 6));
  }

  /** A websocket's first broadcast message, one byte written. */
  lemma MidWrite() returns (states: seq<System>, run: seq<Step>)
    ensures Comes(states, run, OneSlot, Socket(HalfWritten, map[ReqId(0, 4) := Request(0, -1, 1, Shared(Message))],
                                               [BroadcastItem(1, Frame, 1)], 6))
    ensures run == [Attach(0), OnThread(0, Connect(0)), OnThread(0, Upgrade(0, Reply)),
                    OnThread(0, Complete(ReqId(0, 1), 1, false)), Tick(Frame, 0), Post, OnThread(0, EfdRead),
                    OnThread(0, Wake), OnThread(0, Complete(ReqId(0, 4), 1, false))]
  {
    var idle := Socket(Greeted, map[], [], 3);
    states, run := Upgraded();
    UpgradeWritten();
    states, run := OneTurn(states, run, NoSlots,
      Socket(Served(First, Owned(Reply)), map[ReqId(0, 1) := Request(0, -1, 0, Owned(Reply))], [], 2),
      Complete(ReqId(0, 1), 1, false), idle);
    states, run := Posted(states, run, idle);
    states, run := WrittenHalf(states, run);
  }

  /** The thread after the sweep: its last use of the item is reported, and the kernel is still writing it. */
  function Reaped(): Thread {
    Socket(HalfWritten.(queue := []), map[ReqId(0, 4) := Request(0, -1, 1, Shared(Message))],
           [BroadcastItem(1, Frame, 0)], 7).(websockets := {}, outbox := Channel([Message], 1, false))
  }

  lemma Swept()
    ensures var t := Socket(HalfWritten, map[ReqId(0, 4) := Request(0, -1, 1, Shared(Message))],
                            [BroadcastItem(1, Frame, 1)], 6);
            Enabled(t, Sweep(0)) && !Guarded(t, Sweep(0)) && Turn(t, Sweep(0)) == Reaped()
  {
    var t := Socket(HalfWritten, map[ReqId(0, 4) := Request(0, -1, 1, Shared(Message))],
                    [BroadcastItem(1, Frame, 1)], 6);
    var d := DropFront(t, 0);
    assert HalfWritten.queue[1..] == [] && [] + [Message] == [Message];
    assert d == Reaped().(serial := 6);
    assert Drain(t, 0) == Drain(d, 0) == d;
  }

  const Refilled: Store := Store([Slot(2, Reply, 1)], {}, 2)

  /** The central thread takes the report, frees the slot, and stores the next frame in it. */
  lemma SlotReused(before: seq<System>, steps: seq<Step>) returns (states: seq<System>, run: seq<Step>)
    requires Run(before, steps) && Last(before) == Alone(OneSlot, Idle, Reaped())
    ensures Run(states, run) && before <= states
    ensures run == steps + [ProgramEfdRead(0), CentralWake(0), Tick(Reply, 0)]
    ensures Last(states).store == Refilled
    ensures Last(states).threads == [TakeReport(Reaped().(outbox := Reaped().outbox.Read()))]
  {
    var t := Reaped().(outbox := Reaped().outbox.Read());
    var u := TakeReport(Reaped().(outbox := Reaped().outbox.Read()));
    var a, b := Alone(OneSlot, Idle, t), Alone(Store([Released], {0}, 1), Idle, u);
    var c := Alone(Refilled, Posting(Msg(2, Reply, 0), 0), u);
    assert [Reaped()][0 := t] == [t] && [t][0 := u] == [u];
    RunSnoc(before, steps, ProgramEfdRead(0), a);
    assert DoCentralWake(a, 0) == b;
    RunSnoc(before + [a], steps + [ProgramEfdRead(0)], CentralWake(0), b);
    assert DoTick(b, Reply, 0) == c by {
      var none: map<nat, nat> := map[];
      assert none - {0} == none;
    }
    RunSnoc(before + [a] + [b], steps + [ProgramEfdRead(0)] + [CentralWake(0)], Tick(Reply, 0), c);
    states, run := before + [a] + [b] + [c], steps + [ProgramEfdRead(0)] + [CentralWake(0)] + [Tick(Reply, 0)];
  }

  /** The timer's sweep takes a connection with a write in flight, and its buffer is released and its slot refilled
      while the kernel is still writing from it.  The sweep is the only step of this run that is not guarded. */
  lemma SweepFreesBufferInUse() returns (states: seq<System>, run: seq<Step>)
    ensures Run(states, run) && Init(states[0])
    ensures run == [Attach(0), OnThread(0, Connect(0)), OnThread(0, Upgrade(0, Reply)),
                    OnThread(0, Complete(ReqId(0, 1), 1, false)), Tick(Frame, 0), Post, OnThread(0, EfdRead),
                    OnThread(0, Wake), OnThread(0, Complete(ReqId(0, 4), 1, false)), OnThread(0, Sweep(0)),
                    ProgramEfdRead(0), CentralWake(0), Tick(Reply, 0)]
    ensures SafeRun(states[..10], run[..9])
    ensures |Last(states).threads| == 1
    ensures var t := Last(states).threads[0];
            && ReqId(0, 4) in t.inflight && t.inflight[ReqId(0, 4)] == Request(0, -1, 1, Shared(Message))
            && Message.item < |Last(states).store.slots| && Last(states).store.slots[Message.item].data == Reply
            && !Matches(Last(states).store, Message)
  {
    var before, steps := MidWrite();
    var t := Socket(HalfWritten, map[ReqId(0, 4) := Request(0, -1, 1, Shared(Message))],
                    [BroadcastItem(1, Frame, 1)], 6);
    Swept();
    assert [t][0 := Reaped()] == [Reaped()];
    RunSnoc(before, steps, OnThread(0, Sweep(0)), Alone(OneSlot, Idle, Reaped()));
    states, run := SlotReused(before + [Alone(OneSlot, Idle, Reaped())], steps + [OnThread(0, Sweep(0))]);
    assert states[..10] == before && run[..9] == steps;
  }
}
