/** What a run of the whole system delivers: the frames the timer stores reach every started thread, once and in
    order, a thread takes them from its inbox in that order, and every websocket client is handed what its thread
    takes. */
module Delivery {
  import opened Bytes
  import opened ServerThread
  import opened ThreadInvariant
  import opened ThreadProofs
  import opened ThreadEffects
  import opened DataStore
  import opened Broadcast

  // ----- what adds up along a run -----

  function Concat<T>(parts: seq<seq<T>>): seq<T> {
    if parts == [] then [] else Concat(parts[..|parts| - 1]) + parts[|parts| - 1]
  }

  lemma Joined<T>(a: seq<T>, b: seq<T>, c: seq<T>)
    ensures a + (b + c) == (a + b) + c
  {
  }

  /** What is held and what arrives in the j-th step is what leaves and what is held then. */
  predicate Flows<T(==)>(arrives: seq<seq<T>>, leaves: seq<seq<T>>, held: seq<seq<T>>, j: nat) {
    && j < |arrives| && j < |leaves| && j + 1 < |held|
    && held[j] + arrives[j] == leaves[j] + held[j + 1]
  }

  /** If that is so in every step, it is so for all of them together, in order. */
  lemma {:induction false} FlowConserved<T>(arrives: seq<seq<T>>, leaves: seq<seq<T>>, held: seq<seq<T>>)
    requires |held| == |arrives| + 1 == |leaves| + 1
    requires forall j: nat :: j < |arrives| ==> Flows(arrives, leaves, held, j)
    ensures held[0] + Concat(arrives) == Concat(leaves) + held[|arrives|]
    decreases |arrives|
  {
    if arrives == [] {
      assert Concat(arrives) == [] && Concat(leaves) == [];
    } else {
      var m := |arrives| - 1;
      var a, l, h := arrives[..m], leaves[..m], held[..m + 1];
      forall j: nat | j < m ensures Flows(a, l, h, j) { assert Flows(arrives, leaves, held, j); }
      FlowConserved(a, l, h);
      assert Flows(arrives, leaves, held, m);
      Joined(held[0], Concat(arrives[..m]), arrives[m]);
      Joined(Concat(leaves[..m]), held[m], arrives[m]);
      Joined(Concat(leaves[..m]), leaves[m], held[m + 1]);
    }
  }

  // ----- what happens in a step -----

  function FrameIn(a: Step): seq<Data> {
    if a.Tick? then [a.frame] else []
  }

  /** The message posted to thread k in this step: the posting loop reaches it, and it has started. */
  function PostedIn(s: System, a: Step, k: nat): seq<Msg> {
    if a.Post? && s.posting.Posting? && s.posting.next == k < |s.attached| && s.attached[k] then [s.posting.msg] else []
  }

  /** The message thread k takes in this step: it wakes and finds one. */
  function TakenIn(s: System, a: Step, k: nat): seq<Msg> {
    if a == OnThread(k, Wake) && k < |s.threads| && s.threads[k].inbox.queue != [] then [s.threads[k].inbox.queue[0]]
    else []
  }

  /** What slot i of thread k is handed in this step. */
  ghost function HandedIn(s: System, a: Step, k: nat, i: nat): seq<SendItem> {
    if a.OnThread? && a.thread == k && k < |s.threads| then Handed(s.threads[k], a.event, i) else []
  }

  // ----- what happens in a run, or from its a-th step to its m-th -----

  function Ticked(run: seq<Step>): seq<Data> {
    Concat(seq(|run|, j requires 0 <= j < |run| => FrameIn(run[j])))
  }

  function PostedTo(states: seq<System>, run: seq<Step>, k: nat): seq<Msg>
    requires |run| <= |states|
  {
    Concat(seq(|run|, j requires 0 <= j < |run| => PostedIn(states[j], run[j], k)))
  }

  function TakenSteps(states: seq<System>, run: seq<Step>, k: nat, a: nat, m: nat): (r: seq<seq<Msg>>)
    requires a <= m <= |run| <= |states|
    ensures |r| == m - a && forall j :: 0 <= j < m - a ==> r[j] == TakenIn(states[a + j], run[a + j], k)
  {
    seq(m - a, j requires 0 <= j < m - a => TakenIn(states[a + j], run[a + j], k))
  }

  function TakenBy(states: seq<System>, run: seq<Step>, k: nat, a: nat, m: nat): seq<Msg>
    requires a <= m <= |run| <= |states|
  {
    Concat(TakenSteps(states, run, k, a, m))
  }

  ghost function HandedSteps(states: seq<System>, run: seq<Step>, k: nat, i: nat, a: nat, m: nat)
      : (r: seq<seq<SendItem>>)
    requires a <= m <= |run| <= |states|
    ensures |r| == m - a && forall j :: 0 <= j < m - a ==> r[j] == HandedIn(states[a + j], run[a + j], k, i)
  {
    seq(m - a, j requires 0 <= j < m - a => HandedIn(states[a + j], run[a + j], k, i))
  }

  ghost function HandedTo(states: seq<System>, run: seq<Step>, k: nat, i: nat, a: nat, m: nat): seq<SendItem>
    requires a <= m <= |run| <= |states|
  {
    Concat(HandedSteps(states, run, k, i, a, m))
  }

  // ----- from the timer to the inboxes -----

  function Bodies(ms: seq<Msg>): seq<Data> {
    seq(|ms|, k requires 0 <= k < |ms| => ms[k].data)
  }

  lemma {:induction false} BodiesThrough(parts: seq<seq<Msg>>, images: seq<seq<Data>>)
    requires |images| == |parts| && forall j :: 0 <= j < |parts| ==> images[j] == Bodies(parts[j])
    ensures Bodies(Concat(parts)) == Concat(images)
    decreases |parts|
  {
    if parts == [] {
      assert Bodies(Concat(parts)) == [];
    } else {
      var m := |parts| - 1;
      BodiesThrough(parts[..m], images[..m]);
      assert Bodies(Concat(parts[..m]) + parts[m]) == Bodies(Concat(parts[..m])) + Bodies(parts[m]);
    }
  }

  /** The frame the posting loop still has to take to thread k. */
  function OnItsWay(s: System, k: nat): seq<Data> {
    if s.posting.Posting? && s.posting.next <= k then [s.posting.msg.data] else []
  }

  /** Thread k has started, and posting is on its way to a thread there is. */
  predicate Started(s: System, k: nat) {
    && k < |s.threads| == |s.attached| && s.attached[k]
    && (s.posting.Posting? ==> s.posting.next < |s.threads|)
  }

  lemma StepPosts(s: System, a: Step, u: System, k: nat)
    requires Started(s, k) && Leads(s, a, u)
    ensures Started(u, k)
    ensures OnItsWay(s, k) + FrameIn(a) == Bodies(PostedIn(s, a, k)) + OnItsWay(u, k)
  {
  }

  lemma StaysStarted(states: seq<System>, run: seq<Step>, k: nat)
    requires Run(states, run) && Started(states[0], k)
    ensures forall j :: 0 <= j <= |run| ==> Started(states[j], k)
  {
    for m := 0 to |run|
      invariant forall j :: 0 <= j <= m ==> Started(states[j], k)
    {
      assert Leads(states[m], run[m], states[m + 1]);
      StepPosts(states[m], run[m], states[m + 1], k);
    }
  }

  /** From any state in which a thread has started and the posting loop rests: the messages posted to it carry the
      frames the timer stores, each once, in order, but for the one under way. */
  lemma FramesArePosted(states: seq<System>, run: seq<Step>, k: nat)
    requires Run(states, run) && Started(states[0], k) && states[0].posting.Idle?
    ensures Bodies(PostedTo(states, run, k)) + OnItsWay(Last(states), k) == Ticked(run)
  {
    var n := |run|;
    var posted := seq(n, j requires 0 <= j < n => PostedIn(states[j], run[j], k));
    var bodies: seq<seq<Data>> := seq(n, j requires 0 <= j < n => Bodies(posted[j]));
    var held: seq<seq<Data>> := seq(n + 1, j requires 0 <= j <= n => OnItsWay(states[j], k));
    var frames: seq<seq<Data>> := seq(n, j requires 0 <= j < n => FrameIn(run[j]));
    StaysStarted(states, run, k);
    forall j: nat | j < n ensures Flows(frames, bodies, held, j) {
      assert Leads(states[j], run[j], states[j + 1]);
      StepPosts(states[j], run[j], states[j + 1], k);
    }
    FlowConserved(frames, bodies, held);
    BodiesThrough(posted, bodies);
    assert held[0] + Concat(frames) == Concat(frames);
  }

  // ----- from the inbox to the connections -----

  lemma TurnTakes(t: Thread, e: Event)
    requires ThreadInv(t) && Enabled(t, e)
    ensures e.Wake? ==> t.inbox.queue != []
    ensures t.inbox.queue == (if e.Wake? then [t.inbox.queue[0]] else []) + Turn(t, e).inbox.queue
  {
    if e.Wake? {
      WakeKeepsSignals(t);
    } else if !e.EfdRead? && !e.Connect? && !e.Ask? {
      HandleOnlyReports(t, e);
    }
  }

  /** The messages waiting for thread k. */
  function Inbox(s: System, k: nat): seq<Msg> {
    if k < |s.threads| then s.threads[k].inbox.queue else []
  }

  lemma StepTakes(s: System, a: Step, u: System, k: nat)
    requires SystemInv(s) && Leads(s, a, u)
    ensures Inbox(s, k) + PostedIn(s, a, k) == TakenIn(s, a, k) + Inbox(u, k)
  {
    if a.OnThread? && a.thread == k { TurnTakes(s.threads[k], a.event); }
  }

  lemma SoundAt(states: seq<System>, run: seq<Step>, m: nat)
    requires SafeRun(states, run) && m <= |run|
    ensures SystemInv(states[m])
  {
    RunExact(states, run);
  }

  /** What waits for thread k and what is posted to it in the m-th step is what it takes then and what waits after. */
  ghost predicate TakesAt(states: seq<System>, run: seq<Step>, k: nat, m: nat)
    requires m < |run| < |states|
  {
    Inbox(states[m], k) + PostedIn(states[m], run[m], k) == TakenIn(states[m], run[m], k) + Inbox(states[m + 1], k)
  }

  lemma RunTakes(states: seq<System>, run: seq<Step>, k: nat, m: nat)
    requires SafeRun(states, run) && m < |run|
    ensures TakesAt(states, run, k, m)
  {
    assert Leads(states[m], run[m], states[m + 1]);
    SoundAt(states, run, m);
    StepTakes(states[m], run[m], states[m + 1], k);
  }

  lemma TakesAddUp(states: seq<System>, run: seq<Step>, k: nat)
    requires |states| == |run| + 1 && Inbox(states[0], k) == []
    requires forall j: nat :: j < |run| ==> TakesAt(states, run, k, j)
    ensures PostedTo(states, run, k) == TakenBy(states, run, k, 0, |run|) + Inbox(Last(states), k)
  {
    var n := |run|;
    var posted := seq(n, j requires 0 <= j < n => PostedIn(states[j], run[j], k));
    var taken := TakenSteps(states, run, k, 0, n);
    var held := seq(n + 1, j requires 0 <= j <= n => Inbox(states[j], k));
    forall j: nat | j < n ensures Flows(posted, taken, held, j) { assert TakesAt(states, run, k, j); }
    FlowConserved(posted, taken, held);
    assert held[0] + Concat(posted) == Concat(posted);
  }

  /** In every guarded run a thread takes the messages posted to it in the order in which they were posted, each once;
      the others wait in its inbox. */
  lemma PostsTakenInOrder(states: seq<System>, run: seq<Step>, k: nat)
    requires SafeRun(states, run)
    ensures PostedTo(states, run, k) == TakenBy(states, run, k, 0, |run|) + Inbox(Last(states), k)
  {
    forall j: nat | j < |run| ensures TakesAt(states, run, k, j) { RunTakes(states, run, k, j); }
    TakesAddUp(states, run, k);
  }

  /** And when it takes one, it hands it to every websocket client of that moment, behind what is queued there, and to
      no other connection; if there is none, it reports it. */
  lemma TakenIsHandedOn(states: seq<System>, run: seq<Step>, m: nat, k: nat)
    requires SafeRun(states, run) && m < |run| && run[m] == OnThread(k, Wake)
    ensures k < |states[m].threads| == |states[m + 1].threads|
    ensures HandedOn(states[m].threads[k], states[m + 1].threads[k])
  {
    SoundAt(states, run, m);
    assert Leads(states[m], run[m], states[m + 1]);
    WakeHandsOn(states[m].threads[k]);
  }

  // ----- what a websocket client is handed -----

  /** The broadcast messages among these. */
  function SharedIn(q: seq<SendItem>): seq<Msg> {
    if q == [] then [] else (if q[0].Shared? then [q[0].msg] else []) + SharedIn(q[1..])
  }

  lemma {:induction false} SharedAppend(a: seq<SendItem>, b: seq<SendItem>)
    ensures SharedIn(a + b) == SharedIn(a) + SharedIn(b)
  {
    if a == [] {
      assert a + b == b;
    } else {
      assert (a + b)[0] == a[0] && (a + b)[1..] == a[1..] + b;
      SharedAppend(a[1..], b);
    }
  }

  /** Slot i of thread k carries a websocket client. */
  ghost predicate IsSocket(s: System, k: nat, i: nat) {
    k < |s.threads| && i < |s.threads[k].clients| && i in s.threads[k].websockets
  }

  /** Everything queued so far for the connection in slot i of thread k. */
  function Stream(s: System, k: nat, i: nat): seq<Data> {
    if k < |s.threads| && i < |s.threads[k].clients| then s.threads[k].clients[i].posted else []
  }

  lemma TurnHands(t: Thread, e: Event, i: nat)
    requires ThreadInv(t) && Enabled(t, e) && Guarded(t, e) && i < |t.clients| && i in t.websockets
    ensures var u := Turn(t, e);
            |u.clients| >= |t.clients| && u.clients[i].posted == t.clients[i].posted + Payloads(Handed(t, e, i))
    ensures SharedIn(Handed(t, e, i)) == if e.Wake? && t.inbox.queue != [] then [t.inbox.queue[0]] else []
  {
    TurnFollows(t, e, i);
    ConnectExact(t, i);
    var h := Handed(t, e, i);
    if h != [] { assert h[1..] == []; }
  }

  lemma StepHands(s: System, a: Step, u: System, k: nat, i: nat)
    requires SystemInv(s) && Leads(s, a, u) && Guards(s, a) && IsSocket(s, k, i)
    ensures Stream(u, k, i) == Stream(s, k, i) + Payloads(HandedIn(s, a, k, i))
    ensures SharedIn(HandedIn(s, a, k, i)) == TakenIn(s, a, k)
  {
    assert Payloads([]) == [];
    if a.OnThread? && a.thread == k { TurnHands(s.threads[k], a.event, i); }
  }

  /** The m-th step queues for the connection what it hands to it. */
  ghost predicate GrowsAt(states: seq<System>, run: seq<Step>, k: nat, i: nat, m: nat)
    requires m < |run| < |states|
  {
    Stream(states[m + 1], k, i) == Stream(states[m], k, i) + Payloads(HandedIn(states[m], run[m], k, i))
  }

  /** The message the thread takes in the m-th step is the one broadcast message among that. */
  ghost predicate SharesAt(states: seq<System>, run: seq<Step>, k: nat, i: nat, m: nat)
    requires m < |run| < |states|
  {
    SharedIn(HandedIn(states[m], run[m], k, i)) == TakenIn(states[m], run[m], k)
  }

  lemma RunHands(states: seq<System>, run: seq<Step>, k: nat, i: nat, m: nat)
    requires SafeRun(states, run) && m < |run| && IsSocket(states[m], k, i)
    ensures GrowsAt(states, run, k, i, m) && SharesAt(states, run, k, i, m)
  {
    assert Leads(states[m], run[m], states[m + 1]) && Guards(states[m], run[m]);
    SoundAt(states, run, m);
    StepHands(states[m], run[m], states[m + 1], k, i);
  }

  lemma {:induction false} SharedThrough(parts: seq<seq<SendItem>>, images: seq<seq<Msg>>)
    requires |images| == |parts| && forall j :: 0 <= j < |parts| ==> images[j] == SharedIn(parts[j])
    ensures SharedIn(Concat(parts)) == Concat(images)
    decreases |parts|
  {
    if parts == [] {
      assert SharedIn(Concat(parts)) == [];
    } else {
      var m := |parts| - 1;
      SharedThrough(parts[..m], images[..m]);
      SharedAppend(Concat(parts[..m]), parts[m]);
    }
  }

  lemma TakenIsHanded(states: seq<System>, run: seq<Step>, k: nat, i: nat, a: nat, m: nat)
    requires a <= m <= |run| < |states| && forall j :: a <= j < m ==> SharesAt(states, run, k, i, j)
    ensures SharedIn(HandedTo(states, run, k, i, a, m)) == TakenBy(states, run, k, a, m)
  {
    var handed, taken := HandedSteps(states, run, k, i, a, m), TakenSteps(states, run, k, a, m);
    forall j | 0 <= j < m - a ensures taken[j] == SharedIn(handed[j]) { assert SharesAt(states, run, k, i, a + j); }
    SharedThrough(handed, taken);
  }

  lemma PayloadsAppend(a: seq<SendItem>, b: seq<SendItem>)
    ensures Payloads(a + b) == Payloads(a) + Payloads(b)
  {
  }

  lemma HandedNext(states: seq<System>, run: seq<Step>, k: nat, i: nat, a: nat, m: nat)
    requires a < m <= |run| <= |states|
    ensures HandedTo(states, run, k, i, a, m)
         == HandedTo(states, run, k, i, a, m - 1) + HandedIn(states[m - 1], run[m - 1], k, i)
  {
    assert HandedSteps(states, run, k, i, a, m)[..m - a - 1] == HandedSteps(states, run, k, i, a, m - 1);
  }

  lemma StreamNext(states: seq<System>, run: seq<Step>, k: nat, i: nat, a: nat, m: nat)
    requires a < m <= |run| < |states| && GrowsAt(states, run, k, i, m - 1)
    requires GrownBy(states, run, k, i, a, m - 1)
    ensures GrownBy(states, run, k, i, a, m)
  {
    var before, now := HandedTo(states, run, k, i, a, m - 1), HandedIn(states[m - 1], run[m - 1], k, i);
    HandedNext(states, run, k, i, a, m);
    assert states[m - 1 + 1] == states[m];
    PayloadsAppend(before, now);
    Joined(Stream(states[a], k, i), Payloads(before), Payloads(now));
  }

  lemma NothingHanded(states: seq<System>, run: seq<Step>, k: nat, i: nat, a: nat)
    requires a <= |run| < |states|
    ensures GrownBy(states, run, k, i, a, a)
  {
    assert HandedTo(states, run, k, i, a, a) == [] && Payloads([]) == [];
  }

  /** What has been added to the connection's stream since the a-th step is what it was handed. */
  ghost predicate GrownBy(states: seq<System>, run: seq<Step>, k: nat, i: nat, a: nat, m: nat)
    requires a <= m <= |run| < |states|
  {
    Stream(states[m], k, i) == Stream(states[a], k, i) + Payloads(HandedTo(states, run, k, i, a, m))
  }

  lemma {:induction false} StreamGrows(states: seq<System>, run: seq<Step>, k: nat, i: nat, a: nat, m: nat)
    requires a <= m <= |run| < |states| && forall j :: a <= j < m ==> GrowsAt(states, run, k, i, j)
    ensures GrownBy(states, run, k, i, a, m)
    decreases m
  {
    if m == a {
      NothingHanded(states, run, k, i, a);
    } else {
      StreamGrows(states, run, k, i, a, m - 1);
      StreamNext(states, run, k, i, a, m);
    }
  }

  /** As long as a slot carries a websocket client it is handed every message its thread takes, each once and in order,
      among its own replies; and that is what is added to its stream. */
  lemma SocketGetsEachMessage(states: seq<System>, run: seq<Step>, k: nat, i: nat, a: nat, m: nat)
    requires SafeRun(states, run) && a <= m <= |run|
    requires forall j :: a <= j < m ==> IsSocket(states[j], k, i)
    ensures SharedIn(HandedTo(states, run, k, i, a, m)) == TakenBy(states, run, k, a, m)
    ensures GrownBy(states, run, k, i, a, m)
  {
    forall j | a <= j < m ensures GrowsAt(states, run, k, i, j) && SharesAt(states, run, k, i, j) {
      RunHands(states, run, k, i, j);
    }
    TakenIsHanded(states, run, k, i, a, m);
    StreamGrows(states, run, k, i, a, m);
  }
}
