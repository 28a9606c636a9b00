/** The central thread's loop body as it runs, with no server thread acting in between. */
module CentralServer {
  import opened Bytes
  import opened ServerThread
  import opened DataStore
  import opened Broadcast

  /** The posting loop run to its end. */
  function PostAll(s: System): System
    requires |s.threads| == |s.attached|
    requires s.posting.Posting? ==> s.posting.next < |s.threads|
    decreases if s.posting.Posting? then |s.threads| - s.posting.next else 0
  {
    if s.posting.Idle? then s else PostAll(DoPost(s))
  }

  function Posts(n: nat): seq<Step> {
    if n == 0 then [] else [Post] + Posts(n - 1)
  }

  lemma {:induction false} PostAllIsRun(s: System) returns (states: seq<System>)
    requires |s.threads| == |s.attached|
    requires s.posting.Posting? && s.posting.next < |s.threads|
    ensures Run(states, Posts(|s.threads| - s.posting.next)) && states[0] == s && Last(states) == PostAll(s)
    decreases |s.threads| - s.posting.next
  {
    var u := DoPost(s);
    var n := |s.threads| - s.posting.next;
    var rest := [u];
    assert Leads(s, Post, u);
    if u.posting.Posting? {
      rest := PostAllIsRun(u);
    } else {
      assert Posts(0) == [] && Run([u], []);
    }
    RunCons(s, Post, rest, Posts(n - 1));
    states := [s] + rest;
  }

  /** What the timer does in one go is a run of the protocol: a tick, then one post for each thread. */
  lemma TimerIsRun(s: System, frame: Data, item: nat) returns (states: seq<System>)
    requires |s.threads| == |s.attached| >= 1 && s.posting.Idle? && Insertable(s.store, item)
    ensures Run(states, [Tick(frame, item)] + Posts(|s.threads|))
    ensures states[0] == s && Last(states) == PostAll(DoTick(s, frame, item))
  {
    var u := DoTick(s, frame, item);
    var rest := PostAllIsRun(u);
    assert Leads(s, Tick(frame, item), u);
    RunCons(s, Tick(frame, item), rest, Posts(|s.threads|));
    states := [s] + rest;
  }

  /** What the posting loop leaves: every thread from the next one on that has started has the message at the back of
      its inbox, and one signal more; nothing else has changed for it, nor anything for the others. */
  lemma {:induction false} PostAllExact(s: System, k: nat)
    requires s.posting.Posting? && s.posting.next < |s.threads| == |s.attached| && k < |s.threads|
    ensures var u := PostAll(s);
            && u.posting.Idle? && u.store == s.store && u.attached == s.attached && |u.threads| == |s.threads|
            && u.threads[k]
                 == if k >= s.posting.next && s.attached[k] then
                      s.threads[k].(inbox := Channel(s.threads[k].inbox.queue + [s.posting.msg],
                                                     s.threads[k].inbox.efd + 1, s.threads[k].inbox.woken))
                    else s.threads[k]
    decreases |s.threads| - s.posting.next
  {
    var u := DoPost(s);
    if u.posting.Posting? { PostAllExact(u, k); }
  }

  /** When the timer has fired the frame stands in a slot of its own, with one use for each thread, and is the last
      message of every thread that has started; the other slots are as before. */
  lemma TimerExact(s: System, frame: Data, item: nat, k: nat)
    requires k < |s.threads| == |s.attached| && s.posting.Idle? && Insertable(s.store, item)
    ensures var u := PostAll(DoTick(s, frame, item));
            && u.posting.Idle? && |u.threads| == |s.threads| && u.store.Live(item)
            && u.store.slots[item].data == frame && u.store.slots[item].uses == |s.threads|
            && (forall other: nat :: other != item ==> u.store.Live(other) == s.store.Live(other))
            && (forall other: nat :: other != item && s.store.Live(other) ==>
                  u.store.slots[other] == s.store.slots[other])
            && var before, after := s.threads[k], u.threads[k];
               var msg := Msg(u.store.slots[item].ptr, frame, item);
               var inbox := Channel(before.inbox.queue + [msg], before.inbox.efd + 1, before.inbox.woken);
               after == if s.attached[k] then before.(inbox := inbox) else before
  {
    PostAllExact(DoTick(s, frame, item), k);
  }

  /** A report taken is the oldest one, and costs its slot one use; at zero the slot is free. */
  lemma ReportTaken(s: System, k: nat)
    requires SystemInv(s) && CanStep(s, CentralWake(k))
    ensures var u, reports := DoCentralWake(s, k), s.threads[k].outbox.queue;
            && reports != [] && u.threads[k].outbox.queue == reports[1..]
            && u.threads == s.threads[k := u.threads[k]] && |u.store.slots| == |s.store.slots|
            && s.store.Live(reports[0].item)
            && (u.store.Live(reports[0].item) <==> s.store.slots[reports[0].item].uses > 1)
            && (u.store.Live(reports[0].item) ==>
                  u.store.slots[reports[0].item]
                    == s.store.slots[reports[0].item].(uses := s.store.slots[reports[0].item].uses - 1))
            && forall other: nat :: other != reports[0].item && other < |s.store.slots| ==>
                 u.store.slots[other] == s.store.slots[other] && u.store.Live(other) == s.store.Live(other)
  {
    TakenReport(s.threads[k]);
    ReportIsLive(s, k);
    assert Balanced(s, s.threads[k].outbox.queue[0].item);
  }

  class Central {
    const store: Buffers
    var threads: seq<Thread>
    var attached: seq<bool>
    ghost var missed: map<nat, nat>

    ghost function View(): System
      reads this, store
    {
      System(store.View(), Idle, threads, attached, missed)
    }

    constructor (threads: seq<Thread>, attached: seq<bool>)
      ensures fresh(store) && View() == System(Store([], {}, 0), Idle, threads, attached, map[])
    {
      this.store := new Buffers();
      this.threads, this.attached, this.missed := threads, attached, map[];
    }

    /** One turn of the posting loop. */
    method PostTo(k: nat, msg: Msg)
      requires k < |threads| == |attached|
      modifies this
      ensures attached == old(attached) && |threads| == |old(threads)|
      ensures View().(posting := if k + 1 < |threads| then Posting(msg, k + 1) else Idle)
           == DoPost(old(View()).(posting := Posting(msg, k)))
    {
      if attached[k] {
        threads := threads[k := PostToServer(threads[k], msg)];
      } else {
        missed := missed[msg.item := (if msg.item in missed then missed[msg.item] else 0) + 1];
      }
    }

    /** The timer fires: the frame is stored with one use per thread and posted to every thread.  `ptr` is the
        address of the frame's buffer. */
    method OnTimer(frame: Data, ptr: nat) returns (item: nat)
      requires |threads| == |attached| >= 1
      requires forall i :: i in store.freeIdxs ==> i < |store.dataVec|
      requires ptr == store.allocations + 1
      modifies this, store
      ensures Insertable(old(View()).store, item)
      ensures View() == PostAll(DoTick(old(View()), frame, item))
    {
      ghost var before := View();
      item := store.Insert(ptr, frame, |threads|);
      var msg := Msg(ptr, frame, item);
      missed := missed - {item};
      ghost var ticked := DoTick(before, frame, item);
      ghost var step := ticked;
      for k := 0 to |threads|
        invariant |threads| == |before.threads| == |attached|
        invariant step == View().(posting := if k < |threads| then Posting(msg, k) else Idle)
        invariant PostAll(step) == PostAll(ticked)
      {
        step := DoPost(step);
        PostTo(k, msg);
      }
    }

    /** A thread's eventfd was read: one finished message is taken and its item freed once. */
    method OnReport(k: nat)
      requires k < |threads|
      modifies this, store
      ensures View() == DoCentralWake(old(View()), k)
    {
      var t := threads[k];
      var msg := t.outbox.Front();
      threads := threads[k := TakeReport(t)];
      if msg.item < |store.dataVec| {
        store.Free(msg.item);
      }
    }
  }
}
