/** From frames to messages and replies (the frame loop of websocket_process_read_cb; sections 5.4 and 5.5 of
    RFC 6455). */
module WsMessages {
  import opened Bytes
  import opened WsFrames

  /** What the loop does that others can see. */
  datatype Event = Delivered(msg: Data) | Sent(frame: Data)

  datatype Progress = Progress(events: seq<Event>, fragments: Data, closed: bool)

  function PongFor(body: Data): Event
    requires |body| < 0x1_0000_0000_0000_0000
  {
    Sent(EncodeFrame(PONG, body))
  }

  function Deliver(msg: Data): seq<Event> {
    if msg == [] then [] else [Delivered(msg)]
  }

  predicate Bounded(d: Decoded) {
    d.Ping? ==> |d.body| < 0x1_0000_0000_0000_0000
  }

  /** One decoded frame, with the fragments collected so far.  A non-final fragment is put before them. */
  function React(fragments: Data, d: Decoded): Progress
    requires Bounded(d)
  {
    match d
    case Final(body) => Progress(Deliver(if fragments != [] then fragments + body else body), [], false)
    case Fragment(body) => Progress([], body + fragments, false)
    case Close => Progress([Sent(EncodeFrame(CLOSE, []))], [], true)
    case Ping(body) => Progress([PongFor(body)], fragments, false)
    case Unmasked => Progress([], fragments, false)
    case Pong => Progress([], fragments, false)
  }

  /** The loop over the frames of one read: it stops at a close frame. */
  function ReactAll(fragments: Data, ds: seq<Decoded>): Progress
    requires forall k :: 0 <= k < |ds| ==> Bounded(ds[k])
    decreases |ds|
  {
    if ds == [] then Progress([], fragments, false) else
      var p := React(fragments, ds[0]);
      if p.closed then p else
        var q := ReactAll(p.fragments, ds[1..]);
        q.(events := p.events + q.events)
  }

  // ----- from cut frames -----

  predicate Decodable(frames: seq<Data>) {
    forall k :: 0 <= k < |frames| ==> CutFrame(frames[k]) && |frames[k]| < 0x1_0000_0000_0000_0000
  }

  function DecodeAll(frames: seq<Data>): (ds: seq<Decoded>)
    requires Decodable(frames)
    ensures |ds| == |frames| && forall k :: 0 <= k < |ds| ==> ds[k] == Decode(frames[k]) && Bounded(ds[k])
  {
    seq(|frames|, k requires 0 <= k < |frames| => Decode(frames[k]))
  }

  // ----- control frames between fragments -----

  predicate IsData(d: Decoded) {
    d.Final? || d.Fragment?
  }

  function DataOnly(ds: seq<Decoded>): (r: seq<Decoded>)
    ensures forall k :: 0 <= k < |r| ==> IsData(r[k]) && r[k] in ds
  {
    if ds == [] then [] else (if IsData(ds[0]) then [ds[0]] else []) + DataOnly(ds[1..])
  }

  /** The bodies of the pings, in order. */
  function Pings(ds: seq<Decoded>): seq<Data> {
    if ds == [] then [] else (if ds[0].Ping? then [ds[0].body] else []) + Pings(ds[1..])
  }

  function Messages(es: seq<Event>): seq<Data> {
    if es == [] then [] else (if es[0].Delivered? then [es[0].msg] else []) + Messages(es[1..])
  }

  function Replies(es: seq<Event>): seq<Data> {
    if es == [] then [] else (if es[0].Sent? then [es[0].frame] else []) + Replies(es[1..])
  }

  lemma {:induction false} SplitEvents(a: seq<Event>, b: seq<Event>)
    ensures Messages(a + b) == Messages(a) + Messages(b) && Replies(a + b) == Replies(a) + Replies(b)
  {
    if a == [] {
      assert a + b == b;
    } else {
      assert (a + b)[0] == a[0] && (a + b)[1..] == a[1..] + b;
      SplitEvents(a[1..], b);
    }
  }

  lemma OneEvent(e: Event)
    ensures Messages([e]) == (if e.Delivered? then [e.msg] else [])
    ensures Replies([e]) == (if e.Sent? then [e.frame] else [])
  {
    assert [e][1..] == [];
  }

  predicate Open(ds: seq<Decoded>) {
    forall k :: 0 <= k < |ds| ==> Bounded(ds[k]) && ds[k] != Close
  }

  lemma DataOnlyOpen(ds: seq<Decoded>)
    requires Open(ds)
    ensures Open(DataOnly(ds))
  {
  }

  lemma ReactKind(fragments: Data, d: Decoded)
    requires Bounded(d) && d != Close
    ensures var p := React(fragments, d);
            && (!IsData(d) ==> Messages(p.events) == [] && p.fragments == fragments)
            && Replies(p.events) == (if d.Ping? then [EncodeFrame(PONG, d.body)] else [])
            && !p.closed
  {
    var p := React(fragments, d);
    if p.events != [] { OneEvent(p.events[0]); }
  }

  lemma ReactCons(fragments: Data, d: Decoded, rest: seq<Decoded>)
    requires Bounded(d) && d != Close && forall k :: 0 <= k < |rest| ==> Bounded(rest[k])
    ensures var p := React(fragments, d);
            var q := ReactAll(p.fragments, rest);
            ReactAll(fragments, [d] + rest) == q.(events := p.events + q.events)
  {
    assert ([d] + rest)[1..] == rest;
  }

  lemma OpenTail(ds: seq<Decoded>)
    requires Open(ds) && ds != []
    ensures Open(ds[1..]) && Bounded(ds[0]) && ds[0] != Close && ds == [ds[0]] + ds[1..]
  {
  }

  /** Control frames before a close leave the messages and the collected fragments alone. */
  lemma {:induction false} ControlFramesTransparent(fragments: Data, ds: seq<Decoded>)
    requires Open(ds)
    ensures Open(DataOnly(ds))
    ensures var p, q := ReactAll(fragments, ds), ReactAll(fragments, DataOnly(ds));
            Messages(p.events) == Messages(q.events) && p.fragments == q.fragments && !p.closed
    decreases |ds|
  {
    DataOnlyOpen(ds);
    if ds != [] {
      var d, rest := ds[0], ds[1..];
      var p := React(fragments, d);
      OpenTail(ds);
      ReactKind(fragments, d);
      ControlFramesTransparent(p.fragments, rest);
      ReactCons(fragments, d, rest);
      SplitEvents(p.events, ReactAll(p.fragments, rest).events);
      if IsData(d) {
        assert DataOnly(ds) == [d] + DataOnly(rest);
        ReactCons(fragments, d, DataOnly(rest));
        SplitEvents(p.events, ReactAll(p.fragments, DataOnly(rest)).events);
      } else {
        assert DataOnly(ds) == DataOnly(rest);
      }
    }
  }

  function PongsFor(bodies: seq<Data>): seq<Data>
    requires forall k :: 0 <= k < |bodies| ==> |bodies[k]| < 0x1_0000_0000_0000_0000
  {
    seq(|bodies|, k requires 0 <= k < |bodies| => EncodeFrame(PONG, bodies[k]))
  }

  lemma PongsForSplit(a: seq<Data>, b: seq<Data>)
    requires forall k :: 0 <= k < |a| ==> |a[k]| < 0x1_0000_0000_0000_0000
    requires forall k :: 0 <= k < |b| ==> |b[k]| < 0x1_0000_0000_0000_0000
    ensures forall k :: 0 <= k < |a + b| ==> |(a + b)[k]| < 0x1_0000_0000_0000_0000
    ensures PongsFor(a + b) == PongsFor(a) + PongsFor(b)
  {
  }

  /** Every ping before a close is answered by one pong with the same body, in order, and by nothing else. */
  lemma {:induction false} PingsAnswered(fragments: Data, ds: seq<Decoded>)
    requires Open(ds)
    ensures forall k :: 0 <= k < |Pings(ds)| ==> |Pings(ds)[k]| < 0x1_0000_0000_0000_0000
    ensures Replies(ReactAll(fragments, ds).events) == PongsFor(Pings(ds))
    decreases |ds|
  {
    if ds != [] {
      var p := React(fragments, ds[0]);
      ReactKind(fragments, ds[0]);
      PingsAnswered(p.fragments, ds[1..]);
      SplitEvents(p.events, ReactAll(p.fragments, ds[1..]).events);
      var one: seq<Data> := if ds[0].Ping? then [ds[0].body] else [];
      PongsForSplit(one, Pings(ds[1..]));
      assert Replies(p.events) == PongsFor(one);
    }
  }

  /** A close frame ends the loop: what follows it is not looked at. */
  lemma {:induction false} NothingAfterClose(fragments: Data, ds: seq<Decoded>, rest: seq<Decoded>)
    requires forall k :: 0 <= k < |ds| ==> Bounded(ds[k]) && ds[k] != Close
    requires forall k :: 0 <= k < |rest| ==> Bounded(rest[k])
    ensures ReactAll(fragments, ds + [Close] + rest)
         == Progress(ReactAll(fragments, ds).events + [Sent(EncodeFrame(CLOSE, []))], [], true)
    decreases |ds|
  {
    var all := ds + [Close] + rest;
    if ds == [] {
      assert all[0] == Close;
    } else {
      var p := React(fragments, ds[0]);
      assert all[0] == ds[0] && all[1..] == ds[1..] + [Close] + rest;
      NothingAfterClose(p.fragments, ds[1..], rest);
      assert p.events + (ReactAll(p.fragments, ds[1..]).events + [Sent(EncodeFrame(CLOSE, []))])
          == p.events + ReactAll(p.fragments, ds[1..]).events + [Sent(EncodeFrame(CLOSE, []))];
    }
  }

  // ----- fragments -----

  /** The frames of one fragmented message. */
  function FragmentsOf(parts: seq<Data>): seq<Decoded> {
    seq(|parts|, k requires 0 <= k < |parts| => Fragment(parts[k]))
  }

  function Reversed(parts: seq<Data>): seq<Data> {
    if parts == [] then [] else Reversed(parts[1..]) + [parts[0]]
  }

  lemma Joined(a: seq<Event>, b: seq<Event>, c: seq<Event>)
    ensures a + (b + c) == (a + b) + c
  {
  }

  lemma {:induction false} ReactAppend(fragments: Data, a: seq<Decoded>, b: seq<Decoded>)
    requires forall k :: 0 <= k < |a| ==> Bounded(a[k])
    requires forall k :: 0 <= k < |b| ==> Bounded(b[k])
    requires !ReactAll(fragments, a).closed
    ensures var p := ReactAll(fragments, a);
            var q := ReactAll(p.fragments, b);
            ReactAll(fragments, a + b) == q.(events := p.events + q.events)
    decreases |a|
  {
    if a == [] {
      assert a + b == b;
    } else {
      var d, rest := a[0], a[1..];
      var first := React(fragments, d);
      assert a == [d] + rest && a + b == [d] + (rest + b);
      assert forall k :: 0 <= k < |rest + b| ==> Bounded((rest + b)[k]);
      ReactCons(fragments, d, rest);
      ReactAppend(first.fragments, rest, b);
      ReactCons(fragments, d, rest + b);
      var p := ReactAll(first.fragments, rest);
      var q := ReactAll(p.fragments, b);
      Joined(first.events, p.events, q.events);
    }
  }

  lemma {:induction false} FragmentsCollect(fragments: Data, parts: seq<Data>)
    ensures ReactAll(fragments, FragmentsOf(parts)) == Progress([], Flatten(Reversed(parts)) + fragments, false)
    decreases |parts|
  {
    if parts != [] {
      var ds := FragmentsOf(parts);
      assert ds[0] == Fragment(parts[0]) && ds[1..] == FragmentsOf(parts[1..]);
      FragmentsCollect(parts[0] + fragments, parts[1..]);
      FlattenSnoc(Reversed(parts[1..]), parts[0]);
      assert Flatten(Reversed(parts[1..])) + (parts[0] + fragments) == Flatten(Reversed(parts)) + fragments;
    }
  }

  /** A fragmented message is delivered with its non-final fragments in reverse order. */
  lemma FragmentedMessage(parts: seq<Data>, last: Data)
    ensures ReactAll([], FragmentsOf(parts) + [Final(last)])
         == Progress(Deliver(Flatten(Reversed(parts)) + last), [], false)
  {
    FragmentsCollect([], parts);
    var collected := Flatten(Reversed(parts));
    assert collected + [] == collected;
    ReactAppend([], FragmentsOf(parts), [Final(last)]);
    assert ReactAll(collected, [Final(last)]).events == Deliver(if collected != [] then collected + last else last);
    if collected == [] { assert collected + last == last; }
  }

  // ----- when that is the message sent -----

  function NonEmpty(parts: seq<Data>): nat {
    if parts == [] then 0 else (if parts[0] != [] then 1 else 0) + NonEmpty(parts[1..])
  }

  lemma {:induction false} AllEmpty(parts: seq<Data>)
    requires NonEmpty(parts) == 0
    ensures Flatten(parts) == [] == Flatten(Reversed(parts))
  {
    if parts != [] {
      AllEmpty(parts[1..]);
      FlattenSnoc(Reversed(parts[1..]), parts[0]);
    }
  }

  lemma {:induction false} OneNonEmpty(parts: seq<Data>)
    requires NonEmpty(parts) <= 1
    ensures Flatten(Reversed(parts)) == Flatten(parts)
  {
    if parts != [] {
      FlattenSnoc(Reversed(parts[1..]), parts[0]);
      if parts[0] != [] {
        AllEmpty(parts[1..]);
      } else {
        OneNonEmpty(parts[1..]);
      }
    }
  }

  /** Fragments of the given sizes: the bytes of the first non-empty one are 0, those of the others 1. */
  function Telltale(sizes: seq<nat>): (r: seq<Data>)
    ensures |r| == |sizes| && forall k :: 0 <= k < |sizes| ==> |r[k]| == sizes[k]
  {
    if sizes == [] then []
    else if sizes[0] == 0 then [[]] + Telltale(sizes[1..])
    else
      [seq(sizes[0], _ => 0 as byte)]
      + seq(|sizes| - 1, k requires 0 <= k < |sizes| - 1 => seq(sizes[k + 1], _ => 1 as byte))
  }

  function Sizes(parts: seq<Data>): seq<nat> {
    seq(|parts|, k requires 0 <= k < |parts| => |parts[k]|)
  }

  /** A sequence of all-ones fragments, one of them not empty, starts with a one in either order. */
  lemma {:induction false} OnesFirst(parts: seq<Data>)
    requires forall k :: 0 <= k < |parts| ==> forall j :: 0 <= j < |parts[k]| ==> parts[k][j] == 1
    requires NonEmpty(parts) > 0
    ensures Flatten(Reversed(parts)) != [] && Flatten(Reversed(parts))[0] == 1
  {
    FlattenSnoc(Reversed(parts[1..]), parts[0]);
    if NonEmpty(parts[1..]) > 0 {
      OnesFirst(parts[1..]);
    } else {
      AllEmpty(parts[1..]);
    }
  }

  function NonZero(sizes: seq<nat>): nat {
    if sizes == [] then 0 else (if sizes[0] != 0 then 1 else 0) + NonZero(sizes[1..])
  }

  lemma {:induction false} CountBySize(parts: seq<Data>)
    ensures NonEmpty(parts) == NonZero(Sizes(parts))
  {
    if parts != [] {
      assert Sizes(parts)[1..] == Sizes(parts[1..]);
      CountBySize(parts[1..]);
    }
  }

  lemma {:induction false} TelltaleDiffers(sizes: seq<nat>)
    requires NonEmpty(Telltale(sizes)) >= 2
    ensures Flatten(Telltale(sizes)) != [] && Flatten(Telltale(sizes))[0] == 0
    ensures Flatten(Reversed(Telltale(sizes))) != [] && Flatten(Reversed(Telltale(sizes)))[0] == 1
  {
    var parts := Telltale(sizes);
    FlattenSnoc(Reversed(parts[1..]), parts[0]);
    if sizes[0] == 0 {
      assert parts[1..] == Telltale(sizes[1..]);
      TelltaleDiffers(sizes[1..]);
      assert Reversed(parts) == Reversed(parts[1..]) + [parts[0]];
      assert Flatten(parts) == parts[0] + Flatten(parts[1..]);
    } else {
      OnesFirst(parts[1..]);
      assert Flatten(parts)[0] == parts[0][0];
    }
  }

  /** Whatever the bytes, a message fragmented in these sizes is delivered as sent. */
  ghost predicate DeliveredAsSent(sizes: seq<nat>) {
    forall parts: seq<Data>, last: Data :: Sizes(parts) == sizes ==>
      ReactAll([], FragmentsOf(parts) + [Final(last)]).events == Deliver(Flatten(parts) + last)
  }

  /** Fragmented messages arrive as sent exactly when at most one non-final fragment has any bytes. */
  lemma FragmentsInOrderExact(sizes: seq<nat>)
    ensures DeliveredAsSent(sizes) <==> NonZero(sizes) <= 1
  {
    if NonZero(sizes) <= 1 {
      forall parts: seq<Data>, last: Data | Sizes(parts) == sizes
        ensures ReactAll([], FragmentsOf(parts) + [Final(last)]).events == Deliver(Flatten(parts) + last)
      {
        CountBySize(parts);
        OneNonEmpty(parts);
        FragmentedMessage(parts, last);
      }
    } else {
      var parts := Telltale(sizes);
      assert Sizes(parts) == sizes;
      CountBySize(parts);
      TelltaleDiffers(sizes);
      FragmentedMessage(parts, []);
      assert Flatten(parts) + [] == Flatten(parts) && Flatten(Reversed(parts)) + [] == Flatten(Reversed(parts));
      assert Deliver(Flatten(Reversed(parts))) != Deliver(Flatten(parts));
    }
  }

  // ----- a whole conversation -----

  /** A message as a client fragments it. */
  datatype Sending = Sending(parts: seq<Data>, last: Data)

  function FramesFor(ms: seq<Sending>): seq<Decoded> {
    if ms == [] then [] else FragmentsOf(ms[0].parts) + [Final(ms[0].last)] + FramesFor(ms[1..])
  }

  /** The messages themselves; empty ones are not handed to the application. */
  function MessagesFor(ms: seq<Sending>): seq<Data> {
    if ms == [] then [] else
      var whole := Flatten(ms[0].parts) + ms[0].last;
      (if whole == [] then [] else [whole]) + MessagesFor(ms[1..])
  }

  lemma {:induction false} FramesForOpen(ms: seq<Sending>)
    ensures Open(FramesFor(ms))
  {
    if ms != [] { FramesForOpen(ms[1..]); }
  }

  lemma {:induction false} DataFramesDeliver(ms: seq<Sending>)
    requires forall k :: 0 <= k < |ms| ==> NonEmpty(ms[k].parts) <= 1
    ensures Open(FramesFor(ms))
    ensures var p := ReactAll([], FramesFor(ms));
            Messages(p.events) == MessagesFor(ms) && p.fragments == [] && !p.closed
  {
    FramesForOpen(ms);
    if ms != [] {
      var m := ms[0];
      var first := FragmentsOf(m.parts) + [Final(m.last)];
      FragmentedMessage(m.parts, m.last);
      OneNonEmpty(m.parts);
      FramesForOpen(ms[1..]);
      ReactAppend([], first, FramesFor(ms[1..]));
      DataFramesDeliver(ms[1..]);
      var e := Deliver(Flatten(m.parts) + m.last);
      SplitEvents(e, ReactAll([], FramesFor(ms[1..])).events);
      if e != [] { OneEvent(e[0]); }
    }
  }

  /** Any number of messages, fragmented and interleaved with pings, pongs and unmasked frames, are delivered whole
      and in order, provided each has at most one non-empty fragment before its last. */
  lemma ConversationDelivered(ds: seq<Decoded>, ms: seq<Sending>)
    requires Open(ds) && DataOnly(ds) == FramesFor(ms)
    requires forall k :: 0 <= k < |ms| ==> NonEmpty(ms[k].parts) <= 1
    ensures var p := ReactAll([], ds);
            Messages(p.events) == MessagesFor(ms) && p.fragments == [] && !p.closed
  {
    ControlFramesTransparent([], ds);
    DataFramesDeliver(ms);
  }
}
