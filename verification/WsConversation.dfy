/** From what a client sends to what the server hears, through any splitting of the stream into reads. */
module WsConversation {
  import opened Bytes
  import opened WsFrames
  import opened WsStream
  import opened WsMessages

  /** A masked frame a client sends. */
  datatype Send = Send(fin: bool, opcode: byte, payload: Data, key: Data) {
    predicate Ok() {
      opcode < 16 && |key| == 4 && |payload| < 0x7FFF_FFF0
    }

    function Frame(): Data
      requires Ok()
    {
      ClientFrame(fin, opcode, payload, key)
    }

    function Meaning(): Decoded {
      if opcode == CLOSE then Close
      else if opcode == PONG then Pong
      else if opcode == PING then Ping(payload)
      else if fin then Final(payload)
      else Fragment(payload)
    }
  }

  predicate AllOk(sends: seq<Send>) {
    forall k :: 0 <= k < |sends| ==> sends[k].Ok()
  }

  function FramesOf(sends: seq<Send>): (r: seq<Data>)
    requires AllOk(sends)
    ensures |r| == |sends|
  {
    seq(|sends|, k requires 0 <= k < |sends| => sends[k].Frame())
  }

  function Meanings(sends: seq<Send>): (r: seq<Decoded>)
    ensures |r| == |sends|
  {
    seq(|sends|, k requires 0 <= k < |sends| => sends[k].Meaning())
  }

  // ----- a client's stream is cut into its frames -----

  lemma {:induction false} BigEndianLower(s: Data)
    requires s != []
    ensures BigEndian(s) >= s[0] * Pow256(|s| - 1)
    decreases |s|
  {
    if |s| > 1 {
      BigEndianLower(s[..|s| - 1]);
      assert s[0] * Pow256(|s| - 1) == 256 * (s[0] * Pow256(|s| - 2));
    } else {
      assert s[..0] == [];
    }
  }

  lemma ShortTopByte(s: Data)
    requires |s| >= 10 && Len7(s) == 127 && FrameSize(s) < 0x8000_0000
    ensures s[2] < 128
  {
    var field := s[2..10];
    BigEndianLower(field);
    assert field[0] == s[2];
    assert Pow256(3) == 0x100_0000 && Pow256(7) == Pow256(3) * Pow256(4);
    assert Pow256(7) == 0x100_0000_0000_0000;
  }

  /** One client frame in front of a stream. */
  lemma FrameInFront(x: Send, rest: Data)
    requires x.Ok()
    ensures var s := x.Frame() + rest;
            && Complete(s) && FrameSize(s) == |x.Frame()| < 0x8000_0000
            && s[..FrameSize(s)] == x.Frame() && s[FrameSize(s)..] == rest
            && (Len7(s) == 127 ==> s[2] < 128)
            && CutFrame(x.Frame()) && Decode(x.Frame()) == x.Meaning()
  {
    var f := x.Frame();
    ClientHeader(x.fin, x.opcode, x.payload, x.key);
    DecodeInverts(x.fin, x.opcode, x.payload, x.key);
    HeaderOfAppend(f, rest);
    if Len7(f) == 127 { ShortTopByte(f); }
  }

  lemma ClientFramesDecode(sends: seq<Send>)
    requires AllOk(sends)
    ensures Decodable(FramesOf(sends)) && DecodeAll(FramesOf(sends)) == Meanings(sends)
  {
    forall k | 0 <= k < |sends|
      ensures CutFrame(FramesOf(sends)[k]) && |FramesOf(sends)[k]| < 0x8000_0000
              && Decode(FramesOf(sends)[k]) == sends[k].Meaning()
    {
      FrameInFront(sends[k], []);
      assert sends[k].Frame() + [] == sends[k].Frame();
    }
  }

  lemma {:induction false} ClientStreamCuts(sends: seq<Send>)
    requires AllOk(sends)
    ensures var s := Flatten(FramesOf(sends));
            Frames(s) == FramesOf(sends) && Tail(s) == [] && LengthBitsOk(s) && SizesFit(s)
  {
    if sends != [] {
      var rest := FramesOf(sends[1..]);
      ClientStreamCuts(sends[1..]);
      FrameInFront(sends[0], Flatten(rest));
      assert FramesOf(sends)[0] == sends[0].Frame() && FramesOf(sends)[1..] == rest;
      assert FramesOf(sends) == [sends[0].Frame()] + rest;
    }
  }

  // ----- read by read -----

  /** What the server has heard after these reads: each read's frames are handled before the next read. */
  ghost function Heard(splice: Splice, chunks: seq<Data>): Progress
    decreases |chunks|
  {
    if chunks == [] then Progress([], [], false) else
      var last := |chunks| - 1;
      var before := Heard(splice, chunks[..last]);
      var carry := ReceiveAll(splice, chunks[..last]);
      if before.closed || !carry.Got? then before else
        var r := Receive(splice, carry.carry, chunks[last]);
        if !r.Got? || !Decodable(r.frames) then before else
          var p := ReactAll(before.fragments, DecodeAll(r.frames));
          p.(events := before.events + p.events)
  }

  lemma DecodeAllAppend(a: seq<Data>, b: seq<Data>)
    requires Decodable(a + b)
    ensures Decodable(a) && Decodable(b) && DecodeAll(a + b) == DecodeAll(a) + DecodeAll(b)
  {
    forall k | 0 <= k < |a| ensures CutFrame(a[k]) && |a[k]| < 0x1_0000_0000_0000_0000 { assert (a + b)[k] == a[k]; }
    forall k | 0 <= k < |b| ensures CutFrame(b[k]) && |b[k]| < 0x1_0000_0000_0000_0000 {
      assert (a + b)[|a| + k] == b[k];
    }
  }

  lemma NoCloseStaysOpen(fragments: Data, ds: seq<Decoded>)
    requires Open(ds)
    ensures !ReactAll(fragments, ds).closed
  {
    ControlFramesTransparent(fragments, ds);
  }

  /** Handling the frames read by read comes to the same as handling them all at once. */
  lemma {:induction false} ReadsAddUp(splice: Splice, chunks: seq<Data>)
    requires ReceiveAll(splice, chunks).Got?
    requires Decodable(ReceiveAll(splice, chunks).frames) && Open(DecodeAll(ReceiveAll(splice, chunks).frames))
    ensures Heard(splice, chunks) == ReactAll([], DecodeAll(ReceiveAll(splice, chunks).frames))
    decreases |chunks|
  {
    var all := ReceiveAll(splice, chunks);
    if chunks != [] {
      var last := |chunks| - 1;
      var before := ReceiveAll(splice, chunks[..last]);
      var r := Receive(splice, before.carry, chunks[last]);
      assert all.frames == before.frames + r.frames;
      DecodeAllAppend(before.frames, r.frames);
      var a, b := DecodeAll(before.frames), DecodeAll(r.frames);
      assert Open(a) by { forall k | 0 <= k < |a| ensures a[k] != Close { assert (a + b)[k] == a[k]; } }
      assert Open(b) by { forall k | 0 <= k < |b| ensures b[k] != Close { assert (a + b)[|a| + k] == b[k]; } }
      ReadsAddUp(splice, chunks[..last]);
      NoCloseStaysOpen([], a);
      ReactAppend([], a, b);
    }
  }

  /** The reads deliver the client's frames: all of them, in order, nothing left over. */
  lemma ReadsDeliverFrames(splice: Splice, sends: seq<Send>, chunks: seq<Data>)
    requires AllOk(sends) && Flatten(chunks) == Flatten(FramesOf(sends))
    requires forall k :: 0 <= k < |chunks| ==> ReadableAt(splice, chunks, k)
    ensures var r := ReceiveAll(splice, chunks);
            r.Got? && r.frames == FramesOf(sends) && r.carry.buffer == []
            && Decodable(r.frames) && DecodeAll(r.frames) == Meanings(sends)
  {
    ClientStreamCuts(sends);
    ClientFramesDecode(sends);
    SplittingExact(splice, chunks);
    assert UnderstoodAt(splice, chunks, |chunks|);
    assert chunks[..|chunks|] == chunks;
  }

  /** A client's messages, fragmented and interleaved with control frames, masked, and split into reads in any
      readable way, are delivered whole and in order, and each ping is answered with its own body, in order. */
  lemma ClientHeard(sends: seq<Send>, ms: seq<Sending>, chunks: seq<Data>)
    requires AllOk(sends) && Open(Meanings(sends)) && DataOnly(Meanings(sends)) == FramesFor(ms)
    requires forall k :: 0 <= k < |ms| ==> NonEmpty(ms[k].parts) <= 1
    requires Flatten(chunks) == Flatten(FramesOf(sends))
    requires forall k :: 0 <= k < |chunks| ==> ReadableAt(NewFirst, chunks, k)
    ensures var p := Heard(NewFirst, chunks);
            && Messages(p.events) == MessagesFor(ms) && p.fragments == [] && !p.closed
            && (forall k :: 0 <= k < |Pings(Meanings(sends))| ==>
                  |Pings(Meanings(sends))[k]| < 0x1_0000_0000_0000_0000)
            && Replies(p.events) == PongsFor(Pings(Meanings(sends)))
  {
    ReadsDeliverFrames(NewFirst, sends, chunks);
    ReadsAddUp(NewFirst, chunks);
    ConversationDelivered(Meanings(sends), ms);
    PingsAnswered([], Meanings(sends));
  }
}
