/** A websocket client's receiving side as it runs: cutting reads into frames, decoding them in place, and putting
    fragments together. */
module WsClient {
  import opened Bytes
  import opened WsFrames
  import opened WsStream
  import opened WsMessages

  /** What get_ws_frame_length computes from ten bytes: a 64-bit sum. */
  function CodeLength(h: Data): nat
    requires |h| >= 10
  {
    FrameSize(h) % 0x1_0000_0000_0000_0000
  }

  lemma {:induction false} BigEndianBound(s: Data)
    requires s != []
    ensures BigEndian(s) < (s[0] + 1) * Pow256(|s| - 1)
    decreases |s|
  {
    if |s| > 1 {
      BigEndianBound(s[..|s| - 1]);
      var top := s[0] as int + 1;
      assert BigEndian(s[..|s| - 1]) + 1 <= top * Pow256(|s| - 2);
      assert top * Pow256(|s| - 1) == 256 * (top * Pow256(|s| - 2));
    } else {
      assert s[..0] == [];
    }
  }

  /** With the top length bit clear the sum does not wrap. */
  lemma NoWrap(h: Data)
    requires |h| >= 10 && (Len7(h) == 127 ==> h[2] < 128)
    ensures CodeLength(h) == FrameSize(h)
  {
    if Extra(h) > 0 {
      var field := h[2..2 + Extra(h)];
      BigEndianBound(field);
      assert field[0] == h[2];
      assert Pow256(1) == 256;
      assert Pow256(3) == 0x100_0000 && Pow256(7) == Pow256(3) * Pow256(4);
      assert Pow256(7) == 0x100_0000_0000_0000;
    }
  }

  lemma Mod32(x: int, q: int, r: int)
    requires x == q * 0x1_0000_0000 + r && 0 <= r < 0x1_0000_0000
    ensures x % 0x1_0000_0000 == r
  {
  }

  /** Keeping a 64-bit sum in an int. */
  lemma ToIntOfSum(n: nat)
    ensures ToInt(n % 0x1_0000_0000_0000_0000) == ToInt(n)
  {
    var q, r := n / 0x1_0000_0000_0000_0000, n % 0x1_0000_0000_0000_0000;
    var x := r + 0x8000_0000;
    var m, low := x / 0x1_0000_0000, x % 0x1_0000_0000;
    Mod32(n + 0x8000_0000, q * 0x1_0000_0000 + m, low);
  }

  /** remove_first_n_elements on a plain buffer: the rest moves to the front, and a copy of it is returned. */
  method RemoveFirst(data: array<byte>, length: nat, n: nat) returns (rest: array<byte>)
    requires n <= length <= data.Length
    modifies data
    ensures fresh(rest) && rest[..] == old(data[n..length]) == data[..length - n]
  {
    var size := length - n;
    forall i | 0 <= i < size { data[i] := data[n + i]; }
    rest := new byte[size](i requires 0 <= i < size && size <= data.Length reads data => data[i]);
  }

  function After(events: seq<Event>, p: Progress): Progress {
    p.(events := events + p.events)
  }

  lemma ReactStep(fragments: Data, ds: seq<Decoded>, k: nat, events: seq<Event>)
    requires forall j :: 0 <= j < |ds| ==> Bounded(ds[j])
    requires k < |ds|
    ensures var p := React(fragments, ds[k]);
            && p.closed == (ds[k] == Close)
            && After(events, ReactAll(fragments, ds[k..]))
               == if p.closed then Progress(events + p.events, p.fragments, true)
                  else After(events + p.events, ReactAll(p.fragments, ds[k + 1..]))
  {
    var p := React(fragments, ds[k]);
    assert ds[k..][0] == ds[k] && ds[k..][1..] == ds[k + 1..];
    if !p.closed {
      var rest := ReactAll(p.fragments, ds[k + 1..]).events;
      assert events + (p.events + rest) == events + p.events + rest;
    }
  }

  /** One frame is cut off the front. */
  lemma CutOne(frames: seq<Data>, s: Data)
    requires Complete(s) && LengthBitsOk(s)
    ensures var n := FrameSize(s);
            && frames + Frames(s) == frames + [s[..n]] + Frames(s[n..])
            && Tail(s) == Tail(s[n..]) && LengthBitsOk(s[n..])
  {
  }

  /** The part of a read that starts with a new frame. */
  function RestOf(st: Carry, chunk: Data): Data
    requires st.length == -1 ==> |st.buffer| <= 10
  {
    if st.buffer == [] then chunk
    else if ReadTooSmall(st, chunk) then []
    else
      var length := PendingLength(NewFirst, st, chunk);
      if CompletesPending(length, st, chunk) then chunk[length - |st.buffer|..] else []
  }

  /** A read while a frame is pending, as its size turns out. */
  lemma PendingOutcome(st: Carry, chunk: Data)
    requires st.buffer != [] && !ReadTooSmall(st, chunk) && (st.length == -1 ==> |st.buffer| <= 10)
    ensures var size := PendingLength(NewFirst, st, chunk);
            if CompletesPending(size, st, chunk) then
              var tail := chunk[size - |st.buffer|..];
              && RestOf(st, chunk) == tail
              && Receive(NewFirst, st, chunk)
                   == Got([st.buffer + chunk[..size - |st.buffer|]] + Frames(tail), Carried(Tail(tail)))
            else
              RestOf(st, chunk) == [] && Receive(NewFirst, st, chunk) == Got([], Carry(st.buffer + chunk, size))
  {
  }

  class Client {
    var pending: Data
    var pendingLength: int
    var websocketFrames: Data

    function Pending(): Carry
      reads this
    {
      Carry(pending, pendingLength)
    }

    constructor ()
      ensures Pending() == Nothing && websocketFrames == []
    {
      pending, pendingLength, websocketFrames := [], -1, [];
    }

    /** get_ws_frame_length at the front of a buffer.  Fewer than ten bytes may be there: the code then reads on
        into bytes it knows nothing about. */
    method FrameLengthAt(buf: array<byte>, available: nat) returns (n: nat)
      requires 6 <= available <= buf.Length && LengthBitsOk(buf[..available])
      ensures HeaderKnown(buf[..available]) ==> n == FrameSize(buf[..available])
      ensures !HeaderKnown(buf[..available]) ==> n > available
    {
      ghost var s := buf[..available];
      var h := buf[..if available < 10 then available else 10];
      while |h| < 10
        invariant |h| <= 10 && (if available < 10 then s <= h else h == s[..10])
        decreases 10 - |h|
      {
        var unknown: byte := *;
        h := h + [unknown];
      }
      n := HeaderLength(h);
      assert h[1] == s[1] && h[2] == s[2];
      NoWrap(h);
      if HeaderKnown(s) {
        if available < 10 { FrameSizeOfPrefix(s, h); } else { FrameSizeShared(s, 10); }
      }
    }

    /** get_ws_frame_length on ten bytes. */
    method HeaderLength(h: Data) returns (n: nat)
      requires |h| == 10
      ensures n == CodeLength(h)
    {
      n := h[1] % 128;
      if n == 126 {
        assert h[2..4][..1] == [h[2]] && h[2..4][..1][..0] == [];
        assert BigEndian(h[2..4]) == BigEndian(h[2..4][..1]) * 256 + h[3];
        assert BigEndian([h[2]]) == BigEndian([h[2]][..0]) * 256 + h[2];
        n := h[2] as int * 256 + h[3] as int + 2;
      } else if n == 127 {
        n := BigEndian(h[2..10]) + 8;
      }
      n := (n + 6) % 0x1_0000_0000_0000_0000;
    }

    /** close_ws_connection_req: fragments received so far are dropped, and a close frame goes out. */
    method CloseRequest() returns (frame: Data)
      modifies this
      ensures Pending() == old(Pending()) && websocketFrames == [] && frame == EncodeFrame(CLOSE, [])
    {
      websocketFrames := [];
      frame := EncodeFrame(CLOSE, []);
    }

    /** The loop of get_ws_frames: whole frames are cut off the front of the buffer until none is left. */
    method CutFrames(buffer: array<byte>, length: nat) returns (frames: seq<Data>, rest: Data)
      requires length <= buffer.Length && LengthBitsOk(buffer[..length])
      modifies buffer
      ensures frames == Frames(old(buffer[..length])) && rest == Tail(old(buffer[..length]))
    {
      ghost var stream := buffer[..length];
      var buf, remaining := buffer, length;
      frames := [];
      while remaining > 5
        invariant remaining <= buf.Length && (buf == buffer || fresh(buf))
        invariant LengthBitsOk(buf[..remaining])
        invariant Frames(stream) == frames + Frames(buf[..remaining])
        invariant Tail(stream) == Tail(buf[..remaining])
        decreases remaining
      {
        ghost var s := buf[..remaining];
        var size := FrameLengthAt(buf, remaining);
        if remaining < size {
          break;
        }
        assert Complete(s) && size == FrameSize(s);
        CutOne(frames, s);
        var frame := buf[..size];
        assert frame == s[..size];
        frames := frames + [frame];
        buf := RemoveFirst(buf, remaining, size);
        remaining := remaining - size;
        assert buf[..remaining] == s[size..];
      }
      rest := buf[..remaining];
      assert !Complete(rest);
    }

    /** The size of the pending frame, read off the spliced bytes if it is not known yet. */
    method LearnLength(buffer: array<byte>, length: nat)
      requires length <= buffer.Length && pending != []
      requires pendingLength == -1 ==> |pending| <= 10 <= |pending| + length
      modifies this`pendingLength
      ensures pendingLength == PendingLength(NewFirst, old(Pending()), buffer[..length])
    {
      if pendingLength == -1 {
        var temp := buffer[..10 - |pending|] + (pending + seq(10, _ => 0));
        assert buffer[..length][..10 - |pending|] == buffer[..10 - |pending|];
        assert temp[..10] == Probe(NewFirst, pending, buffer[..length]);
        var n := HeaderLength(temp[..10]);
        ToIntOfSum(FrameSize(temp[..10]));
        pendingLength := ToInt(n);
      }
    }

    /** A read while a frame of this size is pending: `waiting` if the frame is still not whole, otherwise the frame
        and the part of the buffer behind it. */
    method SplitRead(buffer: array<byte>, length: nat)
      returns (waiting: bool, frame: Data, buf: array<byte>, remaining: nat)
      requires length <= buffer.Length
      modifies this`pending, this`pendingLength, buffer
      ensures buf == buffer || fresh(buf)
      ensures var st, chunk := old(Pending()), old(buffer[..length]);
              && waiting == !CompletesPending(st.length, st, chunk)
              && Pending() == (if waiting then Carry(st.buffer + chunk, st.length) else Nothing)
              && (!waiting ==>
                    && frame == st.buffer + chunk[..st.length - |st.buffer|]
                    && remaining <= buf.Length && buf[..remaining] == chunk[st.length - |st.buffer|..])
    {
      waiting, frame, buf, remaining := false, [], buffer, 0;
      ghost var chunk := buffer[..length];
      var required := pendingLength - |pending|;
      if 0 <= required < length {
        frame := pending + buffer[..required];
        assert chunk[..required] == buffer[..required];
        buf := RemoveFirst(buffer, length, required);
        remaining := length - required;
        pending, pendingLength := [], -1;
      } else if required == length {
        frame := pending + buffer[..length];
        assert chunk[..required] == chunk;
        pending, pendingLength := [], -1;
      } else {
        waiting := true;
        pending := pending + buffer[..length];
      }
    }

    /** A read while a frame is pending, up to the bytes behind that frame. */
    method TakePending(buffer: array<byte>, length: nat)
      returns (waiting: bool, frame: Data, buf: array<byte>, remaining: nat)
      requires length <= buffer.Length && pending != [] && !ReadTooSmall(Pending(), buffer[..length])
      requires pendingLength == -1 ==> |pending| <= 10
      modifies this`pending, this`pendingLength, buffer
      ensures buf == buffer || fresh(buf)
      ensures var st, chunk := old(Pending()), old(buffer[..length]);
              if waiting then Receive(NewFirst, st, chunk) == Got([], Pending())
              else
                && Pending() == Nothing && remaining <= buf.Length && buf[..remaining] == RestOf(st, chunk)
                && Receive(NewFirst, st, chunk)
                     == Got([frame] + Frames(RestOf(st, chunk)), Carried(Tail(RestOf(st, chunk))))
    {
      PendingOutcome(Pending(), buffer[..length]);
      LearnLength(buffer, length);
      waiting, frame, buf, remaining := SplitRead(buffer, length);
    }

    /** What is left of a read is kept for the next. */
    method KeepRest(rest: Data)
      requires !Complete(rest)
      modifies this`pending, this`pendingLength
      ensures Pending() == if rest == [] then old(Pending()) else Carried(rest)
    {
      if |rest| > 0 {
        pending := rest;
        if |rest| > 10 {
          var n := HeaderLength(rest[..10]);
          FrameSizeShared(rest, 10);
          ToIntOfSum(FrameSize(rest));
          pendingLength := ToInt(n);
        } else {
          pendingLength := -1;
        }
      }
    }

    /** Whole frames are cut off, and what is left is kept. */
    method CutAndKeep(buffer: array<byte>, length: nat) returns (frames: seq<Data>)
      requires length <= buffer.Length && LengthBitsOk(buffer[..length])
      modifies this`pending, this`pendingLength, buffer
      ensures frames == Frames(old(buffer[..length]))
      ensures var tail := Tail(old(buffer[..length]));
              Pending() == if tail == [] then old(Pending()) else Carried(tail)
    {
      BytesConserved(buffer[..length]);
      var cut, rest := CutFrames(buffer, length);
      KeepRest(rest);
      frames := cut;
    }

    /** A read while a frame is pending. */
    method ReadOn(buffer: array<byte>, length: nat) returns (frames: seq<Data>)
      requires length <= buffer.Length && pending != [] && !ReadTooSmall(Pending(), buffer[..length])
      requires pendingLength == -1 ==> |pending| <= 10
      requires LengthBitsOk(RestOf(Pending(), buffer[..length]))
      modifies this`pending, this`pendingLength, buffer
      ensures Receive(NewFirst, old(Pending()), old(buffer[..length])) == Got(frames, Pending())
    {
      ghost var rest := RestOf(Pending(), buffer[..length]);
      var waiting, frame, buf, remaining := TakePending(buffer, length);
      if waiting {
        return [];
      }
      var cut := CutAndKeep(buf, remaining);
      assert Pending() == Carried(Tail(rest));
      return [frame] + cut;
    }

    method GetWsFrames(buffer: array<byte>, length: nat) returns (ok: bool, frames: seq<Data>)
      requires length <= buffer.Length
      requires pendingLength == -1 ==> |pending| <= 10
      requires LengthBitsOk(RestOf(Pending(), buffer[..length]))
      modifies this, buffer
      ensures var r := Receive(NewFirst, old(Pending()), old(buffer[..length]));
              if r.TooSmall? then !ok && frames == [] && Pending() == old(Pending()) && websocketFrames == []
              else ok && r == Got(frames, Pending()) && websocketFrames == old(websocketFrames)
    {
      if |pending| == 0 {
        frames := CutAndKeep(buffer, length);
        return true, frames;
      }
      if pendingLength == -1 && |pending| + length < 10 {
        var _ := CloseRequest();
        return false, [];
      }
      frames := ReadOn(buffer, length);
      return true, frames;
    }

    /** websocket_process_read_cb: one read, from bytes to messages and replies. */
    method ProcessRead(buffer: array<byte>, length: nat) returns (events: seq<Event>, closed: bool)
      requires length <= buffer.Length
      requires pendingLength == -1 ==> |pending| <= 10
      requires LengthBitsOk(RestOf(Pending(), buffer[..length]))
      requires var r := Receive(NewFirst, Pending(), buffer[..length]); r.Got? ==> Decodable(r.frames)
      modifies this, buffer
      ensures var r := Receive(NewFirst, old(Pending()), old(buffer[..length]));
              if r.TooSmall? then
                events == [Sent(EncodeFrame(CLOSE, []))] && websocketFrames == [] && Pending() == old(Pending())
              else
                var p := ReactAll(old(websocketFrames), DecodeAll(r.frames));
                events == p.events && websocketFrames == p.fragments && closed == p.closed && Pending() == r.carry
    {
      var ok, frames := GetWsFrames(buffer, length);
      if !ok {
        return [Sent(EncodeFrame(CLOSE, []))], false;
      }
      events, closed := HandleFrames(frames);
    }

    /** The loop over the frames of one read. */
    method HandleFrames(frames: seq<Data>) returns (events: seq<Event>, closed: bool)
      requires Decodable(frames)
      modifies this`websocketFrames
      ensures var p := ReactAll(old(websocketFrames), DecodeAll(frames));
              events == p.events && websocketFrames == p.fragments && closed == p.closed
    {
      events, closed := [], false;
      ghost var all := ReactAll(websocketFrames, DecodeAll(frames));
      var k := 0;
      assert DecodeAll(frames)[0..] == DecodeAll(frames);
      while k < |frames| && !closed
        invariant k <= |frames|
        invariant closed ==> all == Progress(events, websocketFrames, true)
        invariant !closed ==> all == After(events, ReactAll(websocketFrames, DecodeAll(frames)[k..]))
        decreases |frames| - k, !closed
      {
        ReactStep(websocketFrames, DecodeAll(frames), k, events);
        var frame := frames[k];
        var data := new byte[|frame|](i requires 0 <= i < |frame| => frame[i]);
        assert data[..] == frame;
        var d := DecodeWebsocketFrame(data);
        var e := HandleFrame(d);
        events := events + e;
        closed := d == Close;
        k := k + 1;
      }
      if !closed { assert DecodeAll(frames)[|frames|..] == []; }
    }

    /** The body of the frame loop. */
    method HandleFrame(d: Decoded) returns (e: seq<Event>)
      requires Bounded(d)
      modifies this`websocketFrames
      ensures e == React(old(websocketFrames), d).events && websocketFrames == React(old(websocketFrames), d).fragments
    {
      e := [];
      match d {
        case Final(body) =>
          var contents := body;
          if |websocketFrames| > 0 {
            contents := websocketFrames + body;
            websocketFrames := [];
          }
          if |contents| > 0 { e := [Delivered(contents)]; }
        case Fragment(body) =>
          websocketFrames := body + websocketFrames;
        case Close =>
          websocketFrames := [];
          e := [Sent(EncodeFrame(CLOSE, []))];
        case Ping(body) =>
          var pong := MakeWsFrame(body, PONG);
          e := [Sent(pong[..])];
        case _ =>
      }
    }
  }
}
