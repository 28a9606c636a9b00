/** Cutting a byte stream into frames, whole or read by read (get_ws_frames). */
module WsStream {
  import opened Bytes
  import opened WsFrames

  // ----- the whole stream at once -----

  /** A whole frame stands at the front. */
  predicate Complete(s: Data) {
    HeaderKnown(s) && |s| >= FrameSize(s)
  }

  function Frames(s: Data): seq<Data>
    decreases |s|
  {
    if Complete(s) then [s[..FrameSize(s)]] + Frames(s[FrameSize(s)..]) else []
  }

  function Tail(s: Data): Data
    decreases |s|
  {
    if Complete(s) then Tail(s[FrameSize(s)..]) else s
  }

  /** Section 5.2: the most significant bit of a 64-bit length is 0. */
  predicate LengthBitsOk(s: Data)
    decreases |s|
  {
    && (|s| >= 3 && Len7(s) == 127 ==> s[2] < 128)
    && (Complete(s) ==> LengthBitsOk(s[FrameSize(s)..]))
  }

  /** No frame states a size that does not fit the int the pending length is kept in. */
  predicate SizesFit(s: Data)
    decreases |s|
  {
    && (HeaderKnown(s) ==> FrameSize(s) < 0x8000_0000)
    && (Complete(s) ==> SizesFit(s[FrameSize(s)..]))
  }

  lemma {:induction false} BytesConserved(s: Data)
    ensures Flatten(Frames(s)) + Tail(s) == s && !Complete(Tail(s))
    ensures forall k :: 0 <= k < |Frames(s)| ==> HeaderKnown(Frames(s)[k]) && FrameSize(Frames(s)[k]) == |Frames(s)[k]|
    decreases |s|
  {
    if Complete(s) {
      var n := FrameSize(s);
      BytesConserved(s[n..]);
      var head := s[..n];
      FrameSizeShared(s, n);
      assert Frames(s)[0] == head && Frames(s)[1..] == Frames(s[n..]);
      assert head + s[n..] == s;
      assert Flatten(Frames(s)) == head + Flatten(Frames(s[n..]));
      forall k | 0 <= k < |Frames(s)|
        ensures HeaderKnown(Frames(s)[k]) && FrameSize(Frames(s)[k]) == |Frames(s)[k]|
      {
        if k > 0 { assert Frames(s)[k] == Frames(s[n..])[k - 1]; }
      }
    }
  }

  /** A frame cut off the front states its own size. */
  lemma FrameSizeShared(s: Data, n: nat)
    requires HeaderKnown(s) && 2 + Extra(s) <= n <= |s|
    ensures HeaderKnown(s[..n]) && FrameSize(s[..n]) == FrameSize(s)
  {
    assert s[..n][1] == s[1];
    assert s[..n][2..2 + Extra(s)] == s[2..2 + Extra(s)];
  }

  lemma HeaderOfAppend(a: Data, b: Data)
    requires HeaderKnown(a)
    ensures HeaderKnown(a + b) && FrameSize(a + b) == FrameSize(a)
  {
    FrameSizeOfPrefix(a, a + b);
  }

  /** Cutting may stop anywhere and go on with the tail. */
  lemma {:induction false} CutInTwo(a: Data, b: Data)
    ensures Frames(a + b) == Frames(a) + Frames(Tail(a) + b)
    ensures Tail(a + b) == Tail(Tail(a) + b)
    decreases |a|
  {
    if Complete(a) {
      var n := FrameSize(a);
      HeaderOfAppend(a, b);
      assert (a + b)[..n] == a[..n] && (a + b)[n..] == a[n..] + b;
      CutInTwo(a[n..], b);
    }
  }

  lemma {:induction false} SaneTail(a: Data, b: Data)
    requires LengthBitsOk(a + b) && SizesFit(a + b)
    ensures LengthBitsOk(Tail(a) + b) && SizesFit(Tail(a) + b)
    ensures LengthBitsOk(a) && SizesFit(a)
    decreases |a|
  {
    if |a| >= 2 { assert (a + b)[1] == a[1]; }
    if HeaderKnown(a) { HeaderOfAppend(a, b); }
    if Complete(a) {
      var n := FrameSize(a);
      assert (a + b)[n..] == a[n..] + b;
      SaneTail(a[n..], b);
    }
  }

  // ----- read by read -----

  /** receiving_data: the beginning of a frame, and its size if known (-1 if not). */
  datatype Carry = Carry(buffer: Data, length: int)

  /** What a read comes to: the connection is closed for a short read; the code reads outside its buffers, because
      more than ten bytes are pending without a size; or frames are cut. */
  datatype Received = TooSmall | Overrun | Got(frames: seq<Data>, carry: Carry)

  const Nothing: Carry := Carry([], -1)

  /** Which way the ten bytes are put together that the size of a carried frame is read from.  The code splices
      the new bytes before the pending ones; a frame's header needs them behind. */
  datatype Splice = NewFirst | PendingFirst

  function Probe(splice: Splice, pending: Data, chunk: Data): (r: Data)
    requires |pending| <= 10 <= |pending| + |chunk|
    ensures |r| == 10
  {
    var new_ := chunk[..10 - |pending|];
    if splice.NewFirst? then new_ + pending else pending + new_
  }

  /** A ulong kept in an int. */
  function ToInt(n: nat): int {
    (n + 0x8000_0000) % 0x1_0000_0000 - 0x8000_0000
  }

  /** It is the int that differs from the size by a multiple of 2^32. */
  lemma ToIntWraps(n: nat)
    ensures -0x8000_0000 <= ToInt(n) < 0x8000_0000 && (n - ToInt(n)) % 0x1_0000_0000 == 0
  {
  }

  function Carried(tail: Data): Carry {
    if tail == [] then Nothing
    else if |tail| > 10 then Carry(tail, ToInt(FrameSize(tail)))
    else Carry(tail, -1)
  }

  /** The size the pending frame is taken to have. */
  function PendingLength(splice: Splice, st: Carry, chunk: Data): int
    requires st.length == -1 ==> |st.buffer| <= 10 <= |st.buffer| + |chunk|
  {
    if st.length == -1 then ToInt(FrameSize(Probe(splice, st.buffer, chunk))) else st.length
  }

  predicate ReadTooSmall(st: Carry, chunk: Data) {
    st.buffer != [] && st.length == -1 && |st.buffer| + |chunk| < 10
  }

  /** The code takes the first `10 - size` bytes of the read, which it computes without a sign. */
  predicate NoHeaderLeft(st: Carry) {
    st.length == -1 && |st.buffer| > 10
  }

  /** How many bytes of the chunk complete the pending frame, if they do.  The subtraction is unsigned in the
      code, so a size below what is already there asks for more than any read brings. */
  predicate CompletesPending(length: int, st: Carry, chunk: Data) {
    0 <= length - |st.buffer| <= |chunk|
  }

  /** A read when a frame is pending that is taken to have this size. */
  function Outcome(st: Carry, chunk: Data, length: int): Received {
    if CompletesPending(length, st, chunk) then
      var need := length - |st.buffer|;
      Got([st.buffer + chunk[..need]] + Frames(chunk[need..]), Carried(Tail(chunk[need..])))
    else
      Got([], Carry(st.buffer + chunk, length))
  }

  /** get_ws_frames on one read. */
  function Receive(splice: Splice, st: Carry, chunk: Data): Received {
    if st.buffer == [] then
      Got(Frames(chunk), if Tail(chunk) == [] then st else Carried(Tail(chunk)))
    else if ReadTooSmall(st, chunk) then TooSmall
    else if NoHeaderLeft(st) then Overrun
    else Outcome(st, chunk, PendingLength(splice, st, chunk))
  }

  /** A read that does not close conserves bytes, in either order: what was pending and the new bytes are the frames
      cut and what is pending now. */
  lemma ReceiveConserves(splice: Splice, st: Carry, chunk: Data)
    ensures var r := Receive(splice, st, chunk);
            r.Got? ==> st.buffer + chunk == Flatten(r.frames) + r.carry.buffer
  {
    if st.buffer == [] {
      BytesConserved(chunk);
      assert st.buffer + chunk == chunk;
    } else if !ReadTooSmall(st, chunk) && !NoHeaderLeft(st) {
      OutcomeConserves(st, chunk, PendingLength(splice, st, chunk));
    }
  }

  lemma PiecesJoin(p: Data, c: Data, need: nat, cut: Data, tail: Data)
    requires need <= |c| && cut + tail == c[need..]
    ensures p + c == p + c[..need] + cut + tail
  {
    assert c == c[..need] + c[need..];
  }

  lemma OutcomeConserves(st: Carry, chunk: Data, length: int)
    ensures var r := Outcome(st, chunk, length); st.buffer + chunk == Flatten(r.frames) + r.carry.buffer
  {
    if CompletesPending(length, st, chunk) {
      var need := length - |st.buffer|;
      var rest := chunk[need..];
      BytesConserved(rest);
      FlattenCons(st.buffer + chunk[..need], Frames(rest));
      PiecesJoin(st.buffer, chunk, need, Flatten(Frames(rest)), Tail(rest));
    }
  }

  // ----- when a read is understood -----

  /** What is carried is the beginning of one frame, with its true size or none. */
  predicate TrueCarry(c: Carry) {
    && !Complete(c.buffer)
    && if c.length == -1 then |c.buffer| <= 10
       else HeaderKnown(c.buffer) && c.length == FrameSize(c.buffer)
  }

  /** The outcome on the stream so far, of which `r.frames` is all that was cut. */
  predicate Agrees(r: Received, stream: Data) {
    r.Got? && r.frames == Frames(stream) && r.carry.buffer == Tail(stream) && TrueCarry(r.carry)
  }

  /** The size read off the spliced bytes is the one the header states.  (A misread size that the int turns into
      "unknown" does no harm while just the ten header bytes are there.) */
  predicate SizeReadRight(splice: Splice, pending: Data, chunk: Data)
    requires |pending| <= 10 <= |pending| + |chunk|
  {
    var size := FrameSize(Probe(PendingFirst, pending, chunk));
    var read := ToInt(FrameSize(Probe(splice, pending, chunk)));
    read == size || (read == -1 && |pending| + |chunk| == 10 < size)
  }

  /** What must hold of a read before it is processed: nothing is pending, or its size is known, or it is read
      right. */
  predicate Readable(splice: Splice, st: Carry, chunk: Data)
    requires st.length == -1 ==> |st.buffer| <= 10
  {
    st.buffer == [] || st.length != -1
    || (|st.buffer| + |chunk| >= 10 && SizeReadRight(splice, st.buffer, chunk))
  }

  lemma ToIntExact(n: nat)
    ensures ToInt(n) == n <==> n < 0x8000_0000
  {
  }

  lemma ProbeIsHeader(pending: Data, chunk: Data)
    requires |pending| <= 10 <= |pending| + |chunk|
    ensures HeaderKnown(pending + chunk) && FrameSize(Probe(PendingFirst, pending, chunk)) == FrameSize(pending + chunk)
  {
    var p := Probe(PendingFirst, pending, chunk);
    assert p == (pending + chunk)[..10];
    FrameSizeShared(pending + chunk, 10);
  }

  /** With the header in order every read is readable, unless header and read together are under ten bytes; so is
      a carried header of exactly ten bytes in either order. */
  lemma ReadableInOrder(st: Carry, chunk: Data)
    requires TrueCarry(st) && SizesFit(st.buffer + chunk)
    ensures Readable(PendingFirst, st, chunk) <==> !ReadTooSmall(st, chunk)
    ensures |st.buffer| == 10 ==> Readable(NewFirst, st, chunk)
  {
    if st.buffer != [] && st.length == -1 && |st.buffer| + |chunk| >= 10 {
      ProbeIsHeader(st.buffer, chunk);
      if |st.buffer| == 10 {
        assert Probe(NewFirst, st.buffer, chunk) == Probe(PendingFirst, st.buffer, chunk);
      }
    }
  }

  /** An unfinished frame is shorter than the size its whole header states. */
  lemma UnfinishedIsShort(p: Data, b: Data)
    requires !Complete(p) && HeaderKnown(p + b)
    ensures FrameSize(p + b) > |p|
  {
    if HeaderKnown(p) {
      HeaderOfAppend(p, b);
    } else if |p| >= 2 {
      assert (p + b)[1] == p[1];
    }
  }

  /** Completing the pending frame with its true size. */
  lemma CompletedFrame(p: Data, b: Data)
    requires !Complete(p) && HeaderKnown(p + b)
    ensures FrameSize(p + b) > |p|
    ensures Complete(p + b) <==> FrameSize(p + b) - |p| <= |b|
    ensures Complete(p + b) ==>
              var need := FrameSize(p + b) - |p|;
              && Frames(p + b) == [p + b[..need]] + Frames(b[need..])
              && Tail(p + b) == Tail(b[need..])
  {
    UnfinishedIsShort(p, b);
    var s, n := p + b, FrameSize(p + b);
    if n <= |s| {
      var need := n - |p|;
      assert Frames(s) == [s[..n]] + Frames(s[n..]) && Tail(s) == Tail(s[n..]);
      assert s[..n] == p + b[..need] && s[n..] == b[need..];
    }
  }

  lemma CarriedIsTrue(tail: Data)
    requires !Complete(tail) && SizesFit(tail)
    ensures TrueCarry(Carried(tail)) && Carried(tail).buffer == tail
  {
    if |tail| > 10 { ToIntExact(FrameSize(tail)); }
  }

  lemma {:induction false} TailFits(s: Data)
    requires SizesFit(s)
    ensures SizesFit(Tail(s))
    decreases |s|
  {
    if Complete(s) { TailFits(s[FrameSize(s)..]); }
  }

  /** Completing the pending frame with the size its header states. */
  lemma TrueSizeAgrees(st: Carry, chunk: Data)
    requires TrueCarry(st) && SizesFit(st.buffer + chunk) && HeaderKnown(st.buffer + chunk)
    ensures Agrees(Outcome(st, chunk, FrameSize(st.buffer + chunk)), st.buffer + chunk)
  {
    var s := st.buffer + chunk;
    CompletedFrame(st.buffer, chunk);
    BytesConserved(s);
    TailFits(s);
    CarriedIsTrue(Tail(s));
  }

  /** Completing it with any other size shows: a frame of the wrong size is cut, or the wrong size is kept. */
  lemma WrongSizeShows(st: Carry, chunk: Data, length: int)
    requires HeaderKnown(st.buffer + chunk) && length != FrameSize(st.buffer + chunk)
    ensures var s := st.buffer + chunk;
            Agrees(Outcome(st, chunk, length), s) <==> length == -1 && |s| <= 10 && |s| < FrameSize(s)
  {
    var s := st.buffer + chunk;
    if CompletesPending(length, st, chunk) {
      var first := st.buffer + chunk[..length - |st.buffer|];
      assert |first| == length && Outcome(st, chunk, length).frames[0] == first;
      if Complete(s) { assert |Frames(s)[0]| == FrameSize(s); }
    }
  }

  /** One read is understood exactly when it is readable. */
  lemma ReceiveExact(splice: Splice, st: Carry, chunk: Data)
    requires TrueCarry(st) && SizesFit(st.buffer + chunk)
    ensures Agrees(Receive(splice, st, chunk), st.buffer + chunk) <==> Readable(splice, st, chunk)
  {
    if st.buffer == [] {
      assert st.buffer + chunk == chunk;
      EmptyCarryAgrees(splice, st, chunk);
    } else if !ReadTooSmall(st, chunk) {
      if st.length == -1 { ProbeIsHeader(st.buffer, chunk); } else { HeaderOfAppend(st.buffer, chunk); }
      var length := PendingLength(splice, st, chunk);
      if length == FrameSize(st.buffer + chunk) {
        TrueSizeAgrees(st, chunk);
      } else {
        WrongSizeShows(st, chunk, length);
      }
    }
  }

  lemma EmptyCarryAgrees(splice: Splice, st: Carry, chunk: Data)
    requires TrueCarry(st) && st.buffer == [] && SizesFit(chunk)
    ensures Agrees(Receive(splice, st, chunk), chunk) && st.buffer + chunk == chunk
  {
    BytesConserved(chunk);
    TailFits(chunk);
    CarriedIsTrue(Tail(chunk));
  }

  // ----- runs of reads -----

  /** The reads of one connection, from its first. */
  ghost function ReceiveAll(splice: Splice, chunks: seq<Data>): Received
    decreases |chunks|
  {
    if chunks == [] then Got([], Nothing) else
      var last := |chunks| - 1;
      NextRead(splice, ReceiveAll(splice, chunks[..last]), chunks[last])
  }

  /** One more read; nothing is read after a close. */
  function NextRead(splice: Splice, before: Received, chunk: Data): Received {
    if !before.Got? then before else
      var r := Receive(splice, before.carry, chunk);
      if r.Got? then Got(before.frames + r.frames, r.carry) else r
  }

  /** Every read up to the k-th, this one excluded, was understood. */
  ghost predicate UnderstoodAt(splice: Splice, chunks: seq<Data>, k: nat)
    requires k <= |chunks|
  {
    Agrees(ReceiveAll(splice, chunks[..k]), Flatten(chunks[..k]))
  }

  /** What the stream and its splitting must be like where the k-th read starts: at the beginning of a frame, or at
      least ten bytes into one, or with ten bytes together with this read and the size read right off them. */
  predicate ReadableAt(splice: Splice, chunks: seq<Data>, k: nat)
    requires k < |chunks|
  {
    var p, c := Tail(Flatten(chunks[..k])), chunks[k];
    p == [] || |p| >= 10 || (|p| + |c| >= 10 && SizeReadRight(splice, p, c))
  }

  lemma ReceiveAllNext(splice: Splice, chunks: seq<Data>, k: nat)
    requires k < |chunks|
    ensures ReceiveAll(splice, chunks[..k + 1]) == NextRead(splice, ReceiveAll(splice, chunks[..k]), chunks[k])
  {
    assert chunks[..k + 1][..k] == chunks[..k];
  }

  /** A size is known of a pending frame only once ten bytes of it are there. */
  predicate KnownLate(c: Carry) {
    c.length != -1 ==> |c.buffer| >= 10
  }

  lemma ReceiveKnowsLate(splice: Splice, st: Carry, chunk: Data)
    requires KnownLate(st)
    ensures var r := Receive(splice, st, chunk); r.Got? ==> KnownLate(r.carry)
  {
  }

  lemma {:induction false} AllKnowLate(splice: Splice, chunks: seq<Data>)
    ensures var r := ReceiveAll(splice, chunks); r.Got? ==> KnownLate(r.carry)
    decreases |chunks|
  {
    if chunks != [] {
      var last := |chunks| - 1;
      AllKnowLate(splice, chunks[..last]);
      var before := ReceiveAll(splice, chunks[..last]);
      if before.Got? { ReceiveKnowsLate(splice, before.carry, chunks[last]); }
    }
  }

  lemma WholeHeaderReadRight(splice: Splice, pending: Data, chunk: Data)
    requires |pending| == 10 && SizesFit(pending + chunk)
    ensures SizeReadRight(splice, pending, chunk)
  {
    ProbeIsHeader(pending, chunk);
    assert Probe(splice, pending, chunk) == Probe(PendingFirst, pending, chunk);
    ToIntExact(FrameSize(pending + chunk));
  }

  /** What is known of the pending frame does not matter: only how much of it is there. */
  lemma ReadableIsInput(splice: Splice, st: Carry, chunk: Data)
    requires TrueCarry(st) && KnownLate(st) && SizesFit(st.buffer + chunk)
    ensures Readable(splice, st, chunk) <==>
              st.buffer == [] || |st.buffer| >= 10
              || (|st.buffer| + |chunk| >= 10 && SizeReadRight(splice, st.buffer, chunk))
  {
    if |st.buffer| == 10 { WholeHeaderReadRight(splice, st.buffer, chunk); }
  }

  /** The frames of one more read, on top of those of the stream so far. */
  lemma AgreesNext(seen: Data, chunk: Data, splice: Splice, before: Received)
    requires Agrees(before, seen)
    ensures Agrees(NextRead(splice, before, chunk), seen + chunk)
       <==> Agrees(Receive(splice, before.carry, chunk), before.carry.buffer + chunk)
  {
    var r := Receive(splice, before.carry, chunk);
    CutInTwo(seen, chunk);
    if r.Got? {
      var a, b, x := Frames(seen), Frames(before.carry.buffer + chunk), r.frames;
      if a + x == a + b {
        assert x == (a + x)[|a|..] && b == (a + b)[|a|..];
      }
    }
  }

  /** Understanding the stream up to a read, the next one is understood exactly when it is readable. */
  lemma UnderstoodNext(splice: Splice, chunks: seq<Data>, k: nat)
    requires k < |chunks| && LengthBitsOk(Flatten(chunks)) && SizesFit(Flatten(chunks))
    requires UnderstoodAt(splice, chunks, k)
    ensures UnderstoodAt(splice, chunks, k + 1) <==> ReadableAt(splice, chunks, k)
  {
    var seen := Flatten(chunks[..k]);
    var before := ReceiveAll(splice, chunks[..k]);
    ReadableFits(chunks, k);
    AllKnowLate(splice, chunks[..k]);
    ReadableIsInput(splice, before.carry, chunks[k]);
    ReceiveExact(splice, before.carry, chunks[k]);
    AgreesNext(seen, chunks[k], splice, before);
    ReceiveAllNext(splice, chunks, k);
    FlattenTake(chunks, k);
  }

  lemma ReadableFits(chunks: seq<Data>, k: nat)
    requires k < |chunks| && LengthBitsOk(Flatten(chunks)) && SizesFit(Flatten(chunks))
    ensures SizesFit(Tail(Flatten(chunks[..k])) + chunks[k])
    ensures LengthBitsOk(Tail(Flatten(chunks[..k])) + chunks[k])
  {
    FlattenPrefix(chunks, k + 1);
    SaneTail(Flatten(chunks[..k + 1]), Flatten(chunks[k + 1..]));
    FlattenTake(chunks, k);
    SaneTail(Flatten(chunks[..k]), chunks[k]);
  }

  /** When a stream is not understood up to a read, some earlier read is the one that was misunderstood. */
  lemma {:induction false} FirstMisunderstood(splice: Splice, chunks: seq<Data>, k: nat) returns (j: nat)
    requires k <= |chunks| && !UnderstoodAt(splice, chunks, k)
    ensures j < k && UnderstoodAt(splice, chunks, j) && !UnderstoodAt(splice, chunks, j + 1)
  {
    assert chunks[..0] == [];
    if UnderstoodAt(splice, chunks, k - 1) {
      j := k - 1;
    } else {
      j := FirstMisunderstood(splice, chunks, k - 1);
    }
  }

  /** Every way of splitting a stream into reads gives the frames of the whole stream, in order, with the unparsed
      tail carried over, exactly as long as the stream and its splitting make each read readable. */
  lemma SplittingExact(splice: Splice, chunks: seq<Data>)
    requires LengthBitsOk(Flatten(chunks)) && SizesFit(Flatten(chunks))
    ensures (forall k :: 0 <= k <= |chunks| ==> UnderstoodAt(splice, chunks, k))
       <==> (forall k :: 0 <= k < |chunks| ==> ReadableAt(splice, chunks, k))
  {
    if k: nat :| k <= |chunks| && !UnderstoodAt(splice, chunks, k) {
      var j := FirstMisunderstood(splice, chunks, k);
      UnderstoodNext(splice, chunks, j);
    } else {
      forall k | 0 <= k < |chunks| ensures ReadableAt(splice, chunks, k) {
        UnderstoodNext(splice, chunks, k);
      }
    }
  }

  /** With the pending bytes in front, a read that is not too short is readable. */
  lemma NotTooSmallReadable(chunks: seq<Data>, k: nat)
    requires k < |chunks| && LengthBitsOk(Flatten(chunks)) && SizesFit(Flatten(chunks))
    requires UnderstoodAt(PendingFirst, chunks, k)
    requires NextRead(PendingFirst, ReceiveAll(PendingFirst, chunks[..k]), chunks[k]).Got?
    ensures ReadableAt(PendingFirst, chunks, k)
  {
    var before := ReceiveAll(PendingFirst, chunks[..k]);
    ReadableFits(chunks, k);
    ReadableInOrder(before.carry, chunks[k]);
    AllKnowLate(PendingFirst, chunks[..k]);
    ReadableIsInput(PendingFirst, before.carry, chunks[k]);
  }

  /** With the pending bytes in front, any splitting that is not closed for a short read gives the whole stream's
      frames and tail. */
  lemma {:induction false} SplittingInOrder(chunks: seq<Data>)
    requires LengthBitsOk(Flatten(chunks)) && SizesFit(Flatten(chunks))
    ensures ReceiveAll(PendingFirst, chunks).Got? ==>
              Agrees(ReceiveAll(PendingFirst, chunks), Flatten(chunks))
    decreases |chunks|
  {
    if chunks != [] {
      var k := |chunks| - 1;
      FlattenPrefix(chunks, k);
      SaneTail(Flatten(chunks[..k]), Flatten(chunks[k..]));
      SplittingInOrder(chunks[..k]);
      assert chunks[..k + 1] == chunks;
      if ReceiveAll(PendingFirst, chunks).Got? {
        ReceiveAllNext(PendingFirst, chunks, k);
        NotTooSmallReadable(chunks, k);
        UnderstoodNext(PendingFirst, chunks, k);
      }
    }
  }

  // ----- two streams the code does not cut right -----

  const Hello: Data := [129, 133, 0, 0, 0, 0, 72, 101, 108, 108, 111]

  lemma HelloIsOneFrame()
    ensures LengthBitsOk(Hello) && SizesFit(Hello) && Frames(Hello) == [Hello] && Tail(Hello) == []
  {
    assert FrameSize(Hello) == 11 && Hello[..11] == Hello && Hello[11..] == [];
  }

  lemma HelloRest()
    ensures Frames(Hello[6..]) == [] && Tail(Hello[6..]) == Hello[6..]
  {
    assert Hello[6..][1] == 101 && !Complete(Hello[6..]);
  }

  lemma HelloMisread()
    ensures Outcome(Carry(Hello[..2], -1), Hello[2..], 6) == Got([Hello[..6]], Carry(Hello[6..], -1))
  {
    var a, b := Hello[..2], Hello[2..];
    assert a + b[..4] == Hello[..6] && b[4..] == Hello[6..];
    HelloRest();
  }

  /** The size is read off the masking key and the payload. */
  lemma HelloSizeMisread()
    ensures PendingLength(NewFirst, Carry(Hello[..2], -1), Hello[2..]) == 6
  {
    var wrong := Probe(NewFirst, Hello[..2], Hello[2..]);
    assert wrong[1] == 0 && FrameSize(wrong) == 6;
  }

  /** An 11-byte text frame, read as 2 and 9 bytes, is cut after six bytes. */
  lemma SplitHeaderMisread()
    ensures Frames(Hello) == [Hello]
    ensures Receive(NewFirst, Nothing, Hello[..2]) == Got([], Carry(Hello[..2], -1))
    ensures Receive(NewFirst, Carry(Hello[..2], -1), Hello[2..]) == Got([Hello[..6]], Carry(Hello[6..], -1))
  {
    HelloIsOneFrame();
    assert Hello[..2][1] == 133 && !Complete(Hello[..2]);
    HelloSizeMisread();
    HelloMisread();
  }

  lemma ShortFrame(fin: bool, opcode: byte, payload: Data, key: Data)
    requires opcode < 16 && |key| == 4 && |payload| < 126
    ensures var f := ClientFrame(fin, opcode, payload, key);
            && |f| == 6 + |payload| && HeaderKnown(f[..2]) && FrameSize(f[..2]) == FrameSize(f) == |f|
            && !Complete(f[..2]) && SizesFit(f) && f[3] == key[1] && f[..2] + f[2..] == f
  {
    var f := ClientFrame(fin, opcode, payload, key);
    ClientHeader(fin, opcode, payload, key);
    assert f[1] % 128 == |payload| && f[3] == f[2..6][1] && f[|f|..] == [];
  }

  /** A short frame, read as two bytes and the rest: the size is read off the second byte of the masking key, so the
      frame is understood exactly when that byte happens to state it. */
  lemma SplitAfterTwoBytes(fin: bool, opcode: byte, payload: Data, key: Data)
    requires opcode < 16 && |key| == 4 && 4 <= |payload| < 126 && key[1] % 128 < 126
    ensures var f := ClientFrame(fin, opcode, payload, key);
            && PendingLength(NewFirst, Carry(f[..2], -1), f[2..]) == 6 + key[1] % 128
            && (Agrees(Receive(NewFirst, Carry(f[..2], -1), f[2..]), f) <==> key[1] % 128 == |payload|)
  {
    ShortFrame(fin, opcode, payload, key);
    SizeOffFourthByte(ClientFrame(fin, opcode, payload, key));
    TwoBytesPending(ClientFrame(fin, opcode, payload, key));
  }

  lemma SizeOffFourthByte(f: Data)
    requires |f| >= 10 && f[3] % 128 < 126
    ensures PendingLength(NewFirst, Carry(f[..2], -1), f[2..]) == 6 + f[3] % 128
  {
    assert Probe(NewFirst, f[..2], f[2..])[1] == f[3];
  }

  lemma TwoBytesPending(f: Data)
    requires |f| >= 10 && HeaderKnown(f[..2]) && FrameSize(f[..2]) == FrameSize(f) == |f| && SizesFit(f)
    requires f[3] % 128 < 126 && f[..2] + f[2..] == f
    ensures Agrees(Receive(NewFirst, Carry(f[..2], -1), f[2..]), f) <==> 6 + f[3] % 128 == |f|
  {
    SizeOffFourthByte(f);
    ProbeIsHeader(f[..2], f[2..]);
    ReceiveExact(NewFirst, Carry(f[..2], -1), f[2..]);
  }

  /** A whole six-byte ping, read as 3 and 3 bytes: the connection is closed instead. */
  lemma ShortReadCloses()
    ensures var stream: Data := [137, 128, 1, 2, 3, 4];
            && Frames(stream) == [stream]
            && Receive(NewFirst, Nothing, stream[..3]) == Got([], Carry(stream[..3], -1))
            && Receive(NewFirst, Carry(stream[..3], -1), stream[3..]) == TooSmall
  {
    var stream: Data := [137, 128, 1, 2, 3, 4];
    assert FrameSize(stream) == 6 && stream[..6] == stream && stream[6..] == [];
    assert stream[..3][1] == 128;
    assert !Complete(stream[..3]);
  }
}
