/** Reading a file behind its response headers, in as many short reads as the kernel likes.  Every read asks for
    READ_SIZE bytes, whatever room the buffer has left. */
module FileRead {
  import opened Bytes

  const READ_SIZE: nat := 8192

  /** A CUSTOM_READ request: the buffer with room for headers and file, how much of it is filled, and how many bytes
      the file was said to have. */
  datatype Request = Request(buffer: Data, readAmount: nat, total: nat) {
    predicate Ok() {
      total <= |buffer| && |buffer| - total <= readAmount <= |buffer|
    }

    /** Where in the file the next read starts. */
    function FileOffset(): nat
      requires Ok()
    {
      readAmount - (|buffer| - total)
    }
  }

  /** What a completion leads to.  After an overrun the kernel has written behind the buffer; astray, the next read is
      asked for at an offset before the beginning of the file. */
  datatype Outcome = Done(data: Data) | Again(req: Request) | Overrun | Astray

  function Start(headers: Data, toRead: nat): Request {
    Request(headers + seq(toRead, _ => 0), |headers|, toRead)
  }

  /** A result the kernel may give: an error, or some of the bytes left, at most READ_SIZE; none only at the end of the
      file. */
  predicate MayReturn(r: Request, file: Data, n: int)
    requires r.Ok()
  {
    var left := |file| - r.FileOffset();
    if n < 0 then -4096 < n else if left <= 0 then n == 0 else 1 <= n <= READ_SIZE && n <= left
  }

  /** The kernel puts n bytes of the file at the buffer offset, and the completion is handled.  An error is added to
      the amount read like any other result. */
  function Complete(r: Request, file: Data, n: int): Outcome
    requires r.Ok() && MayReturn(r, file, n)
  {
    if n < 0 then
      if r.FileOffset() + n < 0 then Astray else Again(r.(readAmount := r.readAmount + n))
    else if r.readAmount + n > |r.buffer| then Overrun
    else
      var o := r.FileOffset();
      var filled := r.buffer[..r.readAmount] + (if n == 0 then [] else file[o..o + n]) + r.buffer[r.readAmount + n..];
      if |filled| == n + r.readAmount then Done(filled) else Again(r.(buffer := filled, readAmount := r.readAmount + n))
  }

  /** The headers and the first k bytes of the file stand in the buffer; file and buffer offset differ by the length
      of the headers. */
  ghost predicate Filled(r: Request, headers: Data, file: Data, k: nat) {
    && k <= |file| && r.Ok() && |r.buffer| == |headers| + r.total
    && r.FileOffset() == k && r.readAmount == |headers| + k
    && r.buffer[..r.readAmount] == headers + file[..k]
  }

  lemma StartFilled(headers: Data, file: Data, toRead: nat)
    ensures Filled(Start(headers, toRead), headers, file, 0)
  {
    var r := Start(headers, toRead);
    assert r.buffer[..|headers|] == headers && headers + file[..0] == headers;
  }

  lemma CompleteFills(r: Request, headers: Data, file: Data, k: nat, n: nat)
    requires Filled(r, headers, file, k) && MayReturn(r, file, n)
    ensures match Complete(r, file, n)
            case Overrun => r.total < k + n <= |file|
            case Astray => false
            case Done(data) => r.total == k + n <= |file| && data == headers + file[..r.total]
            case Again(next) => Filled(next, headers, file, k + n) && next.total == r.total > k + n
  {
    if r.readAmount + n <= |r.buffer| {
      var got: Data := if n == 0 then [] else file[k..k + n];
      var filled := r.buffer[..r.readAmount] + got + r.buffer[r.readAmount + n..];
      assert filled[..r.readAmount + n] == r.buffer[..r.readAmount] + got;
      assert file[..k] + got == file[..k + n];
      assert headers + file[..k] + got == headers + file[..k + n];
      if |filled| == n + r.readAmount { assert filled[..r.readAmount + n] == filled; }
    }
  }

  /** A failed read takes bytes back, and the chain reads them again, unless there are not so many. */
  lemma FailureTakesBack(r: Request, headers: Data, file: Data, k: nat, n: int)
    requires Filled(r, headers, file, k) && MayReturn(r, file, n) && n < 0
    ensures if k + n < 0 then Complete(r, file, n) == Astray
            else
              var o := Complete(r, file, n);
              o.Again? && Filled(o.req, headers, file, k + n) && o.req.total == r.total
  {
    if k + n >= 0 {
      var next := r.(readAmount := r.readAmount + n);
      assert next.buffer[..next.readAmount] == r.buffer[..r.readAmount][..next.readAmount];
      assert headers + file[..k + n] == (headers + file[..k])[..|headers| + k + n];
    }
  }

  // ----- chains of reads -----

  /** Every result is one the kernel may give when its read is made; results after the end do not matter. */
  ghost predicate Possible(o: Outcome, file: Data, sizes: seq<int>)
    decreases |sizes|
  {
    sizes == [] || !o.Again?
    || (o.req.Ok() && MayReturn(o.req, file, sizes[0]) && Possible(Complete(o.req, file, sizes[0]), file, sizes[1..]))
  }

  /** What a chain of completions with these results leads to. */
  ghost function Chain(o: Outcome, file: Data, sizes: seq<int>): Outcome
    requires Possible(o, file, sizes)
    decreases |sizes|
  {
    if sizes == [] || !o.Again? then o
    else Chain(Complete(o.req, file, sizes[0]), file, sizes[1..])
  }

  /** From k bytes on, some failure takes back more than has been read by then. */
  predicate GoesAstray(k: nat, sizes: seq<int>)
    decreases |sizes|
  {
    sizes != [] && (k + sizes[0] < 0 || GoesAstray(k + sizes[0], sizes[1..]))
  }

  /** Completions, less what the failures among them take back. */
  function Progress(sizes: seq<int>): int {
    if sizes == [] then 0 else (if sizes[0] < 0 then sizes[0] else 1) + Progress(sizes[1..])
  }

  /** What a chain comes to; it is over once it has made as much progress as the file has bytes, and more. */
  lemma {:induction false} ChainFrom(r: Request, headers: Data, file: Data, k: nat, sizes: seq<int>)
    requires Filled(r, headers, file, k) && Possible(Again(r), file, sizes)
    ensures match Chain(Again(r), file, sizes)
            case Overrun => r.total < |file|
            case Astray => GoesAstray(k, sizes)
            case Done(data) => r.total <= |file| && data == headers + file[..r.total]
            case Again(next) => !GoesAstray(k, sizes) && (Progress(sizes) > |file| - k ==> r.total > |file|)
    decreases |sizes|
  {
    if sizes != [] {
      var n := sizes[0];
      var o := Complete(r, file, n);
      if n < 0 { FailureTakesBack(r, headers, file, k, n); } else { CompleteFills(r, headers, file, k, n); }
      assert Chain(Again(r), file, sizes) == Chain(o, file, sizes[1..]);
      if o.Again? {
        ChainFrom(o.req, headers, file, k + n, sizes[1..]);
      }
    }
  }

  /** What any chain may hand over, for a file of any size and reads that may fail. */
  lemma WhatArrives(headers: Data, file: Data, toRead: nat, sizes: seq<int>)
    requires Possible(Again(Start(headers, toRead)), file, sizes)
    ensures var o := Chain(Again(Start(headers, toRead)), file, sizes);
            && (o.Done? ==> toRead <= |file| && o.data == headers + file[..toRead])
            && (o.Overrun? ==> toRead < |file|)
            && (o.Astray? ==> GoesAstray(0, sizes))
            && (o.Again? ==> !GoesAstray(0, sizes) && (Progress(sizes) > |file| ==> toRead > |file|))
  {
    StartFilled(headers, file, toRead);
    ChainFrom(Start(headers, toRead), headers, file, 0, sizes);
  }

  // ----- chains that are possible -----

  /** One byte at a time, until the file ends. */
  function Trickle(k: nat, size: nat, m: nat): seq<int> {
    seq(m, i requires 0 <= i < m => if k + i < size then 1 else 0)
  }

  lemma {:induction false} TricklePossible(r: Request, headers: Data, file: Data, k: nat, m: nat)
    requires Filled(r, headers, file, k)
    ensures Possible(Again(r), file, Trickle(k, |file|, m))
    decreases m
  {
    if m > 0 {
      var sizes := Trickle(k, |file|, m);
      var n := sizes[0];
      var o := Complete(r, file, n);
      CompleteFills(r, headers, file, k, n);
      if o.Again? {
        TricklePossible(o.req, headers, file, k + n, m - 1);
        assert sizes[1..] == Trickle(k + n, |file|, m - 1);
      }
    }
  }

  lemma {:induction false} TrickleProgress(k: nat, size: nat, m: nat)
    ensures Progress(Trickle(k, size, m)) == m && !GoesAstray(k, Trickle(k, size, m))
    decreases m
  {
    if m > 0 {
      var sizes := Trickle(k, size, m);
      var n := sizes[0];
      assert forall i :: 0 <= i < m - 1 ==> sizes[1..][i] == Trickle(k + n, size, m - 1)[i];
      assert sizes[1..] == Trickle(k + n, size, m - 1);
      TrickleProgress(k + n, size, m - 1);
    }
  }

  /** If the file has more bytes than there is room for, some chain overruns: it fills the buffer but for one byte,
      and then gets two. */
  lemma {:induction false} SomeOverrun(r: Request, headers: Data, file: Data, k: nat) returns (sizes: seq<int>)
    requires Filled(r, headers, file, k) && k <= r.total < |file|
    ensures Possible(Again(r), file, sizes) && Chain(Again(r), file, sizes) == Overrun
    decreases r.total - k
  {
    if r.total - k <= 1 {
      var n := r.total - k + 1;
      CompleteFills(r, headers, file, k, n);
      assert [n][1..] == [] && Complete(r, file, n) == Overrun;
      sizes := [n];
    } else {
      CompleteFills(r, headers, file, k, 1);
      var o := Complete(r, file, 1);
      var rest := SomeOverrun(o.req, headers, file, k + 1);
      sizes := [1] + rest;
      assert sizes[1..] == rest;
    }
  }

  // ----- when reads land inside, and when the file arrives -----

  ghost predicate AlwaysInside(headers: Data, file: Data, toRead: nat) {
    forall sizes :: Possible(Again(Start(headers, toRead)), file, sizes) ==>
      !Chain(Again(Start(headers, toRead)), file, sizes).Overrun?
  }

  /** Every chain stays inside the buffer exactly when the file has not grown since its size was taken. */
  lemma ReadsLandInsideExact(headers: Data, file: Data, toRead: nat)
    ensures AlwaysInside(headers, file, toRead) <==> toRead >= |file|
  {
    if toRead >= |file| {
      forall sizes | Possible(Again(Start(headers, toRead)), file, sizes)
        ensures !Chain(Again(Start(headers, toRead)), file, sizes).Overrun?
      {
        WhatArrives(headers, file, toRead, sizes);
      }
    } else {
      StartFilled(headers, file, toRead);
      var sizes := SomeOverrun(Start(headers, toRead), headers, file, 0);
    }
  }

  /** Every chain that makes more progress than the file has bytes, and in which no failure takes back more than has
      been read, hands over the headers and the file. */
  ghost predicate AlwaysArrives(headers: Data, file: Data, toRead: nat) {
    forall sizes ::
      Possible(Again(Start(headers, toRead)), file, sizes) && Progress(sizes) > |file| && !GoesAstray(0, sizes) ==>
        Chain(Again(Start(headers, toRead)), file, sizes) == Done(headers + file)
  }

  /** The file arrives whole, however short the reads, exactly when it kept the size it had when that was taken. */
  lemma FileArrivesExact(headers: Data, file: Data, toRead: nat)
    ensures AlwaysArrives(headers, file, toRead) <==> toRead == |file|
  {
    var start := Start(headers, toRead);
    if toRead == |file| {
      forall sizes | Possible(Again(start), file, sizes) && Progress(sizes) > |file| && !GoesAstray(0, sizes)
        ensures Chain(Again(start), file, sizes) == Done(headers + file)
      {
        WhatArrives(headers, file, toRead, sizes);
        assert file[..toRead] == file;
      }
    } else {
      var sizes := Trickle(0, |file|, |file| + 1);
      StartFilled(headers, file, toRead);
      TricklePossible(start, headers, file, 0, |file| + 1);
      TrickleProgress(0, |file|, |file| + 1);
      WhatArrives(headers, file, toRead, sizes);
      var o := Chain(Again(start), file, sizes);
      if o.Done? { assert |o.data| == |headers| + toRead; }
    }
  }

  /** Reading a file that has not grown goes astray exactly when some failure takes back more than has been read by
      then, and the file was not there before. */
  lemma AstrayExact(headers: Data, file: Data, toRead: nat, sizes: seq<int>)
    requires Possible(Again(Start(headers, toRead)), file, sizes) && toRead >= |file|
    ensures var o := Chain(Again(Start(headers, toRead)), file, sizes);
            o.Astray? <==> GoesAstray(0, sizes) && !o.Done?
  {
    WhatArrives(headers, file, toRead, sizes);
  }

  /** A file shorter than it was when its size was taken is never handed over, however long the chain. */
  lemma ShrunkFileNeverArrives(headers: Data, file: Data, toRead: nat, sizes: seq<int>)
    requires toRead > |file| && Possible(Again(Start(headers, toRead)), file, sizes)
    ensures var o := Chain(Again(Start(headers, toRead)), file, sizes);
            if GoesAstray(0, sizes) then o.Astray? else o.Again?
  {
    WhatArrives(headers, file, toRead, sizes);
  }

  lemma OneRead(headers: Data, file: Data, toRead: nat, n: nat)
    requires MayReturn(Start(headers, toRead), file, n)
    ensures Possible(Again(Start(headers, toRead)), file, [n])
    ensures var o := Chain(Again(Start(headers, toRead)), file, [n]);
            if n > toRead then o == Overrun else if n == toRead then o == Done(headers + file[..n]) else o.Again?
  {
    var r := Start(headers, toRead);
    StartFilled(headers, file, toRead);
    CompleteFills(r, headers, file, 0, n);
    assert [n][1..] == [];
  }

  lemma {:induction false} ReadsNeededFrom(r: Request, headers: Data, file: Data, k: nat, sizes: seq<int>)
    requires Filled(r, headers, file, k) && Possible(Again(r), file, sizes)
    ensures Chain(Again(r), file, sizes).Done? ==> r.total <= k + 8192 * |sizes|
    decreases |sizes|
  {
    if sizes != [] {
      var n := sizes[0];
      var o := Complete(r, file, n);
      if n < 0 { FailureTakesBack(r, headers, file, k, n); } else { CompleteFills(r, headers, file, k, n); }
      assert Chain(Again(r), file, sizes) == Chain(o, file, sizes[1..]);
      if o.Again? { ReadsNeededFrom(o.req, headers, file, k + n, sizes[1..]); }
    }
  }

  /** No read brings more than 8192 bytes, and one may bring that many. */
  lemma ReadsNeeded(headers: Data, file: Data, toRead: nat, sizes: seq<int>)
    requires Possible(Again(Start(headers, toRead)), file, sizes)
    ensures Chain(Again(Start(headers, toRead)), file, sizes).Done? ==> toRead <= 8192 * |sizes|
    ensures 0 < |file| <= 8192 ==>
              && Possible(Again(Start(headers, |file|)), file, [|file|])
              && Chain(Again(Start(headers, |file|)), file, [|file|]) == Done(headers + file)
  {
    StartFilled(headers, file, toRead);
    ReadsNeededFrom(Start(headers, toRead), headers, file, 0, sizes);
    if 0 < |file| <= 8192 {
      OneRead(headers, file, |file|, |file|);
      assert file[..|file|] == file;
    }
  }

  /** The first read of an unchanged file fails: its next read is asked for at a negative offset. */
  lemma FailedFirstRead(headers: Data, file: Data, error: int)
    requires -4096 < error < 0
    ensures Possible(Again(Start(headers, |file|)), file, [error])
    ensures Chain(Again(Start(headers, |file|)), file, [error]) == Astray
  {
    var r := Start(headers, |file|);
    StartFilled(headers, file, |file|);
    FailureTakesBack(r, headers, file, 0, error);
    assert [error][1..] == [];
  }

  /** A file of one byte that has two by the time it is read: one read of both overruns the buffer, one read of one
      hands over half the file. */
  lemma GrownFile(file: Data)
    requires |file| == 2
    ensures var r := Again(Start([], 1));
            && Possible(r, file, [2]) && Chain(r, file, [2]) == Overrun
            && Possible(r, file, [1]) && Chain(r, file, [1]) == Done(file[..1])
  {
    OneRead([], file, 1, 2);
    OneRead([], file, 1, 1);
    assert [] + file[..1] == file[..1];
  }

  /** The 16 bytes an inotify_event takes, and two events queued: one read brings both. */
  lemma TwoEventsOverrun(events: Data)
    requires |events| == 32
    ensures Possible(Again(Start([], 16)), events, [32])
    ensures Chain(Again(Start([], 16)), events, [32]) == Overrun
  {
    OneRead([], events, 16, 32);
  }

  // ----- the request as it runs -----

  class CustomRead {
    var readData: array<byte>
    var readAmount: nat
    var totalLength: nat

    function View(): Request
      reads this, readData
    {
      Request(readData[..], readAmount, totalLength)
    }

    /** custom_read_req: `buff` holds the headers; the buffer is given room for the file. */
    constructor (headers: Data, toRead: nat)
      ensures View() == Start(headers, toRead) && fresh(readData)
    {
      var whole := headers + seq(toRead, _ => 0);
      readData := new byte[|whole|](i requires 0 <= i < |whole| => whole[i]);
      readAmount, totalLength := |headers|, toRead;
      new;
      assert readData[..] == whole;
    }

    /** The kernel's part of a read that fits: n bytes at the file offset go to the buffer offset. */
    method Land(file: Data, n: nat)
      requires View().Ok() && MayReturn(View(), file, n) && readAmount + n <= readData.Length
      modifies readData
      ensures readData[..] == old(readData[..readAmount])
                            + (if n == 0 then [] else file[old(View()).FileOffset()..old(View()).FileOffset() + n])
                            + old(readData[readAmount + n..])
    {
      var offset := readAmount - (readData.Length - totalLength);
      forall i | 0 <= i < n { readData[readAmount + i] := file[offset + i]; }
    }

    /** The completion of a read with result n: the whole buffer, the next read of the chain, or memory the kernel
        has overwritten. */
    method Completed(file: Data, n: int) returns (outcome: Outcome)
      requires View().Ok() && MayReturn(View(), file, n)
      modifies this`readAmount, readData
      ensures outcome == Complete(old(View()), file, n)
      ensures outcome.Again? ==> View() == outcome.req
    {
      if readData.Length < readAmount + n {
        return Overrun;
      }
      if n >= 0 {
        Land(file, n);
      }
      if readData.Length == n + readAmount {
        return Done(readData[..]);
      }
      if readAmount + n < readData.Length - totalLength {
        return Astray;
      }
      readAmount := readAmount + n;
      return Again(Request(readData[..], readAmount, totalLength));
    }
  }
}
