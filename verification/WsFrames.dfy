/** WebSocket frames (sections 5.2 and 5.3 of RFC 6455): lengths, encoding, masking and decoding. */
module WsFrames {
  import opened Bytes

  // ----- lengths -----

  function BigEndian(s: Data): nat {
    if s == [] then 0 else BigEndian(s[..|s| - 1]) * 256 + s[|s| - 1]
  }

  function ToBigEndian(n: nat, k: nat): (r: Data)
    ensures |r| == k
  {
    if k == 0 then [] else ToBigEndian(n / 256, k - 1) + [n % 256]
  }

  function Pow256(k: nat): (r: nat)
    ensures r > 0
  {
    if k == 0 then 1 else 256 * Pow256(k - 1)
  }

  lemma DigitsBelow(n: nat, p: nat)
    requires n < 256 * p
    ensures n / 256 < p && n / 256 * 256 + n % 256 == n
  {
  }

  lemma {:induction false} BigEndianInverts(n: nat, k: nat)
    requires n < Pow256(k)
    ensures BigEndian(ToBigEndian(n, k)) == n
  {
    if k > 0 {
      var high, r := n / 256, ToBigEndian(n, k);
      DigitsBelow(n, Pow256(k - 1));
      BigEndianInverts(high, k - 1);
      assert r[..k - 1] == ToBigEndian(high, k - 1) && r[k - 1] == n % 256;
    }
  }

  /** The seven-bit length field. */
  function Len7(s: Data): nat
    requires |s| >= 2
  {
    s[1] % 128
  }

  /** How many bytes an extended length takes. */
  function Extra(s: Data): nat
    requires |s| >= 2
  {
    if Len7(s) == 126 then 2 else if Len7(s) == 127 then 8 else 0
  }

  /** All bytes of the length field are there. */
  predicate HeaderKnown(s: Data) {
    |s| >= 2 && |s| >= 2 + Extra(s)
  }

  function PayloadLength(s: Data): nat
    requires HeaderKnown(s)
  {
    if Extra(s) == 0 then Len7(s) else BigEndian(s[2..2 + Extra(s)])
  }

  /** The size of the masked client frame that starts here. */
  function FrameSize(s: Data): (n: nat)
    requires HeaderKnown(s)
    ensures n >= 6 + Extra(s)
  {
    2 + Extra(s) + 4 + PayloadLength(s)
  }

  lemma FrameSizeOfPrefix(s: Data, t: Data)
    requires HeaderKnown(s) && s <= t
    ensures HeaderKnown(t) && FrameSize(t) == FrameSize(s)
  {
    assert s[1] == t[1];
    assert s[2..2 + Extra(s)] == t[2..2 + Extra(s)];
  }

  // ----- frames the server sends -----

  const TEXT: byte := 1
  const BINARY: byte := 2
  const CLOSE: byte := 8
  const PING: byte := 9
  const PONG: byte := 10

  function LengthBytes(n: nat): (r: Data)
    requires n < 0x1_0000_0000_0000_0000
    ensures |r| == (if n < 126 then 1 else if n < 65536 then 3 else 9)
  {
    if n < 126 then [n]
    else if n < 65536 then [126] + ToBigEndian(n, 2)
    else [127] + ToBigEndian(n, 8)
  }

  /** An unfragmented, unmasked frame. */
  function EncodeFrame(opcode: byte, msg: Data): Data
    requires opcode < 16 && |msg| < 0x1_0000_0000_0000_0000
  {
    [128 + opcode] + LengthBytes(|msg|) + msg
  }

  method PutBytes(data: array<byte>, offset: nat, bytes: Data)
    requires offset + |bytes| <= data.Length
    modifies data
    ensures data[..offset] == old(data[..offset]) && data[offset..offset + |bytes|] == bytes
  {
    forall i | 0 <= i < |bytes| { data[offset + i] := bytes[i]; }
  }

  /** make_ws_frame: fills a buffer of the right size, field by field. */
  method MakeWsFrame(msg: Data, opcode: byte) returns (data: array<byte>)
    requires opcode < 16 && |msg| < 0x1_0000_0000_0000_0000
    ensures fresh(data) && data[..] == EncodeFrame(opcode, msg)
  {
    var size := |msg|;
    var offset := 2;
    if size < 126 {
    } else if size < 65536 {
      offset := offset + 2;
    } else {
      offset := offset + 8;
    }
    data := new byte[offset + size](_ => 0);
    data[0] := 128 + opcode;
    if size < 126 {
      data[1] := size;
    } else if size < 65536 {
      data[1] := 126;
      PutBytes(data, 2, ToBigEndian(size, 2));
      assert data[..4] == data[..2] + data[2..4];
    } else {
      data[1] := 127;
      PutBytes(data, 2, ToBigEndian(size, 8));
      assert data[..10] == data[..2] + data[2..10];
    }
    assert data[..offset] == [128 + opcode] + LengthBytes(size);
    if data.Length == 2 {
      return;
    }
    PutBytes(data, offset, msg);
    assert data[..] == data[..offset] + data[offset..offset + size];
  }

  // ----- frames the server receives -----

  function Masked(payload: Data, key: Data): (r: Data)
    requires |key| == 4
    ensures |r| == |payload|
  {
    seq(|payload|, i requires 0 <= i < |payload| => Xor(payload[i], key[i % 4]))
  }

  lemma MaskedNext(payload: Data, key: Data, n: nat)
    requires |key| == 4 && n < |payload|
    ensures Masked(payload[..n + 1], key) == Masked(payload[..n], key) + [Xor(payload[n], key[n % 4])]
  {
  }

  lemma MaskedTwice(payload: Data, key: Data)
    requires |key| == 4
    ensures Masked(Masked(payload, key), key) == payload
  {
    forall i | 0 <= i < |payload| ensures Masked(Masked(payload, key), key)[i] == payload[i] {
      XorTwice(payload[i], key[i % 4]);
    }
  }

  /** What a client makes of a frame: mask bit set, key inserted, payload masked. */
  function MaskFrame(frame: Data, key: Data): Data
    requires |key| == 4 && HeaderKnown(frame) && frame[1] < 128
  {
    var head := 2 + Extra(frame);
    frame[..1] + [frame[1] + 128] + frame[2..head] + key + Masked(frame[head..], key)
  }

  /** A client frame, possibly a fragment. */
  function ClientFrame(fin: bool, opcode: byte, payload: Data, key: Data): Data
    requires opcode < 16 && |key| == 4 && |payload| < 0x1_0000_0000_0000_0000
  {
    var len := LengthBytes(|payload|);
    [(if fin then 128 else 0) + opcode] + [len[0] + 128] + len[1..] + key + Masked(payload, key)
  }

  lemma EncodedHeader(opcode: byte, msg: Data)
    requires opcode < 16 && |msg| < 0x1_0000_0000_0000_0000
    ensures var f := EncodeFrame(opcode, msg);
            && HeaderKnown(f) && f[1] < 128
            && 2 + Extra(f) == 1 + |LengthBytes(|msg|)|
            && f[2..2 + Extra(f)] == LengthBytes(|msg|)[1..] && f[2 + Extra(f)..] == msg
  {
    var f := EncodeFrame(opcode, msg);
    var len := LengthBytes(|msg|);
    assert f[1] == len[0];
    assert f == [128 + opcode] + len + msg;
    assert f[1..1 + |len|] == len;
  }

  /** Masking a server-made frame gives the client frame with the same payload. */
  lemma MaskedServerFrame(opcode: byte, msg: Data, key: Data)
    requires opcode < 16 && |msg| < 0x1_0000_0000_0000_0000 && |key| == 4
    ensures var f := EncodeFrame(opcode, msg);
            && HeaderKnown(f) && f[1] < 128
            && MaskFrame(f, key) == ClientFrame(true, opcode, msg, key)
  {
    EncodedHeader(opcode, msg);
  }

  /** The length field of a client frame states the payload's length. */
  lemma LengthField(s: Data, n: nat)
    requires n < 0x1_0000_0000_0000_0000
    requires |s| > |LengthBytes(n)| && s[1] == LengthBytes(n)[0] + 128
    requires s[2..1 + |LengthBytes(n)|] == LengthBytes(n)[1..]
    ensures HeaderKnown(s) && 1 + Extra(s) == |LengthBytes(n)| && PayloadLength(s) == n
  {
    var len := LengthBytes(n);
    if n < 126 {
      assert Len7(s) == n;
    } else if n < 65536 {
      assert len[1..] == ToBigEndian(n, 2);
      assert Pow256(2) == 65536;
      BigEndianInverts(n, 2);
    } else {
      assert len[1..] == ToBigEndian(n, 8);
      assert Pow256(4) == 0x1_0000_0000;
      assert Pow256(8) == Pow256(4) * Pow256(4);
      BigEndianInverts(n, 8);
    }
  }

  /** The shape of a client frame. */
  lemma ClientHeader(fin: bool, opcode: byte, payload: Data, key: Data)
    requires opcode < 16 && |payload| < 0x1_0000_0000_0000_0000 && |key| == 4
    ensures var f := ClientFrame(fin, opcode, payload, key);
            && HeaderKnown(f) && PayloadLength(f) == |payload| && FrameSize(f) == |f|
            && f[2 + Extra(f)..6 + Extra(f)] == key && f[6 + Extra(f)..] == Masked(payload, key)
            && f[0] == (if fin then 128 else 0) + opcode && f[1] >= 128
  {
    var f := ClientFrame(fin, opcode, payload, key);
    var len := LengthBytes(|payload|);
    var n := 1 + |len|;
    var masked := Masked(payload, key);
    assert f[..n] == [(if fin then 128 else 0) + opcode] + [len[0] + 128] + len[1..];
    assert f[2..n] == len[1..];
    assert f[n..n + 4] == key && f[n + 4..] == masked;
    LengthField(f, |payload|);
  }

  /** decode_websocket_frame's status and data: -1, -3, 3, 2, -2 and 1, in this order. */
  datatype Decoded = Unmasked | Close | Pong | Ping(body: Data) | Fragment(body: Data) | Final(body: Data)

  /** A frame as get_ws_frames cuts them: at least as long as its header. */
  predicate CutFrame(data: Data) {
    |data| >= 2 && |data| >= 6 + Extra(data)
  }

  function Decode(data: Data): Decoded
    requires CutFrame(data)
  {
    var opcode := data[0] % 16;
    if data[1] < 128 then Unmasked
    else if opcode == CLOSE then Close
    else if opcode == PONG then Pong
    else
      var head := 6 + Extra(data);
      var body := Masked(data[head..], data[head - 4..head]);
      if opcode == PING then Ping(body)
      else if data[0] < 128 then Fragment(body)
      else Final(body)
  }

  /** The in-place loop: unmasked bytes move to the front of the buffer they are read from, each one after it
      was read. */
  method Unmask(data: array<byte>, head: nat, key: Data)
    requires |key| == 4 && head <= data.Length
    modifies data
    ensures data[..data.Length - head] == Masked(old(data[head..]), key)
  {
    ghost var payload := data[head..];
    var i := head;
    while i < data.Length
      invariant head <= i <= data.Length
      invariant data[..i - head] == Masked(payload[..i - head], key)
      invariant data[i..] == payload[i - head..]
    {
      var n := i - head;
      ghost var done := data[..n];
      MaskedNext(payload, key, n);
      assert data[i] == data[i..][0] == payload[n];
      ghost var later := data[i + 1..];
      assert later == data[i..][1..];
      data[n] := Xor(data[i], key[n % 4]);
      assert data[..n] == done && data[..n + 1] == data[..n] + [data[n]] && data[i + 1..] == later;
      i := i + 1;
    }
    assert payload[..|payload|] == payload;
  }

  method DecodeWebsocketFrame(data: array<byte>) returns (result: Decoded)
    requires CutFrame(data[..])
    modifies data
    ensures result == Decode(old(data[..]))
  {
    ghost var was := data[..];
    var fin := data[0] >= 128;
    var opcode := data[0] % 16;
    if data[1] < 128 { return Unmasked; }
    if opcode == CLOSE { return Close; }
    if opcode == PONG { return Pong; }
    var offset := 0;
    if data[1] % 128 == 126 {
      offset := 2;
    } else if data[1] % 128 == 127 {
      offset := 8;
    }
    var head := 6 + offset;
    assert head == 6 + Extra(was);
    var key := [data[2 + offset], data[3 + offset], data[4 + offset], data[5 + offset]];
    assert key == was[head - 4..head] by {
      assert forall k :: 0 <= k < 4 ==> key[k] == was[head - 4 + k];
    }
    assert data[head..] == was[head..];
    Unmask(data, head, key);
    var body := data[..data.Length - head];
    if opcode == PING { return Ping(body); }
    if !fin { return Fragment(body); }
    return Final(body);
  }

  /** Decoding undoes masking, for every payload, key and opcode. */
  lemma DecodeInverts(fin: bool, opcode: byte, payload: Data, key: Data)
    requires opcode < 16 && |payload| < 0x1_0000_0000_0000_0000 && |key| == 4
    ensures var f := ClientFrame(fin, opcode, payload, key);
            && CutFrame(f)
            && Decode(f) == (if opcode == CLOSE then Close
                             else if opcode == PONG then Pong
                             else if opcode == PING then Ping(payload)
                             else if fin then Final(payload)
                             else Fragment(payload))
  {
    var f := ClientFrame(fin, opcode, payload, key);
    ClientHeader(fin, opcode, payload, key);
    MaskedTwice(payload, key);
    assert f[0] % 16 == opcode && (f[0] < 128 <==> !fin);
  }

  /** Any frame the server makes, sent back masked with any key, decodes to its payload, and its stated length is
      its size. */
  lemma EchoedFrame(opcode: byte, msg: Data, key: Data)
    requires opcode in {TEXT, BINARY, PING} && |msg| < 0x1_0000_0000_0000_0000 && |key| == 4
    ensures var f := EncodeFrame(opcode, msg);
            && HeaderKnown(f) && f[1] < 128
            && var m := MaskFrame(f, key);
            && HeaderKnown(m) && FrameSize(m) == |m| && CutFrame(m)
            && Decode(m) == (if opcode == PING then Ping(msg) else Final(msg))
  {
    MaskedServerFrame(opcode, msg, key);
    ClientHeader(true, opcode, msg, key);
    DecodeInverts(true, opcode, msg, key);
  }
}
