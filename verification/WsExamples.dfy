/** What the frame functions compute, said without them: digits, opcodes and bits, and the examples of section 5.7 of
    RFC 6455. */
module WsExamples {
  import opened Bytes
  import opened WsFrames

  // ----- digits -----

  /** The first byte is the most significant one. */
  lemma {:induction false} BigEndianFront(s: Data)
    requires s != []
    ensures BigEndian(s) == s[0] * Pow256(|s| - 1) + BigEndian(s[1..])
  {
    if |s| == 1 {
      assert s[..0] == [] && s[1..] == [];
    } else {
      var init, last := s[..|s| - 1], s[|s| - 1];
      BigEndianFront(init);
      assert s[1..][..|s| - 2] == init[1..] && s[1..][|s| - 2] == last;
      assert s[0] * Pow256(|s| - 1) == s[0] * Pow256(|s| - 2) * 256;
    }
  }

  lemma SixteenBits(a: byte, b: byte)
    ensures BigEndian([a, b]) == a * 256 + b
  {
    BigEndianFront([a, b]);
    BigEndianFront([b]);
    assert [a, b][1..] == [b] && [b][1..] == [] && Pow256(1) == 256;
  }

  // ----- decoding -----

  /** How many bytes stand before the payload of a masked frame. */
  function HeaderSize(length: byte): nat {
    if length % 128 == 126 then 8 else if length % 128 == 127 then 14 else 6
  }

  /** Which frames the decoder takes for what: by mask bit, opcode and fin bit. */
  lemma DecodedKind(data: Data)
    requires CutFrame(data)
    ensures var d, opcode := Decode(data), data[0] % 16;
            && (d.Unmasked? <==> data[1] < 128)
            && (d.Close? <==> data[1] >= 128 && opcode == 0x8)
            && (d.Ping? <==> data[1] >= 128 && opcode == 0x9)
            && (d.Pong? <==> data[1] >= 128 && opcode == 0xA)
            && (d.Fragment? ==> data[0] < 128) && (d.Final? ==> data[0] >= 128)
  {
  }

  /** The payload of a decoded frame, bit by bit: those in which the byte received differs from its byte of the key. */
  lemma DecodedBits(data: Data, k: nat)
    requires CutFrame(data) && (Decode(data).Ping? || Decode(data).Fragment? || Decode(data).Final?)
    ensures var n := HeaderSize(data[1]);
            && |Decode(data).body| == |data| - n >= 0
            && (k < |data| - n ==> MarksDifferences(Decode(data).body[k], data[n + k], data[n - 4 + k % 4]))
  {
    var n := HeaderSize(data[1]);
    if k < |data| - n {
      assert data[n..][k] == data[n + k] && data[n - 4..n][k % 4] == data[n - 4 + k % 4];
      XorExact(data[n + k], data[n - 4 + k % 4], Decode(data).body[k]);
    }
  }

  // ----- section 5.7 -----

  const HELLO: Data := [0x48, 0x65, 0x6c, 0x6c, 0x6f]

  /** The frames the server makes of a text message, and of a ping. */
  lemma UnmaskedExamples()
    ensures EncodeFrame(TEXT, HELLO) == [0x81, 0x05] + HELLO
    ensures EncodeFrame(PING, HELLO) == [0x89, 0x05] + HELLO
  {
  }

  /** Messages of 256 bytes and of 64 KiB. */
  lemma LongExamples(msg: Data)
    ensures |msg| == 256 ==> EncodeFrame(BINARY, msg) == [0x82, 0x7E, 0x01, 0x00] + msg
    ensures |msg| == 65536 ==> EncodeFrame(BINARY, msg) == [0x82, 0x7F, 0, 0, 0, 0, 0, 1, 0, 0] + msg
  {
    assert ToBigEndian(256, 2) == [1, 0];
    assert ToBigEndian(65536, 4) == [0, 1, 0, 0];
  }
}
