/** Octets, exclusive-or on octets, and concatenation of byte sequences. */
module Bytes {

  type byte = x: int | 0 <= x < 256

  type Data = seq<byte>

  function Pow2(k: nat): (r: nat)
    ensures r > 0
  {
    if k == 0 then 1 else 2 * Pow2(k - 1)
  }

  /** Exclusive or of the k low bits. */
  function XorBits(a: nat, b: nat, k: nat): (r: nat)
    requires a < Pow2(k) && b < Pow2(k)
    ensures r < Pow2(k)
  {
    if k == 0 then 0
    else (if a % 2 != b % 2 then 1 else 0) + 2 * XorBits(a / 2, b / 2, k - 1)
  }

  /** The binary digit of n that counts 2 to the j. */
  predicate Bit(n: nat, j: nat) {
    if j == 0 then n % 2 == 1 else Bit(n / 2, j - 1)
  }

  lemma {:induction false} XorBitsAt(a: nat, b: nat, k: nat, j: nat)
    requires a < Pow2(k) && b < Pow2(k) && j < k
    ensures Bit(XorBits(a, b, k), j) <==> Bit(a, j) != Bit(b, j)
  {
    var low := if a % 2 != b % 2 then 1 else 0;
    var high := XorBits(a / 2, b / 2, k - 1);
    assert (low + 2 * high) % 2 == low && (low + 2 * high) / 2 == high;
    if j > 0 { XorBitsAt(a / 2, b / 2, k - 1, j - 1); }
  }

  lemma {:induction false} SameBits(a: nat, b: nat, k: nat)
    requires a < Pow2(k) && b < Pow2(k)
    requires forall j :: 0 <= j < k ==> Bit(a, j) == Bit(b, j)
    ensures a == b
  {
    if k > 0 {
      assert Bit(a, 0) == Bit(b, 0);
      forall j | 0 <= j < k - 1 ensures Bit(a / 2, j) == Bit(b / 2, j) { assert Bit(a, j + 1) == Bit(b, j + 1); }
      SameBits(a / 2, b / 2, k - 1);
    }
  }

  lemma Pow2Of8()
    ensures Pow2(8) == 256
  {
    assert Pow2(4) == 16;
    assert Pow2(8) == 16 * Pow2(4);
  }

  function Xor(a: byte, b: byte): byte {
    Pow2Of8();
    XorBits(a, b, 8)
  }

  lemma XorAt(a: byte, b: byte, j: nat)
    requires j < 8
    ensures Bit(Xor(a, b), j) <==> Bit(a, j) != Bit(b, j)
  {
    Pow2Of8();
    XorBitsAt(a, b, 8, j);
  }

  /** The bits of x that are set are those in which a and b differ. */
  predicate MarksDifferences(x: byte, a: byte, b: byte) {
    forall j :: 0 <= j < 8 ==> (Bit(x, j) <==> Bit(a, j) != Bit(b, j))
  }

  /** There is exactly one such byte, and this is it. */
  lemma XorExact(a: byte, b: byte, x: byte)
    ensures MarksDifferences(x, a, b) <==> x == Xor(a, b)
  {
    forall j | 0 <= j < 8 ensures Bit(Xor(a, b), j) <==> Bit(a, j) != Bit(b, j) { XorAt(a, b, j); }
    if MarksDifferences(x, a, b) {
      Pow2Of8();
      SameBits(x, Xor(a, b), 8);
    }
  }

  lemma XorTwice(a: byte, b: byte)
    ensures Xor(Xor(a, b), b) == a
  {
    XorExact(a, b, Xor(a, b));
    XorExact(Xor(a, b), b, a);
  }

  /** Concatenation, in order. */
  function Flatten(parts: seq<Data>): Data {
    if parts == [] then [] else parts[0] + Flatten(parts[1..])
  }

  lemma {:induction false} FlattenAppend(a: seq<Data>, b: seq<Data>)
    ensures Flatten(a + b) == Flatten(a) + Flatten(b)
  {
    if a == [] {
      assert a + b == b;
    } else {
      assert (a + b)[0] == a[0] && (a + b)[1..] == a[1..] + b;
      FlattenAppend(a[1..], b);
    }
  }

  lemma FlattenCons(x: Data, a: seq<Data>)
    ensures Flatten([x] + a) == x + Flatten(a)
  {
    assert ([x] + a)[1..] == a;
  }

  lemma FlattenSnoc(a: seq<Data>, x: Data)
    ensures Flatten(a + [x]) == Flatten(a) + x
  {
    FlattenAppend(a, [x]);
    assert Flatten([x]) == x + Flatten([]);
  }

  lemma FlattenTake(parts: seq<Data>, k: nat)
    requires k < |parts|
    ensures Flatten(parts[..k + 1]) == Flatten(parts[..k]) + parts[k]
  {
    assert parts[..k + 1] == parts[..k] + [parts[k]];
    FlattenSnoc(parts[..k], parts[k]);
  }

  lemma FlattenPrefix(parts: seq<Data>, k: nat)
    requires k <= |parts|
    ensures Flatten(parts[..k]) + Flatten(parts[k..]) == Flatten(parts)
  {
    var a, b := parts[..k], parts[k..];
    assert a + b == parts;
    FlattenAppend(a, b);
  }
}
