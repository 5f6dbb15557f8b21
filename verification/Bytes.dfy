/** Bytes, big-endian 32-bit words and the `Option` type shared by the other modules. */
module Bytes {

  newtype byte = x: int | 0 <= x < 256

  datatype Option<+T> = None | Some(value: T)

  const TWO_32: int := 0x1_0000_0000
  const TWO_64: int := 0x1_0000_0000_0000_0000

  /** `u32::to_be_bytes`, after the truncating cast `as u32` of a wider value. */
  function EncodeU32(n: int): (b: seq<byte>)
    ensures |b| == 4
  {
    var m := n % TWO_32;
    [(m / 0x100_0000) as byte, (m / 0x1_0000 % 0x100) as byte, (m / 0x100 % 0x100) as byte, (m % 0x100) as byte]
  }

  /** `u32::from_be_bytes`. */
  function DecodeU32(b: seq<byte>): (n: nat)
    requires |b| == 4
    ensures n < TWO_32
  {
    b[0] as int * 0x100_0000 + b[1] as int * 0x1_0000 + b[2] as int * 0x100 + b[3] as int
  }

  /** The most significant byte comes first. */
  lemma BigEndian(n: int)
    ensures var b := EncodeU32(n);
            b[0] as int * 16777216 + b[1] as int * 65536 + b[2] as int * 256 + b[3] as int == n % 4294967296
  {
    var m := n % TWO_32;
    assert m / 0x100 / 0x100 == m / 0x1_0000;
    assert m / 0x1_0000 / 0x100 == m / 0x100_0000;
  }

  /** A 32-bit word survives the wire up to the truncation of the cast. */
  lemma U32RoundTrip(n: int)
    ensures DecodeU32(EncodeU32(n)) == n % TWO_32
  {
    var m := n % TWO_32;
    assert m / 0x100 / 0x100 == m / 0x1_0000;
    assert m / 0x1_0000 / 0x100 == m / 0x100_0000;
  }

  /** Concatenation of a list of byte strings. */
  function Flatten(parts: seq<seq<byte>>): seq<byte> {
    if parts == [] then [] else parts[0] + Flatten(parts[1..])
  }

  lemma Assoc<T>(a: seq<T>, b: seq<T>, c: seq<T>)
    ensures (a + b) + c == a + (b + c)
  {
  }

  lemma FlattenCons(f: seq<byte>, parts: seq<seq<byte>>)
    ensures Flatten([f] + parts) == f + Flatten(parts)
  {
    assert ([f] + parts)[1..] == parts;
  }

  lemma {:induction false} FlattenAppend(a: seq<seq<byte>>, b: seq<seq<byte>>)
    ensures Flatten(a + b) == Flatten(a) + Flatten(b)
  {
    if a == [] {
      assert a + b == b;
    } else {
      var f, c := a[0], a[1..];
      FlattenAppend(c, b);
      FlattenCons(f, c + b);
      Assoc(f, Flatten(c), Flatten(b));
      assert a + b == [f] + (c + b);
    }
  }
}
