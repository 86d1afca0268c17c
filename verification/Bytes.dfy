/** Byte strings and the fixed-width big-endian integers of encoding/binary. */
module Bytes {
  import opened Arithmetic

  type byte = x: int | 0 <= x < 256

  type Bytes = seq<byte>

  datatype Option<+T> = None | Some(value: T)

  const TWO_32: nat := 0x1_0000_0000
  const TWO_64: nat := 0x1_0000_0000_0000_0000

  /** The first number that does not fit in `width` bytes. */
  function Limit(width: nat): nat {
    if width == 0 then 1 else 256 * Limit(width - 1)
  }

  /** binary.BigEndian.PutUint32 / PutUint64, for any width. */
  function BigEndian(n: nat, width: nat): (b: Bytes)
    ensures |b| == width
  {
    if width == 0 then [] else BigEndian(n / 256, width - 1) + [n % 256]
  }

  /** binary.BigEndian.Uint32 / Uint64, for any width. */
  function FromBigEndian(b: Bytes): nat {
    if b == [] then 0 else FromBigEndian(b[..|b| - 1]) * 256 + b[|b| - 1]
  }

  lemma {:induction false} BigEndianRoundTrip(n: nat, width: nat)
    requires n < Limit(width)
    ensures FromBigEndian(BigEndian(n, width)) == n
  {
    if width == 0 {
    } else {
      BigEndianRoundTrip(n / 256, width - 1);
      var b := BigEndian(n, width);
      assert b[..width - 1] == BigEndian(n / 256, width - 1);
    }
  }

  lemma {:induction false} LimitPositive(k: nat)
    ensures Limit(k) > 0
  {
    if k > 0 {
      LimitPositive(k - 1);
    }
  }

  /** The byte of `n` that counts 256^k. */
  function ByteOf(n: nat, k: nat): byte {
    LimitPositive(k);
    n / Limit(k) % 256
  }

  /** Byte `i` of a big-endian number, the most significant one first. */
  lemma {:induction false} BigEndianByte(n: nat, width: nat, i: nat)
    requires i < width
    ensures BigEndian(n, width)[i] == ByteOf(n, width - 1 - i)
  {
    if i < width - 1 {
      BigEndianByte(n / 256, width - 1, i);
      LimitPositive(width - 2 - i);
      DivDiv(n, 256, Limit(width - 2 - i));
    }
  }

  lemma BigEndianInjective(m: nat, n: nat, width: nat)
    requires m < Limit(width) && n < Limit(width)
    requires BigEndian(m, width) == BigEndian(n, width)
    ensures m == n
  {
    BigEndianRoundTrip(m, width);
    BigEndianRoundTrip(n, width);
  }

  lemma Limits()
    ensures Limit(4) == TWO_32 && Limit(8) == TWO_64
  {
    assert Limit(1) == 256;
    assert Limit(2) == 0x1_0000;
    assert Limit(3) == 0x100_0000;
    assert Limit(5) == 0x100_0000_0000;
    assert Limit(6) == 0x1_0000_0000_0000;
    assert Limit(7) == 0x100_0000_0000_0000;
  }

  /** The concatenation of a sequence of byte strings. */
  function Flat(ws: seq<Bytes>): Bytes {
    if ws == [] then [] else ws[0] + Flat(ws[1..])
  }

  lemma Regroup(a: Bytes, b: Bytes, c: Bytes)
    ensures (a + b) + c == a + (b + c)
  {
  }

  lemma FlatCons(w: Bytes, ws: seq<Bytes>)
    ensures Flat([w] + ws) == w + Flat(ws)
  {
    assert ([w] + ws)[1..] == ws;
  }

  lemma {:induction false} FlatAppend(a: seq<Bytes>, b: seq<Bytes>)
    ensures Flat(a + b) == Flat(a) + Flat(b)
  {
    if a == [] {
      assert a + b == b;
    } else {
      FlatAppend(a[1..], b);
      assert a + b == [a[0]] + (a[1..] + b);
      FlatCons(a[0], a[1..] + b);
      Regroup(a[0], Flat(a[1..]), Flat(b));
    }
  }

  lemma FlatSnoc(a: seq<Bytes>, w: Bytes)
    ensures Flat(a + [w]) == Flat(a) + w
  {
    FlatAppend(a, [w]);
    assert [w] + [] == [w];
    FlatCons(w, []);
  }
}
