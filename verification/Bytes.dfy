/** Bytes and fixed-width big-endian integers, as written by encoding/binary and
    by DataView. */
module Bytes {

  type byte = x: int | 0 <= x < 256

  type Octets = seq<byte>

  datatype Option<+T> = None | Some(value: T)

  const UINT64 := 0x1_0000_0000_0000_0000

  /** The two inputs do not share their hash or MAC by accident. */
  predicate NoCollision<X(==), Y(==)>(f: X -> Y, x: X, y: X) { f(x) == f(y) ==> x == y }

  /** Number of values a field of `width` bytes can hold. */
  function Capacity(width: nat): (r: nat)
    ensures r > 0
  {
    if width == 0 then 1 else 256 * Capacity(width - 1)
  }

  function PutUint(n: nat, width: nat): (r: seq<byte>)
    ensures |r| == width
  {
    if width == 0 then [] else PutUint(n / 256, width - 1) + [n % 256]
  }

  function GetUint(s: seq<byte>): (n: nat)
    ensures n < Capacity(|s|)
  {
    if s == [] then 0 else 256 * GetUint(s[..|s| - 1]) + s[|s| - 1]
  }

  lemma {:induction false} GetPut(n: nat, width: nat)
    requires n < Capacity(width)
    ensures GetUint(PutUint(n, width)) == n
  {
    if width > 0 {
      GetPut(n / 256, width - 1);
      assert PutUint(n, width)[..width - 1] == PutUint(n / 256, width - 1);
    }
  }

  lemma {:induction false} PutGet(s: seq<byte>)
    ensures PutUint(GetUint(s), |s|) == s
  {
    if s != [] {
      var init, last := s[..|s| - 1], s[|s| - 1];
      PutGet(init);
      LastByte(GetUint(init), last);
      assert s == init + [last];
    }
  }

  lemma LastByte(q: nat, x: byte)
    ensures (256 * q + x as nat) / 256 == q && (256 * q + x as nat) % 256 == x as nat
  {
  }

  lemma {:induction false} Capacities()
    ensures Capacity(1) == 0x100
    ensures Capacity(2) == 0x1_0000
    ensures Capacity(4) == 0x1_0000_0000
    ensures Capacity(8) == 0x1_0000_0000_0000_0000
  {
    assert Capacity(2) == 256 * Capacity(1);
    assert Capacity(4) == 256 * Capacity(3);
    assert Capacity(6) == 256 * Capacity(5);
    assert Capacity(8) == 256 * Capacity(7);
  }

  /** The first byte counts most: bytes in front weigh what all bytes behind them can
      hold. */
  lemma {:induction false} BigEndian(a: Octets, b: Octets)
    ensures GetUint(a + b) == GetUint(a) * Capacity(|b|) + GetUint(b)
    decreases |b|
  {
    if b == [] {
      assert a + b == a;
    } else {
      var init, last := b[..|b| - 1], b[|b| - 1];
      BigEndian(a, init);
      assert b == init + [last] && a + b == (a + init) + [last];
      GetUintSnoc(a + init, last);
      GetUintSnoc(init, last);
      ShiftByte(GetUint(a), Capacity(|init|), GetUint(init), last);
    }
  }

  lemma {:induction false} GetUintSnoc(s: Octets, x: byte)
    ensures GetUint(s + [x]) == 256 * GetUint(s) + x as nat
  {
    assert (s + [x])[..|s|] == s;
  }

  lemma ShiftByte(x: nat, c: nat, y: nat, z: byte)
    ensures 256 * (x * c + y) + z as nat == x * (256 * c) + (256 * y + z as nat)
  {
  }

  lemma {:induction false} OneByte(x: byte)
    ensures GetUint([x]) == x
  {
    assert [x][..0] == [];
  }

  /** Two and four bytes of a field, the first one counting most. */
  function Uint16(hi: byte, lo: byte): nat { 256 * (hi as nat) + lo as nat }
  function Uint32(a: byte, b: byte, c: byte, d: byte): nat
  {
    0x100_0000 * (a as nat) + 0x1_0000 * (b as nat) + 0x100 * (c as nat) + d as nat
  }

  lemma {:induction false} TwoBytes(hi: byte, lo: byte)
    ensures GetUint([hi, lo]) == Uint16(hi, lo)
  {
    Capacities();
    OneByte(hi);
    OneByte(lo);
    BigEndian([hi], [lo]);
    assert [hi] + [lo] == [hi, lo];
  }

  lemma {:induction false} FourBytes(a: byte, b: byte, c: byte, d: byte)
    ensures GetUint([a, b, c, d]) == Uint32(a, b, c, d)
  {
    Capacities();
    TwoBytes(a, b);
    TwoBytes(c, d);
    BigEndian([a, b], [c, d]);
    assert [a, b] + [c, d] == [a, b, c, d];
  }

  /** The bytes of a two-byte field. */
  lemma {:induction false} PutTwo(n: nat)
    requires n < 0x1_0000
    ensures var r := PutUint(n, 2); n == Uint16(r[0], r[1])
  {
    Capacities();
    GetPut(n, 2);
    var r := PutUint(n, 2);
    assert r == [r[0], r[1]];
    TwoBytes(r[0], r[1]);
  }

  lemma {:induction false} PutFour(n: nat)
    requires n < 0x1_0000_0000
    ensures var r := PutUint(n, 4); n == Uint32(r[0], r[1], r[2], r[3])
  {
    Capacities();
    GetPut(n, 4);
    var r := PutUint(n, 4);
    assert r == [r[0], r[1], r[2], r[3]];
    FourBytes(r[0], r[1], r[2], r[3]);
  }

  lemma {:induction false} PutEight(n: nat)
    requires n < 0x1_0000_0000_0000_0000
    ensures
      var r := PutUint(n, 8);
      n == 0x1_0000_0000 * Uint32(r[0], r[1], r[2], r[3]) + Uint32(r[4], r[5], r[6], r[7])
  {
    Capacities();
    GetPut(n, 8);
    var r := PutUint(n, 8);
    FourBytes(r[0], r[1], r[2], r[3]);
    FourBytes(r[4], r[5], r[6], r[7]);
    BigEndian([r[0], r[1], r[2], r[3]], [r[4], r[5], r[6], r[7]]);
    assert r == [r[0], r[1], r[2], r[3]] + [r[4], r[5], r[6], r[7]];
  }

  function AsciiByte(c: char): (r: byte) { if (c as int) < 128 then c as int else 63 }

  /** The bytes of a text in ASCII. */
  function Ascii(text: string): (r: Octets)
  {
    seq(|text|, i requires 0 <= i < |text| => AsciiByte(text[i]))
  }
}
