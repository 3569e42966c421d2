/** Bytes, the XOR checksum and little-endian lengths shared by every wire format here. */
module Bytes {
  type byte = x: int | 0 <= x < 256

  const U32_MAX: nat := 0xFFFF_FFFF

  datatype Option<+T> = None | Some(value: T)

  function Xor(a: byte, b: byte): byte {
    ((a as bv8) ^ (b as bv8)) as int
  }

  // The longitudinal redundancy check: the XOR of all bytes, folded from the left.
  function Lrc(s: seq<byte>): byte {
    if s == [] then 0 else Xor(Lrc(s[..|s| - 1]), s[|s| - 1])
  }

  lemma LrcSnoc(s: seq<byte>, b: byte)
    ensures Lrc(s + [b]) == Xor(Lrc(s), b)
  {
    assert (s + [b])[..|s|] == s;
  }

  // A frame closed by its own checksum XORs to zero.
  lemma LrcCancels(s: seq<byte>)
    ensures Lrc(s + [Lrc(s)]) == 0
  {
    LrcSnoc(s, Lrc(s));
    var x := Lrc(s) as bv8;
    assert x ^ x == 0;
  }

  // Every byte is the value of some bits, and the two conversions undo each other.
  lemma NextBits(x: bv8)
    requires x as int < 255
    ensures (x + 1) as int == x as int + 1
  {
  }

  lemma {:induction false} BitsFor(a: byte) returns (x: bv8)
    ensures x as int == a
    decreases a
  {
    if a == 0 {
      x := 0;
    } else {
      var y := BitsFor(a - 1);
      NextBits(y);
      x := y + 1;
    }
  }

  lemma ByteOfBits(x: bv8)
    ensures (x as int) as bv8 == x
  {
  }

  lemma BitsOfByte(a: byte)
    ensures (a as bv8) as int == a
  {
    var x := BitsFor(a);
    ByteOfBits(x);
  }

  lemma BitLaws(x: bv8, y: bv8, z: bv8)
    ensures (x ^ y) ^ z == x ^ (y ^ z) && (x ^ z) ^ z == x && z ^ (z ^ x) == x && x ^ 0 == x
  {
  }

  lemma XorBits(a: byte, b: byte)
    ensures Xor(a, b) as bv8 == (a as bv8) ^ (b as bv8)
  {
    ByteOfBits((a as bv8) ^ (b as bv8));
  }

  lemma XorAssoc(a: byte, b: byte, c: byte)
    ensures Xor(Xor(a, b), c) == Xor(a, Xor(b, c)) && Xor(a, 0) == a
  {
    XorBits(a, b);
    XorBits(b, c);
    BitLaws(a as bv8, b as bv8, c as bv8);
    BitsOfByte(a);
  }

  lemma XorInjects(a: byte, b: byte, c: byte)
    ensures Xor(a, c) == Xor(b, c) || Xor(c, a) == Xor(c, b) ==> a == b
  {
    XorBits(a, c);
    XorBits(b, c);
    XorBits(c, a);
    XorBits(c, b);
    BitLaws(a as bv8, 0, c as bv8);
    BitLaws(b as bv8, 0, c as bv8);
    BitsOfByte(a);
    BitsOfByte(b);
  }

  // The checksum of a whole is that of its parts.
  lemma {:induction false} LrcAppend(s: seq<byte>, t: seq<byte>)
    ensures Lrc(s + t) == Xor(Lrc(s), Lrc(t))
    decreases |t|
  {
    hide Xor;
    if t == [] {
      assert s + t == s;
      XorAssoc(Lrc(s), 0, 0);
    } else {
      var n := |t| - 1;
      assert (s + t)[..|s + t| - 1] == s + t[..n];
      LrcAppend(s, t[..n]);
      XorAssoc(Lrc(s), Lrc(t[..n]), t[n]);
    }
  }

  // One changed byte changes it.
  lemma LrcDetects(s: seq<byte>, i: nat, b: byte)
    requires i < |s| && b != s[i]
    ensures Lrc(s[i := b]) != Lrc(s)
  {
    hide Xor;
    var before, after := s[..i], s[i + 1..];
    assert s == before + [s[i]] + after && s[i := b] == before + [b] + after;
    LrcAppend(before + [s[i]], after);
    LrcAppend(before + [b], after);
    LrcSnoc(before, s[i]);
    LrcSnoc(before, b);
    XorInjects(Xor(Lrc(before), s[i]), Xor(Lrc(before), b), Lrc(after));
    XorInjects(s[i], b, Lrc(before));
  }

  function FromLe32(a: byte, b: byte, c: byte, d: byte): nat {
    a + 0x100 * b + 0x1_0000 * c + 0x100_0000 * d
  }

  function Le32(n: nat): (s: seq<byte>)
    requires n < 0x1_0000_0000
    ensures |s| == 4 && FromLe32(s[0], s[1], s[2], s[3]) == n
  {
    var q1 := n / 0x100;
    var q2 := q1 / 0x100;
    [n % 0x100, q1 % 0x100, q2 % 0x100, q2 / 0x100]
  }

  /** Finite lists; cheaper to reason about than sequences of structured values. */
  datatype List<+T> = Nil | Cons(head: T, tail: List<T>)

  function Append<T>(a: List<T>, b: List<T>): List<T> {
    match a
    case Nil => b
    case Cons(x, rest) => Cons(x, Append(rest, b))
  }

  lemma {:induction false} AppendNil<T>(a: List<T>)
    ensures Append(a, Nil) == a
  {
    match a
    case Nil =>
    case Cons(_, rest) => AppendNil(rest);
  }

  lemma {:induction false} AppendAssoc<T>(a: List<T>, b: List<T>, c: List<T>)
    ensures Append(Append(a, b), c) == Append(a, Append(b, c))
  {
    match a
    case Nil =>
    case Cons(_, rest) => AppendAssoc(rest, b, c);
  }

  function Length<T>(a: List<T>): nat {
    match a
    case Nil => 0
    case Cons(_, rest) => 1 + Length(rest)
  }

  function Join(parts: List<seq<byte>>): seq<byte> {
    match parts
    case Nil => []
    case Cons(p, rest) => p + Join(rest)
  }

  lemma {:induction false} JoinAppend(a: List<seq<byte>>, b: List<seq<byte>>)
    ensures Join(Append(a, b)) == Join(a) + Join(b)
  {
    match a
    case Nil =>
    case Cons(_, rest) => JoinAppend(rest, b);
  }
}
