/** Fixed-width little-endian integers, and taking concatenations apart. */
module Bytes {
  import opened Types

  function LittleEndian(n: nat, width: nat): (bytes: seq<Byte>)
    ensures |bytes| == width
  {
    if width == 0 then [] else [n % 256] + LittleEndian(n / 256, width - 1)
  }

  function FromLittleEndian(bytes: seq<Byte>): nat {
    if bytes == [] then 0 else bytes[0] + 256 * FromLittleEndian(bytes[1..])
  }

  function Pow256(width: nat): nat {
    if width == 0 then 1 else 256 * Pow256(width - 1)
  }

  lemma {:induction false} FromLittleEndianBound(bytes: seq<Byte>)
    ensures FromLittleEndian(bytes) < Pow256(|bytes|)
  {
    if bytes != [] {
      FromLittleEndianBound(bytes[1..]);
    }
  }

  lemma U64Bound(bytes: seq<Byte>)
    requires |bytes| == 8
    ensures FromLittleEndian(bytes) <= U64_MAX
  {
    FromLittleEndianBound(bytes);
  }

  lemma {:induction false} LittleEndianRoundTrip(n: nat, width: nat)
    requires n < Pow256(width)
    ensures FromLittleEndian(LittleEndian(n, width)) == n
  {
    if width > 0 {
      LittleEndianRoundTrip(n / 256, width - 1);
    }
  }

  lemma U64RoundTrip(n: U64)
    ensures FromLittleEndian(LittleEndian(n, 8)) == n
  {
    LittleEndianRoundTrip(n, 8);
  }

  function U64At(data: seq<Byte>, i: nat): U64
    requires i + 8 <= |data|
  {
    U64Bound(data[i..i + 8]);
    FromLittleEndian(data[i..i + 8])
  }

  /** The number whose little-endian digits are the eight bytes from i on. */
  function Digits8(data: seq<Byte>, i: nat): U64
    requires i + 8 <= |data|
  {
    data[i] as int + 0x100 * (data[i + 1] as int) + 0x1_0000 * (data[i + 2] as int) + 0x100_0000 * (data[i + 3] as int) + 0x1_0000_0000 * (data[i + 4] as int)
    + 0x100_0000_0000 * (data[i + 5] as int) + 0x1_0000_0000_0000 * (data[i + 6] as int) + 0x100_0000_0000_0000 * (data[i + 7] as int)
  }

  lemma {:induction false} Digits4(b: seq<Byte>)
    requires |b| == 4
    ensures FromLittleEndian(b) == b[0] as int + 0x100 * (b[1] as int) + 0x1_0000 * (b[2] as int) + 0x100_0000 * (b[3] as int)
  {
    assert b[1..][1..] == b[2..] && b[2..][1..] == b[3..] && b[3..][1..] == [];
    assert FromLittleEndian(b[3..]) == b[3];
    assert FromLittleEndian(b[2..]) == b[2] as int + 256 * (b[3] as int);
    assert FromLittleEndian(b[1..]) == b[1] + 256 * FromLittleEndian(b[2..]);
  }

  lemma {:induction false} FromLittleEndianConcat(a: seq<Byte>, b: seq<Byte>)
    ensures FromLittleEndian(a + b) == FromLittleEndian(a) + Pow256(|a|) * FromLittleEndian(b)
  {
    if a == [] {
      assert a + b == b;
    } else {
      FromLittleEndianConcat(a[1..], b);
      assert (a + b)[1..] == a[1..] + b;
      Distribute(FromLittleEndian(a[1..]), Pow256(|a| - 1), FromLittleEndian(b));
    }
  }

  lemma Distribute(x: nat, p: nat, y: nat)
    ensures 256 * (x + p * y) == 256 * x + (256 * p) * y
  {
  }

  lemma {:induction false} U64Digits(data: seq<Byte>, i: nat)
    requires i + 8 <= |data|
    ensures U64At(data, i) == Digits8(data, i)
  {
    var low, high := data[i..i + 4], data[i + 4..i + 8];
    Digits4(low);
    Digits4(high);
    FromLittleEndianConcat(low, high);
    assert data[i..i + 8] == low + high;
    assert Pow256(4) == 0x1_0000_0000;
  }

  /** A four-byte variant index is its first byte, followed by zeros, if it is below 256. */
  lemma {:induction false} TagDigits(data: seq<Byte>, tag: Byte)
    requires |data| >= 4
    ensures FromLittleEndian(data[..4]) == tag <==> data[0] == tag && data[1] == 0 && data[2] == 0 && data[3] == 0
  {
    Digits4(data[..4]);
  }

  lemma U64Injective(a: U64, b: U64)
    requires LittleEndian(a, 8) == LittleEndian(b, 8)
    ensures a == b
  {
    U64RoundTrip(a);
    U64RoundTrip(b);
  }

  /** A field of a fixed layout, read back. */
  lemma U64AtEncoded(before: seq<Byte>, n: U64, after: seq<Byte>, data: seq<Byte>)
    requires data == before + LittleEndian(n, 8) + after
    ensures U64At(data, |before|) == n
  {
    SliceIs(before, LittleEndian(n, 8), after, data);
    U64RoundTrip(n);
  }

  lemma {:induction false} EncodeDecoded(bytes: seq<Byte>)
    ensures LittleEndian(FromLittleEndian(bytes), |bytes|) == bytes
  {
    if bytes != [] {
      var n, rest := FromLittleEndian(bytes), FromLittleEndian(bytes[1..]);
      assert n % 256 == bytes[0] && n / 256 == rest;
      EncodeDecoded(bytes[1..]);
      assert LittleEndian(n, |bytes|) == [bytes[0]] + bytes[1..];
    }
  }

  lemma SliceIs<T>(before: seq<T>, part: seq<T>, after: seq<T>, s: seq<T>)
    requires s == before + part + after
    ensures s[|before|..|before| + |part|] == part
  {
  }

  lemma Peel<T>(p: seq<T>, s: seq<T>, q: seq<T>, t: seq<T>)
    requires |p| == |q| && p + s == q + t
    ensures p == q && s == t
  {
    assert p == (p + s)[..|p|] && q == (q + t)[..|q|];
    assert s == (p + s)[|p|..] && t == (q + t)[|q|..];
  }

  lemma U64Peel(m: U64, s: seq<Byte>, n: U64, t: seq<Byte>)
    requires LittleEndian(m, 8) + s == LittleEndian(n, 8) + t
    ensures m == n && s == t
  {
    Peel(LittleEndian(m, 8), s, LittleEndian(n, 8), t);
    U64Injective(m, n);
  }

  /** A four-byte variant index, read back. */
  lemma {:induction false} TagAt(tag: nat, rest: seq<Byte>)
    requires tag < 256
    ensures FromLittleEndian((LittleEndian(tag, 4) + rest)[..4]) == tag
  {
    assert (LittleEndian(tag, 4) + rest)[..4] == LittleEndian(tag, 4);
    LittleEndianRoundTrip(tag, 4);
  }
}
