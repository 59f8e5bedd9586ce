/** Little-endian integers in byte strings, and Python's slices. */
module Bytes {
  import opened Common

  const W := 0x1_0000_0000

  predicate Fits32(n: int) { 0 <= n < W }

  predicate Fits64(n: int) { 0 <= n < W * W }

  function U32(n: int): (b: seq<byte>)
    ensures |b| == 4
  {
    [n % 256, n / 0x100 % 256, n / 0x1_0000 % 256, n / 0x100_0000 % 256]
  }

  function U64(n: nat): (b: seq<byte>)
    ensures |b| == 8
  {
    U32(n % W) + U32(n / W)
  }

  function U32s(ns: seq<int>): (b: seq<byte>)
    ensures |b| == 4 * |ns|
  {
    if ns == [] then [] else U32(ns[0]) + U32s(ns[1..])
  }

  function Read32(d: seq<byte>, o: nat): nat
    requires o + 4 <= |d|
  {
    var b0: nat, b1: nat, b2: nat, b3: nat := d[o], d[o + 1], d[o + 2], d[o + 3];
    b0 + 0x100 * b1 + 0x1_0000 * b2 + 0x100_0000 * b3
  }

  function Read64(d: seq<byte>, o: nat): nat
    requires o + 8 <= |d|
  {
    Read32(d, o) + W * Read32(d, o + 4)
  }

  /** The lowest byte comes first. */
  lemma LowestByteFirst()
    ensures U32(0x0403_0201) == [1, 2, 3, 4]
    ensures U64(0x0807_0605_0403_0201) == [1, 2, 3, 4, 5, 6, 7, 8]
  {}

  // d has the bytes b at offset o.
  ghost predicate Holds(d: seq<byte>, o: nat, b: seq<byte>) {
    o + |b| <= |d| && forall i | 0 <= i < |b| :: d[o + i] == b[i]
  }

  lemma Digits256(n: nat)
    requires n < W
    ensures n == n % 256 + 0x100 * (n / 0x100 % 256) + 0x1_0000 * (n / 0x1_0000 % 256)
                 + 0x100_0000 * (n / 0x100_0000 % 256)
  {
    assert n / 0x100 / 0x100 == n / 0x1_0000;
    assert n / 0x1_0000 / 0x100 == n / 0x100_0000;
  }

  lemma Read32Back(d: seq<byte>, o: nat, n: nat)
    requires n < W && Holds(d, o, U32(n))
    ensures Read32(d, o) == n
  {
    var b := U32(n);
    Digits256(n);
    assert d[o + 0] == b[0] && d[o + 1] == b[1] && d[o + 2] == b[2] && d[o + 3] == b[3];
  }

  lemma HoldsParts(d: seq<byte>, o: nat, u: seq<byte>, v: seq<byte>)
    requires Holds(d, o, u + v)
    ensures Holds(d, o, u) && Holds(d, o + |u|, v)
  {
    forall i | 0 <= i < |u| ensures d[o + i] == u[i] {
      assert (u + v)[i] == u[i];
    }
    forall i | 0 <= i < |v| ensures d[o + |u| + i] == v[i] {
      assert d[o + (|u| + i)] == (u + v)[|u| + i];
    }
  }

  lemma Read64Back(d: seq<byte>, o: nat, n: nat)
    requires n < W * W && Holds(d, o, U64(n))
    ensures Read64(d, o) == n
  {
    HoldsParts(d, o, U32(n % W), U32(n / W));
    Read32Back(d, o, n % W);
    Read32Back(d, o + 4, n / W);
  }

  lemma {:induction false} Read32sBack(d: seq<byte>, o: nat, ns: seq<int>)
    requires Holds(d, o, U32s(ns)) && forall i | 0 <= i < |ns| :: Fits32(ns[i])
    ensures forall i | 0 <= i < |ns| :: Read32(d, o + 4 * i) == ns[i]
    decreases |ns|
  {
    if ns != [] {
      HoldsParts(d, o, U32(ns[0]), U32s(ns[1..]));
      Read32Back(d, o, ns[0]);
      Read32sBack(d, o + 4, ns[1..]);
      forall i | 1 <= i < |ns| ensures Read32(d, o + 4 * i) == ns[i] {
        assert Read32(d, o + 4 + 4 * (i - 1)) == ns[1..][i - 1];
      }
    }
  }

  lemma HoldsPrefix(h: seq<byte>, rest: seq<byte>, o: nat, b: seq<byte>)
    requires Holds(h, o, b)
    ensures Holds(h + rest, o, b)
  {
    forall i | 0 <= i < |b| ensures (h + rest)[o + i] == b[i] {
      assert h[o + i] == b[i];
    }
  }

  // data[a:b] for 0 <= a <= b.
  function Slice(d: seq<byte>, a: nat, b: nat): seq<byte>
    requires a <= b
  {
    d[Min(a, |d|)..Min(b, |d|)]
  }
}
