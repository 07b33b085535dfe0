/** Bytes and fixed-width little-endian integers, shared by every wire and file format. */
module Bytes {

  type byte = b: int | 0 <= b < 256

  datatype Option<+T> = None | Some(value: T)

  /** 256 to the power `n`: the number of values `n` bytes can hold. */
  function Pow256(n: nat): (p: nat)
    ensures p >= 1
  {
    if n == 0 then 1 else 256 * Pow256(n - 1)
  }

  /** The `n` low bytes of `v`, least significant first. */
  function ToLe(v: nat, n: nat): (bs: seq<byte>)
    ensures |bs| == n
  {
    if n == 0 then [] else [v % 256] + ToLe(v / 256, n - 1)
  }

  /** The integer whose little-endian bytes are `bs`. */
  function FromLe(bs: seq<byte>): (v: nat)
    ensures v < Pow256(|bs|)
  {
    if |bs| == 0 then 0 else bs[0] + 256 * FromLe(bs[1..])
  }

  /** Widths used by the formats: u16, u32 and u64. */
  lemma Widths()
    ensures Pow256(1) == 0x100
    ensures Pow256(2) == 0x1_0000
    ensures Pow256(4) == 0x1_0000_0000
    ensures Pow256(8) == 0x1_0000_0000_0000_0000
  {
  }

  /** Decoding inverts encoding for every value that fits the width. */
  lemma {:induction false} LeRoundTrip(v: nat, n: nat)
    requires v < Pow256(n)
    ensures FromLe(ToLe(v, n)) == v
  {
    if n > 0 {
      LeRoundTrip(v / 256, n - 1);
      assert ToLe(v, n)[1..] == ToLe(v / 256, n - 1);
    }
  }

  /** Byte `i` holds the digit of weight 256 to the `i`: the order is little-endian. */
  lemma {:induction false} LittleEndian(v: nat, n: nat, i: nat)
    requires i < n
    ensures ToLe(v, n)[i] == v / Pow256(i) % 256
  {
    if i == 0 {
    } else {
      LittleEndian(v / 256, n - 1, i - 1);
      DivideTwice(v, 256, Pow256(i - 1));
    }
  }

  lemma DivideTwice(v: nat, a: nat, b: nat)
    requires a > 0 && b > 0
    ensures a * b > 0 && v / a / b == v / (a * b)
  {
    var q := v / a;
    var r, q2, r2 := v % a, q / b, q % b;
    assert v == a * (b * q2 + r2) + r;
    assert v == (a * b) * q2 + (a * r2 + r) by { DistributeOver(a, b, q2, r2); }
    RemainderFits(a, b, r, r2);
    QuotientIs(v, a * b, q2, a * r2 + r);
  }

  lemma DistributeOver(a: nat, b: nat, q: nat, r: nat)
    ensures a * (b * q + r) == (a * b) * q + a * r
  {
  }

  lemma RemainderFits(a: nat, b: nat, r: nat, s: nat)
    requires r < a && s < b
    ensures a * b > 0 && a * s + r < a * b
  {
    assert a * s <= a * (b - 1);
  }

  lemma NoGap(d: nat, p: nat, q: nat, r: nat)
    requires r < d && d * p <= d * q + r < d * (p + 1)
    ensures p == q
  {
    assert p < q ==> d * (p + 1) <= d * q;
    assert q < p ==> d * (q + 1) <= d * p;
  }

  lemma QuotientIs(v: nat, d: nat, q: nat, r: nat)
    requires d > 0 && r < d && v == d * q + r
    ensures v / d == q
  {
    var p := v / d;
    assert d * p <= v < d * (p + 1);
    NoGap(d, p, q, r);
  }

  /** Encoding inverts decoding: bytes of the given width stand for one value only. */
  lemma {:induction false} LeBack(bs: seq<byte>)
    ensures ToLe(FromLe(bs), |bs|) == bs
  {
    if bs == [] {
    } else {
      LeBack(bs[1..]);
      var v := FromLe(bs);
      assert v % 256 == bs[0] && v / 256 == FromLe(bs[1..]);
      assert bs == [bs[0]] + bs[1..];
    }
  }
}
