/** Bytes, big-endian fields and the few sequence facts every other module uses. */
module Bytes {

  type Byte = b: int | 0 <= b < 256

  /** An unsigned 64-bit counter. */
  type U64 = n: int | 0 <= n < TWO_64

  const TWO_24 := 0x100_0000
  const TWO_32 := 0x1_0000_0000
  const TWO_63 := 0x8000_0000_0000_0000
  const TWO_64 := 0x1_0000_0000_0000_0000

  datatype Option<+T> = None | Some(value: T)

  function Pow256(n: nat): (p: nat)
    ensures p > 0
  {
    if n == 0 then 1 else 256 * Pow256(n - 1)
  }

  /** The low `width` bytes of `v`, most significant first: higher bytes are cut off, as a Go uintN conversion does. */
  function ToBE(v: nat, width: nat): (s: seq<Byte>)
    ensures |s| == width
  {
    if width == 0 then [] else ToBE(v / 256, width - 1) + [v % 256]
  }

  function FromBE(s: seq<Byte>): nat {
    if s == [] then 0 else FromBE(s[..|s| - 1]) * 256 + s[|s| - 1]
  }

  lemma {:induction false} FromToBE(v: nat, width: nat)
    requires v < Pow256(width)
    ensures FromBE(ToBE(v, width)) == v
  {
    if width > 0 {
      FromToBE(v / 256, width - 1);
      assert ToBE(v, width)[..width - 1] == ToBE(v / 256, width - 1);
    }
  }

  lemma {:induction false} ToFromBE(s: seq<Byte>)
    ensures FromBE(s) < Pow256(|s|)
    ensures ToBE(FromBE(s), |s|) == s
  {
    if s != [] {
      var init := s[..|s| - 1];
      var last := s[|s| - 1];
      ToFromBE(init);
      var v := FromBE(s);
      assert v == FromBE(init) * 256 + last;
      assert v / 256 == FromBE(init) && v % 256 == last;
      assert ToBE(v, |s|) == ToBE(v / 256, |s| - 1) + [v % 256];
      assert s == init + [last];
    }
  }

  lemma DivDiv(v: nat, m: nat)
    requires m > 0
    ensures v / 256 / m == v / (256 * m)
  {
    var q, r := v / 256, v % 256;
    var k, t := q / m, q % m;
    assert v == 256 * (k * m + t) + r == (256 * m) * k + (256 * t + r);
    assert 256 * t + r < 256 * m;
    DivIs(v, 256 * m, k, 256 * t + r);
  }

  lemma DivIs(v: nat, d: nat, k: nat, r: nat)
    requires d > 0 && v == d * k + r && r < d
    ensures v / d == k && v % d == r
  {
    assert v == d * (v / d) + v % d;
    MulStep(d, v / d, k);
    MulStep(d, k, v / d);
  }

  lemma {:induction false} MulStep(d: nat, a: nat, b: nat)
    ensures a < b ==> d * a + d <= d * b
    decreases b
  {
    if a + 1 < b {
      MulStep(d, a, b - 1);
      assert d * b == d * (b - 1) + d;
    } else if a + 1 == b {
      assert d * b == d * a + d;
    }
  }

  /** Byte `k` of a field is the digit of weight 256^(width - 1 - k): the most significant byte comes first. */
  lemma {:induction false} ToBEAt(v: nat, width: nat, k: nat)
    requires k < width
    ensures ToBE(v, width)[k] == v / Pow256(width - 1 - k) % 256
  {
    if k < width - 1 {
      ToBEAt(v / 256, width - 1, k);
      DivDiv(v, Pow256(width - 2 - k));
    }
  }

  /** The field widths the wire formats use. */
  lemma Widths()
    ensures Pow256(2) == 0x1_0000 && Pow256(4) == TWO_32 && Pow256(8) == TWO_64
  {
    assert Pow256(4) == 256 * (256 * (256 * (256 * Pow256(0))));
    assert Pow256(8) == 256 * (256 * (256 * (256 * Pow256(4))));
  }

  /** All the chunks of a sequence, one after the other. */
  function Flatten<T>(chunks: seq<seq<T>>): seq<T> {
    if chunks == [] then [] else chunks[0] + Flatten(chunks[1..])
  }

  /** Two prefixes of the same sequence: the shorter is a prefix of the longer. */
  lemma PrefixTrans<T>(a: seq<T>, b: seq<T>, c: seq<T>)
    requires a <= b && b <= c
    ensures a <= c
  {
  }

  // Adding to a truncated count is adding to the count.

  lemma ModAdd64(a: nat, b: nat)
    ensures (a % TWO_64 + b) % TWO_64 == (a + b) % TWO_64
  {
  }

  lemma ModAdd24(a: nat, b: nat)
    ensures (a % TWO_24 + b) % TWO_24 == (a + b) % TWO_24
  {
  }

  /** Of four parts of a sequence three are empty. */
  lemma NothingMore<T>(a: seq<T>, b: seq<T>, c: seq<T>, d: seq<T>, all: seq<T>)
    requires a + b + c + d == all && b == [] && c == [] && d == []
    ensures a == all
  {
  }
}
