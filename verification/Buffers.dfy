/** Bytes: numbers stored in them, either end first, and buffers filled in
    field by field. */
module Buffers {

  type Bytes = seq<bv8>

  // ------------------------------------------------ bytes and little-endian numbers

  function Pow256(k: nat): nat { if k == 0 then 1 else 256 * Pow256(k - 1) }

  function Set(on: bool, mask: bv8): bv8 { if on then mask else 0 }

  function Digit(n: nat, weight: nat): bool
    requires weight > 0
  {
    n / weight % 2 == 1
  }

  /** The byte with the binary digits of `n`, and the number a byte stands for. */
  function Byte(n: nat): bv8
    requires n < 256
  {
    Joined(Digit(n, 1), Digit(n, 2), Digit(n, 4), Digit(n, 8), Digit(n, 16), Digit(n, 32), Digit(n, 64), Digit(n, 128))
  }

  function Joined(a: bool, b: bool, c: bool, d: bool, e: bool, f: bool, g: bool, h: bool): bv8 {
    Set(a, 1) | Set(b, 2) | Set(c, 4) | Set(d, 8) | Set(e, 16) | Set(f, 32) | Set(g, 64) | Set(h, 128)
  }

  function Has(b: bv8, mask: bv8): bool { b & mask != 0 }

  function Weigh(on: bool, weight: nat): nat { if on then weight else 0 }

  function Val(b: bv8): nat {
    Weigh(Has(b, 1), 1) + Weigh(Has(b, 2), 2) + Weigh(Has(b, 4), 4) + Weigh(Has(b, 8), 8)
      + Weigh(Has(b, 16), 16) + Weigh(Has(b, 32), 32) + Weigh(Has(b, 64), 64) + Weigh(Has(b, 128), 128)
  }

  lemma {:induction false} JoinedHas(a: bool, b: bool, c: bool, d: bool, e: bool, f: bool, g: bool, h: bool)
    ensures var x := Joined(a, b, c, d, e, f, g, h);
      && Has(x, 1) == a && Has(x, 2) == b && Has(x, 4) == c && Has(x, 8) == d
      && Has(x, 16) == e && Has(x, 32) == f && Has(x, 64) == g && Has(x, 128) == h
  {
  }

  /** One digit more of `n`, whose quotients by the weights halve. */
  lemma {:induction false} OneDigit(n: nat, weight: nat)
    requires weight > 0
    ensures n / weight * weight == n / (2 * weight) * (2 * weight) + Weigh(Digit(n, weight), weight)
  {
    var q := n / weight;
    QuotientHalves(n, weight);
    assert q == q / 2 * 2 + if Digit(n, weight) then 1 else 0;
    assert q * weight == (q / 2 * 2) * weight + Weigh(Digit(n, weight), weight);
  }

  lemma {:induction false} QuotientHalves(n: nat, w: nat)
    requires w > 0
    ensures n / (2 * w) == n / w / 2
  {
    var q := n / w;
    var h := q / 2;
    assert n == q * w + n % w;
    assert q * w == (2 * h + q % 2) * w == h * (2 * w) + q % 2 * w;
    var r := n - h * (2 * w);
    assert r == q % 2 * w + n % w;
    assert q % 2 * w <= w;
    assert 0 <= r < 2 * w;
    QuotientIs(n, 2 * w, h, r);
  }

  lemma {:induction false} QuotientIs(n: nat, w: nat, h: nat, r: int)
    requires 0 <= r < w && n == h * w + r
    ensures n / w == h
  {
    var q, rest := n / w, n % w;
    assert n == q * w + rest;
    if q > h {
      Multiply(h + 1, q, w);
    } else if q < h {
      Multiply(q + 1, h, w);
    }
  }

  lemma {:induction false} Digits(n: nat)
    requires n < 256
    ensures n == Weigh(Digit(n, 1), 1) + Weigh(Digit(n, 2), 2) + Weigh(Digit(n, 4), 4) + Weigh(Digit(n, 8), 8)
      + Weigh(Digit(n, 16), 16) + Weigh(Digit(n, 32), 32) + Weigh(Digit(n, 64), 64) + Weigh(Digit(n, 128), 128)
  {
    hide Digit, Weigh;
    OneDigit(n, 1);
    OneDigit(n, 2);
    OneDigit(n, 4);
    OneDigit(n, 8);
    OneDigit(n, 16);
    OneDigit(n, 32);
    OneDigit(n, 64);
    OneDigit(n, 128);
  }

  function Le(n: nat, k: nat): (s: Bytes)
    ensures |s| == k
  {
    if k == 0 then [] else [Byte(n % 256)] + Le(n / 256, k - 1)
  }

  function FromLe(s: Bytes): nat {
    if s == [] then 0 else Val(s[0]) + 256 * FromLe(s[1..])
  }

  lemma {:induction false} ByteVal(n: nat)
    requires n < 256
    ensures Val(Byte(n)) == n
  {
    hide Joined, Has, Digit, Weigh;
    Digits(n);
    JoinedHas(Digit(n, 1), Digit(n, 2), Digit(n, 4), Digit(n, 8), Digit(n, 16), Digit(n, 32), Digit(n, 64), Digit(n, 128));
  }

  lemma {:induction false} LeRoundTrip(n: nat, k: nat)
    requires n < Pow256(k)
    ensures FromLe(Le(n, k)) == n
    decreases k
  {
    hide Byte, Val;
    if k > 0 {
      ByteVal(n % 256);
      LeRoundTrip(n / 256, k - 1);
      assert Le(n, k)[1..] == Le(n / 256, k - 1);
    }
  }

  lemma {:induction false} Widths()
    ensures Pow256(2) == 0x1_0000 && Pow256(4) == 0x1_0000_0000 && Pow256(8) == 0x1_0000_0000_0000_0000
  {
    assert Pow256(3) == 0x100_0000 && Pow256(5) == 0x100_0000_0000 && Pow256(6) == 0x1_0000_0000_0000 && Pow256(7) == 0x100_0000_0000_0000;
  }

  function Zeros(n: nat): (s: Bytes)
    ensures |s| == n
  {
    seq(n, _ => 0)
  }

  // ------------------------------------------------ big-endian

  /** The low `k` bytes of `n`, as a cast to the width keeps them. */
  function Be(n: nat, k: nat): (s: Bytes)
    ensures |s| == k
  {
    if k == 0 then [] else Be(n / 256, k - 1) + [Byte(n % 256)]
  }

  function FromBe(s: Bytes): nat {
    if s == [] then 0 else 256 * FromBe(s[..|s| - 1]) + Val(s[|s| - 1])
  }

  lemma {:induction false} BeRoundTrip(n: nat, k: nat)
    requires n < Pow256(k)
    ensures FromBe(Be(n, k)) == n
    decreases k
  {
    hide Byte, Val;
    if k > 0 {
      ByteVal(n % 256);
      BeRoundTrip(n / 256, k - 1);
      assert Be(n, k)[..k - 1] == Be(n / 256, k - 1);
    }
  }

  lemma {:induction false} ValBelow(b: bv8)
    ensures Val(b) < 256
  {
    hide Has;
  }

  lemma {:induction false} FromBeBelow(s: Bytes)
    ensures FromBe(s) < Pow256(|s|)
    decreases |s|
  {
    hide Val;
    if s != [] {
      ValBelow(s[|s| - 1]);
      FromBeBelow(s[..|s| - 1]);
    }
  }

  lemma {:induction false} ZeroByte()
    ensures Byte(0) == 0
  {
  }

  lemma {:induction false} ZeroLe(k: nat)
    ensures Le(0, k) == Zeros(k)
    decreases k
  {
    hide Byte;
    if k > 0 {
      ZeroByte();
      ZeroLe(k - 1);
    }
  }

  lemma {:induction false} Multiply(a: nat, b: nat, c: nat)
    requires a <= b
    ensures a * c <= b * c
  {
  }

  lemma {:induction false} Middle(a: Bytes, b: Bytes, c: Bytes)
    ensures (a + b + c)[|a|..|a| + |b|] == b
  {
  }

  // ------------------------------------------------ filling a buffer

  /** `copy_from_slice` into a buffer. */
  method Put(buf: array<bv8>, at: nat, bytes: Bytes)
    requires at + |bytes| <= buf.Length
    modifies buf
    ensures buf[..] == old(buf[..at]) + bytes + old(buf[at + |bytes|..])
  {
    for i := 0 to |bytes|
      invariant forall k :: 0 <= k < buf.Length ==> buf[k] == if at <= k < at + i then bytes[k - at] else old(buf[k])
    {
      buf[at + i] := bytes[i];
    }
  }

  method ZeroBuffer(n: nat) returns (buf: array<bv8>)
    ensures fresh(buf) && buf.Length == n && buf[..] == Zeros(n)
  {
    buf := new bv8[n](_ => 0);
    assert buf[..] == Zeros(n);
  }

  /** What has been filled in so far, and zeros up to `n`. */
  function Filled(front: Bytes, n: nat): (s: Bytes)
    requires |front| <= n
    ensures |s| == n
  {
    front + Zeros(n - |front|)
  }

  /** Putting the next field where the last one ended. */
  method PutNext(buf: array<bv8>, ghost front: Bytes, at: nat, bytes: Bytes)
    requires at == |front| && at + |bytes| <= buf.Length && buf[..] == Filled(front, buf.Length)
    modifies buf
    ensures buf[..] == Filled(front + bytes, buf.Length)
  {
    Put(buf, at, bytes);
    assert buf[..] == Filled(front + bytes, buf.Length);
  }

  /** Leaving a gap of zeros. */
  lemma {:induction false} SkipZeros(front: Bytes, gap: nat, n: nat)
    requires |front| + gap <= n
    ensures Filled(front, n) == Filled(front + Zeros(gap), n)
  {
  }

  lemma {:induction false} FilledPrefix(front: Bytes, n: nat)
    requires |front| <= n
    ensures Filled(front, n)[..|front|] == front && Filled(front, n)[|front|..] == Zeros(n - |front|)
  {
  }

  lemma {:induction false} NothingFilled(n: nat)
    ensures Filled([], n) == Zeros(n)
  {
  }
}
