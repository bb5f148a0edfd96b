/** The CRC-32 a GPT carries: the bitwise loop against the polynomial division
    of IEEE 802.3 clause 3.2.9, and the damage it is sure to catch. */
module Crc32 {

  // ------------------------------------------------ 32-bit words

  function Poly(): bv32 { 0xEDB88320 }
  function Ones(): bv32 { 0xFFFFFFFF }
  function Xor(x: bv32, y: bv32): bv32 { x ^ y }
  function Half(x: bv32): bv32 { x >> 1 }
  predicate Odd(x: bv32) { x & 1 == 1 }
  function Not(x: bv32): bv32 { !x }
  function OfByte(b: bv8): bv32 { b as bv32 }
  function Raised(w: bv32): bv32 { w << 8 }
  function Lowered(w: bv32): bv32 { w >> 8 }
  /** The top `k` bytes are zero, `k` at most 4. */
  predicate Spare(w: bv32, k: nat) {
    if k == 0 then true
    else if k == 1 then w & 0xFF000000 == 0
    else if k == 2 then w & 0xFFFF0000 == 0
    else if k == 3 then w & 0xFFFFFF00 == 0
    else w == 0
  }

  lemma {:induction false} XorAssociative(x: bv32, y: bv32, z: bv32)
    ensures Xor(Xor(x, y), z) == Xor(x, Xor(y, z))
  {
  }

  lemma {:induction false} XorCommutes(x: bv32, y: bv32)
    ensures Xor(x, y) == Xor(y, x)
  {
  }

  lemma {:induction false} XorSelf(x: bv32)
    ensures Xor(x, x) == 0
  {
  }

  lemma {:induction false} XorZero(x: bv32)
    ensures Xor(x, 0) == x
  {
  }

  lemma {:induction false} XorCancelsRight(x: bv32, y: bv32, z: bv32)
    ensures Xor(x, z) == Xor(y, z) ==> x == y
  {
  }

  lemma {:induction false} XorCancelsLeft(x: bv32, y: bv32, z: bv32)
    ensures Xor(z, x) == Xor(z, y) ==> x == y
  {
  }

  lemma {:induction false} XorHalves(x: bv32, y: bv32)
    ensures Half(Xor(x, y)) == Xor(Half(x), Half(y))
    ensures Odd(Xor(x, y)) == (Odd(x) != Odd(y))
  {
  }

  lemma {:induction false} NotLaws(x: bv32, y: bv32)
    ensures Not(x) == Not(y) ==> x == y
    ensures Not(Not(x)) == x
  {
  }

  lemma {:induction false} SmallWords()
    ensures Half(0) == 0 && !Odd(0) && Half(1) == 0 && Odd(1)
  {
  }

  // ------------------------------------------------ the CRC

  /** One turn of the inner loop. */
  function Step(crc: bv32): bv32 {
    if Odd(crc) then Xor(Half(crc), Poly()) else Half(crc)
  }

  function Steps(crc: bv32, n: nat): bv32
    decreases n
  {
    if n == 0 then crc else Steps(Step(crc), n - 1)
  }

  function Absorb(crc: bv32, b: bv8): bv32 {
    Steps(Xor(crc, OfByte(b)), 8)
  }

  function Register(crc: bv32, data: seq<bv8>): bv32
    decreases |data|
  {
    if data == [] then crc else Absorb(Register(crc, data[..|data| - 1]), data[|data| - 1])
  }

  function Crc(data: seq<bv8>): bv32 {
    Not(Register(Ones(), data))
  }

  method Compute(data: seq<bv8>) returns (crc: bv32)
    ensures crc == Crc(data)
  {
    hide Xor, Half, Odd, Poly, OfByte, Not, Ones;
    crc := Ones();
    for i := 0 to |data|
      invariant crc == Register(Ones(), data[..i])
    {
      crc := Xor(crc, OfByte(data[i]));
      ghost var mixed := crc;
      for k := 0 to 8
        invariant Steps(mixed, 8) == Steps(crc, 8 - k)
      {
        crc := if Odd(crc) then Xor(Half(crc), Poly()) else Half(crc);
      }
      assert data[..i + 1][..i] == data[..i];
    }
    assert data[..|data|] == data;
    crc := Not(crc);
  }

  // ------------------------------------------------ the step is a bijection

  function Unstep(crc: bv32): bv32 {
    if crc & 0x80000000 != 0 then ((crc ^ 0xEDB88320) << 1) | 1 else crc << 1
  }

  lemma {:induction false} UnstepUndoes(x: bv32)
    ensures Unstep(Step(x)) == x
  {
  }

  lemma {:induction false} StepUndoes(x: bv32)
    ensures Step(Unstep(x)) == x
  {
    if x & 0x80000000 != 0 { UndoneOdd(x); PolyTwice(x); } else { UndoneEven(x); }
  }

  lemma {:induction false} UndoneOdd(x: bv32)
    requires x & 0x80000000 != 0
    ensures var y := ((x ^ 0xEDB88320) << 1) | 1; y & 1 == 1 && y >> 1 == x ^ 0xEDB88320
  {
  }

  lemma {:induction false} PolyTwice(x: bv32)
    ensures (x ^ 0xEDB88320) ^ 0xEDB88320 == x
  {
  }

  lemma {:induction false} UndoneEven(x: bv32)
    requires x & 0x80000000 == 0
    ensures (x << 1) & 1 == 0 && (x << 1) >> 1 == x
  {
  }

  /** Every register has exactly one register before it. */
  lemma {:induction false} StepBijective(y: bv32)
    ensures exists x :: Step(x) == y && forall z :: Step(z) == y ==> z == x
  {
    hide Step, Unstep;
    StepUndoes(y);
    var x := Unstep(y);
    forall z | Step(z) == y ensures z == x { UnstepUndoes(z); }
  }

  lemma {:induction false} StepsInjective(x: bv32, y: bv32, n: nat)
    ensures Steps(x, n) == Steps(y, n) ==> x == y
    decreases n
  {
    hide Step, Unstep;
    if n > 0 {
      StepsInjective(Step(x), Step(y), n - 1);
      UnstepUndoes(x);
      UnstepUndoes(y);
    }
  }

  /** Whatever follows, two different registers stay different. */
  lemma {:induction false} RegisterInjective(x: bv32, y: bv32, data: seq<bv8>)
    ensures Register(x, data) == Register(y, data) ==> x == y
    decreases |data|
  {
    hide Steps, Xor, OfByte;
    if data != [] {
      var n := |data| - 1;
      RegisterInjective(x, y, data[..n]);
      var u, v, b := Register(x, data[..n]), Register(y, data[..n]), OfByte(data[n]);
      StepsInjective(Xor(u, b), Xor(v, b), 8);
      XorCancelsRight(u, v, b);
    }
  }

  lemma {:induction false} RegisterAppend(x: bv32, a: seq<bv8>, b: seq<bv8>)
    ensures Register(x, a + b) == Register(Register(x, a), b)
    decreases |b|
  {
    hide Absorb;
    if b == [] {
      assert a + b == a;
    } else {
      assert (a + b)[..|a + b| - 1] == a + b[..|b| - 1];
      RegisterAppend(x, a, b[..|b| - 1]);
    }
  }

  // ------------------------------------------------ shifting

  function Halves(e: bv32, n: nat): bv32
    decreases n
  {
    if n == 0 then e else Halves(Half(e), n - 1)
  }

  /** The low `n` bits are zero. */
  predicate Even(e: bv32, n: nat)
    decreases n
  {
    n == 0 || (!Odd(e) && Even(Half(e), n - 1))
  }

  lemma {:induction false} HalvesAdd(e: bv32, m: nat, n: nat)
    ensures Halves(Halves(e, m), n) == Halves(e, m + n)
    decreases m
  {
    hide Half;
    if m > 0 { HalvesAdd(Half(e), m - 1, n); }
  }

  lemma {:induction false} EightHalves(e: bv32)
    ensures Halves(e, 8) == Lowered(e)
  {
    EightShifts(e);
    hide Half, Lowered;
    var a, b, c := Half(e), Half(Half(e)), Half(Half(Half(e)));
    HalvesUnfold(e, 8); HalvesUnfold(a, 7); HalvesUnfold(b, 6); HalvesUnfold(c, 5);
    var d := Half(c);
    HalvesUnfold(d, 4); HalvesUnfold(Half(d), 3); HalvesUnfold(Half(Half(d)), 2); HalvesUnfold(Half(Half(Half(d))), 1);
    HalvesUnfold(Half(Half(Half(Half(d)))), 0);
  }

  lemma {:induction false} HalvesUnfold(e: bv32, n: nat)
    ensures Halves(e, n) == if n == 0 then e else Halves(Half(e), n - 1)
  {
    hide Half;
  }

  lemma {:induction false} EightShifts(e: bv32)
    ensures Half(Half(Half(Half(Half(Half(Half(Half(e)))))))) == Lowered(e)
  {
  }

  lemma {:induction false} RaisedEven(w: bv32)
    ensures var e := Raised(w);
      !Odd(e) && !Odd(Half(e)) && !Odd(Half(Half(e))) && !Odd(Half(Half(Half(e))))
      && var d := Half(Half(Half(Half(e))));
      !Odd(d) && !Odd(Half(d)) && !Odd(Half(Half(d))) && !Odd(Half(Half(Half(d))))
  {
  }

  lemma {:induction false} EvenUnfold(e: bv32, n: nat)
    ensures Even(e, n) <==> n == 0 || (!Odd(e) && Even(Half(e), n - 1))
  {
    hide Half, Odd;
  }

  lemma {:induction false} RaiseAndLower(w: bv32)
    requires Spare(w, 1)
    ensures Even(Raised(w), 8) && Halves(Raised(w), 8) == w
  {
    RaisedEven(w);
    LoweredBack(w);
    EightHalves(Raised(w));
    hide Half, Odd, Raised, Lowered, Spare;
    var e := Raised(w);
    EvenUnfold(e, 8); EvenUnfold(Half(e), 7); EvenUnfold(Half(Half(e)), 6); EvenUnfold(Half(Half(Half(e))), 5);
    var d := Half(Half(Half(Half(e))));
    EvenUnfold(d, 4); EvenUnfold(Half(d), 3); EvenUnfold(Half(Half(d)), 2); EvenUnfold(Half(Half(Half(d))), 1);
    EvenUnfold(Half(Half(Half(Half(d)))), 0);
  }

  lemma {:induction false} LoweredBack(w: bv32)
    requires Spare(w, 1)
    ensures Lowered(Raised(w)) == w
  {
  }

  lemma {:induction false} StepShift(z: bv32, e: bv32)
    requires !Odd(e)
    ensures Step(Xor(z, e)) == Xor(Step(z), Half(e))
  {
    XorHalves(z, e);
    hide Xor, Odd, Half, Poly;
    XorAssociative(Half(z), Half(e), Poly());
    XorAssociative(Half(z), Poly(), Half(e));
    XorCommutes(Half(e), Poly());
  }

  /** `n` steps shift what lies above the low `n` bits into place, untouched. */
  lemma {:induction false} StepsShift(z: bv32, e: bv32, n: nat)
    requires Even(e, n)
    ensures Steps(Xor(z, e), n) == Xor(Steps(z, n), Halves(e, n))
    decreases n
  {
    hide Step, Xor, Half, Odd;
    if n > 0 {
      StepShift(z, e);
      StepsShift(Step(z), Half(e), n - 1);
    }
  }

  lemma {:induction false} StepsAdd(z: bv32, m: nat, n: nat)
    ensures Steps(Steps(z, m), n) == Steps(z, m + n)
    decreases m
  {
    hide Step;
    if m > 0 { StepsAdd(Step(z), m - 1, n); }
  }

  // ------------------------------------------------ bursts

  /** Up to four bytes as one little-endian word. */
  function Word(u: seq<bv8>): bv32
    decreases |u|
  {
    if u == [] then 0 else Xor(OfByte(u[0]), Raised(Word(u[1..])))
  }

  lemma {:induction false} WordFits(u: seq<bv8>)
    requires |u| <= 4
    ensures Spare(Word(u), 4 - |u|)
    decreases |u|
  {
    hide Raised, OfByte, Xor, Spare;
    if u == [] {
      NothingSpare();
    } else {
      WordFits(u[1..]);
      JoinFits(u[0], Word(u[1..]), 5 - |u|);
    }
  }

  lemma {:induction false} NothingSpare()
    ensures Spare(0, 4)
  {
  }

  lemma {:induction false} JoinFits(b: bv8, w: bv32, k: nat)
    requires 1 <= k <= 4 && Spare(w, k)
    ensures Spare(Xor(OfByte(b), Raised(w)), k - 1)
  {
    if k == 2 { JoinFits2(b, w); } else if k == 3 { JoinFits3(b, w); } else if k == 4 { JoinFits4(b); }
  }

  lemma {:induction false} JoinFits2(b: bv8, w: bv32)
    requires w & 0xFFFF0000 == 0
    ensures Xor(OfByte(b), Raised(w)) & 0xFF000000 == 0
  {
  }

  lemma {:induction false} JoinFits3(b: bv8, w: bv32)
    requires w & 0xFFFFFF00 == 0
    ensures Xor(OfByte(b), Raised(w)) & 0xFFFF0000 == 0
  {
  }

  lemma {:induction false} JoinFits4(b: bv8)
    ensures Xor(OfByte(b), Raised(0)) & 0xFFFFFF00 == 0
  {
  }

  lemma {:induction false} SpareAtLeast(w: bv32, k: nat)
    requires 1 <= k <= 4 && Spare(w, k)
    ensures Spare(w, 1)
  {
    if k == 2 { Narrower(w, 0xFFFF0000); } else if k == 3 { Narrower(w, 0xFFFFFF00); }
  }

  lemma {:induction false} Narrower(w: bv32, mask: bv32)
    requires mask & 0xFF000000 == 0xFF000000 && w & mask == 0
    ensures w & 0xFF000000 == 0
  {
  }

  lemma {:induction false} JoinInjective(a: bv8, s: bv32, b: bv8, t: bv32)
    requires Spare(s, 1) && Spare(t, 1)
    ensures Xor(OfByte(a), Raised(s)) == Xor(OfByte(b), Raised(t)) ==> a == b && s == t
  {
  }

  lemma {:induction false} WordInjective(u: seq<bv8>, v: seq<bv8>)
    requires |u| == |v| <= 4
    ensures Word(u) == Word(v) ==> u == v
    decreases |u|
  {
    hide Raised, OfByte, Xor, Spare;
    if u != [] {
      WordFits(u[1..]);
      WordFits(v[1..]);
      SpareAtLeast(Word(u[1..]), 5 - |u|);
      SpareAtLeast(Word(v[1..]), 5 - |u|);
      WordInjective(u[1..], v[1..]);
      JoinInjective(u[0], Word(u[1..]), v[0], Word(v[1..]));
      assert u == [u[0]] + u[1..] && v == [v[0]] + v[1..];
    }
  }

  lemma {:induction false} RegisterOfByte(x: bv32, b: bv8)
    ensures Register(x, [b]) == Steps(Xor(x, OfByte(b)), 8)
  {
    hide Steps, Xor, OfByte;
    assert [b][..0] == [];
  }

  /** Up to four bytes go in as one word. */
  lemma {:induction false} RegisterOfWord(x: bv32, u: seq<bv8>)
    requires |u| <= 4
    ensures Register(x, u) == Steps(Xor(x, Word(u)), 8 * |u|)
    decreases |u|
  {
    hide Register, Steps, Xor, OfByte, Raised, Spare, Even, Halves;
    if u == [] {
      NoBytes(x);
    } else {
      var b, t := OfByte(u[0]), u[1..];
      var up := Raised(Word(t));
      assert u == [u[0]] + t;
      RegisterAppend(x, [u[0]], t);
      RegisterOfByte(x, u[0]);
      RegisterOfWord(Steps(Xor(x, b), 8), t);
      WordFits(t);
      SpareAtLeast(Word(t), 4 - |t|);
      RaiseAndLower(Word(t));
      StepsShift(Xor(x, b), up, 8);
      XorAssociative(x, b, up);
      StepsAdd(Xor(x, Word(u)), 8, 8 * |t|);
    }
  }

  lemma {:induction false} NoBytes(x: bv32)
    ensures Register(x, []) == x && Steps(Xor(x, 0), 0) == x && Word([]) == 0
  {
    XorZero(x);
  }

  /** Damage inside four consecutive bytes always changes the CRC. */
  lemma {:induction false} BurstDetected(before: seq<bv8>, u: seq<bv8>, v: seq<bv8>, after: seq<bv8>)
    requires |u| == |v| <= 4 && u != v
    ensures Crc(before + u + after) != Crc(before + v + after)
  {
    hide Register, Steps, Word, Xor, Not, Ones;
    var x := Register(Ones(), before);
    RegisterAppend(Ones(), before + u, after);
    RegisterAppend(Ones(), before + v, after);
    RegisterAppend(Ones(), before, u);
    RegisterAppend(Ones(), before, v);
    RegisterOfWord(x, u);
    RegisterOfWord(x, v);
    WordInjective(u, v);
    XorCancelsLeft(Word(u), Word(v), x);
    StepsInjective(Xor(x, Word(u)), Xor(x, Word(v)), 8 * |u|);
    RegisterInjective(Register(x, u), Register(x, v), after);
    NotLaws(Register(Ones(), before + u + after), Register(Ones(), before + v + after));
  }

  // ------------------------------------------------ the polynomial remainder

  /** Bit `i` of a register is the coefficient of x^(31 - i). */
  predicate Bit(r: bv32, i: nat) { Odd(Halves(r, i)) }

  /** The low `n` bits, lowest first. */
  function Bits(r: bv32, n: nat): seq<bool>
    decreases n
  {
    if n == 0 then [] else [Odd(r)] + Bits(Half(r), n - 1)
  }

  /** The message as IEEE 802.3 sends it: each byte low-order bit first. */
  function MessageBits(data: seq<bv8>): seq<bool>
    decreases |data|
  {
    if data == [] then [] else MessageBits(data[..|data| - 1]) + Bits(OfByte(data[|data| - 1]), 8)
  }

  /** IEEE 802.3's generator below its leading x^32. */
  predicate InGenerator(e: int) {
    e in {26, 23, 22, 16, 12, 11, 10, 8, 7, 5, 4, 2, 1, 0}
  }

  /** One step of long division: subtract the generator under the leading
      term. The first coefficient is the highest. */
  function Reduced(p: seq<bool>): (r: seq<bool>)
    requires |p| > 32
    ensures |r| == |p| - 1
  {
    seq(|p| - 1, j requires 0 <= j < |p| - 1 => p[j + 1] != (p[0] && j < 32 && InGenerator(31 - j)))
  }

  /** Division by the generator until the degree is below 32. */
  function Remainder(p: seq<bool>): (r: seq<bool>)
    requires |p| >= 32
    ensures |r| == 32
    decreases |p|
  {
    if |p| == 32 then p else Remainder(Reduced(p))
  }

  /** `m` times x^32, its first 32 coefficients changed where `r` has ones. */
  function Dividend(r: bv32, m: seq<bool>): (d: seq<bool>)
    ensures |d| == |m| + 32
  {
    seq(|m| + 32, i requires i >= 0 => (i < |m| && m[i]) != (i < 32 && Bit(r, i)))
  }

  /** The standard's dividend: the message with its first 32 bits
      complemented, times x^32. */
  function Complemented(m: seq<bool>): (d: seq<bool>)
    ensures |d| == |m| + 32
  {
    seq(|m| + 32, i requires i >= 0 => (i < |m| && m[i]) != (i < 32))
  }

  /** The register as the coefficients of a polynomial below x^32. */
  function Coefficients(r: bv32): (s: seq<bool>)
    ensures |s| == 32
  {
    seq(32, i requires i >= 0 => Bit(r, i))
  }

  function BitWord(b: bool): bv32 { if b then 1 else 0 }

  /** The register after single message bits. */
  function Fed(r: bv32, m: seq<bool>): bv32
    decreases |m|
  {
    if m == [] then r else Fed(Step(Xor(r, BitWord(m[0]))), m[1..])
  }

  lemma {:induction false} HalvesXor(x: bv32, y: bv32, i: nat)
    ensures Halves(Xor(x, y), i) == Xor(Halves(x, i), Halves(y, i))
    decreases i
  {
    hide Half, Xor;
    if i > 0 {
      XorHalves(x, y);
      HalvesXor(Half(x), Half(y), i - 1);
    }
  }

  lemma {:induction false} BitXor(x: bv32, y: bv32, i: nat)
    ensures Bit(Xor(x, y), i) == (Bit(x, i) != Bit(y, i))
  {
    hide Half, Xor, Odd, Halves;
    HalvesXor(x, y, i);
    XorHalves(Halves(x, i), Halves(y, i));
  }

  lemma {:induction false} HalvesOfZero(i: nat)
    ensures Halves(0, i) == 0
    decreases i
  {
    SmallWords();
    hide Half;
    if i > 0 { HalvesOfZero(i - 1); }
  }

  lemma {:induction false} BitOfBitWord(b: bool, i: nat)
    ensures Bit(BitWord(b), i) <==> b && i == 0
  {
    SmallWords();
    hide Half, Odd;
    HalvesUnfold(BitWord(b), i);
    if i > 0 { HalvesOfZero(i - 1); }
  }

  /** Beyond its 32 bits a register holds nothing. */
  lemma {:induction false} NoBit32(x: bv32)
    ensures !Bit(x, 32)
  {
    FourLowered(x);
    SmallWords();
    hide Half, Odd, Lowered, Halves;
    var a, b, c := Lowered(x), Lowered(Lowered(x)), Lowered(Lowered(Lowered(x)));
    EightHalves(x); EightHalves(a); EightHalves(b); EightHalves(c);
    HalvesAdd(x, 8, 24); HalvesAdd(a, 8, 16); HalvesAdd(b, 8, 8);
  }

  lemma {:induction false} FourLowered(x: bv32)
    ensures Lowered(Lowered(Lowered(Lowered(x)))) == 0
  {
  }

  lemma {:induction false} BitAbove(x: bv32, k: nat, j: nat)
    requires j < 8
    ensures k >= 8 ==> Bit(x, k) == Bit(Lowered(x), k - 8)
  {
    hide Half, Odd, Lowered, Halves;
    if k >= 8 {
      EightHalves(x);
      HalvesAdd(x, 8, k - 8);
    }
  }

  /** The constant of the loop is the standard's generator, reflected. */
  lemma {:induction false} PolyIsGenerator(i: nat)
    requires i < 32
    ensures Bit(Poly(), i) <==> InGenerator(31 - i)
  {
    PolyBytes();
    hide Poly, Lowered, Bit;
    var a, b, c := Lowered(Poly()), Lowered(Lowered(Poly())), Lowered(Lowered(Lowered(Poly())));
    BitAbove(Poly(), i, 0); BitAbove(a, if i >= 8 then i - 8 else 0, 0); BitAbove(b, if i >= 16 then i - 16 else 0, 0);
    LowBits(Poly(), i % 8); LowBits(a, i % 8); LowBits(b, i % 8); LowBits(c, i % 8);
  }

  /** Bit `i < 8` of a word, by its mask. */
  predicate Masked(x: bv32, i: nat) {
    if i == 0 then x & 1 != 0 else if i == 1 then x & 2 != 0 else if i == 2 then x & 4 != 0 else if i == 3 then x & 8 != 0
    else if i == 4 then x & 16 != 0 else if i == 5 then x & 32 != 0 else if i == 6 then x & 64 != 0 else x & 128 != 0
  }

  lemma {:induction false} PolyBytes()
    ensures forall i: nat :: i < 8 ==> (Masked(Poly(), i) <==> i == 5)
    ensures forall i: nat :: i < 8 ==> (Masked(Lowered(Poly()), i) <==> i in {0, 1, 7})
    ensures forall i: nat :: i < 8 ==> (Masked(Lowered(Lowered(Poly())), i) <==> i in {3, 4, 5, 7})
    ensures forall i: nat :: i < 8 ==> (Masked(Lowered(Lowered(Lowered(Poly()))), i) <==> i in {0, 2, 3, 5, 6, 7})
  {
  }

  lemma {:induction false} LowBits(x: bv32, i: nat)
    requires i < 8
    ensures Bit(x, i) <==> Masked(x, i)
  {
    MaskedHalves(x);
    FourBits(x, i);
    FourHalves(x);
    hide Half, Odd, Masked, Halves;
    if i >= 4 {
      HalvesAdd(x, 4, i - 4);
      FourBits(Halves(x, 4), i - 4);
    }
  }

  lemma {:induction false} FourHalves(x: bv32)
    ensures Halves(x, 4) == Half(Half(Half(Half(x))))
  {
    hide Half;
    HalvesUnfold(x, 4); HalvesUnfold(Half(x), 3); HalvesUnfold(Half(Half(x)), 2); HalvesUnfold(Half(Half(Half(x))), 1);
    HalvesUnfold(Half(Half(Half(Half(x)))), 0);
  }

  lemma {:induction false} FourBits(x: bv32, i: nat)
    ensures i == 0 ==> Bit(x, i) == Odd(x)
    ensures i == 1 ==> Bit(x, i) == Odd(Half(x))
    ensures i == 2 ==> Bit(x, i) == Odd(Half(Half(x)))
    ensures i == 3 ==> Bit(x, i) == Odd(Half(Half(Half(x))))
  {
    hide Half, Odd;
    if i <= 3 {
      HalvesUnfold(x, i);
      if i >= 1 { HalvesUnfold(Half(x), i - 1); }
      if i >= 2 { HalvesUnfold(Half(Half(x)), i - 2); }
      if i == 3 { HalvesUnfold(Half(Half(Half(x))), 0); }
    }
  }

  lemma {:induction false} MaskedHalves(x: bv32)
    ensures var a, b, c, d := Half(x), Half(Half(x)), Half(Half(Half(x))), Half(Half(Half(Half(x))));
      && (Odd(x) <==> Masked(x, 0)) && (Odd(a) <==> Masked(x, 1)) && (Odd(b) <==> Masked(x, 2)) && (Odd(c) <==> Masked(x, 3))
      && (Odd(d) <==> Masked(x, 4)) && (Odd(Half(d)) <==> Masked(x, 5)) && (Odd(Half(Half(d))) <==> Masked(x, 6))
      && (Odd(Half(Half(Half(d)))) <==> Masked(x, 7))
  {
  }

  lemma {:induction false} SteppedBit(z: bv32, j: nat)
    ensures Bit(Step(z), j) == (Bit(z, j + 1) != (Bit(z, 0) && Bit(Poly(), j)))
  {
    hide Half, Xor, Odd, Poly;
    HalvesUnfold(z, j + 1);
    HalvesUnfold(z, 0);
    BitXor(Half(z), Poly(), j);
  }

  /** One register step is one step of the long division. */
  lemma {:induction false} StepReduces(r: bv32, m: seq<bool>)
    requires m != []
    ensures Reduced(Dividend(r, m)) == Dividend(Step(Xor(r, BitWord(m[0]))), m[1..])
  {
    hide Bit, Xor, Step, BitWord, Poly, InGenerator;
    var one := BitWord(m[0]);
    var z := Xor(r, one);
    var d, e := Dividend(r, m), Dividend(Step(z), m[1..]);
    BitXor(r, one, 0);
    BitOfBitWord(m[0], 0);
    forall j | 0 <= j < |e| ensures Reduced(d)[j] == e[j] {
      if j < 32 {
        SteppedBit(z, j);
        BitXor(r, one, j + 1);
        BitOfBitWord(m[0], j + 1);
        PolyIsGenerator(j);
        if j == 31 { NoBit32(r); }
      }
    }
  }

  /** Feeding a message bit by bit leaves the remainder of the division. */
  lemma {:induction false} FedIsRemainder(r: bv32, m: seq<bool>)
    ensures Coefficients(Fed(r, m)) == Remainder(Dividend(r, m))
    decreases |m|
  {
    hide Step, Bit, Reduced, Xor, BitWord;
    if m == [] {
      assert Dividend(r, m) == Coefficients(r);
    } else {
      StepReduces(r, m);
      FedIsRemainder(Step(Xor(r, BitWord(m[0]))), m[1..]);
    }
  }

  lemma {:induction false} FedAppend(r: bv32, a: seq<bool>, b: seq<bool>)
    ensures Fed(r, a + b) == Fed(Fed(r, a), b)
    decreases |a|
  {
    hide Step, Xor, BitWord;
    if a == [] {
      assert a + b == b;
    } else {
      assert (a + b)[1..] == a[1..] + b;
      FedAppend(Step(Xor(r, BitWord(a[0]))), a[1..], b);
    }
  }

  /** A byte mixed in at once and stepped eight times is its eight bits fed
      one by one, the lowest first. */
  lemma {:induction false} ByteIsEightBits(r: bv32, w: bv32, n: nat)
    requires Halves(w, n) == 0
    ensures Steps(Xor(r, w), n) == Fed(r, Bits(w, n))
    decreases n
  {
    hide Step, Xor, Half, Odd, BitWord;
    if n == 0 {
      XorZero(r);
    } else {
      var low := BitWord(Odd(w));
      LowAndRest(r, w);
      StepShift(Xor(r, low), Xor(w, low));
      ByteIsEightBits(Step(Xor(r, low)), Half(w), n - 1);
      assert Bits(w, n)[1..] == Bits(Half(w), n - 1);
    }
  }

  lemma {:induction false} LowAndRest(r: bv32, w: bv32)
    ensures var low := BitWord(Odd(w));
      !Odd(Xor(w, low)) && Half(Xor(w, low)) == Half(w) && Xor(Xor(r, low), Xor(w, low)) == Xor(r, w)
  {
    XorTwice(r, w, BitWord(Odd(w)));
    RestEven(w);
    RestHalf(w);
    hide Xor, Half, Odd, BitWord;
  }

  lemma {:induction false} XorTwice(r: bv32, w: bv32, low: bv32)
    ensures Xor(Xor(r, low), Xor(w, low)) == Xor(r, w)
  {
    hide Xor;
    XorCommutes(w, low);
    XorAssociative(r, low, Xor(low, w));
    XorAssociative(low, low, w);
    XorZero(w);
    XorCommutes(0, w);
    XorSelf(low);
  }

  lemma {:induction false} RestEven(w: bv32)
    ensures !Odd(Xor(w, BitWord(Odd(w))))
  {
  }

  lemma {:induction false} RestHalf(w: bv32)
    ensures Half(Xor(w, BitWord(Odd(w)))) == Half(w)
  {
  }

  lemma {:induction false} ByteFits(b: bv8)
    ensures Lowered(OfByte(b)) == 0
  {
  }

  lemma {:induction false} RegisterIsFed(r: bv32, data: seq<bv8>)
    ensures Register(r, data) == Fed(r, MessageBits(data))
    decreases |data|
  {
    hide Steps, Fed, Bits, Xor, OfByte, Lowered, Halves;
    if data == [] {
      FedNothing(r);
    } else {
      var n := |data| - 1;
      RegisterIsFed(r, data[..n]);
      FedAppend(r, MessageBits(data[..n]), Bits(OfByte(data[n]), 8));
      ByteFits(data[n]);
      EightHalves(OfByte(data[n]));
      ByteIsEightBits(Register(r, data[..n]), OfByte(data[n]), 8);
    }
  }

  lemma {:induction false} FedNothing(r: bv32)
    ensures Fed(r, []) == r
  {
  }

  lemma {:induction false} AllOnes(i: nat)
    requires i < 32
    ensures Bit(Ones(), i)
  {
    OnesBytes();
    hide Ones, Lowered, Bit;
    var a, b, c := Lowered(Ones()), Lowered(Lowered(Ones())), Lowered(Lowered(Lowered(Ones())));
    BitAbove(Ones(), i, 0); BitAbove(a, if i >= 8 then i - 8 else 0, 0); BitAbove(b, if i >= 16 then i - 16 else 0, 0);
    LowBits(Ones(), i % 8); LowBits(a, i % 8); LowBits(b, i % 8); LowBits(c, i % 8);
  }

  lemma {:induction false} OnesBytes()
    ensures forall i: nat :: i < 8 ==> Masked(Ones(), i) && Masked(Lowered(Ones()), i)
    ensures forall i: nat :: i < 8 ==> Masked(Lowered(Lowered(Ones())), i)
    ensures forall i: nat :: i < 8 ==> Masked(Lowered(Lowered(Lowered(Ones()))), i)
  {
  }

  /** IEEE 802.3 clause 3.2.9: the CRC is the complement of the remainder of
      the message, its first 32 bits complemented, times x^32. */
  lemma {:induction false} CrcIsRemainder(data: seq<bv8>)
    ensures Coefficients(Not(Crc(data))) == Remainder(Complemented(MessageBits(data)))
  {
    hide Register, Fed, Remainder, Coefficients, MessageBits, Ones, Bit, Not;
    var m := MessageBits(data);
    RegisterIsFed(Ones(), data);
    FedIsRemainder(Ones(), m);
    NotLaws(Register(Ones(), data), 0);
    assert Dividend(Ones(), m) == Complemented(m) by {
      forall i: nat | i < 32 ensures Bit(Ones(), i) { AllOnes(i); }
    }
  }
}
