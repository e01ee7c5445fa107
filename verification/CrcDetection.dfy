/** What the frame check sequence detects. */
module CrcDetection {
  import opened Bytes
  import opened Crc16
  import opened Frame

  // ----- The register as a function of a bit stream, least significant bit first -----

  function Bit(b: bool): bv16 { if b then 1 else 0 }

  function Feed(c: bv16, b: bool): bv16 { BitStep(Xor(c, Bit(b))) }

  function BitRegister(c: bv16, bits: seq<bool>): bv16
    decreases |bits|
  {
    if bits == [] then c else BitRegister(Feed(c, bits[0]), bits[1..])
  }

  function ByteBits(b: bv8): (r: seq<bool>)
    ensures |r| == 8
  {
    [b & 1 != 0, b & 2 != 0, b & 4 != 0, b & 8 != 0, b & 16 != 0, b & 32 != 0, b & 64 != 0, b & 128 != 0]
  }

  function Bits(s: seq<byte>): (r: seq<bool>)
    ensures |r| == 8 * |s|
  {
    if s == [] then [] else Bits(s[..|s| - 1]) + ByteBits(Octet(s[|s| - 1]))
  }

  lemma {:induction false} BitRegisterAppend(c: bv16, x: seq<bool>, y: seq<bool>)
    ensures BitRegister(c, x + y) == BitRegister(BitRegister(c, x), y)
    decreases |x|
  {
    hide Feed;
    if x == [] {
      assert x + y == y;
    } else {
      assert (x + y)[1..] == x[1..] + y;
      BitRegisterAppend(Feed(c, x[0]), x[1..], y);
    }
  }

  function Shl(w: bv16): bv16 { w << 1 }

  predicate Below(w: bv16, m: bv16) { w < m }

  /** w moved up by one bit, with b as the new least significant bit. */
  function Push(w: bv16, b: bool): bv16 { Xor(Shl(w), Bit(b)) }

  /** The bits of w as a number, first bit least significant. */
  function BitsWord(w: seq<bool>): bv16 {
    if w == [] then 0 else Push(BitsWord(w[1..]), w[0])
  }

  /** 2^k. */
  function Limit(k: nat): bv16
    requires k <= 15
  {
    [1, 2, 4, 8, 0x10, 0x20, 0x40, 0x80, 0x100, 0x200, 0x400, 0x800, 0x1000, 0x2000, 0x4000, 0x8000][k]
  }

  lemma LimitDoubles(k: nat)
    requires k < 15
    ensures Limit(k + 1) == Shl(Limit(k)) && Below(Limit(k), 0x4001)
  {
    if k == 0 {} else if k == 1 {} else if k == 2 {} else if k == 3 {} else if k == 4 {}
    else if k == 5 {} else if k == 6 {} else if k == 7 {} else if k == 8 {} else if k == 9 {}
    else if k == 10 {} else if k == 11 {} else if k == 12 {} else if k == 13 {} else {}
  }

  lemma PushBelow(w: bv16, b: bool, m: bv16)
    requires Below(w, m) && Below(m, 0x4001)
    ensures Below(Push(w, b), Shl(m))
  {}

  lemma PushZero(w: bv16, b: bool)
    requires Below(w, 0x8000)
    ensures Push(w, b) == 0 <==> w == 0 && !b
  {}

  lemma ShiftBack(w: bv16)
    requires Below(w, 0x8000)
    ensures BitStep(Shl(w)) == w
  {}

  lemma BelowTrans(w: bv16, m: bv16)
    requires Below(w, m) && Below(m, 0x4001)
    ensures Below(w, 0x8000)
  {}

  lemma FeedWord(c: bv16, b: bool, w: bv16)
    requires Below(w, 0x8000)
    ensures BitStep(Xor(c, Push(w, b))) == Xor(Feed(c, b), w)
  {
    hide BitStep, Xor, Bit, Shl, Below;
    ShiftBack(w);
    XorComm(Shl(w), Bit(b));
    XorAssoc(c, Bit(b), Shl(w));
    BitStepLinear(Xor(c, Bit(b)), Shl(w));
  }

  lemma {:induction false} BitsWordBound(w: seq<bool>)
    requires |w| <= 15
    ensures Below(BitsWord(w), Limit(|w|))
  {
    if w == [] {
      assert Limit(0) == 1;
    } else {
      hide Push, Below, Limit, Shl;
      BitsWordBound(w[1..]);
      LimitDoubles(|w| - 1);
      PushBelow(BitsWord(w[1..]), w[0], Limit(|w| - 1));
    }
  }

  lemma BitsWordSmall(w: seq<bool>)
    requires |w| <= 15
    ensures Below(BitsWord(w), 0x8000)
  {
    BitsWordBound(w);
    if |w| == 15 {
      assert Limit(15) == 0x8000;
    } else {
      LimitDoubles(|w|);
      hide Below, Limit, BitsWord, Shl;
      BelowTrans(BitsWord(w), Limit(|w|));
    }
  }

  lemma XorNothing(c: bv16)
    ensures Xor(c, 0) == c
  {}

  /** Feeding up to sixteen bits is adding them to the register at once, then shifting. */
  lemma {:induction false} FeedAtOnce(c: bv16, w: seq<bool>)
    requires |w| <= 16
    ensures BitRegister(c, w) == Steps(Xor(c, BitsWord(w)), |w|)
    decreases |w|
  {
    hide BitStep, Xor, Feed, Push, Below;
    if w == [] {
      XorNothing(c);
    } else {
      var rest := w[1..];
      BitsWordSmall(rest);
      FeedWord(c, w[0], BitsWord(rest));
      FeedAtOnce(Feed(c, w[0]), rest);
    }
  }

  lemma {:induction false} BitsWordZero(w: seq<bool>)
    requires |w| <= 16
    ensures BitsWord(w) == 0 <==> forall i :: 0 <= i < |w| ==> !w[i]
  {
    if w == [] {
    } else {
      var rest := w[1..];
      BitsWordSmall(rest);
      PushZero(BitsWord(rest), w[0]);
      BitsWordZero(rest);
      hide Push, Below;
      assert forall i :: 1 <= i < |w| ==> w[i] == rest[i - 1];
    }
  }

  // ----- Bytes and bits agree -----

  lemma PushByte(b: bv8)
    ensures Push(Push(Push(Push(Push(Push(Push(Push(0, b & 128 != 0), b & 64 != 0), b & 32 != 0), b & 16 != 0),
                 b & 8 != 0), b & 4 != 0), b & 2 != 0), b & 1 != 0) == b as bv16
  {}

  lemma ByteBitsWord(b: bv8)
    ensures BitsWord(ByteBits(b)) == b as bv16
  {
    PushByte(b);
    hide Push;
    var w := ByteBits(b);
    assert BitsWord(w[8..]) == 0;
    assert BitsWord(w[7..]) == Push(BitsWord(w[8..]), w[7]);
    assert BitsWord(w[6..]) == Push(BitsWord(w[7..]), w[6]);
    assert BitsWord(w[5..]) == Push(BitsWord(w[6..]), w[5]);
    assert BitsWord(w[4..]) == Push(BitsWord(w[5..]), w[4]);
    assert BitsWord(w[3..]) == Push(BitsWord(w[4..]), w[3]);
    assert BitsWord(w[2..]) == Push(BitsWord(w[3..]), w[2]);
    assert BitsWord(w[1..]) == Push(BitsWord(w[2..]), w[1]);
  }

  lemma {:induction false} RegisterBits(c: bv16, s: seq<byte>)
    ensures Register(c, s) == BitRegister(c, Bits(s))
  {
    hide BitsWord, ByteBits, Xor;
    if s != [] {
      hide Octet;
      var front, last := s[..|s| - 1], Octet(s[|s| - 1]);
      RegisterBits(c, front);
      BitRegisterAppend(c, Bits(front), ByteBits(last));
      FeedAtOnce(BitRegister(c, Bits(front)), ByteBits(last));
      ByteBitsWord(last);
    }
  }

  // ----- The residue: one constant register value marks exactly the valid frames -----

  const RESIDUE: bv16 := 0xB001

  lemma WordSplit(lo: bv8, hi: bv8)
    ensures Word16(lo, hi) == Xor(lo as bv16, (hi as bv16) << 8) && hi as bv16 < 256
  {}

  lemma XorComplement(r: bv16)
    ensures Xor(r, !r) == INITIAL
  {}

  lemma ComplementXor(r: bv16, w: bv16)
    ensures Xor(r, w) == INITIAL <==> !r == w
  {
    XorComplement(r);
    XorZero(!r, w);
    hide Xor;
    if Xor(r, w) == INITIAL {
      XorSwap(r, !r, r, w);
      XorZero(INITIAL, INITIAL);
      XorZero(r, r);
      XorComm(0, Xor(!r, w));
      XorNothing(Xor(!r, w));
    }
  }

  lemma ResidueValue()
    ensures Steps(INITIAL, 16) == RESIDUE
  {
    assert Steps(0x40BF, 8) == RESIDUE by {
      assert BitStep(0x2001) == RESIDUE && BitStep(0x4002) == 0x2001 && BitStep(0x8004) == 0x4002;
      assert BitStep(0x400B) == 0x8004 && BitStep(0x8016) == 0x400B && BitStep(0x402F) == 0x8016;
      assert BitStep(0x805E) == 0x402F && BitStep(0x40BF) == 0x805E;
      hide BitStep;
      assert Steps(0x8004, 3) == RESIDUE;
      assert Steps(0x402F, 6) == RESIDUE;
    }
    assert Steps(INITIAL, 8) == 0x40BF by {
      assert BitStep(0x817E) == 0x40BF && BitStep(0x42FF) == 0x817E && BitStep(0x85FE) == 0x42FF;
      assert BitStep(0x4BFF) == 0x85FE && BitStep(0x97FE) == 0x4BFF && BitStep(0x6FFF) == 0x97FE;
      assert BitStep(0xDFFE) == 0x6FFF && BitStep(0xFFFF) == 0xDFFE;
      hide BitStep;
      assert Steps(0x85FE, 3) == 0x40BF;
      assert Steps(0x6FFF, 6) == 0x40BF;
    }
    hide Steps;
    StepsAdd(INITIAL, 8, 8);
  }

  /** Feeding two CRC bytes is adding them as one word and shifting sixteen times. */
  lemma TwoBytes(r: bv16, lo: bv8, hi: bv8)
    ensures ByteStep(ByteStep(r, lo), hi) == Steps(Xor(r, Word16(lo, hi)), 16)
  {
    WordSplit(lo, hi);
    HighByteMovesDown(hi as bv16);
    hide Xor, Steps, Word16;
    var l, h := lo as bv16, (hi as bv16) << 8;
    StepsLinear(Xor(r, l), h, 8);
    XorAssoc(r, l, h);
    StepsAdd(Xor(r, Xor(l, h)), 8, 8);
  }

  /** Running the register over a message and two further bytes ends in RESIDUE exactly when
      those bytes are the message's CRC, low byte first. */
  lemma ResidueMarksValid(body: seq<byte>, lo: byte, hi: byte)
    ensures Register(INITIAL, body + [lo, hi]) == RESIDUE <==> Crc(body) == Word(lo, hi)
  {
    hide Word16, ByteStep, Octet;
    var s := body + [lo, hi];
    assert s[..|s| - 1] == body + [lo];
    assert (body + [lo])[..|body|] == body;
    var r := Register(INITIAL, body);
    assert Register(INITIAL, s) == ByteStep(ByteStep(r, Octet(lo)), Octet(hi));
    TwoBytes(r, Octet(lo), Octet(hi));
    ResidueValue();
    StepsInjective(Xor(r, Word(lo, hi)), INITIAL, 16);
    ComplementXor(r, Word(lo, hi));
  }

  lemma AcceptsByResidue(f: seq<byte>)
    requires WholeFrame(f)
    ensures Accepts(f) <==> BitRegister(INITIAL, Bits(f)) == RESIDUE
  {
    var n := |f|;
    assert f == f[..n - 2] + [f[n - 2], f[n - 1]];
    ResidueMarksValid(f[..n - 2], f[n - 2], f[n - 1]);
    RegisterBits(INITIAL, f);
  }

  // ----- Error patterns -----

  /** Which bits differ. */
  function Diff(x: seq<bool>, y: seq<bool>): (e: seq<bool>)
    requires |x| == |y|
    ensures |e| == |x|
    ensures forall i :: 0 <= i < |e| ==> e[i] == (x[i] != y[i])
  {
    seq(|x|, i requires 0 <= i < |x| => x[i] != y[i])
  }

  lemma BitXor(a: bool, b: bool)
    ensures Bit(a != b) == Xor(Bit(a), Bit(b))
  {}

  lemma FeedLinear(c: bv16, d: bv16, a: bool, b: bool)
    ensures Feed(Xor(c, d), a != b) == Xor(Feed(c, a), Feed(d, b))
  {
    hide BitStep, Xor, Bit;
    BitXor(a, b);
    XorSwap(c, d, Bit(a), Bit(b));
    XorSwap(c, Bit(a), d, Bit(b));
    BitStepLinear(Xor(c, Bit(a)), Xor(d, Bit(b)));
  }

  lemma {:induction false} BitRegisterLinear(c: bv16, d: bv16, x: seq<bool>, y: seq<bool>)
    requires |x| == |y|
    ensures BitRegister(Xor(c, d), Diff(x, y)) == Xor(BitRegister(c, x), BitRegister(d, y))
    decreases |x|
  {
    hide Xor, Feed;
    if x != [] {
      assert Diff(x, y)[1..] == Diff(x[1..], y[1..]);
      FeedLinear(c, d, x[0], y[0]);
      BitRegisterLinear(Feed(c, x[0]), Feed(d, y[0]), x[1..], y[1..]);
    }
  }

  lemma FeedNothing(c: bv16)
    ensures Feed(c, false) == BitStep(c)
  {
    XorNothing(c);
  }

  lemma {:induction false} NoErrors(c: bv16, z: seq<bool>)
    requires forall i :: 0 <= i < |z| ==> !z[i]
    ensures BitRegister(c, z) == Steps(c, |z|)
    decreases |z|
  {
    hide Feed, BitStep;
    if z != [] {
      FeedNothing(c);
      NoErrors(Feed(c, z[0]), z[1..]);
    }
  }

  /** All set bits lie in e[lo..lo + n], at most sixteen places, and there is at least one. */
  predicate Burst(e: seq<bool>, lo: nat, n: nat) {
    && n <= 16 && lo + n <= |e|
    && (forall i :: 0 <= i < |e| && !(lo <= i < lo + n) ==> !e[i])
    && (exists i :: lo <= i < lo + n && e[i])
  }

  lemma BurstIsSeen(e: seq<bool>, lo: nat, n: nat)
    requires Burst(e, lo, n)
    ensures BitRegister(0, e) != 0
  {
    hide BitRegister, Steps, Xor, BitsWord;
    var before, window, after := e[..lo], e[lo..lo + n], e[lo + n..];
    assert e == before + (window + after);
    BitRegisterAppend(0, before, window + after);
    NoErrors(0, before);
    StepsKernel(0, lo);
    BitRegisterAppend(0, window, after);
    FeedAtOnce(0, window);
    XorComm(0, BitsWord(window));
    XorNothing(BitsWord(window));
    BitsWordZero(window);
    var i :| lo <= i < lo + n && e[i];
    assert window[i - lo];
    StepsKernel(BitsWord(window), n);
    NoErrors(BitRegister(0, window), after);
    StepsKernel(BitRegister(0, window), |after|);
  }

  /** Any burst of at most sixteen bits that leaves the length byte alone is rejected. */
  lemma BurstRejected(f: seq<byte>, g: seq<byte>, lo: nat, n: nat)
    requires WholeFrame(f) && Accepts(f)
    requires |g| == |f| && g[SRIC_LEN] == f[SRIC_LEN]
    requires Burst(Diff(Bits(f), Bits(g)), lo, n)
    ensures !Accepts(g)
  {
    AcceptsByResidue(f);
    AcceptsByResidue(g);
    BitRegisterLinear(INITIAL, INITIAL, Bits(f), Bits(g));
    XorZero(INITIAL, INITIAL);
    BurstIsSeen(Diff(Bits(f), Bits(g)), lo, n);
    XorZero(BitRegister(INITIAL, Bits(f)), BitRegister(INITIAL, Bits(g)));
  }

  // ----- Parity -----

  function Ones(bits: seq<bool>): nat {
    if bits == [] then 0 else (if bits[0] then 1 else 0) + Ones(bits[1..])
  }

  predicate Lsb(c: bv16) { c & 1 == 1 }

  /** Whether an odd number of the k low bits of c are set. */
  predicate OddBits(c: bv16, k: nat)
    decreases k
  {
    k > 0 && Lsb(c) != OddBits(Shr(c), k - 1)
  }

  predicate OddWord(c: bv16) { OddBits(c, 16) }

  lemma LsbLinear(a: bv16, b: bv16)
    ensures Lsb(Xor(a, b)) == (Lsb(a) != Lsb(b))
  {
    assert (a ^ b) & 1 == (a & 1) ^ (b & 1);
    assert a & 1 == 0 || a & 1 == 1;
    assert b & 1 == 0 || b & 1 == 1;
  }

  lemma {:induction false} OddBitsLinear(a: bv16, b: bv16, k: nat)
    ensures OddBits(Xor(a, b), k) == (OddBits(a, k) != OddBits(b, k))
    decreases k
  {
    hide Xor, Lsb, Shr;
    if k > 0 {
      LsbLinear(a, b);
      ShrLinear(a, b);
      OddBitsLinear(Shr(a), Shr(b), k - 1);
    }
  }

  lemma ShrBelow(w: bv16, m: bv16)
    requires Below(w, Shl(m)) && Below(m, 0x4001)
    ensures Below(Shr(w), m)
  {}

  lemma {:induction false} TopBitClear(w: bv16, k: nat)
    requires k <= 15 && Below(w, Limit(k))
    ensures OddBits(w, k + 1) == OddBits(w, k)
    decreases k
  {
    if k == 0 {
      assert w == 0;
    } else {
      hide Below, Limit, Shl, Shr, Lsb;
      LimitDoubles(k - 1);
      ShrBelow(w, Limit(k - 1));
      TopBitClear(Shr(w), k - 1);
    }
  }

  lemma {:induction false} OddZero(k: nat)
    ensures !OddBits(0, k)
  {
    if k > 0 {
      assert Shr(0) == 0 && !Lsb(0);
      OddZero(k - 1);
    }
  }

  lemma OddPolynomial()
    ensures OddWord(POLYNOMIAL)
  {
    assert Shr(0xA001) == 0x5000 && Shr(0x5000) == 0x2800 && Shr(0x2800) == 0x1400 && Shr(0x1400) == 0xA00;
    assert Shr(0xA00) == 0x500 && Shr(0x500) == 0x280 && Shr(0x280) == 0x140 && Shr(0x140) == 0xA0;
    assert Shr(0xA0) == 0x50 && Shr(0x50) == 0x28 && Shr(0x28) == 0x14 && Shr(0x14) == 0xA;
    assert Shr(0xA) == 5 && Shr(5) == 2 && Shr(2) == 1 && Shr(1) == 0;
    assert Lsb(0xA001) && Lsb(5) && Lsb(1);
    assert !Lsb(0x5000) && !Lsb(0x2800) && !Lsb(0x1400) && !Lsb(0xA00) && !Lsb(0x500) && !Lsb(0x280);
    assert !Lsb(0x140) && !Lsb(0xA0) && !Lsb(0x50) && !Lsb(0x28) && !Lsb(0x14) && !Lsb(0xA) && !Lsb(2);
    hide Shr, Lsb;
    assert !OddBits(5, 3);
    assert !OddBits(0x28, 6);
    assert !OddBits(0x140, 9);
    assert !OddBits(0xA00, 12);
    assert !OddBits(0x5000, 15);
  }

  lemma OddInitial()
    ensures !OddWord(INITIAL)
  {
    assert Shr(0xFFFF) == 0x7FFF && Shr(0x7FFF) == 0x3FFF && Shr(0x3FFF) == 0x1FFF && Shr(0x1FFF) == 0xFFF;
    assert Shr(0xFFF) == 0x7FF && Shr(0x7FF) == 0x3FF && Shr(0x3FF) == 0x1FF && Shr(0x1FF) == 0xFF;
    assert Shr(0xFF) == 0x7F && Shr(0x7F) == 0x3F && Shr(0x3F) == 0x1F && Shr(0x1F) == 0xF;
    assert Shr(0xF) == 7 && Shr(7) == 3 && Shr(3) == 1 && Shr(1) == 0;
    assert Lsb(0xFFFF) && Lsb(0x7FFF) && Lsb(0x3FFF) && Lsb(0x1FFF) && Lsb(0xFFF) && Lsb(0x7FF) && Lsb(0x3FF);
    assert Lsb(0x1FF) && Lsb(0xFF) && Lsb(0x7F) && Lsb(0x3F) && Lsb(0x1F) && Lsb(0xF) && Lsb(7) && Lsb(3) && Lsb(1);
    hide Shr, Lsb;
    assert OddBits(7, 3);
    assert !OddBits(0x3F, 6);
    assert OddBits(0x1FF, 9);
    assert !OddBits(0xFFF, 12);
    assert OddBits(0x7FFF, 15);
  }

  lemma StepParts(c: bv16)
    ensures Below(Shr(c), Limit(15))
    ensures BitStep(c) == Xor(if Lsb(c) then POLYNOMIAL else 0, Shr(c))
  {
    assert Limit(15) == 0x8000;
    BitStepTap(c);
  }

  lemma StepKeepsParity(c: bv16)
    ensures OddWord(BitStep(c)) == OddWord(c)
  {
    StepParts(c);
    OddPolynomial();
    OddZero(16);
    hide Xor, Shr, Lsb, BitStep, Below, Limit;
    OddBitsLinear(if Lsb(c) then POLYNOMIAL else 0, Shr(c), 16);
    TopBitClear(Shr(c), 15);
  }

  lemma {:induction false} StepsKeepParity(c: bv16, k: nat)
    ensures OddWord(Steps(c, k)) == OddWord(c)
    decreases k
  {
    hide BitStep, OddWord;
    if k > 0 {
      StepKeepsParity(c);
      StepsKeepParity(BitStep(c), k - 1);
    }
  }

  lemma OddBit(b: bool)
    ensures OddWord(Bit(b)) == b
  {
    assert Shr(1) == 0 && Lsb(1) && Bit(true) == 1 && Bit(false) == 0;
    hide Shr, Lsb, Bit;
    OddZero(16);
    OddZero(15);
  }

  lemma BitFlipsParity(c: bv16, b: bool)
    ensures OddWord(Xor(c, Bit(b))) == (OddWord(c) != b)
  {
    OddBit(b);
    hide Xor, Bit, Shr, Lsb;
    OddBitsLinear(c, Bit(b), 16);
  }

  lemma {:induction false} RegisterParity(c: bv16, bits: seq<bool>)
    ensures OddWord(BitRegister(c, bits)) == (OddWord(c) != (Ones(bits) % 2 == 1))
    decreases |bits|
  {
    hide BitStep, Xor, Bit, OddWord;
    if bits != [] {
      BitFlipsParity(c, bits[0]);
      StepKeepsParity(Xor(c, Bit(bits[0])));
      RegisterParity(Feed(c, bits[0]), bits[1..]);
    }
  }

  /** Every valid frame, CRC included, has an even number of one bits. */
  lemma ValidFrameIsEven(f: seq<byte>)
    requires WholeFrame(f) && Accepts(f)
    ensures Ones(Bits(f)) % 2 == 0
  {
    AcceptsByResidue(f);
    RegisterParity(INITIAL, Bits(f));
    OddInitial();
    ResidueValue();
    StepsKeepParity(INITIAL, 16);
  }

  lemma {:induction false} OnesOfDiff(x: seq<bool>, y: seq<bool>)
    requires |x| == |y|
    ensures (Ones(x) + Ones(y) + Ones(Diff(x, y))) % 2 == 0
    decreases |x|
  {
    if x != [] {
      assert Diff(x, y)[1..] == Diff(x[1..], y[1..]);
      OnesOfDiff(x[1..], y[1..]);
    }
  }

  /** Any odd number of bit errors outside the length byte is rejected, at every frame length. */
  lemma OddErrorsRejected(f: seq<byte>, g: seq<byte>)
    requires WholeFrame(f) && Accepts(f)
    requires |g| == |f| && g[SRIC_LEN] == f[SRIC_LEN]
    requires Ones(Diff(Bits(f), Bits(g))) % 2 == 1
    ensures !Accepts(g)
  {
    hide Accepts, Bits, Ones;
    OnesOfDiff(Bits(f), Bits(g));
    ValidFrameIsEven(f);
    if Accepts(g) {
      ValidFrameIsEven(g);
    }
  }
}
