/** The frame check sequence: reflected polynomial 0xA001, initial register 0xFFFF,
    complemented output, low byte first (sricd/crc16/crc16-build.c). */
module Crc16 {
  import opened Bytes

  const POLYNOMIAL: bv16 := 0xA001
  const INITIAL: bv16 := 0xFFFF

  /** One shift of the register. */
  function BitStep(c: bv16): bv16 {
    if c & 1 == 1 then POLYNOMIAL ^ (c >> 1) else c >> 1
  }

  function Steps(c: bv16, k: nat): bv16
    decreases k
  {
    if k == 0 then c else Steps(BitStep(c), k - 1)
  }

  /** Addition of registers over GF(2); named so that proofs can treat it as a symbol. */
  function Xor(a: bv16, b: bv16): bv16 { a ^ b }

  /** A byte as eight bits. */
  function Octet(b: byte): bv8 { b as bv8 }

  function ByteStep(c: bv16, b: bv8): bv16 {
    Steps(Xor(c, b as bv16), 8)
  }

  /** The register after feeding the bytes of s, one bit at a time. */
  function Register(c: bv16, s: seq<byte>): bv16 {
    if s == [] then c else ByteStep(Register(c, s[..|s| - 1]), Octet(s[|s| - 1]))
  }

  function Crc(s: seq<byte>): bv16 {
    !Register(INITIAL, s)
  }

  function Low8(c: bv16): bv8 { (c & 0xFF) as bv8 }
  function High8(c: bv16): bv8 { (c >> 8) as bv8 }
  function Word16(lo: bv8, hi: bv8): bv16 { (lo as bv16) | ((hi as bv16) << 8) }

  function Low(c: bv16): byte { Low8(c) as int }
  function High(c: bv16): byte { High8(c) as int }
  function Word(lo: byte, hi: byte): bv16 { Word16(Octet(lo), Octet(hi)) }

  lemma OctetRoundTrip(x: bv8)
    ensures 0 <= x as int < 256 && Octet(x as int) == x
  {}

  lemma LowHigh8(c: bv16)
    ensures Word16(Low8(c), High8(c)) == c
  {}

  lemma LowHigh(c: bv16)
    ensures Word(Low(c), High(c)) == c
  {
    LowHigh8(c);
    hide Low8, High8, Word16;
    OctetRoundTrip(Low8(c));
    OctetRoundTrip(High8(c));
  }

  // ----- The register step is linear and invertible -----

  function Shr(c: bv16): bv16 { c >> 1 }

  function Tap(c: bv16): bv16 { if c & 1 == 1 then POLYNOMIAL else 0 }

  lemma BitStepTap(c: bv16)
    ensures BitStep(c) == Xor(Tap(c), Shr(c))
  {
    assert 0 ^ (c >> 1) == c >> 1;
    if c & 1 == 1 {} else { assert Tap(c) == 0; }
  }

  lemma TapLinear(a: bv16, b: bv16)
    ensures Tap(Xor(a, b)) == Xor(Tap(a), Tap(b))
  {
    assert (a ^ b) & 1 == (a & 1) ^ (b & 1);
    assert a & 1 == 0 || a & 1 == 1;
    assert b & 1 == 0 || b & 1 == 1;
  }

  lemma ShrLinear(a: bv16, b: bv16)
    ensures Shr(Xor(a, b)) == Xor(Shr(a), Shr(b))
  {}

  lemma XorComm(a: bv16, b: bv16)
    ensures Xor(a, b) == Xor(b, a)
  {}

  lemma XorAssoc(a: bv16, b: bv16, c: bv16)
    ensures Xor(Xor(a, b), c) == Xor(a, Xor(b, c))
  {}

  lemma XorSwap(p: bv16, a: bv16, q: bv16, b: bv16)
    ensures Xor(Xor(p, a), Xor(q, b)) == Xor(Xor(p, q), Xor(a, b))
  {
    hide Xor;
    XorAssoc(p, a, Xor(q, b));
    XorAssoc(a, q, b);
    XorComm(a, q);
    XorAssoc(q, a, b);
    XorAssoc(p, q, Xor(a, b));
  }

  lemma BitStepLinear(a: bv16, b: bv16)
    ensures BitStep(Xor(a, b)) == Xor(BitStep(a), BitStep(b))
  {
    hide BitStep, Tap, Xor, Shr;
    BitStepTap(a);
    BitStepTap(b);
    BitStepTap(Xor(a, b));
    TapLinear(a, b);
    ShrLinear(a, b);
    XorSwap(Tap(a), Shr(a), Tap(b), Shr(b));
  }

  lemma BitStepKernel(a: bv16)
    ensures BitStep(a) == 0 ==> a == 0
  {}

  lemma {:induction false} StepsLinear(a: bv16, b: bv16, k: nat)
    ensures Steps(Xor(a, b), k) == Xor(Steps(a, k), Steps(b, k))
    decreases k
  {
    hide Xor, BitStep;
    if k > 0 {
      BitStepLinear(a, b);
      StepsLinear(BitStep(a), BitStep(b), k - 1);
    }
  }

  lemma {:induction false} StepsKernel(a: bv16, k: nat)
    ensures Steps(a, k) == 0 <==> a == 0
    decreases k
  {
    hide BitStep;
    if k > 0 {
      BitStepKernel(a);
      assert BitStep(0) == 0 by { BitStepZero(); }
      StepsKernel(BitStep(a), k - 1);
    }
  }

  lemma BitStepZero()
    ensures BitStep(0) == 0
  {}

  lemma XorZero(a: bv16, b: bv16)
    ensures Xor(a, b) == 0 <==> a == b
  {}

  lemma StepsInjective(a: bv16, b: bv16, k: nat)
    ensures Steps(a, k) == Steps(b, k) <==> a == b
  {
    hide Xor, BitStep, Steps;
    StepsLinear(a, b, k);
    StepsKernel(Xor(a, b), k);
    XorZero(a, b);
    XorZero(Steps(a, k), Steps(b, k));
  }

  lemma {:induction false} StepsAdd(c: bv16, j: nat, k: nat)
    ensures Steps(c, j + k) == Steps(Steps(c, j), k)
    decreases j
  {
    hide BitStep;
    if j > 0 {
      StepsAdd(BitStep(c), j - 1, k);
    }
  }

  // ----- The table and the table-driven loop -----

  lemma HighHalf(x: bv16)
    requires x < 256
    ensures BitStep(x << 8) == x << 7 && BitStep(x << 7) == x << 6
    ensures BitStep(x << 6) == x << 5 && BitStep(x << 5) == x << 4
  {}

  lemma LowHalf(x: bv16)
    requires x < 256
    ensures BitStep(x << 4) == x << 3 && BitStep(x << 3) == x << 2
    ensures BitStep(x << 2) == x << 1 && BitStep(x << 1) == x
  {}

  /** A value whose low byte is clear is only moved down by eight steps. */
  lemma HighByteMovesDown(x: bv16)
    requires x < 256
    ensures Steps(x << 8, 8) == x
  {
    HighHalf(x);
    LowHalf(x);
    hide BitStep;
    assert Steps(x << 2, 2) == x;
    assert Steps(x << 4, 4) == x;
    assert Steps(x << 6, 6) == x;
  }

  /** Eight shifts of a register are eight shifts of its low byte, xor its high byte moved down. */
  lemma EightSteps(c: bv16)
    ensures Steps(c, 8) == Xor(Steps(c & 0xFF, 8), c >> 8)
  {
    var x := c >> 8;
    assert c == Xor(c & 0xFF, x << 8);
    hide Xor, BitStep, Steps;
    StepsLinear(c & 0xFF, x << 8, 8);
    HighByteMovesDown(x);
  }

  predicate IsTable(t: seq<bv16>) {
    |t| == 256 && forall n :: 0 <= n < 256 ==> t[n] == Steps(n as bv16, 8)
  }

  /** The generator's inner loop. */
  method ShiftOut(n: bv16) returns (c: bv16)
    ensures c == Steps(n, 8)
  {
    c := n;
    var k := 0;
    while k < 8
      invariant 0 <= k <= 8
      invariant Steps(c, 8 - k) == Steps(n, 8)
    {
      if c & 1 == 1 {
        c := POLYNOMIAL ^ (c >> 1);
      } else {
        c := c >> 1;
      }
      k := k + 1;
    }
  }

  /** The generator's outer loop. */
  method BuildTable() returns (table: array<bv16>)
    ensures fresh(table) && IsTable(table[..])
  {
    hide Steps;
    table := new bv16[256];
    var n := 0;
    while n < 256
      invariant 0 <= n <= 256
      invariant forall i :: 0 <= i < n ==> table[i] == Steps(i as bv16, 8)
    {
      var c := ShiftOut(n as bv16);
      table[n] := c;
      n := n + 1;
    }
  }

  lemma IndexRoundTrip(low: bv16)
    requires low < 256
    ensures 0 <= low as int < 256 && (low as int) as bv16 == low
  {}

  lemma HighByteUntouched(c: bv16, b: bv8)
    ensures Xor(c, b as bv16) >> 8 == c >> 8
    ensures Xor(c, b as bv16) & 0xFF < 256
  {}

  lemma TableEntry(table: seq<bv16>, low: bv16)
    requires IsTable(table) && low < 256
    ensures 0 <= low as int < 256 && table[low as int] == Steps(low, 8)
  {
    hide Steps;
    IndexRoundTrip(low);
  }

  lemma TableStep(table: seq<bv16>, c: bv16, b: bv8)
    requires IsTable(table)
    ensures Xor(c, b as bv16) & 0xFF < 256
    ensures 0 <= (Xor(c, b as bv16) & 0xFF) as int < 256
    ensures Xor(table[(Xor(c, b as bv16) & 0xFF) as int], c >> 8) == ByteStep(c, b)
  {
    HighByteUntouched(c, b);
    TableEntry(table, Xor(c, b as bv16) & 0xFF);
    EightSteps(Xor(c, b as bv16));
    hide Xor, BitStep, Steps, IsTable;
  }

  /** The emitted table-driven loop computes the bit-at-a-time CRC. */
  method TableCrc(table: array<bv16>, buf: array<byte>, length: nat) returns (crc: bv16)
    requires IsTable(table[..])
    requires length <= buf.Length
    ensures crc == Crc(buf[..length])
  {
    var c: bv16 := 0xFFFF;
    var n := 0;
    while n < length
      invariant 0 <= n <= length
      invariant c == Register(INITIAL, buf[..n])
    {
      var b := Octet(buf[n]);
      TableStep(table[..], c, b);
      hide Xor, ByteStep, Octet;
      c := Xor(table[(Xor(c, b as bv16) & 0xFF) as int], c >> 8);
      assert buf[..n + 1][..n] == buf[..n];
      n := n + 1;
    }
    crc := !c;
  }

  // ----- A known value -----

  lemma EightBits(c: bv16)
    ensures Steps(c, 8) == BitStep(BitStep(BitStep(BitStep(BitStep(BitStep(BitStep(BitStep(c))))))))
  {
    hide BitStep;
    assert Steps(c, 8) == Steps(BitStep(BitStep(BitStep(BitStep(c)))), 4);
  }

  /** The register before each of the digits from 1 to 9 in ASCII, and after the last. */
  function RegisterAt(n: nat): bv16
    requires n <= 9
  {
    match n
    case 0 => 0xFFFF
    case 1 => 0x947E
    case 2 => 0xF595
    case 3 => 0x7A75
    case 4 => 0x30BA
    case 5 => 0xA471
    case 6 => 0x32E4
    case 7 => 0x9D73
    case 8 => 0x37DD
    case 9 => 0x4B37
  }

  function Digit(n: nat): (b: byte)
    requires n < 9
  {
    0x31 + n
  }

  /** One step for each of the digits. */
  lemma DigitSteps()
    ensures ByteStep(0xFFFF, 0x31) == 0x947E
    ensures ByteStep(0x947E, 0x32) == 0xF595
    ensures ByteStep(0xF595, 0x33) == 0x7A75
    ensures ByteStep(0x7A75, 0x34) == 0x30BA
    ensures ByteStep(0x30BA, 0x35) == 0xA471
    ensures ByteStep(0xA471, 0x36) == 0x32E4
    ensures ByteStep(0x32E4, 0x37) == 0x9D73
    ensures ByteStep(0x9D73, 0x38) == 0x37DD
    ensures ByteStep(0x37DD, 0x39) == 0x4B37
  {
    EightBits(0xFFCE);
    EightBits(0x944C);
    EightBits(0xF5A6);
    EightBits(0x7A41);
    EightBits(0x308F);
    EightBits(0xA447);
    EightBits(0x32D3);
    EightBits(0x9D4B);
    EightBits(0x37E4);
  }

  lemma DigitOctet(n: nat)
    requires n < 9
    ensures Octet(Digit(n)) as int == 0x31 + n
  {}

  lemma DigitStep(n: nat)
    requires n < 9
    ensures ByteStep(RegisterAt(n), Octet(Digit(n))) == RegisterAt(n + 1)
  {
    DigitSteps();
    DigitOctet(n);
    hide ByteStep, Octet, Digit;
    var b := Octet(Digit(n));
    match n
    case 0 => assert b == 0x31;
    case 1 => assert b == 0x32;
    case 2 => assert b == 0x33;
    case 3 => assert b == 0x34;
    case 4 => assert b == 0x35;
    case 5 => assert b == 0x36;
    case 6 => assert b == 0x37;
    case 7 => assert b == 0x38;
    case 8 => assert b == 0x39;
  }

  function Digits(n: nat): seq<byte>
    requires n <= 9
  {
    if n == 0 then [] else Digits(n - 1) + [Digit(n - 1)]
  }

  lemma {:induction false} DigitsRun(n: nat)
    requires n <= 9
    ensures Register(INITIAL, Digits(n)) == RegisterAt(n)
  {
    hide ByteStep, Octet;
    if n > 0 {
      DigitsRun(n - 1);
      DigitStep(n - 1);
      assert Digits(n)[..|Digits(n)| - 1] == Digits(n - 1);
    }
  }

  lemma DigitsAre()
    ensures Digits(9) == [0x31, 0x32, 0x33, 0x34, 0x35, 0x36, 0x37, 0x38, 0x39]
  {
    assert Digits(3) == [0x31, 0x32, 0x33];
    assert Digits(6) == [0x31, 0x32, 0x33, 0x34, 0x35, 0x36];
  }

  /** The sums of the digits 123456789 in ASCII, and of nothing. */
  lemma CheckValue()
    ensures Crc([0x31, 0x32, 0x33, 0x34, 0x35, 0x36, 0x37, 0x38, 0x39]) == 0xB4C8
    ensures Crc([]) == 0
  {
    DigitsAre();
    hide Digits, Digit;
    DigitsRun(9);
    hide Register;
    assert Register(INITIAL, []) == 0xFFFF by {
      NothingFed();
    }
  }

  lemma NothingFed()
    ensures Register(INITIAL, []) == INITIAL
  {}
}
