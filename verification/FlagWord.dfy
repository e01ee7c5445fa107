/** 64-bit words used as sets of flags, and how they travel over a socket. */
module FlagWord {
  import opened Bytes

  function And(x: bv64, y: bv64): bv64 { x & y }
  function Or(x: bv64, y: bv64): bv64 { x | y }
  function AndNot(x: bv64, y: bv64): bv64 { x & !y }
  function Twice(x: bv64): bv64 { x << 1 }
  function Times16(x: bv64): bv64 { x << 4 }

  /** 1 shifted left by n places; beyond the top bit nothing is left. */
  function Bit(n: nat): bv64 {
    if n == 0 then 1 else Twice(Bit(n - 1))
  }

  /** The C expression 1 << n. A shift by 64 or more is undefined; `wild` is what the platform makes of it. */
  function Shifted(n: nat, wild: bv64): bv64 {
    if n < 64 then Bit(n) else wild
  }

  predicate Has(w: bv64, flag: bv64) { And(w, flag) != 0 }

  // ----- Distinct bits are independent -----

  lemma AndTwice(x: bv64, y: bv64)
    ensures And(Twice(x), Twice(y)) == Twice(And(x, y))
    ensures And(1, Twice(x)) == 0 && Twice(0) == 0 && And(x, y) == And(y, x)
  {}

  lemma {:induction false} BitsApart(m: nat, n: nat)
    requires m < n
    ensures And(Bit(m), Bit(n)) == 0
  {
    hide Twice, And;
    AndTwice(Bit(n - 1), 0);
    if m > 0 {
      BitsApart(m - 1, n - 1);
      AndTwice(Bit(m - 1), Bit(n - 1));
    }
  }

  lemma {:induction false} ZeroStays(n: nat, m: nat)
    requires n <= m && Bit(n) == 0
    ensures Bit(m) == 0
  {
    hide Twice;
    AndTwice(0, 0);
    if n < m {
      ZeroStays(n, m - 1);
    }
  }

  lemma FourTimes(x: bv64)
    ensures Twice(Twice(Twice(Twice(x)))) == Times16(x)
  {}

  lemma FourUp(n: nat)
    ensures Bit(n + 4) == Times16(Bit(n))
  {
    hide Twice, Times16;
    assert Bit(n + 2) == Twice(Twice(Bit(n)));
    assert Bit(n + 4) == Twice(Twice(Bit(n + 2)));
    FourTimes(Bit(n));
  }

  lemma TopBit()
    ensures Bit(63) == 0x8000_0000_0000_0000
  {
    assert Bit(3) == 8;
    hide Bit;
    FourUp(3); FourUp(7); FourUp(11); FourUp(15); FourUp(19); FourUp(23); FourUp(27);
    FourUp(31); FourUp(35); FourUp(39); FourUp(43); FourUp(47); FourUp(51); FourUp(55); FourUp(59);
  }

  lemma BitNotZero(n: nat)
    requires n < 64
    ensures Bit(n) != 0
  {
    hide Bit, Twice;
    TopBit();
    if Bit(n) == 0 {
      ZeroStays(n, 63);
    }
  }

  lemma SetOne(w: bv64, flag: bv64)
    ensures Has(Or(w, flag), flag) <==> flag != 0
    ensures !Has(AndNot(w, flag), flag)
  {}

  lemma SetOther(w: bv64, flag: bv64, other: bv64)
    requires And(flag, other) == 0
    ensures Has(Or(w, flag), other) <==> Has(w, other)
    ensures Has(AndNot(w, flag), other) <==> Has(w, other)
  {
    hide And, Or, AndNot;
    OrElsewhere(w, flag, other);
    ClearElsewhere(w, flag, other);
  }

  lemma OrElsewhere(w: bv64, flag: bv64, other: bv64)
    requires And(flag, other) == 0
    ensures And(Or(w, flag), other) == And(w, other)
  {}

  lemma ClearElsewhere(w: bv64, flag: bv64, other: bv64)
    requires And(flag, other) == 0
    ensures And(AndNot(w, flag), other) == And(w, other)
  {}

  lemma BitsOverlap(m: nat, n: nat)
    requires m < 64 && n < 64
    ensures Has(Bit(m), Bit(n)) <==> m == n
  {
    BitNotZero(n);
    if m < n {
      BitsApart(m, n);
    } else if n < m {
      BitsApart(n, m);
    }
    hide Bit;
    AndTwice(Bit(m), Bit(n));
    assert And(Bit(n), Bit(n)) == Bit(n);
  }

  // ----- A word is its bits -----

  /** The n lowest bits. */
  function Ones(n: nat): bv64 {
    if n == 0 then 0 else Or(Twice(Ones(n - 1)), 1)
  }

  lemma TwiceOr(x: bv64, y: bv64)
    ensures Twice(Or(x, y)) == Or(Twice(x), Twice(y))
  {}

  lemma OrAssoc(x: bv64, y: bv64, z: bv64)
    ensures Or(Or(x, y), z) == Or(x, Or(y, z))
  {}

  lemma OrComm(x: bv64, y: bv64)
    ensures Or(x, y) == Or(y, x)
  {}

  lemma OrSwap(x: bv64, y: bv64, z: bv64)
    ensures Or(Or(x, y), z) == Or(Or(x, z), y)
  {
    hide Or;
    OrAssoc(x, y, z);
    OrComm(y, z);
    OrAssoc(x, z, y);
  }

  lemma OneMore(x: bv64, y: bv64)
    ensures Or(Twice(Or(x, y)), 1) == Or(Or(Twice(x), 1), Twice(y))
  {
    hide Or, Twice;
    TwiceOr(x, y);
    OrSwap(Twice(x), Twice(y), 1);
  }

  lemma FirstOne()
    ensures Or(0, 1) == Or(Twice(0), 1)
  {}

  lemma {:induction false} OnesUp(n: nat)
    ensures Ones(n + 1) == Or(Ones(n), Bit(n))
  {
    if n == 0 {
      assert Ones(1) == Or(Twice(0), 1);
      FirstOne();
    } else {
      OnesUp(n - 1);
      hide Or, Twice;
      OneMore(Ones(n - 1), Bit(n - 1));
    }
  }

  function FourOnes(x: bv64): bv64 { (x << 4) | 15 }

  lemma FourOrs(x: bv64)
    ensures Or(Twice(Or(Twice(Or(Twice(Or(Twice(x), 1)), 1)), 1)), 1) == FourOnes(x)
  {}

  lemma FourMore(n: nat)
    ensures Ones(n + 4) == FourOnes(Ones(n))
  {
    hide Or, Twice, FourOnes;
    assert Ones(n + 2) == Or(Twice(Or(Twice(Ones(n)), 1)), 1);
    assert Ones(n + 4) == Or(Twice(Or(Twice(Ones(n + 2)), 1)), 1);
    FourOrs(Ones(n));
  }

  lemma AllOnes()
    ensures Ones(64) == 0xFFFF_FFFF_FFFF_FFFF
  {
    assert Ones(0) == 0;
    hide Ones;
    FourMore(0); FourMore(4); FourMore(8); FourMore(12); FourMore(16); FourMore(20); FourMore(24); FourMore(28);
    FourMore(32); FourMore(36); FourMore(40); FourMore(44); FourMore(48); FourMore(52); FourMore(56); FourMore(60);
  }

  lemma AndOr(w: bv64, x: bv64, y: bv64)
    requires And(w, x) == 0 && And(w, y) == 0
    ensures And(w, Or(x, y)) == 0
  {}

  lemma {:induction false} NoBits(w: bv64, n: nat)
    requires forall b :: 0 <= b < n ==> And(w, Bit(b)) == 0
    ensures And(w, Ones(n)) == 0
  {
    if n > 0 {
      NoBits(w, n - 1);
      OnesUp(n - 1);
      hide And, Or, Ones, Bit;
      AndOr(w, Ones(n - 1), Bit(n - 1));
    }
  }

  lemma AndAll(w: bv64)
    ensures And(w, 0xFFFF_FFFF_FFFF_FFFF) == w
  {}

  lemma SomeBit(w: bv64) returns (b: nat)
    requires w != 0
    ensures b < 64 && Has(w, Bit(b))
  {
    hide And, Bit, Ones;
    if b' :| 0 <= b' < 64 && And(w, Bit(b')) != 0 {
      b := b';
    } else {
      NoBits(w, 64);
      AllOnes();
      AndAll(w);
      assert false;
    }
  }

  // ----- Byte order -----

  function Byte(w: bv64, k: nat): byte
    requires k < 8
  {
    Byte8(w, k) as int
  }

  function Byte8(w: bv64, k: nat): bv8
    requires k < 8
  {
    match k
    case 0 => (w & 0xFF) as bv8
    case 1 => ((w >> 8) & 0xFF) as bv8
    case 2 => ((w >> 16) & 0xFF) as bv8
    case 3 => ((w >> 24) & 0xFF) as bv8
    case 4 => ((w >> 32) & 0xFF) as bv8
    case 5 => ((w >> 40) & 0xFF) as bv8
    case 6 => ((w >> 48) & 0xFF) as bv8
    case 7 => ((w >> 56) & 0xFF) as bv8
  }

  /** What a little-endian machine reads into a uint64_t. */
  function Load(b: seq<bv8>): bv64
    requires |b| == 8
  {
    (b[0] as bv64) | ((b[1] as bv64) << 8) | ((b[2] as bv64) << 16) | ((b[3] as bv64) << 24)
    | ((b[4] as bv64) << 32) | ((b[5] as bv64) << 40) | ((b[6] as bv64) << 48) | ((b[7] as bv64) << 56)
  }

  function Memory(w: bv64): (b: seq<bv8>)
    ensures |b| == 8
  {
    [Byte8(w, 0), Byte8(w, 1), Byte8(w, 2), Byte8(w, 3), Byte8(w, 4), Byte8(w, 5), Byte8(w, 6), Byte8(w, 7)]
  }

  lemma LoadMemory(w: bv64)
    ensures Load(Memory(w)) == w
  {}

  function Reversed8(b: seq<bv8>): seq<bv8>
    requires |b| == 8
  {
    [b[7], b[6], b[5], b[4], b[3], b[2], b[1], b[0]]
  }

  /** ntohll on a little-endian machine: the bytes of a word in the opposite order. */
  method Ntohll(x: bv64) returns (r: bv64)
    ensures r == Load(Reversed8(Memory(x)))
  {
    var src := Memory(x);
    var dst := new bv8[8];
    for i := 0 to 8
      invariant forall k :: 0 <= k < i ==> dst[7 - k] == src[k]
    {
      dst[7 - i] := src[i];
    }
    assert dst[..] == Reversed8(src);
    r := Load(dst[..]);
  }
}
