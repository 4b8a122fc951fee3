/** The CRC-protected packets of the emulated Huawei earbuds (tools/emu/emu_sink.py, `huawei_packet` and the
    reading side of `HuaweiEarbuds`): CRC-16 with polynomial 0x1021, from 0, most significant bit first. */
module Crc {

  type Octets = seq<bv8>

  // ---- The CRC ----

  const POLYNOMIAL: bv16 := 0x1021

  function Xor(a: bv16, b: bv16): bv16 { a ^ b }

  function Double(a: bv16): bv16 { a << 1 }

  predicate Top(a: bv16) { a & 0x8000 != 0 }

  function Shift(crc: bv16): bv16 {
    if Top(crc) then Xor(Double(crc), POLYNOMIAL) else Double(crc)
  }

  function Shifts(crc: bv16, n: nat): bv16 {
    if n == 0 then crc else Shift(Shifts(crc, n - 1))
  }

  function High(b: bv8): bv16 { (b as bv16) << 8 }

  function Update(crc: bv16, b: bv8): bv16 { Shifts(Xor(crc, High(b)), 8) }

  function Crc16(s: Octets): bv16 {
    if s == [] then 0 else Update(Crc16(s[..|s| - 1]), s[|s| - 1])
  }

  /** Big-endian 16 bits. */
  function Pack(v: bv16): (s: Octets)
    ensures |s| == 2
  {
    [(v >> 8) as bv8, (v & 0xFF) as bv8]
  }

  function Unpack(a: bv8, b: bv8): bv16 { High(a) | (b as bv16) }

  // ---- Bit facts ----

  lemma PlainXor(a: bv16, b: bv16, c: bv16)
    ensures (a ^ b) ^ c == (a ^ c) ^ b && (a ^ c) ^ (b ^ c) == a ^ b && a ^ (b ^ c) == (a ^ b) ^ c
  {
  }

  lemma XorSwaps(a: bv16, b: bv16, c: bv16)
    ensures Xor(Xor(a, b), c) == Xor(Xor(a, c), b)
  {
    PlainXor(a, b, c);
  }

  lemma XorGroups(a: bv16, b: bv16, c: bv16)
    ensures Xor(a, Xor(b, c)) == Xor(Xor(a, b), c)
  {
    PlainXor(a, b, c);
  }

  lemma XorSelf(a: bv16)
    ensures Xor(a, a) == 0
  {
  }

  lemma XorTwice(a: bv16, b: bv16, c: bv16)
    ensures Xor(Xor(a, c), Xor(b, c)) == Xor(a, b)
  {
    hide Xor;
    XorGroups(Xor(a, c), b, c);
    XorSwaps(a, c, b);
    XorGroups(Xor(a, b), c, c);
    XorSelf(c);
    XorZero(Xor(a, b));
  }

  lemma XorCancels(a: bv16, b: bv16, c: bv16)
    requires Xor(a, c) == Xor(b, c)
    ensures a == b
  {
  }

  lemma XorZero(a: bv16)
    ensures Xor(a, 0) == a
  {
  }

  lemma DoubleXor(a: bv16, b: bv16)
    ensures Double(Xor(a, b)) == Xor(Double(a), Double(b))
  {
  }

  lemma TopXor(a: bv16, b: bv16)
    ensures Top(Xor(a, b)) <==> Top(a) != Top(b)
  {
    assert (a ^ b) & 0x8000 == (a & 0x8000) ^ (b & 0x8000);
    assert a & 0x8000 == 0 || a & 0x8000 == 0x8000;
    assert b & 0x8000 == 0 || b & 0x8000 == 0x8000;
  }

  lemma DoubleInjective(a: bv16, b: bv16)
    requires Double(a) == Double(b) && Top(a) == Top(b)
    ensures a == b
  {
    assert a & 0x8000 == 0 || a & 0x8000 == 0x8000;
    assert b & 0x8000 == 0 || b & 0x8000 == 0x8000;
  }

  lemma LowBit(a: bv16)
    ensures Double(a) & 1 == 0 && Xor(Double(a), POLYNOMIAL) & 1 == 1
  {
  }

  // ---- The shift register is linear and loses nothing ----

  lemma ShiftXor(a: bv16, b: bv16)
    ensures Shift(Xor(a, b)) == Xor(Shift(a), Shift(b))
  {
    hide Xor, Double, Top;
    DoubleXor(a, b);
    TopXor(a, b);
    var x, y := Double(a), Double(b);
    XorTwice(x, y, POLYNOMIAL);
    XorSwaps(x, POLYNOMIAL, y);
    XorGroups(x, y, POLYNOMIAL);
  }

  lemma ShiftInjective(a: bv16, b: bv16)
    requires Shift(a) == Shift(b)
    ensures a == b
  {
    hide Xor, Double, Top;
    LowBit(a);
    LowBit(b);
    if Top(a) && Top(b) {
      XorCancels(Double(a), Double(b), POLYNOMIAL);
    }
    DoubleInjective(a, b);
  }

  lemma {:induction false} ShiftsXor(a: bv16, b: bv16, n: nat)
    ensures Shifts(Xor(a, b), n) == Xor(Shifts(a, n), Shifts(b, n))
  {
    hide Xor, Shift;
    if n == 0 {
    } else {
      ShiftsXor(a, b, n - 1);
      ShiftXor(Shifts(a, n - 1), Shifts(b, n - 1));
    }
  }

  lemma {:induction false} ShiftsInjective(a: bv16, b: bv16, n: nat)
    requires Shifts(a, n) == Shifts(b, n)
    ensures a == b
  {
    hide Shift;
    if n == 0 {
    } else {
      ShiftInjective(Shifts(a, n - 1), Shifts(b, n - 1));
      ShiftsInjective(a, b, n - 1);
    }
  }

  /** Eight shifts of a byte only move it up. */
  lemma LowByte(x: bv16)
    requires x < 256
    ensures Shifts(x, 8) == x << 8
  {
    assert Shifts(x, 1) == x << 1;
    assert Shifts(x, 2) == x << 2;
    assert Shifts(x, 3) == x << 3;
    assert Shifts(x, 4) == x << 4;
    assert Shifts(x, 5) == x << 5;
    assert Shifts(x, 6) == x << 6;
    assert Shifts(x, 7) == x << 7;
  }

  lemma PackParts(v: bv16)
    ensures Unpack(Pack(v)[0], Pack(v)[1]) == v
    ensures Xor(v, High(Pack(v)[0])) == v & 0xFF && v & 0xFF < 256
    ensures Xor((v & 0xFF) << 8, High(Pack(v)[1])) == 0
  {
  }

  lemma ZeroShifts()
    ensures Shifts(0, 8) == 0
  {
    LowByte(0);
  }

  /** The CRC over a string and its CRC is 0. */
  lemma CrcOfProtected(s: Octets)
    ensures Crc16(s + Pack(Crc16(s))) == 0
  {
    hide Shifts, Pack, High, Xor;
    var c := Crc16(s);
    var p := Pack(c);
    var one, two := s + [p[0]], s + [p[0]] + [p[1]];
    assert s + p == two && two[..|two| - 1] == one && one[..|one| - 1] == s;
    PackParts(c);
    LowByte(c & 0xFF);
    ZeroShifts();
  }

  // ---- Bit by bit ----

  function BitUp(x: bool): bv16 { if x then 0x8000 else 0 }

  function BitUpdate(crc: bv16, x: bool): bv16 { Shift(Xor(crc, BitUp(x))) }

  function CrcBits(crc: bv16, bits: seq<bool>): bv16 {
    if bits == [] then crc else BitUpdate(CrcBits(crc, bits[..|bits| - 1]), bits[|bits| - 1])
  }

  /** Most significant bit first. */
  function Bits(b: bv8): (s: seq<bool>)
    ensures |s| == 8
  {
    [b & 0x80 != 0, b & 0x40 != 0, b & 0x20 != 0, b & 0x10 != 0, b & 8 != 0, b & 4 != 0, b & 2 != 0, b & 1 != 0]
  }

  function BitsOf(s: Octets): seq<bool> {
    if s == [] then [] else BitsOf(s[..|s| - 1]) + Bits(s[|s| - 1])
  }

  /** 16 bits, or fewer, in a word from its top. */
  function Single(k: nat): bv16 {
    match k
    case 0 => 0x8000 case 1 => 0x4000 case 2 => 0x2000 case 3 => 0x1000
    case 4 => 0x800 case 5 => 0x400 case 6 => 0x200 case 7 => 0x100
    case 8 => 0x80 case 9 => 0x40 case 10 => 0x20 case 11 => 0x10
    case 12 => 8 case 13 => 4 case 14 => 2 case _ => 1
  }

  function Word(bits: seq<bool>): bv16
    requires |bits| <= 16
  {
    if bits == [] then 0
    else
      var n := |bits| - 1;
      Xor(Word(bits[..n]), if bits[n] then Single(n) else 0)
  }

  lemma SingleShifts(k: nat)
    requires 0 < k < 16
    ensures Shift(Single(k)) == Single(k - 1)
  {
  }

  lemma {:induction false} SingleRises(k: nat, n: nat)
    requires n <= k < 16
    ensures Shifts(Single(k), n) == Single(k - n)
  {
    hide Shift, Single;
    if n == 0 {
    } else {
      SingleRises(k, n - 1);
      SingleShifts(k - n + 1);
    }
  }

  lemma {:induction false} ZeroStays(n: nat)
    ensures Shifts(0, n) == 0
  {
    if n == 0 {
    } else {
      ZeroStays(n - 1);
    }
  }

  /** Up to 16 bits at once: they go into the register, and then it shifts. */
  lemma {:induction false} WordAtOnce(crc: bv16, bits: seq<bool>)
    requires |bits| <= 16
    ensures CrcBits(crc, bits) == Shifts(Xor(crc, Word(bits)), |bits|)
    decreases |bits|
  {
    hide Shift, Xor, Single;
    if bits == [] {
      XorZero(crc);
    } else {
      var n := |bits| - 1;
      var front, x := bits[..n], bits[n];
      WordAtOnce(crc, front);
      var w, one := Xor(crc, Word(front)), if x then Single(n) else 0;
      SingleRises(n, n);
      ZeroStays(n);
      SingleZero();
      assert Shifts(one, n) == BitUp(x);
      ShiftsXor(w, one, n);
      XorGroups(crc, Word(front), one);
    }
  }

  lemma SingleZero()
    ensures Single(0) == 0x8000
  {
  }

  function And(a: bv16, m: bv16): bv16 { a & m }

  predicate Has(w: bv16, j: nat) { And(w, Single(j)) != 0 }

  lemma SinglesDiffer(w: bv16, n: nat, j: nat)
    requires n < 16 && j < 16
    ensures Has(Xor(w, Single(n)), j) <==> if n == j then !Has(w, j) else Has(w, j)
  {
    hide Xor, And, Single;
    MaskXor(w, Single(n), Single(j));
    if n == j {
      OneBit(w, n);
    } else {
      Disjoint(n, j);
      XorZero(And(w, Single(j)));
    }
  }

  lemma MaskXor(a: bv16, b: bv16, m: bv16)
    ensures And(Xor(a, b), m) == Xor(And(a, m), And(b, m))
  {
  }

  lemma OneBit(w: bv16, n: nat)
    requires n < 16
    ensures Xor(And(w, Single(n)), And(Single(n), Single(n))) != 0 <==> And(w, Single(n)) == 0
  {
  }

  lemma Disjoint(n: nat, j: nat)
    requires n < 16 && j < 16 && n != j
    ensures And(Single(n), Single(j)) == 0
  {
  }

  lemma {:induction false} WordHas(bits: seq<bool>, j: nat)
    requires |bits| <= 16 && j < 16
    ensures Has(Word(bits), j) <==> j < |bits| && bits[j]
    decreases |bits|
  {
    hide Xor, Single, Has;
    if bits == [] {
      ZeroHasNone(j);
    } else {
      var n := |bits| - 1;
      WordHas(bits[..n], j);
      SinglesDiffer(Word(bits[..n]), n, j);
      XorZero(Word(bits[..n]));
    }
  }

  lemma ZeroHasNone(j: nat)
    ensures !Has(0, j)
  {
  }

  lemma BurstSeen(crc: bv16, a: seq<bool>, b: seq<bool>)
    requires |a| == |b| <= 16 && CrcBits(crc, a) == CrcBits(crc, b)
    ensures a == b
  {
    hide CrcBits, Word, Xor, Shifts, Has;
    WordAtOnce(crc, a);
    WordAtOnce(crc, b);
    ShiftsInjective(Xor(crc, Word(a)), Xor(crc, Word(b)), |a|);
    XorCommutes(crc, Word(a));
    XorCommutes(crc, Word(b));
    XorCancels(Word(a), Word(b), crc);
    forall j | 0 <= j < |a|
      ensures a[j] == b[j]
    {
      WordHas(a, j);
      WordHas(b, j);
    }
  }

  lemma XorCommutes(a: bv16, b: bv16)
    ensures Xor(a, b) == Xor(b, a)
  {
  }

  lemma {:induction false} BitsAppend(crc: bv16, a: seq<bool>, b: seq<bool>)
    ensures CrcBits(crc, a + b) == CrcBits(CrcBits(crc, a), b)
    decreases |b|
  {
    hide BitUpdate;
    if b == [] {
      assert a + b == a;
    } else {
      assert (a + b)[..|a + b| - 1] == a + b[..|b| - 1];
      BitsAppend(crc, a, b[..|b| - 1]);
    }
  }

  lemma {:induction false} BitsInjective(c: bv16, d: bv16, bits: seq<bool>)
    requires CrcBits(c, bits) == CrcBits(d, bits)
    ensures c == d
    decreases |bits|
  {
    hide Shift, Xor;
    if bits == [] {
    } else {
      var n := |bits| - 1;
      var x, y := CrcBits(c, bits[..n]), CrcBits(d, bits[..n]);
      ShiftInjective(Xor(x, BitUp(bits[n])), Xor(y, BitUp(bits[n])));
      XorCancels(x, y, BitUp(bits[n]));
      BitsInjective(c, d, bits[..n]);
    }
  }

  /** A byte at once is its bits one by one. */
  lemma ByteIsBits(crc: bv16, b: bv8)
    ensures Update(crc, b) == CrcBits(crc, Bits(b))
  {
    hide Shifts, Xor, Word, CrcBits;
    WordAtOnce(crc, Bits(b));
    WordOfByte(b);
  }

  lemma WordOfByte(b: bv8)
    ensures Word(Bits(b)) == High(b)
  {
    hide High, Xor, Single, Word;
    var s := Bits(b);
    assert s[..0] == [] && s[..8] == s;
    NoWord();
    WordNext(s, 0);
    WordNext(s, 1);
    WordNext(s, 2);
    WordNext(s, 3);
    WordNext(s, 4);
    WordNext(s, 5);
    WordNext(s, 6);
    WordNext(s, 7);
    assert Word(s) == Sum(b);
    SumOfByte(b);
  }

  lemma NoWord()
    ensures Word([]) == 0
  {
  }

  lemma WordNext(s: seq<bool>, n: nat)
    requires n < |s| <= 16
    ensures Word(s[..n + 1]) == Xor(Word(s[..n]), if s[n] then Single(n) else 0)
  {
    hide Xor, Single;
    assert s[..n + 1][..n] == s[..n];
  }

  function Part(b: bv8, m: bv8, k: nat): bv16 { if b & m != 0 then Single(k) else 0 }

  function Sum(b: bv8): bv16 {
    Xor(Xor(Xor(Xor(Xor(Xor(Xor(Xor(0, Part(b, 0x80, 0)), Part(b, 0x40, 1)), Part(b, 0x20, 2)), Part(b, 0x10, 3)),
                Part(b, 8, 4)), Part(b, 4, 5)), Part(b, 2, 6)), Part(b, 1, 7))
  }

  lemma SumOfByte(b: bv8)
    ensures Sum(b) == High(b)
  {
  }

  lemma {:induction false} CrcIsBits(s: Octets)
    ensures Crc16(s) == CrcBits(0, BitsOf(s))
  {
    hide Update;
    if s == [] {
    } else {
      var n := |s| - 1;
      CrcIsBits(s[..n]);
      ByteIsBits(Crc16(s[..n]), s[n]);
      BitsAppend(0, BitsOf(s[..n]), Bits(s[n]));
    }
  }

  /** Every change within 16 consecutive bits changes the CRC. */
  lemma BurstsDetected(p: Octets, q: Octets, pre: seq<bool>, a: seq<bool>, b: seq<bool>, post: seq<bool>)
    requires BitsOf(p) == pre + a + post && BitsOf(q) == pre + b + post && |a| == |b| <= 16 && a != b
    ensures Crc16(p) != Crc16(q)
  {
    hide Crc16, CrcBits, BitsOf;
    CrcIsBits(p);
    CrcIsBits(q);
    var c := CrcBits(0, pre);
    BitsAppend(0, pre, a);
    BitsAppend(0, pre, b);
    BitsAppend(0, pre + a, post);
    BitsAppend(0, pre + b, post);
    if Crc16(p) == Crc16(q) {
      BitsInjective(CrcBits(c, a), CrcBits(c, b), post);
      BurstSeen(c, a, b);
    }
  }
}
