/** The CRC of the Huawei packets as a remainder (tools/emu/emu_sink.py, `huawei_packet`): a string followed by
    16 zero bits, divided by x^16 + x^12 + x^5 + 1 over GF(2), the first bit of highest degree. */
module CrcPolynomial {
  import opened Crc

  /** The divisor's terms below x^16, from x^15 down. */
  function Divisor(): (s: seq<bool>)
    ensures |s| == 16
  {
    seq(16, k => 15 - k == 12 || 15 - k == 5 || 15 - k == 0)
  }

  /** The sum, over GF(2), of a polynomial and one of 16 terms at its top. */
  function AddTop(bits: seq<bool>, d: seq<bool>): (s: seq<bool>)
    requires |d| == 16 && |bits| >= 16
    ensures |s| == |bits|
  {
    seq(|bits|, k requires 0 <= k < |bits| => if k < 16 then bits[k] != d[k] else bits[k])
  }

  /** Long division: as long as there is a term of degree 16 or more, the divisor is taken from the top. */
  function Remainder(bits: seq<bool>): (r: seq<bool>)
    requires |bits| >= 16
    ensures |r| == 16
    decreases |bits|
  {
    if |bits| == 16 then bits
    else if bits[0] then Remainder(AddTop(bits[1..], Divisor()))
    else Remainder(bits[1..])
  }

  function Zeros(): (s: seq<bool>)
    ensures |s| == 16
  {
    seq(16, k => false)
  }

  /** The register's bits, from the top. */
  function Bools(c: bv16): (s: seq<bool>)
    ensures |s| == 16
  {
    seq(16, k requires 0 <= k < 16 => Has(c, k))
  }

  // ---- The register bit by bit ----

  lemma DoubleHas(x: bv16, k: nat)
    requires k < 16
    ensures Has(Double(x), k) <==> k < 15 && Has(x, k + 1)
  {
  }

  lemma XorHas(a: bv16, b: bv16, k: nat)
    requires k < 16
    ensures Has(Xor(a, b), k) <==> Has(a, k) != Has(b, k)
  {
    hide Xor, Single;
    MaskXor(a, b, Single(k));
    EitherBit(a, k);
    EitherBit(b, k);
    XorOfBits(Single(k));
  }

  lemma EitherBit(a: bv16, k: nat)
    requires k < 16
    ensures And(a, Single(k)) == 0 || And(a, Single(k)) == Single(k)
    ensures Single(k) != 0
  {
  }

  lemma XorOfBits(m: bv16)
    ensures Xor(0, 0) == 0 && Xor(m, 0) == m && Xor(0, m) == m && Xor(m, m) == 0
  {
  }

  lemma TopHas(x: bv16)
    ensures Top(x) <==> Has(x, 0)
  {
  }

  lemma PolynomialHas(k: nat)
    requires k < 16
    ensures Has(POLYNOMIAL, k) <==> Divisor()[k]
  {
  }

  lemma BitUpHas(b: bool, k: nat)
    requires k < 16
    ensures Has(BitUp(b), k) <==> b && k == 0
  {
  }

  /** One bit: the register moves up, and the divisor is added if a one came out at the top. */
  lemma UpdateBools(c: bv16, b: bool, k: nat)
    requires k < 16
    ensures var out := Has(c, 0) != b;
            Bools(BitUpdate(c, b))[k] == ((k < 15 && Has(c, k + 1)) != (out && Divisor()[k]))
  {
    hide Has, Xor, Double, Top, BitUp, Divisor;
    var x := Xor(c, BitUp(b));
    XorHas(c, BitUp(b), 0);
    BitUpHas(b, 0);
    TopHas(x);
    DoubleHas(x, k);
    if k < 15 {
      XorHas(c, BitUp(b), k + 1);
      BitUpHas(b, k + 1);
    }
    XorHas(Double(x), POLYNOMIAL, k);
    PolynomialHas(k);
  }

  /** One step of the division is one bit of the register. */
  lemma DivideOne(c: bv16, bits: seq<bool>)
    requires bits != []
    ensures Remainder(AddTop(bits + Zeros(), Bools(c))) ==
            Remainder(AddTop(bits[1..] + Zeros(), Bools(BitUpdate(c, bits[0]))))
  {
    hide Has, Bools, Divisor, BitUpdate;
    var full := AddTop(bits + Zeros(), Bools(c));
    var c' := BitUpdate(c, bits[0]);
    var next := AddTop(bits[1..] + Zeros(), Bools(c'));
    var rest := if full[0] then AddTop(full[1..], Divisor()) else full[1..];
    assert |full| == |bits| + 16 && |next| == |bits| + 15 && |rest| == |next|;
    BoolsHas(c, 0);
    forall k | 0 <= k < |next|
      ensures rest[k] == next[k]
    {
      var tail := bits[1..] + Zeros();
      assert tail[k] == (bits + Zeros())[k + 1];
      if k < 16 {
        UpdateBools(c, bits[0], k);
        if k < 15 {
          BoolsHas(c, k + 1);
        }
      }
    }
    assert rest == next;
  }

  lemma BoolsHas(c: bv16, k: nat)
    requires k < 16
    ensures Bools(c)[k] == Has(c, k)
  {
  }

  lemma {:induction false} RegisterIsRemainder(c: bv16, bits: seq<bool>)
    ensures Bools(CrcBits(c, bits)) == Remainder(AddTop(bits + Zeros(), Bools(c)))
    decreases |bits|
  {
    hide Bools, BitUpdate, Divisor;
    if bits == [] {
      ZerosAdd(Bools(c));
      assert bits + Zeros() == Zeros();
      CrcOfNone(c);
    } else {
      DivideOne(c, bits);
      RegisterIsRemainder(BitUpdate(c, bits[0]), bits[1..]);
      FirstBit(c, bits);
    }
  }

  lemma ZerosAdd(d: seq<bool>)
    requires |d| == 16
    ensures AddTop(Zeros(), d) == d
  {
  }

  lemma CrcOfNone(c: bv16)
    ensures CrcBits(c, []) == c
  {
  }

  lemma FirstBit(c: bv16, bits: seq<bool>)
    requires bits != []
    ensures CrcBits(c, bits) == CrcBits(BitUpdate(c, bits[0]), bits[1..])
  {
    hide BitUpdate;
    var one := [bits[0]];
    assert bits == one + bits[1..];
    BitsAppend(c, one, bits[1..]);
    assert one[..0] == [];
  }

  lemma NoneHas(k: nat)
    ensures !Has(0, k)
  {
  }

  /** The CRC of a string is the remainder of its bits and 16 zeros by x^16 + x^12 + x^5 + 1. */
  lemma CrcIsRemainder(s: Octets)
    ensures Bools(Crc16(s)) == Remainder(BitsOf(s) + Zeros())
  {
    hide Crc16, CrcBits, BitsOf, Has, Remainder;
    var all := BitsOf(s) + Zeros();
    CrcIsBits(s);
    RegisterIsRemainder(0, BitsOf(s));
    forall k | 0 <= k < 16
      ensures !Bools(0)[k]
    {
      NoneHas(k);
    }
    assert AddTop(all, Bools(0)) == all;
  }
}
