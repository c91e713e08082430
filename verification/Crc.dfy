/** The frame check sequence: CRC-16/X.25, as sections 3.7 and 3.8 of AX.25 v2.2 use it. */
module Crc {
  type Byte = b: int | 0 <= b < 256

  function Pow2(k: nat): (p: nat)
    ensures p > 0
  {
    if k == 0 then 1 else 2 * Pow2(k - 1)
  }

  /** The low `k` bits of a number, least significant first. */
  function BitsOf(n: nat, k: nat): (bits: seq<bool>)
    ensures |bits| == k
    decreases k
  {
    if k == 0 then [] else [n % 2 == 1] + BitsOf(n / 2, k - 1)
  }

  function ValueOf(bits: seq<bool>): (n: nat)
    ensures n < Pow2(|bits|)
    decreases |bits|
  {
    if bits == [] then 0 else (if bits[0] then 1 else 0) + 2 * ValueOf(bits[1..])
  }

  lemma {:induction false} BitsOfValue(bits: seq<bool>)
    ensures BitsOf(ValueOf(bits), |bits|) == bits
    decreases |bits|
  {
    if bits != [] {
      BitsOfValue(bits[1..]);
      assert ValueOf(bits) / 2 == ValueOf(bits[1..]);
      assert bits == [bits[0]] + bits[1..];
    }
  }

  lemma {:induction false} ValueOfBits(n: nat, k: nat)
    requires n < Pow2(k)
    ensures ValueOf(BitsOf(n, k)) == n
    decreases k
  {
    if k > 0 {
      ValueOfBits(n / 2, k - 1);
      assert BitsOf(n, k)[1..] == BitsOf(n / 2, k - 1);
    }
  }

  /** The bits of a byte in transmission order. */
  function ByteBits(b: Byte): (bits: seq<bool>)
    ensures |bits| == 8
  {
    BitsOf(b, 8)
  }

  function ByteOf(bits: seq<bool>): (b: Byte)
    requires |bits| == 8
    ensures ByteBits(b) == bits
  {
    BitsOfValue(bits);
    ValueOf(bits)
  }

  lemma ByteOfBits(b: Byte)
    ensures ByteOf(ByteBits(b)) == b
  {
    ValueOfBits(b, 8);
  }

  function Bits(data: seq<Byte>): (bits: seq<bool>)
    ensures |bits| == 8 * |data|
  {
    if data == [] then [] else ByteBits(data[0]) + Bits(data[1..])
  }

  /** The sixteen-bit register, least significant bit first. */
  type Reg = r: seq<bool> | |r| == 16
    witness [
      false, false, false, false, false, false, false, false,
      false, false, false, false, false, false, false, false
    ]

  const ONES: Reg := [true, true, true, true, true, true, true, true, true, true, true, true, true, true, true, true]

  /** The polynomial 0x8408. */
  predicate Poly(i: int) {
    i == 3 || i == 10 || i == 15
  }

  /** One shift to the right, folding the polynomial in when a 1 falls out. */
  function StepBit(r: Reg): Reg {
    seq(16, i requires 0 <= i < 16 => (i < 15 && r[i + 1]) != (r[0] && Poly(i)))
  }

  function Shift(r: Reg, n: nat): Reg
    decreases n
  {
    if n == 0 then r else Shift(StepBit(r), n - 1)
  }

  /** Exclusive or with up to sixteen bits, aligned at the low end. */
  function Xor(r: Reg, bits: seq<bool>): Reg {
    seq(16, i requires 0 <= i < 16 => r[i] != (i < |bits| && bits[i]))
  }

  /** The register after a run of bytes. */
  function Register(r: Reg, data: seq<Byte>): Reg
    decreases |data|
  {
    if data == [] then r else Register(Shift(Xor(r, ByteBits(data[0])), 8), data[1..])
  }

  function Crc16(data: seq<Byte>): Reg {
    Xor(Register(ONES, data), ONES)
  }

  /** The two bytes appended to a frame, low byte first. */
  function Fcs(crc: Reg): seq<Byte> {
    [ByteOf(crc[..8]), ByteOf(crc[8..])]
  }

  method FoldByte(crc: Reg, b: Byte) returns (r: Reg)
    ensures r == Shift(Xor(crc, ByteBits(b)), 8)
  {
    r := Xor(crc, ByteBits(b));
    ghost var folded: Reg := r;
    for j := 0 to 8
      invariant Shift(folded, 8) == Shift(r, 8 - j)
    {
      r := StepBit(r);
    }
  }

  method Crc16X25(data: seq<Byte>) returns (crc: Reg)
    ensures crc == Crc16(data)
  {
    crc := ONES;
    for i := 0 to |data|
      invariant Register(ONES, data) == Register(crc, data[i..])
    {
      assert data[i..][1..] == data[i + 1..];
      crc := FoldByte(crc, data[i]);
    }
    crc := Xor(crc, ONES);
  }

  // ---- The register one transmitted bit at a time ----

  function RegisterBits(r: Reg, bits: seq<bool>): Reg
    decreases |bits|
  {
    if bits == [] then r else RegisterBits(StepBit(Xor(r, bits[..1])), bits[1..])
  }

  lemma StepLinear(r: Reg, bits: seq<bool>)
    requires 0 < |bits| <= 16
    ensures StepBit(Xor(r, bits)) == Xor(StepBit(Xor(r, bits[..1])), bits[1..])
  {
  }

  lemma XorNothing(r: Reg)
    ensures Xor(r, []) == r
  {
  }

  /** Sixteen bits or fewer can be folded in at once before shifting. */
  lemma {:induction false} BitsAreOneWord(r: Reg, bits: seq<bool>)
    requires |bits| <= 16
    ensures RegisterBits(r, bits) == Shift(Xor(r, bits), |bits|)
    decreases |bits|
  {
    if bits == [] {
      XorNothing(r);
    } else {
      StepLinear(r, bits);
      BitsAreOneWord(StepBit(Xor(r, bits[..1])), bits[1..]);
    }
  }

  lemma {:induction false} RegisterBitsAppend(r: Reg, a: seq<bool>, b: seq<bool>)
    ensures RegisterBits(r, a + b) == RegisterBits(RegisterBits(r, a), b)
    decreases |a|
  {
    if a == [] {
      assert a + b == b;
    } else {
      assert (a + b)[1..] == a[1..] + b && (a + b)[..1] == a[..1];
      RegisterBitsAppend(StepBit(Xor(r, a[..1])), a[1..], b);
    }
  }

  /** The byte-wise register is the bit-wise one over the bits in transmission order. */
  lemma {:induction false} RegisterIsBitwise(r: Reg, data: seq<Byte>)
    ensures Register(r, data) == RegisterBits(r, Bits(data))
    decreases |data|
  {
    if data != [] {
      BitsAreOneWord(r, ByteBits(data[0]));
      RegisterBitsAppend(r, ByteBits(data[0]), Bits(data[1..]));
      RegisterIsBitwise(Shift(Xor(r, ByteBits(data[0])), 8), data[1..]);
    }
  }

  lemma StepInjective(a: Reg, b: Reg)
    requires StepBit(a) == StepBit(b)
    ensures a == b
  {
    assert StepBit(a)[15] == a[0] && StepBit(b)[15] == b[0];
    forall i | 0 <= i < 16
      ensures a[i] == b[i]
    {
      if i > 0 {
        assert StepBit(a)[i - 1] == StepBit(b)[i - 1];
      }
    }
  }

  lemma {:induction false} ShiftInjective(a: Reg, b: Reg, n: nat)
    requires Shift(a, n) == Shift(b, n)
    ensures a == b
    decreases n
  {
    if n > 0 {
      ShiftInjective(StepBit(a), StepBit(b), n - 1);
      StepInjective(a, b);
    }
  }

  lemma XorInjective(a: Reg, b: Reg, bits: seq<bool>)
    requires Xor(a, bits) == Xor(b, bits)
    ensures a == b
  {
    forall i | 0 <= i < 16
      ensures a[i] == b[i]
    {
      assert Xor(a, bits)[i] == Xor(b, bits)[i];
    }
  }

  lemma XorSeparates(r: Reg, x: seq<bool>, y: seq<bool>)
    requires |x| == |y| <= 16 && Xor(r, x) == Xor(r, y)
    ensures x == y
  {
    forall i | 0 <= i < |x|
      ensures x[i] == y[i]
    {
      assert Xor(r, x)[i] == Xor(r, y)[i];
    }
  }

  /** Different registers stay different over the same bits. */
  lemma {:induction false} SameTailKeepsDifference(a: Reg, b: Reg, bits: seq<bool>)
    requires RegisterBits(a, bits) == RegisterBits(b, bits)
    ensures a == b
    decreases |bits|
  {
    if bits != [] {
      SameTailKeepsDifference(StepBit(Xor(a, bits[..1])), StepBit(Xor(b, bits[..1])), bits[1..]);
      StepInjective(Xor(a, bits[..1]), Xor(b, bits[..1]));
      XorInjective(a, b, bits[..1]);
    }
  }

  /** Any error burst confined to sixteen consecutive transmitted bits changes the
      register, whatever precedes and follows it. */
  lemma BurstChangesRegister(r: Reg, before: seq<bool>, x: seq<bool>, y: seq<bool>, after: seq<bool>)
    requires |x| == |y| <= 16 && x != y
    ensures RegisterBits(r, before + x + after) != RegisterBits(r, before + y + after)
  {
    var r' := RegisterBits(r, before);
    RegisterBitsAppend(r, before + x, after);
    RegisterBitsAppend(r, before + y, after);
    RegisterBitsAppend(r, before, x);
    RegisterBitsAppend(r, before, y);
    BitsAreOneWord(r', x);
    BitsAreOneWord(r', y);
    if Shift(Xor(r', x), |x|) == Shift(Xor(r', y), |y|) {
      ShiftInjective(Xor(r', x), Xor(r', y), |x|);
      XorSeparates(r', x, y);
    } else if RegisterBits(r, before + x + after) == RegisterBits(r, before + y + after) {
      SameTailKeepsDifference(RegisterBits(r', x), RegisterBits(r', y), after);
    }
  }

  lemma {:induction false} BitsDetermineData(a: seq<Byte>, b: seq<Byte>)
    requires Bits(a) == Bits(b)
    ensures a == b
    decreases |a|
  {
    assert |a| == |b|;
    if a != [] {
      assert ByteBits(a[0]) == Bits(a)[..8] && ByteBits(b[0]) == Bits(b)[..8];
      ByteOfBits(a[0]);
      ByteOfBits(b[0]);
      assert Bits(a[1..]) == Bits(a)[8..] && Bits(b[1..]) == Bits(b)[8..];
      BitsDetermineData(a[1..], b[1..]);
    }
  }

  lemma BurstInBits(p: seq<bool>, q: seq<bool>, lo: nat, hi: nat)
    requires |p| == |q| && lo <= hi <= |p| && hi <= lo + 16 && p != q
    requires p[..lo] == q[..lo] && p[hi..] == q[hi..]
    ensures RegisterBits(ONES, p) != RegisterBits(ONES, q)
  {
    assert p == p[..lo] + p[lo..hi] + p[hi..];
    assert q == q[..lo] + q[lo..hi] + q[hi..];
    BurstChangesRegister(ONES, p[..lo], p[lo..hi], q[lo..hi], p[hi..]);
  }

  /** Two different messages of one length whose transmitted bits differ only in
      positions [from, from + 16) - two adjacent bytes in particular - always have
      different CRCs. */
  lemma BurstDetected(a: seq<Byte>, b: seq<Byte>, from: nat)
    requires |a| == |b| && a != b
    requires forall i :: 0 <= i < 8 * |a| && !(from <= i < from + 16) ==> Bits(a)[i] == Bits(b)[i]
    ensures Crc16(a) != Crc16(b)
  {
    var p, q := Bits(a), Bits(b);
    if p == q {
      BitsDetermineData(a, b);
    } else {
      var lo := if from < |p| then from else |p|;
      var hi := if from + 16 < |p| then from + 16 else |p|;
      BurstInBits(p, q, lo, hi);
      RegisterIsBitwise(ONES, a);
      RegisterIsBitwise(ONES, b);
      if Crc16(a) == Crc16(b) {
        XorInjective(Register(ONES, a), Register(ONES, b), ONES);
      }
    }
  }

  /** The register a receiver holds after an undamaged frame, as a fixed word. */
  const RESIDUE: Reg := Shift(ONES, 16)

  /** A register written out, lowest bit first. */
  function Word(bits: string): Reg
    requires |bits| == 16
  {
    seq(16, i requires 0 <= i < 16 => bits[i] == '1')
  }

  lemma OneShift(a: string, b: string)
    requires |a| == |b| == 16
    requires forall i :: 0 <= i < 16 ==> ((b[i] == '1') <==> ((i < 15 && a[i + 1] == '1') != (a[0] == '1' && Poly(i))))
    ensures forall n: nat :: n > 0 ==> Shift(Word(a), n) == Shift(Word(b), n - 1)
  {
    assert StepBit(Word(a)) == Word(b);
  }

  lemma Shifts0()
    ensures forall n: nat :: n >= 4 ==> Shift(Word("1111111111111111"), n) == Shift(Word("0000111000011111"), n - 4)
  {
    hide Word, Shift;
    OneShift("1111111111111111", "1110111111011111");
    OneShift("1110111111011111", "1100111110011111");
    OneShift("1100111110011111", "1000111100011111");
    OneShift("1000111100011111", "0000111000011111");
  }

  lemma Shifts4()
    ensures forall n: nat :: n >= 4 ==> Shift(Word("0000111000011111"), n) == Shift(Word("1110000111110000"), n - 4)
  {
    hide Word, Shift;
    OneShift("0000111000011111", "0001110000111110");
    OneShift("0001110000111110", "0011100001111100");
    OneShift("0011100001111100", "0111000011111000");
    OneShift("0111000011111000", "1110000111110000");
  }

  lemma Shifts8()
    ensures forall n: nat :: n >= 4 ==> Shift(Word("1110000111110000"), n) == Shift(Word("1111111011001110"), n - 4)
  {
    hide Word, Shift;
    OneShift("1110000111110000", "1101001111000001");
    OneShift("1101001111000001", "1011011110100011");
    OneShift("1011011110100011", "0111111101100111");
    OneShift("0111111101100111", "1111111011001110");
  }

  lemma Shifts12()
    ensures forall n: nat :: n >= 4 ==> Shift(Word("1111111011001110"), n) == Shift(Word("0001110100001111"), n - 4)
  {
    hide Word, Shift;
    OneShift("1111111011001110", "1110110110111101");
    OneShift("1110110110111101", "1100101101011011");
    OneShift("1100101101011011", "1000011010010111");
    OneShift("1000011010010111", "0001110100001111");
  }

  /** That word is 0xF0B8, the constant every HDLC receiver compares with. */
  lemma ResidueWord()
    ensures RESIDUE == Word("0001110100001111")
  {
    hide Shift;
    assert ONES == Word("1111111111111111");
    Shifts0();
    Shifts4();
    Shifts8();
    Shifts12();
    NoShift(Word("0001110100001111"));
  }

  lemma NoShift(r: Reg)
    ensures Shift(r, 0) == r
  {
  }

  lemma FcsBits(crc: Reg)
    ensures Bits(Fcs(crc)) == crc
  {
    var f := Fcs(crc);
    assert f[1..] == [f[1]] && f[1..][1..] == [];
    assert Bits(f[1..]) == ByteBits(f[1]) + [];
    assert crc == crc[..8] + crc[8..];
  }

  lemma XorTwice(r: Reg)
    ensures Xor(r, Xor(r, ONES)) == ONES
  {
  }

  /** The residue is reached exactly by the right frame check sequence: the check a
      receiver makes accepts data followed by `fcs` if and only if `fcs` is the CRC of
      the data. */
  lemma ResidueIff(data: seq<Byte>, fcs: Reg)
    ensures Register(ONES, data + Fcs(fcs)) == RESIDUE <==> fcs == Crc16(data)
  {
    var r := Register(ONES, data);
    RegisterIsBitwise(ONES, data + Fcs(fcs));
    RegisterIsBitwise(ONES, data);
    BitsAppend(data, Fcs(fcs));
    RegisterBitsAppend(ONES, Bits(data), Bits(Fcs(fcs)));
    FcsBits(fcs);
    BitsAreOneWord(r, fcs);
    XorTwice(r);
    if Shift(Xor(r, fcs), 16) == RESIDUE {
      ShiftInjective(Xor(r, fcs), ONES, 16);
      XorSeparates(r, fcs, Crc16(data));
    }
  }

  lemma {:induction false} BitsAppend(a: seq<Byte>, b: seq<Byte>)
    ensures Bits(a + b) == Bits(a) + Bits(b)
    decreases |a|
  {
    if a == [] {
      assert a + b == b;
    } else {
      assert (a + b)[1..] == a[1..] + b;
      BitsAppend(a[1..], b);
    }
  }
}
