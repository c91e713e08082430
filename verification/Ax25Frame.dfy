/** UI frames (sections 3.2 and 3.12 of AX.25 v2.2): address encoding, the frame
    builder, and a decoder that takes the frame apart again. */
module Ax25Frame {
  import opened Common
  import opened Crc
  import opened Hdlc
  import opened Transmit
  import opened Text

  /** One address, already split into base callsign, SSID and "repeated" mark. */
  datatype Address = Address(base: string, ssid: nat, repeated: bool)

  datatype Frame = Frame(dst: Address, src: Address, path: seq<Address>, info: seq<Byte>)

  /** The values the byte array accepts; anything else raises in the generator. */
  predicate Encodable(a: Address) {
    a.ssid < 128 && forall i :: 0 <= i < |a.base| ==> a.base[i] as int < 128
  }

  /** An address that fits the seven-byte field without losing anything. */
  predicate Exact(a: Address) {
    ExactCall(a) && a.ssid <= 15
  }

  /** A callsign that does. */
  predicate ExactCall(a: Address) {
    && |a.base| <= 6
    && (a.base == "" || a.base[|a.base| - 1] != ' ')
    && Encodable(a)
  }

  /** Pads with spaces to at least six characters. */
  function Pad6(base: string): (r: string)
    ensures |r| >= 6 && base <= r
    ensures forall i :: |base| <= i < |r| ==> r[i] == ' '
  {
    base + seq(if |base| < 6 then 6 - |base| else 0, _ => ' ')
  }

  /** 0x60 or-ed with the shifted SSID and the two marks: SSID bits 4 and 5 fall on
      bits that are set anyway, bit 6 on the repeated mark. */
  function SsidByte(a: Address, last: bool): Byte
    requires a.ssid < 128
  {
    ByteOf([last] + BitsOf(a.ssid, 4) + [true, true, a.repeated || a.ssid >= 64])
  }

  function AddressBytes(a: Address, last: bool): (r: seq<Byte>)
    requires Encodable(a)
    ensures |r| == |Pad6(a.base)| + 1
  {
    var c := Pad6(a.base);
    seq(|c|, i requires 0 <= i < |c| => 2 * (if i < |a.base| then a.base[i] as int else ' ' as int))
    + [SsidByte(a, last)]
  }

  function AllAddresses(f: Frame): seq<Address> {
    [f.dst, f.src] + f.path
  }

  predicate AllEncodable(addrs: seq<Address>) {
    forall i :: 0 <= i < |addrs| ==> Encodable(addrs[i])
  }

  predicate AllExact(addrs: seq<Address>)
    ensures AllExact(addrs) ==> AllEncodable(addrs)
  {
    forall i :: 0 <= i < |addrs| ==> Exact(addrs[i])
  }

  function AddressField(addrs: seq<Address>): seq<Byte>
    requires AllEncodable(addrs)
    decreases |addrs|
  {
    if addrs == [] then []
    else AddressBytes(addrs[0], |addrs| == 1) + AddressField(addrs[1..])
  }

  function Unchecked(f: Frame): seq<Byte>
    requires AllEncodable(AllAddresses(f))
  {
    AddressField(AllAddresses(f)) + ([0x03, 0xF0] + f.info)
  }

  function Encode(f: Frame): seq<Byte>
    requires AllEncodable(AllAddresses(f))
  {
    Unchecked(f) + Fcs(Crc16(Unchecked(f)))
  }

  lemma FieldStep(bytes: seq<Byte>, addrs: seq<Address>, k: nat)
    requires AllEncodable(addrs) && k < |addrs|
    ensures bytes + AddressField(addrs[k..])
         == bytes + AddressBytes(addrs[k], k == |addrs| - 1) + AddressField(addrs[k + 1..])
  {
    assert addrs[k..][1..] == addrs[k + 1..];
  }

  method EncodeAddresses(addrs: seq<Address>) returns (r: Option<seq<Byte>>)
    ensures r.Some? <==> AllEncodable(addrs)
    ensures r.Some? ==> r.value == AddressField(addrs)
  {
    var bytes: seq<Byte> := [];
    for k := 0 to |addrs|
      invariant AllEncodable(addrs[..k])
    {
      if !Encodable(addrs[k]) {
        return None;
      }
      assert addrs[..k + 1] == addrs[..k] + [addrs[k]];
    }
    assert addrs[..|addrs|] == addrs && addrs[0..] == addrs;
    for k := 0 to |addrs|
      invariant bytes + AddressField(addrs[k..]) == AddressField(addrs)
    {
      FieldStep(bytes, addrs, k);
      bytes := bytes + AddressBytes(addrs[k], k == |addrs| - 1);
    }
    assert addrs[|addrs|..] == [] && bytes + [] == bytes;
    r := Some(bytes);
  }

  method BuildFrame(f: Frame) returns (r: Option<seq<Byte>>)
    ensures r.Some? <==> AllEncodable(AllAddresses(f))
    ensures r.Some? ==> r.value == Encode(f)
  {
    var addrs := EncodeAddresses(AllAddresses(f));
    if addrs.None? {
      return None;
    }
    var bytes := addrs.value + ([0x03, 0xF0] + f.info);
    var crc := Crc16X25(bytes);
    r := Some(bytes + [ByteOf(crc[..8]), ByteOf(crc[8..])]);
  }

  // ---- The decoder ----

  function DecodeAddress(bytes: seq<Byte>): (a: Address)
    requires |bytes| == 7
    ensures Exact(a)
  {
    var bits := ByteBits(bytes[6]);
    assert Pow2(4) == 16;
    Address(TrimRight(seq(6, i requires 0 <= i < 6 => (bytes[i] / 2) as char)), ValueOf(bits[1..5]), bits[7])
  }

  predicate IsLast(bytes: seq<Byte>)
    requires |bytes| == 7
  {
    ByteBits(bytes[6])[0]
  }

  /** Addresses up to the one marked as last, and what follows them. */
  function DecodeAddresses(bytes: seq<Byte>): (r: Option<(seq<Address>, seq<Byte>)>)
    ensures r.Some? ==> AllExact(r.value.0)
    decreases |bytes|
  {
    if |bytes| < 7 then None
    else
      var a := DecodeAddress(bytes[..7]);
      if IsLast(bytes[..7]) then Some(([a], bytes[7..]))
      else
        match DecodeAddresses(bytes[7..])
        case None => None
        case Some((rest, after)) => Some(([a] + rest, after))
  }

  function DecodeBody(bytes: seq<Byte>): (r: Option<Frame>)
    ensures r.Some? ==> AllExact(AllAddresses(r.value))
  {
    match DecodeAddresses(bytes)
    case None => None
    case Some((addrs, after)) =>
      if |addrs| < 2 || |after| < 2 || after[..2] != [0x03, 0xF0] then None
      else
        var f := Frame(addrs[0], addrs[1], addrs[2..], after[2..]);
        assert AllAddresses(f) == addrs;
        Some(f)
  }

  function Decode(bytes: seq<Byte>): (r: Option<Frame>)
    ensures r.Some? ==> AllExact(AllAddresses(r.value))
  {
    if |bytes| < 2 || Register(ONES, bytes) != RESIDUE then None
    else DecodeBody(bytes[..|bytes| - 2])
  }

  lemma {:induction false} TrimPadded(base: string, padded: string)
    requires base <= padded
    requires forall i :: |base| <= i < |padded| ==> padded[i] == ' '
    requires base == "" || base[|base| - 1] != ' '
    ensures TrimRight(padded) == base
    decreases |padded|
  {
    if |padded| > |base| {
      TrimPadded(base, padded[..|padded| - 1]);
    } else {
      assert padded == base;
    }
  }

  lemma CallRoundTrip(a: Address, last: bool)
    requires ExactCall(a)
    ensures var b := AddressBytes(a, last);
            |b| == 7 && TrimRight(seq(6, i requires 0 <= i < 6 => (b[i] / 2) as char)) == a.base
  {
    hide TrimRight, SsidByte;
    var b := AddressBytes(a, last);
    var text := seq(6, i requires 0 <= i < 6 => (b[i] / 2) as char);
    assert text == Pad6(a.base);
    TrimPadded(a.base, text);
  }

  lemma SsidRoundTrip(a: Address, last: bool)
    requires Exact(a)
    ensures var bits := ByteBits(SsidByte(a, last));
            bits[0] == last && ValueOf(bits[1..5]) == a.ssid && bits[7] == a.repeated
  {
    var bits := [last] + BitsOf(a.ssid, 4) + [true, true, a.repeated || a.ssid >= 64];
    assert Pow2(4) == 16;
    assert ByteBits(SsidByte(a, last)) == bits && bits[1..5] == BitsOf(a.ssid, 4);
    ValueOfBits(a.ssid, 4);
  }

  lemma AddressRoundTrip(a: Address, last: bool)
    requires Exact(a)
    ensures |AddressBytes(a, last)| == 7
    ensures DecodeAddress(AddressBytes(a, last)) == a
    ensures IsLast(AddressBytes(a, last)) == last
  {
    CallRoundTrip(a, last);
    SsidRoundTrip(a, last);
  }

  lemma DecodeOneMore(head: seq<Byte>, a: Address, rest: seq<Address>, field: seq<Byte>, after: seq<Byte>)
    requires |head| == 7 && DecodeAddress(head) == a && (IsLast(head) <==> rest == [])
    requires if rest == [] then field == [] else DecodeAddresses(field + after) == Some((rest, after))
    ensures DecodeAddresses(head + field + after) == Some(([a] + rest, after))
  {
    hide DecodeAddress, IsLast;
    assert head + field + after == head + (field + after);
    assert rest == [] ==> field + after == after && [a] + rest == [a];
  }

  lemma {:induction false} AddressesRoundTrip(addrs: seq<Address>, after: seq<Byte>)
    requires addrs != [] && AllExact(addrs)
    ensures DecodeAddresses(AddressField(addrs) + after) == Some((addrs, after))
    decreases |addrs|
  {
    var a, rest := addrs[0], addrs[1..];
    assert addrs == [a] + rest;
    if rest != [] {
      AddressesRoundTrip(rest, after);
    }
    AddressRoundTrip(a, |addrs| == 1);
    DecodeOneMore(AddressBytes(a, |addrs| == 1), a, rest, AddressField(rest), after);
  }

  lemma FrameRoundTrip(f: Frame)
    requires AllExact(AllAddresses(f))
    ensures Decode(Encode(f)) == Some(f)
  {
    var addrs, after := AllAddresses(f), [0x03, 0xF0] + f.info;
    var body, bytes := Unchecked(f), Encode(f);
    ResidueIff(body, Crc16(body));
    assert bytes[..|bytes| - 2] == body;
    AddressesRoundTrip(addrs, after);
    assert addrs[2..] == f.path && after[2..] == f.info && after[..2] == [0x03, 0xF0];
  }

  /** The decoder recovers exactly those frames whose addresses have at most six
      characters without trailing blanks and an SSID of 0 to 15. Outside that the
      builder still emits bytes, but they name another station: SSID 16 goes out as 0. */
  lemma FrameRoundTripIff(f: Frame)
    requires AllEncodable(AllAddresses(f))
    ensures Decode(Encode(f)) == Some(f) <==> AllExact(AllAddresses(f))
  {
    if AllExact(AllAddresses(f)) {
      FrameRoundTrip(f);
    }
  }

  lemma BytesOnAir(bytes: seq<Byte>, preamble: nat, tail: nat)
    requires bytes != [] && preamble >= 1 && tail >= 1
    ensures var got := Receive(HdlcBits(bytes, preamble, tail), 0, [], false);
            |got| == 1 && |got[0]| % 8 == 0 && Pack(got[0]) == bytes
  {
    hide HdlcBits, Receive;
    FramingRoundTrip(bytes, preamble, tail);
    PackBits(bytes);
  }

  /** From fields to transmitted bits and back: what the receiver unpacks from the air
      is the frame that was built. */
  lemma OnAirRoundTrip(f: Frame, preamble: nat, tail: nat)
    requires AllExact(AllAddresses(f))
    requires preamble >= 1 && tail >= 1
    ensures var got := Receive(HdlcBits(Encode(f), preamble, tail), 0, [], false);
            |got| == 1 && |got[0]| % 8 == 0 && Decode(Pack(got[0])) == Some(f)
  {
    FrameRoundTrip(f);
    BytesOnAir(Encode(f), preamble, tail);
  }

  // ---- What does not survive ----

  lemma HalfRemainder2(n: nat)
    ensures 2 * (n / 2 % 2) + n % 2 == n % 4
  {
  }

  lemma HalfRemainder4(n: nat)
    ensures 2 * (n / 2 % 4) + n % 2 == n % 8
  {
  }

  lemma HalfRemainder8(n: nat)
    ensures 2 * (n / 2 % 8) + n % 2 == n % 16
  {
  }

  lemma HalfRemainder(n: nat, m: nat)
    requires m == 1 || m == 2 || m == 4 || m == 8
    ensures 2 * (n / 2 % m) + n % 2 == n % (2 * m)
  {
    if m == 2 {
      HalfRemainder2(n);
    } else if m == 4 {
      HalfRemainder4(n);
    } else if m == 8 {
      HalfRemainder8(n);
    }
  }

  lemma LowBit(n: nat, k: nat, m: nat)
    requires m == 1 || m == 2 || m == 4 || m == 8
    requires ValueOf(BitsOf(n / 2, k)) == n / 2 % m
    ensures ValueOf(BitsOf(n, k + 1)) == n % (2 * m)
  {
    HalfRemainder(n, m);
    var bits := [n % 2 == 1] + BitsOf(n / 2, k);
    assert BitsOf(n, k + 1) == bits;
    assert bits[1..] == BitsOf(n / 2, k);
  }

  lemma LowBits(n: nat)
    ensures ValueOf(BitsOf(n, 4)) == n % 16
  {
    var half, quarter, eighth := n / 2, n / 2 / 2, n / 2 / 2 / 2;
    LowBit(eighth, 0, 1);
    LowBit(quarter, 1, 2);
    LowBit(half, 2, 4);
    LowBit(n, 3, 8);
  }

  lemma SsidBits(a: Address, last: bool)
    requires Encodable(a)
    ensures var bits := ByteBits(SsidByte(a, last));
            ValueOf(bits[1..5]) == a.ssid % 16 && bits[7] == (a.repeated || a.ssid >= 64)
  {
    var bits := [last] + BitsOf(a.ssid, 4) + [true, true, a.repeated || a.ssid >= 64];
    assert ByteBits(SsidByte(a, last)) == bits && bits[1..5] == BitsOf(a.ssid, 4);
    LowBits(a.ssid);
  }

  /** An SSID above 15 goes out as its remainder by 16, and one of 64 or more marks the
      address as repeated. */
  lemma SsidOnAir(a: Address, last: bool)
    requires ExactCall(a)
    ensures |AddressBytes(a, last)| == 7
    ensures DecodeAddress(AddressBytes(a, last)) == Address(a.base, a.ssid % 16, a.repeated || a.ssid >= 64)
  {
    CallRoundTrip(a, last);
    SsidBits(a, last);
  }

  /** So N0CALL-16 is received as N0CALL-0. */
  lemma Ssid16BecomesZero(last: bool)
    ensures DecodeAddress(AddressBytes(Address("N0CALL", 16, false), last)) == Address("N0CALL", 0, false)
  {
    SsidOnAir(Address("N0CALL", 16, false), last);
  }

  // ---- Frame against text ----

  /** An address as the TNC2 text spells it. */
  function CallText(a: Address): string {
    a.base + (if a.ssid > 0 then "-" + Decimal(a.ssid) else "") + (if a.repeated then "*" else "")
  }

  function CallChars(addrs: seq<Address>): nat {
    if addrs == [] then 0 else |CallText(addrs[0])| + CallChars(addrs[1..])
  }

  /** Every address is followed by one separator: '>', ',' or ':'. */
  function Tnc2Length(f: Frame): nat {
    CallChars(AllAddresses(f)) + |AllAddresses(f)| + |f.info|
  }

  lemma {:induction false} FieldLength(addrs: seq<Address>)
    requires AllExact(addrs)
    ensures |AddressField(addrs)| == 7 * |addrs|
    decreases |addrs|
  {
    hide AddressBytes;
    if addrs != [] {
      AddressRoundTrip(addrs[0], |addrs| == 1);
      FieldLength(addrs[1..]);
    }
  }

  lemma FrameLength(f: Frame)
    requires AllExact(AllAddresses(f))
    ensures |Encode(f)| == 7 * |AllAddresses(f)| + |f.info| + 4
  {
    hide AddressField;
    FieldLength(AllAddresses(f));
  }

  /** The eight bytes the airtime estimate adds to the text make up for flags, control,
      protocol and check sequence exactly when the addresses, seven bytes each on the air,
      take nearly six characters each in the text. */
  lemma OverheadCoversIff(f: Frame)
    requires AllExact(AllAddresses(f))
    ensures |Encode(f)| + 2 <= Tnc2Length(f) + FRAME_OVERHEAD_BYTES
       <==> CallChars(AllAddresses(f)) + 2 >= 6 * |AllAddresses(f)|
  {
    FrameLength(f);
  }

  /** Where they do, what is booked for a frame covers its time on the air. */
  lemma EstimateCoversAir(f: Frame, cfg: Settings)
    requires AllExact(AllAddresses(f)) && CallChars(AllAddresses(f)) + 2 >= 6 * |AllAddresses(f)|
    ensures EstimateAirtimeMs(Tnc2Length(f), cfg)
         >= cfg.preambleMs + |HdlcBits(Encode(f), 1, 1)| * 1000 / BaudRate(cfg.modemType) + cfg.tailMs
  {
    hide Encode, Tnc2Length, CallChars, HdlcBits, EstimateAirtimeMs;
    OverheadCoversIff(f);
    EstimateCoversFrame(Encode(f), Tnc2Length(f), cfg);
  }

  /** A frame from A to B is booked at less than its bytes alone take. */
  lemma ShortCallsUnderbooked(cfg: Settings)
    ensures var f := Frame(Address("B", 0, false), Address("A", 0, false), [], []);
            && AllExact(AllAddresses(f))
            && EstimateAirtimeMs(Tnc2Length(f), cfg)
               < cfg.preambleMs + |HdlcBits(Encode(f), 1, 1)| * 1000 / BaudRate(cfg.modemType) + cfg.tailMs
  {
    hide HdlcBits, BaudRate, Encode;
    var f := Frame(Address("B", 0, false), Address("A", 0, false), [], []);
    FrameLength(f);
    ShortText();
    OnAirAtLeast(Encode(f));
    ShorterIsFaster(|HdlcBits(Encode(f), 1, 1)|, cfg.modemType);
  }

  lemma ShortText()
    ensures Tnc2Length(Frame(Address("B", 0, false), Address("A", 0, false), [], [])) == 4
  {
    var addrs := [Address("B", 0, false), Address("A", 0, false)];
    assert addrs + [] == addrs && addrs[1..] == [Address("A", 0, false)];
    assert CallText(addrs[0]) == "B" && CallText(addrs[1]) == "A";
    assert CallChars(addrs[1..]) == 1;
  }

  lemma OnAirAtLeast(frame: seq<Byte>)
    ensures |HdlcBits(frame, 1, 1)| >= 8 * |frame| + 16
  {
    StuffingBound(Bits(frame), 0);
  }

  lemma ShorterIsFaster(bits: nat, modemType: nat)
    requires bits >= 160
    ensures EstimateBits(12) * 1000 / BaudRate(modemType) < bits * 1000 / BaudRate(modemType)
  {
    var baud := BaudRate(modemType);
    if baud == 300 {
    } else if baud == 1200 {
    } else {
      assert baud == 9600;
    }
  }

  lemma SsidMarks(a: Address, last: bool)
    requires Encodable(a)
    ensures var bits := ByteBits(SsidByte(a, last));
            bits[0] == last && bits[5] && bits[6]
  {
    assert ByteBits(SsidByte(a, last)) == [last] + BitsOf(a.ssid, 4) + [true, true, a.repeated || a.ssid >= 64];
  }

  lemma FirstBit(bit: bool, rest: seq<bool>)
    ensures ValueOf([bit] + rest) == (if bit then 1 else 0) + 2 * ValueOf(rest)
  {
    assert ([bit] + rest)[1..] == rest;
  }

  lemma FourBits(a: bool, b: bool, c: bool, d: bool, rest: seq<bool>)
    ensures ValueOf([a, b, c, d] + rest)
         == (if a then 1 else 0) + (if b then 2 else 0) + (if c then 4 else 0) + (if d then 8 else 0)
            + 16 * ValueOf(rest)
  {
    hide ValueOf;
    assert [a, b, c, d] + rest == [a] + ([b] + ([c] + ([d] + rest)));
    FirstBit(a, [b] + ([c] + ([d] + rest)));
    FirstBit(b, [c] + ([d] + rest));
    FirstBit(c, [d] + rest);
    FirstBit(d, rest);
  }

  lemma ValueOfEight(b: Byte)
    ensures var bits := ByteBits(b);
            b == (if bits[0] then 1 else 0) + 2 * ValueOf(bits[1..5]) + (if bits[5] then 32 else 0)
                 + (if bits[6] then 64 else 0) + (if bits[7] then 128 else 0)
  {
    hide BitsOf, ByteBits, ValueOf;
    EightBits(ByteBits(b));
    ByteOfValue(b);
  }

  lemma ByteOfValue(b: Byte)
    ensures ValueOf(ByteBits(b)) == b
  {
    hide ByteBits, ValueOf;
    ByteOfBits(b);
  }

  lemma EightBits(bits: seq<bool>)
    requires |bits| == 8
    ensures ValueOf(bits) == (if bits[0] then 1 else 0) + 2 * ValueOf(bits[1..5]) + (if bits[5] then 32 else 0)
                             + (if bits[6] then 64 else 0) + (if bits[7] then 128 else 0)
  {
    hide ValueOf;
    var none: seq<bool> := [];
    var marks := [bits[5], bits[6], bits[7]];
    assert bits == [bits[0]] + ([bits[1], bits[2], bits[3], bits[4]] + marks);
    assert bits[1..5] == [bits[1], bits[2], bits[3], bits[4]] + none;
    FirstBit(bits[0], [bits[1], bits[2], bits[3], bits[4]] + marks);
    FourBits(bits[1], bits[2], bits[3], bits[4], marks);
    FourBits(bits[1], bits[2], bits[3], bits[4], none);
    ThreeBits(bits[5], bits[6], bits[7]);
    NoBits();
  }

  lemma NoBits()
    ensures ValueOf([]) == 0
  {
  }

  lemma ThreeBits(a: bool, b: bool, c: bool)
    ensures ValueOf([a, b, c]) == (if a then 1 else 0) + (if b then 2 else 0) + (if c then 4 else 0)
  {
    hide ValueOf;
    var none: seq<bool> := [];
    assert [a, b, c] == [a] + ([b] + ([c] + none));
    FirstBit(a, [b] + ([c] + none));
    FirstBit(b, [c] + none);
    FirstBit(c, none);
    NoBits();
  }

  /** The seven bytes of an address (section 3.12 of AX.25 v2.2): the padded callsign one
      bit to the left, then the SSID between the last and the repeated mark. */
  lemma AddressOnAir(a: Address, last: bool)
    requires ExactCall(a)
    ensures var b := AddressBytes(a, last);
            && |b| == 7
            && (forall i :: 0 <= i < 6 ==> b[i] == 2 * (if i < |a.base| then a.base[i] as int else 32))
            && b[6] == 0x60 + 2 * (a.ssid % 16) + (if last then 1 else 0)
                       + (if a.repeated || a.ssid >= 64 then 128 else 0)
  {
    hide BitsOf;
    SsidBits(a, last);
    ValueOfEight(SsidByte(a, last));
    SsidMarks(a, last);
  }
}
