/** HDLC framing (section 3.6 of AX.25 v2.2): flags around a bit-stuffed body, the
    receiver that undoes it, NRZI tones, and the sample clock of the audio generator. */
module Hdlc {
  import opened Crc
  import opened Transmit

  const FLAG: seq<bool> := [false, true, true, true, true, true, true, false]

  function Flags(n: nat): (bits: seq<bool>)
    ensures |bits| == 8 * n
    decreases n
  {
    if n == 0 then [] else FLAG + Flags(n - 1)
  }

  /** Inserts a 0 after every fifth consecutive 1; `ones` counts the run so far. */
  function Stuff(bits: seq<bool>, ones: nat): seq<bool>
    requires ones < 5
    decreases |bits|
  {
    if bits == [] then []
    else if !bits[0] then [false] + Stuff(bits[1..], 0)
    else if ones == 4 then [true, false] + Stuff(bits[1..], 0)
    else [true] + Stuff(bits[1..], ones + 1)
  }

  function HdlcBits(frame: seq<Byte>, preamble: nat, tail: nat): seq<bool> {
    Flags(preamble) + Stuff(Bits(frame), 0) + Flags(tail)
  }

  method AppendFlags(bits: seq<bool>, n: nat) returns (r: seq<bool>)
    ensures r == bits + Flags(n)
  {
    r := bits;
    for i := 0 to n
      invariant r + Flags(n - i) == bits + Flags(n)
    {
      assert r + FLAG + Flags(n - i - 1) == r + (FLAG + Flags(n - i - 1));
      r := r + FLAG;
    }
    assert r + [] == r;
  }

  lemma BitsAt(frame: seq<Byte>, k: nat)
    requires k < |frame|
    ensures Bits(frame[k..]) == ByteBits(frame[k]) + Bits(frame[k + 1..])
  {
    hide ByteBits;
    assert frame[k..][1..] == frame[k + 1..];
  }

  lemma StuffNothing(bits: seq<bool>, ones: nat)
    requires ones < 5
    ensures bits + Stuff(Bits([]), ones) == bits
  {
  }

  method Encode(frame: seq<Byte>, preamble: nat, tail: nat) returns (bits: seq<bool>)
    ensures bits == HdlcBits(frame, preamble, tail)
  {
    hide Flags, Stuff, Bits, ByteBits;
    bits := AppendFlags([], preamble);
    var ones := 0;
    assert frame[0..] == frame;
    for k := 0 to |frame|
      invariant ones < 5
      invariant bits + Stuff(Bits(frame[k..]), ones) == Flags(preamble) + Stuff(Bits(frame), 0)
    {
      BitsAt(frame, k);
      bits, ones := StuffByte(bits, ones, frame[k], Bits(frame[k + 1..]));
    }
    assert frame[|frame|..] == [];
    StuffNothing(bits, ones);
    bits := AppendFlags(bits, tail);
  }

  /** One bit, with the zero that follows a fifth 1. */
  method StuffBit(before: seq<bool>, start: nat, bit: bool, ghost rest: seq<bool>) returns (bits: seq<bool>, ones: nat)
    requires start < 5
    ensures ones < 5
    ensures bits + Stuff(rest, ones) == before + Stuff([bit] + rest, start)
  {
    bits, ones := before, start;
    if bit {
      bits := bits + [true];
      ones := ones + 1;
      if ones == 5 {
        bits := bits + [false];
        ones := 0;
      }
    } else {
      bits := bits + [false];
      ones := 0;
    }
    assert ([bit] + rest)[1..] == rest;
  }

  /** The bits of one byte, stuffed onto the output. */
  method StuffByte(before: seq<bool>, start: nat, b: Byte, ghost rest: seq<bool>) returns (bits: seq<bool>, ones: nat)
    requires start < 5
    ensures ones < 5
    ensures bits + Stuff(rest, ones) == before + Stuff(ByteBits(b) + rest, start)
  {
    bits, ones := before, start;
    var bitsOfByte := ByteBits(b);
    for i := 0 to 8
      invariant ones < 5
      invariant bits + Stuff(bitsOfByte[i..] + rest, ones) == before + Stuff(bitsOfByte + rest, start)
    {
      assert bitsOfByte[i..] + rest == [bitsOfByte[i]] + (bitsOfByte[i + 1..] + rest);
      bits, ones := StuffBit(bits, ones, bitsOfByte[i], bitsOfByte[i + 1..] + rest);
    }
    assert bitsOfByte[8..] + rest == rest;
  }

  // ---- Where six 1s can occur ----

  predicate SixOnes(bits: seq<bool>, p: nat) {
    p + 6 <= |bits| && forall j :: p <= j < p + 6 ==> bits[j]
  }

  predicate Stops(bits: seq<bool>, p: nat) {
    p >= |bits| || !bits[p]
  }

  /** A run of 1s starting at position q ends within `limit` bits. */
  ghost predicate EndsWithin(bits: seq<bool>, q: nat, limit: nat) {
    exists e: nat :: q <= e <= q + limit && Stops(bits, e)
  }

  lemma {:induction false} StuffedRunsShort(bits: seq<bool>, ones: nat, q: nat)
    requires ones < 5
    ensures EndsWithin(Stuff(bits, ones), 0, 5 - ones)
    ensures EndsWithin(Stuff(bits, ones), q, 5)
    decreases |bits|
  {
    var s := Stuff(bits, ones);
    if bits == [] {
      assert Stops(s, 0) && Stops(s, q);
    } else {
      var head := if bits[0] && ones == 4 then 2 else 1;
      var next := if bits[0] && ones < 4 then ones + 1 else 0;
      var t := Stuff(bits[1..], next);
      assert s[head..] == t;
      StuffedRunsShort(bits[1..], next, if q < head then 0 else q - head);
      if bits[0] && ones < 4 {
        var e: nat :| 0 <= e <= 5 - next && Stops(t, e);
        assert Stops(s, e + 1);
      } else {
        assert Stops(s, head - 1);
      }
      if q >= head {
        var e: nat :| q - head <= e <= q - head + 5 && Stops(t, e);
        assert Stops(s, e + head);
      }
    }
  }

  lemma {:induction false} FlagBits(n: nat, p: nat)
    requires p < 8 * n
    ensures Flags(n)[p] == (0 < p % 8 < 7)
    decreases n
  {
    hide Stuff, Bits;
    if p >= 8 {
      FlagBits(n - 1, p - 8);
      assert (p - 8) % 8 == p % 8;
    }
  }

  /** The first 0 of the flags at or after position p. */
  function NextGap(p: nat): (z: nat)
    ensures p <= z && z % 8 in {0, 7} && z / 8 == p / 8
    ensures p % 8 != 1 ==> z < p + 6
  {
    if p % 8 == 0 then p else p + 7 - p % 8
  }

  lemma InsideFlag(p: nat, j: nat)
    requires p % 8 == 1 && p <= j < p + 6
    ensures 0 < j % 8 < 7 && j / 8 == p / 8
  {
  }

  lemma {:induction false} FlagRuns(n: nat, p: nat)
    requires p + 6 <= 8 * n
    ensures SixOnes(Flags(n), p) <==> p % 8 == 1
  {
    if p % 8 == 1 {
      forall j | p <= j < p + 6
        ensures Flags(n)[j]
      {
        InsideFlag(p, j);
        FlagBits(n, j);
      }
    } else {
      FlagBits(n, NextGap(p));
    }
  }

  lemma InPreamble(h: seq<bool>, preamble: nat, p: nat)
    requires p < 8 * preamble <= |h|
    requires forall j :: 0 <= j < 8 * preamble ==> h[j] == Flags(preamble)[j]
    ensures SixOnes(h, p) <==> p % 8 == 1
  {
    hide Flags;
    if p % 8 == 1 {
      forall j | p <= j < p + 6
        ensures h[j]
      {
        InsideFlag(p, j);
        FlagBits(preamble, j);
      }
    } else {
      var z := NextGap(p);
      FlagBits(preamble, z);
      assert !h[z];
    }
  }

  lemma InBody(h: seq<bool>, at: nat, body: seq<bool>, q: nat)
    requires q < |body| && at + |body| <= |h| && EndsWithin(body, q, 5)
    requires h[at..at + |body|] == body
    requires |h| == at + |body| || !h[at + |body|]
    ensures !SixOnes(h, at + q)
  {
    var e: nat :| q <= e <= q + 5 && Stops(body, e);
    if e < |body| {
      assert h[at..at + |body|][e] == h[at + e];
    }
  }

  lemma InTail(h: seq<bool>, at: nat, tail: nat, p: nat)
    requires at <= p && |h| == at + 8 * tail && h[at..] == Flags(tail)
    ensures SixOnes(h, p) <==> p < |h| && (p - at) % 8 == 1
  {
    if p + 6 <= |h| {
      FlagRuns(tail, p - at);
      assert forall j :: at <= j < |h| ==> h[j] == h[at..][j - at];
      assert forall j :: 0 <= j < 8 * tail ==> Flags(tail)[j] == h[j + at];
    }
  }

  /** Six consecutive 1s occur exactly inside the flags, also across the boundaries
      between flags and body. */
  lemma SixOnesOnlyInFlags(frame: seq<Byte>, preamble: nat, tail: nat, p: nat)
    ensures var body := |Stuff(Bits(frame), 0)|;
            SixOnes(HdlcBits(frame, preamble, tail), p) <==>
              || (p < 8 * preamble && p % 8 == 1)
              || (8 * preamble + body <= p < 8 * preamble + body + 8 * tail && (p - 8 * preamble - body) % 8 == 1)
  {
    var body := Stuff(Bits(frame), 0);
    var a, b := 8 * preamble, 8 * preamble + |body|;
    var h := HdlcBits(frame, preamble, tail);
    if p < a {
      InPreamble(h, preamble, p);
    } else if p < b {
      StuffedRunsShort(Bits(frame), 0, p - a);
      assert h[a..b] == body;
      if tail > 0 {
        FlagBits(tail, 0);
        assert h[b] == Flags(tail)[0];
      }
      InBody(h, a, body, p - a);
    } else {
      assert h[b..] == Flags(tail);
      InTail(h, b, tail, p);
    }
  }

  /** Stuffing adds at most one bit in five. */
  lemma {:induction false} StuffingBound(bits: seq<bool>, ones: nat)
    requires ones < 5
    ensures |bits| <= |Stuff(bits, ones)|
    ensures 5 * (|Stuff(bits, ones)| - |bits|) <= |bits| + ones
    decreases |bits|
  {
    if bits != [] {
      StuffingBound(bits[1..], if bits[0] && ones < 4 then ones + 1 else 0);
    }
  }

  /** So the 20 percent allowance of the airtime estimate covers the body of any frame. */
  lemma EstimateCoversStuffing(frame: seq<Byte>)
    ensures |Stuff(Bits(frame), 0)| <= EstimateBits(|frame|)
  {
    StuffingBound(Bits(frame), 0);
  }

  lemma SlowerIsLonger(a: nat, b: nat, modemType: nat)
    requires a <= b
    ensures a * 1000 / BaudRate(modemType) <= b * 1000 / BaudRate(modemType)
  {
    var baud := BaudRate(modemType);
    if baud == 300 {
    } else if baud == 1200 {
    } else {
      assert baud == 9600;
    }
  }

  /** The whole estimate covers TXDelay, the stuffed frame between its two flags and TXTail,
      as long as the frame is at most six bytes longer than the text it was written as. */
  lemma EstimateCoversFrame(frame: seq<Byte>, tnc2Len: nat, cfg: Settings)
    requires |frame| + 2 <= tnc2Len + FRAME_OVERHEAD_BYTES
    ensures var baud := if cfg.modemType == 0 then 300 else if cfg.modemType == 3 then 9600 else 1200;
            EstimateAirtimeMs(tnc2Len, cfg) >= cfg.preambleMs + |HdlcBits(frame, 1, 1)| * 1000 / baud + cfg.tailMs
  {
    hide Flags, Stuff;
    StuffingBound(Bits(frame), 0);
    SlowerIsLonger(|HdlcBits(frame, 1, 1)|, EstimateBits(tnc2Len + FRAME_OVERHEAD_BYTES), cfg.modemType);
  }

  // ---- The receiver ----

  /** A bit-serial receiver: drops the 0 after five 1s, and on the 0 after six 1s takes
      everything since the last flag, less the seven bits of the flag itself, as a
      frame. Seven 1s abort until the next flag. */
  function Receive(bits: seq<bool>, ones: nat, buf: seq<bool>, synced: bool): seq<seq<bool>>
    decreases |bits|
  {
    if bits == [] then []
    else if bits[0] then Receive(bits[1..], ones + 1, buf + [true], synced && ones < 6)
    else if ones < 5 then Receive(bits[1..], 0, buf + [false], synced)
    else if ones == 5 then Receive(bits[1..], 0, buf, synced)
    else if ones == 6 then
      (if synced && |buf| > 7 then [buf[..|buf| - 7]] else []) + Receive(bits[1..], 0, [], true)
    else Receive(bits[1..], 0, [], false)
  }

  /** How long the run of 1s is when the stuffer has consumed `bits`. */
  function RunAfter(bits: seq<bool>, ones: nat): (r: nat)
    requires ones < 5
    ensures r < 5
    decreases |bits|
  {
    if bits == [] then ones
    else RunAfter(bits[1..], if bits[0] && ones < 4 then ones + 1 else 0)
  }

  /** One payload bit, and the zero the stuffer put behind it. */
  lemma ReceiveHead(bit: bool, ones: nat, buf: seq<bool>, synced: bool, t: seq<bool>)
    requires ones < 5
    ensures Receive((if bit && ones == 4 then [true, false] else [bit]) + t, ones, buf, synced)
         == Receive(t, if bit && ones < 4 then ones + 1 else 0, buf + [bit], synced)
  {
    if bit && ones == 4 {
      var s := [true, false] + t;
      assert s[1..] == [false] + t && s[1..][1..] == t;
    } else {
      assert ([bit] + t)[1..] == t;
    }
  }

  lemma {:induction false} ReceiveBody(bits: seq<bool>, ones: nat, buf: seq<bool>, synced: bool, rest: seq<bool>)
    requires ones < 5
    ensures Receive(Stuff(bits, ones) + rest, ones, buf, synced)
         == Receive(rest, RunAfter(bits, ones), buf + bits, synced)
    decreases |bits|
  {
    if bits == [] {
      assert Stuff(bits, ones) + rest == rest && buf + bits == buf;
    } else {
      var next := if bits[0] && ones < 4 then ones + 1 else 0;
      var t := Stuff(bits[1..], next) + rest;
      assert buf + [bits[0]] + bits[1..] == buf + bits;
      assert Stuff(bits, ones) + rest == (if bits[0] && ones == 4 then [true, false] else [bits[0]]) + t;
      ReceiveHead(bits[0], ones, buf, synced, t);
      ReceiveBody(bits[1..], next, buf + [bits[0]], synced, rest);
    }
  }

  lemma ReceiveOnes(n: nat, ones: nat, buf: seq<bool>, synced: bool, rest: seq<bool>)
    requires ones + n <= 6
    ensures Receive(seq(n, _ => true) + rest, ones, buf, synced)
         == Receive(rest, ones + n, buf + seq(n, _ => true), synced)
    decreases n
  {
    if n == 0 {
      assert seq(n, _ => true) + rest == rest && buf + seq(n, _ => true) == buf;
    } else {
      var s := seq(n, _ => true) + rest;
      assert s[1..] == seq(n - 1, _ => true) + rest;
      assert buf + [true] + seq(n - 1, _ => true) == buf + seq(n, _ => true);
      ReceiveOnes(n - 1, ones + 1, buf + [true], synced, rest);
    }
  }

  lemma ReceiveFlag(ones: nat, buf: seq<bool>, synced: bool, rest: seq<bool>)
    requires ones < 5
    ensures Receive(FLAG + rest, ones, buf, synced)
         == (if synced && buf != [] then [buf] else []) + Receive(rest, 0, [], true)
  {
    var six := seq(6, _ => true);
    var s := FLAG + rest;
    assert s[1..] == six + ([false] + rest);
    ReceiveOnes(6, 0, buf + [false], synced, [false] + rest);
    var b := buf + [false] + six;
    assert b[..|b| - 7] == buf;
    assert ([false] + rest)[1..] == rest;
  }

  lemma {:induction false} ReceiveFlags(n: nat, rest: seq<bool>, synced: bool)
    ensures Receive(Flags(n) + rest, 0, [], synced) == Receive(rest, 0, [], synced || n > 0)
    decreases n
  {
    if n == 0 {
      assert Flags(n) + rest == rest;
    } else {
      assert Flags(n) + rest == FLAG + (Flags(n - 1) + rest);
      ReceiveFlag(0, [], synced, Flags(n - 1) + rest);
      ReceiveFlags(n - 1, rest, true);
    }
  }

  /** Whatever the preamble and tail, as long as there is one flag at either end, the
      receiver gets exactly the bits of the frame back. */
  lemma FramingRoundTrip(frame: seq<Byte>, preamble: nat, tail: nat)
    requires preamble >= 1 && tail >= 1
    ensures Receive(HdlcBits(frame, preamble, tail), 0, [], false) == (if frame == [] then [] else [Bits(frame)])
  {
    var body := Stuff(Bits(frame), 0);
    assert HdlcBits(frame, preamble, tail) == Flags(preamble) + (body + Flags(tail));
    ReceiveFlags(preamble, body + Flags(tail), false);
    ReceiveBody(Bits(frame), 0, [], true, Flags(tail));
    assert [] + Bits(frame) == Bits(frame);
    ReceiveFlag(RunAfter(Bits(frame), 0), Bits(frame), true, Flags(tail - 1));
    ReceiveFlags(tail - 1, [], true);
    assert Flags(tail - 1) + [] == Flags(tail - 1);
  }

  /** Packs bits into bytes, least significant bit first. */
  function Pack(bits: seq<bool>): seq<Byte>
    requires |bits| % 8 == 0
    decreases |bits|
  {
    if bits == [] then [] else [ByteOf(bits[..8])] + Pack(bits[8..])
  }

  lemma {:induction false} PackBits(data: seq<Byte>)
    ensures Pack(Bits(data)) == data
    decreases |data|
  {
    if data != [] {
      assert Bits(data)[..8] == ByteBits(data[0]) && Bits(data)[8..] == Bits(data[1..]);
      ByteOfBits(data[0]);
      PackBits(data[1..]);
    }
  }

  // ---- NRZI and the sample clock ----

  /** The tone of each bit, starting from `tone`: a 0 toggles it, a 1 keeps it. */
  function Nrzi(bits: seq<bool>, tone: bool): (tones: seq<bool>)
    ensures |tones| == |bits|
    decreases |bits|
  {
    if bits == [] then []
    else
      var t := if bits[0] then tone else !tone;
      [t] + Nrzi(bits[1..], t)
  }

  /** A bit is 1 when the tone did not change. */
  function UnNrzi(tones: seq<bool>, tone: bool): seq<bool>
    decreases |tones|
  {
    if tones == [] then [] else [tones[0] == tone] + UnNrzi(tones[1..], tones[0])
  }

  lemma {:induction false} NrziRoundTrip(bits: seq<bool>, tone: bool)
    ensures UnNrzi(Nrzi(bits, tone), tone) == bits
    decreases |bits|
  {
    if bits != [] {
      var t := if bits[0] then tone else !tone;
      NrziRoundTrip(bits[1..], t);
      assert Nrzi(bits, tone)[1..] == Nrzi(bits[1..], t);
    }
  }

  lemma {:induction false} NrziPrefix(bits: seq<bool>, tone: bool, k: nat)
    requires k < |bits|
    ensures Nrzi(bits, tone)[k]
         == (if bits[k] then (if k == 0 then tone else Nrzi(bits, tone)[k - 1])
             else !(if k == 0 then tone else Nrzi(bits, tone)[k - 1]))
    decreases k
  {
    if k > 0 {
      NrziPrefix(bits[1..], if bits[0] then tone else !tone, k - 1);
    }
  }

  /** First sample of bit k at `spb` samples a bit. */
  function SampleAt(k: nat, spb: real): int {
    (k as real * spb).Floor
  }

  /** The samples of bit k are all there and carry the given tone. */
  ghost predicate BitSounds(samples: seq<bool>, k: nat, spb: real, tone: bool) {
    && 0 <= SampleAt(k, spb)
    && SampleAt(k + 1, spb) <= |samples|
    && forall j :: SampleAt(k, spb) <= j < SampleAt(k + 1, spb) ==> samples[j] == tone
  }

  lemma StillSounds(before: seq<bool>, after: seq<bool>, k: nat, spb: real, tone: bool)
    requires BitSounds(before, k, spb, tone) && before <= after
    ensures BitSounds(after, k, spb, tone)
  {
    assert forall j :: 0 <= j < |before| ==> before[j] == after[j];
  }

  lemma SampleStep(k: nat, spb: real)
    requires spb >= 0.0
    ensures 0 <= SampleAt(k, spb) <= SampleAt(k + 1, spb)
    ensures var acc := k as real * spb - SampleAt(k, spb) as real + spb;
            acc.Floor == SampleAt(k + 1, spb) - SampleAt(k, spb)
  {
    assert (k + 1) as real * spb == k as real * spb + spb;
    assert k as real * spb >= 0.0;
  }

  /** The tone generator: the fractional sample accumulator never drifts, so bit k
      occupies exactly the samples from SampleAt(k) to SampleAt(k + 1), at its tone. */
  method Afsk(bits: seq<bool>, spb: real) returns (samples: seq<bool>)
    requires spb >= 0.0
    ensures |samples| == SampleAt(|bits|, spb)
    ensures forall k: nat :: k < |bits| ==> BitSounds(samples, k, spb, Nrzi(bits, true)[k])
  {
    samples := [];
    var tone, acc := true, 0.0;
    for i := 0 to |bits|
      invariant |samples| == SampleAt(i, spb)
      invariant acc == i as real * spb - SampleAt(i, spb) as real
      invariant tone == if i == 0 then true else Nrzi(bits, true)[i - 1]
      invariant forall k: nat :: k < i ==> BitSounds(samples, k, spb, Nrzi(bits, true)[k])
    {
      SampleStep(i, spb);
      NrziPrefix(bits, true, i);
      if !bits[i] {
        tone := !tone;
      }
      acc := acc + spb;
      var n := acc.Floor;
      acc := acc - n as real;
      ghost var was := samples;
      samples := samples + seq(n, _ => tone);
      forall k: nat | k < i
        ensures BitSounds(samples, k, spb, Nrzi(bits, true)[k])
      {
        StillSounds(was, samples, k, spb, Nrzi(bits, true)[k]);
      }
    }
  }

  lemma SampleAdvances(k: nat, spb: real)
    requires spb >= 1.0
    ensures 0 <= SampleAt(k, spb) < SampleAt(k + 1, spb)
  {
    assert (k + 1) as real * spb == k as real * spb + spb;
    assert k as real * spb >= 0.0;
  }

  /** Reads the first sample of every bit. */
  function FirstSamples(samples: seq<bool>, n: nat, spb: real): (tones: seq<bool>)
    requires forall k: nat :: k < n ==> 0 <= SampleAt(k, spb) < |samples|
    ensures |tones| == n
    ensures forall k: nat :: k < n ==> tones[k] == samples[SampleAt(k, spb)]
  {
    seq(n, k requires 0 <= k < n => samples[SampleAt(k, spb)])
  }

  /** With at least one sample a bit, the first sample of each bit is enough to get
      the bits back. */
  lemma FirstSamplesDecode(bits: seq<bool>, samples: seq<bool>, spb: real)
    requires spb >= 1.0
    requires forall k: nat :: k < |bits| ==> BitSounds(samples, k, spb, Nrzi(bits, true)[k])
    ensures forall k: nat :: k < |bits| ==> 0 <= SampleAt(k, spb) < |samples|
    ensures UnNrzi(FirstSamples(samples, |bits|, spb), true) == bits
  {
    forall k: nat | k < |bits|
      ensures 0 <= SampleAt(k, spb) < |samples| && samples[SampleAt(k, spb)] == Nrzi(bits, true)[k]
    {
      SampleAdvances(k, spb);
      assert BitSounds(samples, k, spb, Nrzi(bits, true)[k]);
    }
    assert FirstSamples(samples, |bits|, spb) == Nrzi(bits, true);
    NrziRoundTrip(bits, true);
  }
}
