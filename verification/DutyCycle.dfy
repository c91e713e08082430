/** The long-term transmit duty-cycle limiter: a ring of forty 15-second buckets
    that stands for a log of (time, airtime) entries, and the send gate on top. */
module DutyWindow {
  import opened Common

  const BUCKET_COUNT: nat := 40
  const BUCKET_US := 15_000_000
  const WINDOW_MS := 600_000

  /** One transmitted frame: when its airtime was booked, how long it was, and
      whether it was exempt from the ceiling. */
  datatype Entry = Entry(at: int, ms: nat, critical: bool)

  /** Airtime booked at times in [lo, hi). */
  ghost function Sum(log: seq<Entry>, lo: int, hi: int): nat {
    if log == [] then 0
    else
      var e := log[|log| - 1];
      Sum(log[..|log| - 1], lo, hi) + (if lo <= e.at < hi then e.ms else 0)
  }

  /** Airtime booked at `lo` or later. */
  ghost function Since(log: seq<Entry>, lo: int): nat {
    if log == [] then 0
    else
      var e := log[|log| - 1];
      Since(log[..|log| - 1], lo) + (if lo <= e.at then e.ms else 0)
  }

  /** Non-critical airtime booked at `lo` or later. */
  ghost function NonCriticalSince(log: seq<Entry>, lo: int): nat {
    if log == [] then 0
    else
      var e := log[|log| - 1];
      NonCriticalSince(log[..|log| - 1], lo) + (if lo <= e.at && !e.critical then e.ms else 0)
  }

  /** Start of the window while the current bucket starts at `base`. */
  function WindowStart(base: int): int {
    base - 39 * BUCKET_US
  }

  /** Airtime inside the window. */
  ghost function Airtime(log: seq<Entry>, base: int): nat {
    Since(log, WindowStart(base))
  }

  ghost predicate AllBefore(log: seq<Entry>, t: int) {
    forall e :: e in log ==> e.at < t
  }

  lemma {:induction false} SumSplit(log: seq<Entry>, lo: int, mid: int, hi: int)
    requires lo <= mid <= hi
    ensures Sum(log, lo, hi) == Sum(log, lo, mid) + Sum(log, mid, hi)
  {
    if log != [] {
      SumSplit(log[..|log| - 1], lo, mid, hi);
    }
  }

  lemma {:induction false} SumEmpty(log: seq<Entry>, t: int)
    ensures Sum(log, t, t) == 0
  {
    if log != [] {
      SumEmpty(log[..|log| - 1], t);
    }
  }

  lemma {:induction false} SumIsSince(log: seq<Entry>, lo: int, hi: int)
    requires AllBefore(log, hi)
    ensures Sum(log, lo, hi) == Since(log, lo)
  {
    if log != [] {
      assert log[|log| - 1] in log;
      SumIsSince(log[..|log| - 1], lo, hi);
    }
  }

  lemma {:induction false} SumAfterAll(log: seq<Entry>, lo: int, hi: int)
    requires AllBefore(log, lo)
    ensures Sum(log, lo, hi) == 0
  {
    if log != [] {
      assert log[|log| - 1] in log;
      SumAfterAll(log[..|log| - 1], lo, hi);
    }
  }

  lemma {:induction false} SinceAntitone(log: seq<Entry>, lo: int, lo': int)
    requires lo <= lo'
    ensures Since(log, lo') <= Since(log, lo)
    ensures NonCriticalSince(log, lo') <= NonCriticalSince(log, lo)
  {
    if log != [] {
      SinceAntitone(log[..|log| - 1], lo, lo');
    }
  }

  lemma {:induction false} NonCriticalAtMostAll(log: seq<Entry>, lo: int)
    ensures NonCriticalSince(log, lo) <= Since(log, lo)
  {
    if log != [] {
      NonCriticalAtMostAll(log[..|log| - 1], lo);
    }
  }

  /** Where the current bucket starts after the window has been slid to `now`. */
  function AdvanceBase(base: int, now: int): (r: int)
    ensures base != 0 ==> r >= base
    ensures base <= now ==> r <= now < r + BUCKET_US
    ensures base > 0 && now > 0 ==> r > 0
  {
    if base == 0 then now
    else if now - base < BUCKET_US then base
    else base + (now - base) / BUCKET_US * BUCKET_US
  }

  /** The window is the last ten minutes to within one bucket: no entry younger
      than 585 s is missed and none 600 s old or older is counted. */
  lemma WindowTracksClock(log: seq<Entry>, base: int, now: int)
    requires base <= now
    ensures var b := AdvanceBase(base, now);
            Since(log, now - 585_000_000) <= Airtime(log, b) <= Since(log, now - 600_000_000 + 1)
  {
    var b := AdvanceBase(base, now);
    SinceAntitone(log, WindowStart(b), now - 585_000_000);
    SinceAntitone(log, now - 600_000_000 + 1, WindowStart(b));
  }

  /** Percentage as the firmware computes it, in 32-bit unsigned arithmetic. */
  function PctOf(used: nat): (pct: nat)
    ensures pct <= 100
  {
    var p := used * 100 % TWO32 / WINDOW_MS;
    if p > 100 then 100 else p
  }

  /** The true percentage, capped at 100. */
  function TruePct(used: nat): nat {
    var p := used * 100 / WINDOW_MS;
    if p > 100 then 100 else p
  }

  /** The 32-bit product may wrap; the reading is right exactly when it does not
      wrap down into the range below 100 percent. */
  lemma PctExactIff(used: nat)
    ensures PctOf(used) == TruePct(used) <==> used < WINDOW_MS || used * 100 % TWO32 >= 100 * WINDOW_MS
    ensures used * 100 < TWO32 ==> PctOf(used) == TruePct(used)
  {
    if used < WINDOW_MS {
      assert used * 100 < TWO32;
    }
  }

  /** 42 949 673 ms of booked airtime reads as an idle transmitter. */
  lemma PctWraps()
    ensures PctOf(42_949_673) == 0 && TruePct(42_949_673) == 100
  {
  }
}

module DutyCycle {
  import opened Common
  import opened DutyWindow

  /** Clock readings are microseconds since boot: positive, and small enough that
      the number of elapsed buckets fits the 32 bits it is cast to. */
  predicate ClockOk(now: int) {
    0 < now < TWO32 * BUCKET_US
  }

  /** Position of slot `j` behind the slot being written. */
  function Age(index: nat, j: nat): nat
    requires index < BUCKET_COUNT && j < BUCKET_COUNT
  {
    if j <= index then index - j else index + BUCKET_COUNT - j
  }

  /** What the bucket `age` places back should hold. */
  ghost function BucketAirtime(log: seq<Entry>, base: int, age: int): nat {
    Sum(log, base - age * BUCKET_US, base - age * BUCKET_US + BUCKET_US)
  }

  /** The ring's contents agree with the log. */
  ghost predicate Represents(buckets: seq<int>, index: nat, base: int, log: seq<Entry>) {
    && |buckets| == BUCKET_COUNT
    && index < BUCKET_COUNT
    && AllBefore(log, base + BUCKET_US)
    && forall j: nat :: j < BUCKET_COUNT ==> buckets[j] == BucketAirtime(log, base, Age(index, j)) % TWO32
  }

  lemma OneBucketOn(buckets: seq<int>, index: nat, base: int, log: seq<Entry>)
    requires Represents(buckets, index, base, log)
    ensures var i := (index + 1) % BUCKET_COUNT;
            Represents(buckets[i := 0], i, base + BUCKET_US, log)
  {
    var i := (index + 1) % BUCKET_COUNT;
    forall j: nat | j < BUCKET_COUNT
      ensures buckets[i := 0][j] == BucketAirtime(log, base + BUCKET_US, Age(i, j)) % TWO32
    {
      if j == i {
        SumAfterAll(log, base + BUCKET_US, base + 2 * BUCKET_US);
      } else {
        assert Age(i, j) == Age(index, j) + 1;
      }
    }
  }

  lemma WholeWindowStale(buckets: seq<int>, index: nat, base: int, log: seq<Entry>, n: int)
    requires Represents(buckets, index, base, log)
    requires n >= BUCKET_COUNT
    ensures Represents(seq(BUCKET_COUNT, _ => 0), index, base + n * BUCKET_US, log)
  {
    forall j: nat | j < BUCKET_COUNT
      ensures BucketAirtime(log, base + n * BUCKET_US, Age(index, j)) == 0
    {
      var lo := base + n * BUCKET_US - Age(index, j) * BUCKET_US;
      assert base + BUCKET_US <= lo;
      SumAfterAll(log, lo, lo + BUCKET_US);
    }
  }

  lemma AddToNewest(buckets: seq<int>, index: nat, base: int, log: seq<Entry>, e: Entry)
    requires Represents(buckets, index, base, log)
    requires base <= e.at < base + BUCKET_US
    ensures Represents(buckets[index := (buckets[index] + e.ms) % TWO32], index, base, log + [e])
  {
    var log' := log + [e];
    assert log'[..|log'| - 1] == log;
    forall j: nat | j < BUCKET_COUNT
      ensures BucketAirtime(log', base, Age(index, j))
           == BucketAirtime(log, base, Age(index, j)) + (if j == index then e.ms else 0)
    {
      var age := Age(index, j);
      assert j != index ==> age >= 1;
    }
  }

  /** Airtime in the first `i` slots: those up to `index` run backwards from the
      newest bucket, those above it run forwards from the oldest. */
  ghost function Scanned(log: seq<Entry>, base: int, index: nat, i: nat): nat {
    var newer := if i <= index then i else index + 1;
    var older := if i <= index then 0 else i - index - 1;
    Sum(log, base - index * BUCKET_US, base - (index - newer) * BUCKET_US)
    + Sum(log, WindowStart(base), WindowStart(base) + older * BUCKET_US)
  }

  lemma NothingScanned(log: seq<Entry>, base: int, index: nat)
    ensures Scanned(log, base, index, 0) == 0
  {
    SumEmpty(log, base - index * BUCKET_US);
    SumEmpty(log, WindowStart(base));
  }

  lemma ScanOne(log: seq<Entry>, base: int, index: nat, i: nat)
    requires index < BUCKET_COUNT && i < BUCKET_COUNT
    ensures Scanned(log, base, index, i + 1) == Scanned(log, base, index, i) + BucketAirtime(log, base, Age(index, i))
    ensures (Scanned(log, base, index, i) % TWO32 + BucketAirtime(log, base, Age(index, i)) % TWO32) % TWO32
         == Scanned(log, base, index, i + 1) % TWO32
  {
    var lo := base - Age(index, i) * BUCKET_US;
    if i <= index {
      SumSplit(log, base - index * BUCKET_US, lo, lo + BUCKET_US);
    } else {
      SumSplit(log, WindowStart(base), lo, lo + BUCKET_US);
    }
    ModAdd(Scanned(log, base, index, i), BucketAirtime(log, base, Age(index, i)));
  }

  lemma ModAdd(x: nat, y: nat)
    ensures (x % TWO32 + y % TWO32) % TWO32 == (x + y) % TWO32
  {
  }

  lemma ModTimes100(x: nat)
    ensures x % TWO32 * 100 % TWO32 == x * 100 % TWO32
  {
    assert x * 100 == x % TWO32 * 100 + TWO32 * (x / TWO32 * 100);
  }

  lemma AllScanned(log: seq<Entry>, base: int, index: nat)
    requires index < BUCKET_COUNT
    requires AllBefore(log, base + BUCKET_US)
    ensures Scanned(log, base, index, BUCKET_COUNT) == Airtime(log, base)
  {
    SumSplit(log, WindowStart(base), base - index * BUCKET_US, base + BUCKET_US);
    SumIsSince(log, WindowStart(base), base + BUCKET_US);
  }

  /** The accumulator: `buckets` is the ring, `index` the bucket being written and
      `baseUs` the time it started, 0 while nothing has been transmitted. The
      ghost `log` is what the ring stands for. */
  class Accumulator {
    const buckets: array<int>
    var index: nat
    var baseUs: int
    ghost var log: seq<Entry>

    ghost predicate Valid()
      reads this, buckets
    {
      && Represents(buckets[..], index, baseUs, log)
      && baseUs >= 0
      && (baseUs == 0 ==> log == [] && forall j :: 0 <= j < BUCKET_COUNT ==> buckets[j] == 0)
    }

    constructor ()
      ensures Valid() && fresh(buckets)
      ensures log == [] && baseUs == 0
    {
      var b := new int[BUCKET_COUNT](_ => 0);
      buckets := b;
      index := 0;
      baseUs := 0;
      log := [];
      new;
      assert buckets[..] == seq(BUCKET_COUNT, _ => 0);
    }

    /** Moves the ring on by one bucket. */
    method Step(ghost base: int)
      requires Represents(buckets[..], index, base, log)
      modifies this`index, buckets
      ensures Represents(buckets[..], index, base + BUCKET_US, log)
    {
      OneBucketOn(buckets[..], index, base, log);
      ghost var was := buckets[..];
      index := (index + 1) % BUCKET_COUNT;
      buckets[index] := 0;
      assert buckets[..] == was[index := 0];
    }

    /** Moves the ring on by `n` buckets, clearing it in one pass when that is all of it. */
    method Slide(n: nat)
      requires Represents(buckets[..], index, baseUs, log)
      modifies this`index, buckets
      ensures Represents(buckets[..], index, baseUs + n * BUCKET_US, log)
    {
      if n >= BUCKET_COUNT {
        WholeWindowStale(buckets[..], index, baseUs, log, n);
        forall i | 0 <= i < buckets.Length {
          buckets[i] := 0;
        }
        assert buckets[..] == seq(BUCKET_COUNT, _ => 0);
      } else {
        for i := 0 to n
          invariant Represents(buckets[..], index, baseUs + i * BUCKET_US, log)
        {
          Step(baseUs + i * BUCKET_US);
        }
      }
    }

    method Advance(now: int)
      requires Valid() && ClockOk(now)
      modifies this`index, this`baseUs, buckets
      ensures Valid() && baseUs > 0
      ensures baseUs == AdvanceBase(old(baseUs), now)
    {
      if baseUs == 0 {
        baseUs := now;
        assert buckets[..] == seq(BUCKET_COUNT, _ => 0);
        return;
      }
      var elapsedMs := TruncDiv(now - baseUs, 1000);
      if elapsedMs < 15_000 {
        return;
      }
      var bucketsElapsed := elapsedMs / 15_000 % TWO32;
      assert bucketsElapsed == (now - baseUs) / BUCKET_US;
      Slide(bucketsElapsed);
      baseUs := baseUs + bucketsElapsed * BUCKET_US;
    }

    /** Adding up the ring gives the airtime of the window, modulo 2^32. */
    method UsedMs() returns (total: int)
      requires Valid()
      ensures total == Airtime(log, baseUs) % TWO32
    {
      total := 0;
      NothingScanned(log, baseUs, index);
      for i := 0 to BUCKET_COUNT
        invariant total == Scanned(log, baseUs, index, i) % TWO32
      {
        ScanOne(log, baseUs, index, i);
        assert buckets[i] == buckets[..][i];
        total := (total + buckets[i]) % TWO32;
      }
      AllScanned(log, baseUs, index);
    }

    method Pct(now: int) returns (pct: nat)
      requires Valid() && ClockOk(now)
      modifies this`index, this`baseUs, buckets
      ensures Valid()
      ensures baseUs == AdvanceBase(old(baseUs), now)
      ensures pct == PctOf(Airtime(log, baseUs))
    {
      Advance(now);
      var used := UsedMs();
      ModTimes100(Airtime(log, baseUs));
      var p := used * 100 % TWO32 / WINDOW_MS;
      pct := if p > 100 then 100 else p;
    }

    /** Books a frame. A clock reading older than the current bucket (another task
        may have slid the window in between) is booked at the bucket's start. */
    method AddMs(now: int, ms: nat, ghost critical: bool)
      requires Valid() && ClockOk(now)
      modifies this, buckets
      ensures Valid()
      ensures baseUs == AdvanceBase(old(baseUs), now)
      ensures log == old(log) + [Entry(if now < baseUs then baseUs else now, ms, critical)]
      ensures old(baseUs) <= now ==> log == old(log) + [Entry(now, ms, critical)]
    {
      Advance(now);
      ghost var e := Entry(if now < baseUs then baseUs else now, ms, critical);
      assert baseUs <= e.at < baseUs + BUCKET_US;
      AddToNewest(buckets[..], index, baseUs, log, e);
      ghost var was := buckets[..];
      buckets[index] := (buckets[index] + ms) % TWO32;
      assert buckets[..] == was[index := (was[index] + ms) % TWO32];
      log := log + [e];
    }
  }
}

/** The duty-cycle gate of the transmit helper, one call at a time. */
module Transmit {
  import opened DutyWindow
  import opened DutyCycle

  const FRAME_OVERHEAD_BYTES: nat := 8
  const BITSTUFF_PCT: nat := 20
  const FRAME_MAX_SIZE: nat := 329
  const TX_BUFFERS_MIN: nat := 1
  const TX_BUFFERS_MAX: nat := 11

  datatype Settings = Settings(modemReady: bool, dutyEnabled: bool, dutyPct: nat, txBuffers: nat,
                               modemType: nat, preambleMs: nat, tailMs: nat)

  datatype Outcome = Empty | ModemNotReady | OverDutyCycle | QueueFull | TooLong | SelfTest | ModemError | Sent

  function BaudRate(modemType: nat): (baud: nat)
    ensures baud >= 300
  {
    if modemType == 0 then 300 else if modemType == 3 then 9600 else 1200
  }

  /** Bits of a frame with the worst-case stuffing allowance. */
  function EstimateBits(bytes: nat): nat {
    bytes * 8 + bytes * 8 * BITSTUFF_PCT / 100
  }

  function EstimateAirtimeMs(tnc2Len: nat, cfg: Settings): nat {
    cfg.preambleMs + EstimateBits(tnc2Len + FRAME_OVERHEAD_BYTES) * 1000 / BaudRate(cfg.modemType) + cfg.tailMs
  }

  const AIRTIME_MAX_MS: nat := 13_250

  /** With TXDelay and TXTail inside their configured bounds no accepted frame is
      booked at more than 13.25 s, whatever the modulation. */
  lemma EstimateBounded(tnc2Len: nat, cfg: Settings)
    requires tnc2Len < FRAME_MAX_SIZE
    requires cfg.preambleMs <= 2000 && cfg.tailMs <= 500
    ensures EstimateAirtimeMs(tnc2Len, cfg) <= AIRTIME_MAX_MS
  {
    var bits := EstimateBits(tnc2Len + FRAME_OVERHEAD_BYTES);
    assert bits <= 3225;
    match BaudRate(cfg.modemType)
    case 300 =>
    case 1200 =>
    case _ =>
  }

  function Clamp(v: nat, lo: nat, hi: nat): (r: nat)
    requires lo <= hi
    ensures lo <= r <= hi
    ensures r == v || (v < r == lo) || (v > r == hi)
  {
    if v < lo then lo else if v > hi then hi else v
  }

  /** One of the first readings of the ring depth leaves room. */
  predicate RoomWithin(depths: nat -> nat, limit: nat, polls: nat) {
    exists k: nat :: k <= polls && depths(k) < limit
  }

  /** One more poll sees one more reading. */
  lemma RoomGrows(depths: nat -> nat, limit: nat, polls: nat)
    ensures RoomWithin(depths, limit, 0) <==> depths(0) < limit
    ensures RoomWithin(depths, limit, polls + 1) <==> RoomWithin(depths, limit, polls) || depths(polls + 1) < limit
  {
    if RoomWithin(depths, limit, polls + 1) {
      var k: nat :| k <= polls + 1 && depths(k) < limit;
      assert k == polls + 1 || RoomWithin(depths, limit, polls);
    }
  }

  /** Only the beacon task waits for the ring to drain, polling it until a deadline. */
  method WaitForRoom(depths: nat -> nat, limit: nat, beaconTask: bool, polls: nat) returns (room: bool)
    ensures room <==> RoomWithin(depths, limit, if beaconTask then polls else 0)
  {
    var k := 0;
    var pending := depths(k);
    if pending >= limit && beaconTask {
      while pending >= limit && k < polls
        invariant k <= polls && pending == depths(k)
        invariant forall j: nat :: j < k ==> depths(j) >= limit
        decreases polls - k
      {
        k := k + 1;
        pending := depths(k);
      }
    }
    assert pending == depths(k);
    room := pending < limit;
  }

  /** The offer reaches the ceiling: only with the limiter on, and never for critical
      traffic. */
  predicate Checked(cfg: Settings, len: nat, critical: bool) {
    len != 0 && cfg.modemReady && !critical && cfg.dutyEnabled
  }

  /** What an offer does to the window and the log: a check slides the window, and a frame
      that goes out is booked, exempt from the ceiling if it was not checked. */
  ghost predicate Effect(base: int, log: seq<Entry>, base': int, log': seq<Entry>, cfg: Settings, len: nat,
                         critical: bool, checkAt: int, bookAt: int, out: Outcome)
  {
    var checked := Checked(cfg, len, critical);
    var slid := if checked then AdvanceBase(base, checkAt) else base;
    && (out.OverDutyCycle? <==> checked && PctOf(Airtime(log, slid)) >= Clamp(cfg.dutyPct, 1, 100))
    && (out.Sent? ==>
          && 0 < len < FRAME_MAX_SIZE && base' == AdvanceBase(slid, bookAt)
          && log' == log + [Entry(if bookAt < base' then base' else bookAt, EstimateAirtimeMs(len, cfg), !checked)])
    && (!out.Sent? ==> base' == slid && log' == log)
  }

  /** What stands in the way of a frame that is not sent. */
  predicate Explains(out: Outcome, cfg: Settings, len: nat, room: bool, otherOwner: bool, modemOk: bool) {
    match out
    case Empty => len == 0
    case ModemNotReady => !cfg.modemReady
    case OverDutyCycle => cfg.dutyEnabled
    case QueueFull => !room
    case TooLong => len >= FRAME_MAX_SIZE
    case SelfTest => otherOwner
    case ModemError => !modemOk
    case Sent => true
  }

  /** One offer of a frame to the transmitter. `depths` are the readings of the ring depth,
      `polls` how many the beacon task takes before its deadline, `otherOwner` whether
      another task holds the transmitter, `modemOk` the modem's answer, and the two clock
      readings are taken at the check and at the booking. Airtime is booked exactly when
      the frame goes out. The ceiling holds back non-critical traffic alone, and exactly
      when the window has used it up; a booking is marked with whether it was exempt. */
  method SendTnc2(acc: Accumulator, cfg: Settings, len: nat, critical: bool, checkAt: int,
                  depths: nat -> nat, beaconTask: bool, polls: nat,
                  otherOwner: bool, modemOk: bool, bookAt: int)
    returns (out: Outcome)
    requires acc.Valid() && ClockOk(checkAt) && ClockOk(bookAt)
    modifies acc, acc.buckets
    ensures acc.Valid()
    ensures Effect(old(acc.baseUs), old(acc.log), acc.baseUs, acc.log, cfg, len, critical, checkAt, bookAt, out)
    ensures out.Sent? <==>
              && 0 < len < FRAME_MAX_SIZE && cfg.modemReady && !otherOwner && modemOk && !out.OverDutyCycle?
              && RoomWithin(depths, Clamp(cfg.txBuffers, TX_BUFFERS_MIN, TX_BUFFERS_MAX),
                            if beaconTask then polls else 0)
    ensures critical || !cfg.dutyEnabled ==> !out.OverDutyCycle?
    ensures len > 0 && cfg.modemReady && !critical && cfg.dutyEnabled ==>
              (out.OverDutyCycle? <==>
                PctOf(Airtime(old(acc.log), AdvanceBase(old(acc.baseUs), checkAt))) >= Clamp(cfg.dutyPct, 1, 100))
    ensures out.Sent? ==>
              && |acc.log| == |old(acc.log)| + 1 && acc.log[..|old(acc.log)|] == old(acc.log)
              && acc.log[|old(acc.log)|].ms == EstimateAirtimeMs(len, cfg)
              && acc.log[|old(acc.log)|].critical == (critical || !cfg.dutyEnabled)
    ensures Explains(out, cfg, len, RoomWithin(depths, Clamp(cfg.txBuffers, TX_BUFFERS_MIN, TX_BUFFERS_MAX),
                                               if beaconTask then polls else 0), otherOwner, modemOk)
  {
    if len == 0 {
      return Empty;
    }
    if !cfg.modemReady {
      return ModemNotReady;
    }
    if !critical && cfg.dutyEnabled {
      var ceiling := Clamp(cfg.dutyPct, 1, 100);
      var used := acc.Pct(checkAt);
      if used >= ceiling {
        return OverDutyCycle;
      }
    }
    var limit := Clamp(cfg.txBuffers, TX_BUFFERS_MIN, TX_BUFFERS_MAX);
    var room := WaitForRoom(depths, limit, beaconTask, polls);
    if !room {
      return QueueFull;
    }
    if len >= FRAME_MAX_SIZE {
      return TooLong;
    }
    if otherOwner {
      return SelfTest;
    }
    if !modemOk {
      return ModemError;
    }
    acc.AddMs(bookAt, EstimateAirtimeMs(len, cfg), critical || !cfg.dutyEnabled);
    return Sent;
  }
}

/** The gate over whole runs: several tasks check the ceiling, wait, and book their
    frame later, while critical traffic is booked at any time. */
module DutyGate {
  import opened Common
  import opened DutyWindow
  import Transmit

  datatype Pending = Nothing | Frame(ms: nat)

  /** `pending[t]` is the frame task t has been allowed to send but not booked yet. */
  datatype State = State(base: int, log: seq<Entry>, pending: seq<Pending>)

  /** Every check reads the ceiling configured at that moment. */
  datatype Step =
    | Refuse(now: int)
    | Pass(task: nat, now: int, ms: nat, pct: nat)
    | Book(task: nat, now: int)
    | Abandon(task: nat)
    | Critical(now: int, ms: nat)

  ghost function UsedAt(s: State, now: int): nat {
    Airtime(s.log, AdvanceBase(s.base, now))
  }

  ghost predicate Enabled(s: State, step: Step) {
    match step
    case Refuse(now) => now > 0
    case Pass(task, now, _, pct) =>
      now > 0 && task < |s.pending| && s.pending[task].Nothing? && PctOf(UsedAt(s, now)) < pct
    case Book(task, now) => now > 0 && task < |s.pending| && s.pending[task].Frame?
    case Abandon(task) => task < |s.pending|
    case Critical(now, _) => now > 0
  }

  ghost function Booked(s: State, now: int, ms: nat, critical: bool): State {
    var b := AdvanceBase(s.base, now);
    s.(base := b, log := s.log + [Entry(if now < b then b else now, ms, critical)])
  }

  ghost function Apply(s: State, step: Step): State
    requires Enabled(s, step)
  {
    match step
    case Refuse(now) => s.(base := AdvanceBase(s.base, now))
    case Pass(task, now, ms, _) => s.(base := AdvanceBase(s.base, now), pending := s.pending[task := Frame(ms)])
    case Book(task, now) => Booked(s, now, s.pending[task].ms, false).(pending := s.pending[task := Nothing])
    case Abandon(task) => s.(pending := s.pending[task := Nothing])
    case Critical(now, ms) => Booked(s, now, ms, true)
  }

  /** No frame is longer than `frameMax` and no ceiling higher than `ceiling`. */
  predicate Bounded(step: Step, ceiling: nat, frameMax: nat) {
    match step
    case Pass(_, _, ms, pct) => ms <= frameMax && pct <= ceiling
    case Critical(_, ms) => ms <= frameMax
    case _ => true
  }

  ghost predicate Runs(s: State, steps: seq<Step>, ceiling: nat, frameMax: nat)
    decreases |steps|
  {
    steps == [] ||
    (Enabled(s, steps[0]) && Bounded(steps[0], ceiling, frameMax)
     && Runs(Apply(s, steps[0]), steps[1..], ceiling, frameMax))
  }

  ghost function Final(s: State, steps: seq<Step>, ceiling: nat, frameMax: nat): State
    requires Runs(s, steps, ceiling, frameMax)
    decreases |steps|
  {
    if steps == [] then s else Final(Apply(s, steps[0]), steps[1..], ceiling, frameMax)
  }

  /** The percentage read at a check is the true one. */
  ghost predicate ReadsTrue(s: State, step: Step) {
    match step
    case Pass(_, now, _, _) => UsedAt(s, now) < WINDOW_MS || UsedAt(s, now) * 100 % TWO32 >= 100 * WINDOW_MS
    case _ => true
  }

  ghost predicate AllReadTrue(s: State, steps: seq<Step>, ceiling: nat, frameMax: nat)
    requires Runs(s, steps, ceiling, frameMax)
    decreases |steps|
  {
    steps == [] || (ReadsTrue(s, steps[0]) && AllReadTrue(Apply(s, steps[0]), steps[1..], ceiling, frameMax))
  }

  ghost function Idle(tasks: nat): State {
    State(0, [], seq(tasks, _ => Nothing))
  }

  ghost function NonCritical(s: State): nat {
    NonCriticalSince(s.log, WindowStart(s.base))
  }

  ghost function PendingMs(p: seq<Pending>): nat {
    if p == [] then 0
    else PendingMs(p[1..]) + (if p[0].Frame? then p[0].ms else 0)
  }

  lemma {:induction false} PendingUpdate(p: seq<Pending>, i: nat, v: Pending)
    requires i < |p|
    ensures PendingMs(p[i := v]) + PendingMs([p[i]]) == PendingMs(p) + PendingMs([v])
  {
    if i > 0 {
      assert p[i := v][1..] == p[1..][i - 1 := v];
      PendingUpdate(p[1..], i - 1, v);
    } else {
      assert p[i := v][1..] == p[1..];
    }
  }

  lemma {:induction false} PendingBounded(p: seq<Pending>, frameMax: nat)
    requires forall i :: 0 <= i < |p| && p[i].Frame? ==> p[i].ms <= frameMax
    ensures PendingMs(p) <= |p| * frameMax
  {
    if p != [] {
      PendingBounded(p[1..], frameMax);
      assert |p| * frameMax == |p[1..]| * frameMax + frameMax;
    }
  }

  ghost predicate Inv(s: State, ceiling: nat, frameMax: nat) {
    && (s.base == 0 ==> s.log == [])
    && s.base >= 0
    && (forall i :: 0 <= i < |s.log| ==> s.log[i].ms <= frameMax)
    && (forall i :: 0 <= i < |s.pending| && s.pending[i].Frame? ==> s.pending[i].ms <= frameMax)
    && NonCritical(s) + PendingMs(s.pending) <= ceiling * WINDOW_MS / 100 + |s.pending| * frameMax
  }

  lemma BookingAdds(s: State, now: int, ms: nat, critical: bool)
    requires now > 0 && s.base >= 0 && (s.base == 0 ==> s.log == [])
    ensures NonCritical(Booked(s, now, ms, critical)) <= NonCritical(s) + (if critical then 0 else ms)
    ensures Booked(s, now, ms, critical).base > 0
  {
    var s' := Booked(s, now, ms, critical);
    assert s'.log[..|s'.log| - 1] == s.log;
    SlidingDrops(s, now);
  }

  lemma SlidingDrops(s: State, now: int)
    requires now > 0 && s.base >= 0 && (s.base == 0 ==> s.log == [])
    ensures NonCriticalSince(s.log, WindowStart(AdvanceBase(s.base, now))) <= NonCritical(s)
    ensures AdvanceBase(s.base, now) > 0
  {
    if s.base != 0 {
      SinceAntitone(s.log, WindowStart(s.base), WindowStart(AdvanceBase(s.base, now)));
    }
  }

  lemma StepKeepsInv(s: State, step: Step, ceiling: nat, frameMax: nat)
    requires ceiling <= 100
    requires Inv(s, ceiling, frameMax)
    requires Enabled(s, step) && Bounded(step, ceiling, frameMax) && ReadsTrue(s, step)
    ensures Inv(Apply(s, step), ceiling, frameMax)
    ensures |Apply(s, step).pending| == |s.pending|
  {
    var s' := Apply(s, step);
    match step {
      case Refuse(now) => SlidingDrops(s, now);
      case Pass(task, now, ms, _) =>
        SlidingDrops(s, now);
        PctExactIff(UsedAt(s, now));
        NonCriticalAtMostAll(s.log, WindowStart(s'.base));
        PendingBounded(s'.pending, frameMax);
      case Book(task, now) =>
        BookingAdds(s, now, s.pending[task].ms, false);
        PendingUpdate(s.pending, task, Nothing);
      case Abandon(task) => PendingUpdate(s.pending, task, Nothing);
      case Critical(now, ms) => BookingAdds(s, now, ms, true);
    }
  }

  lemma {:induction false} RunKeepsInv(s: State, steps: seq<Step>, ceiling: nat, frameMax: nat)
    requires ceiling <= 100
    requires Inv(s, ceiling, frameMax)
    requires Runs(s, steps, ceiling, frameMax) && AllReadTrue(s, steps, ceiling, frameMax)
    ensures Inv(Final(s, steps, ceiling, frameMax), ceiling, frameMax)
    ensures |Final(s, steps, ceiling, frameMax).pending| == |s.pending|
    decreases |steps|
  {
    if steps != [] {
      StepKeepsInv(s, steps[0], ceiling, frameMax);
      RunKeepsInv(Apply(s, steps[0]), steps[1..], ceiling, frameMax);
    }
  }

  lemma {:induction false} IdlePending(tasks: nat)
    ensures PendingMs(Idle(tasks).pending) == 0
  {
    if tasks > 0 {
      assert Idle(tasks).pending[1..] == Idle(tasks - 1).pending;
      IdlePending(tasks - 1);
    }
  }

  /** However critical traffic interleaves and however the tasks race between their check
      and their booking, the non-critical airtime in the window never exceeds the highest
      ceiling in force by more than one frame a sending task, as long as every check reads
      the true percentage. */
  lemma CeilingHolds(tasks: nat, steps: seq<Step>, ceiling: nat, frameMax: nat)
    requires ceiling <= 100
    requires Runs(Idle(tasks), steps, ceiling, frameMax) && AllReadTrue(Idle(tasks), steps, ceiling, frameMax)
    ensures NonCritical(Final(Idle(tasks), steps, ceiling, frameMax))
         <= ceiling * WINDOW_MS / 100 + tasks * frameMax
  {
    IdlePending(tasks);
    RunKeepsInv(Idle(tasks), steps, ceiling, frameMax);
  }

  // ---- One call is so many steps ----

  /** The steps of one offer by task t, run to its end. */
  function StepsOf(t: nat, cfg: Transmit.Settings, len: nat, critical: bool, checkAt: int, bookAt: int,
                   out: Transmit.Outcome): seq<Step>
  {
    var ms := Transmit.EstimateAirtimeMs(len, cfg);
    if !Transmit.Checked(cfg, len, critical) then if out.Sent? then [Critical(bookAt, ms)] else []
    else if out.Sent? then [Pass(t, checkAt, ms, Transmit.Clamp(cfg.dutyPct, 1, 100)), Book(t, bookAt)]
    else [Refuse(checkAt)]
  }

  lemma OneStep(s: State, step: Step, ceiling: nat, frameMax: nat)
    requires Enabled(s, step) && Bounded(step, ceiling, frameMax)
    ensures Runs(s, [step], ceiling, frameMax) && Final(s, [step], ceiling, frameMax) == Apply(s, step)
  {
    var next := Apply(s, step);
    assert [step][1..] == [];
    assert Runs(next, [], ceiling, frameMax) && Final(next, [], ceiling, frameMax) == next;
  }

  lemma TwoSteps(s: State, a: Step, b: Step, ceiling: nat, frameMax: nat)
    requires Enabled(s, a) && Bounded(a, ceiling, frameMax)
    requires Enabled(Apply(s, a), b) && Bounded(b, ceiling, frameMax)
    ensures Runs(s, [a, b], ceiling, frameMax)
    ensures Final(s, [a, b], ceiling, frameMax) == Apply(Apply(s, a), b)
  {
    OneStep(Apply(s, a), b, ceiling, frameMax);
    assert [a, b][1..] == [b];
  }

  /** What the transmit helper does to the accumulator is a run of the gate, in its bounds,
      that leaves the pending frames as they were. */
  lemma OfferIsRun(s: State, base': int, log': seq<Entry>, t: nat, cfg: Transmit.Settings, len: nat, critical: bool,
                   checkAt: int, bookAt: int, out: Transmit.Outcome)
    requires t < |s.pending| && s.pending[t] == Nothing && checkAt > 0 && bookAt > 0
    requires cfg.preambleMs <= 2000 && cfg.tailMs <= 500
    requires Transmit.Effect(s.base, s.log, base', log', cfg, len, critical, checkAt, bookAt, out)
    ensures var steps, pct := StepsOf(t, cfg, len, critical, checkAt, bookAt, out), Transmit.Clamp(cfg.dutyPct, 1, 100);
            Runs(s, steps, pct, Transmit.AIRTIME_MAX_MS)
            && Final(s, steps, pct, Transmit.AIRTIME_MAX_MS) == State(base', log', s.pending)
  {
    var ms, pct := Transmit.EstimateAirtimeMs(len, cfg), Transmit.Clamp(cfg.dutyPct, 1, 100);
    if out.Sent? {
      Transmit.EstimateBounded(len, cfg);
    }
    if !Transmit.Checked(cfg, len, critical) {
      if out.Sent? {
        OneStep(s, Critical(bookAt, ms), pct, Transmit.AIRTIME_MAX_MS);
      }
    } else if out.Sent? {
      TwoSteps(s, Pass(t, checkAt, ms, pct), Book(t, bookAt), pct, Transmit.AIRTIME_MAX_MS);
      assert s.pending[t := Frame(ms)][t := Nothing] == s.pending;
    } else {
      OneStep(s, Refuse(checkAt), pct, Transmit.AIRTIME_MAX_MS);
    }
  }

  // ---- How many frames that takes ----

  /** Frames booked in the window. */
  function FramesSince(log: seq<Entry>, lo: int): nat {
    if log == [] then 0
    else FramesSince(log[..|log| - 1], lo) + (if log[|log| - 1].at >= lo then 1 else 0)
  }

  lemma {:induction false} SinceAtMostFrames(log: seq<Entry>, lo: int, frameMax: nat)
    requires forall i :: 0 <= i < |log| ==> log[i].ms <= frameMax
    ensures Since(log, lo) <= FramesSince(log, lo) * frameMax
  {
    if log != [] {
      SinceAtMostFrames(log[..|log| - 1], lo, frameMax);
      var n := FramesSince(log[..|log| - 1], lo);
      assert (n + 1) * frameMax == n * frameMax + frameMax;
    }
  }

  const FRAMES_SAFE: nat := 3241

  /** At every check the window holds at most `FRAMES_SAFE` frames. */
  ghost predicate FewFrames(s: State, steps: seq<Step>, ceiling: nat, frameMax: nat)
    requires Runs(s, steps, ceiling, frameMax)
    decreases |steps|
  {
    steps == [] ||
    ((steps[0].Pass? ==> FramesSince(s.log, WindowStart(AdvanceBase(s.base, steps[0].now))) <= FRAMES_SAFE)
     && FewFrames(Apply(s, steps[0]), steps[1..], ceiling, frameMax))
  }

  lemma {:induction false} FewFramesReadTrue(s: State, steps: seq<Step>, ceiling: nat, frameMax: nat)
    requires frameMax <= Transmit.AIRTIME_MAX_MS && ceiling <= 100 && Inv(s, ceiling, frameMax)
    requires Runs(s, steps, ceiling, frameMax) && FewFrames(s, steps, ceiling, frameMax)
    ensures AllReadTrue(s, steps, ceiling, frameMax)
    decreases |steps|
  {
    if steps != [] {
      if steps[0].Pass? {
        var lo := WindowStart(AdvanceBase(s.base, steps[0].now));
        SinceAtMostFrames(s.log, lo, frameMax);
        ShortProduct(FramesSince(s.log, lo), frameMax);
      }
      StepKeepsInv(s, steps[0], ceiling, frameMax);
      FewFramesReadTrue(Apply(s, steps[0]), steps[1..], ceiling, frameMax);
    }
  }

  lemma ShortProduct(n: nat, ms: nat)
    requires n <= FRAMES_SAFE && ms <= Transmit.AIRTIME_MAX_MS
    ensures n * ms * 100 < TWO32
  {
    assert n * ms <= FRAMES_SAFE * ms;
  }

  /** With no more than 3241 frames in the window the ceiling holds, whatever their
      lengths up to the longest the estimate can give. */
  lemma CeilingHoldsForFewFrames(tasks: nat, steps: seq<Step>, ceiling: nat, frameMax: nat)
    requires ceiling <= 100 && frameMax <= Transmit.AIRTIME_MAX_MS
    requires Runs(Idle(tasks), steps, ceiling, frameMax) && FewFrames(Idle(tasks), steps, ceiling, frameMax)
    ensures NonCritical(Final(Idle(tasks), steps, ceiling, frameMax))
         <= ceiling * WINDOW_MS / 100 + tasks * frameMax
  {
    IdlePending(tasks);
    FewFramesReadTrue(Idle(tasks), steps, ceiling, frameMax);
    CeilingHolds(tasks, steps, ceiling, frameMax);
  }

  // ---- One frame more ----

  const MS: nat := Transmit.AIRTIME_MAX_MS

  lemma {:induction false} RunAppend(s: State, a: seq<Step>, b: seq<Step>, ceiling: nat, frameMax: nat)
    requires Runs(s, a, ceiling, frameMax) && Runs(Final(s, a, ceiling, frameMax), b, ceiling, frameMax)
    ensures Runs(s, a + b, ceiling, frameMax)
    ensures Final(s, a + b, ceiling, frameMax) == Final(Final(s, a, ceiling, frameMax), b, ceiling, frameMax)
    decreases |a|
  {
    if a == [] {
      assert a + b == b;
    } else {
      assert (a + b)[0] == a[0] && (a + b)[1..] == a[1..] + b;
      RunAppend(Apply(s, a[0]), a[1..], b, ceiling, frameMax);
    }
  }

  /** When the i-th frame of the run below is booked: all of them within 585 s. */
  function At(i: nat): int {
    1 + i * 180_000
  }

  lemma {:induction false} SinceAll(log: seq<Entry>, lo: int)
    requires lo <= 1 && forall k :: 0 <= k < |log| ==> log[k].at >= 1
    ensures Since(log, lo) == Since(log, 1) && NonCriticalSince(log, lo) == NonCriticalSince(log, 1)
  {
    if log != [] {
      SinceAll(log[..|log| - 1], lo);
    }
  }

  /** So many frames booked since power-up, all still in the window, and how many of them
      were held to the ceiling; the one task has nothing pending. */
  ghost predicate Filled(s: State, frames: nat, gated: nat) {
    && s.pending == [Nothing]
    && (if frames == 0 then s.base == 0 && s.log == [] else 1 <= s.base <= At(frames - 1))
    && (forall k :: 0 <= k < |s.log| ==> s.log[k].at >= 1)
    && Since(s.log, 1) == frames * MS && NonCriticalSince(s.log, 1) == gated * MS
  }

  lemma BaseAt(s: State, frames: nat, gated: nat)
    requires Filled(s, frames, gated) && frames < 3250
    ensures var b := AdvanceBase(s.base, At(frames));
            1 <= b <= At(frames) && WindowStart(b) <= 1 && UsedAt(s, At(frames)) == frames * MS
  {
    SinceAll(s.log, WindowStart(AdvanceBase(s.base, At(frames))));
  }

  lemma BookedAt(s: State, frames: nat, gated: nat, critical: bool)
    requires Filled(s, frames, gated) && frames < 3250
    ensures Filled(Booked(s, At(frames), MS, critical), frames + 1, if critical then gated else gated + 1)
  {
    BaseAt(s, frames, gated);
    var s' := Booked(s, At(frames), MS, critical);
    assert s'.log[..|s'.log| - 1] == s.log;
    assert (frames + 1) * MS == frames * MS + MS && (gated + 1) * MS == gated * MS + MS;
  }

  function Burst(first: nat, n: nat): seq<Step>
    decreases n
  {
    if n == 0 then [] else [Critical(At(first), MS)] + Burst(first + 1, n - 1)
  }

  lemma AtPositive(i: nat)
    ensures At(i) > 0
  {
  }

  lemma {:induction false} BurstFills(s: State, frames: nat, gated: nat, n: nat)
    requires Filled(s, frames, gated) && frames + n < 3250
    ensures Runs(s, Burst(frames, n), 2, MS)
    ensures Filled(Final(s, Burst(frames, n), 2, MS), frames + n, gated)
    decreases n
  {
    hide Filled, Booked, At;
    if n > 0 {
      var step, rest := Critical(At(frames), MS), Burst(frames + 1, n - 1);
      AtPositive(frames);
      BookedAt(s, frames, gated, true);
      BurstFills(Apply(s, step), frames + 1, gated, n - 1);
      assert ([step] + rest)[0] == step && ([step] + rest)[1..] == rest;
    }
  }

  function PassAndBook(frames: nat): seq<Step> {
    [Pass(0, At(frames), MS, 2), Book(0, At(frames))]
  }

  /** The task checks and books, its reading below a ceiling of 2. */
  lemma PassAndBookFills(s: State, frames: nat, gated: nat)
    requires Filled(s, frames, gated) && frames < 3250 && PctOf(frames * MS) < 2
    ensures Runs(s, PassAndBook(frames), 2, MS)
    ensures Filled(Final(s, PassAndBook(frames), 2, MS), frames + 1, gated + 1)
  {
    BaseAt(s, frames, gated);
    var pass, book := Pass(0, At(frames), MS, 2), Book(0, At(frames));
    var checked := Apply(s, pass);
    assert checked == s.(base := AdvanceBase(s.base, At(frames)), pending := [Frame(MS)]);
    var booked := Booked(s, At(frames), MS, false);
    assert Apply(checked, book) == booked.(pending := [Nothing]) == booked;
    TwoSteps(s, pass, book, 2, MS);
    BookedAt(s, frames, gated, false);
  }

  /** A frame by the task, then n critical frames, then a frame by the task again. */
  function WrappingRun(n: nat): seq<Step> {
    PassAndBook(0) + (Burst(1, n) + PassAndBook(n + 1))
  }

  lemma NothingFilled()
    ensures Filled(Idle(1), 0, 0) && PctOf(0) == 0 && 0 * MS == 0
  {
  }

  lemma WrappingRunFills(n: nat)
    requires n + 2 < 3250 && PctOf((n + 1) * MS) < 2
    ensures Runs(Idle(1), WrappingRun(n), 2, MS) && Filled(Final(Idle(1), WrappingRun(n), 2, MS), n + 2, 2)
  {
    NothingFilled();
    hide Filled, Idle, Burst, PassAndBook, PctOf, Runs, Final;
    var first, burst, last := PassAndBook(0), Burst(1, n), PassAndBook(n + 1);
    PassAndBookFills(Idle(1), 0, 0);
    var s1 := Final(Idle(1), first, 2, MS);
    BurstFills(s1, 1, 1, n);
    var s2 := Final(s1, burst, 2, MS);
    PassAndBookFills(s2, n + 1, 1);
    RunAppend(s1, burst, last, 2, MS);
    RunAppend(Idle(1), first, burst + last, 2, MS);
  }

  lemma FilledNonCritical(s: State, frames: nat, gated: nat)
    requires Filled(s, frames, gated) && 0 < frames < 3250
    ensures NonCritical(s) == gated * MS
  {
    SinceAll(s.log, WindowStart(s.base));
  }

  /** The bound on the frames cannot be raised: with 3242 frames of 13.25 s booked within ten
      minutes the percentage reads 1, a ceiling of 2 lets the task send again, and one task
      ends up more than one frame over the bound. */
  lemma WrapBreaksCeiling()
    ensures Runs(Idle(1), WrappingRun(FRAMES_SAFE), 2, MS)
    ensures NonCritical(Final(Idle(1), WrappingRun(FRAMES_SAFE), 2, MS)) > 2 * WINDOW_MS / 100 + 1 * MS
  {
    WrappingRunFills(FRAMES_SAFE);
    FilledNonCritical(Final(Idle(1), WrappingRun(FRAMES_SAFE), 2, MS), FRAMES_SAFE + 2, 2);
  }
}
