/** INET->RF per-source spacing: a ring of the sources last gated, with 32-bit tick
    stamps compared as signed differences. */
module RateLimiter {
  import opened Common
  import opened Text

  const TWO31 := 0x8000_0000
  const RING_SIZE: nat := 16
  const CALL_MAX: nat := 11

  /** An empty call marks a free slot. */
  datatype Slot = Slot(call: string, stamp: int)

  /** A 32-bit difference read as a signed number. */
  function Signed(d: int): int {
    var u := d % TWO32;
    if u < TWO31 then u else u - TWO32
  }

  /** What a scan of the ring finds: the source's own slot, or the slot to take over. */
  datatype Hit = Match(i: nat) | Victim(i: nat)

  function Scan(ring: seq<Slot>, call: string, i: nat, oldest: nat): (h: Hit)
    requires i <= |ring| && oldest < |ring|
    ensures h.i < |ring|
    decreases |ring| - i
  {
    if i == |ring| then Victim(oldest)
    else if ring[i].call == "" then Victim(i)
    else if SameCall(ring[i].call, call) then Match(i)
    else Scan(ring, call, i + 1, if Signed(ring[i].stamp - ring[oldest].stamp) < 0 then i else oldest)
  }

  /** The whole decision: the ring afterwards, and the answer. */
  function Decide(ring: seq<Slot>, call: string, now: int, span: int): (r: (seq<Slot>, bool))
    requires |ring| > 0
    ensures |r.0| == |ring|
    ensures !r.1 ==> r.0 == ring
  {
    match Scan(ring, call, 0, 0)
    case Match(i) =>
      if Signed(now - ring[i].stamp) < span then (ring, false)
      else (ring[i := ring[i].(stamp := now % TWO32)], true)
    case Victim(i) => (ring[i := Slot(call, now % TWO32)], true)
  }

  class Limiter {
    const slots: array<Slot>

    ghost predicate Valid()
      reads this
    {
      slots.Length > 0
    }

    constructor ()
      ensures Valid() && fresh(slots)
      ensures slots[..] == seq(RING_SIZE, _ => Slot("", 0))
    {
      slots := new Slot[RING_SIZE](_ => Slot("", 0));
    }

    /** `now` is the tick counter and `interval` the configured spacing in ticks, 0
        when the limiter is off. Calls come from 12-byte buffers. */
    method Allow(call: string, now: int, interval: int) returns (ok: bool)
      requires Valid() && |call| <= CALL_MAX
      modifies slots
      ensures interval == 0 || call == "" ==> ok && slots[..] == old(slots[..])
      ensures interval != 0 && call != "" ==> (slots[..], ok) == Decide(old(slots[..]), call, now, interval)
    {
      if interval == 0 || call == "" {
        return true;
      }
      var oldest := 0;
      var i := 0;
      while i < slots.Length
        invariant 0 <= i <= slots.Length && 0 <= oldest < slots.Length
        invariant slots[..] == old(slots[..])
        invariant Scan(slots[..], call, 0, 0) == Scan(slots[..], call, i, oldest)
      {
        if slots[i].call == "" {
          oldest := i;
          break;
        }
        if SameCall(slots[i].call, call) {
          if Signed(now - slots[i].stamp) < interval {
            return false;
          }
          slots[i] := slots[i].(stamp := now % TWO32);
          return true;
        }
        if Signed(slots[i].stamp - slots[oldest].stamp) < 0 {
          oldest := i;
        }
        i := i + 1;
      }
      slots[oldest] := Slot(call, now % TWO32);
      return true;
    }
  }

  /** For a source whose slot is `age` ticks old, the answer depends on the age modulo
      2^32 only: it is refused inside the interval, as intended, but also whenever the
      age has reached 2^31 modulo the wrap. */
  lemma RefusedIff(ring: seq<Slot>, call: string, i: nat, age: nat, now: int, span: int)
    requires i < |ring| && 0 < span < TWO31
    requires Scan(ring, call, 0, 0) == Match(i) && ring[i].stamp == (now - age) % TWO32
    ensures !Decide(ring, call, now, span).1 <==> age % TWO32 < span || age % TWO32 >= TWO31
  {
    assert (now - ring[i].stamp) % TWO32 == age % TWO32 by {
      var q := (now - age) / TWO32;
      assert now - ring[i].stamp == age + q * TWO32;
      ModShift(age, q);
    }
  }

  lemma ModShift(a: int, q: int)
    ensures (a + q * TWO32) % TWO32 == a % TWO32
  {
  }

  // ---- Whole runs ----

  /** A source gated to RF, with the unwrapped tick count. */
  datatype Event = Event(call: string, at: nat)

  /** When a source was last gated, -1 when never. */
  function Last(log: seq<Event>, call: string): int {
    if log == [] then -1
    else if SameCall(log[|log| - 1].call, call) then log[|log| - 1].at
    else Last(log[..|log| - 1], call)
  }

  /** The other sources gated at tick t or later. */
  function Others(log: seq<Event>, call: string, t: int): set<string> {
    set k | 0 <= k < |log| && log[k].at >= t && !SameCall(log[k].call, call) :: Fold(log[k].call)
  }

  predicate Holds(ring: seq<Slot>, call: string) {
    exists i :: 0 <= i < |ring| && ring[i].call != "" && SameCall(ring[i].call, call)
  }

  predicate FreeAtEnd(ring: seq<Slot>) {
    forall i, j :: 0 <= i < j < |ring| && ring[i].call == "" ==> ring[j].call == ""
  }

  predicate PairwiseDistinct(ring: seq<Slot>) {
    forall i, j :: 0 <= i < j < |ring| && ring[i].call != "" && ring[j].call != "" ==>
                     !SameCall(ring[i].call, ring[j].call)
  }

  /** Every used slot carries the stamp of its source's last gating. */
  predicate Stamped(ring: seq<Slot>, log: seq<Event>) {
    forall i :: 0 <= i < |ring| && ring[i].call != "" ==>
                  Last(log, ring[i].call) >= 0 && ring[i].stamp == Last(log, ring[i].call) % TWO32
  }

  /** Free slots at the end, no source twice, every stamp the last gating's. */
  predicate WellFormed(ring: seq<Slot>, log: seq<Event>) {
    FreeAtEnd(ring) && PairwiseDistinct(ring) && Stamped(ring, log)
  }

  ghost predicate Inv(ring: seq<Slot>, log: seq<Event>, now: nat) {
    && |ring| > 0
    && WellFormed(ring, log)
    && (forall k :: 0 <= k < |log| ==> log[k].call != "" && log[k].at <= now)
    && (forall k :: 0 <= k < |log| ==>
          Holds(ring, log[k].call) || |Others(log, log[k].call, Last(log, log[k].call))| >= |ring|)
  }

  /** No slot in use has been silent for 2^31 ticks. */
  predicate Fresh(ring: seq<Slot>, log: seq<Event>, now: nat) {
    forall i :: 0 <= i < |ring| && ring[i].call != "" ==> now - Last(log, ring[i].call) < TWO31
  }

  /** A source asks at a tick, under the spacing configured at that moment. */
  datatype Request = Request(call: string, at: nat, span: nat)

  datatype State = State(ring: seq<Slot>, log: seq<Event>, now: nat)

  function Next(s: State, r: Request): State
    requires |s.ring| > 0
  {
    var (ring, ok) := Decide(s.ring, r.call, r.at, r.span);
    State(ring, if ok then s.log + [Event(r.call, r.at)] else s.log, r.at)
  }

  predicate Named(reqs: seq<Request>) {
    forall k :: 0 <= k < |reqs| ==> reqs[k].call != ""
  }

  /** The clock runs forward and no used slot ages 2^31 ticks before the next request. */
  ghost predicate Runs(s: State, reqs: seq<Request>)
    requires |s.ring| > 0
    decreases |reqs|
  {
    reqs == [] ||
    (reqs[0].call != "" && reqs[0].at >= s.now && Fresh(s.ring, s.log, reqs[0].at)
     && Runs(Next(s, reqs[0]), reqs[1..]))
  }

  ghost function Final(s: State, reqs: seq<Request>): (r: State)
    requires |s.ring| > 0
    ensures |r.ring| == |s.ring|
    decreases |reqs|
  {
    if reqs == [] then s else Final(Next(s, reqs[0]), reqs[1..])
  }

  function Empty(n: nat): State {
    State(seq(n, _ => Slot("", 0)), [], 0)
  }

  lemma LastOfExtended(log: seq<Event>, e: Event, call: string)
    ensures Last(log + [e], call) == (if SameCall(e.call, call) then e.at else Last(log, call))
  {
    assert (log + [e])[..|log|] == log;
  }

  lemma {:induction false} LastSameCall(log: seq<Event>, a: string, b: string)
    requires SameCall(a, b)
    ensures Last(log, a) == Last(log, b)
  {
    if log != [] {
      LastSameCall(log[..|log| - 1], a, b);
    }
  }

  lemma OthersGrow(log: seq<Event>, e: Event, call: string, t: int)
    ensures Others(log, call, t) <= Others(log + [e], call, t)
    ensures |Others(log, call, t)| <= |Others(log + [e], call, t)|
  {
    var more := log + [e];
    forall k | 0 <= k < |log|
      ensures more[k] == log[k]
    {
    }
    SubsetSize(Others(log, call, t), Others(more, call, t));
  }

  lemma {:induction false} SubsetSize(a: set<string>, b: set<string>)
    requires a <= b
    ensures |a| <= |b|
  {
    if a != {} {
      var x :| x in a;
      SubsetSize(a - {x}, b - {x});
    }
  }

  lemma {:induction false} LastIsLogged(log: seq<Event>, call: string)
    requires Last(log, call) >= 0
    ensures exists k :: 0 <= k < |log| && SameCall(log[k].call, call) && log[k].at == Last(log, call)
  {
    if SameCall(log[|log| - 1].call, call) {
    } else {
      LastIsLogged(log[..|log| - 1], call);
      var rest := log[..|log| - 1];
      var k :| 0 <= k < |log| - 1 && SameCall(rest[k].call, call) && rest[k].at == Last(log, call);
      assert log[k] == log[..|log| - 1][k];
    }
  }

  /** Whatever the stamps, the scan finds the source if it is there, and else a slot that
      is the first free one or, with none free, any used one. */
  lemma {:induction false} ScanMatches(ring: seq<Slot>, call: string, i: nat, oldest: nat)
    requires i <= |ring| && oldest < |ring| && call != "" && FreeAtEnd(ring)
    requires forall j :: 0 <= j < i ==> ring[j].call != "" && !SameCall(ring[j].call, call)
    ensures var h := Scan(ring, call, i, oldest);
            && (h.Match? <==> Holds(ring, call))
            && (h.Match? ==> ring[h.i].call != "" && SameCall(ring[h.i].call, call))
            && (h.Victim? && ring[h.i].call == "" ==> forall j :: 0 <= j < h.i ==> ring[j].call != "")
    decreases |ring| - i
  {
    if i < |ring| && ring[i].call != "" && !SameCall(ring[i].call, call) {
      ScanMatches(ring, call, i + 1, if Signed(ring[i].stamp - ring[oldest].stamp) < 0 then i else oldest);
    }
  }

  /** On fresh slots the signed comparisons agree with the unwrapped ticks: with no slot
      free the scan picks the one gated longest ago. */
  lemma {:induction false} ScanPicksOldest(ring: seq<Slot>, log: seq<Event>, now: nat, call: string, i: nat,
                                           oldest: nat)
    requires i <= |ring| && oldest < |ring| && (i > 0 ==> oldest < i)
    requires (i == 0 ==> oldest == 0) && call != ""
    requires Stamped(ring, log) && Fresh(ring, log, now)
    requires forall k :: 0 <= k < |log| ==> log[k].at <= now
    requires forall j :: 0 <= j < i ==> ring[j].call != "" && !SameCall(ring[j].call, call)
    requires forall j :: 0 <= j < i ==> Last(log, ring[oldest].call) <= Last(log, ring[j].call)
    ensures var h := Scan(ring, call, i, oldest);
            h.Victim? && ring[h.i].call != "" ==>
              forall j :: 0 <= j < |ring| ==>
                            ring[j].call != "" && Last(log, ring[h.i].call) <= Last(log, ring[j].call)
    decreases |ring| - i
  {
    if i < |ring| && ring[i].call != "" && !SameCall(ring[i].call, call) {
      LastBounded(log, ring[i].call, now);
      LastBounded(log, ring[oldest].call, now);
      SignedExact(Last(log, ring[i].call), Last(log, ring[oldest].call));
      ScanPicksOldest(ring, log, now, call, i + 1,
                      if Signed(ring[i].stamp - ring[oldest].stamp) < 0 then i else oldest);
    }
  }

  lemma {:induction false} LastBounded(log: seq<Event>, call: string, now: nat)
    requires forall k :: 0 <= k < |log| ==> log[k].at <= now
    ensures Last(log, call) <= now
  {
    if log != [] && !SameCall(log[|log| - 1].call, call) {
      LastBounded(log[..|log| - 1], call, now);
    }
  }

  lemma SignedExact(a: int, b: int)
    requires -TWO31 < a - b < TWO31
    ensures Signed(a % TWO32 - b % TWO32) == a - b
  {
    var q := a / TWO32 - b / TWO32;
    assert a % TWO32 - b % TWO32 == (a - b) + (-q) * TWO32;
    ModShift(a - b, -q);
    if a - b < 0 {
      ModShift(a - b, 1);
    }
  }

  lemma {:induction false} DistinctSeqSize(names: seq<string>, s: set<string>)
    requires forall j :: 0 <= j < |names| ==> names[j] in s
    requires forall j, k :: 0 <= j < k < |names| ==> names[j] != names[k]
    ensures |names| <= |s|
  {
    if names != [] {
      var n := |names| - 1;
      DistinctSeqSize(names[..n], s - {names[n]});
    }
  }

  /** A source loses its slot only when as many others as the ring holds were gated at
      or after its own last gating. */
  lemma EvictedHasOthers(ring: seq<Slot>, log: seq<Event>, i: nat, call: string, at: nat)
    requires i < |ring| && Stamped(ring, log) && PairwiseDistinct(ring) && call != ""
    requires forall j :: 0 <= j < |ring| ==> ring[j].call != "" && !SameCall(ring[j].call, call)
    requires forall j :: 0 <= j < |ring| ==> Last(log, ring[i].call) <= Last(log, ring[j].call)
    requires Last(log, ring[i].call) <= at
    ensures |Others(log + [Event(call, at)], ring[i].call, Last(log, ring[i].call))| >= |ring|
  {
    var t, more := Last(log, ring[i].call), log + [Event(call, at)];
    var others := Others(more, ring[i].call, t);
    var names := seq(|ring|, j requires 0 <= j < |ring| => Fold(if j == i then call else ring[j].call));
    forall j | 0 <= j < |names|
      ensures names[j] in others
    {
      if j == i {
        assert more[|log|].at >= t;
      } else {
        LastIsLogged(log, ring[j].call);
        var k :| 0 <= k < |log| && SameCall(log[k].call, ring[j].call) && log[k].at == Last(log, ring[j].call);
        assert more[k] == log[k];
        assert j < i ==> !SameCall(ring[j].call, ring[i].call);
        assert i < j ==> !SameCall(ring[i].call, ring[j].call);
      }
    }
    DistinctSeqSize(names, others);
  }

  /** Every source ever gated still holds a slot or has been followed by as many others
      as there are slots. */
  lemma LogKept(s: State, r: Request, i: nat, slot: Slot)
    requires Inv(s.ring, s.log, s.now) && Claims(s, r, i, slot)
    requires s.ring[i].call == "" || SameCall(s.ring[i].call, r.call)
             || |Others(s.log + [Event(r.call, r.at)], s.ring[i].call, Last(s.log, s.ring[i].call))| >= |s.ring|
    ensures var more := s.log + [Event(r.call, r.at)];
            forall k :: 0 <= k < |more| ==>
              || Holds(s.ring[i := slot], more[k].call)
              || |Others(more, more[k].call, Last(more, more[k].call))| >= |s.ring|
  {
    var e := Event(r.call, r.at);
    var more, ring' := s.log + [e], s.ring[i := slot];
    forall k | 0 <= k < |more|
      ensures Holds(ring', more[k].call) || |Others(more, more[k].call, Last(more, more[k].call))| >= |s.ring|
    {
      if SameCall(r.call, more[k].call) {
        assert ring'[i].call != "" && SameCall(ring'[i].call, more[k].call);
      } else {
        OtherKept(s, r, i, slot, more[k].call);
      }
    }
  }

  lemma OtherKept(s: State, r: Request, i: nat, slot: Slot, c: string)
    requires Claims(s, r, i, slot) && !SameCall(r.call, c)
    requires Holds(s.ring, c) || |Others(s.log, c, Last(s.log, c))| >= |s.ring|
    requires s.ring[i].call == "" || SameCall(s.ring[i].call, r.call)
             || |Others(s.log + [Event(r.call, r.at)], s.ring[i].call, Last(s.log, s.ring[i].call))| >= |s.ring|
    ensures var more := s.log + [Event(r.call, r.at)];
            Holds(s.ring[i := slot], c) || |Others(more, c, Last(more, c))| >= |s.ring|
  {
    var e := Event(r.call, r.at);
    var more, ring' := s.log + [e], s.ring[i := slot];
    LastOfExtended(s.log, e, c);
    OthersGrow(s.log, e, c, Last(s.log, c));
    if Holds(s.ring, c) {
      var j :| 0 <= j < |s.ring| && s.ring[j].call != "" && SameCall(s.ring[j].call, c);
      if j == i {
        LastSameCall(s.log, s.ring[i].call, c);
        assert Others(more, s.ring[i].call, Last(s.log, c)) == Others(more, c, Last(s.log, c));
      } else {
        assert ring'[j] == s.ring[j];
      }
    }
  }

  /** The slot a request claims: the source's own, or one for a source that has none. */
  predicate Claims(s: State, r: Request, i: nat, slot: Slot) {
    && r.call != "" && i < |s.ring| && slot.stamp == r.at % TWO32
    && if s.ring[i].call != "" && SameCall(s.ring[i].call, r.call) then slot.call == s.ring[i].call
       else !Holds(s.ring, r.call) && slot.call == r.call
            && (s.ring[i].call == "" ==> forall j :: 0 <= j < i ==> s.ring[j].call != "")
  }

  lemma AllowedClaims(s: State, r: Request)
    requires |s.ring| > 0 && FreeAtEnd(s.ring) && r.call != "" && Decide(s.ring, r.call, r.at, r.span).1
    ensures var h := Scan(s.ring, r.call, 0, 0);
            var slot := Next(s, r).ring[h.i];
            Claims(s, r, h.i, slot) && Next(s, r).ring == s.ring[h.i := slot]
  {
    ScanMatches(s.ring, r.call, 0, 0);
  }

  /** One request keeps the ring well formed, however old its stamps and whatever the
      clock does. */
  lemma StepKeepsWellFormed(s: State, r: Request)
    requires |s.ring| > 0 && WellFormed(s.ring, s.log) && r.call != ""
    ensures WellFormed(Next(s, r).ring, Next(s, r).log)
  {
    if Decide(s.ring, r.call, r.at, r.span).1 {
      AllowedClaims(s, r);
      var h := Scan(s.ring, r.call, 0, 0);
    }
  }

  lemma {:induction false} RunKeepsWellFormed(s: State, reqs: seq<Request>)
    requires |s.ring| > 0 && WellFormed(s.ring, s.log) && Named(reqs)
    ensures WellFormed(Final(s, reqs).ring, Final(s, reqs).log)
    decreases |reqs|
  {
    if reqs != [] {
      StepKeepsWellFormed(s, reqs[0]);
      RunKeepsWellFormed(Next(s, reqs[0]), reqs[1..]);
    }
  }

  /** After any requests at all, at any ticks and under any intervals, the free slots are
      at the end, no source has two, and every stamp is that of its source's last gating. */
  lemma RingWellFormed(n: nat, reqs: seq<Request>)
    requires n > 0 && Named(reqs)
    ensures WellFormed(Final(Empty(n), reqs).ring, Final(Empty(n), reqs).log)
  {
    RunKeepsWellFormed(Empty(n), reqs);
  }

  /** The slot taken over is free, the source's own, or that of a source which as many
      others have followed. */
  lemma VictimHasOthers(s: State, r: Request)
    requires Inv(s.ring, s.log, s.now)
    requires r.call != "" && r.at >= s.now && Fresh(s.ring, s.log, r.at)
    ensures var i := Scan(s.ring, r.call, 0, 0).i;
            s.ring[i].call == "" || SameCall(s.ring[i].call, r.call)
            || |Others(s.log + [Event(r.call, r.at)], s.ring[i].call, Last(s.log, s.ring[i].call))| >= |s.ring|
  {
    ScanMatches(s.ring, r.call, 0, 0);
    ScanPicksOldest(s.ring, s.log, r.at, r.call, 0, 0);
    var h := Scan(s.ring, r.call, 0, 0);
    if h.Victim? && s.ring[h.i].call != "" {
      LastBounded(s.log, s.ring[h.i].call, r.at);
      assert forall j :: 0 <= j < |s.ring| ==> s.ring[j].call != "" && !SameCall(s.ring[j].call, r.call);
      EvictedHasOthers(s.ring, s.log, h.i, r.call, r.at);
    }
  }

  lemma StepKeepsInv(s: State, r: Request)
    requires Inv(s.ring, s.log, s.now)
    requires r.call != "" && r.at >= s.now && Fresh(s.ring, s.log, r.at)
    ensures Inv(Next(s, r).ring, Next(s, r).log, Next(s, r).now)
  {
    StepKeepsWellFormed(s, r);
    if Decide(s.ring, r.call, r.at, r.span).1 {
      AllowedClaims(s, r);
      VictimHasOthers(s, r);
      var h := Scan(s.ring, r.call, 0, 0);
      LogKept(s, r, h.i, Next(s, r).ring[h.i]);
    }
  }

  lemma {:induction false} RunKeepsInv(s: State, reqs: seq<Request>)
    requires |s.ring| > 0 && Inv(s.ring, s.log, s.now) && Runs(s, reqs)
    ensures Inv(Final(s, reqs).ring, Final(s, reqs).log, Final(s, reqs).now)
    decreases |reqs|
  {
    if reqs != [] {
      StepKeepsInv(s, reqs[0]);
      RunKeepsInv(Next(s, reqs[0]), reqs[1..]);
    }
  }

  /** The spacing: after any run, under intervals that may change at any time, a source
      last gated at tick t that asks again before t + span is let through only if, since
      t, as many other sources as the ring has slots were gated; and a source asking after
      its interval always is. */
  lemma SpacingHolds(n: nat, reqs: seq<Request>, span: int, call: string, now: nat)
    requires n > 0 && 0 < span < TWO31 && Runs(Empty(n), reqs)
    requires var f := Final(Empty(n), reqs); now >= f.now && Fresh(f.ring, f.log, now)
    requires call != ""
    ensures var f := Final(Empty(n), reqs);
            var t := Last(f.log, call);
            var ok := Decide(f.ring, call, now, span).1;
            && (t >= 0 && now < t + span && ok ==> |Others(f.log, call, t)| >= n)
            && (t < 0 || now >= t + span ==> ok)
  {
    RunKeepsInv(Empty(n), reqs);
    SpacingAt(Final(Empty(n), reqs), span, call, now);
  }

  /** A clock that runs forward. */
  predicate Ascending(reqs: seq<Request>, now: nat) {
    && (forall k :: 0 <= k < |reqs| ==> now <= reqs[k].at)
    && (forall j, k :: 0 <= j < k < |reqs| ==> reqs[j].at <= reqs[k].at)
  }

  /** For the first 2^31 ticks after power-up no slot can be too old, so the spacing needs
      no assumption but a clock that runs forward. */
  lemma {:induction false} YoungClockRuns(s: State, reqs: seq<Request>)
    requires |s.ring| > 0 && WellFormed(s.ring, s.log) && Named(reqs) && Ascending(reqs, s.now)
    requires forall k :: 0 <= k < |reqs| ==> reqs[k].at < TWO31
    ensures Runs(s, reqs)
    decreases |reqs|
  {
    if reqs != [] {
      StepKeepsWellFormed(s, reqs[0]);
      YoungClockRuns(Next(s, reqs[0]), reqs[1..]);
    }
  }

  lemma SpacingAt(f: State, span: int, call: string, now: nat)
    requires Inv(f.ring, f.log, f.now) && now >= f.now && Fresh(f.ring, f.log, now)
    requires 0 < span < TWO31 && call != ""
    ensures var t := Last(f.log, call);
            var ok := Decide(f.ring, call, now, span).1;
            && (t >= 0 && now < t + span && ok ==> |Others(f.log, call, t)| >= |f.ring|)
            && (t < 0 || now >= t + span ==> ok)
  {
    ScanMatches(f.ring, call, 0, 0);
    var h := Scan(f.ring, call, 0, 0);
    var t := Last(f.log, call);
    if h.Match? {
      HeldAnswer(f, span, call, now, h.i);
    } else if t >= 0 {
      NotHeldHasOthers(f, call);
    }
  }

  /** A source that holds a fresh slot is let through exactly after its interval. */
  lemma HeldAnswer(f: State, span: int, call: string, now: nat, i: nat)
    requires Stamped(f.ring, f.log) && Fresh(f.ring, f.log, now) && now >= f.now
    requires forall k :: 0 <= k < |f.log| ==> f.log[k].at <= f.now
    requires i < |f.ring| && f.ring[i].call != "" && SameCall(f.ring[i].call, call)
    requires Scan(f.ring, call, 0, 0) == Match(i)
    ensures Last(f.log, call) >= 0
    ensures Decide(f.ring, call, now, span).1 <==> now >= Last(f.log, call) + span
  {
    LastSameCall(f.log, f.ring[i].call, call);
    LastBounded(f.log, call, now);
    AgeExact(now, Last(f.log, call));
  }

  lemma NotHeldHasOthers(f: State, call: string)
    requires Inv(f.ring, f.log, f.now) && !Holds(f.ring, call) && Last(f.log, call) >= 0
    ensures |Others(f.log, call, Last(f.log, call))| >= |f.ring|
  {
    LastIsLogged(f.log, call);
    var t := Last(f.log, call);
    var k :| 0 <= k < |f.log| && SameCall(f.log[k].call, call) && f.log[k].at == t;
    var c := f.log[k].call;
    LastSameCall(f.log, c, call);
    assert Others(f.log, c, t) == Others(f.log, call, t);
  }

  lemma AgeExact(now: int, t: int)
    requires 0 <= now - t < TWO31
    ensures Signed(now - t % TWO32) == now - t
  {
    var q := t / TWO32;
    assert now - t % TWO32 == (now - t) + q * TWO32;
    ModShift(now - t, q);
  }

  /** A source silent for 2^31 ticks is refused although its interval is long over: here
      the only source ever gated, by a ring of the firmware's size. */
  lemma StaleSourceRefused(call: string, span: nat)
    requires call != "" && 0 < span < TWO31
    ensures var f := Final(Empty(RING_SIZE), [Request(call, 0, span)]);
            Last(f.log, call) == 0 && !Decide(f.ring, call, TWO31, span).1
  {
    var r := Request(call, 0, span);
    var s := Next(Empty(RING_SIZE), r);
    assert [r][1..] == [];
    assert Final(Empty(RING_SIZE), [r]) == s;
    assert s.ring[0] == Slot(call, 0);
    assert s.log == [Event(call, 0)];
  }

  // ---- What an answer leaves behind ----

  lemma {:induction false} VictimIsAnother(ring: seq<Slot>, call: string, i: nat, oldest: nat)
    requires i <= |ring| && oldest < |ring| && (if i == 0 then oldest == 0 else oldest < i) && call != ""
    requires forall j :: 0 <= j < i ==> !SameCall(ring[j].call, call)
    ensures var h := Scan(ring, call, i, oldest);
            h.Victim? ==> !SameCall(ring[h.i].call, call)
    decreases |ring| - i
  {
    if i < |ring| && ring[i].call == "" {
      assert |Fold(ring[i].call)| != |Fold(call)|;
    } else if i < |ring| && !SameCall(ring[i].call, call) {
      VictimIsAnother(ring, call, i + 1, if Signed(ring[i].stamp - ring[oldest].stamp) < 0 then i else oldest);
    }
  }

  /** A grant always leaves its mark in the ring; a refusal never does. */
  lemma GrantMarksRing(ring: seq<Slot>, call: string, now: int, span: int)
    requires |ring| > 0 && call != "" && span > 0
    ensures Decide(ring, call, now, span).1 <==> Decide(ring, call, now, span).0 != ring
  {
    VictimIsAnother(ring, call, 0, 0);
    var h := Scan(ring, call, 0, 0);
    var after := Decide(ring, call, now, span).0;
    if Decide(ring, call, now, span).1 {
      assert after[h.i] != ring[h.i];
    }
  }

  /** A source granted at one tick is refused again inside the interval it then meets. */
  lemma GrantThenEarly(ring: seq<Slot>, a: Request, b: Request)
    requires |ring| > 0 && FreeAtEnd(ring) && PairwiseDistinct(ring)
    requires a.call != "" && b.call != "" && SameCall(a.call, b.call)
    requires a.at <= b.at < a.at + b.span && b.span < TWO31
    requires Decide(ring, a.call, a.at, a.span).1
    ensures !Decide(Decide(ring, a.call, a.at, a.span).0, b.call, b.at, b.span).1
  {
    var s := State(ring, [], 0);
    var k := Scan(ring, a.call, 0, 0).i;
    AllowedClaims(s, a);
    var after := Next(s, a).ring;
    assert SameCall(after[k].call, b.call);
    ScanMatches(after, b.call, 0, 0);
    var h := Scan(after, b.call, 0, 0);
    assert forall j :: 0 <= j < |after| && j != k ==> after[j] == ring[j];
    AgeExact(b.at, a.at);
  }
}
