/** Whole runs of the gateway: any lines, any settings at each line, anything at all from
    the outside world. */
module GatewayRuns {
  import opened Common
  import opened Text
  import opened Classifier
  import opened GatewayRules
  import opened Gateway
  import opened GatewaySafety
  import Owed = FollowUpRing
  import Rate = RateLimiter

  datatype Input = Input(line: string, cfg: Config, w: World)

  // ---- What one line does to the rings ----

  /** The packet of a line that asks the spacing gate, exempt traffic aside. */
  function Asks(s: State, i: Input): Option<Carried>
    requires |s.ring| > 0
  {
    var followUp := FollowUp(s, i.line, i.cfg);
    if !i.cfg.inet2rf || Barred(i.line, i.cfg) || followUp || TooFar(i.line, i.cfg, i.w) then None
    else
      match Choose(i.line, false, i.cfg)
      case None => None
      case Some(c) =>
        if Admitted(c, false, i.cfg, i.w) && !IsMessage(c.kind) && i.cfg.interval != 0 && c.call != ""
        then Some(c) else None
  }

  lemma SpacedRing(s: State, c: Carried, followUp: bool, cfg: Config, w: World)
    requires |s.ring| > 0
    ensures Spaced(s, c, followUp, cfg, w).state.ring == Space(s.ring, c, followUp, cfg, w).0
    ensures Spaced(s, c, followUp, cfg, w).handed.Some? ==> Space(s.ring, c, followUp, cfg, w).1
    ensures |Spaced(s, c, followUp, cfg, w).state.ring| == |s.ring|
  {
    var (ring, ok) := Space(s.ring, c, followUp, cfg, w);
    assert |ring| == |s.ring|;
  }

  lemma GateRing(s: State, line: string, followUp: bool, cfg: Config, w: World)
    requires |s.ring| > 0
    ensures var o := Gate(s, line, followUp, cfg, w);
            match Choose(line, followUp, cfg)
            case None => o == Outcome(s, None)
            case Some(c) =>
              if Admitted(c, followUp, cfg, w)
              then o.state.ring == Space(s.ring, c, followUp, cfg, w).0
                   && (o.handed.Some? ==> Space(s.ring, c, followUp, cfg, w).1)
              else o == Outcome(s, None)
    ensures |Gate(s, line, followUp, cfg, w).state.ring| == |s.ring|
  {
    match Choose(line, followUp, cfg)
    case None =>
    case Some(c) => SpacedRing(s, c, followUp, cfg, w);
  }

  /** The spacing ring moves exactly when a packet asks, and then as the limiter says. */
  lemma StepRing(s: State, i: Input)
    requires |s.ring| > 0
    ensures var o := Step(s, i.line, i.cfg, i.w);
            match Asks(s, i)
            case None => o.state.ring == s.ring
            case Some(c) =>
              o.state.ring == Rate.Decide(s.ring, c.call, i.w.tick, i.cfg.interval).0
              && (o.handed.Some? ==> Rate.Decide(s.ring, c.call, i.w.tick, i.cfg.interval).1)
    ensures |Step(s, i.line, i.cfg, i.w).state.ring| == |s.ring|
  {
    var claimed := if Claims(i.line, i.cfg) then s.(owed := Owed.Take(s.owed, Source(i.line))) else s;
    GateRing(claimed, i.line, FollowUp(s, i.line, i.cfg), i.cfg, i.w);
  }

  /** What is handed is exempt or has asked. */
  lemma HandedAsks(s: State, i: Input)
    requires |s.ring| > 0 && Step(s, i.line, i.cfg, i.w).handed.Some? && i.cfg.interval != 0
    ensures var h := Step(s, i.line, i.cfg, i.w).handed.value;
            h.followUp || h.critical || h.carried.call == "" || Asks(s, i) == Some(h.carried)
  {
    HandedBy(s, i.line, i.cfg, i.w);
  }

  // ---- Runs ----

  function After(s: State, run: seq<Input>): (r: State)
    requires |s.ring| > 0
    ensures |r.ring| == |s.ring|
    decreases |run|
  {
    if run == [] then s
    else
      StepRing(s, run[0]);
      After(Step(s, run[0].line, run[0].cfg, run[0].w).state, run[1..])
  }

  function One(b: bool): nat {
    if b then 1 else 0
  }

  /** The line put a position follow-up of the station on the air. */
  predicate SendsFollowUp(s: State, i: Input, call: string)
    requires |s.ring| > 0
  {
    var h := Step(s, i.line, i.cfg, i.w).handed;
    h.Some? && h.value.sent && h.value.followUp && SameCall(h.value.carried.call, call)
  }

  /** The line put a message to the station on the air. */
  predicate SendsMessage(s: State, i: Input, call: string)
    requires |s.ring| > 0
  {
    var h := Step(s, i.line, i.cfg, i.w).handed;
    && h.Some? && h.value.sent
    && Addressee(Info(h.value.carried.line)).Some? && SameCall(Addressee(Info(h.value.carried.line)).value, call)
  }

  function FollowUps(s: State, run: seq<Input>, call: string): nat
    requires |s.ring| > 0
    decreases |run|
  {
    if run == [] then 0
    else One(SendsFollowUp(s, run[0], call)) + FollowUps(After(s, run[..1]), run[1..], call)
  }

  function Messages(s: State, run: seq<Input>, call: string): nat
    requires |s.ring| > 0
    decreases |run|
  {
    if run == [] then 0
    else One(SendsMessage(s, run[0], call)) + Messages(After(s, run[..1]), run[1..], call)
  }

  // ---- Follow-ups ----

  lemma RememberBalance(owed: seq<string>, a: string, call: string)
    requires Owed.IsList(owed, Owed.RING_SIZE) && a != ""
    ensures Owed.IsList(Owed.Remember(owed, Owed.RING_SIZE, a), Owed.RING_SIZE)
    ensures Owed.Listed(Owed.Remember(owed, Owed.RING_SIZE, a), call) ==> Owed.Listed(owed, call) || SameCall(a, call)
  {
    Owed.RememberKeepsList(owed, Owed.RING_SIZE, a);
    if Owed.Listed(Owed.Remember(owed, Owed.RING_SIZE, a), call) && !Owed.Listed(owed, call) {
      Owed.RememberedIsNew(owed, Owed.RING_SIZE, a, call);
    }
  }

  lemma SpacedOwed(s: State, c: Carried, followUp: bool, cfg: Config, w: World)
    requires |s.ring| > 0
    ensures var o := Spaced(s, c, followUp, cfg, w);
            o.state.owed == (if o.handed.Some? then Remembered(s.owed, c.line, o.handed.value.sent) else s.owed)
    ensures Spaced(s, c, followUp, cfg, w).handed.Some? ==> Spaced(s, c, followUp, cfg, w).handed.value.carried == c
  {
    var (ring, ok) := Space(s.ring, c, followUp, cfg, w);
  }

  lemma GateOwed(s: State, line: string, followUp: bool, cfg: Config, w: World)
    requires |s.ring| > 0
    ensures var o := Gate(s, line, followUp, cfg, w);
            o.state.owed == (if o.handed.Some?
                             then Remembered(s.owed, o.handed.value.carried.line, o.handed.value.sent) else s.owed)
  {
    match Choose(line, followUp, cfg)
    case None =>
    case Some(c) => SpacedOwed(s, c, followUp, cfg, w);
  }

  function Claimed(s: State, i: Input): seq<string> {
    if Claims(i.line, i.cfg) then Owed.Take(s.owed, Source(i.line)) else s.owed
  }

  lemma StepOwed(s: State, i: Input)
    requires |s.ring| > 0
    ensures var o := Step(s, i.line, i.cfg, i.w);
            o.state.owed == (if o.handed.Some?
                             then Remembered(Claimed(s, i), o.handed.value.carried.line, o.handed.value.sent)
                             else Claimed(s, i))
  {
    var claimed := if Claims(i.line, i.cfg) then s.(owed := Owed.Take(s.owed, Source(i.line))) else s;
    GateOwed(claimed, i.line, FollowUp(s, i.line, i.cfg), i.cfg, i.w);
  }

  lemma ClaimBalance(s: State, i: Input, call: string)
    requires Owed.IsList(s.owed, Owed.RING_SIZE) && call != ""
    ensures Owed.IsList(Claimed(s, i), Owed.RING_SIZE)
    ensures Owed.Listed(Claimed(s, i), call) ==> Owed.Listed(s.owed, call)
    ensures FollowUp(s, i.line, i.cfg) && SameCall(Source(i.line), call) ==>
              Owed.Listed(s.owed, call) && !Owed.Listed(Claimed(s, i), call)
  {
    var src := Source(i.line);
    if Claims(i.line, i.cfg) && src != "" {
      Owed.TakeKeepsList(s.owed, Owed.RING_SIZE, src);
      Owed.TakeRemovesOne(s.owed, Owed.RING_SIZE, src, call);
    }
  }

  /** One line: a follow-up spends what a message has earned. */
  lemma StepBalance(s: State, i: Input, call: string)
    requires |s.ring| > 0 && Owed.IsList(s.owed, Owed.RING_SIZE) && call != ""
    ensures var next := Step(s, i.line, i.cfg, i.w).state;
            && Owed.IsList(next.owed, Owed.RING_SIZE)
            && One(SendsFollowUp(s, i, call)) + One(Owed.Listed(next.owed, call))
               <= One(Owed.Listed(s.owed, call)) + One(SendsMessage(s, i, call))
  {
    StepOwed(s, i);
    ClaimBalance(s, i, call);
    var h := Step(s, i.line, i.cfg, i.w).handed;
    if h.Some? {
      var a := Addressee(Info(h.value.carried.line));
      if h.value.sent && a.Some? {
        RememberBalance(Claimed(s, i), a.value, call);
      }
      HandedBy(s, i.line, i.cfg, i.w);
      FollowUpIsNoMessage(s, i);
    }
  }

  lemma FollowUpIsNoMessage(s: State, i: Input)
    requires |s.ring| > 0 && Step(s, i.line, i.cfg, i.w).handed.Some?
    ensures var h := Step(s, i.line, i.cfg, i.w).handed.value;
            h.followUp ==> h.carried.call == Source(i.line) && h.carried.line == i.line && Addressee(Info(i.line)).None?
  {
    HandedBy(s, i.line, i.cfg, i.w);
    KindOfLine(i.line);
  }

  /** A claim is spent whatever becomes of the line: a station blacklisted since, or a
      frame that is refused, does not hold its place. */
  lemma ClaimAlwaysSpent(s: State, i: Input)
    requires |s.ring| > 0 && Claims(i.line, i.cfg)
    ensures Step(s, i.line, i.cfg, i.w).state.owed == Owed.Take(s.owed, Source(i.line))
  {
    StepOwed(s, i);
    KindOfLine(i.line);
    if Step(s, i.line, i.cfg, i.w).handed.Some? {
      HandedBy(s, i.line, i.cfg, i.w);
    }
  }

  lemma AfterOne(s: State, run: seq<Input>)
    requires |s.ring| > 0 && run != []
    ensures After(s, run[..1]) == Step(s, run[0].line, run[0].cfg, run[0].w).state
    ensures After(s, run) == After(After(s, run[..1]), run[1..])
  {
    assert run[..1] == [run[0]];
    assert run[..1][1..] == [];
  }

  /** Over any run the position frames sent for a station because it is owed one, plus
      the one it may still be owed, never outnumber the messages sent to it. */
  lemma {:induction false} FollowUpsEarned(s: State, run: seq<Input>, call: string)
    requires |s.ring| > 0 && Owed.IsList(s.owed, Owed.RING_SIZE) && call != ""
    ensures FollowUps(s, run, call) + One(Owed.Listed(After(s, run).owed, call))
         <= One(Owed.Listed(s.owed, call)) + Messages(s, run, call)
    decreases |run|
  {
    if run != [] {
      AfterOne(s, run);
      StepBalance(s, run[0], call);
      FollowUpsEarned(After(s, run[..1]), run[1..], call);
    }
  }

  lemma FollowUpsAtMostMessages(run: seq<Input>, call: string)
    requires call != ""
    ensures FollowUps(Start(), run, call) <= Messages(Start(), run, call)
  {
    FollowUpsEarned(Start(), run, call);
  }

  // ---- Spacing ----

  /** The claim one line makes on the limiter. */
  function Request(s: State, i: Input): seq<Rate.Request>
    requires |s.ring| > 0
  {
    match Asks(s, i)
    case None => []
    case Some(c) => [Rate.Request(c.call, i.w.tick, i.cfg.interval)]
  }

  /** The claims a run makes on the limiter. */
  function Requests(s: State, run: seq<Input>): seq<Rate.Request>
    requires |s.ring| > 0
    decreases |run|
  {
    if run == [] then [] else Request(s, run[0]) + Requests(After(s, run[..1]), run[1..])
  }

  lemma StepFollowsRequest(s: State, i: Input, r: Rate.State)
    requires |s.ring| > 0 && r.ring == s.ring
    ensures Step(s, i.line, i.cfg, i.w).state.ring == Rate.Final(r, Request(s, i)).ring
  {
    StepRing(s, i);
    if Asks(s, i).Some? {
      assert Request(s, i)[1..] == [];
      assert Rate.Final(r, Request(s, i)) == Rate.Next(r, Request(s, i)[0]);
    }
  }

  lemma FinalAppend(r: Rate.State, a: seq<Rate.Request>, b: seq<Rate.Request>)
    requires |r.ring| > 0 && |a| <= 1
    ensures Rate.Final(r, a + b) == Rate.Final(Rate.Final(r, a), b)
  {
    if a == [] {
      assert a + b == b;
    } else {
      assert (a + b)[0] == a[0] && (a + b)[1..] == b && a[1..] == [];
    }
  }

  /** The gateway drives its limiter: the ring after a run is the ring after the run's
      claims. */
  lemma {:induction false} RingFollowsRequests(s: State, run: seq<Input>, r: Rate.State)
    requires |s.ring| > 0 && r.ring == s.ring
    ensures After(s, run).ring == Rate.Final(r, Requests(s, run)).ring
    decreases |run|
  {
    if run != [] {
      AfterOne(s, run);
      StepFollowsRequest(s, run[0], r);
      var next, req := After(s, run[..1]), Request(s, run[0]);
      FinalAppend(r, req, Requests(next, run[1..]));
      RingFollowsRequests(next, run[1..], Rate.Final(r, req));
    }
  }

  lemma {:induction false} RequestsNamed(s: State, run: seq<Input>)
    requires |s.ring| > 0
    ensures Rate.Named(Requests(s, run))
    decreases |run|
  {
    if run != [] {
      RequestsNamed(After(s, run[..1]), run[1..]);
    }
  }

  /** Whatever the gateway is fed, its ring is well formed. */
  lemma RingStaysWellFormed(run: seq<Input>)
    ensures var ring := After(Start(), run).ring;
            Rate.FreeAtEnd(ring) && Rate.PairwiseDistinct(ring)
  {
    RequestsNamed(Start(), run);
    RingFollowsRequests(Start(), run, Rate.Empty(Rate.RING_SIZE));
    Rate.RingWellFormed(Rate.RING_SIZE, Requests(Start(), run));
  }

  /** A source whose traffic was last let through at tick t gets another frame on the air
      before t + interval only if since then as many other sources were let through as the
      ring has slots - messages and owed follow-ups aside, for any lines, settings and
      answers in between. */
  lemma SpacingOnAir(run: seq<Input>, i: Input)
    requires 0 < i.cfg.interval < Rate.TWO31
    requires Rate.Runs(Rate.Empty(Rate.RING_SIZE), Requests(Start(), run))
    requires var f := Rate.Final(Rate.Empty(Rate.RING_SIZE), Requests(Start(), run));
             i.w.tick >= f.now && Rate.Fresh(f.ring, f.log, i.w.tick)
    ensures var f := Rate.Final(Rate.Empty(Rate.RING_SIZE), Requests(Start(), run));
            var h := Step(After(Start(), run), i.line, i.cfg, i.w).handed;
            h.Some? && !h.value.followUp && !h.value.critical && h.value.carried.call != "" ==>
              var t := Rate.Last(f.log, h.value.carried.call);
              t >= 0 && i.w.tick < t + i.cfg.interval ==>
                |Rate.Others(f.log, h.value.carried.call, t)| >= Rate.RING_SIZE
  {
    var s := After(Start(), run);
    var h := Step(s, i.line, i.cfg, i.w).handed;
    if h.Some? && !h.value.followUp && !h.value.critical && h.value.carried.call != "" {
      RingFollowsRequests(Start(), run, Rate.Empty(Rate.RING_SIZE));
      HandedAsks(s, i);
      StepRing(s, i);
      Rate.SpacingHolds(Rate.RING_SIZE, Requests(Start(), run), i.cfg.interval, h.value.carried.call, i.w.tick);
    }
  }

  // ---- What a refused frame costs ----

  /** A frame the transmitter refuses spends its source's slot all the same, unless it was
      exempt from the spacing: the ring is left as it was exactly when nothing was asked
      of the limiter. */
  lemma RefusedFrameSpendsSlotIff(s: State, i: Input)
    requires |s.ring| > 0
    ensures var o := Step(s, i.line, i.cfg, i.w);
            o.handed.Some? && !o.handed.value.sent ==> (o.state.ring == s.ring <==> Asks(s, i).None?)
  {
    StepRing(s, i);
    if Asks(s, i).Some? {
      Rate.GrantMarksRing(s.ring, Asks(s, i).value.call, i.w.tick, i.cfg.interval);
    }
  }

  /** So the source's next line inside the interval is refused, although nothing of it has
      been on the air. The two facts about the ring hold after every run. */
  lemma RefusedFrameDelaysNext(s: State, i: Input, j: Input)
    requires |s.ring| > 0 && Rate.FreeAtEnd(s.ring) && Rate.PairwiseDistinct(s.ring)
    requires i.w.tick <= j.w.tick < i.w.tick + j.cfg.interval && j.cfg.interval < Rate.TWO31
    ensures var h, next := Step(s, i.line, i.cfg, i.w).handed, After(s, [i]);
            h.Some? && !h.value.sent && AskForOne(Asks(s, i), Asks(next, j)) ==>
              Step(next, j.line, j.cfg, j.w).handed.None?
  {
    JustAfter(s, i);
    StepRing(s, i);
    var next := After(s, [i]);
    if Step(s, i.line, i.cfg, i.w).handed.Some? && AskForOne(Asks(s, i), Asks(next, j)) {
      StepRing(next, j);
      Rate.GrantThenEarly(s.ring, Request(s, i)[0], Request(next, j)[0]);
    }
  }

  lemma JustAfter(s: State, i: Input)
    requires |s.ring| > 0
    ensures After(s, [i]) == Step(s, i.line, i.cfg, i.w).state
  {
    AfterOne(s, [i]);
    assert [i][..1] == [i];
  }

  /** Both lines ask the limiter, for one source. */
  predicate AskForOne(a: Option<Carried>, b: Option<Carried>) {
    a.Some? && b.Some? && SameCall(a.value.call, b.value.call)
  }

  // One such pair, from power-up: the same status report twice, both times with nothing
  // barring it but the spacing.

  const STATUS_CONFIG: Config :=
    Config(true, "ME", 0, "", [], {Status}, false, Off, [], false, false, false, 10, false, false)

  predicate IsStatus(i: Input) {
    i.line == STATUS_LINE && i.cfg == STATUS_CONFIG && !i.w.viaBm
  }

  lemma StatusLineAdmitted(line: string, cfg: Config)
    requires line == STATUS_LINE && cfg == STATUS_CONFIG
    ensures !Barred(line, cfg) && ClassifyLine(line) == Some(Status)
    ensures Choose(line, false, cfg) == Some(Carried(line, Some(Status), "A"))
    ensures FrameOf(line, cfg).Some?
  {
    OneLetterLine("A", "B", ">x");
    OneLetterNotBarred("A", "B", ">x", cfg);
    OneLetterIndices("A", "B", ">x");
  }

  lemma StatusAsks(s: State, i: Input)
    requires |s.ring| > 0 && IsStatus(i)
    ensures Asks(s, i) == Some(Carried(i.line, Some(Status), "A"))
    ensures var h := Step(s, i.line, i.cfg, i.w).handed;
            && (h.Some? <==> Rate.Decide(s.ring, "A", i.w.tick, i.cfg.interval).1)
            && (h.Some? ==> h.value.sent == i.w.accepts(h.value.frame, false))
  {
    hide Step, Rate.Decide, FrameOf, ClassifyLine, Source, Barred;
    StatusLineAdmitted(i.line, i.cfg);
    HandedIff(s, i.line, i.cfg, i.w);
    if Step(s, i.line, i.cfg, i.w).handed.Some? {
      HandedBy(s, i.line, i.cfg, i.w);
    }
  }

  lemma RefusedStatusDelaysNext(i: Input, j: Input)
    requires IsStatus(i) && IsStatus(j) && i.w.tick <= j.w.tick < i.w.tick + j.cfg.interval
    requires forall frame: string, critical: bool :: !i.w.accepts(frame, critical)
    ensures var h := Step(Start(), i.line, i.cfg, i.w).handed;
            && h.Some? && !h.value.sent
            && Step(After(Start(), [i]), j.line, j.cfg, j.w).handed.None?
  {
    StatusAsks(Start(), i);
    StatusAsks(After(Start(), [i]), j);
    RefusedFrameDelaysNext(Start(), i, j);
  }
}
