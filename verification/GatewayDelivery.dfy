/** What the gateway does send: every gate of the chain spelled out, in both directions,
    and the follow-up that a message earns. */
module GatewayDelivery {
  import opened Common
  import opened Text
  import opened ThirdParty
  import opened Classifier
  import opened GatewayRules
  import opened Gateway
  import opened GatewaySafety
  import Owed = FollowUpRing
  import Rate = RateLimiter

  // ---- The gates one by one ----

  /** The packet is the line, when a follow-up is owed or the filter has its kind, and
      otherwise the packet of a whitelisted station inside it. */
  predicate Carries(c: Carried, line: string, followUp: bool, cfg: Config) {
    c.kind == ClassifyLine(c.line)
    && if followUp || Passes(cfg.filter, ClassifyLine(line)) then c.line == line && c.call == Source(line)
       else
         && Info(line) != "" && Info(line)[0] == '}' && c.line == Info(line)[1..] && c.call == InnerSource(c.line)
         && cfg.unwrap && cfg.budMode.Whitelist? && c.call != "" && Listed(c.call, cfg.budlist)
         && !ThirdPartyInfo(c.line) && !BroadcastMessage(c.line) && c.kind.Some? && c.kind.value in cfg.filter
  }

  lemma ChosenIff(c: Carried, line: string, followUp: bool, cfg: Config)
    ensures Choose(line, followUp, cfg) == Some(c) <==> Carries(c, line, followUp, cfg)
  {
    hide Listed, ClassifyLine, BroadcastMessage, InnerSource, Source;
  }

  /** The distance test lets the line through: with the gate on it stops exactly the
      positions beyond the radius. */
  predicate InRange(line: string, cfg: Config, w: World) {
    match Decode(Info(line), w.now, w.date, w.micE(line), w.nmea(line))
    case Some(Report(Some((lat, lon)), _)) => cfg.rangeEn ==> !w.beyond(lat, lon)
    case _ => true
  }

  /** The budlist, position and heard-on-RF gates. Messages and follow-ups pass the last
      two. */
  predicate Welcome(c: Carried, followUp: bool, cfg: Config, w: World) {
    && (cfg.budMode.Whitelist? ==> Listed(c.call, cfg.budlist))
    && (cfg.budMode.Blacklist? ==> !Listed(c.call, cfg.budlist))
    && (!followUp && c.kind != Some(Message) ==>
          && (cfg.heardOnly ==> w.heardRf(c.call))
          && (cfg.positionRequired ==> PositionOf(c.line, w).Some?)
          && (w.viaBm ==> PositionOf(c.line, w).Some?))
  }

  /** The message gate: the addressee heard near enough on RF and not on the Internet,
      the sender not on RF; a Winlink reply may be to a station on the Internet. */
  predicate Deliverable(c: Carried, cfg: Config, w: World) {
    cfg.msgGate && c.kind == Some(Message) && Addressee(Info(c.line)).Some? ==>
      var to := Addressee(Info(c.line)).value;
      && w.heardRf(to) && w.heardNear(to) && !w.heardRf(c.call)
      && (w.heardInet(to) ==> cfg.winlinkExempt && w.winlink(c.call))
  }

  /** Messages, follow-ups and packets without a callsign are not spaced. */
  predicate SpacingPasses(s: State, c: Carried, followUp: bool, cfg: Config, w: World)
    requires |s.ring| > 0
  {
    !followUp && c.kind != Some(Message) && cfg.interval != 0 && c.call != "" ==>
      Rate.Decide(s.ring, c.call, w.tick, cfg.interval).1
  }

  predicate Fits(c: Carried, cfg: Config) {
    Wrappable(c.line) && |Wrapped(OwnCall(cfg.mycall, cfg.ssid), cfg.path, Split(c.line))| <= TNC2_MAX_LEN
  }

  predicate Foreign(line: string, cfg: Config) {
    !GenericQuery(line) && !OwnReport(line, OwnCalls(cfg)) && !ForbidsRf(line) && !BroadcastMessage(line)
  }

  lemma RangeGate(line: string, cfg: Config, w: World)
    ensures InRange(line, cfg, w) <==> !TooFar(line, cfg, w)
  {
    hide Decode;
  }

  lemma WelcomeIff(c: Carried, followUp: bool, cfg: Config, w: World)
    ensures Admitted(c, followUp, cfg, w) <==> Welcome(c, followUp, cfg, w)
  {
    hide PositionOf, Listed;
  }

  lemma DeliverableIff(c: Carried, cfg: Config, w: World)
    ensures MessageAllowed(c, cfg, w) <==> Deliverable(c, cfg, w)
  {
    hide Addressee;
  }

  lemma SpacingIff(s: State, c: Carried, followUp: bool, cfg: Config, w: World)
    requires |s.ring| > 0
    ensures Space(s.ring, c, followUp, cfg, w).1 <==> SpacingPasses(s, c, followUp, cfg, w)
  {
    hide Rate.Decide;
  }

  /** A packet is handed to the transmitter exactly when no gate objects, and with its
      frame, for every setting, every line, every state and every answer from outside. */
  lemma HandedExactly(s: State, line: string, cfg: Config, w: World, c: Carried)
    requires |s.ring| > 0
    ensures var followUp, handed := FollowUp(s, line, cfg), Step(s, line, cfg, w).handed;
            handed.Some? && handed.value.carried == c <==>
              && cfg.inet2rf && Foreign(line, cfg) && (followUp || InRange(line, cfg, w))
              && Carries(c, line, followUp, cfg) && Welcome(c, followUp, cfg, w)
              && SpacingPasses(s, c, followUp, cfg, w) && Deliverable(c, cfg, w) && Fits(c, cfg)
  {
    hide Step, Choose, Carries, Admitted, Welcome, Space, SpacingPasses, MessageAllowed, Deliverable,
         TooFar, InRange, Wrapped, Wrappable, OwnReport, ForbidsRf, BroadcastMessage;
    var followUp := FollowUp(s, line, cfg);
    HandedIff(s, line, cfg, w);
    if Step(s, line, cfg, w).handed.Some? {
      HandedBy(s, line, cfg, w);
    }
    RangeGate(line, cfg, w);
    ChosenIff(c, line, followUp, cfg);
    WelcomeIff(c, followUp, cfg, w);
    SpacingIff(s, c, followUp, cfg, w);
    DeliverableIff(c, cfg, w);
  }

  /** Nothing from beyond the radius goes out, a follow-up excepted. */
  lemma RangeHolds(s: State, line: string, cfg: Config, w: World)
    requires |s.ring| > 0 && cfg.rangeEn
    ensures var handed := Step(s, line, cfg, w).handed;
            handed.Some? && !handed.value.followUp && PositionOf(line, w).Some? ==>
              !w.beyond(PositionOf(line, w).value.0, PositionOf(line, w).value.1)
  {
    if Step(s, line, cfg, w).handed.Some? {
      HandedBy(s, line, cfg, w);
      HandedExactly(s, line, cfg, w, Step(s, line, cfg, w).handed.value.carried);
    }
  }

  /** No station on a blacklist is ever sent, and with a whitelist no other is. */
  lemma BudlistHolds(s: State, line: string, cfg: Config, w: World)
    requires |s.ring| > 0
    ensures var handed := Step(s, line, cfg, w).handed;
            handed.Some? ==>
              && (cfg.budMode.Blacklist? ==> !Listed(handed.value.carried.call, cfg.budlist))
              && (cfg.budMode.Whitelist? ==> Listed(handed.value.carried.call, cfg.budlist))
  {
    if Step(s, line, cfg, w).handed.Some? {
      HandedExactly(s, line, cfg, w, Step(s, line, cfg, w).handed.value.carried);
    }
  }

  /** A message that nothing else stops and whose addressee is also on the Internet goes
      out if and only if it is an exempt Winlink reply. */
  lemma WinlinkReplyHanded(s: State, line: string, cfg: Config, w: World, to: string)
    requires |s.ring| > 0 && cfg.inet2rf && cfg.msgGate && Foreign(line, cfg) && InRange(line, cfg, w)
    requires ClassifyLine(line) == Some(Message) && Message in cfg.filter && Addressee(Info(line)) == Some(to)
    requires w.heardRf(to) && w.heardNear(to) && w.heardInet(to) && !w.heardRf(Source(line))
    requires var c := Carried(line, Some(Message), Source(line));
             BudlistPass(cfg.budMode, c.call, cfg.budlist) && Fits(c, cfg)
    ensures Step(s, line, cfg, w).handed.Some? <==> cfg.winlinkExempt && w.winlink(Source(line))
  {
    var c := Carried(line, Some(Message), Source(line));
    assert !FollowUp(s, line, cfg);
    HandedExactly(s, line, cfg, w, c);
    if Step(s, line, cfg, w).handed.Some? {
      HandedBy(s, line, cfg, w);
    }
  }

  // ---- The follow-up a message earns ----

  lemma SpacedOwed(s: State, c: Carried, followUp: bool, cfg: Config, w: World)
    requires |s.ring| > 0 && Spaced(s, c, followUp, cfg, w).handed.Some?
    ensures var o := Spaced(s, c, followUp, cfg, w);
            o.handed.value.carried == c && o.state.owed == Remembered(s.owed, c.line, o.handed.value.sent)
  {
    hide FrameOf, Space, MessageAllowed, Remembered;
  }

  lemma StepOwed(s: State, line: string, cfg: Config, w: World)
    requires |s.ring| > 0 && Step(s, line, cfg, w).handed.Some?
    ensures var o := Step(s, line, cfg, w);
            var owed := if Claims(line, cfg) then Owed.Take(s.owed, Source(line)) else s.owed;
            o.state.owed == Remembered(owed, o.handed.value.carried.line, o.handed.value.sent)
  {
    hide Step, Choose, Admitted, Spaced, Remembered, Owed.Take, Claims, FollowUp, Source;
    StepHanded(s, line, cfg, w);
    var claimed := if Claims(line, cfg) then s.(owed := Owed.Take(s.owed, Source(line))) else s;
    var followUp := FollowUp(s, line, cfg);
    SpacedOwed(claimed, Choose(line, followUp, cfg).value, followUp, cfg, w);
  }

  /** A message that is sent makes its addressee owed one follow-up. */
  lemma MessageSentOwes(s: State, line: string, cfg: Config, w: World)
    requires |s.ring| > 0
    ensures var o := Step(s, line, cfg, w);
            o.handed.Some? && o.handed.value.sent ==>
              var to := Addressee(Info(o.handed.value.carried.line));
              to.Some? ==> Owed.Listed(o.state.owed, to.value)
  {
    hide Step, Choose, Admitted, FrameOf, Owed.Listed, Owed.Remember;
    var o := Step(s, line, cfg, w);
    if o.handed.Some? {
      HandedBy(s, line, cfg, w);
      StepOwed(s, line, cfg, w);
      var to := Addressee(Info(o.handed.value.carried.line));
      if o.handed.value.sent && to.Some? {
        var owed := if Claims(line, cfg) then Owed.Take(s.owed, Source(line)) else s.owed;
        Owed.Remembers(owed, Owed.RING_SIZE, to.value);
      }
    }
  }

  /** A position report of an owed station goes out whatever the filter, the range, position,
      heard-on-RF and spacing gates say: only the budlist and the frame length count. */
  lemma OwedReportHanded(s: State, line: string, cfg: Config, w: World)
    requires |s.ring| > 0 && cfg.inet2rf && Foreign(line, cfg) && Qualifies(ClassifyLine(line))
    requires Source(line) != "" && Owed.Listed(s.owed, Source(line))
    ensures var c, handed := Carried(line, ClassifyLine(line), Source(line)), Step(s, line, cfg, w).handed;
            handed.Some? && handed.value.carried == c && handed.value.followUp <==>
              BudlistPass(cfg.budMode, c.call, cfg.budlist) && Fits(c, cfg)
  {
    hide Step, Choose, Admitted, Space, MessageAllowed, TooFar, InRange, Wrapped, Wrappable,
         OwnReport, ForbidsRf, BroadcastMessage, Owed.Listed, ClassifyLine, Listed;
    var c := Carried(line, ClassifyLine(line), Source(line));
    HandedExactly(s, line, cfg, w, c);
    if Step(s, line, cfg, w).handed.Some? {
      HandedBy(s, line, cfg, w);
    }
  }

  lemma StepKeepsLength(s: State, line: string, cfg: Config, w: World)
    requires |s.ring| > 0
    ensures |Step(s, line, cfg, w).state.ring| == |s.ring|
  {
    hide Owed.Take, Owed.Listed, Choose, Admitted, FrameOf, MessageAllowed, TooFar, Barred;
  }

  lemma ListedAgain(owed: seq<string>, to: string, call: string)
    requires to != "" && Owed.Listed(owed, to) && SameCall(to, call)
    ensures call != "" && Owed.Listed(owed, call)
  {
    assert |Fold(to)| == |Fold(call)|;
    var i :| 0 <= i < |owed| && SameCall(owed[i], to);
    assert SameCall(owed[i], call);
  }

  /** So a message that was sent lets the next position report of its addressee through,
      whatever happens to the settings and to the world in between. */
  lemma MessageEarnsFollowUp(s: State, line: string, cfg: Config, w: World, line2: string, cfg2: Config, w2: World)
    requires |s.ring| > 0
    requires var handed := Step(s, line, cfg, w).handed;
             handed.Some? && handed.value.sent && Addressee(Info(handed.value.carried.line)).Some?
             && SameCall(Addressee(Info(handed.value.carried.line)).value, Source(line2))
    requires cfg2.inet2rf && Foreign(line2, cfg2) && Qualifies(ClassifyLine(line2))
    ensures var c, o := Carried(line2, ClassifyLine(line2), Source(line2)), Step(s, line, cfg, w);
            |o.state.ring| > 0
            && (BudlistPass(cfg2.budMode, c.call, cfg2.budlist) && Fits(c, cfg2) ==>
                  var next := Step(o.state, line2, cfg2, w2).handed;
                  next.Some? && next.value.carried == c && next.value.followUp)
  {
    hide Step, Foreign, Qualifies, Fits, BudlistPass, Addressee, Remembered;
    var o := Step(s, line, cfg, w);
    var to := Addressee(Info(o.handed.value.carried.line)).value;
    MessageSentOwes(s, line, cfg, w);
    StepKeepsLength(s, line, cfg, w);
    ListedAgain(o.state.owed, to, Source(line2));
    OwedReportHanded(o.state, line2, cfg2, w2);
  }
}
