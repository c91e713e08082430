/** What every frame the gateway hands to the transmitter has in common, for every
    setting, every line and every state of its rings. */
module GatewaySafety {
  import opened Common
  import opened Text
  import opened ThirdParty
  import opened Classifier
  import opened GatewayRules
  import opened Gateway
  import Owed = FollowUpRing

  /** The line itself, or what the selective unwrap took out of it. */
  lemma ChosenPacket(line: string, followUp: bool, cfg: Config)
    requires Choose(line, followUp, cfg).Some?
    requires followUp ==> Qualifies(ClassifyLine(line))
    requires !BroadcastMessage(line)
    ensures var c := Choose(line, followUp, cfg).value;
            && c.kind == ClassifyLine(c.line)
            && !ThirdPartyInfo(c.line) && !BroadcastMessage(c.line)
            && (followUp || Passes(cfg.filter, c.kind))
            && ((c.line == line && c.call == Source(line))
                || (cfg.unwrap && cfg.budMode.Whitelist? && !followUp
                    && c.line == Info(line)[1..] && ThirdPartyInfo(line)
                    && Listed(c.call, cfg.budlist)))
  {
    KindOfLine(line);
  }

  /** The first byte of the information field fixes what the gateway keys on. */
  lemma KindOfLine(line: string)
    ensures ThirdPartyInfo(line) ==> ClassifyLine(line) == None
    ensures GenericQuery(line) <==> ClassifyLine(line) == Some(Query)
    ensures IsMessage(ClassifyLine(line)) ==> Info(line) != "" && Info(line)[0] == ':'
    ensures Addressee(Info(line)).Some? ==> ClassifyLine(line) in {Some(Message), Some(Telemetry)}
  {
    if Info(line) != "" {
      KindOfDti(Info(line));
    }
  }

  lemma SpacedHanded(s: State, c: Carried, followUp: bool, cfg: Config, w: World)
    requires |s.ring| > 0 && Spaced(s, c, followUp, cfg, w).handed.Some?
    ensures var h := Spaced(s, c, followUp, cfg, w).handed.value;
            && h.carried == c && h.followUp == followUp && MessageAllowed(c, cfg, w)
            && FrameOf(c.line, cfg) == Some(h.frame)
            && h.critical == IsMessage(c.kind) && h.sent == w.accepts(h.frame, h.critical)
  {
    var (ring, ok) := Space(s.ring, c, followUp, cfg, w);
    assert Spaced(s, c, followUp, cfg, w) == Transmit(s.(ring := ring), c, followUp, cfg, w);
  }

  lemma StepHanded(s: State, line: string, cfg: Config, w: World)
    requires |s.ring| > 0 && Step(s, line, cfg, w).handed.Some?
    ensures cfg.inet2rf && !Barred(line, cfg)
    ensures var claimed := if Claims(line, cfg) then s.(owed := Owed.Take(s.owed, Source(line))) else s;
            Step(s, line, cfg, w) == Gate(claimed, line, FollowUp(s, line, cfg), cfg, w)
  {
  }

  /** A handed frame has passed every gate. */
  lemma HandedBy(s: State, line: string, cfg: Config, w: World)
    requires |s.ring| > 0 && Step(s, line, cfg, w).handed.Some?
    ensures var h, followUp := Step(s, line, cfg, w).handed.value, FollowUp(s, line, cfg);
            && cfg.inet2rf && !Barred(line, cfg)
            && Choose(line, followUp, cfg) == Some(h.carried) && h.followUp == followUp
            && Admitted(h.carried, followUp, cfg, w) && MessageAllowed(h.carried, cfg, w)
            && FrameOf(h.carried.line, cfg) == Some(h.frame)
            && h.critical == IsMessage(h.carried.kind) && h.sent == w.accepts(h.frame, h.critical)
  {
    StepHanded(s, line, cfg, w);
    var claimed := if Claims(line, cfg) then s.(owed := Owed.Take(s.owed, Source(line))) else s;
    var followUp := FollowUp(s, line, cfg);
    SpacedHanded(claimed, Choose(line, followUp, cfg).value, followUp, cfg, w);
  }

  /** The main safety property: a frame on the air comes from a line with a foreign
      source and no forbidding token in its header; it carries the line, or a packet of a
      whitelisted station unwrapped from it, that is neither a broadcast nor itself
      third-party traffic and whose kind the filter lets through unless a follow-up is
      owed; and a receiver that takes the frame apart gets that packet's source,
      destination and information field back, as long as own call and path hold no ':'. */
  lemma HandedIsLegitimate(s: State, line: string, cfg: Config, w: World)
    requires |s.ring| > 0
    ensures var handed := Step(s, line, cfg, w).handed;
            handed.Some? ==>
              && !OwnReport(line, OwnCalls(cfg)) && !ForbidsRf(line) && !GenericQuery(line)
              && Legitimate(handed.value, line, cfg)
  {
    if Step(s, line, cfg, w).handed.Some? {
      HandedBy(s, line, cfg, w);
      ChosenPacket(line, FollowUp(s, line, cfg), cfg);
      var c := Step(s, line, cfg, w).handed.value.carried;
      WrapRoundTripIff(c.line, OwnCall(cfg.mycall, cfg.ssid), cfg.path);
      ColonInOwnCall(cfg.mycall, cfg.ssid);
    }
  }

  predicate Legitimate(h: Handed, line: string, cfg: Config) {
    var c := h.carried;
    && !BroadcastMessage(c.line) && !ThirdPartyInfo(c.line)
    && (h.followUp || Passes(cfg.filter, ClassifyLine(c.line)))
    && (c.line == line
        || (ThirdPartyInfo(line) && c.line == Info(line)[1..] && cfg.unwrap && Listed(c.call, cfg.budlist)))
    && |h.frame| <= TNC2_MAX_LEN
    && HasHeader(c.line)
    && (CarriesLine(h.frame, c.line) <==> ':' !in cfg.mycall && ':' !in cfg.path)
  }

  lemma ColonInOwnCall(mycall: string, ssid: nat)
    ensures ':' in OwnCall(mycall, ssid) <==> ':' in mycall
  {
  }

  /** With position required, or on BrandMeister traffic, everything on the air is a
      message, an owed follow-up, or says where it is. */
  lemma OnlyPlacedTraffic(s: State, line: string, cfg: Config, w: World)
    requires |s.ring| > 0 && (cfg.positionRequired || w.viaBm)
    ensures var handed := Step(s, line, cfg, w).handed;
            handed.Some? ==>
              handed.value.critical || handed.value.followUp || PositionOf(handed.value.carried.line, w).Some?
  {
    if Step(s, line, cfg, w).handed.Some? {
      HandedBy(s, line, cfg, w);
    }
  }

  /** A message goes out under the message gate only to a station heard near enough on RF
      that is not on the Internet itself - replies of the Winlink service excepted - and
      never for a sender heard on RF. */
  lemma OnlyDeliverableMessages(s: State, line: string, cfg: Config, w: World)
    requires |s.ring| > 0 && cfg.msgGate
    ensures var handed := Step(s, line, cfg, w).handed;
            handed.Some? && handed.value.critical ==>
              var c := handed.value.carried;
              Addressee(Info(c.line)).Some? ==>
                var a := Addressee(Info(c.line)).value;
                && w.heardRf(a) && w.heardNear(a) && !w.heardRf(c.call)
                && (w.heardInet(a) ==> cfg.winlinkExempt && w.winlink(c.call))
  {
    if Step(s, line, cfg, w).handed.Some? {
      HandedBy(s, line, cfg, w);
    }
  }

  /** A frame is handed over exactly when no gate objects. */
  lemma HandedIff(s: State, line: string, cfg: Config, w: World)
    requires |s.ring| > 0
    ensures var followUp := FollowUp(s, line, cfg);
            Step(s, line, cfg, w).handed.Some? <==>
              && cfg.inet2rf && !Barred(line, cfg)
              && (followUp || !TooFar(line, cfg, w))
              && Choose(line, followUp, cfg).Some?
              && var c := Choose(line, followUp, cfg).value;
                 && Admitted(c, followUp, cfg, w) && Space(s.ring, c, followUp, cfg, w).1
                 && MessageAllowed(c, cfg, w) && FrameOf(c.line, cfg).Some?
  {
    var claimed := if Claims(line, cfg) then s.(owed := Owed.Take(s.owed, Source(line))) else s;
    var followUp := FollowUp(s, line, cfg);
    if cfg.inet2rf && !Barred(line, cfg) && (followUp || !TooFar(line, cfg, w)) {
      assert Step(s, line, cfg, w) == Gate(claimed, line, followUp, cfg, w);
    }
  }

  // ---- Generic queries ----

  /** A third-party line of a listed station that wraps a generic query, with the unwrap on
      and queries let through. */
  predicate WrapsQuery(line: string, cfg: Config) {
    && ThirdPartyInfo(line) && cfg.unwrap && cfg.budMode.Whitelist? && Query in cfg.filter
    && GenericQuery(Info(line)[1..])
    && InnerSource(Info(line)[1..]) != "" && Listed(InnerSource(Info(line)[1..]), cfg.budlist)
  }

  /** The remaining gates, on the packet a line wraps. */
  predicate WrappedPasses(s: State, line: string, cfg: Config, w: World)
    requires |s.ring| > 0 && ThirdPartyInfo(line)
  {
    var c := Carried(Info(line)[1..], Some(Query), InnerSource(Info(line)[1..]));
    && (cfg.positionRequired || w.viaBm ==> PositionOf(c.line, w).Some?)
    && (cfg.heardOnly ==> w.heardRf(c.call))
    && Space(s.ring, c, false, cfg, w).1
    && FrameOf(c.line, cfg).Some?
  }

  /** The rule that generic queries never reach RF, whatever the filter, does not cover
      unwrapped packets. A query is on the air exactly when an unbarred line in range wraps
      one of a listed station, queries are let through, and the gates that do not look at
      the kind let it pass. */
  lemma QueryReachesAirIff(s: State, line: string, cfg: Config, w: World)
    requires |s.ring| > 0
    ensures var handed := Step(s, line, cfg, w).handed;
            handed.Some? && GenericQuery(handed.value.carried.line) <==>
              && cfg.inet2rf && !Barred(line, cfg) && !TooFar(line, cfg, w)
              && WrapsQuery(line, cfg) && WrappedPasses(s, line, cfg, w)
  {
    var handed := Step(s, line, cfg, w).handed;
    if handed.Some? && GenericQuery(handed.value.carried.line) {
      HandedBy(s, line, cfg, w);
      QueryIsWrapped(s, line, cfg, w);
    }
    if cfg.inet2rf && !Barred(line, cfg) && WrapsQuery(line, cfg) {
      WrappedQueryHandedIff(s, line, cfg, w);
    }
  }

  lemma WrappedQueryHandedIff(s: State, line: string, cfg: Config, w: World)
    requires |s.ring| > 0 && cfg.inet2rf && !Barred(line, cfg) && WrapsQuery(line, cfg)
    ensures var handed := Step(s, line, cfg, w).handed;
            && (handed.Some? <==> !TooFar(line, cfg, w) && WrappedPasses(s, line, cfg, w))
            && (handed.Some? ==> handed.value.carried.line == Info(line)[1..])
  {
    var c := QueryCarried(line, cfg);
    assert !FollowUp(s, line, cfg) && Choose(line, false, cfg) == Some(c);
    HandedIff(s, line, cfg, w);
    if Step(s, line, cfg, w).handed.Some? {
      HandedBy(s, line, cfg, w);
    }
  }

  lemma QueryIsWrapped(s: State, line: string, cfg: Config, w: World)
    requires |s.ring| > 0 && Step(s, line, cfg, w).handed.Some?
    requires GenericQuery(Step(s, line, cfg, w).handed.value.carried.line)
    ensures WrapsQuery(line, cfg) && !FollowUp(s, line, cfg)
  {
    HandedBy(s, line, cfg, w);
    ChosenPacket(line, FollowUp(s, line, cfg), cfg);
    KindOfLine(line);
    KindOfLine(Step(s, line, cfg, w).handed.value.carried.line);
  }

  lemma QueryCarried(line: string, cfg: Config) returns (c: Carried)
    requires ThirdPartyInfo(line) && cfg.unwrap && cfg.budMode.Whitelist? && Query in cfg.filter
    requires var inner := Info(line)[1..];
             GenericQuery(inner) && InnerSource(inner) != "" && Listed(InnerSource(inner), cfg.budlist)
    ensures c == Carried(Info(line)[1..], Some(Query), InnerSource(Info(line)[1..]))
    ensures Unwrapped(line, cfg) == Some(c) && ClassifyLine(line) == None
  {
    var inner := Info(line)[1..];
    KindOfLine(line);
    KindOfLine(inner);
    c := Carried(inner, Some(Query), InnerSource(inner));
  }

  /** One such line: a station C, listed, asks everybody inside a packet relayed by A. */
  function QueryFrom(src: string): string {
    src + ['>'] + ("D" + [':'] + "?X")
  }

  const QUERY_LINE: string := "A" + ['>'] + ("B" + [':'] + (['}'] + QueryFrom("C")))
  const QUERY_CONFIG: Config :=
    Config(true, "ME", 0, "", [], {Query}, true, Whitelist, ["C"], false, false, false, 0, false, false)

  lemma NotBefore(s: string, c: char, prefix: string)
    requires |prefix| <= |s| && s[..|prefix|] == prefix && c !in prefix
    ensures IndexOf(s, c) >= |prefix|
  {
    assert s == prefix + s[|prefix|..];
    IndexOfAppend(prefix, s[|prefix|..], c);
  }

  lemma OneLetterIndices(src: string, dst: string, info: string)
    requires |src| == |dst| == 1 && IsUpper(src[0]) && IsUpper(dst[0])
    ensures var line := src + ['>'] + (dst + [':'] + info);
            && IndexOf(line, '>') == 1 && IndexOf(line, ':') == 3 && IndexOf(line, '-') >= 1
            && line[..3] == src + ['>'] + dst && line[4..] == info
  {
    var line := src + ['>'] + (dst + [':'] + info);
    assert line == (src + ['>'] + dst) + [':'] + info;
    CutAt(src + ['>'] + dst, ':', info);
    CutAt(src, '>', dst + [':'] + info);
    NotBefore(line, '-', src);
  }

  lemma OneLetterLine(src: string, dst: string, info: string)
    requires |src| == |dst| == 1 && IsUpper(src[0]) && IsUpper(dst[0])
    ensures var line := src + ['>'] + (dst + [':'] + info);
            && Info(line) == info && Header(line) == src + ['>'] + dst && SourceBase(line) == src
            && InnerSource(line) == src && Wrappable(line) && Split(line) == Parts(src, dst, info)
  {
    OneLetterIndices(src, dst, info);
    assert (src + ['>'] + (dst + [':'] + info))[2..3] == dst;
  }

  /** A line from a foreign one-letter station that is no query and no message. */
  lemma OneLetterNotBarred(src: string, dst: string, info: string, cfg: Config)
    requires |src| == |dst| == 1 && IsUpper(src[0]) && IsUpper(dst[0])
    requires info != "" && info[0] != '?' && info[0] != ':'
    requires forall i :: 0 <= i < |OwnCalls(cfg)| ==> |OwnCalls(cfg)[i]| != 1
    ensures !Barred(src + ['>'] + (dst + [':'] + info), cfg)
  {
    OneLetterLine(src, dst, info);
    var line := src + ['>'] + (dst + [':'] + info);
    forall i | 0 <= i < |OwnCalls(cfg)|
      ensures !SameCall(OwnCalls(cfg)[i], src)
    {
      assert |Fold(OwnCalls(cfg)[i])| != |Fold(src)|;
    }
    assert !ForbidsRf(line);
  }

  lemma QueryLineWraps(w: World)
    requires !w.viaBm
    ensures !Barred(QUERY_LINE, QUERY_CONFIG) && WrapsQuery(QUERY_LINE, QUERY_CONFIG)
    ensures Info(QUERY_LINE)[1..] == QueryFrom("C") && FrameOf(QueryFrom("C"), QUERY_CONFIG).Some?
  {
    OneLetterLine("A", "B", ['}'] + QueryFrom("C"));
    OneLetterNotBarred("A", "B", ['}'] + QueryFrom("C"), QUERY_CONFIG);
    OneLetterLine("C", "D", "?X");
    assert Base("C") == "C" && QUERY_CONFIG.budlist[0] == "C" && SameCall("C", QUERY_CONFIG.budlist[0]);
    assert Info(QUERY_LINE)[1..] == QueryFrom("C");
  }

  lemma QueryLineReachesAir(s: State, w: World)
    requires |s.ring| > 0 && !w.viaBm
    ensures var handed := Step(s, QUERY_LINE, QUERY_CONFIG, w).handed;
            handed.Some? && GenericQuery(handed.value.carried.line)
  {
    QueryLineWraps(w);
    QueryReachesAirIff(s, QUERY_LINE, QUERY_CONFIG, w);
  }

  // ---- The shape of a frame ----

  lemma NotIn(s: string, token: string)
    requires token != "" && token[0] !in s
    ensures !Occurs(s, token)
  {
    forall i: nat | i <= |s|
      ensures !OccursAt(s, token, i)
    {
      assert i + |token| <= |s| ==> s[i..i + |token|][0] == s[i];
    }
  }

  lemma FrameShape(own: string, path: string, p: Parts)
    requires ':' !in own && ':' !in path
    ensures var frame := Wrapped(own, path, p);
            Header(frame) == OuterHeader(own, path) && Info(frame) == ['}'] + Inner(own, p)
  {
    CutAt(OuterHeader(own, path), ':', ['}'] + Inner(own, p));
  }

  lemma FirstAt(s: string, c: char)
    requires s != "" && s[0] == c
    ensures IndexOf(s, c) == 0
  {
  }

  /** A source followed by its SSID or by the '>' keeps its base. */
  lemma BaseKept(call: string, rest: string)
    requires rest != "" && (rest[0] == '-' || rest[0] == '>')
    ensures SourceBase(call + rest) == SourceBase(call)
  {
    hide IndexOf;
    BaseEnd(call, rest, '-');
    BaseEnd(call, rest, '>');
    FirstAt(rest, rest[0]);
    var all, n := call + rest, |SourceBase(call)|;
    assert all[..n] == call[..n];
  }

  lemma BaseEnd(a: string, b: string, c: char)
    ensures IndexOf(a + b, c) == if c in a then IndexOf(a, c) else |a| + IndexOf(b, c)
    ensures c !in a ==> IndexOf(a, c) == |a|
  {
    if c in a {
      IndexOfPrefix(a, b, c);
    } else {
      IndexOfAppend(a, b, c);
    }
  }

  lemma FrameBase(mycall: string, ssid: nat, path: string, p: Parts)
    ensures SourceBase(Wrapped(OwnCall(mycall, ssid), path, p)) == SourceBase(mycall)
  {
    var rest := ['>'] + (TOCALL + path + [':'] + (['}'] + Inner(OwnCall(mycall, ssid), p)));
    if ssid > 0 {
      assert Wrapped(OwnCall(mycall, ssid), path, p) == mycall + ("-" + Decimal(ssid) + rest);
      BaseKept(mycall, "-" + Decimal(ssid) + rest);
    } else {
      assert Wrapped(OwnCall(mycall, ssid), path, p) == mycall + rest;
      BaseKept(mycall, rest);
    }
  }

  lemma ListedA()
    ensures Listed("A", ["A"])
  {
    assert Base("A") == "A" && ["A"][0] == "A";
  }

  // ---- Loops ----

  /** Third-party traffic goes nowhere while the unwrap is off. */
  lemma ThirdPartyRefused(s: State, frame: string, cfg: Config, w: World)
    requires |s.ring| > 0 && ThirdPartyInfo(frame) && !(cfg.unwrap && cfg.budMode.Whitelist?)
    ensures Step(s, frame, cfg, w) == Outcome(s, None)
  {
    KindOfLine(frame);
  }

  /** A frame this gateway handed to its transmitter, fed back to it or to any other
      gateway that runs with the unwrap off, goes nowhere, whatever either's other
      settings and rings, as long as a receiver finds a packet in it at all. */
  lemma FedBackFrameRefused(s: State, line: string, cfg: Config, w: World, s2: State, cfg2: Config, w2: World)
    requires |s.ring| > 0 && |s2.ring| > 0 && !(cfg2.unwrap && cfg2.budMode.Whitelist?)
    ensures var handed := Step(s, line, cfg, w).handed;
            handed.Some? && Opens(OwnCall(cfg.mycall, cfg.ssid), cfg.path) ==>
              Step(s2, handed.value.frame, cfg2, w2) == Outcome(s2, None)
  {
    hide Wrapped, Opens, Choose, Admitted, OwnCall, Barred, MessageAllowed;
    if Step(s, line, cfg, w).handed.Some? {
      HandedBy(s, line, cfg, w);
      var h := Step(s, line, cfg, w).handed.value;
      UnwrapOpens(OwnCall(cfg.mycall, cfg.ssid), cfg.path, Split(h.carried.line));
      if ThirdPartyInfo(h.frame) {
        ThirdPartyRefused(s2, h.frame, cfg2, w2);
      }
    }
  }

  /** A gateway whose unwrap is off hands the line over. */
  ghost predicate SentBy(s: State, line: string, cfg: Config, w: World) {
    |s.ring| > 0 && !(cfg.unwrap && cfg.budMode.Whitelist?) && Step(s, line, cfg, w).handed.Some?
  }

  /** Nothing in the line itself keeps it off the air. */
  predicate Sendable(line: string) {
    && !GenericQuery(line) && !ForbidsRf(line) && !BroadcastMessage(line) && ClassifyLine(line).Some?
    && Wrappable(line) && |Wrapped("", "", Split(line))| <= TNC2_MAX_LEN
  }

  lemma ShortestFrame(own: string, path: string, p: Parts)
    ensures |Wrapped(own, path, p)| >= |Wrapped("", "", p)|
  {
  }

  /** The gateway that lets everything through. */
  function Lenient(line: string): Config
    requires ClassifyLine(line).Some?
  {
    Config(true, "", 0, "", [], {ClassifyLine(line).value}, false, Off, [], false, false, false, 0, false, false)
  }

  lemma LenientSends(s: State, line: string, w: World)
    requires |s.ring| > 0 && Sendable(line) && !w.viaBm
    ensures SentBy(s, line, Lenient(line), w)
  {
    HandedIff(s, line, Lenient(line), w);
  }

  lemma SentIsSendable(s: State, line: string, cfg: Config, w: World)
    requires SentBy(s, line, cfg, w)
    ensures Sendable(line)
  {
    HandedBy(s, line, cfg, w);
    KindOfLine(line);
    ShortestFrame(OwnCall(cfg.mycall, cfg.ssid), cfg.path, Split(line));
  }

  /** Some gateway with its unwrap off sends a line, or a frame it hears back, exactly when
      nothing in it forbids that; a frame in which a receiver finds a packet is never such. */
  lemma SentOnIff(line: string, world: World)
    requires !world.viaBm
    ensures (exists s: State, cfg: Config, w: World :: SentBy(s, line, cfg, w)) <==> Sendable(line)
  {
    if Sendable(line) {
      LenientSends(Start(), line, world);
    }
    forall s: State, cfg: Config, w: World | SentBy(s, line, cfg, w)
      ensures Sendable(line)
    {
      SentIsSendable(s, line, cfg, w);
    }
  }

  // Without that the text behind the first ':' decides. One such path preset: the frame of
  // the gateway ME reads as a status report to the gateway ZZ, which sends it on.

  const STATUS_LINE: string := "A" + ['>'] + ("B" + [':'] + ">x")
  const STATUS_PARTS := Parts("A", "B", ">x")
  const COLON_PATH: string := ",A" + [':'] + ">x"
  const COLON_CONFIG: Config :=
    Config(true, "ME", 0, COLON_PATH, [], {Status}, false, Off, [], false, false, false, 0, false, false)
  const NEXT_CONFIG: Config := COLON_CONFIG.(mycall := "ZZ", path := "")

  lemma FirstColon(own: string, mid: string, tail: string, rest: string)
    ensures own + ['>'] + (TOCALL + (mid + [':'] + tail)) + [':'] + rest
         == own + ['>'] + (TOCALL + mid) + [':'] + (tail + ([':'] + rest))
  {
  }

  lemma ColonFrameShape(p: Parts)
    ensures var frame := Wrapped("ME", COLON_PATH, p);
            && IndexOf(frame, '>') == 2 && Header(frame) == "ME>APE32I,A"
            && Info(frame) == ">x" + ([':'] + (['}'] + Inner("ME", p)))
            && HasHeader(frame) && Split(frame) == Parts("ME", TOCALL, Info(frame))
  {
    hide Inner;
    var frame, info := Wrapped("ME", COLON_PATH, p), ">x" + ([':'] + (['}'] + Inner("ME", p)));
    FirstColon("ME", ",A", ">x", ['}'] + Inner("ME", p));
    assert "ME" + ['>'] + (TOCALL + ",A") == "ME>APE32I,A";
    CutAt("ME>APE32I,A", ':', info);
    assert frame == "ME" + ['>'] + ("APE32I,A" + [':'] + info);
    CutAt("ME", '>', "APE32I,A" + [':'] + info);
    var header := "APE32I" + [','] + "A";
    CutAt("APE32I", ',', "A");
    assert frame[3..11] == header;
  }

  lemma ColonHeaderAllowed()
    ensures forall t :: 0 <= t < |FORBIDDING| ==> !Occurs("ME>APE32I,A", FORBIDDING[t])
  {
    forall t | 0 <= t < |FORBIDDING|
      ensures !Occurs("ME>APE32I,A", FORBIDDING[t])
    {
      NotIn("ME>APE32I,A", FORBIDDING[t]);
    }
  }

  lemma ColonFrameNotBarred(p: Parts)
    ensures !Barred(Wrapped("ME", COLON_PATH, p), NEXT_CONFIG)
  {
    hide Wrapped, Inner, Occurs;
    ColonFrameShape(p);
    ColonHeaderAllowed();
    FrameBase("ME", 0, COLON_PATH, p);
    assert SourceBase("ME") == "ME" && FoldChar('M') != FoldChar('Z');
    assert Fold("ME")[0] != Fold("ZZ")[0];
  }

  lemma ColonLegal()
    ensures LegalCall("ME") && LegalCall(TOCALL)
  {
    assert IndexOf("ME", '-') == 2 && IndexOf(TOCALL, '-') == 6;
  }

  lemma ColonLineHanded(s: State, w: World)
    requires |s.ring| > 0 && !w.viaBm
    ensures var handed := Step(s, STATUS_LINE, COLON_CONFIG, w).handed;
            handed.Some? && handed.value.frame == Wrapped("ME", COLON_PATH, STATUS_PARTS)
  {
    OneLetterLine("A", "B", ">x");
    OneLetterNotBarred("A", "B", ">x", COLON_CONFIG);
    HandedIff(s, STATUS_LINE, COLON_CONFIG, w);
    HandedBy(s, STATUS_LINE, COLON_CONFIG, w);
  }

  lemma ColonFrameHanded(s: State, w: World)
    requires |s.ring| > 0 && !w.viaBm
    ensures Step(s, Wrapped("ME", COLON_PATH, STATUS_PARTS), NEXT_CONFIG, w).handed.Some?
  {
    var frame := Wrapped("ME", COLON_PATH, STATUS_PARTS);
    ColonFrameShape(STATUS_PARTS);
    ColonFrameNotBarred(STATUS_PARTS);
    ColonLegal();
    KindOfLine(frame);
    HandedIff(s, frame, NEXT_CONFIG, w);
  }

  lemma ColonPathSentOn(s: State, w: World, s2: State, w2: World)
    requires |s.ring| > 0 && |s2.ring| > 0 && !w.viaBm && !w2.viaBm
    ensures var handed := Step(s, STATUS_LINE, COLON_CONFIG, w).handed;
            handed.Some? && Step(s2, handed.value.frame, NEXT_CONFIG, w2).handed.Some?
  {
    ColonLineHanded(s, w);
    ColonFrameHanded(s2, w2);
  }

  // ---- The gateway's own frames ----

  /** The echo test finds the own call in the source of the own frames: it is a plain base
      call, or what precedes its first '-' or '>' is another call of the station. */
  predicate KnowsItself(cfg: Config) {
    var base := SourceBase(cfg.mycall);
    || (cfg.mycall != "" && '-' !in cfg.mycall && '>' !in cfg.mycall)
    || (base != "" && exists i :: 0 <= i < |cfg.others| && cfg.others[i] != "" && SameCall(cfg.others[i], base))
  }

  /** A gateway recognises its own frames exactly when it knows itself. */
  lemma OwnFrameKnownIff(cfg: Config, p: Parts, cfg2: Config)
    requires cfg2.mycall == cfg.mycall
    ensures OwnReport(Wrapped(OwnCall(cfg.mycall, cfg.ssid), cfg.path, p), OwnCalls(cfg2)) <==> KnowsItself(cfg2)
  {
    hide Wrapped, OwnCall;
    FrameBase(cfg.mycall, cfg.ssid, cfg.path, p);
    BaseIff(cfg2.mycall, cfg2.others);
  }

  lemma BaseIff(mycall: string, others: seq<string>)
    ensures var base, own := SourceBase(mycall), [mycall] + others;
            (exists i :: 0 <= i < |own| && own[i] != "" && SameCall(own[i], base)) && base != "" <==>
              || (mycall != "" && '-' !in mycall && '>' !in mycall)
              || (base != "" && exists i :: 0 <= i < |others| && others[i] != "" && SameCall(others[i], base))
  {
    var base, own := SourceBase(mycall), [mycall] + others;
    assert own[0] == mycall && |Fold(base)| == |base| <= |mycall| == |Fold(mycall)|;
    assert forall i :: 0 <= i < |others| ==> own[i + 1] == others[i];
    assert base == mycall <==> '-' !in mycall && '>' !in mycall;
    assert forall i :: 0 < i < |own| ==> own[i] == others[i - 1];
  }

  /** Fed back to this gateway itself a frame goes nowhere with the unwrap on either, if
      the gateway knows itself. */
  lemma OwnFrameRefused(s: State, line: string, cfg: Config, w: World, s2: State, cfg2: Config, w2: World)
    requires |s.ring| > 0 && |s2.ring| > 0 && cfg2.mycall == cfg.mycall
    ensures var handed := Step(s, line, cfg, w).handed;
            handed.Some? && KnowsItself(cfg2) ==> Step(s2, handed.value.frame, cfg2, w2) == Outcome(s2, None)
  {
    if Step(s, line, cfg, w).handed.Some? {
      HandedBy(s, line, cfg, w);
      OwnFrameKnownIff(cfg, Split(Step(s, line, cfg, w).handed.value.carried.line), cfg2);
    }
  }

  /** What is sent again is the very same frame, so that nothing in it ends the loop. */
  lemma OwnFrameUnchanged(s: State, line: string, cfg: Config, w: World, s2: State, w2: World)
    requires |s.ring| > 0 && |s2.ring| > 0 && ':' !in cfg.mycall && ':' !in cfg.path
    ensures var handed := Step(s, line, cfg, w).handed;
            handed.Some? ==>
              var again := Step(s2, handed.value.frame, cfg, w2).handed;
              again.Some? ==> again.value.frame == handed.value.frame
  {
    if Step(s, line, cfg, w).handed.Some? {
      HandedBy(s, line, cfg, w);
      var h := Step(s, line, cfg, w).handed.value;
      if Step(s2, h.frame, cfg, w2).handed.Some? {
        HandedBy(s2, h.frame, cfg, w2);
        ChosenPacket(h.frame, FollowUp(s2, h.frame, cfg), cfg);
        WrappedAgain(cfg, h.carried.line);
      }
    }
  }

  /** Wrapping the packet in a frame gives the frame. */
  lemma WrappedAgain(cfg: Config, line: string)
    requires Wrappable(line) && ':' !in cfg.mycall && ':' !in cfg.path
    ensures var frame := Wrapped(OwnCall(cfg.mycall, cfg.ssid), cfg.path, Split(line));
            && ThirdPartyInfo(frame) && Wrappable(Info(frame)[1..]) && Split(Info(frame)[1..]) == Split(line)
            && Info(frame)[1..] == Inner(OwnCall(cfg.mycall, cfg.ssid), Split(line))
  {
    var own := OwnCall(cfg.mycall, cfg.ssid);
    UnwrapWrapped(own, cfg.path, Split(line));
    SplitInner(own, Split(line));
  }

  // One such loop: a gateway whose callsign field holds the SSID relays a status report of
  // the listed station A, and then its own frame.

  const ECHO_CONFIG: Config :=
    Config(true, "ME-1", 0, "", [], {Status}, true, Whitelist, ["A"], false, false, false, 0, false, false)
  const ECHO_FRAME: string := Wrapped("ME-1", "", STATUS_PARTS)

  lemma EchoLineHanded(s: State, w: World)
    requires |s.ring| > 0 && !w.viaBm
    ensures var handed := Step(s, STATUS_LINE, ECHO_CONFIG, w).handed;
            handed.Some? && handed.value.frame == ECHO_FRAME
  {
    OneLetterLine("A", "B", ">x");
    OneLetterNotBarred("A", "B", ">x", ECHO_CONFIG);
    ListedA();
    HandedIff(s, STATUS_LINE, ECHO_CONFIG, w);
    HandedBy(s, STATUS_LINE, ECHO_CONFIG, w);
  }

  lemma EchoHeaderAllowed()
    ensures forall t :: 0 <= t < |FORBIDDING| ==> !Occurs(OuterHeader("ME-1", ""), FORBIDDING[t])
  {
    forall t | 0 <= t < |FORBIDDING|
      ensures !Occurs(OuterHeader("ME-1", ""), FORBIDDING[t])
    {
      NotIn(OuterHeader("ME-1", ""), FORBIDDING[t]);
    }
  }

  /** The frame of a packet, fed back to the gateway of the example. */
  lemma EchoFrameNotBarred(p: Parts)
    ensures !Barred(Wrapped("ME-1", "", p), ECHO_CONFIG)
  {
    hide Wrapped, OuterHeader, Inner, Occurs;
    FrameShape("ME-1", "", p);
    EchoHeaderAllowed();
    OwnFrameKnownIff(ECHO_CONFIG, p, ECHO_CONFIG);
  }

  lemma EchoPacketChosen(frame: string, inner: string)
    requires Info(frame) == ['}'] + inner && InnerSource(inner) == "A" && Info(inner) == ">x"
    ensures Choose(frame, false, ECHO_CONFIG) == Some(Carried(inner, Some(Status), "A"))
    ensures ClassifyLine(frame) == None
  {
    KindOfLine(frame);
    ListedA();
    assert Info(frame)[1..] == inner;
  }

  lemma EchoInner()
    ensures var inner := Inner("ME-1", STATUS_PARTS);
            InnerSource(inner) == "A" && Info(inner) == ">x" && Wrappable(inner) && Split(inner) == STATUS_PARTS
  {
    var p := STATUS_PARTS;
    SplitInner("ME-1", p);
    var inner := Inner("ME-1", p);
    assert IndexOf(inner, '>') == |Split(inner).src|;
  }

  lemma EchoLength()
    ensures |ECHO_FRAME| <= TNC2_MAX_LEN && OwnCall("ME-1", 0) == "ME-1"
  {
  }

  lemma EchoFrameHanded(s: State, w: World)
    requires |s.ring| > 0 && !w.viaBm
    ensures var handed := Step(s, ECHO_FRAME, ECHO_CONFIG, w).handed;
            handed.Some? && handed.value.frame == ECHO_FRAME
  {
    hide Wrapped, Inner, Barred, Wrappable, Split, InnerSource;
    var p := STATUS_PARTS;
    EchoInner();
    FrameShape("ME-1", "", p);
    EchoFrameNotBarred(p);
    EchoPacketChosen(ECHO_FRAME, Inner("ME-1", p));
    EchoLength();
    HandedIff(s, ECHO_FRAME, ECHO_CONFIG, w);
    HandedBy(s, ECHO_FRAME, ECHO_CONFIG, w);
  }

  /** The gateway hands over the line's frame, and fed that frame it hands it over again,
      whatever became of its rings. */
  lemma OwnFrameSentAgain(s: State, w: World, s2: State, w2: World)
    requires |s.ring| > 0 && |s2.ring| > 0 && !w.viaBm && !w2.viaBm
    ensures var handed := Step(s, STATUS_LINE, ECHO_CONFIG, w).handed;
            handed.Some?
            && var again := Step(s2, handed.value.frame, ECHO_CONFIG, w2).handed;
               again.Some? && again.value.frame == handed.value.frame
  {
    EchoLineHanded(s, w);
    EchoFrameHanded(s2, w2);
  }
}
