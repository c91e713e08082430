/** The INET->RF gateway: one line of the APRS-IS feed after another, against the rings
    it keeps, the operator's settings and everything it asks the outside world. */
module Gateway {
  import opened Common
  import opened Text
  import opened CivilDate
  import opened ThirdParty
  import opened Classifier
  import opened GatewayRules
  import Owed = FollowUpRing
  import Rate = RateLimiter

  /** The settings one line is judged by. `path` is the built path suffix, `interval` the
      spacing in ticks, `others` the callsigns of the station's other report sources. */
  datatype Config = Config(
    inet2rf: bool, mycall: string, ssid: nat, path: string, others: seq<string>,
    filter: set<Kind>, unwrap: bool, budMode: BudMode, budlist: seq<string>,
    rangeEn: bool, positionRequired: bool, heardOnly: bool, interval: nat,
    msgGate: bool, winlinkExempt: bool)

  /** Everything outside: the clocks, the BrandMeister verdict, the last-heard table, the
      decoders for the formats not modelled, the distance test and the transmitter. */
  datatype World = World(
    tick: nat, now: int, date: Date, viaBm: bool,
    heardRf: string -> bool, heardNear: string -> bool, heardInet: string -> bool, winlink: string -> bool,
    micE: string -> Option<(real, real)>, nmea: string -> Option<(real, real)>,
    beyond: (real, real) -> bool,
    accepts: (string, bool) -> bool)

  datatype State = State(owed: seq<string>, ring: seq<Rate.Slot>)

  /** The packet bound for the air, its kind and the callsign it is judged by. */
  datatype Carried = Carried(line: string, kind: Option<Kind>, call: string)

  /** A frame handed to the transmitter. */
  datatype Handed = Handed(carried: Carried, followUp: bool, frame: string, critical: bool, sent: bool)

  datatype Outcome = Outcome(state: State, handed: Option<Handed>)

  // ---- The gates ----

  function OwnCalls(cfg: Config): seq<string> {
    [cfg.mycall] + cfg.others
  }

  predicate GenericQuery(line: string) {
    Info(line) != "" && Info(line)[0] == '?'
  }

  predicate ThirdPartyInfo(line: string) {
    Info(line) != "" && Info(line)[0] == '}'
  }

  /** Refused whatever the filter says. */
  predicate Barred(line: string, cfg: Config) {
    GenericQuery(line) || OwnReport(line, OwnCalls(cfg)) || ForbidsRf(line) || BroadcastMessage(line)
  }

  /** The kinds that may be a follow-up. */
  predicate Qualifies(kind: Option<Kind>) {
    kind == Some(Position) || kind == Some(Buoy)
  }

  predicate Passes(filter: set<Kind>, kind: Option<Kind>) {
    kind.Some? && kind.value in filter
  }

  predicate IsMessage(kind: Option<Kind>) {
    kind == Some(Message)
  }

  function PositionOf(line: string, w: World): Option<(real, real)> {
    match Decode(Info(line), w.now, w.date, w.micE(line), w.nmea(line))
    case None => None
    case Some(r) => r.position
  }

  predicate TooFar(line: string, cfg: Config, w: World) {
    cfg.rangeEn && PositionOf(line, w).Some? && w.beyond(PositionOf(line, w).value.0, PositionOf(line, w).value.1)
  }

  /** The selective unwrap of a third-party line. */
  function Unwrapped(line: string, cfg: Config): Option<Carried> {
    if !cfg.unwrap || !cfg.budMode.Whitelist? || !ThirdPartyInfo(line) then None
    else
      var inner := Info(line)[1..];
      var call, kind := InnerSource(inner), ClassifyInner(Info(line));
      if ThirdPartyInfo(inner) || BroadcastMessage(inner) then None
      else if call != "" && BudlistPass(Whitelist, call, cfg.budlist) && Passes(cfg.filter, kind) then
        Some(Carried(inner, kind, call))
      else None
  }

  function Choose(line: string, followUp: bool, cfg: Config): Option<Carried> {
    var kind := ClassifyLine(line);
    if followUp || Passes(cfg.filter, kind) then Some(Carried(line, kind, Source(line)))
    else Unwrapped(line, cfg)
  }

  predicate Admitted(c: Carried, followUp: bool, cfg: Config, w: World) {
    && BudlistPass(cfg.budMode, c.call, cfg.budlist)
    && (followUp || IsMessage(c.kind)
        || ((cfg.positionRequired || w.viaBm ==> PositionOf(c.line, w).Some?)
            && (cfg.heardOnly ==> w.heardRf(c.call))))
  }

  function Space(ring: seq<Rate.Slot>, c: Carried, followUp: bool, cfg: Config, w: World): (seq<Rate.Slot>, bool)
    requires |ring| > 0
  {
    if followUp || IsMessage(c.kind) || cfg.interval == 0 || c.call == "" then (ring, true)
    else Rate.Decide(ring, c.call, w.tick, cfg.interval)
  }

  predicate MessagePass(info: string, call: string, cfg: Config, w: World) {
    match Addressee(info)
    case None => true
    case Some(a) =>
      && w.heardRf(a) && w.heardNear(a)
      && ((cfg.winlinkExempt && w.winlink(call)) || !w.heardInet(a))
      && !w.heardRf(call)
  }

  /** The third-party frame for a line, when it can be built. */
  function FrameOf(line: string, cfg: Config): (f: Option<string>)
    ensures f.Some? <==>
              Wrappable(line) && |Wrapped(OwnCall(cfg.mycall, cfg.ssid), cfg.path, Split(line))| <= TNC2_MAX_LEN
    ensures f.Some? ==> f.value == Wrapped(OwnCall(cfg.mycall, cfg.ssid), cfg.path, Split(line))
  {
    if !Wrappable(line) then None
    else
      var frame := Wrapped(OwnCall(cfg.mycall, cfg.ssid), cfg.path, Split(line));
      if |frame| <= TNC2_MAX_LEN then Some(frame) else None
  }

  predicate MessageAllowed(c: Carried, cfg: Config, w: World) {
    cfg.msgGate && IsMessage(c.kind) ==> MessagePass(Info(c.line), c.call, cfg, w)
  }

  /** A message that went out makes its addressee the owner of a follow-up. */
  function Remembered(owed: seq<string>, line: string, sent: bool): seq<string> {
    match Addressee(Info(line))
    case None => owed
    case Some(a) => if sent then Owed.Remember(owed, Owed.RING_SIZE, a) else owed
  }

  // ---- One line ----

  /** From the frame on. */
  function Transmit(s: State, c: Carried, followUp: bool, cfg: Config, w: World): Outcome {
    match FrameOf(c.line, cfg)
    case None => Outcome(s, None)
    case Some(frame) =>
      var critical := IsMessage(c.kind);
      var sent := w.accepts(frame, critical);
      Outcome(s.(owed := Remembered(s.owed, c.line, sent)), Some(Handed(c, followUp, frame, critical, sent)))
  }

  /** From the spacing gate on. */
  function Spaced(s: State, c: Carried, followUp: bool, cfg: Config, w: World): Outcome
    requires |s.ring| > 0
  {
    var (ring, ok) := Space(s.ring, c, followUp, cfg, w);
    if ok && MessageAllowed(c, cfg, w) then Transmit(s.(ring := ring), c, followUp, cfg, w)
    else Outcome(s.(ring := ring), None)
  }

  /** From the choice of the packet on. */
  function Gate(s: State, line: string, followUp: bool, cfg: Config, w: World): Outcome
    requires |s.ring| > 0
  {
    match Choose(line, followUp, cfg)
    case None => Outcome(s, None)
    case Some(c) => if Admitted(c, followUp, cfg, w) then Spaced(s, c, followUp, cfg, w) else Outcome(s, None)
  }

  predicate Claims(line: string, cfg: Config) {
    cfg.inet2rf && !Barred(line, cfg) && Qualifies(ClassifyLine(line))
  }

  predicate FollowUp(s: State, line: string, cfg: Config) {
    Claims(line, cfg) && Source(line) != "" && Owed.Listed(s.owed, Source(line))
  }

  function Step(s: State, line: string, cfg: Config, w: World): Outcome
    requires |s.ring| > 0
  {
    if !cfg.inet2rf || Barred(line, cfg) then Outcome(s, None)
    else
      var claimed := if Claims(line, cfg) then s.(owed := Owed.Take(s.owed, Source(line))) else s;
      if !FollowUp(s, line, cfg) && TooFar(line, cfg, w) then Outcome(claimed, None)
      else Gate(claimed, line, FollowUp(s, line, cfg), cfg, w)
  }

  // ---- The handler ----

  class Handler {
    const owed: Owed.Ring
    const rate: Rate.Limiter

    ghost predicate Valid()
      reads this, owed, owed.slots, rate
    {
      owed.Valid() && owed.slots.Length == Owed.RING_SIZE && rate.Valid()
    }

    ghost function Now(): State
      reads this, owed, rate, rate.slots
    {
      State(owed.list, rate.slots[..])
    }

    constructor ()
      ensures Valid() && fresh(owed) && fresh(owed.slots) && fresh(rate) && fresh(rate.slots)
      ensures Now() == Start()
    {
      owed := new Owed.Ring();
      rate := new Rate.Limiter();
    }

    method Unwrap(line: string, cfg: Config) returns (c: Option<Carried>)
      ensures c == Unwrapped(line, cfg)
    {
      if !cfg.unwrap || !cfg.budMode.Whitelist? || !ThirdPartyInfo(line) {
        return None;
      }
      var inner := Info(line)[1..];
      var call := InnerSource(inner);
      if ThirdPartyInfo(inner) {
        return None;
      }
      var broadcast := LineIsBroadcastMessage(inner);
      if broadcast {
        return None;
      }
      var kind := ClassifyInner(Info(line));
      var listed := BudlistContains(call, cfg.budlist);
      if call != "" && listed && Passes(cfg.filter, kind) {
        return Some(Carried(inner, kind, call));
      }
      return None;
    }

    /** The admission gates, in order. */
    method Admit(c: Carried, followUp: bool, cfg: Config, w: World) returns (ok: bool)
      ensures ok <==> Admitted(c, followUp, cfg, w)
    {
      if !cfg.budMode.Off? {
        var listed := BudlistContains(c.call, cfg.budlist);
        if listed != cfg.budMode.Whitelist? {
          return false;
        }
      }
      if !followUp && !IsMessage(c.kind) && (cfg.positionRequired || w.viaBm) {
        if PositionOf(c.line, w).None? {
          return false;
        }
      }
      if cfg.heardOnly && !followUp && !IsMessage(c.kind) && !w.heardRf(c.call) {
        return false;
      }
      return true;
    }

    method MessageGate(c: Carried, cfg: Config, w: World) returns (ok: bool)
      ensures ok <==> MessageAllowed(c, cfg, w)
    {
      if !cfg.msgGate || !IsMessage(c.kind) {
        return true;
      }
      var a := MessageAddressee(Info(c.line));
      if a.None? {
        return true;
      }
      if !w.heardRf(a.value) || !w.heardNear(a.value) {
        return false;
      }
      if !(cfg.winlinkExempt && w.winlink(c.call)) && w.heardInet(a.value) {
        return false;
      }
      return !w.heardRf(c.call);
    }

    method Allow(c: Carried, followUp: bool, cfg: Config, w: World) returns (ok: bool)
      requires Valid() && |c.call| < CALL_BUF
      modifies rate.slots
      ensures Valid() && (rate.slots[..], ok) == Space(old(rate.slots[..]), c, followUp, cfg, w)
    {
      if followUp || IsMessage(c.kind) {
        return true;
      }
      ok := rate.Allow(c.call, w.tick, cfg.interval);
    }

    method BuildFrame(line: string, cfg: Config) returns (f: Option<string>)
      ensures f == FrameOf(line, cfg)
    {
      var frame, n := BuildThirdPartyFrame(line, cfg.mycall, cfg.ssid, cfg.path, TNC2_MAX_LEN + 1);
      return if n > 0 then Some(frame) else None;
    }

    method Note(line: string, sent: bool)
      requires Valid()
      modifies owed`list, owed.slots
      ensures Valid() && owed.list == Remembered(old(owed.list), line, sent)
    {
      var a := MessageAddressee(Info(line));
      if sent && a.Some? {
        owed.RememberCall(a.value);
      }
    }

    method Send(c: Carried, followUp: bool, cfg: Config, w: World) returns (handed: Option<Handed>)
      requires Valid() && |c.call| < CALL_BUF
      modifies owed`list, owed.slots, rate.slots
      ensures Valid() && Outcome(Now(), handed) == Spaced(old(Now()), c, followUp, cfg, w)
    {
      var ok := Allow(c, followUp, cfg, w);
      if !ok {
        return None;
      }
      ok := MessageGate(c, cfg, w);
      if !ok {
        return None;
      }
      var frame := BuildFrame(c.line, cfg);
      if frame.None? {
        return None;
      }
      var critical := IsMessage(c.kind);
      var sent := w.accepts(frame.value, critical);
      Note(c.line, sent);
      return Some(Handed(c, followUp, frame.value, critical, sent));
    }

    method Refused(line: string, cfg: Config) returns (yes: bool)
      ensures yes <==> Barred(line, cfg)
    {
      if GenericQuery(line) {
        return true;
      }
      var own := IsOwnReport(line, OwnCalls(cfg));
      if own {
        return true;
      }
      var forbidden := HeaderForbidsRf(line);
      if forbidden {
        return true;
      }
      yes := LineIsBroadcastMessage(line);
    }

    method Pick(line: string, followUp: bool, cfg: Config) returns (c: Option<Carried>)
      ensures c == Choose(line, followUp, cfg)
    {
      var kind := ClassifyLine(line);
      if followUp || Passes(cfg.filter, kind) {
        return Some(Carried(line, kind, Source(line)));
      }
      c := Unwrap(line, cfg);
    }

    method Proceed(line: string, followUp: bool, cfg: Config, w: World) returns (handed: Option<Handed>)
      requires Valid()
      modifies owed`list, owed.slots, rate.slots
      ensures Valid() && Outcome(Now(), handed) == Gate(old(Now()), line, followUp, cfg, w)
    {
      var c := Pick(line, followUp, cfg);
      if c.None? {
        return None;
      }
      var ok := Admit(c.value, followUp, cfg, w);
      if !ok {
        return None;
      }
      handed := Send(c.value, followUp, cfg, w);
    }

    method Handle(line: string, cfg: Config, w: World) returns (handed: Option<Handed>)
      requires Valid()
      modifies owed`list, owed.slots, rate.slots
      ensures Valid() && Outcome(Now(), handed) == Step(old(Now()), line, cfg, w)
    {
      hide Gate, Barred, TooFar;
      if !cfg.inet2rf {
        return None;
      }
      var refused := Refused(line, cfg);
      if refused {
        return None;
      }
      var followUp := false;
      if Qualifies(ClassifyLine(line)) {
        followUp := owed.TakeCall(Source(line));
      }
      if !followUp && TooFar(line, cfg, w) {
        return None;
      }
      handed := Proceed(line, followUp, cfg, w);
    }
  }

  function Start(): State {
    State([], seq(Rate.RING_SIZE, _ => Rate.Slot("", 0)))
  }
}
