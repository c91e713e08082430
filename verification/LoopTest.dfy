/** Who may use the transmitter: the claim shared by the three audio diagnostics,
    the transmit gate, the LOOP TEST's exclusive ownership, and the modem's transmit
    ring draining underneath. Every step of every task is one transition. */
module LoopTest {
  import opened Common

  type Task = nat

  /** A frame in the transmit ring: the task that queued it, and whether the LOOP
      TEST did so. */
  datatype Frame = Frame(sender: Task, test: bool)

  /** The modulator: idle, clocking a frame out, or sending the tail flags of a frame
      that has already left the ring. */
  datatype Air = Off | Sending(frame: Frame) | Tail(frame: Frame)

  /** Where a task is inside the ordinary transmit path. */
  datatype Send = NotSending | AtGate | Allowed | Queued

  /** Program points of the LOOP TEST. */
  datatype Stage =
    | Claimed | Ready | Gated | Owning | Draining | DepthSeen | Drained | Hooked
    | Inhibited | Running | Unhooked | Restored | Lifted | Disowned | TimedOut

  datatype Act = Free | RxLevel | TxTest | Loop(stage: Stage)

  datatype State = State(
    acts: seq<Act>, sends: seq<Send>,
    active: bool, gate: Option<Task>, owner: Option<Task>,
    ring: seq<Frame>, air: Air, keyed: bool,
    inhibit: bool, fullDuplex: bool, hook: bool)

  /** Steps of the ordinary transmit path. */
  datatype SendStep = Take | Refused | Granted | Queue(ok: bool) | Give

  datatype ModemStep = KeyUp | Retire | KeyDown | TimeOut

  /** Steps shared by the three diagnostics: claiming, and ending the two short ones. */
  datatype DiagStep = Claim(what: Act) | FinishRx | FinishTx

  /** The LOOP TEST up to the moment the transmitter is idle and its own. */
  datatype EntryStep =
    NotStarted | Prepared | TakeGate | SetOwner | GiveGate | ReadDepth | ReadTransmit | GiveUp | GaveUp

  /** The LOOP TEST proper: configuring, and putting everything back. */
  datatype TestStep =
    SetHook | SetInhibit | SetDuplex | ClearHook | Restore(changed: bool) | LiftInhibit | Disown | Release

  datatype Step =
    | Sender(t: Task, send: SendStep)
    | Modem(modem: ModemStep)
    | Diag(t: Task, diag: DiagStep)
    | Entry(t: Task, entry: EntryStep)
    | Test(t: Task, test: TestStep)
    | Reapply(t: Task, changed: bool)

  predicate AtStage(s: State, t: Task, stage: Stage) {
    t < |s.acts| && s.acts[t] == Loop(stage)
  }

  predicate SendingAt(s: State, t: Task, send: Send) {
    t < |s.sends| && t < |s.acts| && s.sends[t] == send
  }

  predicate SendEnabled(s: State, t: Task, step: SendStep) {
    match step
    case Take => SendingAt(s, t, NotSending) && s.gate == None && s.acts[t] in {Free, TxTest, Loop(Running)}
    case Refused => SendingAt(s, t, AtGate) && s.owner.Some? && s.owner != Some(t)
    case Granted => SendingAt(s, t, AtGate) && (s.owner.None? || s.owner == Some(t))
    case Queue(_) => SendingAt(s, t, Allowed)
    case Give => SendingAt(s, t, Queued)
  }

  predicate ModemEnabled(s: State, step: ModemStep) {
    match step
    case KeyUp => s.air.Off? && s.ring != []
    case Retire => s.air.Sending? && s.ring != []
    case KeyDown => s.air.Tail?
    case TimeOut => !s.air.Off?
  }

  predicate DiagEnabled(s: State, t: Task, step: DiagStep) {
    match step
    case Claim(what) =>
      SendingAt(s, t, NotSending) && s.acts[t].Free? && !s.active && what in {RxLevel, TxTest, Loop(Claimed)}
    case FinishRx => t < |s.acts| && s.acts[t].RxLevel?
    case FinishTx => SendingAt(s, t, NotSending) && s.acts[t].TxTest?
  }

  predicate EntryEnabled(s: State, t: Task, step: EntryStep) {
    match step
    case NotStarted => AtStage(s, t, Claimed)
    case Prepared => AtStage(s, t, Claimed)
    case TakeGate => AtStage(s, t, Ready) && s.gate == None
    case SetOwner => AtStage(s, t, Gated)
    case GiveGate => AtStage(s, t, Owning)
    case ReadDepth => AtStage(s, t, Draining)
    case ReadTransmit => AtStage(s, t, DepthSeen)
    case GiveUp => AtStage(s, t, Draining)
    case GaveUp => AtStage(s, t, TimedOut)
  }

  predicate TestEnabled(s: State, t: Task, step: TestStep) {
    match step
    case SetHook => AtStage(s, t, Drained)
    case SetInhibit => AtStage(s, t, Hooked)
    case SetDuplex => AtStage(s, t, Inhibited)
    case ClearHook => AtStage(s, t, Running) && SendingAt(s, t, NotSending)
    case Restore(_) => AtStage(s, t, Unhooked)
    case LiftInhibit => AtStage(s, t, Restored)
    case Disown => AtStage(s, t, Lifted)
    case Release => AtStage(s, t, Disowned)
  }

  /** The step is one the task executes next. */
  predicate Enabled(s: State, step: Step) {
    match step
    case Sender(t, x) => SendEnabled(s, t, x)
    case Modem(x) => ModemEnabled(s, x)
    case Diag(t, x) => DiagEnabled(s, t, x)
    case Entry(t, x) => EntryEnabled(s, t, x)
    case Test(t, x) => TestEnabled(s, t, x)
    case Reapply(t, _) => SendingAt(s, t, NotSending) && s.acts[t].Free? && !LoopTestRunning(s)
  }

  /** The page that saves the modem settings and the page that runs the test are handlers
      of one web server task, so settings are never applied inside a test. */
  predicate LoopTestRunning(s: State) {
    exists u: Task :: u < |s.acts| && s.acts[u].Loop?
  }

  function At(s: State, t: Task, act: Act): State
    requires t < |s.acts|
  {
    s.(acts := s.acts[t := act])
  }

  function Sends(s: State, t: Task, send: Send): State
    requires t < |s.sends|
  {
    s.(sends := s.sends[t := send])
  }

  /** Reconfiguring the modem. Only a change of a receive-chain setting rebuilds the
      chain, which first waits for the transmitter to go idle and drops the ring. */
  function SetModem(s: State, duplex: bool, changed: bool): State {
    if duplex != s.fullDuplex || changed
    then s.(ring := [], air := Off, keyed := false, fullDuplex := duplex)
    else s
  }

  function SendApply(s: State, t: Task, step: SendStep): State
    requires SendEnabled(s, t, step)
  {
    match step
    case Take => Sends(s, t, AtGate).(gate := Some(t))
    case Refused => Sends(s, t, NotSending).(gate := None)
    case Granted => Sends(s, t, Allowed)
    case Queue(ok) =>
      Sends(s, t, Queued).(ring := if ok then s.ring + [Frame(t, s.acts[t].Loop?)] else s.ring)
    case Give => Sends(s, t, NotSending).(gate := None)
  }

  function ModemApply(s: State, step: ModemStep): State
    requires ModemEnabled(s, step)
  {
    match step
    case KeyUp => s.(air := Sending(s.ring[0]), keyed := !s.inhibit)
    case Retire => s.(air := Tail(s.air.frame), ring := s.ring[1..])
    case KeyDown => s.(air := Off, keyed := false)
    case TimeOut => s.(air := Off, keyed := false, ring := [])
  }

  function DiagApply(s: State, t: Task, step: DiagStep): State
    requires DiagEnabled(s, t, step)
  {
    match step
    case Claim(what) => At(s, t, what).(active := true)
    case FinishRx => At(s, t, Free).(active := false)
    case FinishTx => At(s, t, Free).(active := false)
  }

  function EntryApply(s: State, t: Task, step: EntryStep): State
    requires EntryEnabled(s, t, step)
  {
    match step
    case NotStarted => At(s, t, Free).(active := false)
    case Prepared => At(s, t, Loop(Ready))
    case TakeGate => At(s, t, Loop(Gated)).(gate := Some(t))
    case SetOwner => At(s, t, Loop(Owning)).(owner := Some(t))
    case GiveGate => At(s, t, Loop(Draining)).(gate := None)
    case ReadDepth => if s.ring == [] then At(s, t, Loop(DepthSeen)) else s
    case ReadTransmit => At(s, t, Loop(if s.air.Off? then Drained else Draining))
    case GiveUp => At(s, t, Loop(TimedOut)).(owner := None)
    case GaveUp => At(s, t, Free).(active := false)
  }

  function TestApply(s: State, t: Task, step: TestStep): State
    requires TestEnabled(s, t, step)
  {
    match step
    case SetHook => At(s, t, Loop(Hooked)).(hook := true)
    case SetInhibit => At(s, t, Loop(Inhibited)).(inhibit := true, keyed := false)
    case SetDuplex => At(SetModem(s, true, false), t, Loop(Running))
    case ClearHook => At(s, t, Loop(Unhooked)).(hook := false)
    case Restore(changed) => At(SetModem(s, false, changed), t, Loop(Restored))
    case LiftInhibit => At(s, t, Loop(Lifted)).(inhibit := false)
    case Disown => At(s, t, Loop(Disowned)).(owner := None)
    case Release => At(s, t, Free).(active := false)
  }

  function Apply(s: State, step: Step): State
    requires Enabled(s, step)
  {
    match step
    case Sender(t, x) => SendApply(s, t, x)
    case Modem(x) => ModemApply(s, x)
    case Diag(t, x) => DiagApply(s, t, x)
    case Entry(t, x) => EntryApply(s, t, x)
    case Test(t, x) => TestApply(s, t, x)
    case Reapply(_, changed) => SetModem(s, false, changed)
  }

  function Init(tasks: nat): State {
    State(seq(tasks, _ => Free), seq(tasks, _ => NotSending), false, None, None, [], Off, false, false, false, false)
  }

  predicate Runs(s: State, steps: seq<Step>)
    decreases |steps|
  {
    steps == [] || (Enabled(s, steps[0]) && Runs(Apply(s, steps[0]), steps[1..]))
  }

  function Final(s: State, steps: seq<Step>): State
    requires Runs(s, steps)
    decreases |steps|
  {
    if steps == [] then s else Final(Apply(s, steps[0]), steps[1..])
  }

  // ---- The inductive invariant ----

  predicate Owns(a: Act) {
    a.Loop? && a.stage in {Owning, Draining, DepthSeen, Drained, Hooked, Inhibited, Running, Unhooked, Restored, Lifted}
  }

  predicate Inhibits(a: Act) {
    a.Loop? && a.stage in {Inhibited, Running, Unhooked, Restored}
  }

  predicate FullDuplex(a: Act) {
    a.Loop? && a.stage in {Running, Unhooked}
  }

  predicate Hooks(a: Act) {
    a.Loop? && a.stage in {Hooked, Inhibited, Running}
  }

  predicate RingEmptyAt(a: Act) {
    a.Loop? && a.stage in {DepthSeen, Drained, Hooked, Inhibited, Restored, Lifted}
  }

  predicate SilentAt(a: Act) {
    a.Loop? && a.stage in {Drained, Hooked, Inhibited, Restored, Lifted}
  }

  predicate HoldsGate(s: State, t: Task)
    requires t < |s.acts| == |s.sends|
  {
    s.sends[t] != NotSending || s.acts[t] == Loop(Gated) || s.acts[t] == Loop(Owning)
  }

  ghost predicate TestFree(s: State) {
    && (forall i :: 0 <= i < |s.ring| ==> !s.ring[i].test)
    && (!s.air.Off? ==> !s.air.frame.test)
  }

  ghost predicate OnlyFrom(s: State, t: Task) {
    && (forall i :: 0 <= i < |s.ring| ==> s.ring[i] == Frame(t, true))
    && (!s.air.Off? ==> s.air.frame == Frame(t, true))
  }

  ghost predicate ClaimInv(s: State) {
    && |s.acts| == |s.sends|
    && (forall t: Task :: t < |s.acts| && s.acts[t] != Free ==> s.active)
    && (forall t: Task, u: Task ::
          t < |s.acts| && u < |s.acts| && s.acts[t] != Free && s.acts[u] != Free ==> t == u)
    && (s.active ==> exists t: Task :: t < |s.acts| && s.acts[t] != Free)
  }

  ghost predicate GateInv(s: State)
    requires |s.acts| == |s.sends|
  {
    && (forall t: Task :: t < |s.acts| ==> (HoldsGate(s, t) <==> s.gate == Some(t)))
    && (forall t: Task :: t < |s.acts| && s.sends[t] != NotSending ==> s.acts[t] in {Free, TxTest, Loop(Running)})
    && (forall t: Task :: t < |s.acts| && s.sends[t] in {Allowed, Queued} ==> s.owner.None? || s.owner == Some(t))
    && (s.gate.Some? ==> s.gate.value < |s.acts|)
  }

  ghost predicate OwnerInv(s: State) {
    && (forall t: Task :: t < |s.acts| ==> (Owns(s.acts[t]) <==> s.owner == Some(t)))
    && (s.owner.Some? ==> s.owner.value < |s.acts|)
    && (s.inhibit <==> s.owner.Some? && Inhibits(s.acts[s.owner.value]))
    && (s.fullDuplex <==> s.owner.Some? && FullDuplex(s.acts[s.owner.value]))
    && (s.hook <==> s.owner.Some? && Hooks(s.acts[s.owner.value]))
  }

  ghost predicate RingInv(s: State) {
    && (s.air.Sending? ==> s.ring != [] && s.ring[0] == s.air.frame)
    && (s.keyed <==> !s.air.Off? && !s.inhibit)
    && (if s.owner.Some? && s.owner.value < |s.acts| && FullDuplex(s.acts[s.owner.value])
        then OnlyFrom(s, s.owner.value) else TestFree(s))
    && (forall t: Task :: t < |s.acts| && RingEmptyAt(s.acts[t]) ==> s.ring == [])
    && (forall t: Task :: t < |s.acts| && SilentAt(s.acts[t]) ==> s.air.Off?)
  }

  ghost predicate Inv(s: State) {
    ClaimInv(s) && GateInv(s) && OwnerInv(s) && RingInv(s)
  }

  lemma SendHolder(s: State, t: Task, step: SendStep, u: Task)
    requires Inv(s) && SendEnabled(s, t, step) && u < |s.acts|
    ensures var s' := SendApply(s, t, step);
            && s'.acts == s.acts && s'.active == s.active && s'.owner == s.owner && |s'.sends| == |s.sends|
            && (s'.gate.Some? ==> s'.gate.value < |s.acts|)
            && (HoldsGate(s', u) <==> s'.gate == Some(u))
            && (s'.sends[u] != NotSending ==> s'.acts[u] in {Free, TxTest, Loop(Running)})
            && (s'.sends[u] in {Allowed, Queued} ==> s'.owner.None? || s'.owner == Some(u))
  {
    assert |s.acts| == |s.sends|;
    hide ClaimInv, OwnerInv, RingInv;
    assert HoldsGate(s, t) <==> s.gate == Some(t);
    assert HoldsGate(s, u) <==> s.gate == Some(u);
    match step
    case Take =>
    case Refused =>
    case Granted =>
    case Queue(_) =>
    case Give =>
  }

  lemma SendKeepsClaim(s: State, t: Task, step: SendStep)
    requires Inv(s) && SendEnabled(s, t, step)
    ensures ClaimInv(SendApply(s, t, step))
  {
    hide GateInv, OwnerInv, RingInv;
    match step
    case Take =>
    case Refused =>
    case Granted =>
    case Queue(_) =>
    case Give =>
  }

  lemma SendKeepsGate(s: State, t: Task, step: SendStep)
    requires Inv(s) && SendEnabled(s, t, step)
    ensures |SendApply(s, t, step).acts| == |SendApply(s, t, step).sends| && GateInv(SendApply(s, t, step))
  {
    assert |s.acts| == |s.sends| && t < |s.acts|;
    hide ClaimInv, OwnerInv, RingInv, HoldsGate, SendApply, SendEnabled;
    var s' := SendApply(s, t, step);
    SendHolder(s, t, step, t);
    forall u: Task | u < |s.acts|
      ensures HoldsGate(s', u) <==> s'.gate == Some(u)
      ensures s'.sends[u] != NotSending ==> s'.acts[u] in {Free, TxTest, Loop(Running)}
      ensures s'.sends[u] in {Allowed, Queued} ==> s'.owner.None? || s'.owner == Some(u)
    {
      SendHolder(s, t, step, u);
    }
  }

  lemma SendKeepsRing(s: State, t: Task, step: SendStep)
    requires Inv(s) && SendEnabled(s, t, step)
    ensures OwnerInv(SendApply(s, t, step)) && RingInv(SendApply(s, t, step))
  {
    match step
    case Take =>
    case Refused =>
    case Granted =>
    case Queue(_) =>
    case Give =>
  }

  lemma ModemKeeps(s: State, step: ModemStep)
    requires Inv(s) && ModemEnabled(s, step)
    ensures Inv(ModemApply(s, step))
  {
    match step
    case KeyUp =>
    case Retire =>
    case KeyDown =>
    case TimeOut =>
  }

  lemma DiagKeepsAccess(s: State, t: Task, step: DiagStep)
    requires Inv(s) && DiagEnabled(s, t, step)
    ensures ClaimInv(DiagApply(s, t, step)) && GateInv(DiagApply(s, t, step))
  {
    var s' := DiagApply(s, t, step);
    assert step.Claim? ==> s'.acts[t] != Free;
  }

  lemma DiagKeepsRing(s: State, t: Task, step: DiagStep)
    requires Inv(s) && DiagEnabled(s, t, step)
    ensures OwnerInv(DiagApply(s, t, step)) && RingInv(DiagApply(s, t, step))
  {
  }

  lemma EntryKeepsClaim(s: State, t: Task, step: EntryStep)
    requires Inv(s) && EntryEnabled(s, t, step)
    ensures ClaimInv(EntryApply(s, t, step))
  {
    hide GateInv, OwnerInv, RingInv;
    var s' := EntryApply(s, t, step);
    assert s'.acts[t] != Free || !s'.active;
    assert forall u: Task :: u < |s.acts| && u != t ==> s'.acts[u] == s.acts[u];
  }

  lemma EntryHolder(s: State, t: Task, step: EntryStep, u: Task)
    requires Inv(s) && EntryEnabled(s, t, step) && u < |s.acts|
    ensures var s' := EntryApply(s, t, step);
            && |s'.acts| == |s.acts| && s'.sends == s.sends && s.sends[t] == NotSending
            && (u != t ==> s'.acts[u] == s.acts[u])
            && (HoldsGate(s', u) <==> s'.gate == Some(u))
  {
    assert |s.acts| == |s.sends|;
    hide ClaimInv, OwnerInv, RingInv;
    assert HoldsGate(s, t) <==> s.gate == Some(t);
    assert HoldsGate(s, u) <==> s.gate == Some(u);
    match step
    case NotStarted =>
    case Prepared =>
    case TakeGate =>
    case SetOwner =>
    case GiveGate =>
    case ReadDepth =>
    case ReadTransmit =>
    case GiveUp =>
    case GaveUp =>
  }

  /** A task between taking and giving the gate back is the only one that holds it. */
  lemma GatedHolds(s: State, t: Task)
    requires Inv(s) && AtStage(s, t, Gated)
    ensures forall u: Task :: u < |s.acts| && u != t ==> s.sends[u] == NotSending
  {
    assert |s.acts| == |s.sends|;
    hide ClaimInv, OwnerInv, RingInv;
    assert HoldsGate(s, t);
    assert forall u: Task :: u < |s.acts| && u != t ==> !HoldsGate(s, u);
  }

  lemma EntryKeepsGate(s: State, t: Task, step: EntryStep)
    requires Inv(s) && EntryEnabled(s, t, step)
    ensures |EntryApply(s, t, step).acts| == |s.acts| && GateInv(EntryApply(s, t, step))
  {
    assert |s.acts| == |s.sends|;
    hide ClaimInv, OwnerInv, RingInv, HoldsGate;
    var s' := EntryApply(s, t, step);
    EntryHolder(s, t, step, t);
    forall u: Task | u < |s.acts|
      ensures HoldsGate(s', u) <==> s'.gate == Some(u)
      ensures u != t ==> s'.acts[u] == s.acts[u]
    {
      EntryHolder(s, t, step, u);
    }
    if step.SetOwner? {
      GatedHolds(s, t);
    }
  }

  lemma EntryKeepsOwner(s: State, t: Task, step: EntryStep)
    requires Inv(s) && EntryEnabled(s, t, step)
    ensures OwnerInv(EntryApply(s, t, step))
  {
    hide GateInv, RingInv;
    match step
    case NotStarted =>
    case Prepared =>
    case TakeGate =>
    case SetOwner =>
    case GiveGate =>
    case ReadDepth =>
    case ReadTransmit =>
    case GiveUp =>
    case GaveUp =>
  }

  lemma EntryKeepsRing(s: State, t: Task, step: EntryStep)
    requires Inv(s) && EntryEnabled(s, t, step)
    ensures RingInv(EntryApply(s, t, step))
  {
    hide GateInv;
    match step
    case NotStarted =>
    case Prepared =>
    case TakeGate =>
    case SetOwner =>
    case GiveGate =>
    case ReadDepth =>
    case ReadTransmit =>
    case GiveUp =>
    case GaveUp =>
  }

  lemma TestKeepsClaim(s: State, t: Task, step: TestStep)
    requires Inv(s) && TestEnabled(s, t, step)
    ensures ClaimInv(TestApply(s, t, step))
  {
    var s' := TestApply(s, t, step);
    assert s'.acts[t] != Free || !s'.active;
    match step
    case SetHook =>
    case SetInhibit =>
    case SetDuplex =>
    case ClearHook =>
    case Restore(_) =>
    case LiftInhibit =>
    case Disown =>
    case Release =>
  }

  lemma TestMovesOn(s: State, t: Task, step: TestStep)
    requires Inv(s) && TestEnabled(s, t, step)
    ensures var s' := TestApply(s, t, step);
            && s'.acts == s.acts[t := s'.acts[t]] && s'.sends == s.sends && s'.gate == s.gate
            && (s'.owner == s.owner || s'.owner.None?)
            && s.acts[t] !in {Loop(Gated), Loop(Owning)} && s'.acts[t] !in {Loop(Gated), Loop(Owning)}
            && (s'.acts[t] in {Free, Loop(Running)} || s.acts[t] !in {Free, TxTest, Loop(Running)} || step.ClearHook?)
  {
    hide ClaimInv, GateInv, OwnerInv, RingInv;
    match step
    case SetHook =>
    case SetInhibit =>
    case SetDuplex =>
    case ClearHook =>
    case Restore(_) =>
    case LiftInhibit =>
    case Disown =>
    case Release =>
  }

  lemma TestHolder(s: State, t: Task, step: TestStep, u: Task)
    requires Inv(s) && TestEnabled(s, t, step) && u < |s.acts|
    ensures var s' := TestApply(s, t, step);
            && |s'.acts| == |s.acts| == |s'.sends|
            && (s'.sends[u] != NotSending ==> s'.acts[u] in {Free, TxTest, Loop(Running)})
            && (HoldsGate(s', u) <==> s'.gate == Some(u))
  {
    assert |s.acts| == |s.sends|;
    hide ClaimInv, OwnerInv, RingInv, TestApply;
    TestMovesOn(s, t, step);
    assert HoldsGate(s, u) <==> s.gate == Some(u);
  }

  lemma TestKeepsGate(s: State, t: Task, step: TestStep)
    requires Inv(s) && TestEnabled(s, t, step)
    ensures GateInv(TestApply(s, t, step))
  {
    assert |s.acts| == |s.sends|;
    hide ClaimInv, OwnerInv, RingInv, HoldsGate, TestApply;
    var s' := TestApply(s, t, step);
    TestMovesOn(s, t, step);
    forall u: Task | u < |s.acts|
      ensures HoldsGate(s', u) <==> s'.gate == Some(u)
      ensures s'.sends[u] != NotSending ==> s'.acts[u] in {Free, TxTest, Loop(Running)}
    {
      TestHolder(s, t, step, u);
    }
  }

  lemma TestKeepsOwner(s: State, t: Task, step: TestStep)
    requires Inv(s) && TestEnabled(s, t, step)
    ensures OwnerInv(TestApply(s, t, step))
  {
    hide GateInv, RingInv;
    match step
    case SetHook =>
    case SetInhibit =>
    case SetDuplex =>
    case ClearHook =>
    case Restore(_) =>
    case LiftInhibit =>
    case Disown =>
    case Release =>
  }

  lemma TestKeepsRing(s: State, t: Task, step: TestStep)
    requires Inv(s) && TestEnabled(s, t, step)
    ensures RingInv(TestApply(s, t, step))
  {
    match step
    case SetHook =>
    case SetInhibit =>
    case SetDuplex =>
    case ClearHook =>
    case Restore(_) =>
    case LiftInhibit =>
    case Disown =>
    case Release =>
  }

  lemma ReapplyKeeps(s: State, changed: bool)
    requires Inv(s) && !LoopTestRunning(s)
    ensures Inv(SetModem(s, false, changed))
  {
  }

  lemma StepKeepsInv(s: State, step: Step)
    requires Inv(s) && Enabled(s, step)
    ensures Inv(Apply(s, step))
  {
    match step {
      case Sender(t, x) => SendKeepsClaim(s, t, x); SendKeepsGate(s, t, x); SendKeepsRing(s, t, x);
      case Modem(x) => ModemKeeps(s, x);
      case Diag(t, x) => DiagKeepsAccess(s, t, x); DiagKeepsRing(s, t, x);
      case Entry(t, x) =>
        EntryKeepsClaim(s, t, x);
        EntryKeepsGate(s, t, x);
        EntryKeepsOwner(s, t, x);
        EntryKeepsRing(s, t, x);
      case Test(t, x) =>
        TestKeepsClaim(s, t, x);
        TestKeepsGate(s, t, x);
        TestKeepsOwner(s, t, x);
        TestKeepsRing(s, t, x);
      case Reapply(_, changed) => ReapplyKeeps(s, changed);
    }
  }

  lemma {:induction false} RunKeepsInv(s: State, steps: seq<Step>)
    requires Inv(s) && Runs(s, steps)
    ensures Inv(Final(s, steps))
    decreases |steps|
  {
    if steps != [] {
      StepKeepsInv(s, steps[0]);
      RunKeepsInv(Apply(s, steps[0]), steps[1..]);
    }
  }

  // ---- What holds in every reachable state ----

  /** While PTT is inhibited or the modem is in full duplex, one task owns the
      transmitter from inside a LOOP TEST and every frame in the ring or on the
      modulator is its own test frame. */
  lemma TransmitterIsExclusive(tasks: nat, steps: seq<Step>)
    requires Runs(Init(tasks), steps)
    ensures var s := Final(Init(tasks), steps);
            s.inhibit || s.fullDuplex ==>
              s.owner.Some? && s.owner.value < |s.acts| && s.acts[s.owner.value].Loop? && OnlyFrom(s, s.owner.value)
  {
    RunKeepsInv(Init(tasks), steps);
  }

  /** The PTT line is active exactly under real traffic: no test frame is keyed, and no
      other frame goes out without it. */
  lemma TestFrameNeverKeyed(tasks: nat, steps: seq<Step>)
    requires Runs(Init(tasks), steps)
    ensures var s := Final(Init(tasks), steps);
            s.keyed <==> !s.air.Off? && !s.air.frame.test
  {
    RunKeepsInv(Init(tasks), steps);
  }

  /** At most one diagnostic runs at a time, and the claim is held exactly while one
      does; when none does, every path out has also given back the transmitter, the
      inhibit, the duplex mode and the receive hook. */
  lemma ClaimIsExclusiveAndReleased(tasks: nat, steps: seq<Step>)
    requires Runs(Init(tasks), steps)
    ensures var s := Final(Init(tasks), steps);
            && (forall t: Task, u: Task ::
                  t < |s.acts| && u < |s.acts| && s.acts[t] != Free && s.acts[u] != Free ==> t == u)
            && (s.active <==> exists t: Task :: t < |s.acts| && s.acts[t] != Free)
            && (!s.active ==> s.owner.None? && !s.inhibit && !s.fullDuplex && !s.hook)
  {
    RunKeepsInv(Init(tasks), steps);
  }

  /** Entering the test discards no frame: the traffic queued before the claim has
      gone out. Leaving it discards nothing but test frames. */
  lemma RealTrafficIsNotSwallowed(tasks: nat, steps: seq<Step>, step: Step)
    requires Runs(Init(tasks), steps)
    requires Enabled(Final(Init(tasks), steps), step)
    ensures var s := Final(Init(tasks), steps);
            && (step.Test? && step.test.SetDuplex? ==> s.ring == [] && s.air.Off?)
            && (step.Test? && step.test.Restore? ==> OnlyFrom(s, step.t))
            && (step.Test? && step.test.LiftInhibit? ==> s.ring == [] && s.air.Off?)
  {
    RunKeepsInv(Init(tasks), steps);
  }

  /** The running test gets its own frame through the gate that refuses everybody else's. */
  lemma OwnFrameGranted(tasks: nat, steps: seq<Step>, t: Task)
    requires Runs(Init(tasks), steps)
    ensures var s := Final(Init(tasks), steps);
            SendingAt(s, t, AtGate) && s.acts[t].Loop? ==>
              && Enabled(s, Sender(t, Granted)) && !Enabled(s, Sender(t, Refused))
              && forall u: Task :: u != t && SendingAt(s, u, AtGate) ==> !Enabled(s, Sender(u, Granted))
  {
    RunKeepsInv(Init(tasks), steps);
  }

  lemma AllowedIsTest(s: State, t: Task)
    requires Inv(s) && SendingAt(s, t, Allowed)
    ensures s.acts[t].Loop? <==> s.owner == Some(t) && s.inhibit
  {
    hide ClaimInv, RingInv, HoldsGate;
  }

  /** Once through the gate the frame is queued last, as a test frame when the sender is
      running the test and as real traffic otherwise. */
  lemma QueuedLast(tasks: nat, steps: seq<Step>, t: Task)
    requires Runs(Init(tasks), steps)
    ensures var s := Final(Init(tasks), steps);
            SendingAt(s, t, Allowed) ==>
              var ring := Apply(s, Sender(t, Queue(true))).ring;
              ring != [] && ring[..|ring| - 1] == s.ring
              && ring[|ring| - 1] == Frame(t, s.owner == Some(t) && s.inhibit)
  {
    var s := Final(Init(tasks), steps);
    RunKeepsInv(Init(tasks), steps);
    if SendingAt(s, t, Allowed) {
      AllowedIsTest(s, t);
    }
  }

  /** At the gate a task is refused exactly while another task owns the transmitter, and
      let through exactly when none does. */
  lemma RefusedByOwner(s: State, t: Task)
    requires SendingAt(s, t, AtGate)
    ensures Enabled(s, Sender(t, Refused)) <==> exists u: Task :: u != t && s.owner == Some(u)
    ensures Enabled(s, Sender(t, Granted)) <==> forall u: Task :: s.owner == Some(u) ==> u == t
  {
    if s.owner.Some? {
      assert s.owner == Some(s.owner.value);
    }
  }

  function StepQueues(s: State, step: Step): seq<Frame>
    requires Enabled(s, step)
  {
    match step
    case Sender(t, Queue(ok)) => if ok then [Frame(t, s.acts[t].Loop?)] else []
    case _ => []
  }

  function StepSends(s: State, step: Step): seq<Frame>
    requires Enabled(s, step)
  {
    match step
    case Modem(Retire) => if s.air.Sending? then [s.air.frame] else []
    case _ => []
  }

  /** The frames a run puts into the ring, in order, each with the task that sent it and
      whether that task was running the test. */
  function QueuedBy(s: State, steps: seq<Step>): seq<Frame>
    requires Runs(s, steps)
    decreases |steps|
  {
    if steps == [] then [] else StepQueues(s, steps[0]) + QueuedBy(Apply(s, steps[0]), steps[1..])
  }

  /** The frames a run sends to their end, in order. */
  function SentBy(s: State, steps: seq<Step>): seq<Frame>
    requires Runs(s, steps)
    decreases |steps|
  {
    if steps == [] then [] else StepSends(s, steps[0]) + SentBy(Apply(s, steps[0]), steps[1..])
  }

  /** The modem times out or rebuilds its receive chain, and drops what it holds. */
  predicate Drops(step: Step) {
    match step
    case Modem(x) => x.TimeOut?
    case Test(_, x) => x.Restore?
    case Reapply(_, changed) => changed
    case _ => false
  }

  predicate NeverDrops(s: State, steps: seq<Step>)
    requires Runs(s, steps)
    decreases |steps|
  {
    steps == [] || (!Drops(steps[0]) && NeverDrops(Apply(s, steps[0]), steps[1..]))
  }

  lemma ModemMoves(s: State, step: ModemStep)
    requires Inv(s) && ModemEnabled(s, step) && !step.TimeOut?
    ensures s.ring == (if step.Retire? then [s.air.frame] else []) + ModemApply(s, step).ring
  {
    hide ClaimInv, GateInv, OwnerInv;
  }

  lemma ReapplyMoves(s: State)
    requires Inv(s) && !LoopTestRunning(s)
    ensures SetModem(s, false, false) == s
  {
    hide ClaimInv, GateInv, RingInv;
  }

  lemma SendMoves(s: State, t: Task, step: SendStep)
    requires SendEnabled(s, t, step)
    ensures SendApply(s, t, step).ring == s.ring + StepQueues(s, Sender(t, step))
  {
    match step
    case Take =>
    case Refused =>
    case Granted =>
    case Queue(_) =>
    case Give =>
  }

  lemma EntryMoves(s: State, t: Task, step: EntryStep)
    requires EntryEnabled(s, t, step)
    ensures EntryApply(s, t, step).ring == s.ring
  {
    match step
    case TakeGate =>
    case SetOwner =>
    case GiveGate =>
    case ReadDepth =>
    case ReadTransmit =>
    case GiveUp =>
    case _ =>
  }

  lemma TestMoves(s: State, t: Task, step: TestStep)
    requires Inv(s) && TestEnabled(s, t, step) && !step.Restore?
    ensures TestApply(s, t, step).ring == s.ring
  {
    hide ClaimInv, GateInv, OwnerInv;
    match step
    case SetDuplex =>
    case SetInhibit =>
    case Disown =>
    case _ =>
  }

  lemma StepMoves(s: State, step: Step)
    requires Inv(s) && Enabled(s, step) && !Drops(step)
    ensures s.ring + StepQueues(s, step) == StepSends(s, step) + Apply(s, step).ring
  {
    hide Inv, LoopTestRunning, SetModem, SendApply, ModemApply, EntryApply, TestApply,
         SendEnabled, EntryEnabled, TestEnabled;
    match step {
      case Sender(t, x) => SendMoves(s, t, x);
      case Modem(x) => ModemMoves(s, x);
      case Diag(t, x) =>
      case Entry(t, x) => EntryMoves(s, t, x);
      case Test(t, x) => TestMoves(s, t, x);
      case Reapply(_, changed) => ReapplyMoves(s);
    }
  }

  lemma Requeue(ring: seq<Frame>, queued: seq<Frame>, more: seq<Frame>,
                sent: seq<Frame>, next: seq<Frame>, gone: seq<Frame>, left: seq<Frame>)
    requires ring + queued == sent + next && next + more == gone + left
    ensures ring + (queued + more) == (sent + gone) + left
  {
    assert ring + (queued + more) == (ring + queued) + more;
    assert (sent + next) + more == sent + (next + more);
    assert sent + (gone + left) == (sent + gone) + left;
  }

  /** What is in the ring and what comes into it is what goes out, in the same order, and
      what is still in it. */
  lemma {:induction false} FirstInFirstOut(s: State, steps: seq<Step>)
    requires Inv(s) && Runs(s, steps) && NeverDrops(s, steps)
    ensures s.ring + QueuedBy(s, steps) == SentBy(s, steps) + Final(s, steps).ring
    decreases |steps|
  {
    hide Inv, Enabled, Apply, Drops, StepQueues, StepSends;
    if steps != [] {
      var next := Apply(s, steps[0]);
      StepKeepsInv(s, steps[0]);
      StepMoves(s, steps[0]);
      FirstInFirstOut(next, steps[1..]);
      Requeue(s.ring, StepQueues(s, steps[0]), QueuedBy(next, steps[1..]),
              StepSends(s, steps[0]), next.ring, SentBy(next, steps[1..]), Final(s, steps).ring);
    }
  }

  // ---- A whole test ----

  lemma {:induction false} OneMore(s: State, steps: seq<Step>, step: Step)
    requires Runs(s, steps) && Enabled(Final(s, steps), step)
    ensures Runs(s, steps + [step]) && Final(s, steps + [step]) == Apply(Final(s, steps), step)
    decreases |steps|
  {
    hide Enabled, Apply;
    if steps == [] {
      assert [step][1..] == [];
    } else {
      OneMore(Apply(s, steps[0]), steps[1..], step);
      assert (steps + [step])[1..] == steps[1..] + [step];
    }
  }

  /** One more step, from the state a run has reached. */
  lemma Extend(tasks: nat, steps: seq<Step>, step: Step) returns (more: seq<Step>)
    requires Runs(Init(tasks), steps) && Enabled(Final(Init(tasks), steps), step)
    ensures Runs(Init(tasks), more) && Final(Init(tasks), more) == Apply(Final(Init(tasks), steps), step)
    ensures more == steps + [step]
  {
    OneMore(Init(tasks), steps, step);
    more := steps + [step];
  }

  /** Only task t is not idle, and nothing is on the air. */
  predicate Alone(s: State, tasks: nat, t: Task, act: Act, send: Send) {
    && t < tasks && |s.acts| == |s.sends| == tasks && s.acts[t] == act && s.sends[t] == send
    && (forall u: Task :: u < tasks && u != t ==> s.acts[u] == Free && s.sends[u] == NotSending)
    && s.air.Off? && !s.keyed
  }

  lemma TestClaims(tasks: nat, t: Task) returns (steps: seq<Step>)
    requires t < tasks
    ensures Runs(Init(tasks), steps)
    ensures var s := Final(Init(tasks), steps);
            && Alone(s, tasks, t, Loop(Gated), NotSending) && s.active && s.owner == None && s.gate == Some(t)
            && s.ring == [] && !s.inhibit && !s.fullDuplex && !s.hook
  {
    steps := Extend(tasks, [], Diag(t, Claim(Loop(Claimed))));
    steps := Extend(tasks, steps, Entry(t, Prepared));
    steps := Extend(tasks, steps, Entry(t, TakeGate));
  }

  lemma TestEnters(tasks: nat, t: Task) returns (steps: seq<Step>)
    requires t < tasks
    ensures Runs(Init(tasks), steps)
    ensures var s := Final(Init(tasks), steps);
            && Alone(s, tasks, t, Loop(Drained), NotSending) && s.active && s.owner == Some(t) && s.gate == None
            && s.ring == [] && !s.inhibit && !s.fullDuplex && !s.hook
  {
    steps := TestClaims(tasks, t);
    steps := Extend(tasks, steps, Entry(t, SetOwner));
    steps := Extend(tasks, steps, Entry(t, GiveGate));
    steps := Extend(tasks, steps, Entry(t, ReadDepth));
    steps := Extend(tasks, steps, Entry(t, ReadTransmit));
  }

  /** A test can be run: in full duplex with PTT inhibited its frame, and no other, is in
      the ring. */
  lemma TestSends(tasks: nat, t: Task) returns (steps: seq<Step>)
    requires t < tasks
    ensures Runs(Init(tasks), steps)
    ensures var s := Final(Init(tasks), steps);
            && Alone(s, tasks, t, Loop(Running), Queued) && s.active && s.owner == Some(t) && s.gate == Some(t)
            && s.ring == [Frame(t, true)] && s.inhibit && s.fullDuplex && s.hook
  {
    steps := TestEnters(tasks, t);
    steps := Extend(tasks, steps, Test(t, SetHook));
    steps := Extend(tasks, steps, Test(t, SetInhibit));
    steps := Extend(tasks, steps, Test(t, SetDuplex));
    steps := Extend(tasks, steps, Sender(t, Take));
    steps := Extend(tasks, steps, Sender(t, Granted));
    steps := Extend(tasks, steps, Sender(t, Queue(true)));
  }

  lemma TestAired(tasks: nat, t: Task) returns (steps: seq<Step>)
    requires t < tasks
    ensures Runs(Init(tasks), steps)
    ensures var s := Final(Init(tasks), steps);
            && Alone(s, tasks, t, Loop(Running), NotSending) && s.active && s.owner == Some(t) && s.gate == None
            && s.ring == [] && s.inhibit && s.fullDuplex && s.hook
  {
    steps := TestSends(tasks, t);
    steps := Extend(tasks, steps, Sender(t, Give));
    steps := Extend(tasks, steps, Modem(KeyUp));
    steps := Extend(tasks, steps, Modem(Retire));
    steps := Extend(tasks, steps, Modem(KeyDown));
  }

  lemma TestRestores(tasks: nat, t: Task) returns (steps: seq<Step>)
    requires t < tasks
    ensures Runs(Init(tasks), steps)
    ensures var s := Final(Init(tasks), steps);
            && Alone(s, tasks, t, Loop(Restored), NotSending) && s.active && s.owner == Some(t) && s.gate == None
            && s.ring == [] && s.inhibit && !s.fullDuplex && !s.hook
  {
    steps := TestAired(tasks, t);
    steps := Extend(tasks, steps, Test(t, ClearHook));
    steps := Extend(tasks, steps, Test(t, Restore(true)));
  }

  lemma OnlyFree(s: State, tasks: nat, t: Task)
    requires Alone(s, tasks, t, Free, NotSending)
    requires !s.active && s.gate == None && s.owner == None && s.ring == []
    requires !s.inhibit && !s.fullDuplex && !s.hook
    ensures s == Init(tasks)
  {
    assert s.acts == Init(tasks).acts && s.sends == Init(tasks).sends;
  }

  /** And through to its end, after which everything is as it was before it began. */
  lemma TestCompletes(tasks: nat, t: Task) returns (steps: seq<Step>)
    requires t < tasks
    ensures Runs(Init(tasks), steps) && Final(Init(tasks), steps) == Init(tasks)
    ensures steps != [] && steps[|steps| - 1] == Test(t, Release)
  {
    steps := TestRestores(tasks, t);
    steps := Extend(tasks, steps, Test(t, LiftInhibit));
    steps := Extend(tasks, steps, Test(t, Disown));
    steps := Extend(tasks, steps, Test(t, Release));
    OnlyFree(Final(Init(tasks), steps), tasks, t);
  }
}
