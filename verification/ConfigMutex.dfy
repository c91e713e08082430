/** One-time creation of a mutex raced by any number of tasks. Each task runs the same few
    instructions; every instruction is one step of the system. */
module ConfigMutex {
  import opened Common

  type Handle = nat
  type Task = nat

  /** Where a task stands in the call. `m` is its result so far, `candidate` the mutex it
      has allocated and not given away, `got` whether its allocation succeeded. */
  datatype Pc =
    | Idle
    | Empty
    | Ready(candidate: Option<Handle>)
    | Inside(candidate: Option<Handle>)
    | Storing(candidate: Option<Handle>)
    | Leaving(m: Option<Handle>, candidate: Option<Handle>, got: bool)
    | Outside(m: Option<Handle>, candidate: Option<Handle>, got: bool)
    | Returned(m: Option<Handle>, got: bool)

  /** What a call returned, and whether the caller's own allocation, if it needed one,
      succeeded. */
  datatype Result = Result(m: Option<Handle>, got: bool)

  /** `born` counts the mutexes ever created; `owner` is the task in the critical
      section. */
  datatype State = State(
    published: Option<Handle>, owner: Option<Task>, tasks: seq<Pc>,
    live: set<Handle>, freed: seq<Handle>, born: nat, results: seq<Result>)

  datatype Action = Load | Allocate(ok: bool) | Enter | Read | Store | Exit | Free | Return

  predicate Enabled(s: State, t: Task, a: Action) {
    && t < |s.tasks|
    && match a
       case Load => s.tasks[t].Idle?
       case Allocate(_) => s.tasks[t].Empty?
       case Enter => s.tasks[t].Ready? && s.owner.None?
       case Read => s.tasks[t].Inside?
       case Store => s.tasks[t].Storing?
       case Exit => s.tasks[t].Leaving?
       case Free => s.tasks[t].Outside?
       case Return => s.tasks[t].Returned?
  }

  function At(s: State, t: Task, pc: Pc): State
    requires t < |s.tasks|
  {
    s.(tasks := s.tasks[t := pc])
  }

  function Apply(s: State, t: Task, a: Action): State
    requires Enabled(s, t, a)
  {
    var pc := s.tasks[t];
    match a
    case Load => At(s, t, if s.published.Some? then Returned(s.published, true) else Empty)
    case Allocate(ok) =>
      if ok then At(s, t, Ready(Some(s.born))).(live := s.live + {s.born}, born := s.born + 1)
      else At(s, t, Ready(None))
    case Enter => At(s, t, Inside(pc.candidate)).(owner := Some(t))
    case Read =>
      At(s, t, if s.published.None? then Storing(pc.candidate)
               else Leaving(s.published, pc.candidate, pc.candidate.Some?))
    case Store => At(s, t, Leaving(pc.candidate, None, pc.candidate.Some?)).(published := pc.candidate)
    case Exit => At(s, t, Outside(pc.m, pc.candidate, pc.got)).(owner := None)
    case Free =>
      var next := At(s, t, Returned(pc.m, pc.got));
      if pc.candidate.None? then next
      else next.(live := s.live - {pc.candidate.value}, freed := s.freed + [pc.candidate.value])
    case Return => At(s, t, Idle).(results := s.results + [Result(pc.m, pc.got)])
  }

  function Init(n: nat): State {
    State(None, None, seq(n, _ => Idle), {}, [], 0, [])
  }

  // ---- The invariant ----

  /** The mutex a task holds that nobody else knows of. */
  function Held(pc: Pc): Option<Handle> {
    match pc
    case Ready(c) => c
    case Inside(c) => c
    case Storing(c) => c
    case Leaving(_, c, _) => c
    case Outside(_, c, _) => c
    case _ => None
  }

  predicate Critical(pc: Pc) {
    pc.Inside? || pc.Storing? || pc.Leaving?
  }

  /** What a task may believe: its result is the published mutex, and it has none only
      if its own allocation failed. */
  predicate Sound(m: Option<Handle>, got: bool, published: Option<Handle>) {
    (m.Some? ==> m == published) && (m.None? ==> !got)
  }

  predicate TaskOk(s: State, t: Task)
    requires t < |s.tasks|
  {
    var pc := s.tasks[t];
    && (Critical(pc) <==> s.owner == Some(t))
    && (pc.Storing? ==> s.published.None?)
    && (Held(pc).Some? ==> Held(pc).value in s.live && Held(pc) != s.published)
    && (pc.Leaving? || pc.Outside? || pc.Returned? ==> Sound(pc.m, pc.got, s.published))
  }

  /** No two tasks hold the same mutex. */
  predicate HeldApart(s: State) {
    forall t, u :: 0 <= t < u < |s.tasks| && Held(s.tasks[t]).Some? ==> Held(s.tasks[t]) != Held(s.tasks[u])
  }

  predicate HeldBy(s: State, h: Handle) {
    exists t :: 0 <= t < |s.tasks| && Held(s.tasks[t]) == Some(h)
  }

  /** Nothing is freed twice or while alive, and every mutex ever created is accounted
      for. */
  ghost predicate HeapOk(s: State) {
    && (forall h: Handle :: h < s.born <==> h in s.live || h in s.freed)
    && (forall h :: h in s.live ==> h !in s.freed)
    && (forall i, j :: 0 <= i < j < |s.freed| ==> s.freed[i] != s.freed[j])
  }

  ghost predicate Inv(s: State) {
    && HeapOk(s)
    && (s.published.Some? ==> s.published.value in s.live)
    && (forall t: Task :: t < |s.tasks| ==> TaskOk(s, t))
    && HeldApart(s)
    && (forall h :: h in s.live ==> s.published == Some(h) || HeldBy(s, h))
    && (forall r :: r in s.results ==> Sound(r.m, r.got, s.published))
  }

  /** Only a store changes what is published, and only from nothing. */
  lemma PublishedOnce(s: State, t: Task, a: Action)
    requires Inv(s) && Enabled(s, t, a)
    ensures s.published.Some? ==> Apply(s, t, a).published == s.published
  {
    assert TaskOk(s, t);
  }

  lemma LiveKept(s: State, t: Task, a: Action)
    requires Inv(s) && Enabled(s, t, a)
    ensures var n := Apply(s, t, a);
            forall h :: h in n.live ==> n.published == Some(h) || HeldBy(n, h)
  {
    var n := Apply(s, t, a);
    forall h | h in n.live
      ensures n.published == Some(h) || HeldBy(n, h)
    {
      if Held(n.tasks[t]) == Some(h) {
      } else if h in s.live && s.published != Some(h) {
        var u :| 0 <= u < |s.tasks| && Held(s.tasks[u]) == Some(h);
        if u != t {
          assert Held(n.tasks[u]) == Some(h);
        }
      } else if h in s.live {
        PublishedOnce(s, t, a);
      }
    }
  }

  lemma TasksKept(s: State, t: Task, a: Action)
    requires Inv(s) && Enabled(s, t, a)
    ensures var n := Apply(s, t, a);
            forall u: Task :: u < |n.tasks| ==> TaskOk(n, u)
  {
    var n := Apply(s, t, a);
    assert TaskOk(s, t);
    forall u: Task | u < |n.tasks|
      ensures TaskOk(n, u)
    {
      assert TaskOk(s, u);
      if u != t {
        assert n.tasks[u] == s.tasks[u];
      }
    }
  }

  lemma HeapKept(s: State, t: Task, a: Action)
    requires Inv(s) && Enabled(s, t, a)
    ensures HeapOk(Apply(s, t, a))
  {
    assert TaskOk(s, t);
  }

  /** A task gives away what it holds or takes a mutex just created. */
  lemma HoldsKept(s: State, t: Task, a: Action)
    requires Inv(s) && Enabled(s, t, a)
    ensures HeldApart(Apply(s, t, a))
  {
    var n := Apply(s, t, a);
    assert Held(n.tasks[t]).Some? ==> Held(n.tasks[t]) == Held(s.tasks[t]) || Held(n.tasks[t]) == Some(s.born);
    forall u: Task | u < |s.tasks|
      ensures u != t ==> n.tasks[u] == s.tasks[u]
      ensures Held(s.tasks[u]) != Some(s.born)
    {
      assert TaskOk(s, u);
    }
  }

  lemma StepKeepsInv(s: State, t: Task, a: Action)
    requires Inv(s) && Enabled(s, t, a)
    ensures Inv(Apply(s, t, a))
  {
    assert TaskOk(s, t);
    HeapKept(s, t, a);
    HoldsKept(s, t, a);
    TasksKept(s, t, a);
    LiveKept(s, t, a);
    PublishedOnce(s, t, a);
  }

  // ---- Runs ----

  datatype Move = Move(t: Task, a: Action)

  ghost predicate Runs(s: State, moves: seq<Move>)
    decreases |moves|
  {
    moves == [] || (Enabled(s, moves[0].t, moves[0].a) && Runs(Apply(s, moves[0].t, moves[0].a), moves[1..]))
  }

  ghost function Final(s: State, moves: seq<Move>): (f: State)
    requires Runs(s, moves)
    ensures |f.tasks| == |s.tasks|
    decreases |moves|
  {
    if moves == [] then s else Final(Apply(s, moves[0].t, moves[0].a), moves[1..])
  }

  lemma {:induction false} RunKeepsInv(s: State, moves: seq<Move>)
    requires Inv(s) && Runs(s, moves)
    ensures Inv(Final(s, moves))
    ensures s.published.Some? ==> Final(s, moves).published == s.published
    decreases |moves|
  {
    if moves != [] {
      StepKeepsInv(s, moves[0].t, moves[0].a);
      PublishedOnce(s, moves[0].t, moves[0].a);
      RunKeepsInv(Apply(s, moves[0].t, moves[0].a), moves[1..]);
    }
  }

  /** In every interleaving: all calls that return a mutex return the same one, it is
      never freed, and a call returns none only if its own allocation failed. */
  lemma OneMutexForAll(n: nat, moves: seq<Move>)
    requires Runs(Init(n), moves)
    ensures var f := Final(Init(n), moves);
            && (forall r, q :: r in f.results && q in f.results && r.m.Some? && q.m.Some? ==> r.m == q.m)
            && (forall r :: r in f.results && r.m.Some? ==> r.m.value in f.live && r.m.value !in f.freed)
            && (forall r :: r in f.results && r.m.None? ==> !r.got)
  {
    RunKeepsInv(Init(n), moves);
  }

  /** Once every call has come back nothing is left over: every mutex ever created is the
      published one or has been freed, exactly once. */
  lemma NoMutexLeaks(n: nat, moves: seq<Move>)
    requires Runs(Init(n), moves)
    requires forall t :: 0 <= t < n ==> Final(Init(n), moves).tasks[t].Idle?
    ensures var f := Final(Init(n), moves);
            && f.live == (if f.published.Some? then {f.published.value} else {})
            && (forall h: Handle :: h < f.born && f.published != Some(h) ==> h in f.freed)
            && (forall i, j :: 0 <= i < j < |f.freed| ==> f.freed[i] != f.freed[j])
  {
    RunKeepsInv(Init(n), moves);
    var f := Final(Init(n), moves);
    assert forall h :: !HeldBy(f, h);
  }
}
