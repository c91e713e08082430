/** The ring of stations owed one position follow-up each, as a bounded first-in
    first-out list of distinct callsigns. */
module FollowUpRing {
  import opened Text

  const RING_SIZE: nat := 8
  const CALL_MAX: nat := 11

  // ---- The list the ring stands for ----

  predicate Listed(q: seq<string>, call: string) {
    exists i :: 0 <= i < |q| && SameCall(q[i], call)
  }

  /** Position of a callsign, or the length. */
  function Find(q: seq<string>, call: string): (i: nat)
    ensures i <= |q|
    ensures i < |q| <==> Listed(q, call)
    ensures i < |q| ==> SameCall(q[i], call)
    ensures forall j :: 0 <= j < i ==> !SameCall(q[j], call)
  {
    if q == [] then 0
    else if SameCall(q[0], call) then 0
    else
      var i := 1 + Find(q[1..], call);
      assert forall j :: 0 < j < |q| ==> q[j] == q[1..][j - 1];
      i
  }

  function Remember(q: seq<string>, cap: nat, call: string): seq<string>
    requires 0 < cap
  {
    if call == "" || Listed(q, call) then q
    else if |q| < cap then q + [call]
    else q[1..] + [call]
  }

  function Take(q: seq<string>, call: string): seq<string> {
    if call == "" || !Listed(q, call) then q
    else q[..Find(q, call)] + q[Find(q, call) + 1..]
  }

  /** A list the ring can hold: bounded, no blanks, no callsign twice. */
  predicate IsList(q: seq<string>, cap: nat) {
    && |q| <= cap
    && (forall i :: 0 <= i < |q| ==> q[i] != "")
    && (forall i, j :: 0 <= i < j < |q| ==> !SameCall(q[i], q[j]))
  }

  lemma RememberKeepsList(q: seq<string>, cap: nat, call: string)
    requires 0 < cap && IsList(q, cap)
    ensures IsList(Remember(q, cap, call), cap)
    ensures call != "" ==> Listed(Remember(q, cap, call), call)
  {
    var r := Remember(q, cap, call);
    if call != "" && !Listed(q, call) {
      assert r[|r| - 1] == call;
    }
  }

  lemma Remembers(q: seq<string>, cap: nat, call: string)
    requires 0 < cap && call != ""
    ensures Listed(Remember(q, cap, call), call)
  {
    var r := Remember(q, cap, call);
    if !Listed(q, call) {
      assert r[|r| - 1] == call;
    }
  }

  lemma WithoutAt(q: seq<string>, k: nat)
    requires k < |q|
    ensures var r := q[..k] + q[k + 1..];
            |r| == |q| - 1 && forall j :: 0 <= j < |r| ==> r[j] == q[if j < k then j else j + 1]
  {
    var front, back := q[..k], q[k + 1..];
    forall j | 0 <= j < |q| - 1
      ensures (front + back)[j] == q[if j < k then j else j + 1]
    {
      assert if j < k then front[j] == q[j] else back[j - k] == q[j + 1];
    }
  }

  lemma TakeAt(q: seq<string>, call: string)
    requires call != "" && Listed(q, call)
    ensures var k, r := Find(q, call), Take(q, call);
            |r| == |q| - 1 && forall j :: 0 <= j < |r| ==> r[j] == q[if j < k then j else j + 1]
  {
    hide Find, Listed;
    WithoutAt(q, Find(q, call));
  }

  lemma TakeKeepsList(q: seq<string>, cap: nat, call: string)
    requires IsList(q, cap) && call != ""
    ensures IsList(Take(q, call), cap)
    ensures !Listed(Take(q, call), call)
  {
    if Listed(q, call) {
      TakeAt(q, call);
      var k, r := Find(q, call), Take(q, call);
      forall j | 0 <= j < |r|
        ensures !SameCall(r[j], call)
      {
        assert j >= k ==> !SameCall(q[k], q[j + 1]);
      }
    }
  }

  lemma TakeListed(q: seq<string>, cap: nat, call: string, other: string)
    requires IsList(q, cap) && call != "" && Listed(q, call)
    ensures Listed(Take(q, call), other) <==> Listed(q, other) && !SameCall(other, call)
  {
    hide Find, Take;
    TakeKeepsList(q, cap, call);
    TakeAt(q, call);
    var k, r := Find(q, call), Take(q, call);
    if Listed(r, other) {
      var i :| 0 <= i < |r| && SameCall(r[i], other);
      assert SameCall(q[if i < k then i else i + 1], other);
    }
    if Listed(q, other) && !SameCall(other, call) {
      var i :| 0 <= i < |q| && SameCall(q[i], other);
      assert i != k;
      assert r[if i < k then i else i - 1] == q[i];
    }
  }

  /** The list after a run of notes. */
  function RememberAll(q: seq<string>, cap: nat, calls: seq<string>): seq<string>
    requires 0 < cap
    decreases |calls|
  {
    if calls == [] then q else RememberAll(Remember(q, cap, calls[0]), cap, calls[1..])
  }

  /** The last n, or all when there are fewer. */
  function Latest(calls: seq<string>, n: nat): (r: seq<string>)
    ensures |r| <= n
  {
    if |calls| <= n then calls else calls[|calls| - n..]
  }

  predicate AllDifferent(calls: seq<string>) {
    && (forall i :: 0 <= i < |calls| ==> calls[i] != "")
    && (forall i, j :: 0 <= i < j < |calls| ==> !SameCall(calls[i], calls[j]))
  }

  lemma RememberNew(q: seq<string>, cap: nat, call: string, more: seq<string>)
    requires 0 < cap && |q| <= cap && call != "" && !Listed(q, call)
    ensures Remember(q, cap, call) == Latest(q + [call], cap)
    ensures Latest(Latest(q + [call], cap) + more, cap) == Latest(q + ([call] + more), cap)
  {
    hide Listed;
    var all := q + [call];
    assert all + more == q + ([call] + more);
    if |q| == cap {
      assert all[1..] == q[1..] + [call];
      assert all[1..] + more == (all + more)[1..];
    }
  }

  lemma AllOfThem(q: seq<string>, cap: nat)
    requires |q| <= cap
    ensures Latest(q, cap) == q
  {
  }

  lemma NewIsNotListed(q: seq<string>, call: string, rest: seq<string>)
    requires AllDifferent(q + ([call] + rest))
    ensures call != "" && !Listed(q, call)
  {
    hide SameCall;
    var all := q + ([call] + rest);
    assert all[|q|] == call;
    forall i | 0 <= i < |q|
      ensures !SameCall(q[i], call)
    {
      assert all[i] == q[i];
    }
  }

  lemma StillDifferent(all: seq<string>, n: nat)
    requires AllDifferent(all) && n <= |all|
    ensures AllDifferent(all[n..])
  {
    hide SameCall;
    var r := all[n..];
    assert forall i :: 0 <= i < |r| ==> r[i] == all[n + i];
  }

  lemma LatestIsSuffix(all: seq<string>, cap: nat, more: seq<string>)
    ensures var n := if |all| <= cap then 0 else |all| - cap;
            Latest(all, cap) + more == (all + more)[n..]
  {
  }

  /** Different stations noted one after another: the ring holds the latest of them in
      the order they came, and the oldest have left it. */
  lemma {:induction false} RingHoldsLatest(q: seq<string>, cap: nat, calls: seq<string>)
    requires 0 < cap && |q| <= cap && AllDifferent(q + calls)
    ensures RememberAll(q, cap, calls) == Latest(q + calls, cap)
    decreases |calls|
  {
    hide AllDifferent, Listed, Latest, Remember;
    if calls == [] {
      assert q + calls == q;
      AllOfThem(q, cap);
    } else {
      var call, rest := calls[0], calls[1..];
      assert calls == [call] + rest;
      NewIsNotListed(q, call, rest);
      RememberNew(q, cap, call, rest);
      LatestIsSuffix(q + [call], cap, rest);
      assert q + [call] + rest == q + calls;
      StillDifferent(q + calls, if |q + [call]| <= cap then 0 else |q + [call]| - cap);
      RingHoldsLatest(Remember(q, cap, call), cap, rest);
    }
  }

  /** Claiming removes the station and nothing else, so a second claim fails. */
  lemma TakeRemovesOne(q: seq<string>, cap: nat, call: string, other: string)
    requires IsList(q, cap) && call != ""
    ensures Listed(Take(q, call), other) <==> Listed(q, other) && !SameCall(other, call)
  {
    if Listed(q, call) {
      TakeListed(q, cap, call, other);
    }
  }

  // ---- The ring itself ----

  /** The slots hold the list from the front; an empty string marks a free slot. */
  ghost predicate Holds(slots: seq<string>, q: seq<string>) {
    && IsList(q, |slots|)
    && (forall i :: 0 <= i < |q| ==> slots[i] == q[i])
    && (forall i :: |q| <= i < |slots| ==> slots[i] == "")
  }

  class Ring {
    const slots: array<string>
    ghost var list: seq<string>

    ghost predicate Valid()
      reads this, slots
    {
      slots.Length > 0 && Holds(slots[..], list)
    }

    constructor ()
      ensures Valid() && list == [] && slots.Length == RING_SIZE && fresh(slots)
    {
      slots := new string[RING_SIZE](_ => "");
      list := [];
    }

    /** Calls come from 12-byte buffers, so nothing is cut off when they are stored. */
    method RememberCall(call: string)
      requires Valid() && |call| <= CALL_MAX
      modifies this`list, slots
      ensures Valid() && list == Remember(old(list), slots.Length, call)
    {
      if call == "" {
        return;
      }
      for i := 0 to slots.Length
        invariant slots[..] == old(slots[..])
        invariant forall j :: 0 <= j < i ==> !SameCall(slots[j], call)
      {
        if SameCall(slots[i], call) {
          assert i < |list|;
          return;
        }
      }
      assert !Listed(list, call) by {
        assert forall j :: 0 <= j < |list| ==> slots[j] == list[j];
      }
      for i := 0 to slots.Length
        invariant slots[..] == old(slots[..])
        invariant i <= |list|
      {
        assert slots[i] == slots[..][i];
        if slots[i] == "" {
          RememberKeepsList(list, slots.Length, call);
          slots[i] := call;
          list := list + [call];
          return;
        }
      }
      RememberKeepsList(list, slots.Length, call);
      ShiftDown(0);
      slots[slots.Length - 1] := call;
      list := list[1..] + [call];
    }

    /** memmove of everything after slot `at` one place down. */
    method ShiftDown(at: nat)
      requires at < slots.Length
      modifies slots
      ensures forall j :: 0 <= j < at ==> slots[j] == old(slots[j])
      ensures forall j :: at <= j < slots.Length - 1 ==> slots[j] == old(slots[j + 1])
      ensures slots[slots.Length - 1] == old(slots[slots.Length - 1])
    {
      for j := at to slots.Length - 1
        invariant forall k :: 0 <= k < at ==> slots[k] == old(slots[k])
        invariant forall k :: at <= k < j ==> slots[k] == old(slots[k + 1])
        invariant forall k :: j <= k < slots.Length ==> slots[k] == old(slots[k])
      {
        slots[j] := slots[j + 1];
      }
    }

    method FindCall(call: string) returns (r: int)
      requires Valid()
      ensures r == if call == "" || !Listed(list, call) then -1 else Find(list, call)
    {
      if call == "" {
        return -1;
      }
      for i := 0 to slots.Length
        invariant forall j :: 0 <= j < i ==> !SameCall(slots[j], call)
      {
        if SameCall(slots[i], call) {
          assert i < |list| && SameCall(list[i], call);
          var k := Find(list, call);
          assert k <= i && slots[k] == list[k];
          return i;
        }
      }
      assert forall j :: 0 <= j < |list| ==> slots[j] == list[j];
      return -1;
    }

    method TakeCall(call: string) returns (ok: bool)
      requires Valid()
      modifies this`list, slots
      ensures Valid() && list == Take(old(list), call)
      ensures ok <==> call != "" && Listed(old(list), call)
    {
      var i := FindCall(call);
      if i < 0 {
        return false;
      }
      TakeKeepsList(list, slots.Length, call);
      ShiftDown(i);
      slots[slots.Length - 1] := "";
      list := list[..i] + list[i + 1..];
      return true;
    }

    /** Asking without spending predicts the next claim. */
    method Pending(call: string) returns (yes: bool)
      requires Valid()
      ensures yes <==> call != "" && Listed(list, call)
    {
      var i := FindCall(call);
      yes := i >= 0;
    }
  }

  // ---- Whole runs ----

  datatype Op = Sent(call: string) | Claim(call: string)

  function Apply(q: seq<string>, cap: nat, op: Op): seq<string>
    requires cap > 0
  {
    match op
    case Sent(c) => Remember(q, cap, c)
    case Claim(c) => Take(q, c)
  }

  function State(ops: seq<Op>, cap: nat): seq<string>
    requires cap > 0
  {
    if ops == [] then [] else Apply(State(ops[..|ops| - 1], cap), cap, ops[|ops| - 1])
  }

  /** Messages sent to a station. */
  function Messages(ops: seq<Op>, call: string): nat {
    if ops == [] then 0
    else Messages(ops[..|ops| - 1], call)
         + (if ops[|ops| - 1].Sent? && SameCall(ops[|ops| - 1].call, call) then 1 else 0)
  }

  /** Claims granted to a station. */
  function Granted(ops: seq<Op>, cap: nat, call: string): nat
    requires cap > 0
  {
    if ops == [] then 0
    else
      var op := ops[|ops| - 1];
      Granted(ops[..|ops| - 1], cap, call)
      + (if op.Claim? && SameCall(op.call, call) && op.call != "" && Listed(State(ops[..|ops| - 1], cap), op.call)
         then 1 else 0)
  }

  /** Over any run a station is granted no more follow-ups than messages were sent to it,
      counting the one it may still be owed. */
  lemma {:induction false} GrantedAtMostMessages(ops: seq<Op>, cap: nat, call: string)
    requires cap > 0 && call != ""
    ensures IsList(State(ops, cap), cap)
    ensures Granted(ops, cap, call) + (if Listed(State(ops, cap), call) then 1 else 0) <= Messages(ops, call)
  {
    if ops != [] {
      var op, before := ops[|ops| - 1], ops[..|ops| - 1];
      var q := State(before, cap);
      GrantedAtMostMessages(before, cap, call);
      match op {
        case Sent(c) =>
          RememberKeepsList(q, cap, c);
          if Listed(Remember(q, cap, c), call) && !Listed(q, call) {
            RememberedIsNew(q, cap, c, call);
          }
        case Claim(c) =>
          if c != "" {
            TakeKeepsList(q, cap, c);
            TakeRemovesOne(q, cap, c, call);
          }
      }
    }
  }

  lemma RememberedIsNew(q: seq<string>, cap: nat, c: string, call: string)
    requires cap > 0 && Listed(Remember(q, cap, c), call) && !Listed(q, call)
    ensures SameCall(c, call)
  {
    var r := Remember(q, cap, c);
    assert forall i :: 0 <= i < |r| - 1 ==> r[i] == q[if |q| < cap then i else i + 1];
    var i :| 0 <= i < |r| && SameCall(r[i], call);
  }

}
