// The gate's observation loop against a clock: which waits it makes, how long they add up to, and
// exactly when one can begin past the deadline.
module Observation {
  import opened Wrappers
  import opened Domain
  import opened GateChecks

  class Clock {
    var now: int

    method Pass(d: nat)
      modifies this
      ensures now == old(now) + d
    {
      now := now + d;
    }
  }

  datatype Answer = Value(value: string) | Fails | Hangs

  // One precondition's turn: the time until the gate reads the clock; from there until the observer
  // registry reads its own; from there until the worker is awaited; until the worker answers; from
  // the end of the wait until the registry reads its clock again; and until the turn is over.
  datatype Turn = Turn(before: nat, gap: nat, starting: nat, needed: nat, waking: nat, after: nat, answer: Answer)

  // A wait: when the gate read the clock for it, when it began, how long it lasted.
  datatype Wait = Wait(read: int, begun: int, length: nat)

  function Min(a: int, b: int): int {
    if a < b then a else b
  }

  // What passes between the reading a wait is granted from and its beginning.
  function Lead(turn: Turn): nat {
    turn.gap + turn.starting
  }

  // Joining the worker lasts until it answers, or for the timeout; a negative timeout is none at all.
  function Joined(turn: Turn, timeout: int): (r: (nat, Reading))
    ensures timeout >= 0 ==> r.0 <= timeout
    ensures timeout < 0 ==> r.0 == 0
    ensures r.1.Reported? ==> r.0 == turn.needed && r.1.value != ""
  {
    var bound := if timeout < 0 then 0 else timeout;
    if turn.answer.Hangs? || turn.needed > bound then (bound, TimedOut)
    else if turn.answer == Fails || turn.answer.value == "" then (turn.needed, ObserverError)
    else (turn.needed, Reported(turn.answer.value))
  }

  // A reading is a value exactly when the worker answers with one, not empty, within the timeout.
  lemma {:induction false} ReadingIs(turn: Turn, timeout: int, value: string)
    ensures Joined(turn, timeout).1 == Reported(value) <==>
      turn.answer == Value(value) && value != "" && (turn.needed <= timeout || turn.needed == 0)
    ensures Joined(turn, timeout).1 == TimedOut <==>
      turn.answer.Hangs? || (turn.needed > timeout && turn.needed > 0)
  {
  }

  // A value that took the registry longer than the whole deadline is thrown away.
  function Accepted(turn: Turn, seconds: int, length: nat, reading: Reading): Reading {
    if reading.Reported? && turn.starting + length + turn.waking > seconds then ObserverError else reading
  }

  // One turn from time `now`: the reading, the wait it took, and the time when it is over.
  function TakeOne(timeout: int, seconds: int, deadline: int, now: int, turn: Turn): (r: (Reading, seq<Wait>, int))
    ensures |r.1| <= 1
  {
    var read := now + turn.before;
    if deadline - read <= 0 then (PastDeadline, [], read)
    else
      var (length, reading) := Joined(turn, Min(timeout, deadline - read));
      var begun := read + Lead(turn);
      (Accepted(turn, seconds, length, reading), [Wait(read, begun, length)],
       begun + length + turn.waking + turn.after)
  }

  // The loop from precondition `i` on, starting at time `now`: the readings it takes and the
  // waits it makes until it passes or refuses. `seconds` is the configured observation deadline,
  // `deadline` the time when it is over.
  function Loop(policy: Policy, c: Citation, ps: seq<Precondition>, seconds: int, deadline: int, now: int,
          turns: seq<Turn>, i: nat)
    : (r: (seq<Reading>, seq<Wait>))
    requires i <= |ps| <= |turns|
    ensures |r.1| <= |r.0| <= |ps| - i
    decreases |ps| - i
  {
    if i == |ps| || KeyAt(c, i) !in policy.observers then ([], [])
    else
      var (reading, waits, next) :=
        TakeOne(policy.observers[KeyAt(c, i)].timeout, seconds, deadline, now, turns[i]);
      if reading != Reported(ps[i].expected) then ([reading], waits)
      else
        var rest := Loop(policy, c, ps, seconds, deadline, next, turns, i + 1);
        ([reading] + rest.0, waits + rest.1)
  }

  method Take(timeout: int, seconds: int, deadline: int, clock: Clock, turn: Turn)
    returns (reading: Reading, ghost waits: seq<Wait>)
    modifies clock
    ensures (reading, waits, clock.now) == TakeOne(timeout, seconds, deadline, old(clock.now), turn)
  {
    waits := [];
    clock.Pass(turn.before);
    var read := clock.now;
    var remaining := deadline - read;
    if remaining <= 0 {
      return PastDeadline, waits;
    }
    clock.Pass(turn.gap);
    var started := clock.now;
    clock.Pass(turn.starting);
    var (length, answer) := Joined(turn, Min(timeout, remaining));
    waits := [Wait(read, clock.now, length)];
    clock.Pass(length);
    clock.Pass(turn.waking);
    reading := if answer.Reported? && clock.now - started > seconds then ObserverError else answer;
    clock.Pass(turn.after);
  }

  // Why a reading refuses, if it does.
  function Fault(reading: Reading, expected: string, i: nat): Option<RefusalCode> {
    match reading
    case PastDeadline => Some(PreconditionDeadline(i))
    case TimedOut => Some(PreconditionTimeout(i))
    case ObserverError => Some(ObserverFailed(i))
    case Reported(value) => if value != expected then Some(PreconditionMismatch(i)) else None
  }

  method Observe(policy: Policy, c: Citation, ps: seq<Precondition>, deadlineSeconds: int, clock: Clock,
          turns: seq<Turn>)
    returns (r: Result<seq<GateChecks.Observation>, RefusalCode>, readings: seq<Reading>, ghost waits: seq<Wait>)
    requires |ps| <= |turns|
    modifies clock
    ensures
      var now := old(clock.now);
      var all := Loop(policy, c, ps, deadlineSeconds, now + deadlineSeconds, now, turns, 0);
      readings == all.0 && waits == all.1
    ensures r == ObserveFrom(policy, c, ps, readings, 0)
  {
    hide TakeOne, ObserveFrom, Passed, Saw, Loop;
    var deadline := clock.now + deadlineSeconds;
    ghost var whole := Loop(policy, c, ps, deadlineSeconds, deadline, clock.now, turns, 0);
    var seen: seq<GateChecks.Observation> := [];
    readings, waits := [], [];
    NothingPassed(policy, c, ps);
    for i := 0 to |ps|
      invariant |readings| == i
      invariant readings + Loop(policy, c, ps, deadlineSeconds, deadline, clock.now, turns, i).0 == whole.0
      invariant waits + Loop(policy, c, ps, deadlineSeconds, deadline, clock.now, turns, i).1 == whole.1
      invariant Passed(policy, c, ps, readings, i) && Saw(policy, c, ps, seen, i)
    {
      LoopStep(policy, c, ps, deadlineSeconds, deadline, clock.now, turns, i);
      if KeyAt(c, i) !in policy.observers {
        RefusedAt(policy, c, ps, readings, readings, i, PreconditionUnmapped(i));
        return Err(PreconditionUnmapped(i)), readings, waits;
      }
      ghost var before, waitsBefore := readings, waits;
      var reading, waited := Take(policy.observers[KeyAt(c, i)].timeout, deadlineSeconds, deadline, clock, turns[i]);
      readings, waits := readings + [reading], waits + waited;
      var fault := Fault(reading, ps[i].expected, i);
      if fault.Some? {
        RefusedAt(policy, c, ps, before, readings, i, fault.value);
        return Err(fault.value), readings, waits;
      }
      OneMorePassed(policy, c, ps, before, reading, seen, i);
      seen := seen + [GateChecks.Observation(i, policy.observers[KeyAt(c, i)].observerId, reading.value)];
    }
    LoopEnds(policy, c, ps, deadlineSeconds, deadline, clock.now, turns);
    AllObserved(policy, c, ps, readings, seen);
    r := Ok(seen);
  }

  ghost predicate Saw(policy: Policy, c: Citation, ps: seq<Precondition>, seen: seq<GateChecks.Observation>, i: nat) {
    && |seen| == i <= |ps|
    && forall k :: 0 <= k < i ==>
         KeyAt(c, k) in policy.observers
         && seen[k] == GateChecks.Observation(k, policy.observers[KeyAt(c, k)].observerId, ps[k].expected)
  }

  lemma {:induction false} NothingPassed(policy: Policy, c: Citation, ps: seq<Precondition>)
    ensures Passed(policy, c, ps, [], 0) && Saw(policy, c, ps, [], 0)
  {
  }

  lemma {:induction false} OneMorePassed(policy: Policy, c: Citation, ps: seq<Precondition>, readings: seq<Reading>,
          reading: Reading, seen: seq<GateChecks.Observation>, i: nat)
    requires i < |ps| && |readings| == i && Passed(policy, c, ps, readings, i) && Saw(policy, c, ps, seen, i)
    requires KeyAt(c, i) in policy.observers && Fault(reading, ps[i].expected, i).None?
    ensures reading.Reported? && Passed(policy, c, ps, readings + [reading], i + 1)
    ensures Saw(policy, c, ps, seen + [GateChecks.Observation(i, policy.observers[KeyAt(c, i)].observerId,
        reading.value)], i + 1)
  {
  }

  lemma {:induction false} LoopStep(policy: Policy, c: Citation, ps: seq<Precondition>, seconds: int, deadline: int,
          now: int, turns: seq<Turn>, i: nat)
    requires i < |ps| <= |turns|
    ensures
      var all := Loop(policy, c, ps, seconds, deadline, now, turns, i);
      if KeyAt(c, i) !in policy.observers then all == ([], [])
      else
        var (reading, waits, next) := TakeOne(policy.observers[KeyAt(c, i)].timeout, seconds, deadline, now, turns[i]);
        var rest := Loop(policy, c, ps, seconds, deadline, next, turns, i + 1);
        all == if Fault(reading, ps[i].expected, i).Some? then ([reading], waits)
            else ([reading] + rest.0, waits + rest.1)
  {
    hide TakeOne;
  }

  lemma {:induction false} LoopEnds(policy: Policy, c: Citation, ps: seq<Precondition>, seconds: int, deadline: int,
          now: int, turns: seq<Turn>)
    requires |ps| <= |turns|
    ensures Loop(policy, c, ps, seconds, deadline, now, turns, |ps|) == ([], [])
  {
  }

  lemma {:induction false} AllObserved(policy: Policy, c: Citation, ps: seq<Precondition>, readings: seq<Reading>,
          seen: seq<GateChecks.Observation>)
    requires Passed(policy, c, ps, readings, |ps|) && Saw(policy, c, ps, seen, |ps|)
    ensures ObserveFrom(policy, c, ps, readings, 0) == Ok(seen)
  {
    ObservedAll(policy, c, ps, readings, 0);
    ObservedInOrder(policy, c, ps, readings, 0);
    assert seen == ObserveFrom(policy, c, ps, readings, 0).value;
  }

  // The first `i` preconditions were read as expected.
  ghost predicate Passed(policy: Policy, c: Citation, ps: seq<Precondition>, readings: seq<Reading>, i: nat) {
    && i <= |ps| && i <= |readings|
    && forall k :: 0 <= k < i ==> KeyAt(c, k) in policy.observers && readings[k] == Reported(ps[k].expected)
  }

  lemma {:induction false} RefusedAt(policy: Policy, c: Citation, ps: seq<Precondition>, before: seq<Reading>,
          readings: seq<Reading>, i: nat, fault: RefusalCode)
    requires Passed(policy, c, ps, before, i) && before <= readings && |before| == i < |ps|
    requires if KeyAt(c, i) !in policy.observers then fault == PreconditionUnmapped(i)
             else i < |readings| && Fault(readings[i], ps[i].expected, i) == Some(fault)
    ensures ObserveFrom(policy, c, ps, readings, 0) == Err(fault)
  {
    SkipPassed(policy, c, ps, readings, 0, i);
  }

  lemma {:induction false} SkipPassed(policy: Policy, c: Citation, ps: seq<Precondition>, readings: seq<Reading>,
          k: nat, i: nat)
    requires k <= i && Passed(policy, c, ps, readings, i)
    ensures
      var (r, s) := (ObserveFrom(policy, c, ps, readings, k), ObserveFrom(policy, c, ps, readings, i));
      (r.Err? <==> s.Err?) && (r.Err? ==> r.error == s.error)
    decreases i - k
  {
    if k < i {
      SkipPassed(policy, c, ps, readings, k + 1, i);
    }
  }

  lemma {:induction false} ObservedAll(policy: Policy, c: Citation, ps: seq<Precondition>, readings: seq<Reading>,
          i: nat)
    requires i <= |ps| && Passed(policy, c, ps, readings, |ps|)
    ensures ObserveFrom(policy, c, ps, readings, i).Ok?
    decreases |ps| - i
  {
    if i < |ps| {
      ObservedAll(policy, c, ps, readings, i + 1);
    }
  }

  /* ---------- The deadline ---------- */

  function Total(waits: seq<Wait>): nat {
    if waits == [] then 0 else waits[0].length + Total(waits[1..])
  }

  // What a turn takes when its worker answers in time.
  function Took(turn: Turn): nat {
    turn.before + Lead(turn) + turn.needed + turn.waking + turn.after
  }

  // What the turns from `i` up to `k` take.
  function Elapsed(turns: seq<Turn>, i: nat, k: nat): nat
    requires i <= k <= |turns|
    decreases k - i
  {
    if i == k then 0 else Took(turns[i]) + Elapsed(turns, i + 1, k)
  }

  lemma {:induction false} TakeFits(timeout: int, seconds: int, deadline: int, now: int, turn: Turn)
    ensures
      var (reading, waits, next) := TakeOne(timeout, seconds, deadline, now, turn);
      && (waits == [] ==> reading == PastDeadline)
      && (waits != [] ==>
            && now + turn.before == waits[0].read < deadline && waits[0].read + waits[0].length <= deadline
            && waits[0].begun == waits[0].read + Lead(turn)
            && waits[0].begun + waits[0].length <= next)
      && (reading.Reported? ==> |waits| == 1 && next == now + Took(turn) && reading.value != "")
  {
  }

  // Whatever else takes time, the waits together never exceed what was left of the deadline when
  // the loop began, and each was granted from a reading before the deadline and fits before it.
  lemma {:induction false} WaitsFitTheDeadline(policy: Policy, c: Citation, ps: seq<Precondition>, seconds: int,
          deadline: int, now: int, turns: seq<Turn>, i: nat)
    requires i <= |ps| <= |turns|
    ensures
      var waits := Loop(policy, c, ps, seconds, deadline, now, turns, i).1;
      && (waits != [] ==> now + Total(waits) <= deadline)
      && forall k :: 0 <= k < |waits| ==>
           && now <= waits[k].read < deadline
           && waits[k].read + waits[k].length <= deadline
           && waits[k].begun == waits[k].read + Lead(turns[i + k])
    decreases |ps| - i
  {
    hide TakeOne, Loop, Joined;
    if i == |ps| {
      LoopEnds(policy, c, ps, seconds, deadline, now, turns);
    } else {
      LoopStep(policy, c, ps, seconds, deadline, now, turns, i);
      if KeyAt(c, i) in policy.observers {
        var timeout := policy.observers[KeyAt(c, i)].timeout;
        var (reading, first, next) := TakeOne(timeout, seconds, deadline, now, turns[i]);
        TakeFits(timeout, seconds, deadline, now, turns[i]);
        WaitsFitTheDeadline(policy, c, ps, seconds, deadline, next, turns, i + 1);
        var rest := Loop(policy, c, ps, seconds, deadline, next, turns, i + 1).1;
        var waits := Loop(policy, c, ps, seconds, deadline, now, turns, i).1;
        if waits == first + rest && first != [] {
          assert waits[0] == first[0] && waits[1..] == rest;
          assert forall k :: 0 < k < |waits| ==> waits[k] == rest[k - 1];
        }
      }
    }
  }

  /* ---------- Waits that begin late ---------- */

  // Precondition `k` can be awaited: it is mapped, and all before it are mapped and expect a value
  // an observer can report.
  ghost predicate Reachable(policy: Policy, c: Citation, ps: seq<Precondition>, k: nat) {
    && k < |ps| && KeyAt(c, k) in policy.observers
    && forall j: nat :: j < k ==> KeyAt(c, j) in policy.observers && ps[j].expected != ""
  }

  // Every wait belongs to a reachable precondition, and comes when the turns before it are over.
  lemma {:induction false} WaitTimes(policy: Policy, c: Citation, ps: seq<Precondition>, seconds: int, deadline: int,
          now: int, turns: seq<Turn>, i: nat, k: nat)
    requires i <= k <= |ps| <= |turns| && k - i < |Loop(policy, c, ps, seconds, deadline, now, turns, i).1|
    requires forall j: nat :: j < i ==> KeyAt(c, j) in policy.observers && ps[j].expected != ""
    ensures Reachable(policy, c, ps, k)
    ensures
      var w := Loop(policy, c, ps, seconds, deadline, now, turns, i).1[k - i];
      && w.read == now + Elapsed(turns, i, k) + turns[k].before
      && w.begun == w.read + Lead(turns[k])
    decreases k - i
  {
    hide TakeOne, Loop;
    if i == |ps| {
      LoopEnds(policy, c, ps, seconds, deadline, now, turns);
    } else {
      LoopStep(policy, c, ps, seconds, deadline, now, turns, i);
      var timeout := policy.observers[KeyAt(c, i)].timeout;
      TakeFits(timeout, seconds, deadline, now, turns[i]);
      var (reading, first, next) := TakeOne(timeout, seconds, deadline, now, turns[i]);
      if i < k {
        WaitTimes(policy, c, ps, seconds, deadline, next, turns, i + 1, k);
      }
    }
  }

  // Which waits of a schedule begin at or past the deadline, by the times of that schedule.
  lemma {:induction false} LateByTheSchedule(policy: Policy, c: Citation, ps: seq<Precondition>, seconds: int,
          now: int, turns: seq<Turn>, k: nat)
    requires |ps| <= |turns| && k < |Loop(policy, c, ps, seconds, now + seconds, now, turns, 0).1|
    ensures k < |ps| && Reachable(policy, c, ps, k)
    ensures
      Loop(policy, c, ps, seconds, now + seconds, now, turns, 0).1[k].begun >= now + seconds
      <==> Elapsed(turns, 0, k) + turns[k].before + Lead(turns[k]) >= seconds
  {
    WaitTimes(policy, c, ps, seconds, now + seconds, now, turns, 0, k);
  }

  predicate HasLeads(turns: seq<Turn>, leads: seq<nat>) {
    |turns| == |leads| && forall k :: 0 <= k < |leads| ==> Lead(turns[k]) == leads[k]
  }

  // Every wait of the call begins before its deadline.
  ghost predicate OnTime(policy: Policy, c: Citation, ps: seq<Precondition>, seconds: int, now: int, turns: seq<Turn>)
    requires |ps| <= |turns|
  {
    var waits := Loop(policy, c, ps, seconds, now + seconds, now, turns, 0).1;
    forall k :: 0 <= k < |waits| ==> waits[k].begun < now + seconds
  }

  ghost predicate NeverLate(policy: Policy, c: Citation, ps: seq<Precondition>, leads: seq<nat>)
    requires |ps| <= |leads|
  {
    forall seconds: int, now: int, turns: seq<Turn> ::
      HasLeads(turns, leads) ==> OnTime(policy, c, ps, seconds, now, turns)
  }

  // The schedule in which nothing takes time but the leads, and every observer reports what is
  // expected.
  function Prompt(ps: seq<Precondition>, leads: seq<nat>): (turns: seq<Turn>)
    ensures HasLeads(turns, leads)
  {
    seq(|leads|, k requires 0 <= k < |leads| =>
      Turn(0, leads[k], 0, 0, 0, 0, Value(if k < |ps| then ps[k].expected else "")))
  }

  // Under it every reachable precondition is awaited, if the deadline lies behind the leads before.
  lemma {:induction false} PromptReaches(policy: Policy, c: Citation, ps: seq<Precondition>, leads: seq<nat>,
          seconds: int, deadline: int, now: int, i: nat, k: nat)
    requires |ps| <= |leads| && i <= k && Reachable(policy, c, ps, k)
    requires seconds >= 0 && now + Elapsed(Prompt(ps, leads), i, k) < deadline
    ensures k - i < |Loop(policy, c, ps, seconds, deadline, now, Prompt(ps, leads), i).1|
    decreases k - i
  {
    var turns := Prompt(ps, leads);
    hide Loop;
    LoopStep(policy, c, ps, seconds, deadline, now, turns, i);
    if i < k {
      PromptReaches(policy, c, ps, leads, seconds, deadline, now + Took(turns[i]), i + 1, k);
    }
  }

  lemma {:induction false} LateIfLeading(policy: Policy, c: Citation, ps: seq<Precondition>, leads: seq<nat>, k: nat)
    requires |ps| <= |leads| && Reachable(policy, c, ps, k) && leads[k] > 0
    ensures !NeverLate(policy, c, ps, leads)
  {
    var turns := Prompt(ps, leads);
    var seconds := Elapsed(turns, 0, k) + 1;
    PromptReaches(policy, c, ps, leads, seconds, seconds, 0, 0, k);
    LateByTheSchedule(policy, c, ps, seconds, 0, turns, k);
    hide Loop, Elapsed;
    assert !OnTime(policy, c, ps, seconds, 0, turns);
  }

  // Whatever the deadline, the clock and the observers do, every wait begins before the deadline
  // exactly when no reachable precondition leaves time between reading the clock and waiting.
  lemma {:induction false} NeverLateIff(policy: Policy, c: Citation, ps: seq<Precondition>, leads: seq<nat>)
    requires |ps| <= |leads|
    ensures NeverLate(policy, c, ps, leads) <==> forall k: nat :: Reachable(policy, c, ps, k) ==> leads[k] == 0
  {
    hide Loop;
    if k: nat :| Reachable(policy, c, ps, k) && leads[k] > 0 {
      LateIfLeading(policy, c, ps, leads, k);
    } else {
      forall seconds: int, now: int, turns: seq<Turn> | HasLeads(turns, leads)
        ensures OnTime(policy, c, ps, seconds, now, turns)
      {
        WaitsFitTheDeadline(policy, c, ps, seconds, now + seconds, now, turns, 0);
        var waits := Loop(policy, c, ps, seconds, now + seconds, now, turns, 0).1;
        forall k | 0 <= k < |waits| ensures waits[k].begun < now + seconds {
          WaitTimes(policy, c, ps, seconds, now + seconds, now, turns, 0, k);
        }
      }
    }
  }

  // It does happen: the clock is read before the deadline and not again before the wait.
  lemma {:induction false} LateStartHappens(c: Citation)
    ensures
      var policy := Policy([], map[KeyAt(c, 0) := ObserverBinding("observer", 5)]);
      var turn := Turn(29, 3, 0, 0, 0, 0, Value("running"));
      var waits := Loop(policy, c, [Precondition("name", "running")], 30, 30, 0, [turn], 0).1;
      |waits| == 1 && waits[0].read == 29 && waits[0].begun == 32
  {
    var policy := Policy([], map[KeyAt(c, 0) := ObserverBinding("observer", 5)]);
    var ps := [Precondition("name", "running")];
    var turns := [Turn(29, 3, 0, 0, 0, 0, Value("running"))];
    assert Loop(policy, c, ps, 30, 30, 32, turns, 1) == ([], []);
  }
}
