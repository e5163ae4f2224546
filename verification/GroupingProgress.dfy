/** What a run of the grouping protocol comes to: callbacks can always be run to their ends, and
    with timers that are not overslept every event is flushed within one window. */
module GroupingProgress {

  import opened Grouping
  import opened GroupingRuns
  import opened Sums
  import opened Webhook
  import opened Wrappers

  // ---- How much is left to do ----

  /** The steps that the callback of timer t has before it. */
  function Remaining(s: State, t: nat): nat {
    if !(t < |s.timers| == |s.pool.buffers|) then 0 else
    match s.timers[t].phase
    case Armed => 2 * |s.pool.buffers[t].users| + 3
    case Fired => 2 * |s.pool.buffers[t].users| + 2
    case Sending(_, done, inFlight) => 2 * |s.pool.buffers[t].users - done| + if inFlight.Some? then 0 else 1
    case _ => 0
  }

  function Remainings(s: State): (r: seq<nat>)
    ensures |r| == |s.timers|
  {
    seq(|s.timers|, t requires 0 <= t < |s.timers| => Remaining(s, t))
  }

  /** The steps that all callbacks have before them. */
  function Work(s: State): nat {
    Total(Remainings(s))
  }

  /** From s to s' nothing but the callback of timer t has moved on. */
  ghost predicate OnlyTimer(s: State, s': State, t: nat) {
    && s'.enqueued == s.enqueued && s'.pool.buffers == s.pool.buffers && |s'.timers| == |s.timers|
    && forall u :: 0 <= u < |s.timers| && u != t ==> s'.timers[u] == s.timers[u]
  }

  predicate OfCallback(step: Step) {
    !step.Tick? && !step.Enqueue?
  }

  /** A callback that gets the lock has the users of its buffer before it. */
  lemma TakeWorks(s: State, t: nat)
    requires Paired(s.pool, s.timers) && Enabled(s, Take(t)) && |s.pool.buffers[t].records| > 0
    ensures OnlyTimer(s, TakeStep(s, t), t) && Remaining(TakeStep(s, t), t) + 1 == Remaining(s, t)
  {
    TakeFindsOwn(s, t);
    assert s.pool.buffers[t].users - {} == s.pool.buffers[t].users;
  }

  lemma LocalWorks(s: State, step: Step)
    requires step.Fire? || step.Send? || step.Count? || step.Finish?
    requires Enabled(s, step) && |s.timers| == |s.pool.buffers| && TimerPaired(s.pool, s.timers, step.timer)
    ensures OnlyTimer(s, LocalStep(s, step), step.timer)
    ensures Remaining(LocalStep(s, step), step.timer) + 1 == Remaining(s, step.timer)
  {
    var t := step.timer;
    if step.Count? {
      var users, done, u := s.pool.buffers[t].users, s.timers[t].phase.done, s.timers[t].phase.inFlight.value;
      assert users - (done + {u}) == (users - done) - {u};
    } else if step.Finish? {
      assert s.pool.buffers[t].users - s.timers[t].phase.done == {};
    }
  }

  /** Every step of a callback takes one off what it has before it, and nothing else. */
  lemma StepWorks(window: int, s: State, step: Step)
    requires Inv(window, s) && Enabled(s, step) && OfCallback(step)
    ensures step.timer < |s.timers| && OnlyTimer(s, Apply(window, s, step), step.timer)
    ensures Remaining(Apply(window, s, step), step.timer) + 1 == Remaining(s, step.timer)
  {
    if step.Take? {
      assert BufferStamped(window, s.now, s.pool.buffers[step.timer], s.timers[step.timer]);
      TakeWorks(s, step.timer);
    } else {
      assert TimerPaired(s.pool, s.timers, step.timer);
      LocalWorks(s, step);
    }
  }

  lemma OneTimerWorks(s: State, s': State, t: nat)
    requires t < |s.timers| && |s.timers| == |s.pool.buffers| && OnlyTimer(s, s', t)
    ensures Work(s') + Remaining(s, t) == Work(s) + Remaining(s', t)
  {
    TotalUpdate(Remainings(s), t, Remaining(s', t));
    assert Remainings(s') == Remainings(s)[t := Remaining(s', t)];
  }

  /** As long as nothing is enqueued, the steps of callbacks, and only they, take off the work. */
  lemma WorkOfStep(window: int, s: State, step: Step)
    requires Inv(window, s) && Enabled(s, step) && !step.Enqueue?
    ensures Work(Apply(window, s, step)) + (if OfCallback(step) then 1 else 0) == Work(s)
    ensures Apply(window, s, step).enqueued == s.enqueued
  {
    if OfCallback(step) {
      StepWorks(window, s, step);
      OneTimerWorks(s, Apply(window, s, step), step.timer);
    } else {
      assert Remainings(Apply(window, s, step)) == Remainings(s);
    }
  }

  // ---- Nothing gets stuck ----

  /** The next step of a callback that is walking the users of its buffer. */
  lemma NextSending(s: State, t: nat) returns (step: Step)
    requires t < |s.timers| == |s.pool.buffers| && TimerPaired(s.pool, s.timers, t) && s.timers[t].phase.Sending?
    ensures Enabled(s, step) && OfCallback(step) && step.timer == t
  {
    var users, done := s.pool.buffers[t].users, s.timers[t].phase.done;
    if s.timers[t].phase.inFlight.Some? {
      step := Count(t);
    } else if users <= done {
      step := Finish(t);
    } else {
      var u :| u in users && u !in done;
      step := Send(t, u);
    }
  }

  lemma SomeStep(s: State, t: nat) returns (step: Step)
    requires t < |s.timers| == |s.pool.buffers| && TimerPaired(s.pool, s.timers, t)
    requires !s.timers[t].phase.Returned? && (s.timers[t].phase.Armed? ==> s.timers[t].due <= s.now)
    ensures Enabled(s, step) && OfCallback(step) && step.timer == t
  {
    match s.timers[t].phase
    case Armed => step := Fire(t);
    case Fired => step := Take(t);
    case Sending(_, _, _) => step := NextSending(s, t);
  }

  /** A step of the callback of timer t that can be taken, after waiting if need be. */
  lemma NextStep(window: int, s: State, t: nat) returns (step: Step)
    requires Inv(window, s) && t < |s.timers|
    requires !s.timers[t].phase.Returned? && (s.timers[t].phase.Armed? ==> s.timers[t].due <= s.now)
    ensures Enabled(s, step) && OfCallback(step) && step.timer == t
    ensures OnlyTimer(s, Apply(window, s, step), t) && Remaining(Apply(window, s, step), t) + 1 == Remaining(s, t)
  {
    assert TimerPaired(s.pool, s.timers, t);
    step := SomeStep(s, t);
    StepWorks(window, s, step);
  }

  /** The callback can always wait for its time and make a step. */
  lemma DrainOnce(window: int, steps: seq<Step>, t: nat) returns (turn: seq<Step>)
    requires Runs(window, steps)
    requires var s := After(window, steps); t < |s.timers| && !s.timers[t].phase.Returned?
    ensures Runs(window, steps + turn)
    ensures OnlyTimer(After(window, steps), After(window, steps + turn), t)
    ensures Remaining(After(window, steps + turn), t) < Remaining(After(window, steps), t)
  {
    InvHolds(window, steps);
    var s := After(window, steps);
    var wait := Tick(if s.timers[t].due > s.now then s.timers[t].due - s.now else 0);
    Extend(window, steps, wait);
    InvHolds(window, steps + [wait]);
    var step := NextStep(window, After(window, steps + [wait]), t);
    Extend(window, steps + [wait], step);
    turn := [wait, step];
    assert steps + turn == steps + [wait] + [step];
  }

  /** From any reachable state the callback of timer t can run to its end, alone. */
  lemma {:induction false} DrainTimer(window: int, steps: seq<Step>, t: nat) returns (more: seq<Step>)
    requires Runs(window, steps) && t < |After(window, steps).timers|
    ensures Runs(window, steps + more)
    ensures OnlyTimer(After(window, steps), After(window, steps + more), t)
    ensures After(window, steps + more).timers[t].phase.Returned?
    decreases Remaining(After(window, steps), t)
  {
    if After(window, steps).timers[t].phase.Returned? {
      more := [];
      assert steps + more == steps;
    } else {
      var turn := DrainOnce(window, steps, t);
      var rest := DrainTimer(window, steps + turn, t);
      more := turn + rest;
      assert steps + more == steps + turn + rest;
    }
  }

  /** The callbacks of the first n timers can all run to their ends. */
  lemma {:induction false} Drain(window: int, steps: seq<Step>, n: nat) returns (more: seq<Step>)
    requires Runs(window, steps) && n <= |After(window, steps).timers|
    ensures Runs(window, steps + more)
    ensures var s, s' := After(window, steps), After(window, steps + more);
            && s'.enqueued == s.enqueued && s'.pool.buffers == s.pool.buffers && |s'.timers| == |s.timers|
            && (forall t :: 0 <= t < n ==> s'.timers[t].phase.Returned?)
  {
    if n == 0 {
      more := [];
      assert steps + more == steps;
    } else {
      var first := Drain(window, steps, n - 1);
      var last := DrainTimer(window, steps + first, n - 1);
      more := first + last;
      assert steps + more == steps + first + last;
    }
  }

  predicate AllReturned(s: State) {
    forall t :: 0 <= t < |s.timers| ==> s.timers[t].phase.Returned?
  }

  /** Every user looked up for every event has got exactly one attempt with that event. */
  ghost predicate AllDelivered(s: State) {
    forall i: nat, u :: i < |s.enqueued| && u in s.enqueued[i].1.users ==>
      exists t: nat :: OneAttempt(s, i, u, t) && s.attempts[Attempt(t, u, s.pool.buffers[t].records)] == 1
  }

  lemma ReturnedDelivered(window: int, steps: seq<Step>)
    requires Runs(window, steps) && AllReturned(After(window, steps))
    ensures AllDelivered(After(window, steps))
  {
    var s := After(window, steps);
    forall i: nat, u | i < |s.enqueued| && u in s.enqueued[i].1.users
      ensures exists t: nat :: OneAttempt(s, i, u, t) && s.attempts[Attempt(t, u, s.pool.buffers[t].records)] == 1
    {
      var t := ExactlyOneAttempt(window, steps, i, u);
      assert s.timers[t].phase.Returned?;
      assert s.attempts[Attempt(t, u, s.pool.buffers[t].records)] == 1;
    }
  }

  /** Whatever has happened so far, the process can go on, without new events, to a state where
      all is delivered. */
  lemma AllCallsCanBeDelivered(window: int, steps: seq<Step>) returns (more: seq<Step>)
    requires Runs(window, steps)
    ensures Runs(window, steps + more)
    ensures After(window, steps + more).enqueued == After(window, steps).enqueued
    ensures AllReturned(After(window, steps + more)) && AllDelivered(After(window, steps + more))
  {
    more := Drain(window, steps, |After(window, steps).timers|);
    ReturnedDelivered(window, steps + more);
  }

  // ---- Every way of going on ends there ----

  function CallbackSteps(steps: seq<Step>): nat {
    if |steps| == 0 then 0
    else CallbackSteps(steps[..|steps| - 1]) + if OfCallback(steps[|steps| - 1]) then 1 else 0
  }

  predicate NothingNew(steps: seq<Step>) {
    forall i :: 0 <= i < |steps| ==> !steps[i].Enqueue?
  }

  /** However a run goes on without new events, the steps its callbacks make and the work left add
      up to the work there was. */
  lemma {:induction false} WorkIsDone(window: int, steps: seq<Step>, more: seq<Step>)
    requires Runs(window, steps) && Runs(window, steps + more) && NothingNew(more)
    ensures CallbackSteps(more) + Work(After(window, steps + more)) == Work(After(window, steps))
    ensures After(window, steps + more).enqueued == After(window, steps).enqueued
    decreases |more|
  {
    if |more| == 0 {
      assert steps + more == steps;
    } else {
      var n := |more| - 1;
      assert (steps + more)[..|steps| + n] == steps + more[..n];
      WorkIsDone(window, steps, more[..n]);
      InvHolds(window, steps + more[..n]);
      WorkOfStep(window, After(window, steps + more[..n]), more[n]);
    }
  }

  lemma NoWorkIsReturned(window: int, s: State)
    requires Inv(window, s)
    ensures Work(s) == 0 <==> AllReturned(s)
  {
    forall t: nat | t < |s.timers| ensures Remainings(s)[t] == 0 <==> s.timers[t].phase.Returned? {
      assert TimerPaired(s.pool, s.timers, t);
      if s.timers[t].phase.Sending? && s.timers[t].phase.inFlight.Some? {
        assert s.timers[t].phase.inFlight.value in s.pool.buffers[t].users - s.timers[t].phase.done;
      }
    }
    if Work(s) == 0 {
      forall t: nat | t < |s.timers| ensures s.timers[t].phase.Returned? { TotalAtLeast(Remainings(s), t); }
    } else if AllReturned(s) {
      TotalZero(Remainings(s));
    }
  }

  function Later(s: State, d: nat): State {
    s.(now := s.now + d)
  }

  /** No callback can move, now or later. */
  ghost predicate AtAnEnd(s: State) {
    forall d: nat, step :: OfCallback(step) ==> !Enabled(Later(s, d), step)
  }

  lemma CanMove(window: int, s: State, t: nat)
    requires Inv(window, s) && t < |s.timers| && !s.timers[t].phase.Returned?
    ensures !AtAnEnd(s)
  {
    var d: nat := if s.timers[t].due > s.now then s.timers[t].due - s.now else 0;
    InvKept(window, s, Tick(d));
    var step := NextStep(window, Later(s, d), t);
    assert OfCallback(step) && Enabled(Later(s, d), step);
  }

  lemma EndIsReturned(window: int, s: State)
    requires Inv(window, s) && AtAnEnd(s)
    ensures AllReturned(s)
  {
    forall t: nat | t < |s.timers| ensures s.timers[t].phase.Returned? {
      if !s.timers[t].phase.Returned? { CanMove(window, s, t); }
    }
  }

  /** Every way of going on without new events makes at most as many callback steps as there is
      work, comes to its end exactly after so many, and then all callbacks have returned and
      all is delivered; it cannot stop for good before. */
  lemma EveryContinuationDelivers(window: int, steps: seq<Step>, more: seq<Step>)
    requires Runs(window, steps) && Runs(window, steps + more) && NothingNew(more)
    ensures CallbackSteps(more) <= Work(After(window, steps))
    ensures var s := After(window, steps + more);
            && (CallbackSteps(more) == Work(After(window, steps)) <==> AllReturned(s))
            && (AtAnEnd(s) ==> AllReturned(s))
            && (AllReturned(s) ==> AllDelivered(s))
            && s.enqueued == After(window, steps).enqueued
  {
    var s := After(window, steps + more);
    WorkIsDone(window, steps, more);
    InvHolds(window, steps + more);
    NoWorkIsReturned(window, s);
    if AtAnEnd(s) { EndIsReturned(window, s); }
    if AllReturned(s) { ReturnedDelivered(window, steps + more); }
  }

  /** A user is told all events of a group, also those for which nobody looked the user up: here b
      gets the first event, that came when only a was subscribed. */
  lemma OthersAreToldToo(window: int, key: string, first: Event, second: Event, a: string, b: string) returns (steps: seq<Step>)
    requires a != b
    ensures Runs(window, steps) && AllReturned(After(window, steps))
    ensures var s := After(window, steps);
            && |s.enqueued| == 2 && s.enqueued[0].1.users == {a} && s.enqueued[1].1.users == {b}
            && s.attempts[Attempt(0, b, [s.enqueued[0].1, s.enqueued[1].1])] == 1
  {
    var one, two := Enqueue(key, first, {a}), Enqueue(key, second, {b});
    Extend(window, [], one);
    Extend(window, [one], two);
    assert [] + [one] == [one] && [one] + [two] == [one, two];
    var s := After(window, [one, two]);
    var r0, r1 := Record(0, first, {a}, 0), Record(1, second, {b}, 0);
    var s1 := After(window, [one]);
    assert s1.enqueued == [(key, r0)] && s1.pool == Pool(map[key := 0], [Buffer(0, [r0], {a})]);
    assert Lookup(s1.pool, key) == Some(0);
    assert s.enqueued == [(key, r0), (key, r1)];
    assert s.pool.buffers[0] == Buffer(0, [r0, r1], {a} + {b});
    var more := Drain(window, [one, two], 1);
    steps := [one, two] + more;
    InvHolds(window, steps);
    assert After(window, steps).attempts[Attempt(0, b, [r0, r1])] == Multiplicity(After(window, steps), Attempt(0, b, [r0, r1]));
  }

  // ---- Time bounds when no due timer is overslept ----

  predicate Punctual(s: State, d: nat) {
    forall t :: 0 <= t < |s.timers| && Pending(s.timers[t].phase) ==> s.now + d <= s.timers[t].due
  }

  /** Runs in which the clock never passes a timer that is due. */
  predicate Prompt(window: int, steps: seq<Step>)
    requires Runs(window, steps)
  {
    forall i :: 0 <= i < |steps| && steps[i].Tick? && Runs(window, steps[..i]) ==> Punctual(After(window, steps[..i]), steps[i].delay)
  }

  predicate BufferPrompt(b: Buffer, timer: Timer) {
    forall i :: 0 <= i < |b.records| ==> b.records[i].at <= timer.due
  }

  ghost predicate OnTime(s: State) {
    && |s.timers| == |s.pool.buffers|
    && Punctual(s, 0)
    && (forall t: nat :: t < |s.timers| ==> BufferPrompt(s.pool.buffers[t], s.timers[t]))
    && (forall i :: 0 <= i < |s.detached| ==>
          s.detached[i].buffer < |s.timers| && s.detached[i].at == s.timers[s.detached[i].buffer].due)
  }

  lemma OnTimeEnqueue(window: int, s: State, key: string, record: Record)
    requires window >= 0 && Paired(s.pool, s.timers) && OnTime(s) && record.at == s.now
    ensures OnTime(EnqueueStep(window, s, key, record))
  {
    var s' := EnqueueStep(window, s, key, record);
    assert key in s.pool.live ==> KeyPaired(s.pool, s.timers, key);
    forall t: nat | t < |s'.timers| ensures BufferPrompt(s'.pool.buffers[t], s'.timers[t]) {
      if t < |s.timers| { assert BufferPrompt(s.pool.buffers[t], s.timers[t]); }
    }
  }

  lemma OnTimeTake(window: int, s: State, t: nat)
    requires Paired(s.pool, s.timers) && Stamped(window, s) && OnTime(s) && Enabled(s, Take(t))
    ensures OnTime(TakeStep(s, t))
  {
    var s' := TakeStep(s, t);
    TakeFindsOwn(s, t);
    assert BufferStamped(window, s.now, s.pool.buffers[t], s.timers[t]);
    forall u: nat | u < |s'.timers| ensures BufferPrompt(s'.pool.buffers[u], s'.timers[u]) {
      assert BufferPrompt(s.pool.buffers[u], s.timers[u]);
    }
  }

  lemma OnTimeLocal(s: State, step: Step)
    requires OnTime(s)
    requires step.Fire? || step.Send? || step.Count? || step.Finish?
    requires Enabled(s, step)
    ensures OnTime(LocalStep(s, step))
  {
    var s' := LocalStep(s, step);
    forall u: nat | u < |s'.timers| ensures BufferPrompt(s'.pool.buffers[u], s'.timers[u]) {
      assert BufferPrompt(s.pool.buffers[u], s.timers[u]);
    }
  }

  lemma OnTimeKept(window: int, s: State, step: Step)
    requires window >= 0 && Inv(window, s) && OnTime(s) && Enabled(s, step)
    requires step.Tick? ==> Punctual(s, step.delay)
    ensures OnTime(Apply(window, s, step))
  {
    match step
    case Tick(d) =>
    case Enqueue(key, event, users) => OnTimeEnqueue(window, s, key, Record(|s.enqueued|, event, users, s.now));
    case Take(t) => OnTimeTake(window, s, t);
    case _ => OnTimeLocal(s, step);
  }

  lemma {:induction false} OnTimeHolds(window: int, steps: seq<Step>)
    requires window >= 0 && Runs(window, steps) && Prompt(window, steps)
    ensures OnTime(After(window, steps))
  {
    if |steps| > 0 {
      var n := |steps| - 1;
      forall i | 0 <= i < n && steps[..n][i].Tick? && Runs(window, steps[..n][..i])
        ensures Punctual(After(window, steps[..n][..i]), steps[..n][i].delay)
      {
        assert steps[..n][..i] == steps[..i];
      }
      OnTimeHolds(window, steps[..n]);
      InvHolds(window, steps[..n]);
      OnTimeKept(window, After(window, steps[..n]), steps[n]);
    }
  }

  /** In such a run an event is flushed no later than one window after it was enqueued, the
      events of a group were enqueued within one window, and no waiting event is older. */
  lemma WithinOneWindow(window: int, steps: seq<Step>, t: nat, i: nat, j: nat)
    requires window >= 0 && Runs(window, steps) && Prompt(window, steps)
    requires var s := After(window, steps); t < |s.pool.buffers| && i <= j < |s.pool.buffers[t].records|
    ensures var s := After(window, steps);
            var records := s.pool.buffers[t].records;
            && t < |s.timers|
            && records[j].at - records[i].at <= window
            && (forall n :: 0 <= n < |s.detached| && s.detached[n].buffer == t ==>
                  records[i].at <= s.detached[n].at <= records[i].at + window)
            && (Pending(s.timers[t].phase) ==> s.now <= records[i].at + window)
  {
    InvHolds(window, steps);
    OnTimeHolds(window, steps);
    var s := After(window, steps);
    assert BufferStamped(window, s.now, s.pool.buffers[t], s.timers[t]);
    assert BufferPrompt(s.pool.buffers[t], s.timers[t]);
  }

}
