/** What holds of every run of the grouping protocol: groups partition the calls, timers match
    buffers, detached buffers are frozen, and each user gets one attempt with each event. */
module GroupingRuns {

  import opened Wrappers
  import opened Grouping

  // ---- What holds of every run ----

  /** Per event type, the flushed groups one after another and then the live buffer are the
      calls of enqueueGrouped, all of them, in order. */
  lemma GroupsPartitionCalls(window: int, steps: seq<Step>, k: string)
    requires Runs(window, steps)
    ensures var s := After(window, steps);
            Flushed(s.pool.buffers, s.timers, s.detached, k) + Waiting(s.pool, k) == OfKey(s.enqueued, k)
  {
    InvHolds(window, steps);
    assert KeyOrdered(After(window, steps), k);
  }

  /** The guard of flushGrouped is dead code: a callback that gets the lock finds the buffer it
      was armed for, with events in it. */
  lemma GuardNeverTaken(window: int, steps: seq<Step>, t: nat)
    requires Runs(window, steps)
    ensures var s := After(window, steps);
            && (t < |s.timers| ==> !s.timers[t].phase.Skipped?)
            && (Enabled(s, Take(t)) ==>
                  && Lookup(s.pool, s.timers[t].key) == Some(t)
                  && s.pool.buffers[t].records != []
                  && TakeStep(s, t).timers[t].phase == Sending(t, {}, None))
  {
    InvHolds(window, steps);
    var s := After(window, steps);
    if t < |s.timers| {
      assert TimerPaired(s.pool, s.timers, t);
      assert BufferStamped(window, s.now, s.pool.buffers[t], s.timers[t]);
    }
  }

  /** Timers that are still to take the lock and live buffers are in bijection by key. */
  lemma TimersMatchBuffers(window: int, steps: seq<Step>, k: string, t: nat)
    requires Runs(window, steps)
    ensures var s := After(window, steps);
            (k in s.pool.live && s.pool.live[k] == t) <==> (t < |s.timers| && s.timers[t].key == k && Pending(s.timers[t].phase))
  {
    InvHolds(window, steps);
    var s := After(window, steps);
    assert k in s.pool.live ==> KeyPaired(s.pool, s.timers, k);
    assert t < |s.timers| ==> TimerPaired(s.pool, s.timers, t);
  }

  /** The callback of timer t is past the lock, and its buffer out of the map. */
  predicate PastLock(s: State, t: nat) {
    t < |s.timers| == |s.pool.buffers| && !Pending(s.timers[t].phase)
  }

  lemma StepFreezes(window: int, s: State, step: Step, t: nat)
    requires Inv(window, s) && Enabled(s, step) && PastLock(s, t)
    ensures var s' := Apply(window, s, step); PastLock(s', t) && s'.pool.buffers[t] == s.pool.buffers[t]
  {
    InvKept(window, s, step);
    if step.Enqueue? && step.key in s.pool.live {
      assert KeyPaired(s.pool, s.timers, step.key);
    }
  }

  /** Once a buffer has left the map no later step, of any thread, changes it. */
  lemma {:induction false} DetachedIsFrozen(window: int, steps: seq<Step>, more: seq<Step>, t: nat)
    requires Runs(window, steps) && Runs(window, steps + more) && PastLock(After(window, steps), t)
    ensures var s, s' := After(window, steps), After(window, steps + more);
            PastLock(s', t) && s'.pool.buffers[t] == s.pool.buffers[t]
    decreases |more|
  {
    if |more| == 0 {
      assert steps + more == steps;
    } else {
      var n := |more| - 1;
      assert (steps + more)[..|steps| + n] == steps + more[..n];
      DetachedIsFrozen(window, steps, more[..n], t);
      InvHolds(window, steps + more[..n]);
      StepFreezes(window, After(window, steps + more[..n]), more[n], t);
    }
  }

  /** Timers never fire early, so two buffers of one type are created a window apart and no
      buffer is flushed sooner than a window after its creation. */
  lemma NeverEarly(window: int, steps: seq<Step>, t: nat, u: nat, entry: nat)
    requires Runs(window, steps)
    ensures var s := After(window, steps);
            && (t < u < |s.timers| && u < |s.pool.buffers| && s.timers[t].key == s.timers[u].key ==>
                  s.pool.buffers[t].createdAt + window <= s.pool.buffers[u].createdAt)
            && (entry < |s.detached| ==>
                  var d := s.detached[entry];
                  d.buffer < |s.pool.buffers| && s.pool.buffers[d.buffer].createdAt + window <= d.at)
  {
    InvHolds(window, steps);
    var s := After(window, steps);
    if t < u < |s.timers| {
      assert Apart(window, s.pool, s.timers, t, u);
    }
    if entry < |s.detached| {
      assert EntryLogged(s.now, s.timers, s.detached[entry]);
      var a := s.detached[entry].buffer;
      assert BufferStamped(window, s.now, s.pool.buffers[a], s.timers[a]);
    }
  }

  // ---- Exactly one attempt ----

  /** How often a record of type k occurs in the flushed groups. */
  function RecordCount(buffers: seq<Buffer>, timers: seq<Timer>, detached: seq<Detached>, k: string, r: Record): nat {
    multiset(Flushed(buffers, timers, detached, k))[r]
  }

  /** The last group adds its own occurrences. */
  lemma LastGroupCounts(buffers: seq<Buffer>, timers: seq<Timer>, detached: seq<Detached>, k: string, r: Record)
    requires |detached| > 0
    ensures var n := |detached| - 1;
            RecordCount(buffers, timers, detached, k, r) >= RecordCount(buffers, timers, detached[..n], k, r)
              + if r in RecordsOf(buffers, timers, k, detached[n].buffer) then 1 else 0
  {
  }

  /** A record of a logged group occurs in Flushed. */
  lemma {:induction false} InGroupInFlushed(buffers: seq<Buffer>, timers: seq<Timer>, detached: seq<Detached>,
                                            k: string, r: Record, i: nat)
    requires i < |detached| && r in RecordsOf(buffers, timers, k, detached[i].buffer)
    ensures RecordCount(buffers, timers, detached, k, r) >= 1
  {
    var n := |detached| - 1;
    LastGroupCounts(buffers, timers, detached, k, r);
    if i < n {
      assert detached[..n][i] == detached[i];
      InGroupInFlushed(buffers, timers, detached[..n], k, r, i);
    }
  }

  /** A record of two logged groups occurs twice. */
  lemma {:induction false} InTwoGroupsInFlushed(buffers: seq<Buffer>, timers: seq<Timer>, detached: seq<Detached>,
                                                k: string, r: Record, i: nat, j: nat)
    requires i < j < |detached|
    requires r in RecordsOf(buffers, timers, k, detached[i].buffer)
    requires r in RecordsOf(buffers, timers, k, detached[j].buffer)
    ensures RecordCount(buffers, timers, detached, k, r) >= 2
  {
    var n := |detached| - 1;
    var before := detached[..n];
    LastGroupCounts(buffers, timers, detached, k, r);
    assert before[i] == detached[i];
    if j < n {
      assert before[j] == detached[j];
      InTwoGroupsInFlushed(buffers, timers, before, k, r, i, j);
    } else {
      InGroupInFlushed(buffers, timers, before, k, r, i);
    }
  }

  /** A record of Flushed belongs to some logged group. */
  lemma {:induction false} InFlushedInGroup(buffers: seq<Buffer>, timers: seq<Timer>, detached: seq<Detached>,
                                            k: string, r: Record) returns (i: nat)
    requires r in Flushed(buffers, timers, detached, k)
    ensures i < |detached| && r in RecordsOf(buffers, timers, k, detached[i].buffer)
  {
    var n := |detached| - 1;
    if r in RecordsOf(buffers, timers, k, detached[n].buffer) {
      i := n;
    } else {
      i := InFlushedInGroup(buffers, timers, detached[..n], k, r);
    }
  }

  /** Call number i is the only occurrence of its record among the calls. */
  lemma {:induction false} OfKeyOnce(calls: seq<(string, Record)>, k: string, r: Record)
    requires Numbered(calls)
    ensures multiset(OfKey(calls, k))[r] == if r.serial < |calls| && calls[r.serial] == (k, r) then 1 else 0
  {
    if |calls| > 0 {
      OfKeyOnce(calls[..|calls| - 1], k, r);
    }
  }

  /** The buffer that holds call number i: waiting in the map or detached. */
  lemma HomeOfCall(window: int, s: State, i: nat) returns (t: nat)
    requires Inv(window, s) && i < |s.enqueued|
    ensures t < |s.timers| && s.timers[t].key == s.enqueued[i].0 && s.enqueued[i].1 in s.pool.buffers[t].records
  {
    var k, r := s.enqueued[i].0, s.enqueued[i].1;
    var flushed, waiting := Flushed(s.pool.buffers, s.timers, s.detached, k), Waiting(s.pool, k);
    assert KeyOrdered(s, k);
    OfKeyOnce(s.enqueued, k, r);
    assert multiset(flushed)[r] + multiset(waiting)[r] == multiset(flushed + waiting)[r] == 1;
    if r in flushed {
      var n := InFlushedInGroup(s.pool.buffers, s.timers, s.detached, k, r);
      t := s.detached[n].buffer;
    } else {
      assert r in waiting;
      t := s.pool.live[k];
      assert KeyPaired(s.pool, s.timers, k);
    }
  }

  /** A record in a buffer is the call of its number, of the buffer's type, and occurs only once
      among the flushed groups and the live buffer of that type. */
  lemma CallOfHome(window: int, s: State, t: nat, r: Record)
    requires Inv(window, s)
    requires t < |s.timers| && r in s.pool.buffers[t].records
    ensures r.serial < |s.enqueued| && s.enqueued[r.serial] == (s.timers[t].key, r)
    ensures RecordCount(s.pool.buffers, s.timers, s.detached, s.timers[t].key, r)
            + multiset(Waiting(s.pool, s.timers[t].key))[r] == 1
  {
    var k := s.timers[t].key;
    var flushed, waiting := Flushed(s.pool.buffers, s.timers, s.detached, k), Waiting(s.pool, k);
    assert KeyOrdered(s, k);
    OfKeyOnce(s.enqueued, k, r);
    assert multiset(flushed)[r] + multiset(waiting)[r] == multiset(flushed + waiting)[r] <= 1;
    assert TimerPaired(s.pool, s.timers, t);
    if !Pending(s.timers[t].phase) {
      LoggedRecord(window, s, k, r, t);
    }
  }

  /** No record sits in two buffers. */
  lemma OneHome(window: int, s: State, r: Record, t: nat, u: nat)
    requires Inv(window, s)
    requires t < |s.timers| && r in s.pool.buffers[t].records
    requires u < |s.timers| && r in s.pool.buffers[u].records
    ensures t == u
  {
    var k := s.timers[t].key;
    CallOfHome(window, s, t, r);
    CallOfHome(window, s, u, r);
    assert TimerPaired(s.pool, s.timers, t) && TimerPaired(s.pool, s.timers, u);
    if Pending(s.timers[t].phase) {
      if !Pending(s.timers[u].phase) { LoggedRecord(window, s, k, r, u); }
    } else {
      LoggedRecord(window, s, k, r, t);
      if !Pending(s.timers[u].phase) { LoggedTwice(window, s, k, r, t, u); }
    }
  }

  lemma LoggedRecord(window: int, s: State, k: string, r: Record, t: nat)
    requires Inv(window, s)
    requires t < |s.timers| && s.timers[t].key == k && r in s.pool.buffers[t].records && !Pending(s.timers[t].phase)
    ensures RecordCount(s.pool.buffers, s.timers, s.detached, k, r) >= 1
  {
    assert InLog(s.detached, t);
    var i :| 0 <= i < |s.detached| && s.detached[i].buffer == t;
    InGroupInFlushed(s.pool.buffers, s.timers, s.detached, k, r, i);
  }

  lemma LoggedTwice(window: int, s: State, k: string, r: Record, t: nat, u: nat)
    requires Inv(window, s)
    requires t < |s.timers| && s.timers[t].key == k && r in s.pool.buffers[t].records && !Pending(s.timers[t].phase)
    requires u < |s.timers| && s.timers[u].key == k && r in s.pool.buffers[u].records && !Pending(s.timers[u].phase)
    requires RecordCount(s.pool.buffers, s.timers, s.detached, k, r) <= 1
    ensures t == u
  {
    assert InLog(s.detached, t) && InLog(s.detached, u);
    var i :| 0 <= i < |s.detached| && s.detached[i].buffer == t;
    var j :| 0 <= j < |s.detached| && s.detached[j].buffer == u;
    if i < j {
      InTwoGroupsInFlushed(s.pool.buffers, s.timers, s.detached, k, r, i, j);
    } else if j < i {
      InTwoGroupsInFlushed(s.pool.buffers, s.timers, s.detached, k, r, j, i);
    }
  }

  lemma {:induction false} UsersOfMember(records: seq<Record>, r: Record)
    requires r in records
    ensures r.users <= UsersOf(records)
  {
    var n := |records| - 1;
    if r != records[n] { UsersOfMember(records[..n], r); }
  }

  lemma {:induction false} UsersOfSomeone(records: seq<Record>, u: string) returns (i: nat)
    requires u in UsersOf(records)
    ensures i < |records| && u in records[i].users
  {
    var n := |records| - 1;
    if u in records[n].users { i := n; } else { i := UsersOfSomeone(records[..n], u); }
  }

  /** Buffer t holds call number i, and among all attempts to u whose group contains the call there
      is exactly one, with the records of t, once the callback of t has come to u, and none before. */
  ghost predicate AttemptsWith(s: State, i: nat, u: string, t: nat)
    requires i < |s.enqueued|
  {
    && t < |s.timers| == |s.pool.buffers|
    && s.timers[t].key == s.enqueued[i].0
    && s.enqueued[i].1 in s.pool.buffers[t].records
    && forall x: Attempt {:trigger s.attempts[x]} ::
         x.user == u && s.enqueued[i].1 in x.records ==>
           s.attempts[x] ==
             if x == Attempt(t, u, s.pool.buffers[t].records) && Tried(s.pool.buffers, s.timers, t, u) then 1 else 0
  }

  /** Call number i of a run and a user u looked up for it: one buffer t of the event's type holds
      the call and has u among its users, and u's attempts with the call are those of t. */
  ghost predicate OneAttempt(s: State, i: nat, u: string, t: nat)
    requires i < |s.enqueued|
  {
    AttemptsWith(s, i, u, t) && u in s.pool.buffers[t].users
  }

  lemma AttemptsWithCall(window: int, steps: seq<Step>, i: nat, u: string) returns (t: nat)
    requires Runs(window, steps) && i < |After(window, steps).enqueued|
    ensures AttemptsWith(After(window, steps), i, u, t)
  {
    InvHolds(window, steps);
    var s := After(window, steps);
    t := HomeOfCall(window, s, i);
    forall x: Attempt | x.user == u && s.enqueued[i].1 in x.records
      ensures s.attempts[x] ==
              if x == Attempt(t, u, s.pool.buffers[t].records) && Tried(s.pool.buffers, s.timers, t, u) then 1 else 0
    {
      assert s.attempts[x] == Multiplicity(s, x);
      if Multiplicity(s, x) == 1 {
        OneHome(window, s, s.enqueued[i].1, x.buffer, t);
      }
    }
  }

  lemma ExactlyOneAttempt(window: int, steps: seq<Step>, i: nat, u: string) returns (t: nat)
    requires Runs(window, steps)
    requires i < |After(window, steps).enqueued| && u in After(window, steps).enqueued[i].1.users
    ensures OneAttempt(After(window, steps), i, u, t)
  {
    InvHolds(window, steps);
    var s := After(window, steps);
    t := AttemptsWithCall(window, steps, i, u);
    UsersOfMember(s.pool.buffers[t].records, s.enqueued[i].1);
    assert BufferStamped(window, s.now, s.pool.buffers[t], s.timers[t]);
  }

}
