/** The grouping protocol of internal/notifications/service.go as a step machine.

    Webhook threads append to the buffer of an event type under a mutex; the
    first one of a type allocates the buffer and arms a one-shot timer whose
    callback remembers only the type.  Callbacks detach the buffer under the
    mutex and walk its users without it.  Every critical section is one step;
    everything else interleaves freely.
*/
module Grouping {

  import opened Wrappers
  import opened Webhook

  /** One call of enqueueGrouped: its number, the event, the users looked up for it and the time. */
  datatype Record = Record(serial: nat, event: Event, users: set<string>, at: int)

  /** A groupBuffer; `records` carries its event list, annotated with who was looked up and when. */
  datatype Buffer = Buffer(createdAt: int, records: seq<Record>, users: set<string>)

  /** Where the callback of a timer is: not started, started but before the lock, past the
      lock with nothing to send, walking the users of a buffer, or finished. */
  datatype Phase =
    | Armed
    | Fired
    | Skipped
    | Sending(buffer: nat, done: set<string>, inFlight: Option<string>)
    | Returned

  /** A timer and the goroutine it starts; the callback captures only `key`. */
  datatype Timer = Timer(key: string, due: int, phase: Phase)

  /** A buffer leaving the map at some time. */
  datatype Detached = Detached(buffer: nat, at: int)

  /** A call of the messenger for one user, with the events read from the buffer at that moment. */
  datatype Attempt = Attempt(buffer: nat, user: string, records: seq<Record>)

  /** The map of live buffers and every buffer ever allocated, by address. */
  datatype Pool = Pool(live: map<string, nat>, buffers: seq<Buffer>)

  /** Timer number i is the one armed when buffer number i was allocated.  `enqueued`,
      `detached` and `attempts` are the history. */
  datatype State = State(
    now: int,
    pool: Pool,
    timers: seq<Timer>,
    enqueued: seq<(string, Record)>,
    detached: seq<Detached>,
    attempts: multiset<Attempt>)

  datatype Step =
    | Tick(delay: nat)
    | Enqueue(key: string, event: Event, users: set<string>)
    | Fire(timer: nat)
    | Take(timer: nat)
    | Send(timer: nat, user: string)
    | Count(timer: nat)
    | Finish(timer: nat)

  function Lookup(pool: Pool, key: string): Option<nat> {
    if key in pool.live && pool.live[key] < |pool.buffers| then Some(pool.live[key]) else None
  }

  function Append(buffer: Buffer, record: Record): Buffer {
    Buffer(buffer.createdAt, buffer.records + [record], buffer.users + record.users)
  }

  /** The map and the buffers after one locked section of enqueueGrouped. */
  function Put(pool: Pool, key: string, record: Record): Pool {
    match Lookup(pool, key)
    case Some(a) => Pool(pool.live, pool.buffers[a := Append(pool.buffers[a], record)])
    case None => Pool(pool.live[key := |pool.buffers|], pool.buffers + [Buffer(record.at, [record], record.users)])
  }

  /** The map after one locked section of flushGrouped. */
  function Detach(pool: Pool, key: string): Pool {
    Pool(pool.live - {key}, pool.buffers)
  }

  function Init(): State {
    State(0, Pool(map[], []), [], [], [], multiset{})
  }

  /** The buffer that the callback of timer t is walking has been allocated. */
  predicate Walking(s: State, t: nat) {
    t < |s.timers| && s.timers[t].phase.Sending? && s.timers[t].phase.buffer < |s.pool.buffers|
  }

  predicate Enabled(s: State, step: Step) {
    match step
    case Tick(_) => true
    case Enqueue(_, _, _) => true
    case Fire(t) => t < |s.timers| && s.timers[t].phase.Armed? && s.timers[t].due <= s.now
    case Take(t) => t < |s.timers| && s.timers[t].phase.Fired?
    case Send(t, u) =>
      && Walking(s, t) && s.timers[t].phase.inFlight.None?
      && u in s.pool.buffers[s.timers[t].phase.buffer].users && u !in s.timers[t].phase.done
    case Count(t) => Walking(s, t) && s.timers[t].phase.inFlight.Some?
    case Finish(t) =>
      && Walking(s, t) && s.timers[t].phase.inFlight.None?
      && s.pool.buffers[s.timers[t].phase.buffer].users <= s.timers[t].phase.done
  }

  function SetPhase(timers: seq<Timer>, t: nat, phase: Phase): seq<Timer>
    requires t < |timers|
  {
    timers[t := Timer(timers[t].key, timers[t].due, phase)]
  }

  function EnqueueStep(window: int, s: State, key: string, record: Record): State {
    State(s.now, Put(s.pool, key, record),
          if Lookup(s.pool, key).Some? then s.timers else s.timers + [Timer(key, s.now + window, Armed)],
          s.enqueued + [(key, record)], s.detached, s.attempts)
  }

  /** What the callback does once it holds the lock: look its key up, delete the entry, and
      send unless there was no buffer or the buffer had no events. */
  function TakeStep(s: State, t: nat): State
    requires t < |s.timers|
  {
    var found := Lookup(s.pool, s.timers[t].key);
    State(s.now, Detach(s.pool, s.timers[t].key),
          SetPhase(s.timers, t,
                   if found.Some? && s.pool.buffers[found.value].records != [] then Sending(found.value, {}, None)
                   else Skipped),
          s.enqueued,
          if found.Some? then s.detached + [Detached(found.value, s.now)] else s.detached,
          s.attempts)
  }

  /** The next phase of a callback on a step that needs no lock. */
  function NextPhase(s: State, step: Step): Phase
    requires step.Fire? || step.Send? || step.Count? || step.Finish?
    requires Enabled(s, step)
  {
    match step
    case Fire(_) => Fired
    case Send(t, u) => Sending(s.timers[t].phase.buffer, s.timers[t].phase.done, Some(u))
    case Count(t) =>
      Sending(s.timers[t].phase.buffer, s.timers[t].phase.done + {s.timers[t].phase.inFlight.value}, None)
    case Finish(_) => Returned
  }

  function LocalStep(s: State, step: Step): State
    requires step.Fire? || step.Send? || step.Count? || step.Finish?
    requires Enabled(s, step)
  {
    State(s.now, s.pool, SetPhase(s.timers, step.timer, NextPhase(s, step)), s.enqueued, s.detached,
          if step.Send? then
            var a := s.timers[step.timer].phase.buffer;
            s.attempts + multiset{Attempt(a, step.user, s.pool.buffers[a].records)}
          else s.attempts)
  }

  function Apply(window: int, s: State, step: Step): State
    requires Enabled(s, step)
  {
    match step
    case Tick(d) => s.(now := s.now + d)
    case Enqueue(key, event, users) => EnqueueStep(window, s, key, Record(|s.enqueued|, event, users, s.now))
    case Take(t) => TakeStep(s, t)
    case _ => LocalStep(s, step)
  }

  /** The runs of the machine: from Init, one enabled step after another. */
  predicate Runs(window: int, steps: seq<Step>)
    decreases |steps|, 0
  {
    |steps| == 0 ||
    var n := |steps| - 1;
    Runs(window, steps[..n]) && Enabled(After(window, steps[..n]), steps[n])
  }

  function After(window: int, steps: seq<Step>): State
    requires Runs(window, steps)
    decreases |steps|, 1
  {
    if |steps| == 0 then Init()
    else var n := |steps| - 1; Apply(window, After(window, steps[..n]), steps[n])
  }

  // ---- Timers and live buffers ----

  predicate Pending(phase: Phase) {
    phase.Armed? || phase.Fired?
  }

  /** The live buffer of type k has its own timer still to come. */
  predicate KeyPaired(pool: Pool, timers: seq<Timer>, k: string)
    requires k in pool.live
  {
    var a := pool.live[k];
    a < |timers| && timers[a].key == k && Pending(timers[a].phase)
  }

  /** A timer that has not taken the lock has its own buffer live under its key; one past the
      lock found that buffer. */
  predicate TimerPaired(pool: Pool, timers: seq<Timer>, t: nat)
    requires t < |timers| == |pool.buffers|
  {
    match timers[t].phase
    case Skipped => false
    case Returned => true
    case Sending(a, done, inFlight) =>
      && a == t
      && done <= pool.buffers[t].users
      && (inFlight.Some? ==> inFlight.value in pool.buffers[t].users && inFlight.value !in done)
    case _ => timers[t].key in pool.live && pool.live[timers[t].key] == t
  }

  ghost predicate Paired(pool: Pool, timers: seq<Timer>) {
    && |timers| == |pool.buffers|
    && (forall k :: k in pool.live ==> KeyPaired(pool, timers, k))
    && (forall t: nat :: t < |timers| ==> TimerPaired(pool, timers, t))
  }

  lemma PairedEnqueue(window: int, s: State, key: string, record: Record)
    requires Paired(s.pool, s.timers)
    ensures var s' := EnqueueStep(window, s, key, record); Paired(s'.pool, s'.timers)
  {
    var s' := EnqueueStep(window, s, key, record);
    forall k | k in s'.pool.live ensures KeyPaired(s'.pool, s'.timers, k) {
      if k in s.pool.live { assert KeyPaired(s.pool, s.timers, k); }
    }
    forall t: nat | t < |s'.timers| ensures TimerPaired(s'.pool, s'.timers, t) {
      if t < |s.timers| { assert TimerPaired(s.pool, s.timers, t); }
      assert key in s.pool.live ==> KeyPaired(s.pool, s.timers, key);
    }
  }

  /** A firing timer finds the very buffer it was armed for. */
  lemma TakeFindsOwn(s: State, t: nat)
    requires Paired(s.pool, s.timers)
    requires Enabled(s, Take(t))
    ensures Lookup(s.pool, s.timers[t].key) == Some(t)
  {
    assert TimerPaired(s.pool, s.timers, t);
  }

  lemma PairedTake(s: State, t: nat)
    requires Paired(s.pool, s.timers) && Enabled(s, Take(t))
    requires |s.pool.buffers[t].records| > 0
    ensures Paired(TakeStep(s, t).pool, TakeStep(s, t).timers)
  {
    TakeFindsOwn(s, t);
    var s' := TakeStep(s, t);
    forall k | k in s'.pool.live ensures KeyPaired(s'.pool, s'.timers, k) {
      assert KeyPaired(s.pool, s.timers, k);
    }
    forall u: nat | u < |s'.timers| ensures TimerPaired(s'.pool, s'.timers, u) {
      assert TimerPaired(s.pool, s.timers, u);
      assert KeyPaired(s.pool, s.timers, s.timers[t].key);
    }
  }

  lemma PairedLocal(s: State, step: Step)
    requires Paired(s.pool, s.timers)
    requires step.Fire? || step.Send? || step.Count? || step.Finish?
    requires Enabled(s, step)
    ensures Paired(s.pool, LocalStep(s, step).timers)
  {
    var timers' := LocalStep(s, step).timers;
    assert TimerPaired(s.pool, s.timers, step.timer);
    forall k | k in s.pool.live ensures KeyPaired(s.pool, timers', k) {
      assert KeyPaired(s.pool, s.timers, k);
    }
    forall u: nat | u < |timers'| ensures TimerPaired(s.pool, timers', u) {
      assert TimerPaired(s.pool, s.timers, u);
    }
  }

  // ---- Contents and times of buffers ----

  /** The users collected from a list of records. */
  function UsersOf(records: seq<Record>): set<string> {
    if |records| == 0 then {} else UsersOf(records[..|records| - 1]) + records[|records| - 1].users
  }

  lemma UsersOfAppend(records: seq<Record>, record: Record)
    ensures UsersOf(records + [record]) == UsersOf(records) + record.users
  {
    assert (records + [record])[..|records|] == records;
  }

  /** A buffer is never empty, holds exactly the users of its records, and nothing in it is older
      than the buffer or newer than the clock; its timer is due one window after its creation and
      has not fired before. */
  predicate BufferStamped(window: int, now: int, b: Buffer, timer: Timer) {
    && |b.records| > 0
    && b.users == UsersOf(b.records)
    && b.records[0].at == b.createdAt
    && (forall i :: 0 <= i < |b.records| ==> b.createdAt <= b.records[i].at <= now)
    && timer.due == b.createdAt + window
    && (timer.phase.Armed? || timer.due <= now)
  }

  ghost predicate Stamped(window: int, s: State) {
    && |s.timers| == |s.pool.buffers|
    && forall t: nat :: t < |s.timers| ==> BufferStamped(window, s.now, s.pool.buffers[t], s.timers[t])
  }

  lemma StampedTick(window: int, s: State, d: nat)
    requires Stamped(window, s)
    ensures Stamped(window, s.(now := s.now + d))
  {
    forall t: nat | t < |s.timers|
      ensures BufferStamped(window, s.now + d, s.pool.buffers[t], s.timers[t])
    {
      assert BufferStamped(window, s.now, s.pool.buffers[t], s.timers[t]);
    }
  }

  lemma StampedEnqueue(window: int, s: State, key: string, record: Record)
    requires Stamped(window, s) && record.at == s.now
    ensures Stamped(window, EnqueueStep(window, s, key, record))
  {
    var s' := EnqueueStep(window, s, key, record);
    forall t: nat | t < |s'.timers|
      ensures BufferStamped(window, s'.now, s'.pool.buffers[t], s'.timers[t])
    {
      if t < |s.timers| {
        assert BufferStamped(window, s.now, s.pool.buffers[t], s.timers[t]);
        UsersOfAppend(s.pool.buffers[t].records, record);
      } else {
        UsersOfAppend([], record);
        assert [] + [record] == [record];
      }
    }
  }

  lemma StampedTake(window: int, s: State, t: nat)
    requires Stamped(window, s) && Enabled(s, Take(t))
    ensures Stamped(window, TakeStep(s, t))
  {
    var s' := TakeStep(s, t);
    forall u: nat | u < |s'.timers|
      ensures BufferStamped(window, s'.now, s'.pool.buffers[u], s'.timers[u])
    {
      assert BufferStamped(window, s.now, s.pool.buffers[u], s.timers[u]);
    }
  }

  lemma StampedLocal(window: int, s: State, step: Step)
    requires Stamped(window, s)
    requires step.Fire? || step.Send? || step.Count? || step.Finish?
    requires Enabled(s, step)
    ensures Stamped(window, LocalStep(s, step))
  {
    var s' := LocalStep(s, step);
    forall u: nat | u < |s'.timers|
      ensures BufferStamped(window, s'.now, s'.pool.buffers[u], s'.timers[u])
    {
      assert BufferStamped(window, s.now, s.pool.buffers[u], s.timers[u]);
    }
  }

  /** Of two buffers of one type the later one was created at least a window after the earlier one. */
  predicate Apart(window: int, pool: Pool, timers: seq<Timer>, t: nat, u: nat)
    requires t < u < |timers| == |pool.buffers|
  {
    timers[t].key == timers[u].key ==> pool.buffers[t].createdAt + window <= pool.buffers[u].createdAt
  }

  ghost predicate Spaced(window: int, pool: Pool, timers: seq<Timer>) {
    && |timers| == |pool.buffers|
    && forall t: nat, u: nat :: t < u < |timers| ==> Apart(window, pool, timers, t, u)
  }

  lemma SpacedEnqueue(window: int, s: State, key: string, record: Record)
    requires Paired(s.pool, s.timers) && Stamped(window, s) && Spaced(window, s.pool, s.timers)
    requires record.at == s.now
    ensures var s' := EnqueueStep(window, s, key, record); Spaced(window, s'.pool, s'.timers)
  {
    var s' := EnqueueStep(window, s, key, record);
    forall t: nat, u: nat | t < u < |s'.timers| ensures Apart(window, s'.pool, s'.timers, t, u) {
      if u < |s.timers| {
        assert Apart(window, s.pool, s.timers, t, u);
      } else {
        assert TimerPaired(s.pool, s.timers, t);
        assert BufferStamped(window, s.now, s.pool.buffers[t], s.timers[t]);
      }
    }
  }

  /** Steps that leave creation times and keys alone keep the spacing. */
  lemma SpacedFrame(window: int, pool: Pool, timers: seq<Timer>, pool': Pool, timers': seq<Timer>)
    requires Spaced(window, pool, timers)
    requires pool'.buffers == pool.buffers && |timers'| == |timers|
    requires forall t :: 0 <= t < |timers| ==> timers'[t].key == timers[t].key
    ensures Spaced(window, pool', timers')
  {
    forall t: nat, u: nat | t < u < |timers'| ensures Apart(window, pool', timers', t, u) {
      assert Apart(window, pool, timers, t, u);
    }
  }

  // ---- The log of detached buffers ----

  /** Entry i of the log names a buffer whose callback is past the lock, no earlier than it was due. */
  predicate EntryLogged(now: int, timers: seq<Timer>, entry: Detached) {
    entry.buffer < |timers| && !Pending(timers[entry.buffer].phase) && timers[entry.buffer].due <= entry.at <= now
  }

  predicate InLog(detached: seq<Detached>, t: nat) {
    exists i :: 0 <= i < |detached| && detached[i].buffer == t
  }

  /** The log holds every buffer whose callback is past the lock, each once. */
  ghost predicate Logged(now: int, timers: seq<Timer>, detached: seq<Detached>) {
    && (forall i :: 0 <= i < |detached| ==> EntryLogged(now, timers, detached[i]))
    && (forall i, j :: 0 <= i < j < |detached| ==> detached[i].buffer != detached[j].buffer)
    && (forall t: nat :: t < |timers| && !Pending(timers[t].phase) ==> InLog(detached, t))
  }

  lemma LoggedTake(window: int, s: State, t: nat)
    requires Paired(s.pool, s.timers) && Stamped(window, s) && Logged(s.now, s.timers, s.detached)
    requires Enabled(s, Take(t))
    ensures var s' := TakeStep(s, t); Logged(s'.now, s'.timers, s'.detached)
  {
    TakeFindsOwn(s, t);
    var s' := TakeStep(s, t);
    assert BufferStamped(window, s.now, s.pool.buffers[t], s.timers[t]);
    forall i | 0 <= i < |s'.detached| ensures EntryLogged(s'.now, s'.timers, s'.detached[i]) {
      if i < |s.detached| { assert EntryLogged(s.now, s.timers, s.detached[i]); }
    }
    forall i, j | 0 <= i < j < |s'.detached| ensures s'.detached[i].buffer != s'.detached[j].buffer {
      assert EntryLogged(s.now, s.timers, s.detached[i]);
    }
    forall u: nat | u < |s'.timers| && !Pending(s'.timers[u].phase) ensures InLog(s'.detached, u) {
      if u == t {
        assert s'.detached[|s.detached|].buffer == u;
      } else {
        assert InLog(s.detached, u);
        var i :| 0 <= i < |s.detached| && s.detached[i].buffer == u;
        assert s'.detached[i].buffer == u;
      }
    }
  }

  /** Steps that write no log entry and move no timer across the lock keep the log right. */
  lemma LoggedFrame(now: int, timers: seq<Timer>, detached: seq<Detached>, now': int, timers': seq<Timer>)
    requires Logged(now, timers, detached)
    requires now <= now' && |timers| <= |timers'|
    requires forall t :: 0 <= t < |timers| ==>
               timers'[t].due == timers[t].due && Pending(timers'[t].phase) == Pending(timers[t].phase)
    requires forall t :: |timers| <= t < |timers'| ==> Pending(timers'[t].phase)
    ensures Logged(now', timers', detached)
  {
    forall i | 0 <= i < |detached| ensures EntryLogged(now', timers', detached[i]) {
      assert EntryLogged(now, timers, detached[i]);
    }
  }

  // ---- Order ----

  function RecordsOf(buffers: seq<Buffer>, timers: seq<Timer>, k: string, a: nat): seq<Record> {
    if a < |timers| && a < |buffers| && timers[a].key == k then buffers[a].records else []
  }

  /** The records of type k in the groups of a log, one group after another. */
  function Flushed(buffers: seq<Buffer>, timers: seq<Timer>, detached: seq<Detached>, k: string): seq<Record> {
    if |detached| == 0 then []
    else
      var n := |detached| - 1;
      Flushed(buffers, timers, detached[..n], k) + RecordsOf(buffers, timers, k, detached[n].buffer)
  }

  function Waiting(pool: Pool, k: string): seq<Record> {
    match Lookup(pool, k)
    case Some(a) => pool.buffers[a].records
    case None => []
  }

  /** The records of type k among a list of calls, in the order of the calls. */
  function OfKey(calls: seq<(string, Record)>, k: string): seq<Record> {
    if |calls| == 0 then []
    else
      var n := |calls| - 1;
      OfKey(calls[..n], k) + (if calls[n].0 == k then [calls[n].1] else [])
  }

  /** Per type: all groups flushed so far, then the waiting buffer, are the calls in order. */
  predicate KeyOrdered(s: State, k: string) {
    Flushed(s.pool.buffers, s.timers, s.detached, k) + Waiting(s.pool, k) == OfKey(s.enqueued, k)
  }

  ghost predicate Ordered(s: State) {
    forall k :: KeyOrdered(s, k)
  }

  /** Flushed looks only at the keys and records of the buffers in the log. */
  lemma {:induction false} FlushedFrame(buffers: seq<Buffer>, timers: seq<Timer>, detached: seq<Detached>, k: string,
                                        buffers': seq<Buffer>, timers': seq<Timer>)
    requires forall i :: 0 <= i < |detached| ==>
               RecordsOf(buffers', timers', k, detached[i].buffer) == RecordsOf(buffers, timers, k, detached[i].buffer)
    ensures Flushed(buffers', timers', detached, k) == Flushed(buffers, timers, detached, k)
  {
    if |detached| > 0 {
      FlushedFrame(buffers, timers, detached[..|detached| - 1], k, buffers', timers');
    }
  }

  /** A new record changes nothing in the logged groups. */
  lemma FlushedEnqueue(window: int, s: State, key: string, record: Record, k: string)
    requires Paired(s.pool, s.timers) && Logged(s.now, s.timers, s.detached)
    ensures var s' := EnqueueStep(window, s, key, record);
            Flushed(s'.pool.buffers, s'.timers, s.detached, k) == Flushed(s.pool.buffers, s.timers, s.detached, k)
  {
    var s' := EnqueueStep(window, s, key, record);
    assert key in s.pool.live ==> KeyPaired(s.pool, s.timers, key);
    forall i | 0 <= i < |s.detached|
      ensures RecordsOf(s'.pool.buffers, s'.timers, k, s.detached[i].buffer)
           == RecordsOf(s.pool.buffers, s.timers, k, s.detached[i].buffer)
    {
      assert EntryLogged(s.now, s.timers, s.detached[i]);
    }
    FlushedFrame(s.pool.buffers, s.timers, s.detached, k, s'.pool.buffers, s'.timers);
  }

  /** It joins the waiting records of its type. */
  lemma WaitingEnqueue(window: int, s: State, key: string, record: Record, k: string)
    requires Paired(s.pool, s.timers)
    ensures Waiting(EnqueueStep(window, s, key, record).pool, k) == Waiting(s.pool, k) + if k == key then [record] else []
  {
    assert key in s.pool.live ==> KeyPaired(s.pool, s.timers, key);
    assert k in s.pool.live ==> KeyPaired(s.pool, s.timers, k);
  }

  lemma OrderedEnqueue(window: int, s: State, key: string, record: Record)
    requires Paired(s.pool, s.timers) && Logged(s.now, s.timers, s.detached) && Ordered(s)
    ensures Ordered(EnqueueStep(window, s, key, record))
  {
    var s' := EnqueueStep(window, s, key, record);
    forall k ensures KeyOrdered(s', k) {
      assert KeyOrdered(s, k);
      FlushedEnqueue(window, s, key, record, k);
      WaitingEnqueue(window, s, key, record, k);
      assert s'.enqueued[..|s.enqueued|] == s.enqueued;
    }
  }

  lemma OrderedTake(s: State, t: nat)
    requires Paired(s.pool, s.timers) && Logged(s.now, s.timers, s.detached) && Ordered(s)
    requires Enabled(s, Take(t))
    ensures Ordered(TakeStep(s, t))
  {
    TakeFindsOwn(s, t);
    var s' := TakeStep(s, t);
    forall k ensures KeyOrdered(s', k) {
      assert KeyOrdered(s, k);
      FlushedFrame(s.pool.buffers, s.timers, s.detached, k, s'.pool.buffers, s'.timers);
      assert s'.detached[..|s.detached|] == s.detached;
      assert k in s.pool.live && k != s.timers[t].key ==> KeyPaired(s.pool, s.timers, k);
    }
  }

  lemma OrderedLocal(s: State, step: Step)
    requires Ordered(s)
    requires step.Fire? || step.Send? || step.Count? || step.Finish?
    requires Enabled(s, step)
    ensures Ordered(LocalStep(s, step))
  {
    var s' := LocalStep(s, step);
    forall k ensures KeyOrdered(s', k) {
      assert KeyOrdered(s, k);
      FlushedFrame(s.pool.buffers, s.timers, s.detached, k, s'.pool.buffers, s'.timers);
    }
  }

  predicate Numbered(calls: seq<(string, Record)>) {
    forall i :: 0 <= i < |calls| ==> calls[i].1.serial == i
  }

  // ---- Attempts ----

  /** The callback of timer t has called the messenger for user u. */
  predicate Tried(buffers: seq<Buffer>, timers: seq<Timer>, t: nat, u: string)
    requires t < |timers| == |buffers|
  {
    match timers[t].phase
    case Sending(_, done, inFlight) => u in done || inFlight == Some(u)
    case Returned => u in buffers[t].users
    case _ => false
  }

  function Multiplicity(s: State, x: Attempt): nat {
    if x.buffer < |s.timers| == |s.pool.buffers| && Tried(s.pool.buffers, s.timers, x.buffer, x.user)
       && x.records == s.pool.buffers[x.buffer].records then 1 else 0
  }

  /** The attempts so far, with multiplicity: one for each user already tried of each group,
      always with that group's records, and no other. */
  ghost predicate Attempted(s: State) {
    forall x: Attempt {:trigger s.attempts[x]} {:trigger Multiplicity(s, x)} :: s.attempts[x] == Multiplicity(s, x)
  }

  lemma AttemptedEnqueue(window: int, s: State, key: string, record: Record)
    requires Paired(s.pool, s.timers) && Attempted(s)
    ensures Attempted(EnqueueStep(window, s, key, record))
  {
    var s' := EnqueueStep(window, s, key, record);
    assert key in s.pool.live ==> KeyPaired(s.pool, s.timers, key);
    forall x: Attempt ensures s'.attempts[x] == Multiplicity(s', x) {
      assert s.attempts[x] == Multiplicity(s, x);
    }
  }

  lemma AttemptedTake(s: State, t: nat)
    requires Paired(s.pool, s.timers) && Attempted(s) && Enabled(s, Take(t))
    ensures Attempted(TakeStep(s, t))
  {
    var s' := TakeStep(s, t);
    forall x: Attempt ensures s'.attempts[x] == Multiplicity(s', x) {
      assert s.attempts[x] == Multiplicity(s, x);
    }
  }

  lemma AttemptedLocal(s: State, step: Step)
    requires Paired(s.pool, s.timers) && Attempted(s)
    requires step.Fire? || step.Send? || step.Count? || step.Finish?
    requires Enabled(s, step)
    ensures Attempted(LocalStep(s, step))
  {
    var s' := LocalStep(s, step);
    assert TimerPaired(s.pool, s.timers, step.timer);
    forall x: Attempt ensures s'.attempts[x] == Multiplicity(s', x) {
      assert s.attempts[x] == Multiplicity(s, x);
    }
  }

  // ---- Every reachable state ----

  ghost predicate Inv(window: int, s: State) {
    && Paired(s.pool, s.timers)
    && Stamped(window, s)
    && Spaced(window, s.pool, s.timers)
    && Logged(s.now, s.timers, s.detached)
    && Ordered(s)
    && Attempted(s)
    && Numbered(s.enqueued)
  }

  lemma InvTick(window: int, s: State, d: nat)
    requires Inv(window, s)
    ensures Inv(window, Apply(window, s, Tick(d)))
  {
    var s' := Apply(window, s, Tick(d));
    StampedTick(window, s, d);
    LoggedFrame(s.now, s.timers, s.detached, s'.now, s'.timers);
    forall k ensures KeyOrdered(s', k) { assert KeyOrdered(s, k); }
    forall x: Attempt ensures s'.attempts[x] == Multiplicity(s', x) { assert s.attempts[x] == Multiplicity(s, x); }
  }

  lemma InvEnqueue(window: int, s: State, key: string, event: Event, users: set<string>)
    requires Inv(window, s)
    ensures Inv(window, Apply(window, s, Enqueue(key, event, users)))
  {
    var record := Record(|s.enqueued|, event, users, s.now);
    var s' := EnqueueStep(window, s, key, record);
    PairedEnqueue(window, s, key, record);
    StampedEnqueue(window, s, key, record);
    SpacedEnqueue(window, s, key, record);
    LoggedFrame(s.now, s.timers, s.detached, s'.now, s'.timers);
    OrderedEnqueue(window, s, key, record);
    AttemptedEnqueue(window, s, key, record);
  }

  lemma InvTake(window: int, s: State, t: nat)
    requires Inv(window, s) && Enabled(s, Take(t))
    ensures Inv(window, Apply(window, s, Take(t)))
  {
    assert BufferStamped(window, s.now, s.pool.buffers[t], s.timers[t]);
    PairedTake(s, t);
    StampedTake(window, s, t);
    SpacedFrame(window, s.pool, s.timers, TakeStep(s, t).pool, TakeStep(s, t).timers);
    LoggedTake(window, s, t);
    OrderedTake(s, t);
    AttemptedTake(s, t);
  }

  lemma InvLocal(window: int, s: State, step: Step)
    requires Inv(window, s)
    requires step.Fire? || step.Send? || step.Count? || step.Finish?
    requires Enabled(s, step)
    ensures Inv(window, Apply(window, s, step))
  {
    var s' := LocalStep(s, step);
    PairedLocal(s, step);
    StampedLocal(window, s, step);
    SpacedFrame(window, s.pool, s.timers, s'.pool, s'.timers);
    LoggedFrame(s.now, s.timers, s.detached, s'.now, s'.timers);
    OrderedLocal(s, step);
    AttemptedLocal(s, step);
  }

  /** Every step of every interleaving keeps the invariant. */
  lemma InvKept(window: int, s: State, step: Step)
    requires Inv(window, s) && Enabled(s, step)
    ensures Inv(window, Apply(window, s, step))
  {
    match step
    case Tick(d) => InvTick(window, s, d);
    case Enqueue(key, event, users) => InvEnqueue(window, s, key, event, users);
    case Take(t) => InvTake(window, s, t);
    case _ => InvLocal(window, s, step);
  }

  lemma {:induction false} InvHolds(window: int, steps: seq<Step>)
    requires Runs(window, steps)
    ensures Inv(window, After(window, steps))
  {
    if |steps| > 0 {
      var n := |steps| - 1;
      InvHolds(window, steps[..n]);
      InvKept(window, After(window, steps[..n]), steps[n]);
    }
  }

  lemma Extend(window: int, steps: seq<Step>, step: Step)
    requires Runs(window, steps) && Enabled(After(window, steps), step)
    ensures Runs(window, steps + [step])
    ensures After(window, steps + [step]) == Apply(window, After(window, steps), step)
  {
    assert (steps + [step])[..|steps|] == steps;
  }

}
