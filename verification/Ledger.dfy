/** The counters over whole concurrent runs: request goroutines working through their events
    (handleWebhook in internal/httpserver/server.go, ProcessEvent in
    internal/notifications/service.go) beside the grouping machine. */
module Ledger {

  import opened Sums
  import opened Wrappers
  import opened Webhook
  import Events
  import Grouping
  import Metrics

  /** Where a request goroutine is with the event it has taken from its list: between events, in
      shouldNotify, before the subscriber lookup, before the lock of enqueueGrouped, or in the
      loop over recipients, `calling` while a send is made but not yet counted. */
  datatype Job =
    | Idle
    | Deciding(event: Event)
    | Looking(event: Event)
    | Queueing(event: Event, users: seq<string>)
    | Sending(event: Event, users: seq<string>, next: nat, calling: bool)

  datatype Worker = Worker(queue: seq<Event>, job: Job)

  /** The metrics, and what is not counted there: events of unknown type, events handed to
      ProcessEvent, failed lookups, dispatched events, and the recipients of direct dispatches. */
  datatype Book = Book(
    received: nat, skipped: nat, sent: nat, failed: nat,
    unknown: nat, handed: nat, lookupFailed: nat, dispatched: nat, direct: nat)

  datatype State = State(groups: Grouping.State, workers: seq<Worker>, book: Book)

  datatype Step =
    | Request(events: seq<Event>)
    | Begin(worker: nat)
    | Decide(worker: nat, notify: bool)
    | Find(worker: nat, found: Option<seq<string>>)
    | Queue(worker: nat)
    | Call(worker: nat)
    | Count(worker: nat, ok: bool)
    | Done(worker: nat)
    | Group(step: Grouping.Step, ok: bool)

  function Init(): State {
    State(Grouping.Init(), [], Book(0, 0, 0, 0, 0, 0, 0, 0, 0))
  }

  predicate Enabled(s: State, step: Step) {
    match step
    case Request(_) => true
    case Group(g, _) => !g.Enqueue? && Grouping.Enabled(s.groups, g)
    case Begin(w) => w < |s.workers| && s.workers[w].job.Idle? && |s.workers[w].queue| > 0
    case Decide(w, _) => w < |s.workers| && s.workers[w].job.Deciding?
    case Find(w, _) => w < |s.workers| && s.workers[w].job.Looking?
    case Queue(w) => w < |s.workers| && s.workers[w].job.Queueing?
    case Call(w) =>
      w < |s.workers| && s.workers[w].job.Sending? && !s.workers[w].job.calling && s.workers[w].job.next < |s.workers[w].job.users|
    case Count(w, _) => w < |s.workers| && s.workers[w].job.Sending? && s.workers[w].job.calling
    case Done(w) =>
      w < |s.workers| && s.workers[w].job.Sending? && !s.workers[w].job.calling && s.workers[w].job.next >= |s.workers[w].job.users|
  }

  function SetJob(s: State, w: nat, job: Job): seq<Worker>
    requires w < |s.workers|
  {
    s.workers[w := Worker(s.workers[w].queue, job)]
  }

  function BeginStep(s: State, w: nat): State
    requires Enabled(s, Begin(w))
  {
    var event, rest := s.workers[w].queue[0], s.workers[w].queue[1..];
    if Events.IsSupported(event.kind) then
      State(s.groups, s.workers[w := Worker(rest, Deciding(event))], s.book.(handed := s.book.handed + 1))
    else
      State(s.groups, s.workers[w := Worker(rest, Idle)], s.book.(unknown := s.book.unknown + 1))
  }

  function FindStep(window: int, s: State, w: nat, found: Option<seq<string>>): State
    requires Enabled(s, Find(w, found))
  {
    var event := s.workers[w].job.event;
    match found
    case None => State(s.groups, SetJob(s, w, Idle), s.book.(lookupFailed := s.book.lookupFailed + 1))
    case Some(users) =>
      if |users| == 0 then State(s.groups, SetJob(s, w, Idle), s.book.(skipped := s.book.skipped + 1))
      else if window > 0 then
        State(s.groups, SetJob(s, w, Queueing(event, users)), s.book.(dispatched := s.book.dispatched + 1))
      else
        State(s.groups, SetJob(s, w, Sending(event, users, 0, false)),
              s.book.(dispatched := s.book.dispatched + 1, direct := s.book.direct + |users|))
  }

  function Outcome(book: Book, ok: bool): Book {
    if ok then book.(sent := book.sent + 1) else book.(failed := book.failed + 1)
  }

  function Apply(window: int, s: State, step: Step): State
    requires Enabled(s, step)
  {
    match step
    case Request(events) => State(s.groups, s.workers + [Worker(events, Idle)], s.book.(received := s.book.received + |events|))
    case Begin(w) => BeginStep(s, w)
    case Decide(w, notify) =>
      if notify then State(s.groups, SetJob(s, w, Looking(s.workers[w].job.event)), s.book)
      else State(s.groups, SetJob(s, w, Idle), s.book.(skipped := s.book.skipped + 1))
    case Find(w, found) => FindStep(window, s, w, found)
    case Queue(w) =>
      var job := s.workers[w].job;
      State(Grouping.Apply(window, s.groups, Grouping.Enqueue(job.event.kind, job.event, set u | u in job.users)),
            SetJob(s, w, Idle), s.book)
    case Call(w) =>
      var job := s.workers[w].job;
      State(s.groups, SetJob(s, w, Sending(job.event, job.users, job.next, true)), s.book)
    case Count(w, ok) =>
      var job := s.workers[w].job;
      State(s.groups, SetJob(s, w, Sending(job.event, job.users, job.next + 1, false)), Outcome(s.book, ok))
    case Done(w) => State(s.groups, SetJob(s, w, Idle), s.book)
    case Group(g, ok) =>
      State(Grouping.Apply(window, s.groups, g), s.workers, if g.Count? then Outcome(s.book, ok) else s.book)
  }

  predicate Runs(window: int, steps: seq<Step>)
    decreases |steps|, 0
  {
    |steps| == 0 ||
    var n := |steps| - 1;
    Runs(window, steps[..n]) && Enabled(After(window, steps[..n]), steps[n])
  }

  function After(window: int, steps: seq<Step>): State
    requires Runs(window, steps)
    decreases |steps|, 1
  {
    if |steps| == 0 then Init()
    else var n := |steps| - 1; Apply(window, After(window, steps[..n]), steps[n])
  }

  // ---- Work in progress ----

  function Undecided(job: Job): nat {
    if job.Deciding? || job.Looking? then 1 else 0
  }

  function Uncounted(job: Job): nat {
    if job.Sending? && job.next <= |job.users| then |job.users| - job.next else 0
  }

  function Queues(workers: seq<Worker>): seq<nat> {
    seq(|workers|, i requires 0 <= i < |workers| => |workers[i].queue|)
  }

  function Undecideds(workers: seq<Worker>): seq<nat> {
    seq(|workers|, i requires 0 <= i < |workers| => Undecided(workers[i].job))
  }

  function Uncounteds(workers: seq<Worker>): seq<nat> {
    seq(|workers|, i requires 0 <= i < |workers| => Uncounted(workers[i].job))
  }

  /** Recipients that the callback of timer t has still to count. */
  function Left(g: Grouping.State, t: nat): nat
    requires t < |g.timers|
  {
    if g.timers[t].phase.Sending? && t < |g.pool.buffers| then |g.pool.buffers[t].users - g.timers[t].phase.done| else 0
  }

  function Lefts(g: Grouping.State): seq<nat> {
    seq(|g.timers|, t requires 0 <= t < |g.timers| => Left(g, t))
  }

  function UsersIn(g: Grouping.State, a: nat): nat {
    if a < |g.pool.buffers| then |g.pool.buffers[a].users| else 0
  }

  /** The distinct users of each flushed group. */
  function GroupSizes(g: Grouping.State): seq<nat> {
    seq(|g.detached|, i requires 0 <= i < |g.detached| => UsersIn(g, g.detached[i].buffer))
  }

  /** The three accounts. */
  predicate Balanced(s: State) {
    var b := s.book;
    && b.received == b.unknown + b.handed + Total(Queues(s.workers))
    && b.handed == b.skipped + b.lookupFailed + b.dispatched + Total(Undecideds(s.workers))
    && b.sent + b.failed + Total(Uncounteds(s.workers)) + Total(Lefts(s.groups)) == b.direct + Total(GroupSizes(s.groups))
  }

  predicate JobOK(job: Job) {
    job.Sending? ==> job.next <= |job.users| && (job.calling ==> job.next < |job.users|)
  }

  predicate JobsOK(workers: seq<Worker>) {
    forall i :: 0 <= i < |workers| ==> JobOK(workers[i].job)
  }

  ghost predicate Inv(window: int, s: State) {
    Grouping.Inv(window, s.groups) && JobsOK(s.workers) && Balanced(s)
  }

  /** Replacing one worker changes each sum by that worker's share. */
  lemma WorkerSums(workers: seq<Worker>, w: nat, worker: Worker)
    requires w < |workers|
    ensures Total(Queues(workers[w := worker])) + |workers[w].queue| == Total(Queues(workers)) + |worker.queue|
    ensures Total(Undecideds(workers[w := worker])) + Undecided(workers[w].job) == Total(Undecideds(workers)) + Undecided(worker.job)
    ensures Total(Uncounteds(workers[w := worker])) + Uncounted(workers[w].job) == Total(Uncounteds(workers)) + Uncounted(worker.job)
  {
    TotalUpdate(Queues(workers), w, |worker.queue|);
    assert Queues(workers[w := worker]) == Queues(workers)[w := |worker.queue|];
    TotalUpdate(Undecideds(workers), w, Undecided(worker.job));
    assert Undecideds(workers[w := worker]) == Undecideds(workers)[w := Undecided(worker.job)];
    TotalUpdate(Uncounteds(workers), w, Uncounted(worker.job));
    assert Uncounteds(workers[w := worker]) == Uncounteds(workers)[w := Uncounted(worker.job)];
  }

  lemma NewWorkerSums(workers: seq<Worker>, worker: Worker)
    ensures Total(Queues(workers + [worker])) == Total(Queues(workers)) + |worker.queue|
    ensures Total(Undecideds(workers + [worker])) == Total(Undecideds(workers)) + Undecided(worker.job)
    ensures Total(Uncounteds(workers + [worker])) == Total(Uncounteds(workers)) + Uncounted(worker.job)
  {
    TotalAppend(Queues(workers), |worker.queue|);
    assert Queues(workers + [worker]) == Queues(workers) + [|worker.queue|];
    TotalAppend(Undecideds(workers), Undecided(worker.job));
    assert Undecideds(workers + [worker]) == Undecideds(workers) + [Undecided(worker.job)];
    TotalAppend(Uncounteds(workers), Uncounted(worker.job));
    assert Uncounteds(workers + [worker]) == Uncounteds(workers) + [Uncounted(worker.job)];
  }

  /** Enqueueing changes no flushed group. */
  lemma EnqueueSizes(window: int, g: Grouping.State, step: Grouping.Step)
    requires Grouping.Inv(window, g) && step.Enqueue?
    ensures GroupSizes(Grouping.Apply(window, g, step)) == GroupSizes(g)
  {
    var g' := Grouping.Apply(window, g, step);
    assert step.key in g.pool.live ==> Grouping.KeyPaired(g.pool, g.timers, step.key);
    forall i | 0 <= i < |g.detached|
      ensures UsersIn(g', g.detached[i].buffer) == UsersIn(g, g.detached[i].buffer)
    {
      assert Grouping.EntryLogged(g.now, g.timers, g.detached[i]);
    }
  }

  /** Nor what the callbacks have left to do. */
  lemma EnqueueLefts(window: int, g: Grouping.State, step: Grouping.Step)
    requires Grouping.Inv(window, g) && step.Enqueue?
    ensures Total(Lefts(Grouping.Apply(window, g, step))) == Total(Lefts(g))
  {
    var g' := Grouping.Apply(window, g, step);
    forall t | 0 <= t < |g.timers| ensures Left(g', t) == Left(g, t) {
      EnqueueLeft(window, g, step, t);
    }
    if |g'.timers| == |g.timers| {
      assert Lefts(g') == Lefts(g);
    } else {
      TotalAppend(Lefts(g), 0);
      assert Lefts(g') == Lefts(g) + [0];
    }
  }

  lemma EnqueueLeft(window: int, g: Grouping.State, step: Grouping.Step, t: nat)
    requires Grouping.Inv(window, g) && step.Enqueue? && t < |g.timers|
    ensures var g' := Grouping.Apply(window, g, step);
            t < |g'.timers| && Left(g', t) == Left(g, t)
  {
    assert step.key in g.pool.live ==> Grouping.KeyPaired(g.pool, g.timers, step.key);
  }

  /** A step that only moves one callback changes only that callback's share. */
  lemma OneTimer(g: Grouping.State, g': Grouping.State, t: nat)
    requires t < |g.timers| && |g'.timers| == |g.timers|
    requires g'.pool.buffers == g.pool.buffers
    requires forall u :: 0 <= u < |g.timers| && u != t ==> g'.timers[u] == g.timers[u]
    ensures Total(Lefts(g')) + Left(g, t) == Total(Lefts(g)) + Left(g', t)
  {
    TotalUpdate(Lefts(g), t, Left(g', t));
    assert Lefts(g') == Lefts(g)[t := Left(g', t)];
  }

  lemma OneMoreGroup(g: Grouping.State, g': Grouping.State, d: Grouping.Detached)
    requires g'.detached == g.detached + [d] && g'.pool.buffers == g.pool.buffers
    ensures Total(GroupSizes(g')) == Total(GroupSizes(g)) + UsersIn(g, d.buffer)
  {
    TotalAppend(GroupSizes(g), UsersIn(g, d.buffer));
    assert GroupSizes(g') == GroupSizes(g) + [UsersIn(g, d.buffer)];
  }

  /** Taking a buffer adds its users on both sides. */
  lemma TakeSums(window: int, g: Grouping.State, t: nat)
    requires Grouping.Inv(window, g) && Grouping.Enabled(g, Grouping.Take(t))
    ensures var g' := Grouping.Apply(window, g, Grouping.Take(t));
            && Total(Lefts(g')) == Total(Lefts(g)) + UsersIn(g, t)
            && Total(GroupSizes(g')) == Total(GroupSizes(g)) + UsersIn(g, t)
  {
    var g' := Grouping.Apply(window, g, Grouping.Take(t));
    Grouping.TakeFindsOwn(g, t);
    assert Grouping.BufferStamped(window, g.now, g.pool.buffers[t], g.timers[t]);
    assert g.pool.buffers[t].users - {} == g.pool.buffers[t].users;
    OneTimer(g, g', t);
    OneMoreGroup(g, g', Grouping.Detached(t, g.now));
  }

  /** Of the steps without the lock only counting changes what is left, by one. */
  lemma LocalSums(window: int, g: Grouping.State, step: Grouping.Step)
    requires Grouping.Inv(window, g) && Grouping.Enabled(g, step)
    requires step.Fire? || step.Send? || step.Count? || step.Finish?
    ensures var g' := Grouping.LocalStep(g, step);
            && Total(Lefts(g')) + (if step.Count? then 1 else 0) == Total(Lefts(g))
            && GroupSizes(g') == GroupSizes(g)
  {
    assert Grouping.TimerPaired(g.pool, g.timers, step.timer);
    LocalLeft(g, step);
    OneTimer(g, Grouping.LocalStep(g, step), step.timer);
  }

  lemma LocalLeft(g: Grouping.State, step: Grouping.Step)
    requires step.Fire? || step.Send? || step.Count? || step.Finish?
    requires Grouping.Enabled(g, step) && |g.timers| == |g.pool.buffers|
    requires Grouping.TimerPaired(g.pool, g.timers, step.timer)
    ensures Left(Grouping.LocalStep(g, step), step.timer) + (if step.Count? then 1 else 0) == Left(g, step.timer)
  {
    var t := step.timer;
    if step.Count? {
      var users, done, u := g.pool.buffers[t].users, g.timers[t].phase.done, g.timers[t].phase.inFlight.value;
      assert users - (done + {u}) == (users - done) - {u};
    } else if step.Finish? {
      assert g.pool.buffers[t].users - g.timers[t].phase.done == {};
    }
  }

  lemma GroupKept(window: int, s: State, g: Grouping.Step, ok: bool)
    requires Inv(window, s) && Enabled(s, Group(g, ok))
    ensures Inv(window, Apply(window, s, Group(g, ok)))
  {
    Grouping.InvKept(window, s.groups, g);
    var g' := Grouping.Apply(window, s.groups, g);
    match g
    case Tick(_) =>
      assert Lefts(g') == Lefts(s.groups) && GroupSizes(g') == GroupSizes(s.groups);
    case Take(t) => TakeSums(window, s.groups, t);
    case _ => LocalSums(window, s.groups, g);
  }

  lemma QueueKept(window: int, s: State, w: nat)
    requires Inv(window, s) && Enabled(s, Queue(w))
    ensures Inv(window, Apply(window, s, Queue(w)))
  {
    var job := s.workers[w].job;
    var g := Grouping.Enqueue(job.event.kind, job.event, set u | u in job.users);
    Grouping.InvKept(window, s.groups, g);
    EnqueueSizes(window, s.groups, g);
    EnqueueLefts(window, s.groups, g);
    WorkerSums(s.workers, w, Worker(s.workers[w].queue, Idle));
  }

  /** One worker's part in the three accounts. */
  function Shares(b: Book, worker: Worker): (int, int, int) {
    (b.received - b.unknown - b.handed - |worker.queue|,
     b.handed - b.skipped - b.lookupFailed - b.dispatched - Undecided(worker.job),
     b.sent + b.failed + Uncounted(worker.job) - b.direct)
  }

  /** A step of one worker that books what it changes keeps the accounts. */
  lemma OneWorker(window: int, s: State, w: nat, worker: Worker, book: Book)
    requires Inv(window, s) && w < |s.workers| && JobOK(worker.job)
    requires Shares(book, worker) == Shares(s.book, s.workers[w])
    ensures Inv(window, State(s.groups, s.workers[w := worker], book))
  {
    WorkerSums(s.workers, w, worker);
  }

  lemma BeginKept(window: int, s: State, w: nat)
    requires Inv(window, s) && Enabled(s, Begin(w))
    ensures Inv(window, BeginStep(s, w))
  {
    OneWorker(window, s, w, BeginStep(s, w).workers[w], BeginStep(s, w).book);
  }

  lemma FindKept(window: int, s: State, w: nat, found: Option<seq<string>>)
    requires Inv(window, s) && Enabled(s, Find(w, found))
    ensures Inv(window, FindStep(window, s, w, found))
  {
    var s' := FindStep(window, s, w, found);
    OneWorker(window, s, w, s'.workers[w], s'.book);
  }

  /** The other steps of a worker that need no lock. */
  lemma WorkerKept(window: int, s: State, step: Step)
    requires Inv(window, s) && Enabled(s, step)
    requires step.Decide? || step.Call? || step.Count? || step.Done?
    ensures Inv(window, Apply(window, s, step))
  {
    var w, s' := step.worker, Apply(window, s, step);
    assert JobOK(s.workers[w].job);
    OneWorker(window, s, w, s'.workers[w], s'.book);
  }

  /** Every step of every interleaving keeps the accounts. */
  lemma InvKept(window: int, s: State, step: Step)
    requires Inv(window, s) && Enabled(s, step)
    ensures Inv(window, Apply(window, s, step))
  {
    match step
    case Request(events) => NewWorkerSums(s.workers, Worker(events, Idle));
    case Queue(w) => QueueKept(window, s, w);
    case Group(g, ok) => GroupKept(window, s, g, ok);
    case Begin(w) => BeginKept(window, s, w);
    case Find(w, found) => FindKept(window, s, w, found);
    case _ => WorkerKept(window, s, step);
  }

  lemma {:induction false} InvHolds(window: int, steps: seq<Step>)
    requires Runs(window, steps)
    ensures Inv(window, After(window, steps))
  {
    if |steps| > 0 {
      var n := |steps| - 1;
      InvHolds(window, steps[..n]);
      InvKept(window, After(window, steps[..n]), steps[n]);
    }
  }

  /** At every point of every run: received events are unknown, handed over or still queued;
      handed events are skipped, failed in the lookup, dispatched or still undecided; and sent
      plus failed plus recipients not yet counted are the recipients of direct dispatches plus
      the distinct users of flushed groups. */
  lemma AccountsBalance(window: int, steps: seq<Step>)
    requires Runs(window, steps)
    ensures Balanced(After(window, steps))
  {
    InvHolds(window, steps);
  }

  /** The grouping part of a run is a run of the grouping machine, so all that holds of every run
      of that machine holds here. */
  lemma {:induction false} GroupsRun(window: int, steps: seq<Step>) returns (groupSteps: seq<Grouping.Step>)
    requires Runs(window, steps)
    ensures Grouping.Runs(window, groupSteps) && Grouping.After(window, groupSteps) == After(window, steps).groups
  {
    if |steps| == 0 {
      groupSteps := [];
    } else {
      var n := |steps| - 1;
      var before := GroupsRun(window, steps[..n]);
      var s := After(window, steps[..n]);
      match steps[n]
      case Group(g, _) =>
        Grouping.Extend(window, before, g);
        groupSteps := before + [g];
      case Queue(w) =>
        var job := s.workers[w].job;
        var g := Grouping.Enqueue(job.event.kind, job.event, set u | u in job.users);
        Grouping.Extend(window, before, g);
        groupSteps := before + [g];
      case _ => groupSteps := before;
    }
  }

  predicate AtRest(s: State) {
    && (forall i :: 0 <= i < |s.workers| ==> s.workers[i] == Worker([], Idle))
    && (forall t :: 0 <= t < |s.groups.timers| ==> !s.groups.timers[t].phase.Sending?)
  }

  lemma NothingPending(s: State)
    requires AtRest(s)
    ensures Total(Queues(s.workers)) == Total(Undecideds(s.workers)) == Total(Uncounteds(s.workers)) == Total(Lefts(s.groups)) == 0
  {
    forall i | 0 <= i < |s.workers|
      ensures Queues(s.workers)[i] == 0 && Undecideds(s.workers)[i] == 0 && Uncounteds(s.workers)[i] == 0
    {
      assert s.workers[i] == Worker([], Idle);
    }
    TotalZero(Queues(s.workers));
    TotalZero(Undecideds(s.workers));
    TotalZero(Uncounteds(s.workers));
    TotalZero(Lefts(s.groups));
  }

  /** When all goroutines have come to their ends nothing is left pending in the accounts. */
  lemma AccountsAtRest(window: int, steps: seq<Step>)
    requires Runs(window, steps) && AtRest(After(window, steps))
    ensures var s := After(window, steps);
            && s.book.received == s.book.unknown + s.book.handed
            && s.book.handed == s.book.skipped + s.book.lookupFailed + s.book.dispatched
            && s.book.sent + s.book.failed == s.book.direct + Total(GroupSizes(s.groups))
  {
    InvHolds(window, steps);
    NothingPending(After(window, steps));
  }

  // ---- The counters of the program ----

  /** The counter for the result of one notification. */
  function Result(ok: bool): (string, int) {
    (if ok then "notifications_sent" else "notifications_failed", 1)
  }

  /** The increments of counters that the code makes in a step. */
  function IncsOf(step: Step): seq<(string, int)> {
    match step
    case Request(events) => [("webhook_requests_total", 1), ("webhook_events_received", |events|)]
    case Decide(_, notify) => if notify then [] else [("events_skipped", 1)]
    case Find(_, found) => if found == Some([]) then [("events_skipped", 1)] else []
    case Count(_, ok) => [Result(ok)]
    case Group(g, ok) => if g.Count? then [Result(ok)] else []
    case _ => []
  }

  function AllIncs(steps: seq<Step>): seq<(string, int)> {
    if |steps| == 0 then [] else AllIncs(steps[..|steps| - 1]) + IncsOf(steps[|steps| - 1])
  }

  /** What a list of increments adds to the four counters that the accounts are about. */
  function Counted(incs: seq<(string, int)>): (int, int, int, int) {
    (Metrics.Total(incs, "webhook_events_received"), Metrics.Total(incs, "events_skipped"),
     Metrics.Total(incs, "notifications_sent"), Metrics.Total(incs, "notifications_failed"))
  }

  function Booked(b: Book): (int, int, int, int) {
    (b.received, b.skipped, b.sent, b.failed)
  }

  /** A step books what it counts. */
  lemma StepIsBooked(window: int, s: State, step: Step)
    requires Enabled(s, step)
    ensures var b, b', c := s.book, Apply(window, s, step).book, Counted(IncsOf(step));
            Booked(b') == (b.received + c.0, b.skipped + c.1, b.sent + c.2, b.failed + c.3)
  {
    TotalsOfStep(step);
  }

  lemma TotalsOfOne(x: (string, int))
    ensures Counted([x]) == (if x.0 == "webhook_events_received" then x.1 else 0, if x.0 == "events_skipped" then x.1 else 0,
                             if x.0 == "notifications_sent" then x.1 else 0, if x.0 == "notifications_failed" then x.1 else 0)
  {
    Metrics.TotalOfOne(x, "webhook_events_received");
    Metrics.TotalOfOne(x, "events_skipped");
    Metrics.TotalOfOne(x, "notifications_sent");
    Metrics.TotalOfOne(x, "notifications_failed");
  }

  lemma TotalsOfRequest(n: nat)
    ensures Counted([("webhook_requests_total", 1), ("webhook_events_received", n)]) == (n, 0, 0, 0)
  {
    var a, b := [("webhook_requests_total", 1)], [("webhook_events_received", n)];
    TotalsOfOne(a[0]);
    TotalsOfOne(b[0]);
    CountedSum(a, b);
    assert a + b == [("webhook_requests_total", 1), ("webhook_events_received", n)];
  }

  lemma TotalsOfStep(step: Step)
    ensures Counted(IncsOf(step)) ==
              match step
              case Request(events) => (|events|, 0, 0, 0)
              case Decide(_, notify) => (0, if notify then 0 else 1, 0, 0)
              case Find(_, found) => (0, if found == Some([]) then 1 else 0, 0, 0)
              case Count(_, ok) => if ok then (0, 0, 1, 0) else (0, 0, 0, 1)
              case Group(g, ok) => if !g.Count? then (0, 0, 0, 0) else if ok then (0, 0, 1, 0) else (0, 0, 0, 1)
              case _ => (0, 0, 0, 0)
  {
    var skipped := ("events_skipped", 1);
    TotalsOfOne(skipped);
    TotalsOfOne(Result(true));
    TotalsOfOne(Result(false));
    if step.Request? { TotalsOfRequest(|step.events|); }
  }

  lemma CountedSum(a: seq<(string, int)>, b: seq<(string, int)>)
    ensures var x, y := Counted(a), Counted(b); Counted(a + b) == (x.0 + y.0, x.1 + y.1, x.2 + y.2, x.3 + y.3)
  {
    Metrics.TotalAppend(a, b);
  }

  lemma BookOneMore(window: int, s: State, step: Step, incs: seq<(string, int)>)
    requires Enabled(s, step) && Booked(s.book) == Counted(incs)
    ensures Booked(Apply(window, s, step).book) == Counted(incs + IncsOf(step))
  {
    StepIsBooked(window, s, step);
    CountedSum(incs, IncsOf(step));
  }

  lemma {:induction false} BookedIsCounted(window: int, steps: seq<Step>)
    requires Runs(window, steps)
    ensures Booked(After(window, steps).book) == Counted(AllIncs(steps))
  {
    if |steps| > 0 {
      var n := |steps| - 1;
      BookedIsCounted(window, steps[..n]);
      BookOneMore(window, After(window, steps[..n]), steps[n], AllIncs(steps[..n]));
    }
  }

  lemma RequestsOfStep(step: Step)
    ensures Metrics.Total(IncsOf(step), "webhook_requests_total") == if step.Request? then 1 else 0
  {
    var requests := "webhook_requests_total";
    Metrics.TotalOfOne(("events_skipped", 1), requests);
    Metrics.TotalOfOne(Result(true), requests);
    Metrics.TotalOfOne(Result(false), requests);
    if step.Request? {
      var a, b := [(requests, 1)], [("webhook_events_received", |step.events|)];
      Metrics.TotalOfOne(a[0], requests);
      Metrics.TotalOfOne(b[0], requests);
      Metrics.TotalOfSum(a, b, requests);
      assert a + b == IncsOf(step);
    }
  }

  lemma RequestsOneMore(window: int, s: State, step: Step, incs: seq<(string, int)>)
    requires Enabled(s, step) && |s.workers| == Metrics.Total(incs, "webhook_requests_total")
    ensures |Apply(window, s, step).workers| == Metrics.Total(incs + IncsOf(step), "webhook_requests_total")
  {
    RequestsOfStep(step);
    Metrics.TotalOfSum(incs, IncsOf(step), "webhook_requests_total");
  }

  /** There are as many request goroutines as requests have been counted. */
  lemma {:induction false} RequestsAreCounted(window: int, steps: seq<Step>)
    requires Runs(window, steps)
    ensures |After(window, steps).workers| == Metrics.Total(AllIncs(steps), "webhook_requests_total")
  {
    if |steps| > 0 {
      var n := |steps| - 1;
      RequestsAreCounted(window, steps[..n]);
      RequestsOneMore(window, After(window, steps[..n]), steps[n], AllIncs(steps[..n]));
    }
  }

  /** At every point of every run the books are what the program's counters have been incremented by. */
  lemma BooksAreCounters(window: int, steps: seq<Step>)
    requires Runs(window, steps)
    ensures var b, incs := After(window, steps).book, AllIncs(steps);
            && b.received == Metrics.Total(incs, "webhook_events_received")
            && b.skipped == Metrics.Total(incs, "events_skipped")
            && b.sent == Metrics.Total(incs, "notifications_sent")
            && b.failed == Metrics.Total(incs, "notifications_failed")
  {
    BookedIsCounted(window, steps);
  }

}
