/** What the objects of the service do are runs of the step machines: a flush is the steps of one
    callback, an event those of one request goroutine, with the same buffers and the same counters. */
module Refinement {

  import opened Wrappers
  import opened Webhook
  import opened Service
  import opened Delivery
  import Decimal
  import Dedup
  import Events
  import Formatter
  import Grouping
  import I18n
  import Ledger
  import Markup
  import Metrics
  import Server
  import Storage
  import Text

  /** The service and a run of the ledger's machine agree on the buffers and on the counters. */
  ghost predicate Coupled(w: World, window: int, steps: seq<Ledger.Step>) {
    && Ledger.Runs(window, steps)
    && w.pool == Ledger.After(window, steps).groups.pool
    && w.incs == Ledger.AllIncs(steps)
  }

  /** A run of the machine that has come to these groups, requests and counters. */
  ghost predicate Reaches(window: int, steps: seq<Ledger.Step>, groups: Grouping.State, workers: seq<Ledger.Worker>,
                          incs: seq<(string, int)>) {
    && Ledger.Runs(window, steps)
    && Ledger.After(window, steps).groups == groups && Ledger.After(window, steps).workers == workers
    && Ledger.AllIncs(steps) == incs
  }

  lemma Extend(window: int, steps: seq<Ledger.Step>, step: Ledger.Step)
    requires Ledger.Runs(window, steps) && Ledger.Enabled(Ledger.After(window, steps), step)
    ensures var s := Ledger.Apply(window, Ledger.After(window, steps), step);
            Reaches(window, steps + [step], s.groups, s.workers, Ledger.AllIncs(steps) + Ledger.IncsOf(step))
  {
    assert (steps + [step])[..|steps|] == steps;
  }

  lemma Regrouped(window: int, steps: seq<Ledger.Step>, a: seq<Ledger.Step>, b: seq<Ledger.Step>, g: Grouping.State,
                  workers: seq<Ledger.Worker>, incs: seq<(string, int)>)
    requires Reaches(window, steps + a + b, g, workers, incs)
    ensures Reaches(window, steps + (a + b), g, workers, incs)
  {
    assert steps + (a + b) == steps + a + b;
  }

  // ---- A flush ----

  /** One attempt with the buffer of timer t for each user of a list. */
  function AttemptsOn(g: Grouping.State, t: nat, order: seq<string>): seq<Grouping.Attempt>
    requires t < |g.pool.buffers|
  {
    seq(|order|, i requires 0 <= i < |order| => Grouping.Attempt(t, order[i], g.pool.buffers[t].records))
  }

  /** From g to g' the callback of timer t has gone through a list of users of its buffer. */
  ghost predicate Walked(g: Grouping.State, g': Grouping.State, t: nat, order: seq<string>) {
    && t < |g.timers| && t < |g.pool.buffers|
    && g'.timers == Grouping.SetPhase(g.timers, t, Grouping.Sending(t, Text.Elements(order), None))
    && g'.attempts == g.attempts + multiset(AttemptsOn(g, t, order))
    && (g'.now, g'.pool, g'.enqueued, g'.detached) == (g.now, g.pool, g.enqueued, g.detached)
  }

  /** One more user: a send, and the counting of its result. */
  lemma WalkOne(window: int, g: Grouping.State, g': Grouping.State, t: nat, order: seq<string>, u: string)
    requires Walked(g, g', t, order) && u in g.pool.buffers[t].users && u !in order
    ensures Grouping.Enabled(g', Grouping.Send(t, u))
    ensures var g1 := Grouping.Apply(window, g', Grouping.Send(t, u));
            Grouping.Enabled(g1, Grouping.Count(t)) && Walked(g, Grouping.Apply(window, g1, Grouping.Count(t)), t, order + [u])
  {
    assert Text.Elements(order + [u]) == Text.Elements(order) + {u};
    assert AttemptsOn(g, t, order + [u]) == AttemptsOn(g, t, order) + [Grouping.Attempt(t, u, g.pool.buffers[t].records)];
  }

  /** A step of the grouping machine, in the ledger. */
  lemma GroupStep(window: int, steps: seq<Ledger.Step>, groups: Grouping.State, workers: seq<Ledger.Worker>,
                  incs: seq<(string, int)>, step: Grouping.Step, ok: bool)
    requires Reaches(window, steps, groups, workers, incs) && !step.Enqueue? && Grouping.Enabled(groups, step)
    ensures Reaches(window, steps + [Ledger.Group(step, ok)], Grouping.Apply(window, groups, step), workers,
                    incs + if step.Count? then [Ledger.Result(ok)] else [])
  {
    Extend(window, steps, Ledger.Group(step, ok));
  }

  lemma WalkTurn(window: int, steps: seq<Ledger.Step>, g: Grouping.State, g': Grouping.State, workers: seq<Ledger.Worker>,
                 incs: seq<(string, int)>, t: nat, order: seq<string>, u: string, ok: bool) returns (g2: Grouping.State)
    requires Reaches(window, steps, g', workers, incs)
    requires Walked(g, g', t, order) && u in g.pool.buffers[t].users && u !in order
    ensures Walked(g, g2, t, order + [u])
    ensures Reaches(window, steps + [Ledger.Group(Grouping.Send(t, u), ok)] + [Ledger.Group(Grouping.Count(t), ok)], g2, workers,
                    incs + [Ledger.Result(ok)])
  {
    WalkOne(window, g, g', t, order, u);
    var g1 := Grouping.Apply(window, g', Grouping.Send(t, u));
    g2 := Grouping.Apply(window, g1, Grouping.Count(t));
    GroupStep(window, steps, g', workers, incs, Grouping.Send(t, u), ok);
    assert incs + [] == incs;
    GroupStep(window, steps + [Ledger.Group(Grouping.Send(t, u), ok)], g1, workers, incs, Grouping.Count(t), ok);
  }

  /** The steps for one user of a group. */
  function Turn(t: nat, u: string, ok: bool): seq<Ledger.Step> {
    [Ledger.Group(Grouping.Send(t, u), ok)] + [Ledger.Group(Grouping.Count(t), ok)]
  }

  lemma WalkLast(window: int, steps: seq<Ledger.Step>, before: seq<Ledger.Step>, g: Grouping.State, g1: Grouping.State,
                 workers: seq<Ledger.Worker>, incs: seq<(string, int)>, t: nat, outcome: string -> Outcome, order: seq<string>, u: string)
    returns (g': Grouping.State)
    requires Walked(g, g1, t, order) && Reaches(window, steps + before, g1, workers, incs + Counts(outcome, order))
    requires u in g.pool.buffers[t].users && u !in order
    ensures Walked(g, g', t, order + [u])
    ensures Reaches(window, steps + (before + Turn(t, u, Delivered(outcome, u))), g', workers, incs + Counts(outcome, order + [u]))
  {
    var ok, counts := Delivered(outcome, u), Counts(outcome, order);
    g' := WalkTurn(window, steps + before, g, g1, workers, incs + counts, t, order, u, ok);
    CountsOneMore(outcome, order, u);
    assert incs + (counts + [Ledger.Result(ok)]) == incs + counts + [Ledger.Result(ok)];
    assert steps + (before + Turn(t, u, ok))
        == steps + before + [Ledger.Group(Grouping.Send(t, u), ok)] + [Ledger.Group(Grouping.Count(t), ok)];
  }

  lemma CountsOneMore(outcome: string -> Outcome, order: seq<string>, u: string)
    ensures Counts(outcome, order + [u]) == Counts(outcome, order) + [Ledger.Result(Delivered(outcome, u))]
  {
    assert (order + [u])[..|order|] == order;
  }

  lemma WalkNone(window: int, steps: seq<Ledger.Step>, g: Grouping.State, workers: seq<Ledger.Worker>, incs: seq<(string, int)>,
                 t: nat, outcome: string -> Outcome)
    requires Reaches(window, steps, g, workers, incs)
    requires t < |g.timers| && t < |g.pool.buffers| && g.timers[t].phase == Grouping.Sending(t, {}, None)
    ensures Walked(g, g, t, []) && Reaches(window, steps + [], g, workers, incs + Counts(outcome, []))
  {
    assert steps + [] == steps && incs + Counts(outcome, []) == incs;
    assert Text.Elements([]) == {} && AttemptsOn(g, t, []) == [];
    assert Grouping.SetPhase(g.timers, t, Grouping.Sending(t, Text.Elements([]), None)) == g.timers;
  }

  /** The callback's loop over its users. */
  lemma {:induction false} Walk(window: int, steps: seq<Ledger.Step>, g: Grouping.State, workers: seq<Ledger.Worker>,
                                incs: seq<(string, int)>, t: nat, outcome: string -> Outcome, order: seq<string>)
    returns (more: seq<Ledger.Step>, g': Grouping.State)
    requires Reaches(window, steps, g, workers, incs)
    requires t < |g.timers| && t < |g.pool.buffers| && g.timers[t].phase == Grouping.Sending(t, {}, None)
    requires forall i :: 0 <= i < |order| ==> order[i] in g.pool.buffers[t].users
    requires forall i, j :: 0 <= i < j < |order| ==> order[i] != order[j]
    ensures Walked(g, g', t, order) && Reaches(window, steps + more, g', workers, incs + Counts(outcome, order))
  {
    if |order| == 0 {
      more, g' := [], g;
      WalkNone(window, steps, g, workers, incs, t, outcome);
      assert order == [];
    } else {
      var n, u := |order| - 1, order[|order| - 1];
      var before, g1 := Walk(window, steps, g, workers, incs, t, outcome, order[..n]);
      g' := WalkLast(window, steps, before, g, g1, workers, incs, t, outcome, order[..n], u);
      more := before + Turn(t, u, Delivered(outcome, u));
      assert order[..n] + [u] == order;
    }
  }

  /** From g to g' the callback of timer t has taken its buffer, tried each user of a list with it, and
      returned, and nothing else has happened. */
  ghost predicate FlushedAll(g: Grouping.State, g': Grouping.State, t: nat, order: seq<string>) {
    && t < |g.timers| && t < |g.pool.buffers|
    && g'.pool == Grouping.Detach(g.pool, g.timers[t].key)
    && g'.timers == Grouping.SetPhase(g.timers, t, Grouping.Returned)
    && g'.attempts == g.attempts + multiset(AttemptsOn(g, t, order))
    && g'.detached == g.detached + [Grouping.Detached(t, g.now)]
    && (g'.now, g'.enqueued) == (g.now, g.enqueued)
  }

  /** The first step of a flush. */
  lemma TakeOwn(window: int, g: Grouping.State, t: nat)
    requires Grouping.Inv(window, g) && Grouping.Enabled(g, Grouping.Take(t))
    ensures var g' := Grouping.Apply(window, g, Grouping.Take(t));
            && Grouping.Lookup(g.pool, g.timers[t].key) == Some(t) && t < |g.pool.buffers| && g.pool.buffers[t].records != []
            && g'.pool == Grouping.Detach(g.pool, g.timers[t].key)
            && g'.timers == Grouping.SetPhase(g.timers, t, Grouping.Sending(t, {}, None))
            && g'.detached == g.detached + [Grouping.Detached(t, g.now)]
            && (g'.now, g'.enqueued, g'.attempts) == (g.now, g.enqueued, g.attempts)
  {
    Grouping.TakeFindsOwn(g, t);
    assert Grouping.BufferStamped(window, g.now, g.pool.buffers[t], g.timers[t]);
  }

  /** And the last. */
  lemma FinishAll(window: int, g: Grouping.State, g': Grouping.State, t: nat, order: seq<string>)
    requires Walked(g, g', t, order) && Text.Elements(order) == g.pool.buffers[t].users
    ensures Grouping.Enabled(g', Grouping.Finish(t))
    ensures var g2 := Grouping.Apply(window, g', Grouping.Finish(t));
            && g2.timers == Grouping.SetPhase(g.timers, t, Grouping.Returned)
            && g2.attempts == g.attempts + multiset(AttemptsOn(g, t, order))
            && (g2.now, g2.pool, g2.enqueued, g2.detached) == (g.now, g.pool, g.enqueued, g.detached)
  {
  }

  lemma {:induction false} NoMoreThanListed(order: seq<string>)
    ensures |Text.Elements(order)| <= |order|
  {
    if |order| > 0 {
      var n := |order| - 1;
      NoMoreThanListed(order[..n]);
      assert order == order[..n] + [order[n]];
      assert Text.Elements(order) == Text.Elements(order[..n]) + {order[n]};
    }
  }

  /** A list as long as its set of elements has each of them once. */
  lemma {:induction false} ListedOnce(order: seq<string>)
    requires |order| == |Text.Elements(order)|
    ensures forall i, j :: 0 <= i < j < |order| ==> order[i] != order[j]
  {
    if |order| > 0 {
      var n := |order| - 1;
      assert order == order[..n] + [order[n]];
      assert Text.Elements(order) == Text.Elements(order[..n]) + {order[n]};
      NoMoreThanListed(order[..n]);
      ListedOnce(order[..n]);
      assert order[n] !in Text.Elements(order[..n]);
      forall i | 0 <= i < n ensures order[i] != order[n] { assert order[..n][i] in Text.Elements(order[..n]); }
    }
  }

  lemma FlushBegins(window: int, steps: seq<Ledger.Step>, g: Grouping.State, workers: seq<Ledger.Worker>, incs: seq<(string, int)>, t: nat)
    requires Reaches(window, steps, g, workers, incs) && Grouping.Enabled(g, Grouping.Take(t))
    ensures Grouping.Inv(window, g)
    ensures Reaches(window, steps + [Ledger.Group(Grouping.Take(t), false)], Grouping.Apply(window, g, Grouping.Take(t)), workers, incs)
  {
    Ledger.InvHolds(window, steps);
    GroupStep(window, steps, g, workers, incs, Grouping.Take(t), false);
    assert incs + [] == incs;
  }

  lemma FlushedIs(window: int, g: Grouping.State, g2: Grouping.State, t: nat, order: seq<string>)
    requires Grouping.Inv(window, g) && Grouping.Enabled(g, Grouping.Take(t))
    requires Walked(Grouping.Apply(window, g, Grouping.Take(t)), g2, t, order)
    requires t < |g.pool.buffers| && Text.Elements(order) == g.pool.buffers[t].users
    ensures Grouping.Enabled(g2, Grouping.Finish(t)) && FlushedAll(g, Grouping.Apply(window, g2, Grouping.Finish(t)), t, order)
  {
    var g1 := Grouping.Apply(window, g, Grouping.Take(t));
    TakeOwn(window, g, t);
    FinishAll(window, g1, g2, t, order);
    assert AttemptsOn(g1, t, order) == AttemptsOn(g, t, order);
  }

  lemma FlushWalks(window: int, steps: seq<Ledger.Step>, g: Grouping.State, workers: seq<Ledger.Worker>, incs: seq<(string, int)>, t: nat,
                   outcome: string -> Outcome, order: seq<string>)
    returns (walk: seq<Ledger.Step>, g2: Grouping.State)
    requires Grouping.Inv(window, g) && Grouping.Enabled(g, Grouping.Take(t))
    requires Reaches(window, steps, Grouping.Apply(window, g, Grouping.Take(t)), workers, incs)
    requires t < |g.pool.buffers| && Text.Elements(order) == g.pool.buffers[t].users && |order| == |g.pool.buffers[t].users|
    ensures Grouping.Enabled(g2, Grouping.Finish(t)) && FlushedAll(g, Grouping.Apply(window, g2, Grouping.Finish(t)), t, order)
    ensures Reaches(window, steps + walk, g2, workers, incs + Counts(outcome, order))
  {
    TakeOwn(window, g, t);
    ListedOnce(order);
    forall i | 0 <= i < |order| ensures order[i] in g.pool.buffers[t].users { assert order[i] in Text.Elements(order); }
    walk, g2 := Walk(window, steps, Grouping.Apply(window, g, Grouping.Take(t)), workers, incs, t, outcome, order);
    FlushedIs(window, g, g2, t, order);
  }

  lemma FlushTakes(window: int, steps: seq<Ledger.Step>, g: Grouping.State, workers: seq<Ledger.Worker>, incs: seq<(string, int)>, t: nat,
                   outcome: string -> Outcome, order: seq<string>)
    returns (before: seq<Ledger.Step>, g2: Grouping.State)
    requires Reaches(window, steps, g, workers, incs) && Grouping.Enabled(g, Grouping.Take(t))
    requires t < |g.pool.buffers| && Text.Elements(order) == g.pool.buffers[t].users && |order| == |g.pool.buffers[t].users|
    ensures Grouping.Enabled(g2, Grouping.Finish(t)) && FlushedAll(g, Grouping.Apply(window, g2, Grouping.Finish(t)), t, order)
    ensures Reaches(window, steps + before, g2, workers, incs + Counts(outcome, order))
  {
    var take := [Ledger.Group(Grouping.Take(t), false)];
    FlushBegins(window, steps, g, workers, incs, t);
    var walk;
    walk, g2 := FlushWalks(window, steps + take, g, workers, incs, t, outcome, order);
    before := take + walk;
    Regrouped(window, steps, take, walk, g2, workers, incs + Counts(outcome, order));
  }

  lemma FlushEnds(window: int, steps: seq<Ledger.Step>, before: seq<Ledger.Step>, g: Grouping.State, workers: seq<Ledger.Worker>,
                  incs: seq<(string, int)>, t: nat)
    requires Reaches(window, steps + before, g, workers, incs) && Grouping.Enabled(g, Grouping.Finish(t))
    ensures Reaches(window, steps + (before + [Ledger.Group(Grouping.Finish(t), false)]), Grouping.Apply(window, g, Grouping.Finish(t)),
                    workers, incs)
  {
    GroupStep(window, steps + before, g, workers, incs, Grouping.Finish(t), false);
    assert incs + [] == incs;
    assert steps + (before + [Ledger.Group(Grouping.Finish(t), false)]) == steps + before + [Ledger.Group(Grouping.Finish(t), false)];
  }

  /** Trying each user of a fired timer's buffer once, in any order, is a run of the machine: the
      callback takes the buffer, calls and counts for each user, and returns. */
  lemma FlushRuns(window: int, steps: seq<Ledger.Step>, g: Grouping.State, workers: seq<Ledger.Worker>, incs: seq<(string, int)>,
                  t: nat, outcome: string -> Outcome, order: seq<string>)
    returns (more: seq<Ledger.Step>, g': Grouping.State)
    requires Reaches(window, steps, g, workers, incs) && Grouping.Enabled(g, Grouping.Take(t))
    requires t < |g.pool.buffers| && Text.Elements(order) == g.pool.buffers[t].users && |order| == |g.pool.buffers[t].users|
    ensures FlushedAll(g, g', t, order)
    ensures Reaches(window, steps + more, g', workers, incs + Counts(outcome, order))
  {
    var before, g2 := FlushTakes(window, steps, g, workers, incs, t, outcome, order);
    FlushEnds(window, steps, before, g2, workers, incs + Counts(outcome, order), t);
    g' := Grouping.Apply(window, g2, Grouping.Finish(t));
    more := before + [Ledger.Group(Grouping.Finish(t), false)];
  }

  lemma TakesOwnBuffer(window: int, steps: seq<Ledger.Step>, t: nat)
    requires Ledger.Runs(window, steps) && Grouping.Enabled(Ledger.After(window, steps).groups, Grouping.Take(t))
    ensures var g := Ledger.After(window, steps).groups;
            && t < |g.pool.buffers| && |g.pool.buffers[t].records| > 0
            && Held(g.pool, g.timers[t].key) == Some(g.pool.buffers[t])
  {
    Ledger.InvHolds(window, steps);
    TakeOwn(window, Ledger.After(window, steps).groups, t);
  }

  lemma FlushCoupled(window: int, steps: seq<Ledger.Step>, t: nat, outcome: string -> Outcome, order: seq<string>, w: World, w': World)
    returns (more: seq<Ledger.Step>)
    requires Coupled(w, window, steps) && Grouping.Enabled(Ledger.After(window, steps).groups, Grouping.Take(t))
    requires var g := Ledger.After(window, steps).groups;
             && t < |g.pool.buffers| && Text.Elements(order) == g.pool.buffers[t].users && |order| == |g.pool.buffers[t].users|
             && w'.pool == Grouping.Detach(w.pool, g.timers[t].key)
    requires w'.incs == w.incs + Counts(outcome, order)
    ensures Coupled(w', window, steps + more)
    ensures FlushedAll(Ledger.After(window, steps).groups, Ledger.After(window, steps + more).groups, t, order)
    ensures Ledger.After(window, steps + more).workers == Ledger.After(window, steps).workers
  {
    var s := Ledger.After(window, steps);
    var g';
    more, g' := FlushRuns(window, steps, s.groups, s.workers, w.incs, t, outcome, order);
  }

  /** What the callback of a fired timer does in the service is what it does in the machine, from taking
      the lock to its end: its buffer, which has events, is taken, each of its users is tried exactly
      once, with the text of all its events, and each result is counted. */
  method Flush(service: Service, key: string, outcome: string -> Outcome, ghost steps: seq<Ledger.Step>, ghost t: nat)
    returns (ghost order: seq<string>, ghost texts: seq<string>, ghost more: seq<Ledger.Step>)
    requires service.Valid() && Coupled(service.View(), service.groups.window, steps)
    requires var g := Ledger.After(service.groups.window, steps).groups;
             Grouping.Enabled(g, Grouping.Take(t)) && g.timers[t].key == key
    modifies service.messenger, service.metrics, service.groups`buffers, service.groups`index
    ensures service.Valid() && Coupled(service.View(), service.groups.window, steps + more)
    ensures var g, g' := Ledger.After(service.groups.window, steps).groups, Ledger.After(service.groups.window, steps + more).groups;
            FlushedAll(g, g', t, order)
    ensures var b := Ledger.After(service.groups.window, steps).groups.pool.buffers[t];
            && |b.records| > 0 && Text.Elements(order) == b.users && |order| == |b.users| == |texts|
            && ToldGroup(service.config, service.store.prefs, EventsIn(b.records), outcome, order, texts)
    ensures |order| == |texts| && service.messenger.log == old(service.messenger.log) + CallsWith(outcome, order, texts)
  {
    ghost var w := service.View();
    TakesOwnBuffer(service.groups.window, steps, t);
    order, texts := service.FlushGrouped(key, outcome);
    more := FlushCoupled(service.groups.window, steps, t, outcome, order, w, service.View());
  }

  /** So of the users of the group exactly those whose preferences can be read get one call each, with a
      text of the group in their own language and zone, and nobody else gets any. */
  lemma GroupReachesUsers(config: Config, prefs: map<string, Storage.UserPrefs>, events: seq<Event>, users: set<string>,
                          outcome: string -> Outcome, order: seq<string>, texts: seq<string>, n: int)
    requires config.bundle.Valid() && |events| > 0 && |order| == |texts|
    requires Text.Elements(order) == users && |order| == |users| && ToldGroup(config, prefs, events, outcome, order, texts)
    requires Decimal.MIN <= n <= Decimal.MAX && forall u :: u in users ==> MadeID(u)
    ensures if Decimal.Print(n) in users && !outcome(Decimal.Print(n)).lookupFails
            then exists message {:trigger Sent(n, message)} ::
                   && To(CallsWith(outcome, order, texts), n) == [Sent(n, message)]
                   && IsGroupText(config, Storage.PrefsOf(prefs, Decimal.Print(n)), events, message)
            else To(CallsWith(outcome, order, texts), n) == []
  {
    ListedOnce(order);
    var u := Decimal.Print(n);
    forall i | 0 <= i < |order| ensures order[i] in users { assert order[i] in Text.Elements(order); }
    if u in users && !outcome(u).lookupFails {
      assert u in Text.Elements(order);
      var i :| 0 <= i < |order| && order[i] == u;
      OneCallTo(outcome, order, texts, n, i);
      assert IsGroupText(config, Storage.PrefsOf(prefs, order[i]), events, texts[i]);
      assert To(CallsWith(outcome, order, texts), n) == [Sent(n, texts[i])];
    } else {
      assert u in order ==> u in Text.Elements(order);
      NoCallsTo(outcome, order, texts, n);
    }
  }

  /** And such a text, under a title of the shape the catalogs have, shows one code span for each event
      of the group, its ID, in order. */
  lemma GroupTextShowsEvents(config: Config, prefs: Storage.UserPrefs, records: seq<Grouping.Record>, message: string, b: string, c: string)
    requires config.bundle.Valid() && |records| > 0 && records[0].event.kind in Events.REGISTRY
    requires IsGroupText(config, prefs, EventsIn(records), message)
    requires I18n.Braceless(b) && I18n.Braceless(c) && Markup.Harmless(b) && Markup.Harmless(c)
    requires I18n.Template(config.bundle, I18n.Resolve(config.bundle, LocaleOf(config, prefs)), "notification.grouped_title")
             == Some("<b>" + ("{{count}}" + (b + ("{{type}}" + (c + "</b>")))))
    ensures Markup.WellFormed(message) && |Markup.CodeSpans(message)| == |records|
    ensures forall i :: 0 <= i < |records| ==> Markup.CodeSpans(message)[i] == records[i].event.id
  {
    Formatter.ShippedGroupReadsBack(config.bundle, EventsIn(records), LocaleOf(config, prefs),
                                    TimePrinter(config, TimezoneOf(config, prefs)), message, b, c);
  }

  /** Under that title, the number of events and their type, it has one line for each event, with the time
      in the user's zone. */
  lemma GroupTextIs(config: Config, prefs: Storage.UserPrefs, events: seq<Event>, message: string, b: string, c: string)
    returns (lines: seq<string>)
    requires config.bundle.Valid() && |events| > 0 && events[0].kind in Events.REGISTRY
    requires IsGroupText(config, prefs, events, message)
    requires I18n.Braceless(b) && I18n.Braceless(c) && Markup.Harmless(b) && Markup.Harmless(c)
    requires I18n.Template(config.bundle, I18n.Resolve(config.bundle, LocaleOf(config, prefs)), "notification.grouped_title")
             == Some("<b>" + ("{{count}}" + (b + ("{{type}}" + (c + "</b>")))))
    ensures |lines| == |events|
    ensures message == Formatter.Join(["<b>" + (Decimal.Print(|events|) + (b + (events[0].kind + (c + "</b>")))), ""] + lines, "\n")
    ensures var zone := if Text.AllSpace(prefs.timezone) then config.defaultTimezone else prefs.timezone;
            forall i :: 0 <= i < |events| ==> lines[i] == Formatter.GroupLine(events[i], config.printTime(events[i].createdAt, zone))
  {
    var time := TimePrinter(config, TimezoneOf(config, prefs));
    DefaultsForBlanks(config, prefs);
    lines := Formatter.GroupLines(events, time);
    Formatter.ShippedTitleIs(config.bundle, events, LocaleOf(config, prefs), time, message, b, c);
  }

  // ---- An event ----

  /** A request goroutine between two events. */
  predicate Ready(workers: seq<Ledger.Worker>, k: nat, queue: seq<Event>) {
    k < |workers| && workers[k] == Ledger.Worker(queue, Ledger.Idle)
  }

  function Rest(queue: seq<Event>, job: Ledger.Job): Ledger.Worker
    requires |queue| > 0
  {
    Ledger.Worker(queue[1..], job)
  }

  lemma BeginsEvent(window: int, steps: seq<Ledger.Step>, g: Grouping.State, workers: seq<Ledger.Worker>, incs: seq<(string, int)>,
                    k: nat, queue: seq<Event>)
    requires Reaches(window, steps, g, workers, incs) && Ready(workers, k, queue) && |queue| > 0
    ensures Reaches(window, steps + [Ledger.Begin(k)], g,
                    workers[k := Rest(queue, if Events.IsSupported(queue[0].kind) then Ledger.Deciding(queue[0]) else Ledger.Idle)], incs)
  {
    Extend(window, steps, Ledger.Begin(k));
    assert incs + [] == incs;
  }

  lemma DecidesEvent(window: int, steps: seq<Ledger.Step>, g: Grouping.State, workers: seq<Ledger.Worker>, incs: seq<(string, int)>,
                     k: nat, rest: seq<Event>, event: Event, notify: bool)
    requires Reaches(window, steps, g, workers, incs) && k < |workers| && workers[k] == Ledger.Worker(rest, Ledger.Deciding(event))
    ensures Reaches(window, steps + [Ledger.Decide(k, notify)], g,
                    workers[k := Ledger.Worker(rest, if notify then Ledger.Looking(event) else Ledger.Idle)],
                    incs + if notify then [] else [("events_skipped", 1)])
  {
    Extend(window, steps, Ledger.Decide(k, notify));
  }

  /** The job after the lookup. */
  function Found(window: int, event: Event, found: Option<seq<string>>): Ledger.Job {
    match found
    case None => Ledger.Idle
    case Some(users) =>
      if |users| == 0 then Ledger.Idle
      else if window > 0 then Ledger.Queueing(event, users)
      else Ledger.Sending(event, users, 0, false)
  }

  lemma FindsUsers(window: int, steps: seq<Ledger.Step>, g: Grouping.State, workers: seq<Ledger.Worker>, incs: seq<(string, int)>,
                   k: nat, rest: seq<Event>, event: Event, found: Option<seq<string>>)
    requires Reaches(window, steps, g, workers, incs) && k < |workers| && workers[k] == Ledger.Worker(rest, Ledger.Looking(event))
    ensures Reaches(window, steps + [Ledger.Find(k, found)], g, workers[k := Ledger.Worker(rest, Found(window, event, found))],
                    incs + if found == Some([]) then [("events_skipped", 1)] else [])
  {
    Extend(window, steps, Ledger.Find(k, found));
  }

  lemma QueuesEvent(window: int, steps: seq<Ledger.Step>, g: Grouping.State, workers: seq<Ledger.Worker>, incs: seq<(string, int)>,
                    k: nat, rest: seq<Event>, event: Event, users: seq<string>)
    requires Reaches(window, steps, g, workers, incs) && k < |workers| && workers[k] == Ledger.Worker(rest, Ledger.Queueing(event, users))
    ensures Reaches(window, steps + [Ledger.Queue(k)], Grouping.Apply(window, g, Grouping.Enqueue(event.kind, event, Text.Elements(users))),
                    workers[k := Ledger.Worker(rest, Ledger.Idle)], incs)
  {
    Extend(window, steps, Ledger.Queue(k));
    assert incs + [] == incs;
  }

  /** A request goroutine in the loop over recipients. */
  function Looping(workers: seq<Ledger.Worker>, k: nat, rest: seq<Event>, event: Event, users: seq<string>, i: nat, calling: bool)
    : seq<Ledger.Worker>
    requires k < |workers|
  {
    workers[k := Ledger.Worker(rest, Ledger.Sending(event, users, i, calling))]
  }

  lemma CallsUser(window: int, steps: seq<Ledger.Step>, g: Grouping.State, workers: seq<Ledger.Worker>, incs: seq<(string, int)>,
                  k: nat, rest: seq<Event>, event: Event, users: seq<string>, i: nat)
    requires k < |workers| && i < |users|
    requires Reaches(window, steps, g, Looping(workers, k, rest, event, users, i, false), incs)
    ensures Reaches(window, steps + [Ledger.Call(k)], g, Looping(workers, k, rest, event, users, i, true), incs)
  {
    Extend(window, steps, Ledger.Call(k));
    assert incs + [] == incs;
    assert Looping(Looping(workers, k, rest, event, users, i, false), k, rest, event, users, i, true)
        == Looping(workers, k, rest, event, users, i, true);
  }

  lemma CountsUser(window: int, steps: seq<Ledger.Step>, g: Grouping.State, workers: seq<Ledger.Worker>, incs: seq<(string, int)>,
                   k: nat, rest: seq<Event>, event: Event, users: seq<string>, i: nat, ok: bool)
    requires k < |workers| && Reaches(window, steps, g, Looping(workers, k, rest, event, users, i, true), incs)
    ensures Reaches(window, steps + [Ledger.Count(k, ok)], g, Looping(workers, k, rest, event, users, i + 1, false),
                    incs + [Ledger.Result(ok)])
  {
    Extend(window, steps, Ledger.Count(k, ok));
    assert Looping(Looping(workers, k, rest, event, users, i, true), k, rest, event, users, i + 1, false)
        == Looping(workers, k, rest, event, users, i + 1, false);
  }

  lemma CountsOne(incs: seq<(string, int)>, outcome: string -> Outcome, users: seq<string>, i: nat)
    requires i < |users|
    ensures incs + Counts(outcome, users[..i]) + [Ledger.Result(Delivered(outcome, users[i]))] == incs + Counts(outcome, users[..i + 1])
  {
    CountsOneMore(outcome, users[..i], users[i]);
    assert users[..i + 1] == users[..i] + [users[i]];
  }

  lemma SendsToOne(window: int, steps: seq<Ledger.Step>, before: seq<Ledger.Step>, g: Grouping.State, workers: seq<Ledger.Worker>,
                   incs: seq<(string, int)>, k: nat, rest: seq<Event>, event: Event, users: seq<string>, i: nat, ok: bool)
    requires k < |workers| && i < |users|
    requires Reaches(window, steps + before, g, Looping(workers, k, rest, event, users, i, false), incs)
    ensures Reaches(window, steps + (before + [Ledger.Call(k), Ledger.Count(k, ok)]), g,
                    Looping(workers, k, rest, event, users, i + 1, false), incs + [Ledger.Result(ok)])
  {
    CallsUser(window, steps + before, g, workers, incs, k, rest, event, users, i);
    CountsUser(window, steps + before + [Ledger.Call(k)], g, workers, incs, k, rest, event, users, i, ok);
    assert steps + (before + [Ledger.Call(k), Ledger.Count(k, ok)]) == steps + before + [Ledger.Call(k)] + [Ledger.Count(k, ok)];
  }

  /** The loop over the first m recipients. */
  lemma {:induction false} SendsToFirst(window: int, steps: seq<Ledger.Step>, g: Grouping.State, workers: seq<Ledger.Worker>,
                                        incs: seq<(string, int)>, k: nat, rest: seq<Event>, event: Event, users: seq<string>, m: nat,
                                        outcome: string -> Outcome) returns (more: seq<Ledger.Step>)
    requires Reaches(window, steps, g, workers, incs) && k < |workers| && m <= |users|
    requires workers[k] == Ledger.Worker(rest, Ledger.Sending(event, users, 0, false))
    ensures Reaches(window, steps + more, g, Looping(workers, k, rest, event, users, m, false), incs + Counts(outcome, users[..m]))
    decreases m
  {
    if m == 0 {
      more := [];
      assert steps + more == steps && incs + Counts(outcome, users[..0]) == incs && workers[k := workers[k]] == workers;
    } else {
      var before := SendsToFirst(window, steps, g, workers, incs, k, rest, event, users, m - 1, outcome);
      var ok := Delivered(outcome, users[m - 1]);
      SendsToOne(window, steps, before, g, workers, incs + Counts(outcome, users[..m - 1]), k, rest, event, users, m - 1, ok);
      CountsOne(incs, outcome, users, m - 1);
      more := before + [Ledger.Call(k), Ledger.Count(k, ok)];
    }
  }

  lemma EndsSending(window: int, steps: seq<Ledger.Step>, before: seq<Ledger.Step>, g: Grouping.State, workers: seq<Ledger.Worker>,
                    incs: seq<(string, int)>, k: nat, rest: seq<Event>, event: Event, users: seq<string>)
    requires k < |workers|
    requires Reaches(window, steps + before, g, Looping(workers, k, rest, event, users, |users|, false), incs)
    ensures Reaches(window, steps + (before + [Ledger.Done(k)]), g, workers[k := Ledger.Worker(rest, Ledger.Idle)], incs)
  {
    Extend(window, steps + before, Ledger.Done(k));
    assert incs + [] == incs;
    assert steps + (before + [Ledger.Done(k)]) == steps + before + [Ledger.Done(k)];
  }

  lemma SendsToAll(window: int, steps: seq<Ledger.Step>, g: Grouping.State, workers: seq<Ledger.Worker>, incs: seq<(string, int)>,
                   k: nat, rest: seq<Event>, event: Event, users: seq<string>, outcome: string -> Outcome)
    returns (more: seq<Ledger.Step>)
    requires Reaches(window, steps, g, workers, incs) && k < |workers|
    requires workers[k] == Ledger.Worker(rest, Ledger.Sending(event, users, 0, false))
    ensures Reaches(window, steps + more, g, workers[k := Ledger.Worker(rest, Ledger.Idle)], incs + Counts(outcome, users))
  {
    var before := SendsToFirst(window, steps, g, workers, incs, k, rest, event, users, |users|, outcome);
    assert users[..|users|] == users;
    EndsSending(window, steps, before, g, workers, incs + Counts(outcome, users), k, rest, event, users);
    more := before + [Ledger.Done(k)];
  }

  /** The circumstances say of the machine what it says of itself. */
  predicate Fits(g: Grouping.State, c: Circumstances) {
    c.serial == |g.enqueued| && c.now == g.now
  }

  lemma GroupedIs(config: Config, g: Grouping.State, w: World, event: Event, c: Circumstances, users: seq<string>)
    requires w.pool == g.pool && Fits(g, c)
    ensures var g' := Grouping.Apply(config.groupWindow * Dedup.SECOND, g, Grouping.Enqueue(event.kind, event, Text.Elements(users)));
            g'.pool == Grouped(config, w, event, c, users).pool
  {
  }

  /** A request goroutine that has this left to do. */
  function At(workers: seq<Ledger.Worker>, k: nat, rest: seq<Event>, job: Ledger.Job): seq<Ledger.Worker>
    requires k < |workers|
  {
    workers[k := Ledger.Worker(rest, job)]
  }

  lemma AtTwice(workers: seq<Ledger.Worker>, k: nat, rest: seq<Event>, job: Ledger.Job, job': Ledger.Job)
    requires k < |workers|
    ensures At(At(workers, k, rest, job), k, rest, job') == At(workers, k, rest, job')
  {
  }

  /** From the dispatch to the end of the event, with a grouping window. */
  lemma QueuedRuns(config: Config, steps: seq<Ledger.Step>, g: Grouping.State, workers: seq<Ledger.Worker>, k: nat, rest: seq<Event>,
                   w: World, event: Event, c: Circumstances, users: seq<string>) returns (g': Grouping.State)
    requires k < |workers| && w.pool == g.pool && Fits(g, c)
    requires Reaches(config.groupWindow * Dedup.SECOND, steps, g, At(workers, k, rest, Ledger.Queueing(event, users)), w.incs)
    ensures g'.pool == Grouped(config, w, event, c, users).pool
    ensures Reaches(config.groupWindow * Dedup.SECOND, steps + [Ledger.Queue(k)], g', At(workers, k, rest, Ledger.Idle), w.incs)
  {
    var window := config.groupWindow * Dedup.SECOND;
    QueuesEvent(window, steps, g, At(workers, k, rest, Ledger.Queueing(event, users)), w.incs, k, rest, event, users);
    GroupedIs(config, g, w, event, c, users);
    AtTwice(workers, k, rest, Ledger.Queueing(event, users), Ledger.Idle);
    g' := Grouping.Apply(window, g, Grouping.Enqueue(event.kind, event, Text.Elements(users)));
  }

  /** And without one. */
  lemma SentRuns(window: int, steps: seq<Ledger.Step>, g: Grouping.State, workers: seq<Ledger.Worker>, k: nat, rest: seq<Event>,
                 incs: seq<(string, int)>, event: Event, outcome: string -> Outcome, users: seq<string>) returns (more: seq<Ledger.Step>)
    requires k < |workers| && Reaches(window, steps, g, At(workers, k, rest, Ledger.Sending(event, users, 0, false)), incs)
    ensures Reaches(window, steps + more, g, At(workers, k, rest, Ledger.Idle), incs + Counts(outcome, users))
  {
    more := SendsToAll(window, steps, g, At(workers, k, rest, Ledger.Sending(event, users, 0, false)), incs, k, rest, event, users, outcome);
    AtTwice(workers, k, rest, Ledger.Sending(event, users, 0, false), Ledger.Idle);
  }

  lemma DispatchedRuns(config: Config, steps: seq<Ledger.Step>, g: Grouping.State, workers: seq<Ledger.Worker>, k: nat, rest: seq<Event>,
                       w: World, event: Event, c: Circumstances, users: seq<string>, text: string -> string)
    returns (more: seq<Ledger.Step>, g': Grouping.State)
    requires k < |workers| && w.pool == g.pool && Fits(g, c) && |users| > 0 && !c.lookupFails
    requires Reaches(config.groupWindow * Dedup.SECOND, steps, g,
                     At(workers, k, rest, Found(config.groupWindow * Dedup.SECOND, event, Some(users))), w.incs)
    ensures g'.pool == Distributed(config, w, event, c, users, text).pool
    ensures Reaches(config.groupWindow * Dedup.SECOND, steps + more, g', At(workers, k, rest, Ledger.Idle),
                    Distributed(config, w, event, c, users, text).incs)
  {
    if config.groupWindow > 0 {
      more := [Ledger.Queue(k)];
      g' := QueuedRuns(config, steps, g, workers, k, rest, w, event, c, users);
    } else {
      g' := g;
      more := SentRuns(config.groupWindow * Dedup.SECOND, steps, g, workers, k, rest, w.incs, event, c.outcome, users);
    }
  }

  lemma LooksUp(window: int, steps: seq<Ledger.Step>, g: Grouping.State, workers: seq<Ledger.Worker>, k: nat, rest: seq<Event>,
                incs: seq<(string, int)>, event: Event, found: Option<seq<string>>)
    requires k < |workers| && Reaches(window, steps, g, At(workers, k, rest, Ledger.Looking(event)), incs)
    ensures Reaches(window, steps + [Ledger.Find(k, found)], g, At(workers, k, rest, Found(window, event, found)),
                    if found == Some([]) then incs + [("events_skipped", 1)] else incs)
  {
    FindsUsers(window, steps, g, At(workers, k, rest, Ledger.Looking(event)), incs, k, rest, event, found);
    AtTwice(workers, k, rest, Ledger.Looking(event), Found(window, event, found));
    assert incs + [] == incs;
  }

  lemma LookedUpRuns(config: Config, steps: seq<Ledger.Step>, before: seq<Ledger.Step>, g: Grouping.State, workers: seq<Ledger.Worker>,
                     k: nat, rest: seq<Event>, w: World, event: Event, c: Circumstances, users: seq<string>, text: string -> string)
    returns (more: seq<Ledger.Step>, g': Grouping.State)
    requires k < |workers| && w.pool == g.pool && Fits(g, c) && |users| > 0 && !c.lookupFails
    requires Reaches(config.groupWindow * Dedup.SECOND, steps + before, g,
                     At(workers, k, rest, Found(config.groupWindow * Dedup.SECOND, event, Some(users))), w.incs)
    ensures g'.pool == Distributed(config, w, event, c, users, text).pool
    ensures Reaches(config.groupWindow * Dedup.SECOND, steps + more, g', At(workers, k, rest, Ledger.Idle),
                    Distributed(config, w, event, c, users, text).incs)
  {
    var others;
    others, g' := DispatchedRuns(config, steps + before, g, workers, k, rest, w, event, c, users, text);
    more := before + others;
    Regrouped(config.groupWindow * Dedup.SECOND, steps, before, others, g', At(workers, k, rest, Ledger.Idle),
              Distributed(config, w, event, c, users, text).incs);
  }

  /** From the lookup of the subscribers to the end of the event. */
  lemma DistributedRuns(config: Config, steps: seq<Ledger.Step>, g: Grouping.State, workers: seq<Ledger.Worker>, k: nat, rest: seq<Event>,
                        w: World, event: Event, c: Circumstances, users: seq<string>, text: string -> string)
    returns (more: seq<Ledger.Step>, g': Grouping.State)
    requires k < |workers| && w.pool == g.pool && Fits(g, c)
    requires Reaches(config.groupWindow * Dedup.SECOND, steps, g, At(workers, k, rest, Ledger.Looking(event)), w.incs)
    ensures g'.pool == Distributed(config, w, event, c, users, text).pool
    ensures Reaches(config.groupWindow * Dedup.SECOND, steps + more, g', At(workers, k, rest, Ledger.Idle),
                    Distributed(config, w, event, c, users, text).incs)
  {
    var found := if c.lookupFails then None else Some(users);
    LooksUp(config.groupWindow * Dedup.SECOND, steps, g, workers, k, rest, w.incs, event, found);
    if !c.lookupFails && |users| > 0 {
      more, g' := LookedUpRuns(config, steps, [Ledger.Find(k, found)], g, workers, k, rest, w, event, c, users, text);
    } else {
      more, g' := [Ledger.Find(k, found)], g;
    }
  }

  lemma NotifiedRuns(config: Config, steps: seq<Ledger.Step>, before: seq<Ledger.Step>, g: Grouping.State, workers: seq<Ledger.Worker>,
                     k: nat, rest: seq<Event>, w: World, event: Event, c: Circumstances, users: seq<string>, text: string -> string)
    returns (more: seq<Ledger.Step>, g': Grouping.State)
    requires k < |workers| && w.pool == g.pool && Fits(g, c)
    requires Reaches(config.groupWindow * Dedup.SECOND, steps + before, g, At(workers, k, rest, Ledger.Looking(event)), w.incs)
    ensures g'.pool == Distributed(config, w, event, c, users, text).pool
    ensures Reaches(config.groupWindow * Dedup.SECOND, steps + more, g', At(workers, k, rest, Ledger.Idle),
                    Distributed(config, w, event, c, users, text).incs)
  {
    var others;
    others, g' := DistributedRuns(config, steps + before, g, workers, k, rest, w, event, c, users, text);
    more := before + others;
    Regrouped(config.groupWindow * Dedup.SECOND, steps, before, others, g', At(workers, k, rest, Ledger.Idle),
              Distributed(config, w, event, c, users, text).incs);
  }

  lemma Decides(window: int, steps: seq<Ledger.Step>, g: Grouping.State, workers: seq<Ledger.Worker>, k: nat, rest: seq<Event>,
                incs: seq<(string, int)>, event: Event, notify: bool)
    requires k < |workers| && Reaches(window, steps, g, At(workers, k, rest, Ledger.Deciding(event)), incs)
    ensures Reaches(window, steps + [Ledger.Decide(k, notify)], g, At(workers, k, rest, if notify then Ledger.Looking(event) else Ledger.Idle),
                    if notify then incs else incs + [("events_skipped", 1)])
  {
    DecidesEvent(window, steps, g, At(workers, k, rest, Ledger.Deciding(event)), incs, k, rest, event, notify);
    AtTwice(workers, k, rest, Ledger.Deciding(event), if notify then Ledger.Looking(event) else Ledger.Idle);
    assert incs + [] == incs;
  }

  /** From the filters to the end of the event. */
  lemma ConsideredRuns(config: Config, judge: Judge, steps: seq<Ledger.Step>, g: Grouping.State, workers: seq<Ledger.Worker>, k: nat,
                       rest: seq<Event>, w: World, event: Event, c: Circumstances, users: seq<string>, text: string -> string)
    returns (more: seq<Ledger.Step>, g': Grouping.State)
    requires k < |workers| && w.pool == g.pool && Fits(g, c)
    requires Reaches(config.groupWindow * Dedup.SECOND, steps, g, At(workers, k, rest, Ledger.Deciding(event)), w.incs)
    ensures g'.pool == Considered(config, judge, w, event, c, users, text).pool
    ensures Reaches(config.groupWindow * Dedup.SECOND, steps + more, g', At(workers, k, rest, Ledger.Idle),
                    Considered(config, judge, w, event, c, users, text).incs)
  {
    var (notify, seen) := judge(w.seen, ItemOf(event, c));
    Decides(config.groupWindow * Dedup.SECOND, steps, g, workers, k, rest, w.incs, event, notify);
    if notify {
      more, g' := NotifiedRuns(config, steps, [Ledger.Decide(k, notify)], g, workers, k, rest, w.(seen := seen), event, c, users, text);
    } else {
      more, g' := [Ledger.Decide(k, notify)], g;
    }
  }

  lemma SupportedRuns(config: Config, judge: Judge, steps: seq<Ledger.Step>, before: seq<Ledger.Step>, g: Grouping.State,
                      workers: seq<Ledger.Worker>, k: nat, rest: seq<Event>, w: World, event: Event, c: Circumstances, users: seq<string>,
                      text: string -> string)
    returns (more: seq<Ledger.Step>, g': Grouping.State)
    requires k < |workers| && w.pool == g.pool && Fits(g, c)
    requires Reaches(config.groupWindow * Dedup.SECOND, steps + before, g, At(workers, k, rest, Ledger.Deciding(event)), w.incs)
    ensures g'.pool == Considered(config, judge, w, event, c, users, text).pool
    ensures Reaches(config.groupWindow * Dedup.SECOND, steps + more, g', At(workers, k, rest, Ledger.Idle),
                    Considered(config, judge, w, event, c, users, text).incs)
  {
    var others;
    others, g' := ConsideredRuns(config, judge, steps + before, g, workers, k, rest, w, event, c, users, text);
    more := before + others;
    Regrouped(config.groupWindow * Dedup.SECOND, steps, before, others, g', At(workers, k, rest, Ledger.Idle),
              Considered(config, judge, w, event, c, users, text).incs);
  }

  /** All that the service does on an event, a request goroutine of the machine does: it takes the event
      off its queue and comes back to its loop, with the same buffers and the same counters. */
  lemma ProcessedRuns(config: Config, judge: Judge, steps: seq<Ledger.Step>, g: Grouping.State, workers: seq<Ledger.Worker>, k: nat,
                      queue: seq<Event>, w: World, c: Circumstances, users: seq<string>, text: string -> string)
    returns (more: seq<Ledger.Step>, g': Grouping.State)
    requires w.pool == g.pool && Fits(g, c) && Ready(workers, k, queue) && |queue| > 0
    requires Reaches(config.groupWindow * Dedup.SECOND, steps, g, workers, w.incs)
    ensures g'.pool == Processed(config, judge, w, queue[0], c, users, text).pool
    ensures Reaches(config.groupWindow * Dedup.SECOND, steps + more, g', At(workers, k, queue[1..], Ledger.Idle),
                    Processed(config, judge, w, queue[0], c, users, text).incs)
  {
    BeginsEvent(config.groupWindow * Dedup.SECOND, steps, g, workers, w.incs, k, queue);
    if Events.IsSupported(queue[0].kind) {
      more, g' := SupportedRuns(config, judge, steps, [Ledger.Begin(k)], g, workers, k, queue[1..], w, queue[0], c, users, text);
    } else {
      more, g' := [Ledger.Begin(k)], g;
    }
  }

  lemma ProcessedCoupled(config: Config, judge: Judge, steps: seq<Ledger.Step>, k: nat, queue: seq<Event>, w: World, c: Circumstances,
                         users: seq<string>, text: string -> string)
    returns (more: seq<Ledger.Step>)
    requires Coupled(w, config.groupWindow * Dedup.SECOND, steps) && |queue| > 0
    requires var s := Ledger.After(config.groupWindow * Dedup.SECOND, steps); Fits(s.groups, c) && Ready(s.workers, k, queue)
    ensures Coupled(Processed(config, judge, w, queue[0], c, users, text), config.groupWindow * Dedup.SECOND, steps + more)
    ensures var s, s' := Ledger.After(config.groupWindow * Dedup.SECOND, steps), Ledger.After(config.groupWindow * Dedup.SECOND, steps + more);
            s'.workers == s.workers[k := Ledger.Worker(queue[1..], Ledger.Idle)]
  {
    var s := Ledger.After(config.groupWindow * Dedup.SECOND, steps);
    var g';
    more, g' := ProcessedRuns(config, judge, steps, s.groups, s.workers, k, queue, w, c, users, text);
  }

  /** ProcessEvent, as a run of the machine. */
  method Process(service: Service, event: Event, c: Circumstances, ghost subscribers: seq<string>, ghost text: string -> string,
                 ghost steps: seq<Ledger.Step>, ghost k: nat, ghost queue: seq<Event>)
    returns (ghost more: seq<Ledger.Step>)
    requires service.Valid() && Tells(service.config, service.store.prefs, event, text)
    requires Text.Ascending(subscribers)
    requires Text.Elements(subscribers) == Storage.SubscribersOf(service.store.subscriptions, event.kind)
    requires service.dedup.UpTo(c.now) && |queue| > 0 && queue[0] == event
    requires Coupled(service.View(), service.groups.window, steps)
    requires var s := Ledger.After(service.groups.window, steps); Fits(s.groups, c) && Ready(s.workers, k, queue)
    modifies service.messenger, service.metrics, service.dedup, service.groups, service.groups.all
    ensures service.Valid() && Coupled(service.View(), service.groups.window, steps + more)
    ensures Ready(Ledger.After(service.groups.window, steps + more).workers, k, queue[1..])
  {
    ghost var w := service.View();
    more := ProcessedCoupled(service.config, service.judge, steps, k, queue, w, c, subscribers, text);
    var _ := service.ProcessEvent(event, c, subscribers, text);
  }

  /** A request counts itself and its events as the machine does, and adds a goroutine for them. */
  lemma RequestCoupled(window: int, steps: seq<Ledger.Step>, w: World, events: seq<Event>)
    requires Coupled(w, window, steps)
    ensures Coupled(Server.RequestCounted(w, |events|), window, steps + [Ledger.Request(events)])
    ensures var s, s' := Ledger.After(window, steps), Ledger.After(window, steps + [Ledger.Request(events)]);
            s'.workers == s.workers + [Ledger.Worker(events, Ledger.Idle)]
  {
    Extend(window, steps, Ledger.Request(events));
  }

  /** So as long as the service and a run agree, the accounts of the machine are those of the service's
      own counters. */
  lemma CountersBalance(w: World, window: int, steps: seq<Ledger.Step>)
    requires Coupled(w, window, steps)
    ensures Ledger.Balanced(Ledger.After(window, steps))
    ensures var b := Ledger.After(window, steps).book;
            && Metrics.Total(w.incs, "webhook_events_received") == b.received
            && Metrics.Total(w.incs, "events_skipped") == b.skipped
            && Metrics.Total(w.incs, "notifications_sent") == b.sent
            && Metrics.Total(w.incs, "notifications_failed") == b.failed
  {
    Ledger.AccountsBalance(window, steps);
    Ledger.BooksAreCounters(window, steps);
  }

}
