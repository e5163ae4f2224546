/** From the bot to the send attempts with grouping: updates, events and the steps of the grouping
    machine interleaved, with the subscribers of an event read from the tables at that moment. */
module GroupedDelivery {

  import opened Webhook
  import opened Delivery
  import Bot
  import Dedup
  import Events
  import Grouping
  import GroupingProgress
  import GroupingRuns
  import Server
  import Service
  import Storage
  import Text

  /** What decides about an event: whether it gets past the filters and its subscribers are found,
      with the deduplicator's map afterwards; and who they are, given what happened before. */
  datatype Rules = Rules(
    window: int,
    admit: (map<string, int>, Event, Service.Circumstances) -> (bool, map<string, int>),
    users: (seq<Occurrence>, string) -> set<string>)

  /** `origins` says, for each event enqueued, which occurrence it was; `passed` are the occurrences
      that were events past the filters. */
  datatype State = State(
    past: seq<Occurrence>,
    seen: map<string, int>,
    groups: Grouping.State,
    origins: seq<nat>,
    passed: set<nat>)

  datatype Move = Happens(o: Occurrence) | Steps(step: Grouping.Step)

  function Init(): State {
    State([], map[], Grouping.Init(), [], {})
  }

  predicate Enabled(s: State, m: Move) {
    match m
    case Happens(Updated(_)) => true
    case Happens(Received(_, c)) => c.now == s.groups.now
    case Steps(step) => !step.Enqueue? && Grouping.Enabled(s.groups, step)
  }

  function EnqueueOf(item: Event, users: set<string>): Grouping.Step {
    Grouping.Enqueue(item.kind, item, users)
  }

  function Receive(rules: Rules, s: State, event: Event, c: Service.Circumstances): State {
    var item := Server.Identified(event, c.stamp);
    var (pass, seen) := rules.admit(s.seen, item, c);
    var users := rules.users(s.past, item.kind);
    var past := s.past + [Received(event, c)];
    if !pass then State(past, seen, s.groups, s.origins, s.passed)
    else if users == {} then State(past, seen, s.groups, s.origins, s.passed + {|s.past|})
    else State(past, seen, Grouping.Apply(rules.window, s.groups, EnqueueOf(item, users)),
               s.origins + [|s.past|], s.passed + {|s.past|})
  }

  function Apply(rules: Rules, s: State, m: Move): State
    requires Enabled(s, m)
  {
    match m
    case Happens(Updated(update)) => s.(past := s.past + [Updated(update)])
    case Happens(Received(event, c)) => Receive(rules, s, event, c)
    case Steps(step) => s.(groups := Grouping.Apply(rules.window, s.groups, step))
  }

  predicate Runs(rules: Rules, moves: seq<Move>)
    decreases |moves|, 0
  {
    |moves| == 0 ||
    var n := |moves| - 1;
    Runs(rules, moves[..n]) && Enabled(After(rules, moves[..n]), moves[n])
  }

  function After(rules: Rules, moves: seq<Move>): State
    requires Runs(rules, moves)
    decreases |moves|, 1
  {
    if |moves| == 0 then Init()
    else var n := |moves| - 1; Apply(rules, After(rules, moves[..n]), moves[n])
  }

  // ---- What is enqueued ----

  function ItemAt(past: seq<Occurrence>, j: nat): Event
    requires j < |past| && past[j].Received?
  {
    Server.Identified(past[j].event, past[j].c.stamp)
  }

  function UsersAt(rules: Rules, past: seq<Occurrence>, j: nat): set<string>
    requires j < |past| && past[j].Received?
  {
    rules.users(past[..j], ItemAt(past, j).kind)
  }

  /** Event number i in the groups is occurrence origins[i], with the users it had then. */
  predicate OriginOK(rules: Rules, s: State, i: nat)
    requires i < |s.origins| == |s.groups.enqueued|
  {
    var j, call := s.origins[i], s.groups.enqueued[i];
    && j < |s.past| && s.past[j].Received?
    && call.0 == ItemAt(s.past, j).kind && call.1.event == ItemAt(s.past, j) && call.1.users == UsersAt(rules, s.past, j)
  }

  /** An event past the filters is enqueued unless nobody was subscribed. */
  predicate PassedOK(rules: Rules, s: State, j: nat) {
    j < |s.past| && s.past[j].Received? && (UsersAt(rules, s.past, j) == {} || j in s.origins)
  }

  ghost predicate Inv(rules: Rules, s: State) {
    && |s.origins| == |s.groups.enqueued|
    && (forall i: nat :: i < |s.origins| ==> OriginOK(rules, s, i))
    && (forall j :: j in s.passed ==> PassedOK(rules, s, j))
  }

  /** A longer past changes nothing about what happened before. */
  lemma PastGrows(rules: Rules, past: seq<Occurrence>, o: Occurrence, j: nat)
    requires j < |past| && past[j].Received?
    ensures ItemAt(past + [o], j) == ItemAt(past, j) && UsersAt(rules, past + [o], j) == UsersAt(rules, past, j)
  {
    assert (past + [o])[..j] == past[..j];
  }

  /** One more occurrence that enqueues nothing. */
  lemma InvHappens(rules: Rules, s: State, o: Occurrence, seen: map<string, int>, passed: set<nat>)
    requires Inv(rules, s) && (passed == s.passed || passed == s.passed + {|s.past|})
    requires passed != s.passed ==> PassedOK(rules, State(s.past + [o], seen, s.groups, s.origins, passed), |s.past|)
    ensures Inv(rules, State(s.past + [o], seen, s.groups, s.origins, passed))
  {
    var s' := State(s.past + [o], seen, s.groups, s.origins, passed);
    forall i: nat | i < |s'.origins| ensures OriginOK(rules, s', i) {
      assert OriginOK(rules, s, i);
      PastGrows(rules, s.past, o, s.origins[i]);
    }
    forall j | j in s'.passed ensures PassedOK(rules, s', j) {
      if j in s.passed {
        assert PassedOK(rules, s, j);
        PastGrows(rules, s.past, o, j);
      }
    }
  }

  /** And one that does. */
  lemma InvEnqueues(rules: Rules, s: State, event: Event, c: Service.Circumstances, seen: map<string, int>)
    requires Inv(rules, s)
    ensures var item := Server.Identified(event, c.stamp);
            Inv(rules, State(s.past + [Received(event, c)], seen,
                             Grouping.Apply(rules.window, s.groups, EnqueueOf(item, rules.users(s.past, item.kind))),
                             s.origins + [|s.past|], s.passed + {|s.past|}))
  {
    var o, item := Received(event, c), Server.Identified(event, c.stamp);
    var s' := State(s.past + [o], seen, Grouping.Apply(rules.window, s.groups, EnqueueOf(item, rules.users(s.past, item.kind))),
                    s.origins + [|s.past|], s.passed + {|s.past|});
    assert s'.past[..|s.past|] == s.past;
    assert UsersAt(rules, s'.past, |s.past|) == rules.users(s.past, item.kind);
    forall i: nat | i < |s'.origins| ensures OriginOK(rules, s', i) {
      if i < |s.origins| {
        assert OriginOK(rules, s, i);
        PastGrows(rules, s.past, o, s.origins[i]);
      }
    }
    assert s'.origins[|s.origins|] == |s.past|;
    forall j | j in s'.passed ensures PassedOK(rules, s', j) {
      if j in s.passed {
        assert PassedOK(rules, s, j);
        PastGrows(rules, s.past, o, j);
      }
    }
  }

  lemma InvReceive(rules: Rules, s: State, event: Event, c: Service.Circumstances)
    requires Inv(rules, s)
    ensures Inv(rules, Receive(rules, s, event, c))
  {
    var item := Server.Identified(event, c.stamp);
    var (pass, seen) := rules.admit(s.seen, item, c);
    if pass && rules.users(s.past, item.kind) != {} {
      InvEnqueues(rules, s, event, c, seen);
    } else {
      assert (s.past + [Received(event, c)])[..|s.past|] == s.past;
      InvHappens(rules, s, Received(event, c), seen, if pass then s.passed + {|s.past|} else s.passed);
    }
  }

  lemma InvSteps(rules: Rules, s: State, step: Grouping.Step)
    requires Inv(rules, s) && Enabled(s, Steps(step))
    ensures Inv(rules, Apply(rules, s, Steps(step)))
  {
    var s' := Apply(rules, s, Steps(step));
    assert s'.groups.enqueued == s.groups.enqueued;
    forall i: nat | i < |s'.origins| ensures OriginOK(rules, s', i) { assert OriginOK(rules, s, i); }
    forall j | j in s'.passed ensures PassedOK(rules, s', j) { assert PassedOK(rules, s, j); }
  }

  lemma {:induction false} InvHolds(rules: Rules, moves: seq<Move>)
    requires Runs(rules, moves)
    ensures Inv(rules, After(rules, moves))
  {
    if |moves| > 0 {
      var n := |moves| - 1;
      var s := After(rules, moves[..n]);
      InvHolds(rules, moves[..n]);
      match moves[n]
      case Happens(Updated(update)) => InvHappens(rules, s, Updated(update), s.seen, s.passed);
      case Happens(Received(event, c)) => InvReceive(rules, s, event, c);
      case Steps(step) => InvSteps(rules, s, step);
    }
  }

  /** The groups of a run are a run of the grouping machine. */
  lemma {:induction false} GroupsRun(rules: Rules, moves: seq<Move>) returns (steps: seq<Grouping.Step>)
    requires Runs(rules, moves)
    ensures Grouping.Runs(rules.window, steps) && Grouping.After(rules.window, steps) == After(rules, moves).groups
  {
    if |moves| == 0 {
      steps := [];
    } else {
      var n := |moves| - 1;
      var before := GroupsRun(rules, moves[..n]);
      var s := After(rules, moves[..n]);
      steps := before;
      match moves[n]
      case Happens(Updated(_)) =>
      case Happens(Received(event, c)) =>
        var item := Server.Identified(event, c.stamp);
        var users := rules.users(s.past, item.kind);
        if rules.admit(s.seen, item, c).0 && users != {} {
          Grouping.Extend(rules.window, before, EnqueueOf(item, users));
          steps := before + [EnqueueOf(item, users)];
        }
      case Steps(step) =>
        Grouping.Extend(rules.window, before, step);
        steps := before + [step];
    }
  }

  // ---- Attempts ----

  /** In the group that buffer t became there is an event for which u was looked up. */
  ghost predicate WantedIn(rules: Rules, s: State, t: nat, u: string)
    requires |s.origins| == |s.groups.enqueued|
  {
    exists i: nat :: i < |s.origins| && Asked(rules, s, t, u, i)
  }

  /** Enqueued event number i is in buffer t, and u was subscribed to its type when it came. */
  predicate Asked(rules: Rules, s: State, t: nat, u: string, i: nat)
    requires i < |s.origins| == |s.groups.enqueued|
  {
    && t < |s.groups.pool.buffers| && s.groups.enqueued[i].1 in s.groups.pool.buffers[t].records
    && s.origins[i] < |s.past| && s.past[s.origins[i]].Received? && u in UsersAt(rules, s.past, s.origins[i])
  }

  /** The users of a buffer are those who were subscribed when one of its events came. */
  lemma UsersAreWanted(rules: Rules, s: State, t: nat, u: string)
    requires Inv(rules, s) && Grouping.Inv(rules.window, s.groups) && t < |s.groups.timers| == |s.groups.pool.buffers|
    ensures u in s.groups.pool.buffers[t].users <==> WantedIn(rules, s, t, u)
  {
    var b := s.groups.pool.buffers[t];
    assert Grouping.BufferStamped(rules.window, s.groups.now, b, s.groups.timers[t]);
    if u in b.users {
      var k := GroupingRuns.UsersOfSomeone(b.records, u);
      GroupingRuns.CallOfHome(rules.window, s.groups, t, b.records[k]);
      var i := b.records[k].serial;
      assert OriginOK(rules, s, i);
      assert Asked(rules, s, t, u, i);
    }
    if WantedIn(rules, s, t, u) {
      var i: nat :| i < |s.origins| && Asked(rules, s, t, u, i);
      assert OriginOK(rules, s, i);
      GroupingRuns.UsersOfMember(b.records, s.groups.enqueued[i].1);
    }
  }

  /** How often u was tried with a group that has enqueued event number i: once, with the group t,
      if u was subscribed when some event of that group came, and never otherwise. */
  ghost predicate TriedOnceIff(rules: Rules, s: State, i: nat, u: string, t: nat)
    requires i < |s.origins| == |s.groups.enqueued|
  {
    && t < |s.groups.pool.buffers| && s.groups.enqueued[i].1 in s.groups.pool.buffers[t].records
    && forall x: Grouping.Attempt {:trigger s.groups.attempts[x]} ::
         x.user == u && s.groups.enqueued[i].1 in x.records ==>
           s.groups.attempts[x] ==
             if x == Grouping.Attempt(t, u, s.groups.pool.buffers[t].records) && WantedIn(rules, s, t, u) then 1 else 0
  }

  lemma AttemptsExact(rules: Rules, moves: seq<Move>, i: nat, u: string) returns (t: nat)
    requires Runs(rules, moves) && GroupingProgress.AllReturned(After(rules, moves).groups)
    requires i < |After(rules, moves).origins| == |After(rules, moves).groups.enqueued|
    ensures TriedOnceIff(rules, After(rules, moves), i, u, t)
  {
    var s := After(rules, moves);
    InvHolds(rules, moves);
    var steps := GroupsRun(rules, moves);
    Grouping.InvHolds(rules.window, steps);
    t := GroupingRuns.AttemptsWithCall(rules.window, steps, i, u);
    assert s.groups.timers[t].phase.Returned?;
    UsersAreWanted(rules, s, t, u);
  }

  /** So whoever was subscribed when an event past the filters came is tried with it exactly once. */
  lemma SubscribedIsTried(rules: Rules, moves: seq<Move>, j: nat, u: string) returns (i: nat, t: nat)
    requires Runs(rules, moves) && GroupingProgress.AllReturned(After(rules, moves).groups)
    requires var s := After(rules, moves);
             j in s.passed && j < |s.past| && s.past[j].Received? && u in UsersAt(rules, s.past, j)
    ensures var s := After(rules, moves);
            && i < |s.origins| == |s.groups.enqueued| && s.origins[i] == j
            && TriedOnceIff(rules, s, i, u, t) && WantedIn(rules, s, t, u)
  {
    var s := After(rules, moves);
    InvHolds(rules, moves);
    assert PassedOK(rules, s, j);
    i :| 0 <= i < |s.origins| && s.origins[i] == j;
    t := AttemptsExact(rules, moves, i, u);
    assert Asked(rules, s, t, u, i);
  }

  // ---- The program's own rules ----

  /** `judge` is shouldNotify. */
  function Admit(judge: Service.Judge, seen: map<string, int>, item: Event, c: Service.Circumstances): (bool, map<string, int>) {
    if !Events.IsSupported(item.kind) then (false, seen)
    else
      var (notify, seen') := judge(seen, Service.ItemOf(item, c));
      (notify && !c.lookupFails, seen')
  }

  function Subscribers(botConfig: Bot.Config, past: seq<Occurrence>, kind: string): set<string> {
    Storage.SubscribersOf(Bot.TablesAfter(botConfig, Requests(botConfig, past)).subscriptions, kind)
  }

  function RulesWith(botConfig: Bot.Config, judge: Service.Judge, window: int): Rules {
    Rules(window,
          (seen: map<string, int>, item: Event, c: Service.Circumstances) => Admit(judge, seen, item, c),
          (past: seq<Occurrence>, kind: string) => Subscribers(botConfig, past, kind))
  }

  function RulesOf(botConfig: Bot.Config, config: Service.Config): Rules {
    RulesWith(botConfig, Service.JudgeOf(config.filter), config.groupWindow * Dedup.SECOND)
  }

  /** The last thing that u said about the type of occurrence j, before it, was to subscribe. */
  predicate SubscribedAt(botConfig: Bot.Config, past: seq<Occurrence>, j: nat, u: string)
    requires j < |past| && past[j].Received?
  {
    LastSaysYes(Effects(botConfig, Requests(botConfig, past[..j]), u, ItemAt(past, j).kind))
  }

  lemma UsersAreSubscribed(botConfig: Bot.Config, config: Service.Config, past: seq<Occurrence>, j: nat, u: string)
    requires j < |past| && past[j].Received?
    ensures u in UsersAt(RulesOf(botConfig, config), past, j) <==> SubscribedAt(botConfig, past, j, u)
  {
    var requests, kind := Requests(botConfig, past[..j]), ItemAt(past, j).kind;
    RequestsAreMade(botConfig, past[..j]);
    SubscribedIffLastSaysYes(botConfig, requests, u, kind);
    assert u in Storage.SubscribersOf(Bot.TablesAfter(botConfig, requests).subscriptions, kind)
      <==> (u, kind) in Bot.TablesAfter(botConfig, requests).subscriptions;
  }

  /** Some event of the group that buffer t became came while u was subscribed to its type. */
  ghost predicate SubscribedInGroup(botConfig: Bot.Config, s: State, t: nat, u: string)
    requires t < |s.groups.pool.buffers| && |s.origins| == |s.groups.enqueued|
    requires forall i :: 0 <= i < |s.origins| ==> s.origins[i] < |s.past| && s.past[s.origins[i]].Received?
  {
    exists i :: 0 <= i < |s.origins| && s.groups.enqueued[i].1 in s.groups.pool.buffers[t].records
                && SubscribedAt(botConfig, s.past, s.origins[i], u)
  }

  /** What is known of every state: where its events came from. */
  ghost predicate Traced(s: State) {
    && |s.origins| == |s.groups.enqueued|
    && forall i :: 0 <= i < |s.origins| ==> s.origins[i] < |s.past| && s.past[s.origins[i]].Received?
  }

  lemma InvTraced(rules: Rules, s: State)
    requires Inv(rules, s)
    ensures Traced(s)
  {
    forall i | 0 <= i < |s.origins| ensures s.origins[i] < |s.past| && s.past[s.origins[i]].Received? {
      assert OriginOK(rules, s, i);
    }
  }

  lemma WantedIsSubscribed(botConfig: Bot.Config, config: Service.Config, s: State, t: nat, u: string)
    requires Traced(s) && t < |s.groups.pool.buffers|
    ensures WantedIn(RulesOf(botConfig, config), s, t, u) <==> SubscribedInGroup(botConfig, s, t, u)
  {
    forall i: nat | i < |s.origins|
      ensures Asked(RulesOf(botConfig, config), s, t, u, i) <==>
                s.groups.enqueued[i].1 in s.groups.pool.buffers[t].records && SubscribedAt(botConfig, s.past, s.origins[i], u)
    {
      UsersAreSubscribed(botConfig, config, s.past, s.origins[i], u);
    }
  }

  /** Delivery with grouping: once all callbacks of a run have returned, each event enqueued is in
      one group, and each user is tried with that group exactly once if the user's last word on its
      type was to subscribe when some event of the group came, and never otherwise; nor is anybody
      tried with the event in any other group. */
  lemma DeliveredInGroups(botConfig: Bot.Config, config: Service.Config, moves: seq<Move>, i: nat, u: string) returns (t: nat)
    requires Runs(RulesOf(botConfig, config), moves)
    requires var s := After(RulesOf(botConfig, config), moves);
             GroupingProgress.AllReturned(s.groups) && i < |s.groups.enqueued|
    ensures var s := After(RulesOf(botConfig, config), moves);
            && Traced(s) && t < |s.groups.pool.buffers| && s.groups.enqueued[i].1 in s.groups.pool.buffers[t].records
            && forall x: Grouping.Attempt {:trigger s.groups.attempts[x]} ::
                 x.user == u && s.groups.enqueued[i].1 in x.records ==>
                   s.groups.attempts[x] ==
                     if x == Grouping.Attempt(t, u, s.groups.pool.buffers[t].records) && SubscribedInGroup(botConfig, s, t, u)
                     then 1 else 0
  {
    var rules := RulesOf(botConfig, config);
    var s := After(rules, moves);
    InvHolds(rules, moves);
    InvTraced(rules, s);
    t := AttemptsExact(rules, moves, i, u);
    WantedIsSubscribed(botConfig, config, s, t, u);
  }

  /** In particular, whoever was subscribed when an event past the filters came is tried with it. */
  lemma SubscribedIsDelivered(botConfig: Bot.Config, config: Service.Config, moves: seq<Move>, j: nat, u: string)
    returns (i: nat, t: nat)
    requires Runs(RulesOf(botConfig, config), moves)
    requires var s := After(RulesOf(botConfig, config), moves);
             && GroupingProgress.AllReturned(s.groups)
             && j in s.passed && j < |s.past| && s.past[j].Received? && SubscribedAt(botConfig, s.past, j, u)
    ensures var s := After(RulesOf(botConfig, config), moves);
            && i < |s.origins| == |s.groups.enqueued| && s.origins[i] == j
            && t < |s.groups.pool.buffers| && s.groups.enqueued[i].1 in s.groups.pool.buffers[t].records
            && s.groups.attempts[Grouping.Attempt(t, u, s.groups.pool.buffers[t].records)] == 1
  {
    var rules := RulesOf(botConfig, config);
    UsersAreSubscribed(botConfig, config, After(rules, moves).past, j, u);
    i, t := SubscribedIsTried(rules, moves, j, u);
  }

  lemma ProcessedIs(config: Service.Config, judge: Service.Judge, w: Service.World, item: Event, c: Service.Circumstances,
                    users: seq<string>, text: string -> string)
    requires config.groupWindow > 0
    ensures var (pass, seen) := Admit(judge, w.seen, item, c);
            var w' := Service.Processed(config, judge, w, item, c, users, text);
            && w'.seen == seen
            && w'.pool == if pass && |users| > 0
                          then Grouping.Put(w.pool, item.kind, Grouping.Record(c.serial, item, Text.Elements(users), c.now))
                          else w.pool
  {
  }

  lemma ReceiveIs(rules: Rules, s: State, event: Event, c: Service.Circumstances)
    requires c.serial == |s.groups.enqueued| && c.now == s.groups.now
    ensures var item := Server.Identified(event, c.stamp);
            var (pass, seen) := rules.admit(s.seen, item, c);
            var users := rules.users(s.past, item.kind);
            var s' := Receive(rules, s, event, c);
            && s'.seen == seen
            && s'.groups.pool == if pass && users != {}
                                 then Grouping.Put(s.groups.pool, item.kind, Grouping.Record(c.serial, item, users, c.now))
                                 else s.groups.pool
  {
  }

  /** What the machine does on an event is what the service does. */
  lemma ReceiveIsProcessed(botConfig: Bot.Config, config: Service.Config, judge: Service.Judge, sight: Server.Sight,
                           window: int, s: State, w: Service.World, event: Event, c: Service.Circumstances)
    requires config.groupWindow > 0
    requires Server.SeesSubscribers(Bot.TablesAfter(botConfig, Requests(botConfig, s.past)).subscriptions, sight.subscribers)
    requires w.seen == s.seen && w.pool == s.groups.pool
    requires c.serial == |s.groups.enqueued| && c.now == s.groups.now
    ensures var w' := Server.AfterEvent(config, judge, sight, w, event, c);
            var s' := Receive(RulesWith(botConfig, judge, window), s, event, c);
            w'.seen == s'.seen && w'.pool == s'.groups.pool
  {
    var item := Server.Identified(event, c.stamp);
    var rules, users := RulesWith(botConfig, judge, window), sight.subscribers(item.kind);
    ProcessedIs(config, judge, w, item, c, users, sight.texts(item));
    ReceiveIs(rules, s, event, c);
    assert rules.admit(s.seen, item, c) == Admit(judge, w.seen, item, c);
    assert rules.users(s.past, item.kind) == Text.Elements(users);
    Text.ElementsOfNone(users);
  }

}
