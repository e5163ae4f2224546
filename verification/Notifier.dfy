/** The whole program on one store: the bot's handler and the webhook endpoint, driven by a trace
    of updates and events, without grouping. */
module Notifier {

  import opened Webhook
  import opened Delivery
  import Bot
  import Decimal
  import Server
  import Service
  import Storage

  /** The clock never goes back. */
  predicate InOrder(start: int, trace: seq<Occurrence>) {
    && (forall i :: 0 <= i < |trace| && trace[i].Received? ==> start <= trace[i].c.now)
    && (forall i, j :: 0 <= i < j < |trace| && trace[i].Received? && trace[j].Received? ==> trace[i].c.now <= trace[j].c.now)
  }

  /** `step` is what an occurrence does to the service. */
  ghost predicate IsStep(botConfig: Bot.Config, config: Service.Config, step: Step)
    requires config.bundle.Valid()
  {
    forall w, past, o {:trigger Next(botConfig, config, w, past, o)} :: step(w, past, o) == Next(botConfig, config, w, past, o)
  }

  /** `tables` is what a trace leaves in the store. */
  type TablesOf = seq<Occurrence> -> Storage.Tables

  ghost predicate IsTables(config: Bot.Config, tables: TablesOf) {
    forall past {:trigger Bot.TablesAfter(config, Requests(config, past))} ::
      tables(past) == Bot.TablesAfter(config, Requests(config, past))
  }

  ghost function TablesWith(config: Bot.Config): (tables: TablesOf)
    ensures IsTables(config, tables)
  {
    (past: seq<Occurrence>) => Bot.TablesAfter(config, Requests(config, past))
  }

  /** An update does something to the tables only. */
  lemma OneMoreRequest(config: Bot.Config, past: seq<Occurrence>, o: Occurrence)
    ensures Bot.TablesAfter(config, Requests(config, past + [o]))
            == Bot.ApplyRequest(config, Bot.TablesAfter(config, Requests(config, past)), RequestOf(config, o))
  {
    assert Requests(config, past + [o]) == Requests(config, past) + [RequestOf(config, o)];
    assert Requests(config, past + [o])[..|past|] == Requests(config, past);
  }

  lemma NextTables(config: Bot.Config, tables: TablesOf, past: seq<Occurrence>, o: Occurrence)
    requires IsTables(config, tables)
    ensures tables(past + [o]) == Bot.ApplyRequest(config, tables(past), RequestOf(config, o))
  {
    OneMoreRequest(config, past, o);
    assert tables(past) == Bot.TablesAfter(config, Requests(config, past));
    assert tables(past + [o]) == Bot.TablesAfter(config, Requests(config, past + [o]));
  }

  lemma SameJudge(config: Service.Config, judge: Service.Judge, sight: Server.Sight, w: Service.World, event: Event,
                  c: Service.Circumstances)
    requires Service.Judges(config.filter, judge)
    ensures Server.AfterEvent(config, judge, sight, w, event, c)
            == Server.AfterEvent(config, Service.JudgeOf(config.filter), sight, w, event, c)
  {
    var item := Service.ItemOf(Server.Identified(event, c.stamp), c);
    assert judge(w.seen, item) == Service.JudgeOf(config.filter)(w.seen, item);
  }

  /** What the endpoint does to an event is a step. */
  lemma TurnIsStep(botConfig: Bot.Config, config: Service.Config, judge: Service.Judge, sight: Server.Sight,
                   turn: Server.Turn, step: Step, w: Service.World, past: seq<Occurrence>, event: Event, c: Service.Circumstances)
    requires config.bundle.Valid() && Service.Judges(config.filter, judge)
    requires sight == SightOf(config, Bot.TablesAfter(botConfig, Requests(botConfig, past)))
    requires Server.IsTurn(config, judge, sight, turn) && IsStep(botConfig, config, step)
    ensures turn(w, event, c) == step(w, past, Received(event, c))
  {
    assert turn(w, event, c) == Server.AfterEvent(config, judge, sight, w, event, c);
    SameJudge(config, judge, sight, w, event, c);
    assert step(w, past, Received(event, c)) == Next(botConfig, config, w, past, Received(event, c));
  }

  method Receive(handler: Bot.Handler, server: Server.Server, event: Event, c: Service.Circumstances,
                 ghost past: seq<Occurrence>, ghost tables: TablesOf, ghost step: Step)
    requires handler.store == server.service.store && server.service.Valid()
    requires IsStep(handler.config, server.service.config, step) && server.service.dedup.UpTo(c.now)
    requires IsTables(handler.config, tables) && handler.store.View() == tables(past)
    modifies server.service.messenger, server.service.metrics, server.service.dedup, server.service.groups,
             server.service.groups.all
    ensures server.service.Valid() && server.service.dedup.UpTo(c.now) && server.service.groups.Grew()
    ensures server.service.View() == step(old(server.service.View()), past, Received(event, c))
  {
    ghost var service := server.service;
    assert tables(past) == Bot.TablesAfter(handler.config, Requests(handler.config, past));
    ghost var sight := SightOf(service.config, Bot.TablesAfter(handler.config, Requests(handler.config, past)));
    ghost var turn := Server.TurnOf(service.config, service.judge, sight);
    TurnIsStep(handler.config, service.config, service.judge, sight, turn, step, service.View(), past, event, c);
    server.HandleEvent(event, c, sight, turn);
  }

  method Update(handler: Bot.Handler, server: Server.Server, update: Bot.Update, ghost past: seq<Occurrence>,
                ghost tables: TablesOf, ghost step: Step)
    requires handler.store == server.service.store && server.service.Valid()
    requires IsStep(handler.config, server.service.config, step)
    requires IsTables(handler.config, tables) && handler.store.View() == tables(past)
    modifies handler.store
    ensures server.service.Valid()
    ensures handler.store.View() == tables(past + [Updated(update)])
    ensures server.service.View() == step(old(server.service.View()), past, Updated(update))
  {
    NextTables(handler.config, tables, past, Updated(update));
    assert step(server.service.View(), past, Updated(update))
        == Next(handler.config, server.service.config, server.service.View(), past, Updated(update));
    Bot.FaultFree(handler.config, handler.store.View(), Bot.Decode(handler.config, update));
    handler.HandleUpdate(update, Bot.NO_FAULTS);
  }

  /** One occurrence. */
  method Advance(handler: Bot.Handler, server: Server.Server, o: Occurrence, ghost past: seq<Occurrence>, ghost tables: TablesOf,
                 ghost step: Step, ghost latest: int)
    requires handler.store == server.service.store && server.service.Valid()
    requires IsStep(handler.config, server.service.config, step)
    requires server.service.dedup.UpTo(latest) && (o.Received? ==> latest <= o.c.now)
    requires IsTables(handler.config, tables) && handler.store.View() == tables(past)
    modifies handler.store, server.service.messenger, server.service.metrics, server.service.dedup, server.service.groups,
             server.service.groups.all
    ensures server.service.Valid() && server.service.groups.Grew()
    ensures server.service.dedup.UpTo(if o.Received? then o.c.now else latest)
    ensures handler.store.View() == tables(past + [o])
    ensures server.service.View() == step(old(server.service.View()), past, o)
  {
    match o
    case Updated(update) => Update(handler, server, update, past, tables, step);
    case Received(event, c) =>
      NextTables(handler.config, tables, past, o);
      Receive(handler, server, event, c, past, tables, step);
  }

  /** The clock after a trace. */
  function Latest(start: int, trace: seq<Occurrence>): int {
    if |trace| == 0 then start
    else
      var last := trace[|trace| - 1];
      if last.Received? then last.c.now else Latest(start, trace[..|trace| - 1])
  }

  lemma {:induction false} LatestIsEarlier(start: int, trace: seq<Occurrence>, k: nat)
    requires InOrder(start, trace) && k < |trace| && trace[k].Received?
    ensures Latest(start, trace[..k]) <= trace[k].c.now
  {
    EarlierThan(start, trace[..k], trace[k].c.now);
  }

  lemma {:induction false} EarlierThan(start: int, trace: seq<Occurrence>, now: int)
    requires start <= now && forall i :: 0 <= i < |trace| && trace[i].Received? ==> trace[i].c.now <= now
    ensures Latest(start, trace) <= now
  {
    if |trace| > 0 && !trace[|trace| - 1].Received? { EarlierThan(start, trace[..|trace| - 1], now); }
  }

  /** The last occurrence of a trace. */
  method DriveLast(handler: Bot.Handler, server: Server.Server, trace: seq<Occurrence>, ghost start: int, ghost tables: TablesOf,
                   ghost step: Step, ghost before: Service.World)
    requires handler.store == server.service.store && server.service.Valid() && |trace| > 0
    requires IsStep(handler.config, server.service.config, step) && IsTables(handler.config, tables)
    requires server.service.dedup.UpTo(Latest(start, trace[..|trace| - 1])) && InOrder(start, trace)
    requires handler.store.View() == tables(trace[..|trace| - 1])
    requires server.service.View() == WorldAfter(step, before, trace[..|trace| - 1])
    modifies handler.store, server.service.messenger, server.service.metrics, server.service.dedup, server.service.groups,
             server.service.groups.all
    ensures server.service.Valid() && server.service.groups.Grew()
    ensures server.service.dedup.UpTo(Latest(start, trace))
    ensures handler.store.View() == tables(trace)
    ensures server.service.View() == WorldAfter(step, before, trace)
  {
    var n := |trace| - 1;
    assert trace == trace[..n] + [trace[n]];
    if trace[n].Received? { LatestIsEarlier(start, trace, n); }
    Advance(handler, server, trace[n], trace[..n], tables, step, Latest(start, trace[..n]));
  }

  /** Both ends, driven by a trace: the tables and the service are those of the trace. */
  method Drive(handler: Bot.Handler, server: Server.Server, trace: seq<Occurrence>, start: int, ghost tables: TablesOf,
               ghost step: Step)
    requires handler.store == server.service.store && server.service.Valid()
    requires IsStep(handler.config, server.service.config, step) && IsTables(handler.config, tables)
    requires server.service.dedup.UpTo(start) && InOrder(start, trace)
    requires handler.store.View() == tables([])
    modifies handler.store, server.service.messenger, server.service.metrics, server.service.dedup, server.service.groups,
             server.service.groups.all
    ensures server.service.Valid() && server.service.groups.Grew()
    ensures server.service.dedup.UpTo(Latest(start, trace))
    ensures handler.store.View() == tables(trace)
    ensures server.service.View() == WorldAfter(step, old(server.service.View()), trace)
    decreases |trace|
  {
    if |trace| == 0 {
      return;
    }
    ghost var before := server.service.View();
    Drive(handler, server, trace[..|trace| - 1], start, tables, step);
    DriveLast(handler, server, trace, start, tables, step, before);
  }

  /** And so, if the store does not fail the bot, the tables of the program are those of the trace, and its
      messenger has been called for every chat just as often and with just the texts that the trace
      makes the service owe. */
  method Run(handler: Bot.Handler, server: Server.Server, trace: seq<Occurrence>, start: int)
    requires handler.store == server.service.store && server.service.Valid() && server.service.config.groupWindow <= 0
    requires server.service.dedup.UpTo(start) && InOrder(start, trace)
    requires handler.store.View() == Storage.Tables({}, map[])
    modifies handler.store, server.service.messenger, server.service.metrics, server.service.dedup, server.service.groups,
             server.service.groups.all
    ensures handler.store.View() == Bot.TablesAfter(handler.config, Requests(handler.config, trace))
    ensures forall n {:trigger DueTo(handler.config, server.service.config, n)} :: Decimal.MIN <= n <= Decimal.MAX ==>
              To(server.service.messenger.log, n)
              == To(old(server.service.messenger.log), n)
                 + OwedInAll(StepOf(handler.config, server.service.config), DueTo(handler.config, server.service.config, n),
                             old(server.service.View()), trace)
  {
    ghost var before, step := server.service.View(), StepOf(handler.config, server.service.config);
    ghost var tables := TablesWith(handler.config);
    assert Requests(handler.config, []) == [];
    Drive(handler, server, trace, start, tables, step);
    forall n | Decimal.MIN <= n <= Decimal.MAX
      ensures To(server.service.messenger.log, n)
              == To(before.log, n) + OwedInAll(step, DueTo(handler.config, server.service.config, n), before, trace)
    {
      DeliveredToTheSubscribed(handler.config, server.service.config, before, trace, n);
    }
  }

}
