/** From the bot to the messenger: who is sent a notification, over whole traces of updates and
    webhook events, while the calls of the store that the bot makes do not fail, and without grouping. */
module Delivery {

  import opened Wrappers
  import opened Webhook
  import opened Service
  import Bot
  import Decimal
  import Events
  import Grouping
  import Server
  import Storage
  import Text

  // ---- What a request says about a user and an event type ----

  /** An action subscribes its user to an event type, unsubscribes, or leaves that alone. */
  function EffectOf(action: Bot.Action, e: string): Option<bool> {
    match action
    case SubscribeEvery => if e in Events.REGISTRY then Some(true) else None
    case SubscribeTo(eventType) => if Text.Trim(eventType) == e then Some(true) else None
    case UnsubscribeEvery => Some(false)
    case UnsubscribeFrom(eventType) => if eventType == e then Some(false) else None
    case _ => None
  }

  /** What a request says about a user, if it is that user's and the user is allowed. */
  function Effect(config: Bot.Config, request: Option<Bot.Request>, u: string, e: string): Option<bool> {
    if request.Some? && request.value.userID == u && Bot.IsAllowedUser(config, u) then EffectOf(request.value.action, e)
    else None
  }

  function Effects(config: Bot.Config, requests: seq<Option<Bot.Request>>, u: string, e: string): (r: seq<Option<bool>>)
    ensures |r| == |requests|
  {
    seq(|requests|, i requires 0 <= i < |requests| => Effect(config, requests[i], u, e))
  }

  /** The most recent of these that says something says yes. */
  predicate LastSaysYes(effects: seq<Option<bool>>) {
    exists i :: 0 <= i < |effects| && effects[i] == Some(true) && forall j :: i < j < |effects| ==> effects[j].None?
  }

  lemma LastSaysAppend(effects: seq<Option<bool>>, x: Option<bool>)
    ensures LastSaysYes(effects + [x]) <==> if x.Some? then x.value else LastSaysYes(effects)
  {
    var effects' := effects + [x];
    assert effects'[|effects|] == x;
    if x.None? {
      if LastSaysYes(effects) {
        var i :| 0 <= i < |effects| && effects[i] == Some(true) && forall j :: i < j < |effects| ==> effects[j].None?;
        assert effects'[i] == Some(true);
      }
      if LastSaysYes(effects') {
        var i :| 0 <= i < |effects'| && effects'[i] == Some(true) && forall j :: i < j < |effects'| ==> effects'[j].None?;
        assert effects[i] == Some(true);
        assert forall j :: i < j < |effects| ==> effects[j] == effects'[j];
      }
    }
  }

  // ---- The stored relation ----

  /** A user ID as the bot makes it: a printed number, or nothing for a message without sender. */
  ghost predicate MadeID(u: string) {
    u == "" || exists m: int :: u == Decimal.Print(m)
  }

  lemma MadeIsTrimmed(u: string)
    requires MadeID(u)
    ensures Text.Trim(u) == u
  {
    if u != "" {
      var m: int :| u == Decimal.Print(m);
      Decimal.PrintPlain(m);
    }
  }

  lemma RegisteredPairs(userID: string, u: string, e: string)
    requires Text.Trim(userID) == userID
    ensures (u, e) in (set k | k in Events.REGISTRY :: (Text.Trim(userID), Text.Trim(k))) <==> u == userID && e in Events.REGISTRY
  {
    forall k | k in Events.REGISTRY ensures Text.Trim(k) == k { Events.RegisteredArePlain(k); }
  }

  lemma ActionEffect(subscriptions: set<(string, string)>, userID: string, action: Bot.Action, u: string, e: string)
    requires Text.Trim(userID) == userID
    ensures (u, e) in Bot.ApplyToSubscriptions(subscriptions, userID, action) <==>
              if userID == u && EffectOf(action, e).Some? then EffectOf(action, e).value else (u, e) in subscriptions
  {
    if action.SubscribeEvery? {
      RegisteredPairs(userID, u, e);
    }
  }

  lemma RequestEffect(config: Bot.Config, tables: Storage.Tables, request: Option<Bot.Request>, u: string, e: string)
    requires request.Some? ==> MadeID(request.value.userID)
    ensures (u, e) in Bot.ApplyRequest(config, tables, request).subscriptions <==>
              match Effect(config, request, u, e) case Some(b) => b case None => (u, e) in tables.subscriptions
  {
    if request.Some? {
      MadeIsTrimmed(request.value.userID);
      ActionEffect(tables.subscriptions, request.value.userID, request.value.action, u, e);
    }
  }

  ghost predicate AllMade(requests: seq<Option<Bot.Request>>) {
    forall i :: 0 <= i < |requests| && requests[i].Some? ==> MadeID(requests[i].value.userID)
  }

  /** A user is subscribed to an event type in the tables exactly when the last request that says
      anything about the two subscribes. */
  lemma {:induction false} SubscribedIffLastSaysYes(config: Bot.Config, requests: seq<Option<Bot.Request>>, u: string, e: string)
    requires AllMade(requests)
    ensures (u, e) in Bot.TablesAfter(config, requests).subscriptions <==> LastSaysYes(Effects(config, requests, u, e))
  {
    if |requests| > 0 {
      var n := |requests| - 1;
      SubscribedIffLastSaysYes(config, requests[..n], u, e);
      RequestEffect(config, Bot.TablesAfter(config, requests[..n]), requests[n], u, e);
      LastSaysAppend(Effects(config, requests[..n], u, e), Effect(config, requests[n], u, e));
      assert Effects(config, requests, u, e) == Effects(config, requests[..n], u, e) + [Effect(config, requests[n], u, e)];
    }
  }

  lemma ApplyMade(config: Bot.Config, tables: Storage.Tables, request: Option<Bot.Request>)
    requires request.Some? ==> MadeID(request.value.userID)
    requires forall p :: p in tables.subscriptions ==> MadeID(p.0)
    ensures forall p :: p in Bot.ApplyRequest(config, tables, request).subscriptions ==> MadeID(p.0)
  {
    if request.Some? { MadeIsTrimmed(request.value.userID); }
  }

  /** Only such IDs are ever stored. */
  lemma {:induction false} StoredAreMade(config: Bot.Config, requests: seq<Option<Bot.Request>>)
    requires AllMade(requests)
    ensures forall p :: p in Bot.TablesAfter(config, requests).subscriptions ==> MadeID(p.0)
  {
    if |requests| > 0 {
      var n := |requests| - 1;
      StoredAreMade(config, requests[..n]);
      ApplyMade(config, Bot.TablesAfter(config, requests[..n]), requests[n]);
    }
  }

  // ---- Calls of the messenger ----

  /** The calls that go to a chat. */
  function To(calls: seq<Sent>, chat: int): seq<Sent> {
    if |calls| == 0 then []
    else
      var n := |calls| - 1;
      To(calls[..n], chat) + (if calls[n].chat == chat then [calls[n]] else [])
  }

  lemma {:induction false} ToAppend(a: seq<Sent>, b: seq<Sent>, chat: int)
    ensures To(a + b, chat) == To(a, chat) + To(b, chat)
  {
    if |b| == 0 {
      assert a + b == a;
    } else {
      var n := |b| - 1;
      ToAppend(a, b[..n], chat);
      assert (a + b)[..|a| + n] == a + b[..n];
    }
  }

  /** A made ID names the chat n exactly when it is n, printed. */
  lemma MadeNames(u: string, n: int)
    requires MadeID(u) && Decimal.MIN <= n <= Decimal.MAX
    ensures Decimal.ParseInt(u) == Some(n) <==> u == Decimal.Print(n)
  {
    Decimal.ParsePrint(n);
    if u != "" {
      var m: int :| u == Decimal.Print(m);
      Decimal.ParsePrint(m);
    }
  }

  /** The call for one user goes to chat n exactly when the user is n and has preferences. */
  lemma CallToOne(outcome: string -> Outcome, message: string, u: string, n: int)
    requires MadeID(u) && Decimal.MIN <= n <= Decimal.MAX
    ensures To(CallTo(outcome, message, u), n)
            == if u == Decimal.Print(n) && !outcome(u).lookupFails then [Sent(n, message)] else []
  {
    MadeNames(u, n);
  }

  lemma OneMoreCallTo(outcome: string -> Outcome, text: string -> string, users: seq<string>, u: string, n: int)
    requires MadeID(u) && Decimal.MIN <= n <= Decimal.MAX
    ensures To(Calls(outcome, text, users + [u]), n)
            == To(Calls(outcome, text, users), n)
               + if u == Decimal.Print(n) && !outcome(u).lookupFails then [Sent(n, text(u))] else []
  {
    assert (users + [u])[..|users|] == users;
    CallToOne(outcome, text(u), u, n);
    ToAppend(Calls(outcome, text, users), CallFor(outcome, text, u), n);
  }

  /** Of the calls for a list of different users one goes to chat n if n is listed and n's preferences
      can be read, else none. */
  lemma {:induction false} CallsTo(outcome: string -> Outcome, text: string -> string, users: seq<string>, n: int)
    requires forall i :: 0 <= i < |users| ==> MadeID(users[i])
    requires forall i, j :: 0 <= i < j < |users| ==> users[i] != users[j]
    requires Decimal.MIN <= n <= Decimal.MAX
    ensures To(Calls(outcome, text, users), n)
            == if Decimal.Print(n) in users && !outcome(Decimal.Print(n)).lookupFails then [Sent(n, text(Decimal.Print(n)))] else []
  {
    if |users| > 0 {
      var k := |users| - 1;
      CallsTo(outcome, text, users[..k], n);
      OneMoreCallTo(outcome, text, users[..k], users[k], n);
      assert users == users[..k] + [users[k]];
    }
  }

  lemma {:induction false} NoCallsTo(outcome: string -> Outcome, users: seq<string>, texts: seq<string>, n: int)
    requires |texts| == |users| && forall i :: 0 <= i < |users| ==> MadeID(users[i])
    requires Decimal.MIN <= n <= Decimal.MAX && (Decimal.Print(n) !in users || outcome(Decimal.Print(n)).lookupFails)
    ensures To(CallsWith(outcome, users, texts), n) == []
  {
    if |users| > 0 {
      var k := |users| - 1;
      NoCallsTo(outcome, users[..k], texts[..k], n);
      CallToOne(outcome, texts[k], users[k], n);
      ToAppend(CallsWith(outcome, users[..k], texts[..k]), CallTo(outcome, texts[k], users[k]), n);
    }
  }

  /** The same for the users of a group, each with a text. */
  lemma {:induction false} OneCallTo(outcome: string -> Outcome, users: seq<string>, texts: seq<string>, n: int, i: nat)
    requires |texts| == |users| && forall j :: 0 <= j < |users| ==> MadeID(users[j])
    requires forall j, k :: 0 <= j < k < |users| ==> users[j] != users[k]
    requires Decimal.MIN <= n <= Decimal.MAX && i < |users| && users[i] == Decimal.Print(n) && !outcome(users[i]).lookupFails
    ensures To(CallsWith(outcome, users, texts), n) == [Sent(n, texts[i])]
  {
    var k := |users| - 1;
    ToAppend(CallsWith(outcome, users[..k], texts[..k]), CallTo(outcome, texts[k], users[k]), n);
    CallToOne(outcome, texts[k], users[k], n);
    if i < k {
      OneCallTo(outcome, users[..k], texts[..k], n, i);
    } else {
      NoCallsTo(outcome, users[..k], texts[..k], n);
    }
  }

  lemma AscendingDiffer(users: seq<string>, i: nat, j: nat)
    requires Text.Ascending(users) && i < j < |users|
    ensures users[i] != users[j]
  {
    Text.LessAsymmetric(users[i], users[j]);
  }

  // ---- Traces ----

  /** What happens at the two ends: an update at the bot, or an event at the service. */
  datatype Occurrence = Updated(update: Bot.Update) | Received(event: Event, c: Circumstances)

  function RequestOf(config: Bot.Config, o: Occurrence): Option<Bot.Request> {
    match o
    case Updated(update) => Bot.Decode(config, update)
    case Received(_, _) => None
  }

  function Requests(config: Bot.Config, trace: seq<Occurrence>): (r: seq<Option<Bot.Request>>)
    ensures |r| == |trace|
  {
    seq(|trace|, i requires 0 <= i < |trace| => RequestOf(config, trace[i]))
  }

  /** What the service sees of the tables. */
  ghost function SightOf(config: Config, tables: Storage.Tables): (sight: Server.Sight)
    requires config.bundle.Valid()
    ensures Server.Sees(config, tables, sight)
  {
    Server.Sight((kind: string) => Text.Sorted(Storage.SubscribersOf(tables.subscriptions, kind)),
                 (event: Event) => EventTexts(config, tables.prefs, event))
  }

  /** What an occurrence does to the service, given the trace before it. */
  type Step = (World, seq<Occurrence>, Occurrence) -> World

  ghost function StepOf(botConfig: Bot.Config, config: Config): Step
    requires config.bundle.Valid()
  {
    (w: World, past: seq<Occurrence>, o: Occurrence) => Next(botConfig, config, w, past, o)
  }

  ghost function Next(botConfig: Bot.Config, config: Config, w: World, past: seq<Occurrence>, o: Occurrence): World
    requires config.bundle.Valid()
  {
    match o
    case Updated(_) => w
    case Received(event, c) =>
      var tables := Bot.TablesAfter(botConfig, Requests(botConfig, past));
      Server.AfterEvent(config, JudgeOf(config.filter), SightOf(config, tables), w, event, c)
  }

  /** The service after a trace. */
  function WorldAfter(step: Step, w: World, trace: seq<Occurrence>): World {
    if |trace| == 0 then w
    else
      var n := |trace| - 1;
      step(WorldAfter(step, w, trace[..n]), trace[..n], trace[n])
  }

  lemma DecodedIsMade(config: Bot.Config, o: Occurrence)
    ensures RequestOf(config, o).Some? ==> MadeID(RequestOf(config, o).value.userID)
  {
    if o.Updated? { IDIsMade(o.update); }
  }

  lemma IDIsMade(update: Bot.Update)
    ensures MadeID(Bot.UserID(update))
  {
  }

  lemma RequestsAreMade(config: Bot.Config, trace: seq<Occurrence>)
    ensures AllMade(Requests(config, trace))
  {
    forall i | 0 <= i < |trace| && Requests(config, trace)[i].Some? ensures MadeID(Requests(config, trace)[i].value.userID) {
      DecodedIsMade(config, trace[i]);
    }
  }

  // ---- Who is sent what ----

  /** The event gets past the filters. */
  predicate Notified(config: Config, judge: Judge, w: World, event: Event, c: Circumstances) {
    Events.IsSupported(event.kind) && judge(w.seen, ItemOf(event, c)).0
  }

  /** The event's subscribers are found and can be sent to user u. */
  predicate Reachable(c: Circumstances, u: string) {
    !c.lookupFails && !c.outcome(u).lookupFails
  }

  /** Without grouping an event adds exactly these entries to the log. */
  lemma LogAfter(config: Config, judge: Judge, w: World, event: Event, c: Circumstances, users: seq<string>, text: string -> string)
    requires config.groupWindow <= 0
    ensures Processed(config, judge, w, event, c, users, text).log
            == if Notified(config, judge, w, event, c) && !c.lookupFails then w.log + Calls(c.outcome, text, users) else w.log
  {
    assert w.log + [] == w.log;
  }

  /** So one of its calls goes to chat n if n is among the subscribers, and else none. */
  lemma OneCallEach(config: Config, judge: Judge, w: World, event: Event, c: Circumstances, users: seq<string>,
                    text: string -> string, n: int)
    requires config.groupWindow <= 0 && Text.Ascending(users)
    requires forall i :: 0 <= i < |users| ==> MadeID(users[i])
    requires Decimal.MIN <= n <= Decimal.MAX
    ensures To(Processed(config, judge, w, event, c, users, text).log, n)
            == To(w.log, n) + if Notified(config, judge, w, event, c) && Reachable(c, Decimal.Print(n)) && Decimal.Print(n) in users
                              then [Sent(n, text(Decimal.Print(n)))] else []
  {
    LogAfter(config, judge, w, event, c, users, text);
    forall i, j | 0 <= i < j < |users| ensures users[i] != users[j] { AscendingDiffer(users, i, j); }
    CallsTo(c.outcome, text, users, n);
    ToAppend(w.log, Calls(c.outcome, text, users), n);
  }

  /** The subscribers of an event type after a trace: made IDs, in order, and n among them exactly
      when n's last request that says anything about the type subscribes to it. */
  lemma SubscribersAfter(botConfig: Bot.Config, config: Config, trace: seq<Occurrence>, u: string, e: string)
    requires config.bundle.Valid()
    ensures var requests := Requests(botConfig, trace);
            var users := SightOf(config, Bot.TablesAfter(botConfig, requests)).subscribers(e);
            && Text.Ascending(users)
            && (forall i :: 0 <= i < |users| ==> MadeID(users[i]))
            && (u in users <==> LastSaysYes(Effects(botConfig, requests, u, e)))
  {
    var requests := Requests(botConfig, trace);
    var subscriptions := Bot.TablesAfter(botConfig, requests).subscriptions;
    var users := SightOf(config, Bot.TablesAfter(botConfig, requests)).subscribers(e);
    RequestsAreMade(botConfig, trace);
    StoredAreMade(botConfig, requests);
    SubscribedIffLastSaysYes(botConfig, requests, u, e);
    assert Text.Elements(users) == Storage.SubscribersOf(subscriptions, e);
    forall i | 0 <= i < |users| ensures MadeID(users[i]) {
      assert users[i] in Text.Elements(users);
      assert (users[i], e) in subscriptions;
    }
    assert u in users <==> u in Text.Elements(users);
    assert u in Storage.SubscribersOf(subscriptions, e) <==> (u, e) in subscriptions;
  }

  /** What an occurrence makes the service owe to chat n, given the trace so far and the service
      after it: for an event that gets past the filters, the event's text in n's own language and
      time zone, if n's last word on the type was to subscribe and no lookup fails. */
  ghost function Owed(botConfig: Bot.Config, config: Config, w: World, past: seq<Occurrence>, o: Occurrence, n: int): seq<Sent>
    requires config.bundle.Valid()
  {
    match o
    case Updated(_) => []
    case Received(event, c) =>
      var item := Server.Identified(event, c.stamp);
      var requests := Requests(botConfig, past);
      if Notified(config, JudgeOf(config.filter), w, item, c)
         && LastSaysYes(Effects(botConfig, requests, Decimal.Print(n), item.kind)) && Reachable(c, Decimal.Print(n))
      then [Sent(n, EventText(config, Storage.PrefsOf(Bot.TablesAfter(botConfig, requests).prefs, Decimal.Print(n)), item))]
      else []
  }

  /** What an occurrence makes the service owe to a chat. */
  type Due = (World, seq<Occurrence>, Occurrence) -> seq<Sent>

  ghost function DueTo(botConfig: Bot.Config, config: Config, n: int): Due
    requires config.bundle.Valid()
  {
    (w: World, past: seq<Occurrence>, o: Occurrence) => Owed(botConfig, config, w, past, o, n)
  }

  /** What a trace makes the service owe, in order. */
  function OwedInAll(step: Step, due: Due, w: World, trace: seq<Occurrence>): seq<Sent> {
    if |trace| == 0 then []
    else
      var k := |trace| - 1;
      OwedInAll(step, due, w, trace[..k]) + due(WorldAfter(step, w, trace[..k]), trace[..k], trace[k])
  }

  /** An event adds a call to chat n, with n's text, if it is to be notified and n is subscribed. */
  lemma ReceivedPays(config: Config, judge: Judge, prefs: map<string, Storage.UserPrefs>, sight: Server.Sight,
                     w: World, event: Event, c: Circumstances, n: int)
    requires config.bundle.Valid() && config.groupWindow <= 0
    requires var item := Server.Identified(event, c.stamp);
             var users := sight.subscribers(item.kind);
             Tells(config, prefs, item, sight.texts(item)) && Text.Ascending(users) && forall i :: 0 <= i < |users| ==> MadeID(users[i])
    requires Decimal.MIN <= n <= Decimal.MAX
    ensures var item := Server.Identified(event, c.stamp);
            To(Server.AfterEvent(config, judge, sight, w, event, c).log, n)
            == To(w.log, n) + if Notified(config, judge, w, item, c) && Reachable(c, Decimal.Print(n))
                                 && Decimal.Print(n) in sight.subscribers(item.kind)
                              then [Sent(n, EventText(config, Storage.PrefsOf(prefs, Decimal.Print(n)), item))] else []
  {
    var item := Server.Identified(event, c.stamp);
    OneCallEach(config, judge, w, item, c, sight.subscribers(item.kind), sight.texts(item), n);
  }

  /** One occurrence adds to the calls to chat n just what it makes the service owe. */
  lemma PaidAtOnce(botConfig: Bot.Config, config: Config, w: World, past: seq<Occurrence>, o: Occurrence, n: int)
    requires config.bundle.Valid() && config.groupWindow <= 0
    requires Decimal.MIN <= n <= Decimal.MAX
    ensures To(Next(botConfig, config, w, past, o).log, n) == To(w.log, n) + Owed(botConfig, config, w, past, o, n)
  {
    match o
    case Updated(_) => assert To(w.log, n) + [] == To(w.log, n);
    case Received(event, c) =>
      var tables := Bot.TablesAfter(botConfig, Requests(botConfig, past));
      SubscribersAfter(botConfig, config, past, Decimal.Print(n), Server.Identified(event, c.stamp).kind);
      ReceivedPays(config, JudgeOf(config.filter), tables.prefs, SightOf(config, tables), w, event, c, n);
  }

  /** Steps that pay what they owe at once add up to that. */
  lemma {:induction false} PaidInAll(step: Step, due: Due, w: World, trace: seq<Occurrence>, n: int)
    requires forall w', past, o {:trigger step(w', past, o)} :: To(step(w', past, o).log, n) == To(w'.log, n) + due(w', past, o)
    ensures To(WorldAfter(step, w, trace).log, n) == To(w.log, n) + OwedInAll(step, due, w, trace)
  {
    if |trace| == 0 {
      assert To(w.log, n) + [] == To(w.log, n);
    } else {
      PaidInAll(step, due, w, trace[..|trace| - 1], n);
    }
  }

  /** The trace theorem: whatever updates and events are interleaved, the calls of the messenger
      to chat n are exactly the owed ones, in order: one for each event that got past the filters
      while n's last word on its type, from the bot, was to subscribe, unless a lookup failed, and no
      other. */
  lemma DeliveredToTheSubscribed(botConfig: Bot.Config, config: Config, w: World, trace: seq<Occurrence>, n: int)
    requires config.bundle.Valid() && config.groupWindow <= 0
    requires Decimal.MIN <= n <= Decimal.MAX
    ensures var step := StepOf(botConfig, config);
            To(WorldAfter(step, w, trace).log, n) == To(w.log, n) + OwedInAll(step, DueTo(botConfig, config, n), w, trace)
  {
    var step, due := StepOf(botConfig, config), DueTo(botConfig, config, n);
    forall w', past, o ensures To(step(w', past, o).log, n) == To(w'.log, n) + due(w', past, o) {
      PaidAtOnce(botConfig, config, w', past, o, n);
    }
    PaidInAll(step, due, w, trace, n);
  }

  /** With grouping the same users are enqueued: an event that gets past the filters goes into the
      buffer of its type with exactly the users whose last word was to subscribe, if there are any. */
  lemma EnqueuedForTheSubscribed(botConfig: Bot.Config, config: Config, w: World, past: seq<Occurrence>, event: Event,
                                 c: Circumstances, u: string)
    requires config.bundle.Valid() && config.groupWindow > 0
    ensures var requests := Requests(botConfig, past);
            var tables := Bot.TablesAfter(botConfig, requests);
            var item := Server.Identified(event, c.stamp);
            var users := Storage.SubscribersOf(tables.subscriptions, item.kind);
            && Server.AfterEvent(config, JudgeOf(config.filter), SightOf(config, tables), w, event, c).pool
               == (if Notified(config, JudgeOf(config.filter), w, item, c) && !c.lookupFails && users != {}
                   then Grouping.Put(w.pool, item.kind, Grouping.Record(c.serial, item, users, c.now)) else w.pool)
            && (u in users <==> LastSaysYes(Effects(botConfig, requests, u, item.kind)))
  {
    var tables := Bot.TablesAfter(botConfig, Requests(botConfig, past));
    var item := Server.Identified(event, c.stamp);
    var users := SightOf(config, tables).subscribers(item.kind);
    SubscribersAfter(botConfig, config, past, u, item.kind);
    assert u in users <==> u in Text.Elements(users);
    Text.ElementsOfNone(users);
  }

}
