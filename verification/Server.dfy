/** The webhook endpoint (handleWebhook in internal/httpserver/server.go), from the checked
    credentials and the decoded body on. */
module Server {

  import opened Wrappers
  import opened Webhook
  import opened Service
  import Events
  import Storage
  import Text

  /** What the service gets to see of the tables: the subscribers of each event type, and what
      each user is told about each event. */
  datatype Sight = Sight(subscribers: string -> seq<string>, texts: Event -> (string -> string))

  ghost predicate SeesSubscribers(subscriptions: set<(string, string)>, subscribers: string -> seq<string>) {
    forall kind {:trigger subscribers(kind)} ::
      Text.Ascending(subscribers(kind)) && Text.Elements(subscribers(kind)) == Storage.SubscribersOf(subscriptions, kind)
  }

  ghost predicate SeesTexts(config: Config, prefs: map<string, Storage.UserPrefs>, texts: Event -> (string -> string))
    requires config.bundle.Valid()
  {
    forall event {:trigger texts(event)} :: Tells(config, prefs, event, texts(event))
  }

  ghost predicate Sees(config: Config, tables: Storage.Tables, sight: Sight)
    requires config.bundle.Valid()
  {
    SeesSubscribers(tables.subscriptions, sight.subscribers) && SeesTexts(config, tables.prefs, sight.texts)
  }

  /** An event without an ID gets one made from the clock. */
  function Identified(event: Event, stamp: string): Event {
    if event.id == "" then event.(id := stamp) else event
  }

  function AfterEvent(config: Config, judge: Judge, sight: Sight, w: World, event: Event, c: Circumstances): World {
    Processed(config, judge, w, Identified(event, c.stamp), c, sight.subscribers(event.kind), sight.texts(Identified(event, c.stamp)))
  }

  /** The service processes the event itself, with that ID if it has none of its own. */
  lemma AfterEventIs(config: Config, judge: Judge, sight: Sight, w: World, event: Event, c: Circumstances)
    ensures var item := Event(if event.id == "" then c.stamp else event.id, event.createdAt, event.kind, event.data);
            AfterEvent(config, judge, sight, w, event, c)
            == Processed(config, judge, w, item, c, sight.subscribers(event.kind), sight.texts(item))
  {
  }

  /** `turn` is what one event does to the service. */
  type Turn = (World, Event, Circumstances) -> World

  ghost predicate IsTurn(config: Config, judge: Judge, sight: Sight, turn: Turn) {
    forall w, event, c {:trigger AfterEvent(config, judge, sight, w, event, c)} ::
      turn(w, event, c) == AfterEvent(config, judge, sight, w, event, c)
  }

  function TurnOf(config: Config, judge: Judge, sight: Sight): (turn: Turn)
    ensures IsTurn(config, judge, sight, turn)
  {
    (w: World, event: Event, c: Circumstances) => AfterEvent(config, judge, sight, w, event, c)
  }

  /** The events of a request, one after another. */
  function AfterEvents(turn: Turn, w: World, events: seq<Event>, cs: seq<Circumstances>): World
    requires |cs| == |events|
  {
    if |events| == 0 then w
    else
      var n := |events| - 1;
      turn(AfterEvents(turn, w, events[..n], cs[..n]), events[n], cs[n])
  }

  lemma OneMoreEvent(turn: Turn, w: World, events: seq<Event>, cs: seq<Circumstances>, i: nat)
    requires |cs| == |events| && i < |events|
    ensures AfterEvents(turn, w, events[..i + 1], cs[..i + 1])
            == turn(AfterEvents(turn, w, events[..i], cs[..i]), events[i], cs[i])
  {
    assert events[..i + 1][..i] == events[..i] && cs[..i + 1][..i] == cs[..i];
  }

  /** The first event of a request is the first to be handled. */
  lemma {:induction false} FirstEventFirst(turn: Turn, w: World, events: seq<Event>, cs: seq<Circumstances>)
    requires |cs| == |events| > 0
    ensures AfterEvents(turn, w, events, cs) == AfterEvents(turn, turn(w, events[0], cs[0]), events[1..], cs[1..])
  {
    var n := |events| - 1;
    if n == 0 {
      assert events[..0] == [] && cs[..0] == [] && events[1..] == [] && cs[1..] == [];
    } else {
      FirstEventFirst(turn, w, events[..n], cs[..n]);
      assert events[..n][1..] == events[1..][..n - 1] && cs[..n][1..] == cs[1..][..n - 1];
    }
  }

  /** The events of a payload, normalised. */
  function Parsed(payload: seq<RawEvent>, parse: string -> Option<int>, clock: nat -> int): (r: seq<Event>)
    ensures |r| == |payload|
  {
    seq(|payload|, i requires 0 <= i < |payload| => Normalise(payload[i], parse(Text.Trim(payload[i].createdAt)), clock(i)))
  }

  function RequestCounted(w: World, n: nat): World {
    w.(incs := w.incs + [("webhook_requests_total", 1), ("webhook_events_received", n)])
  }

  predicate InOrder(start: int, cs: seq<Circumstances>) {
    (forall i :: 0 <= i < |cs| ==> start <= cs[i].now) && forall i, j :: 0 <= i < j < |cs| ==> cs[i].now <= cs[j].now
  }

  datatype Status = OK | BadRequest | Unauthorized

  class Server {
    const service: Service

    constructor (service: Service)
      ensures this.service == service
    {
      this.service := service;
    }

    method CountRequest(n: nat)
      requires service.Valid()
      modifies service.metrics
      ensures service.Valid() && service.View() == RequestCounted(old(service.View()), n)
    {
      service.metrics.Inc("webhook_requests_total", 1);
      service.metrics.Inc("webhook_events_received", n);
      assert service.metrics.incs == old(service.metrics.incs) + [("webhook_requests_total", 1), ("webhook_events_received", n)];
    }

    /** One turn of the loop of handleWebhook. */
    method HandleEvent(event: Event, c: Circumstances, ghost sight: Sight, ghost turn: Turn)
      requires service.Valid() && Sees(service.config, service.store.View(), sight) && service.dedup.UpTo(c.now)
      requires IsTurn(service.config, service.judge, sight, turn)
      modifies service.messenger, service.metrics, service.dedup, service.groups, service.groups.all
      ensures service.Valid() && service.dedup.UpTo(c.now) && service.groups.Grew()
      ensures service.View() == turn(old(service.View()), event, c)
    {
      assert turn(service.View(), event, c) == AfterEvent(service.config, service.judge, sight, service.View(), event, c);
      var item := event;
      if item.id == "" {
        item := item.(id := c.stamp);
      }
      if !Events.IsSupported(item.kind) {
        return;
      }
      var _ := service.ProcessEvent(item, c, sight.subscribers(item.kind), sight.texts(item));
    }

    /** The loop over the events of a request. */
    method HandleEvents(events: seq<Event>, cs: seq<Circumstances>, start: int, ghost sight: Sight, ghost turn: Turn)
      requires service.Valid() && Sees(service.config, service.store.View(), sight)
      requires IsTurn(service.config, service.judge, sight, turn)
      requires |cs| == |events| && InOrder(start, cs) && service.dedup.UpTo(start)
      modifies service.messenger, service.metrics, service.dedup, service.groups, service.groups.all
      ensures service.Valid() && service.View() == AfterEvents(turn, old(service.View()), events, cs)
    {
      ghost var latest, before := start, service.View();
      for i := 0 to |events|
        invariant service.Valid() && service.groups.Grew()
        invariant service.View() == AfterEvents(turn, before, events[..i], cs[..i])
        invariant service.dedup.UpTo(latest) && forall j :: i <= j < |cs| ==> latest <= cs[j].now
      {
        OneMoreEvent(turn, before, events, cs, i);
        HandleEvent(events[i], cs[i], sight, turn);
        latest := cs[i].now;
      }
      assert events[..|events|] == events && cs[..|cs|] == cs;
    }

    /** handleWebhook.  `authorised` says whether signature and credentials check out, `payload` is
        the decoded event list if there is one, `parse` reads timestamps and `clock` is what the
        clock shows while event number i is parsed. */
    method HandleWebhook(authorised: bool, payload: Option<seq<RawEvent>>, parse: string -> Option<int>, clock: nat -> int,
                         cs: seq<Circumstances>, start: int, ghost sight: Sight, ghost turn: Turn)
      returns (status: Status)
      requires service.Valid() && Sees(service.config, service.store.View(), sight)
      requires IsTurn(service.config, service.judge, sight, turn)
      requires InOrder(start, cs) && service.dedup.UpTo(start) && (payload.Some? ==> |cs| == |payload.value|)
      modifies service.messenger, service.metrics, service.dedup, service.groups, service.groups.all
      ensures service.Valid()
      ensures status == if !authorised then Unauthorized else if payload.None? then BadRequest else OK
      ensures service.View() == if status != OK then old(service.View()) else
                AfterEvents(turn, RequestCounted(old(service.View()), |cs|), Parsed(payload.value, parse, clock), cs)
    {
      if !authorised {
        return Unauthorized;
      }
      var events := ParsePayload(payload, parse, clock);
      if events.None? {
        return BadRequest;
      }
      assert events.value == Parsed(payload.value, parse, clock);
      CountRequest(|events.value|);
      HandleEvents(events.value, cs, start, sight, turn);
      status := OK;
    }
  }

}
