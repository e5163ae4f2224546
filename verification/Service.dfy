/** The notification service (internal/notifications/service.go) as objects: the group buffers
    that the grouping machine abstracts, the sending loops, and ProcessEvent. */
module Service {

  import opened Wrappers
  import opened Webhook
  import opened Grouping
  import Decimal
  import Dedup
  import Events
  import Filter
  import Formatter
  import I18n
  import Markup
  import Metrics
  import Storage
  import Text

  /** What the service is set up with; the last three stand for the printing of times in a zone
      and of JSON. */
  datatype Config = Config(
    filter: Filter.Config,
    groupWindow: int,
    defaultLocale: string,
    defaultTimezone: string,
    bundle: I18n.Bundle,
    printDate: (int, string) -> string,
    printTime: (int, string) -> string,
    marshal: map<string, Json> -> string)

  // ---- Sending ----

  /** A call of the messenger: the chat and the text. */
  datatype Sent = Sent(chat: int, text: string)

  /** The messenger keeps every call; whether it succeeds is up to it. */
  class Messenger {
    ghost var log: seq<Sent>

    constructor ()
      ensures log == []
    {
      log := [];
    }

    method SendMessage(chat: int, text: string, succeeds: bool) returns (ok: bool)
      modifies this
      ensures log == old(log) + [Sent(chat, text)] && ok == succeeds
    {
      log := log + [Sent(chat, text)];
      ok := succeeds;
    }
  }

  function LocaleOf(config: Config, prefs: Storage.UserPrefs): string {
    if Text.Trim(prefs.locale) == "" then config.defaultLocale else prefs.locale
  }

  function TimezoneOf(config: Config, prefs: Storage.UserPrefs): string {
    if Text.Trim(prefs.timezone) == "" then config.defaultTimezone else prefs.timezone
  }

  /** A blank choice counts as none. */
  lemma DefaultsForBlanks(config: Config, prefs: Storage.UserPrefs)
    ensures LocaleOf(config, prefs) == if Text.AllSpace(prefs.locale) then config.defaultLocale else prefs.locale
    ensures TimezoneOf(config, prefs) == if Text.AllSpace(prefs.timezone) then config.defaultTimezone else prefs.timezone
  {
    Text.TrimsToNothing(prefs.locale);
    Text.TrimsToNothing(prefs.timezone);
  }

  /** The text of a single notification for a user with these preferences. */
  function EventText(config: Config, prefs: Storage.UserPrefs, event: Event): string
    requires config.bundle.Valid()
  {
    var locale := I18n.Resolve(config.bundle, LocaleOf(config, prefs));
    Formatter.Join(
      Formatter.EventLines(Formatter.LabelsOf(config.bundle, locale), Formatter.Title(config.bundle, event, locale), event,
                           config.printDate(event.createdAt, TimezoneOf(config, prefs)),
                           Formatter.Shown(event, prefs.short, config.marshal(event.data))), "\n")
  }

  /** What a user is sent about an event is well-formed, and shows its type, its ID and the values
      of the fields the user wants to see, whatever they hold. */
  lemma EventTextReadsBack(config: Config, prefs: Storage.UserPrefs, event: Event, spans: Formatter.LabelSpans)
    requires config.bundle.Valid()
    requires Formatter.LabelsComplete(Formatter.LabelsOf(config.bundle, I18n.Resolve(config.bundle, LocaleOf(config, prefs))), spans)
    ensures var text := EventText(config, prefs, event);
            var fields := Formatter.Shown(event, prefs.short, config.marshal(event.data));
            && Markup.WellFormed(text)
            && Markup.CodeSpans(text) == spans.event + [event.kind] + spans.date + spans.ref + [event.id]
                                         + (if |fields| == 0 then [] else spans.details) + Formatter.Values(fields)
  {
    var locale := I18n.Resolve(config.bundle, LocaleOf(config, prefs));
    Formatter.NotificationReadsBack(Formatter.LabelsOf(config.bundle, locale), spans, Formatter.Title(config.bundle, event, locale),
                                    event, config.printDate(event.createdAt, TimezoneOf(config, prefs)),
                                    Formatter.Shown(event, prefs.short, config.marshal(event.data)));
  }

  /** Of a type with a list of keys these values are those of all keys present, or the first three of
      them for a user who wants short notifications. */
  lemma EventTextShows(config: Config, prefs: Storage.UserPrefs, event: Event, spans: Formatter.LabelSpans, keys: seq<string>)
    requires config.bundle.Valid() && Formatter.FieldKeys(event.kind) == Some(keys)
    requires Formatter.LabelsComplete(Formatter.LabelsOf(config.bundle, I18n.Resolve(config.bundle, LocaleOf(config, prefs))), spans)
    ensures var present := Formatter.Values(Formatter.Picked(event.data, keys));
            var values := if prefs.short && |present| > 3 then present[..3] else present;
            Markup.CodeSpans(EventText(config, prefs, event))
            == spans.event + [event.kind] + spans.date + spans.ref + [event.id] + (if values == [] then [] else spans.details) + values
  {
    EventTextReadsBack(config, prefs, event, spans);
    Formatter.ShownAre(event, prefs.short, config.marshal(event.data), keys);
  }

  /** The text for a user is in the user's language and shows the date in the user's zone. */
  lemma EventTextIs(config: Config, prefs: Storage.UserPrefs, event: Event)
    requires config.bundle.Valid()
    ensures var b := config.bundle;
            var locale := I18n.Resolve(b, if Text.AllSpace(prefs.locale) then config.defaultLocale else prefs.locale);
            var zone := if Text.AllSpace(prefs.timezone) then config.defaultTimezone else prefs.timezone;
            var title := I18n.Plain(b, locale, "event." + event.kind + ".title");
            var labels := Formatter.Labels(I18n.Plain(b, locale, "notification.event"), I18n.Plain(b, locale, "notification.date"),
                                           I18n.Plain(b, locale, "notification.ref"), I18n.Plain(b, locale, "notification.details"),
                                           I18n.Plain(b, locale, "notification.view_on_abuseipdb"));
            EventText(config, prefs, event)
            == Formatter.Join(Formatter.EventLines(labels, if "event." <= title then event.kind else title, event,
                                                   config.printDate(event.createdAt, zone),
                                                   Formatter.Shown(event, prefs.short, config.marshal(event.data))), "\n")
  {
    DefaultsForBlanks(config, prefs);
  }

  /** How the calls outside go for a user: whether the preferences cannot be read, and whether
      the messenger succeeds. */
  datatype Outcome = Outcome(lookupFails: bool, sendSucceeds: bool)

  /** The call of the messenger made for a user: none without preferences or if the user ID is no
      chat ID. */
  function CallTo(outcome: string -> Outcome, message: string, userID: string): seq<Sent> {
    match Decimal.ParseInt(userID)
    case Some(chat) => if outcome(userID).lookupFails then [] else [Sent(chat, message)]
    case None => []
  }

  /** The same with that user's text. */
  function CallFor(outcome: string -> Outcome, text: string -> string, userID: string): seq<Sent> {
    CallTo(outcome, text(userID), userID)
  }

  function Calls(outcome: string -> Outcome, text: string -> string, users: seq<string>): seq<Sent> {
    if |users| == 0 then []
    else
      var n := |users| - 1;
      Calls(outcome, text, users[..n]) + CallFor(outcome, text, users[n])
  }

  /** The counter that a user's outcome goes to. */
  function Counted(outcome: string -> Outcome, userID: string): (string, int) {
    if Delivered(outcome, userID) then ("notifications_sent", 1) else ("notifications_failed", 1)
  }

  predicate Delivered(outcome: string -> Outcome, userID: string) {
    !outcome(userID).lookupFails && Decimal.ParseInt(userID).Some? && outcome(userID).sendSucceeds
  }

  function Counts(outcome: string -> Outcome, users: seq<string>): seq<(string, int)> {
    if |users| == 0 then []
    else
      var n := |users| - 1;
      Counts(outcome, users[..n]) + [Counted(outcome, users[n])]
  }

  lemma OneMore(outcome: string -> Outcome, text: string -> string, users: seq<string>, i: nat)
    requires i < |users|
    ensures Calls(outcome, text, users[..i + 1]) == Calls(outcome, text, users[..i]) + CallFor(outcome, text, users[i])
    ensures Counts(outcome, users[..i + 1]) == Counts(outcome, users[..i]) + [Counted(outcome, users[i])]
  {
    assert users[..i + 1][..i] == users[..i];
  }

  /** The same when the texts come as a list beside the users. */
  function CallsWith(outcome: string -> Outcome, users: seq<string>, texts: seq<string>): seq<Sent>
    requires |texts| == |users|
  {
    if |users| == 0 then []
    else
      var n := |users| - 1;
      CallsWith(outcome, users[..n], texts[..n]) + CallTo(outcome, texts[n], users[n])
  }

  lemma OneMoreWith(outcome: string -> Outcome, users: seq<string>, texts: seq<string>, userID: string, message: string)
    requires |texts| == |users|
    ensures CallsWith(outcome, users + [userID], texts + [message]) == CallsWith(outcome, users, texts) + CallTo(outcome, message, userID)
    ensures Counts(outcome, users + [userID]) == Counts(outcome, users) + [Counted(outcome, userID)]
  {
    assert (users + [userID])[..|users|] == users && (texts + [message])[..|users|] == texts;
  }

  /** A list of a set, in some order. */
  predicate Lists(order: seq<string>, users: set<string>) {
    if |order| == 0 then users == {}
    else
      var n := |order| - 1;
      order[n] in users && Lists(order[..n], users - {order[n]})
  }

  /** Such a list has every member once and nothing else. */
  lemma {:induction false} ListsOnce(order: seq<string>, users: set<string>)
    requires Lists(order, users)
    ensures Text.Elements(order) == users && |order| == |users|
  {
    if |order| > 0 {
      var n := |order| - 1;
      ListsOnce(order[..n], users - {order[n]});
      assert order == order[..n] + [order[n]];
      assert Text.Elements(order) == Text.Elements(order[..n]) + {order[n]};
    }
  }

  lemma TotalsOneMore(counts: seq<(string, int)>, outcome: string -> Outcome, u: string)
    ensures var good := !outcome(u).lookupFails && Decimal.ParseInt(u).Some? && outcome(u).sendSucceeds;
            var counts' := counts + [Counted(outcome, u)];
            && Metrics.Total(counts', "notifications_sent") == Metrics.Total(counts, "notifications_sent") + (if good then 1 else 0)
            && Metrics.Total(counts', "notifications_failed") == Metrics.Total(counts, "notifications_failed") + (if good then 0 else 1)
  {
    Metrics.TotalAppend(counts, [Counted(outcome, u)]);
    Metrics.TotalOfOne(Counted(outcome, u), "notifications_sent");
    Metrics.TotalOfOne(Counted(outcome, u), "notifications_failed");
  }

  lemma SentOneMore(outcome: string -> Outcome, users: seq<string>, u: string)
    ensures var users' := users + [u];
            |set i | 0 <= i < |users'| && !outcome(users'[i]).lookupFails && Decimal.ParseInt(users'[i]).Some?
                     && outcome(users'[i]).sendSucceeds|
            == |set i | 0 <= i < |users| && !outcome(users[i]).lookupFails && Decimal.ParseInt(users[i]).Some?
                        && outcome(users[i]).sendSucceeds|
               + if !outcome(u).lookupFails && Decimal.ParseInt(u).Some? && outcome(u).sendSucceeds then 1 else 0
  {
    var users' := users + [u];
    var all := set i | 0 <= i < |users'| && !outcome(users'[i]).lookupFails && Decimal.ParseInt(users'[i]).Some?
                       && outcome(users'[i]).sendSucceeds;
    var before := set i | 0 <= i < |users| && !outcome(users[i]).lookupFails && Decimal.ParseInt(users[i]).Some?
                          && outcome(users[i]).sendSucceeds;
    assert all == before + if |users| in all then {|users|} else {};
  }

  /** Those of a list whose preferences can be read, whose ID is a chat ID and whose send succeeds
      are counted as sent, and the others as failed. */
  lemma {:induction false} CountsTotal(outcome: string -> Outcome, users: seq<string>)
    ensures var sent := |set i | 0 <= i < |users| && !outcome(users[i]).lookupFails && Decimal.ParseInt(users[i]).Some?
                                 && outcome(users[i]).sendSucceeds|;
            && Metrics.Total(Counts(outcome, users), "notifications_sent") == sent
            && Metrics.Total(Counts(outcome, users), "notifications_failed") == |users| - sent
  {
    if |users| > 0 {
      var n := |users| - 1;
      CountsTotal(outcome, users[..n]);
      TotalsOneMore(Counts(outcome, users[..n]), outcome, users[n]);
      SentOneMore(outcome, users[..n], users[n]);
      assert users == users[..n] + [users[n]];
    }
  }

  /** The counters after a list of users. */
  lemma CountsTotalAfter(before: seq<(string, int)>, outcome: string -> Outcome, users: seq<string>)
    ensures var sent := |set i | 0 <= i < |users| && !outcome(users[i]).lookupFails && Decimal.ParseInt(users[i]).Some?
                                 && outcome(users[i]).sendSucceeds|;
            var after := before + Counts(outcome, users);
            && Metrics.Total(after, "notifications_sent") == Metrics.Total(before, "notifications_sent") + sent
            && Metrics.Total(after, "notifications_failed") == Metrics.Total(before, "notifications_failed") + |users| - sent
  {
    CountsTotal(outcome, users);
    Metrics.TotalAppend(before, Counts(outcome, users));
  }

  lemma ListedOneMore(outcome: string -> Outcome, users: set<string>, u: string)
    requires u in users
    ensures |set v | v in users && !outcome(v).lookupFails && Decimal.ParseInt(v).Some? && outcome(v).sendSucceeds|
            == |set v | v in users - {u} && !outcome(v).lookupFails && Decimal.ParseInt(v).Some? && outcome(v).sendSucceeds|
               + if !outcome(u).lookupFails && Decimal.ParseInt(u).Some? && outcome(u).sendSucceeds then 1 else 0
  {
    var all := set v | v in users && !outcome(v).lookupFails && Decimal.ParseInt(v).Some? && outcome(v).sendSucceeds;
    var before := set v | v in users - {u} && !outcome(v).lookupFails && Decimal.ParseInt(v).Some? && outcome(v).sendSucceeds;
    assert all == before + if u in all then {u} else {};
  }

  /** The same for the users of a group, in whatever order they come. */
  lemma {:induction false} ListedTotal(outcome: string -> Outcome, order: seq<string>, users: set<string>)
    requires Lists(order, users)
    ensures var sent := |set u | u in users && !outcome(u).lookupFails && Decimal.ParseInt(u).Some? && outcome(u).sendSucceeds|;
            && Metrics.Total(Counts(outcome, order), "notifications_sent") == sent
            && Metrics.Total(Counts(outcome, order), "notifications_failed") == |users| - sent
  {
    if |order| > 0 {
      var n, u := |order| - 1, order[|order| - 1];
      ListedTotal(outcome, order[..n], users - {u});
      TotalsOneMore(Counts(outcome, order[..n]), outcome, u);
      ListedOneMore(outcome, users, u);
    }
  }

  /** The counters after the users of a group. */
  lemma ListedTotalAfter(before: seq<(string, int)>, outcome: string -> Outcome, order: seq<string>, users: set<string>)
    requires Lists(order, users)
    ensures var sent := |set u | u in users && !outcome(u).lookupFails && Decimal.ParseInt(u).Some? && outcome(u).sendSucceeds|;
            var after := before + Counts(outcome, order);
            && Metrics.Total(after, "notifications_sent") == Metrics.Total(before, "notifications_sent") + sent
            && Metrics.Total(after, "notifications_failed") == Metrics.Total(before, "notifications_failed") + |users| - sent
  {
    ListedTotal(outcome, order, users);
    Metrics.TotalAppend(before, Counts(outcome, order));
  }

  lemma ListsOneMore(order: seq<string>, users: set<string>, rest: set<string>, u: string)
    requires rest <= users && Lists(order, users - rest) && u in rest
    ensures Lists(order + [u], users - (rest - {u}))
  {
    assert users - (rest - {u}) - {u} == users - rest;
    assert (order + [u])[..|order|] == order;
  }

  /** `text` gives each user the text of the event that the user's preferences ask for. */
  ghost predicate Tells(config: Config, prefs: map<string, Storage.UserPrefs>, event: Event, text: string -> string)
    requires config.bundle.Valid()
  {
    forall u {:trigger EventText(config, Storage.PrefsOf(prefs, u), event)} ::
      text(u) == EventText(config, Storage.PrefsOf(prefs, u), event)
  }

  function EventTexts(config: Config, prefs: map<string, Storage.UserPrefs>, event: Event): (text: string -> string)
    requires config.bundle.Valid()
    ensures Tells(config, prefs, event, text)
  {
    (userID: string) => EventText(config, Storage.PrefsOf(prefs, userID), event)
  }

  // ---- Buffers ----

  function EventsIn(records: seq<Record>): (r: seq<Event>)
    ensures |r| == |records|
  {
    seq(|records|, i requires 0 <= i < |records| => records[i].event)
  }

  /** The buffer that is live under a key. */
  function Held(pool: Pool, key: string): Option<Buffer> {
    match Lookup(pool, key)
    case Some(a) => Some(pool.buffers[a])
    case None => None
  }

  class GroupBuffer {
    var events: seq<Event>
    var users: set<string>

    /** The calls behind the events, and when the buffer was made. */
    ghost var records: seq<Record>
    ghost var createdAt: int

    constructor (ghost now: int)
      ensures events == [] && users == {} && records == [] && createdAt == now
    {
      events, users := [], {};
      records, createdAt := [], now;
    }

    ghost function View(): Buffer
      reads this
    {
      Buffer(createdAt, records, users)
    }
  }

  /** The map of group buffers, guarded by the mutex; each method is one locked section. */
  class Groups {
    const window: int
    var buffers: map<string, GroupBuffer>

    /** The timers armed so far. */
    var timers: seq<Timer>

    /** Every buffer ever made, and where the live ones are in that list. */
    ghost var all: seq<GroupBuffer>
    ghost var index: map<string, nat>

    ghost predicate Valid()
      reads this, all
    {
      && buffers.Keys == index.Keys
      && (forall k :: k in buffers ==> index[k] < |all| && all[index[k]] == buffers[k])
      && (forall i, j :: 0 <= i < j < |all| ==> all[i] != all[j])
      && (forall i :: 0 <= i < |all| ==> all[i].events == EventsIn(all[i].records))
    }

    ghost function View(): Pool
      reads this, all
    {
      Pool(index, Views(all))
    }

    /** Buffers are only ever added, and those added are new. */
    twostate predicate Grew()
      reads this
    {
      old(all) <= all && forall i :: |old(all)| <= i < |all| ==> fresh(all[i])
    }

    static ghost function Views(buffers: seq<GroupBuffer>): (r: seq<Buffer>)
      reads buffers
      ensures |r| == |buffers| && forall i :: 0 <= i < |buffers| ==> r[i] == buffers[i].View()
    {
      if |buffers| == 0 then [] else Views(buffers[..|buffers| - 1]) + [buffers[|buffers| - 1].View()]
    }

    constructor (window: int)
      ensures Valid() && View() == Pool(map[], []) && timers == [] && this.window == window
    {
      this.window := window;
      buffers, timers, all, index := map[], [], [], map[];
    }

    static method AddUsers(buffer: GroupBuffer, userIDs: seq<string>)
      modifies buffer`users
      ensures buffer.users == old(buffer.users) + Text.Elements(userIDs)
    {
      for i := 0 to |userIDs|
        invariant buffer.users == old(buffer.users) + Text.Elements(userIDs[..i])
      {
        assert userIDs[..i + 1] == userIDs[..i] + [userIDs[i]];
        buffer.users := buffer.users + {userIDs[i]};
      }
      assert userIDs[..|userIDs|] == userIDs;
    }

    /** Makes the buffer of a type and arms its timer. */
    method Allocate(key: string, now: int)
      requires Valid() && key !in buffers
      modifies this
      ensures Valid() && key in buffers
      ensures View() == Pool(old(View()).live[key := |old(all)|], old(View()).buffers + [Buffer(now, [], {})])
      ensures timers == old(timers) + [Timer(key, now + window, Armed)]
      ensures |all| == |old(all)| + 1 && old(all) <= all && fresh(all[|old(all)|])
    {
      var made := new GroupBuffer(now);
      buffers := buffers[key := made];
      timers := timers + [Timer(key, now + window, Armed)];
      index := index[key := |all|];
      all := all + [made];
    }

    /** Puts an event and its users into a buffer. */
    method Append(buffer: GroupBuffer, ghost a: nat, event: Event, userIDs: seq<string>, ghost record: Record)
      requires Valid() && a < |all| && all[a] == buffer
      requires record.event == event && record.users == Text.Elements(userIDs)
      modifies buffer
      ensures Valid()
      ensures View() == Pool(index, old(View()).buffers[a := Grouping.Append(old(buffer.View()), record)])
    {
      buffer.events := buffer.events + [event];
      buffer.records := buffer.records + [record];
      AddUsers(buffer, userIDs);
    }

    /** The locked section of enqueueGrouped. */
    method Enqueue(event: Event, userIDs: seq<string>, now: int, ghost serial: nat)
      requires Valid()
      modifies this, all
      ensures Valid()
      ensures View() == Put(old(View()), event.kind, Record(serial, event, Text.Elements(userIDs), now))
      ensures timers == if Lookup(old(View()), event.kind).Some? then old(timers)
                        else old(timers) + [Timer(event.kind, now + window, Armed)]
      ensures Grew()
    {
      var key := event.kind;
      ghost var record := Record(serial, event, Text.Elements(userIDs), now);
      if key !in buffers {
        Allocate(key, now);
        assert [] + [record] == [record] && {} + record.users == record.users;
      }
      Append(buffers[key], index[key], event, userIDs, record);
    }

    /** The locked section of flushGrouped. */
    method Take(key: string) returns (buffer: GroupBuffer?)
      requires Valid()
      modifies this`buffers, this`index
      ensures Valid() && View() == Detach(old(View()), key)
      ensures match Held(old(View()), key)
              case Some(b) => buffer != null && buffer.users == b.users && buffer.events == EventsIn(b.records)
              case None => buffer == null
    {
      buffer := if key in buffers then buffers[key] else null;
      buffers := buffers - {key};
      index := index - {key};
    }
  }

  /** The text of a group for a user with these preferences. */
  ghost predicate IsGroupText(config: Config, prefs: Storage.UserPrefs, events: seq<Event>, text: string)
    requires config.bundle.Valid() && |events| > 0
  {
    Formatter.IsGroupText(config.bundle, events, LocaleOf(config, prefs), TimePrinter(config, TimezoneOf(config, prefs)), text)
  }

  /** Each user whose preferences can be read is told the group. */
  ghost predicate ToldGroup(config: Config, prefs: map<string, Storage.UserPrefs>, events: seq<Event>,
                            outcome: string -> Outcome, users: seq<string>, texts: seq<string>)
    requires config.bundle.Valid() && |events| > 0 && |texts| == |users|
  {
    forall i {:trigger IsGroupText(config, Storage.PrefsOf(prefs, users[i]), events, texts[i])} ::
      0 <= i < |users| && !outcome(users[i]).lookupFails ==>
        IsGroupText(config, Storage.PrefsOf(prefs, users[i]), events, texts[i])
  }

  lemma ToldOneMore(config: Config, prefs: map<string, Storage.UserPrefs>, events: seq<Event>,
                    outcome: string -> Outcome, users: seq<string>, texts: seq<string>, userID: string, message: string)
    requires config.bundle.Valid() && |events| > 0 && |texts| == |users|
    requires ToldGroup(config, prefs, events, outcome, users, texts)
    requires !outcome(userID).lookupFails ==> IsGroupText(config, Storage.PrefsOf(prefs, userID), events, message)
    ensures ToldGroup(config, prefs, events, outcome, users + [userID], texts + [message])
  {
    var users', texts' := users + [userID], texts + [message];
    forall i | 0 <= i < |users'| && !outcome(users'[i]).lookupFails
      ensures IsGroupText(config, Storage.PrefsOf(prefs, users'[i]), events, texts'[i])
    {
      assert i < |users| ==> IsGroupText(config, Storage.PrefsOf(prefs, users[i]), events, texts[i]);
    }
  }

  function TimePrinter(config: Config, timezone: string): Event -> string {
    (event: Event) => config.printTime(event.createdAt, timezone)
  }

  // ---- The service ----

  /** One event as the service meets it: an ID made from the clock, the minute of the day, the
      time, the number of the call in the history of groups, and how the calls outside go. */
  datatype Circumstances = Circumstances(stamp: string, minute: int, now: int, serial: nat, lookupFails: bool,
                                         outcome: string -> Outcome)

  /** What ProcessEvent changes: the deduplicator's map, the group buffers and timers, the counter
      increments and the messenger's calls. */
  datatype World = World(seen: map<string, int>, pool: Pool, timers: seq<Timer>, incs: seq<(string, int)>, log: seq<Sent>)

  /** `judge` is shouldNotify on the deduplicator's map: the answer and the map after it. */
  type Judge = (map<string, int>, Filter.Item) -> (bool, map<string, int>)

  ghost predicate Judges(config: Filter.Config, judge: Judge) {
    forall seen, item {:trigger Filter.Decide(Filter.Gate(config), Filter.Admission(config), seen, item)} ::
      judge(seen, item) == Filter.Decide(Filter.Gate(config), Filter.Admission(config), seen, item)
  }

  function JudgeOf(config: Filter.Config): (judge: Judge)
    ensures Judges(config, judge)
  {
    (seen: map<string, int>, item: Filter.Item) => Filter.Decide(Filter.Gate(config), Filter.Admission(config), seen, item)
  }

  function ItemOf(event: Event, c: Circumstances): Filter.Item {
    Filter.Item(event, c.minute, c.now)
  }

  function OneSkipped(w: World): World {
    w.(incs := w.incs + [("events_skipped", 1)])
  }

  /** The event goes into the buffer of its type with these subscribers. */
  function Grouped(config: Config, w: World, event: Event, c: Circumstances, users: seq<string>): World {
    w.(pool := Put(w.pool, event.kind, Record(c.serial, event, Text.Elements(users), c.now)),
       timers := if Lookup(w.pool, event.kind).Some? then w.timers
                 else w.timers + [Timer(event.kind, c.now + config.groupWindow * Dedup.SECOND, Armed)])
  }

  /** The users are sent their texts at once. */
  function SentAtOnce(w: World, outcome: string -> Outcome, text: string -> string, users: seq<string>): World {
    w.(incs := w.incs + Counts(outcome, users), log := w.log + Calls(outcome, text, users))
  }

  /** After an event that is to be notified: nothing changes if the lookup fails, and an event
      without subscribers is skipped. */
  function Distributed(config: Config, w: World, event: Event, c: Circumstances, users: seq<string>, text: string -> string): World {
    if c.lookupFails then w
    else if |users| == 0 then OneSkipped(w)
    else if config.groupWindow > 0 then Grouped(config, w, event, c, users)
    else SentAtOnce(w, c.outcome, text, users)
  }

  /** After an event of a supported type. */
  function Considered(config: Config, judge: Judge, w: World, event: Event, c: Circumstances, users: seq<string>,
                      text: string -> string): World {
    var (notify, seen) := judge(w.seen, ItemOf(event, c));
    if notify then Distributed(config, w.(seen := seen), event, c, users, text) else OneSkipped(w.(seen := seen))
  }

  /** After any event, given its subscribers and what each of them is told. */
  function Processed(config: Config, judge: Judge, w: World, event: Event, c: Circumstances, users: seq<string>,
                     text: string -> string): World {
    if Events.IsSupported(event.kind) then Considered(config, judge, w, event, c, users, text) else w
  }

  lemma SkippedTotal(incs: seq<(string, int)>)
    ensures var incs' := incs + [("events_skipped", 1)];
            && Metrics.Total(incs', "events_skipped") == Metrics.Total(incs, "events_skipped") + 1
            && Metrics.Total(incs', "notifications_sent") == Metrics.Total(incs, "notifications_sent")
            && Metrics.Total(incs', "notifications_failed") == Metrics.Total(incs, "notifications_failed")
  {
    var one := ("events_skipped", 1);
    Metrics.TotalAppend(incs, [one]);
    Metrics.TotalOfOne(one, "events_skipped");
    Metrics.TotalOfOne(one, "notifications_sent");
    Metrics.TotalOfOne(one, "notifications_failed");
  }

  lemma {:induction false} CountsSkipNothing(outcome: string -> Outcome, users: seq<string>)
    ensures Metrics.Total(Counts(outcome, users), "events_skipped") == 0
  {
    if |users| > 0 {
      var n := |users| - 1;
      CountsSkipNothing(outcome, users[..n]);
      Metrics.TotalAppend(Counts(outcome, users[..n]), [Counted(outcome, users[n])]);
      Metrics.TotalOfOne(Counted(outcome, users[n]), "events_skipped");
    }
  }

  lemma SentTotals(w: World, outcome: string -> Outcome, text: string -> string, users: seq<string>)
    ensures var w' := SentAtOnce(w, outcome, text, users);
            var sent := |set i | 0 <= i < |users| && !outcome(users[i]).lookupFails && Decimal.ParseInt(users[i]).Some?
                                 && outcome(users[i]).sendSucceeds|;
            && Metrics.Total(w'.incs, "events_skipped") == Metrics.Total(w.incs, "events_skipped")
            && Metrics.Total(w'.incs, "notifications_sent") == Metrics.Total(w.incs, "notifications_sent") + sent
            && Metrics.Total(w'.incs, "notifications_failed") == Metrics.Total(w.incs, "notifications_failed") + |users| - sent
  {
    CountsTotalAfter(w.incs, outcome, users);
    CountsSkipNothing(outcome, users);
    Metrics.TotalAppend(w.incs, Counts(outcome, users));
  }

  /** What an event does to the counters: it is skipped if it is blocked or nobody subscribed, not if the
      lookup fails; and without grouping each subscriber is counted as sent or failed. */
  lemma ProcessedCounts(config: Config, judge: Judge, w: World, event: Event, c: Circumstances, users: seq<string>, text: string -> string)
    ensures var w', notify := Processed(config, judge, w, event, c, users, text), judge(w.seen, ItemOf(event, c)).0;
            var skips := Events.IsSupported(event.kind) && (!notify || (!c.lookupFails && users == []));
            var sends := Events.IsSupported(event.kind) && notify && !c.lookupFails && config.groupWindow <= 0;
            var sent := |set i | 0 <= i < |users| && !c.outcome(users[i]).lookupFails && Decimal.ParseInt(users[i]).Some?
                                 && c.outcome(users[i]).sendSucceeds|;
            && Metrics.Total(w'.incs, "events_skipped") == Metrics.Total(w.incs, "events_skipped") + (if skips then 1 else 0)
            && Metrics.Total(w'.incs, "notifications_sent")
               == Metrics.Total(w.incs, "notifications_sent") + (if sends then sent else 0)
            && Metrics.Total(w'.incs, "notifications_failed")
               == Metrics.Total(w.incs, "notifications_failed") + (if sends then |users| - sent else 0)
  {
    SkippedTotal(w.incs);
    SentTotals(w, c.outcome, text, users);
  }

  /** What it does to the rest: an event past the filters whose subscribers are found is buffered with
      them if there is a window, and sent to them if there is none; otherwise nothing is. */
  lemma ProcessedOnce(config: Config, judge: Judge, w: World, event: Event, c: Circumstances, users: seq<string>, text: string -> string)
    ensures var w', (notify, seen) := Processed(config, judge, w, event, c, users, text), judge(w.seen, ItemOf(event, c));
            var supported := Events.IsSupported(event.kind);
            var goes := supported && notify && !c.lookupFails && users != [];
            && w'.seen == (if supported then seen else w.seen)
            && w'.log == w.log + (if goes && config.groupWindow <= 0 then Calls(c.outcome, text, users) else [])
            && w'.pool == (if goes && config.groupWindow > 0
                           then Put(w.pool, event.kind, Record(c.serial, event, Text.Elements(users), c.now)) else w.pool)
            && w'.timers == w.timers + (if goes && config.groupWindow > 0 && Lookup(w.pool, event.kind).None?
                                        then [Timer(event.kind, c.now + config.groupWindow * 1_000_000_000, Armed)] else [])
  {
  }

  class Service {
    const config: Config
    const store: Storage.Store
    const messenger: Messenger
    const metrics: Metrics.Metrics
    const dedup: Dedup.Deduplicator
    const groups: Groups
    ghost const judge: Judge

    ghost predicate Valid()
      reads this, metrics, dedup, groups, groups.all
    {
      && config.bundle.Valid() && Judges(config.filter, judge)
      && metrics.Valid() && dedup.Valid() && groups.Valid()
      && dedup.enabled == config.filter.dedupEnabled && dedup.window == config.filter.dedupWindow
      && groups.window == config.groupWindow * Dedup.SECOND
    }

    ghost function View(): World
      reads this, messenger, metrics, dedup, groups, groups.all
    {
      World(dedup.seen, groups.View(), groups.timers, metrics.incs, messenger.log)
    }

    /** `dedupWindowSeconds` is what the configuration gives before the deduplicator's default. */
    constructor (config: Config, store: Storage.Store, messenger: Messenger, metrics: Metrics.Metrics,
                 dedupWindowSeconds: int)
      requires config.bundle.Valid() && metrics.Valid()
      requires config.filter.dedupWindow == (if dedupWindowSeconds <= 0 then 60 else dedupWindowSeconds) * Dedup.SECOND
      ensures Valid() && this.config == config && this.store == store && this.messenger == messenger && this.metrics == metrics
      ensures View() == World(map[], Pool(map[], []), [], metrics.incs, messenger.log)
      ensures fresh(dedup) && fresh(groups) && dedup.calls == [] && groups.all == []
    {
      this.config := config;
      this.store := store;
      this.messenger := messenger;
      this.metrics := metrics;
      this.dedup := new Dedup.Deduplicator(config.filter.dedupEnabled, dedupWindowSeconds);
      this.groups := new Groups(config.groupWindow * Dedup.SECOND);
      this.judge := JudgeOf(config.filter);
    }

    method SendEvent(userID: string, event: Event, outcome: string -> Outcome, ghost text: string -> string) returns (ok: bool)
      requires config.bundle.Valid() && Tells(config, store.prefs, event, text)
      modifies messenger
      ensures messenger.log == old(messenger.log) + CallFor(outcome, text, userID)
      ensures ok == Delivered(outcome, userID)
      ensures outcome(userID).lookupFails || Decimal.ParseInt(userID).None? ==> !ok && messenger.log == old(messenger.log)
      ensures !outcome(userID).lookupFails && Decimal.ParseInt(userID).Some? ==>
                && ok == outcome(userID).sendSucceeds
                && messenger.log == old(messenger.log) + [Sent(Decimal.ParseInt(userID).value, text(userID))]
    {
      var found := store.GetPrefs(userID, outcome(userID).lookupFails);
      if found.None? {
        return false;
      }
      var prefs := found.value;
      var locale := if Text.Trim(prefs.locale) == "" then config.defaultLocale else prefs.locale;
      var timezone := if Text.Trim(prefs.timezone) == "" then config.defaultTimezone else prefs.timezone;
      var message := Formatter.FormatEventMessage(config.bundle, event, locale, prefs.short,
                                                  config.printDate(event.createdAt, timezone), config.marshal(event.data));
      assert message == EventText(config, Storage.PrefsOf(store.prefs, userID), event) == text(userID);
      var chatID := Decimal.ParseInt(userID);
      if chatID.None? {
        return false;
      }
      ok := messenger.SendMessage(chatID.value, message, outcome(userID).sendSucceeds);
    }

    /** Sends to one user and counts how it went. */
    method SendCounted(userID: string, event: Event, outcome: string -> Outcome, ghost text: string -> string)
      requires config.bundle.Valid() && metrics.Valid() && Tells(config, store.prefs, event, text)
      modifies messenger, metrics
      ensures metrics.Valid() && metrics.incs == old(metrics.incs) + [Counted(outcome, userID)]
      ensures messenger.log == old(messenger.log) + CallFor(outcome, text, userID)
    {
      var ok := SendEvent(userID, event, outcome, text);
      if ok {
        metrics.Inc("notifications_sent", 1);
      } else {
        metrics.Inc("notifications_failed", 1);
      }
    }

    /** The loop of ProcessEvent over the subscribers. */
    method SendToAll(users: seq<string>, event: Event, outcome: string -> Outcome, ghost text: string -> string)
      requires config.bundle.Valid() && metrics.Valid() && Tells(config, store.prefs, event, text)
      modifies messenger, metrics
      ensures metrics.Valid() && metrics.incs == old(metrics.incs) + Counts(outcome, users)
      ensures messenger.log == old(messenger.log) + Calls(outcome, text, users)
      ensures var sent := |set i | 0 <= i < |users| && !outcome(users[i]).lookupFails && Decimal.ParseInt(users[i]).Some?
                                   && outcome(users[i]).sendSucceeds|;
              && Metrics.Total(metrics.incs, "notifications_sent") == Metrics.Total(old(metrics.incs), "notifications_sent") + sent
              && Metrics.Total(metrics.incs, "notifications_failed")
                 == Metrics.Total(old(metrics.incs), "notifications_failed") + |users| - sent
    {
      for i := 0 to |users|
        invariant metrics.Valid() && metrics.incs == old(metrics.incs) + Counts(outcome, users[..i])
        invariant messenger.log == old(messenger.log) + Calls(outcome, text, users[..i])
      {
        OneMore(outcome, text, users, i);
        SendCounted(users[i], event, outcome, text);
      }
      assert users[..|users|] == users;
      CountsTotalAfter(old(metrics.incs), outcome, users);
    }

    method EnqueueGrouped(users: seq<string>, event: Event, c: Circumstances)
      requires Valid()
      modifies groups, groups.all
      ensures Valid() && View() == Grouped(config, old(View()), event, c, users)
      ensures groups.Grew()
    {
      groups.Enqueue(event, users, c.now, c.serial);
    }

    method SendDirectly(users: seq<string>, event: Event, c: Circumstances, ghost text: string -> string)
      requires Valid() && Tells(config, store.prefs, event, text)
      modifies messenger, metrics
      ensures Valid() && View() == SentAtOnce(old(View()), c.outcome, text, users)
    {
      SendToAll(users, event, c.outcome, text);
    }

    method Dispatch(users: seq<string>, event: Event, c: Circumstances, ghost text: string -> string)
      requires Valid() && Tells(config, store.prefs, event, text)
      modifies messenger, metrics, groups, groups.all
      ensures Valid() && View() == if config.groupWindow > 0 then Grouped(config, old(View()), event, c, users)
                                   else SentAtOnce(old(View()), c.outcome, text, users)
      ensures groups.Grew()
    {
      if config.groupWindow > 0 {
        EnqueueGrouped(users, event, c);
      } else {
        SendDirectly(users, event, c, text);
      }
    }

    method Skip()
      requires Valid()
      modifies metrics
      ensures Valid() && View() == OneSkipped(old(View()))
    {
      metrics.Inc("events_skipped", 1);
    }

    /** ProcessEvent from the lookup of the subscribers on. */
    method Distribute(event: Event, c: Circumstances, ghost subscribers: seq<string>, ghost text: string -> string)
      returns (ok: bool)
      requires Valid() && Tells(config, store.prefs, event, text)
      requires Text.Ascending(subscribers)
      requires Text.Elements(subscribers) == Storage.SubscribersOf(store.subscriptions, event.kind)
      modifies messenger, metrics, groups, groups.all
      ensures Valid() && View() == Distributed(config, old(View()), event, c, subscribers, text)
      ensures groups.Grew()
      ensures ok == !c.lookupFails
    {
      var users := store.GetSubscribers(event.kind, c.lookupFails);
      if users.None? {
        return false;
      }
      Text.AscendingUnique(users.value, subscribers);
      if |users.value| == 0 {
        Skip();
      } else {
        Dispatch(users.value, event, c, text);
      }
      ok := true;
    }

    /** shouldNotify with the service's own configuration and deduplicator. */
    method ShouldNotify(event: Event, c: Circumstances) returns (notify: bool)
      requires Valid()
      requires dedup.UpTo(c.now)
      modifies dedup
      ensures Valid() && dedup.UpTo(c.now) && View() == old(View()).(seen := dedup.seen)
      ensures (notify, dedup.seen) == judge(old(dedup.seen), ItemOf(event, c))
    {
      notify := Filter.ShouldNotify(config.filter, dedup, event, c.minute, c.now);
    }

    /** ProcessEvent from the filters on. */
    method Consider(event: Event, c: Circumstances, ghost subscribers: seq<string>, ghost text: string -> string)
      returns (ok: bool)
      requires Valid() && Tells(config, store.prefs, event, text)
      requires Text.Ascending(subscribers)
      requires Text.Elements(subscribers) == Storage.SubscribersOf(store.subscriptions, event.kind)
      requires dedup.UpTo(c.now)
      modifies messenger, metrics, dedup, groups, groups.all
      ensures Valid() && View() == Considered(config, judge, old(View()), event, c, subscribers, text)
      ensures groups.Grew()
      ensures dedup.UpTo(c.now)
      ensures ok == !(judge(old(dedup.seen), ItemOf(event, c)).0 && c.lookupFails)
    {
      var notify := ShouldNotify(event, c);
      if !notify {
        Skip();
        return true;
      }
      ok := Distribute(event, c, subscribers, text);
    }

    /** `subscribers` is the list the store has for the event type, and `text` what each user is
        told; neither is looked at unless the event is to be notified. */
    method ProcessEvent(event: Event, c: Circumstances, ghost subscribers: seq<string>, ghost text: string -> string)
      returns (ok: bool)
      requires Valid() && Tells(config, store.prefs, event, text)
      requires Text.Ascending(subscribers)
      requires Text.Elements(subscribers) == Storage.SubscribersOf(store.subscriptions, event.kind)
      requires dedup.UpTo(c.now)
      modifies messenger, metrics, dedup, groups, groups.all
      ensures Valid() && View() == Processed(config, judge, old(View()), event, c, subscribers, text)
      ensures groups.Grew()
      ensures dedup.UpTo(c.now)
      ensures ok == !(Events.IsSupported(event.kind) && judge(old(dedup.seen), ItemOf(event, c)).0 && c.lookupFails)
    {
      if !Events.IsSupported(event.kind) {
        return true;
      }
      ok := Consider(event, c, subscribers, text);
    }

    method SendGrouped(userID: string, events: seq<Event>, outcome: string -> Outcome) returns (ok: bool, ghost message: string)
      requires config.bundle.Valid() && |events| > 0
      modifies messenger
      ensures messenger.log == old(messenger.log) + CallTo(outcome, message, userID)
      ensures !outcome(userID).lookupFails ==> IsGroupText(config, Storage.PrefsOf(store.prefs, userID), events, message)
      ensures ok == Delivered(outcome, userID)
      ensures outcome(userID).lookupFails || Decimal.ParseInt(userID).None? ==> !ok && messenger.log == old(messenger.log)
      ensures !outcome(userID).lookupFails && Decimal.ParseInt(userID).Some? ==>
                && ok == outcome(userID).sendSucceeds
                && messenger.log == old(messenger.log) + [Sent(Decimal.ParseInt(userID).value, message)]
    {
      var found := store.GetPrefs(userID, outcome(userID).lookupFails);
      if found.None? {
        return false, "";
      }
      var prefs := found.value;
      var locale := if Text.Trim(prefs.locale) == "" then config.defaultLocale else prefs.locale;
      var timezone := if Text.Trim(prefs.timezone) == "" then config.defaultTimezone else prefs.timezone;
      var text := Formatter.FormatGroupedMessage(config.bundle, events, locale, TimePrinter(config, timezone));
      message := text;
      var chatID := Decimal.ParseInt(userID);
      if chatID.None? {
        return false, message;
      }
      ok := messenger.SendMessage(chatID.value, text, outcome(userID).sendSucceeds);
    }

    /** Sends the group to one more user and counts how it went. */
    method SendGroupedCounted(userID: string, events: seq<Event>, outcome: string -> Outcome,
                              ghost order: seq<string>, ghost texts: seq<string>)
      returns (ghost message: string)
      requires config.bundle.Valid() && metrics.Valid() && |events| > 0
      requires |texts| == |order| && ToldGroup(config, store.prefs, events, outcome, order, texts)
      modifies messenger, metrics
      ensures metrics.Valid() && metrics.incs == old(metrics.incs) + [Counted(outcome, userID)]
      ensures messenger.log == old(messenger.log) + CallTo(outcome, message, userID)
      ensures ToldGroup(config, store.prefs, events, outcome, order + [userID], texts + [message])
    {
      var ok;
      ok, message := SendGrouped(userID, events, outcome);
      ToldOneMore(config, store.prefs, events, outcome, order, texts, userID, message);
      if ok {
        metrics.Inc("notifications_sent", 1);
      } else {
        metrics.Inc("notifications_failed", 1);
      }
    }

    /** The loop of flushGrouped over the users of a buffer, in whatever order the map gives. */
    method SendToGroup(users: set<string>, events: seq<Event>, outcome: string -> Outcome)
      returns (ghost order: seq<string>, ghost texts: seq<string>)
      requires config.bundle.Valid() && metrics.Valid() && |events| > 0
      modifies messenger, metrics
      ensures metrics.Valid() && metrics.incs == old(metrics.incs) + Counts(outcome, order)
      ensures |texts| == |order| && messenger.log == old(messenger.log) + CallsWith(outcome, order, texts)
      ensures Lists(order, users) && ToldGroup(config, store.prefs, events, outcome, order, texts)
      ensures var sent := |set u | u in users && !outcome(u).lookupFails && Decimal.ParseInt(u).Some? && outcome(u).sendSucceeds|;
              && Metrics.Total(metrics.incs, "notifications_sent") == Metrics.Total(old(metrics.incs), "notifications_sent") + sent
              && Metrics.Total(metrics.incs, "notifications_failed")
                 == Metrics.Total(old(metrics.incs), "notifications_failed") + |users| - sent
    {
      order, texts := [], [];
      var rest := users;
      while rest != {}
        invariant rest <= users && Lists(order, users - rest)
        invariant metrics.Valid() && metrics.incs == old(metrics.incs) + Counts(outcome, order)
        invariant |texts| == |order| && messenger.log == old(messenger.log) + CallsWith(outcome, order, texts)
        invariant ToldGroup(config, store.prefs, events, outcome, order, texts)
        decreases |rest|
      {
        var userID :| userID in rest;
        var message := SendGroupedCounted(userID, events, outcome, order, texts);
        OneMoreWith(outcome, order, texts, userID, message);
        ListsOneMore(order, users, rest, userID);
        order, texts := order + [userID], texts + [message];
        rest := rest - {userID};
      }
      assert users - rest == users;
      ListedTotalAfter(old(metrics.incs), outcome, order, users);
    }

    /** What flushGrouped does with the buffer it found, without the lock. */
    method SendBuffer(buffer: GroupBuffer?, outcome: string -> Outcome) returns (ghost order: seq<string>, ghost texts: seq<string>)
      requires config.bundle.Valid() && metrics.Valid()
      modifies messenger, metrics
      ensures metrics.Valid() && metrics.incs == old(metrics.incs) + Counts(outcome, order)
      ensures |texts| == |order| && messenger.log == old(messenger.log) + CallsWith(outcome, order, texts)
      ensures buffer == null || |buffer.events| == 0 ==> order == []
      ensures buffer != null && |buffer.events| > 0 ==>
                && Text.Elements(order) == buffer.users && |order| == |buffer.users|
                && ToldGroup(config, store.prefs, buffer.events, outcome, order, texts)
    {
      if buffer == null || |buffer.events| == 0 {
        return [], [];
      }
      order, texts := SendToGroup(buffer.users, buffer.events, outcome);
      ListsOnce(order, buffer.users);
    }

    /** What the callback of a timer does. */
    method FlushGrouped(key: string, outcome: string -> Outcome) returns (ghost order: seq<string>, ghost texts: seq<string>)
      requires config.bundle.Valid() && metrics.Valid() && groups.Valid()
      modifies messenger, metrics, groups`buffers, groups`index
      ensures metrics.Valid() && groups.Valid() && groups.View() == Detach(old(groups.View()), key)
      ensures metrics.incs == old(metrics.incs) + Counts(outcome, order)
      ensures |texts| == |order| && messenger.log == old(messenger.log) + CallsWith(outcome, order, texts)
      ensures match Held(old(groups.View()), key)
              case None => order == []
              case Some(b) =>
                if |b.records| == 0 then order == []
                else Text.Elements(order) == b.users && |order| == |b.users|
                     && ToldGroup(config, store.prefs, EventsIn(b.records), outcome, order, texts)
    {
      var buffer := groups.Take(key);
      order, texts := SendBuffer(buffer, outcome);
    }
  }

}
