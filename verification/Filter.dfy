/** Which events are notified (internal/notifications/filter.go and shouldNotify in service.go). */
module Filter {

  import opened Wrappers
  import opened Webhook
  import Decimal
  import Dedup
  import Events
  import Text

  const DAY: int := 1440

  // ---- Quiet hours ----

  /** HH:MM as minutes after midnight. */
  function ParseHourMinute(input: string): (r: Option<int>)
    ensures r.Some? ==> 0 <= r.value < DAY
  {
    var s := Text.Trim(input);
    var colon := Text.IndexOf(s, ':');
    if s == "" || colon == |s| then None
    else
      var hour, minute := Decimal.ParseInt(s[..colon]), Decimal.ParseInt(s[colon + 1..]);
      if hour.None? || minute.None? || hour.value < 0 || hour.value > 23 || minute.value < 0 || minute.value > 59
      then None
      else Some(hour.value * 60 + minute.value)
  }

  /** At i is a colon between two numbers in the ranges of a clock. */
  predicate ClockAt(s: string, i: nat, h: int, m: int) {
    && i < |s| && s[i] == ':' && 0 <= h < 24 && 0 <= m < 60
    && Decimal.ParseInt(s[..i]) == Some(h) && Decimal.ParseInt(s[i + 1..]) == Some(m)
  }

  lemma NumberHasNoColon(s: string)
    requires Decimal.ParseInt(s).Some?
    ensures forall j :: 0 <= j < |s| ==> s[j] != ':'
  {
    if s[0] == '+' || s[0] == '-' { assert forall j :: 0 < j < |s| ==> s[j] == s[1..][j - 1]; }
  }

  lemma FirstColon(s: string, i: nat)
    requires i < |s| && s[i] == ':' && Decimal.ParseInt(s[..i]).Some?
    ensures Text.IndexOf(s, ':') == i
  {
    NumberHasNoColon(s[..i]);
    assert forall j :: 0 <= j < i ==> s[j] == s[..i][j];
    Text.IndexOfIs(s, ':', i);
  }

  lemma ClockParses(input: string, i: nat, h: int, m: int)
    requires ClockAt(Text.Trim(input), i, h, m)
    ensures ParseHourMinute(input) == Some(h * 60 + m)
  {
    FirstColon(Text.Trim(input), i);
  }

  lemma ParsedIsClock(input: string) returns (i: nat, h: int, m: int)
    requires ParseHourMinute(input).Some?
    ensures ClockAt(Text.Trim(input), i, h, m) && ParseHourMinute(input) == Some(h * 60 + m)
  {
    var s := Text.Trim(input);
    i := Text.IndexOf(s, ':');
    h, m := Decimal.ParseInt(s[..i]).value, Decimal.ParseInt(s[i + 1..]).value;
  }

  /** s is a time of the day: two numbers with a colon between them. */
  ghost predicate IsTime(s: string, minutes: int) {
    exists i, h, m :: ClockAt(s, i, h, m) && minutes == h * 60 + m
  }

  lemma TimeIs(s: string, minutes: int, r: Option<int>)
    requires IsTime(s, minutes)
    requires forall i, h, m :: ClockAt(s, i, h, m) ==> r == Some(h * 60 + m)
    ensures r == Some(minutes)
  {
  }

  lemma ParsedIsTime(input: string, minutes: int)
    requires ParseHourMinute(input) == Some(minutes)
    ensures IsTime(Text.Trim(input), minutes)
  {
    var i, h, m := ParsedIsClock(input);
  }

  /** Exactly what is accepted, and as what: times of the day, white space around them aside. */
  lemma ParseHourMinuteExact(input: string, minutes: int)
    ensures ParseHourMinute(input) == Some(minutes) <==> IsTime(Text.Trim(input), minutes)
  {
    if ParseHourMinute(input) == Some(minutes) {
      ParsedIsTime(input, minutes);
    } else if IsTime(Text.Trim(input), minutes) {
      forall i, h, m | ClockAt(Text.Trim(input), i, h, m) ensures ParseHourMinute(input) == Some(h * 60 + m) {
        ClockParses(input, i, h, m);
      }
      TimeIs(Text.Trim(input), minutes, ParseHourMinute(input));
    }
  }

  predicate QuietBetween(current: int, s: int, e: int) {
    if s <= e then s <= current < e else current >= s || current < e
  }

  /** `current` is the minute of the day the clock shows. */
  predicate IsInQuietHours(current: int, start: string, end: string) {
    var s, e := ParseHourMinute(start), ParseHourMinute(end);
    s.Some? && e.Some? && QuietBetween(current, s.value, e.value)
  }

  function TwoDigits(n: nat): string
    requires n < 100
  {
    [Decimal.DigitChar(n / 10), Decimal.DigitChar(n % 10)]
  }

  lemma ParseTwoDigits(n: nat)
    requires n < 100
    ensures Decimal.ParseInt(TwoDigits(n)) == Some(n)
  {
    var s := TwoDigits(n);
    assert s[..1] == [s[0]] && s[..1][..0] == "";
    assert Decimal.Value(s[..1]) == n / 10;
  }

  /** Parsing inverts zero-padded printing. */
  lemma ParsePrintedTime(hour: nat, minute: nat)
    requires hour < 24 && minute < 60
    ensures ParseHourMinute(TwoDigits(hour) + ":" + TwoDigits(minute)) == Some(hour * 60 + minute)
  {
    var s := TwoDigits(hour) + ":" + TwoDigits(minute);
    Text.TrimTrims(s);
    Text.IndexOfIs(s, ':', 2);
    assert s[..2] == TwoDigits(hour) && s[3..] == TwoDigits(minute);
    ParseTwoDigits(hour);
    ParseTwoDigits(minute);
  }

  /** How many minutes m lies ahead of s on a clock: (m - s) modulo a day, see AheadIs. */
  function Ahead(s: int, m: int): int {
    if s <= m then m - s else m - s + DAY
  }

  /** The two-branch test is membership in a cyclic interval of minutes. */
  lemma QuietBetweenIsCyclic(current: int, s: int, e: int)
    requires 0 <= current < DAY && 0 <= s < DAY && 0 <= e < DAY
    ensures QuietBetween(current, s, e) <==> Ahead(s, current) < Ahead(s, e)
  {
  }

  lemma AheadIs(s: int, m: int)
    requires 0 <= s < DAY && 0 <= m < DAY
    ensures Ahead(s, m) == (m - s) % DAY
  {
  }

  lemma QuietHoursAreCyclic(current: int, start: string, end: string)
    requires 0 <= current < DAY
    ensures var s, e := ParseHourMinute(start), ParseHourMinute(end);
            IsInQuietHours(current, start, end) <==>
              s.Some? && e.Some? && Ahead(s.value, current) < Ahead(s.value, e.value)
  {
    var s, e := ParseHourMinute(start), ParseHourMinute(end);
    if s.Some? {
      if e.Some? {
        QuietBetweenIsCyclic(current, s.value, e.value);
      }
    }
  }

  /** A window and the swapped one split the day between them; an empty one is never quiet. */
  lemma QuietHoursPartition(current: int, start: string, end: string)
    requires 0 <= current < DAY
    requires ParseHourMinute(start).Some? && ParseHourMinute(end).Some?
    ensures ParseHourMinute(start) != ParseHourMinute(end) ==>
              (IsInQuietHours(current, start, end) <==> !IsInQuietHours(current, end, start))
    ensures ParseHourMinute(start) == ParseHourMinute(end) ==> !IsInQuietHours(current, start, end)
  {
    SwapPartition(current, ParseHourMinute(start).value, ParseHourMinute(end).value);
  }

  lemma SwapPartition(current: int, s: int, e: int)
    ensures s != e ==> (QuietBetween(current, s, e) <==> !QuietBetween(current, e, s))
    ensures s == e ==> !QuietBetween(current, s, e)
  {
  }

  predicate Between(lo: int, m: int, hi: int) {
    lo <= m < hi
  }

  function Range(lo: int, hi: int): set<int> {
    set m | lo <= m < hi && Between(lo, m, hi)
  }

  lemma {:induction false} RangeSize(lo: int, hi: int)
    requires lo <= hi
    ensures |Range(lo, hi)| == hi - lo
    decreases hi - lo
  {
    if lo < hi {
      RangeSize(lo, hi - 1);
      assert Range(lo, hi) == Range(lo, hi - 1) + {hi - 1};
    } else {
      assert Range(lo, hi) == {};
    }
  }

  lemma QuietBetweenSize(s: int, e: int)
    requires 0 <= s < DAY && 0 <= e < DAY
    ensures |set m | 0 <= m < DAY && QuietBetween(m, s, e)| == Ahead(s, e)
  {
    var quiet := set m | 0 <= m < DAY && QuietBetween(m, s, e);
    if s <= e {
      RangeSize(s, e);
      assert quiet == Range(s, e);
    } else {
      RangeSize(s, DAY);
      RangeSize(0, e);
      assert quiet == Range(s, DAY) + Range(0, e);
      assert Range(s, DAY) !! Range(0, e);
    }
  }

  /** A day has as many quiet minutes as lie between start and end, around midnight if need be. */
  lemma QuietMinutes(start: string, end: string)
    requires ParseHourMinute(start).Some? && ParseHourMinute(end).Some?
    ensures |set m | 0 <= m < DAY && IsInQuietHours(m, start, end)|
            == Ahead(ParseHourMinute(start).value, ParseHourMinute(end).value)
  {
    var s, e := ParseHourMinute(start).value, ParseHourMinute(end).value;
    QuietBetweenSize(s, e);
    assert (set m | 0 <= m < DAY && IsInQuietHours(m, start, end)) == (set m | 0 <= m < DAY && QuietBetween(m, s, e));
  }

  // ---- The filter chain ----

  datatype Config = Config(
    ignoredIPs: map<string, seq<string>>,
    minSeverity: Events.Severity,
    quietStart: string,
    quietEnd: string,
    dedupEnabled: bool,
    dedupWindow: int)

  predicate PassesSeverity(kind: string, minSeverity: Events.Severity) {
    Events.SeverityRank(Events.EventSeverity(kind)) >= Events.SeverityRank(minSeverity)
  }

  /** What each minimum severity lets through. */
  lemma PassesSeverityIs(kind: string)
    ensures PassesSeverity(kind, Events.Info)
    ensures PassesSeverity(kind, Events.Warning) <==> Text.Trim(kind) in Events.ALERTS || Text.Trim(kind) in Events.WARNINGS
    ensures PassesSeverity(kind, Events.Alert) <==> Text.Trim(kind) in Events.ALERTS
  {
    Events.SeverityIs(kind);
  }

  predicate Contains(values: seq<string>, value: string) {
    exists i :: 0 <= i < |values| && Text.Trim(values[i]) == value
  }

  predicate IgnoredIP(config: Config, event: Event) {
    var ip := SourceIP(event);
    ip != "" && event.kind in config.ignoredIPs && Contains(config.ignoredIPs[event.kind], ip)
  }

  /** The filters before the deduplicator, `minute` being the minute of the day. */
  predicate Passes(config: Config, event: Event, minute: int) {
    !IgnoredIP(config, event) && PassesSeverity(event.kind, config.minSeverity)
    && !IsInQuietHours(minute, config.quietStart, config.quietEnd)
  }

  /** Exactly which addresses are ignored: those that some entry of the type's list is, white space
      around the entry aside. */
  lemma IgnoredIPIs(config: Config, event: Event)
    ensures IgnoredIP(config, event) <==>
              SourceIP(event) != "" && event.kind in config.ignoredIPs
              && exists v :: v in config.ignoredIPs[event.kind] && Text.Trim(v) == SourceIP(event)
  {
    if event.kind in config.ignoredIPs {
      var values := config.ignoredIPs[event.kind];
      if v :| v in values && Text.Trim(v) == SourceIP(event) {
        var i :| 0 <= i < |values| && values[i] == v;
        assert Text.Trim(values[i]) == SourceIP(event);
      }
    }
  }

  /** Which events get past: those that no list names, that are severe enough and do not fall into
      the cyclic interval of quiet hours. */
  lemma PassesExactly(config: Config, event: Event, minute: int)
    requires 0 <= minute < DAY
    ensures Passes(config, event, minute) <==>
              && !(SourceIP(event) != "" && event.kind in config.ignoredIPs
                   && exists v :: v in config.ignoredIPs[event.kind] && Text.Trim(v) == SourceIP(event))
              && (config.minSeverity == Events.Warning ==> Text.Trim(event.kind) in Events.ALERTS + Events.WARNINGS)
              && (config.minSeverity == Events.Alert ==> Text.Trim(event.kind) in Events.ALERTS)
              && !(ParseHourMinute(config.quietStart).Some? && ParseHourMinute(config.quietEnd).Some?
                   && Ahead(ParseHourMinute(config.quietStart).value, minute)
                      < Ahead(ParseHourMinute(config.quietStart).value, ParseHourMinute(config.quietEnd).value))
  {
    IgnoredIPIs(config, event);
    PassesSeverityIs(event.kind);
    QuietHoursAreCyclic(minute, config.quietStart, config.quietEnd);
  }

  /** shouldNotify, on the filters and the deduplicator it is given; dedup is asked last. */
  method ShouldNotify(config: Config, dedup: Dedup.Deduplicator, event: Event, minute: int, now: int)
    returns (notify: bool)
    requires dedup.Valid() && dedup.enabled == config.dedupEnabled && dedup.window == config.dedupWindow
    requires dedup.UpTo(now)
    modifies dedup
    ensures dedup.Valid() && dedup.UpTo(now)
    ensures (notify, dedup.seen) == Decide(Gate(config), Admission(config), old(dedup.seen), Item(event, minute, now))
    ensures !Passes(config, event, minute) ==> dedup.calls == old(dedup.calls)
    ensures notify ==>
              && (SourceIP(event) != "" && event.kind in config.ignoredIPs ==>
                    forall v :: v in config.ignoredIPs[event.kind] ==> Text.Trim(v) != SourceIP(event))
              && (config.minSeverity == Events.Warning ==> Text.Trim(event.kind) in Events.ALERTS + Events.WARNINGS)
              && (config.minSeverity == Events.Alert ==> Text.Trim(event.kind) in Events.ALERTS)
    ensures notify == (Passes(config, event, minute) &&
                       (config.dedupEnabled ==> Dedup.Fresh(config.dedupWindow, old(dedup.calls), Dedup.Key(event), now)))
  {
    var ip := FindSourceIP(event);
    if event.kind in config.ignoredIPs && ip != "" {
      var ignored := config.ignoredIPs[event.kind];
      for i := 0 to |ignored|
        invariant forall j :: 0 <= j < i ==> Text.Trim(ignored[j]) != ip
      {
        if Text.Trim(ignored[i]) == ip {
          return false;
        }
      }
    }
    if !PassesSeverity(event.kind, config.minSeverity) {
      return false;
    }
    if IsInQuietHours(minute, config.quietStart, config.quietEnd) {
      return false;
    }
    PassesSeverityIs(event.kind);
    if config.dedupEnabled {
      Dedup.EvictionRefines(dedup.window, dedup.seen, dedup.calls, Dedup.Key(event), now);
    }
    notify := dedup.ShouldNotify(event, now);
  }

  // ---- Streams of events ----

  /** An event with the minute of the day and the clock reading at which it is looked at. */
  datatype Item = Item(event: Event, minute: int, now: int)

  /** Whether an item gets past the filters before the deduplicator. */
  function Gate(config: Config): Item -> bool {
    (item: Item) => Passes(config, item.event, item.minute)
  }

  /** What the deduplicator answers to an item, and its map afterwards. */
  function Admission(config: Config): (map<string, int>, Item) -> (bool, map<string, int>) {
    (seen: map<string, int>, item: Item) =>
      if !config.dedupEnabled then (true, seen)
      else (Dedup.Admits(config.dedupWindow, seen, Dedup.Key(item.event), item.now),
            Dedup.Purged(config.dedupWindow, seen, Dedup.Key(item.event), item.now))
  }

  function Decide<S>(gate: Item -> bool, admit: (S, Item) -> (bool, S), seen: S, item: Item): (bool, S) {
    if gate(item) then admit(seen, item) else (false, seen)
  }

  /** The decisions on a stream. */
  function Decisions<S>(gate: Item -> bool, admit: (S, Item) -> (bool, S), seen: S, items: seq<Item>): (r: seq<bool>)
    ensures |r| == |items|
    decreases |items|
  {
    if |items| == 0 then []
    else
      var first := Decide(gate, admit, seen, items[0]);
      [first.0] + Decisions(gate, admit, first.1, items[1..])
  }

  /** The deduplicator's map after a stream. */
  function SeenAfter<S>(gate: Item -> bool, admit: (S, Item) -> (bool, S), seen: S, items: seq<Item>): S
    decreases |items|
  {
    if |items| == 0 then seen else SeenAfter(gate, admit, Decide(gate, admit, seen, items[0]).1, items[1..])
  }

  /** The items that get past the gate. */
  function Kept(gate: Item -> bool, items: seq<Item>): seq<Item> {
    if |items| == 0 then [] else (if gate(items[0]) then [items[0]] else []) + Kept(gate, items[1..])
  }

  /** The decisions on the items that get past the gate. */
  function KeptDecisions(gate: Item -> bool, items: seq<Item>, decisions: seq<bool>): seq<bool>
    requires |decisions| == |items|
  {
    if |items| == 0 then []
    else (if gate(items[0]) then [decisions[0]] else []) + KeptDecisions(gate, items[1..], decisions[1..])
  }

  /** Blocked events are as good as absent: without them the other decisions and the map after
      the stream are the same. */
  lemma {:induction false} BlockedDoNotInterfere<S>(gate: Item -> bool, admit: (S, Item) -> (bool, S), seen: S, items: seq<Item>)
    ensures KeptDecisions(gate, items, Decisions(gate, admit, seen, items)) == Decisions(gate, admit, seen, Kept(gate, items))
    ensures SeenAfter(gate, admit, seen, items) == SeenAfter(gate, admit, seen, Kept(gate, items))
    decreases |items|
  {
    if |items| > 0 {
      var first := Decide(gate, admit, seen, items[0]);
      BlockedDoNotInterfere(gate, admit, first.1, items[1..]);
      assert Decisions(gate, admit, seen, items)[1..] == Decisions(gate, admit, first.1, items[1..]);
      if gate(items[0]) {
        assert Kept(gate, items)[1..] == Kept(gate, items[1..]);
      } else {
        assert Kept(gate, items) == Kept(gate, items[1..]);
      }
    }
  }

  lemma {:induction false} KeptAppend(gate: Item -> bool, a: seq<Item>, b: seq<Item>)
    ensures Kept(gate, a + b) == Kept(gate, a) + Kept(gate, b)
  {
    if |a| == 0 {
      assert a + b == b;
    } else {
      assert (a + b)[1..] == a[1..] + b;
      KeptAppend(gate, a[1..], b);
      var first := if gate(a[0]) then [a[0]] else [];
      assert Kept(gate, a) == first + Kept(gate, a[1..]);
    }
  }

  /** Inserting or deleting one blocked event anywhere in a stream changes no decision on any
      event that passes the filters, nor the deduplicator's map. */
  lemma BlockedIsInvisible(config: Config, seen: map<string, int>, before: seq<Item>, item: Item, after: seq<Item>)
    requires !Passes(config, item.event, item.minute)
    ensures var gate, admit := Gate(config), Admission(config);
            && KeptDecisions(gate, before + [item] + after, Decisions(gate, admit, seen, before + [item] + after))
               == KeptDecisions(gate, before + after, Decisions(gate, admit, seen, before + after))
            && SeenAfter(gate, admit, seen, before + [item] + after) == SeenAfter(gate, admit, seen, before + after)
  {
    var gate, admit := Gate(config), Admission(config);
    assert !gate(item);
    ClosedIsInvisible(gate, admit, seen, before, item, after);
  }

  lemma ClosedIsInvisible<S>(gate: Item -> bool, admit: (S, Item) -> (bool, S), seen: S,
                             before: seq<Item>, item: Item, after: seq<Item>)
    requires !gate(item)
    ensures KeptDecisions(gate, before + [item] + after, Decisions(gate, admit, seen, before + [item] + after))
            == KeptDecisions(gate, before + after, Decisions(gate, admit, seen, before + after))
    ensures SeenAfter(gate, admit, seen, before + [item] + after) == SeenAfter(gate, admit, seen, before + after)
  {
    KeptAppend(gate, before, after);
    KeptAppend(gate, before + [item], after);
    KeptAppend(gate, before, [item]);
    assert [item][1..] == [] && Kept(gate, [item]) == [];
    assert Kept(gate, before) + [] == Kept(gate, before);
    assert Kept(gate, before + [item] + after) == Kept(gate, before + after);
    BlockedDoNotInterfere(gate, admit, seen, before + [item] + after);
    BlockedDoNotInterfere(gate, admit, seen, before + after);
  }

}
