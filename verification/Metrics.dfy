/** Counters and their text form (internal/notifications/metrics.go). */
module Metrics {

  import opened Wrappers
  import Decimal
  import Text

  const MODULUS: int := 0x1_0000_0000_0000_0000

  /** Addition of 64-bit integers wraps around. */
  function Wrap(n: int): int {
    (n - Decimal.MIN) % MODULUS + Decimal.MIN
  }

  /** The one 64-bit number that differs from n by a multiple of 2^64. */
  lemma WrapIs(n: int)
    ensures -0x8000_0000_0000_0000 <= Wrap(n) < 0x8000_0000_0000_0000 && (n - Wrap(n)) % 0x1_0000_0000_0000_0000 == 0
    ensures -0x8000_0000_0000_0000 <= n < 0x8000_0000_0000_0000 ==> Wrap(n) == n
  {
    var x := n - Decimal.MIN;
    assert n - Wrap(n) == MODULUS * (x / MODULUS);
    ModUnique(n - Wrap(n), x / MODULUS, 0);
  }

  function Get(counters: map<string, int>, name: string): int {
    if name in counters then counters[name] else 0
  }

  function TypeAndName(name: string): string {
    name + " counter\n" + name + " "
  }

  function ValueLine(value: int): string {
    Decimal.Print(value) + "\n"
  }

  const TYPE_COMMENT := "# TYPE "

  /** One entry of the rendering: a type line and a value line. */
  function Entry(name: string, value: int): string {
    TYPE_COMMENT + (TypeAndName(name) + ValueLine(value))
  }

  /** As it is written. */
  lemma EntryIs(name: string, value: int)
    ensures Entry(name, value) == "# TYPE " + name + " counter\n" + name + " " + Decimal.Print(value) + "\n"
  {
    var a, b, c := "# TYPE ", name + " counter\n" + name + " ", Decimal.Print(value) + "\n";
    assert a + (b + c) == "# TYPE " + name + " counter\n" + name + " " + Decimal.Print(value) + "\n";
  }

  function Flatten(parts: seq<string>): string {
    if |parts| == 0 then "" else Flatten(parts[..|parts| - 1]) + parts[|parts| - 1]
  }

  function EntryList(names: seq<string>, counters: map<string, int>): (r: seq<string>)
    ensures |r| == |names|
  {
    seq(|names|, i requires 0 <= i < |names| => Entry(names[i], Get(counters, names[i])))
  }

  function Entries(names: seq<string>, counters: map<string, int>): string {
    Flatten(EntryList(names, counters))
  }

  /** Exactly the counters, in ascending order of names. */
  ghost predicate Canonical(names: seq<string>, counters: map<string, int>) {
    Text.Ascending(names) && Text.Elements(names) == counters.Keys && forall i :: 0 <= i < |names| ==> names[i] in counters
  }

  /** The text form: the entries of all counters in ascending order of names. */
  ghost function Rendering(counters: map<string, int>): string {
    Entries(Text.Sorted(counters.Keys), counters)
  }

  class Metrics {
    var counters: map<string, int>

    /** The increments so far, in the order in which they got the lock. */
    ghost var incs: seq<(string, int)>

    /** Every counter is what its increments make it. */
    ghost predicate Valid()
      reads this
    {
      forall name :: Get(counters, name) == Get(IncAll(incs), name)
    }

    constructor ()
      ensures Valid() && incs == []
      ensures counters.Keys == {"webhook_requests_total", "webhook_events_received", "notifications_sent",
                                "notifications_failed", "events_skipped"}
      ensures forall name :: name in counters ==> counters[name] == 0
    {
      counters := map["webhook_requests_total" := 0, "webhook_events_received" := 0, "notifications_sent" := 0,
                      "notifications_failed" := 0, "events_skipped" := 0];
      incs := [];
    }

    method Inc(name: string, delta: int)
      requires Valid()
      modifies this
      ensures Valid() && incs == old(incs) + [(name, delta)]
      ensures counters == old(counters)[name := Wrap(Get(old(counters), name) + delta)]
    {
      var current := if name in counters then counters[name] else 0;
      counters := counters[name := Wrap(current + delta)];
      IncAllAppend(incs, name, delta);
      assert Get(old(counters), name) == Get(IncAll(old(incs)), name);
      incs := incs + [(name, delta)];
      forall n ensures Get(counters, n) == Get(IncAll(incs), n) {
        assert Get(old(counters), n) == Get(IncAll(old(incs)), n);
      }
    }

    method RenderPrometheus() returns (text: string)
      ensures text == Rendering(counters)
    {
      var collected: seq<string> := [];
      var rest := counters.Keys;
      while rest != {}
        invariant rest <= counters.Keys
        invariant Text.Elements(collected) == counters.Keys - rest && Distinct(collected)
        decreases |rest|
      {
        var name :| name in rest;
        ElementsAppend(collected, name);
        DistinctAppend(collected, name);
        collected := collected + [name];
        assert counters.Keys - (rest - {name}) == counters.Keys - rest + {name};
        rest := rest - {name};
      }
      var sorted := SortStrings(collected);
      assert forall i :: 0 <= i < |sorted| ==> sorted[i] in Text.Elements(sorted);
      text := "";
      for i := 0 to |sorted|
        invariant text == Entries(sorted[..i], counters)
      {
        OneMoreEntry(sorted, i, counters);
        text := text + Entry(sorted[i], counters[sorted[i]]);
      }
      assert sorted[..|sorted|] == sorted;
      RenderingIsCanonical(sorted, counters);
    }
  }

  lemma ElementsAppend(s: seq<string>, x: string)
    ensures Text.Elements(s + [x]) == Text.Elements(s) + {x}
  {
  }

  /** sort.Strings on names of which no two are the same, by insertion. */
  method SortStrings(names: seq<string>) returns (sorted: seq<string>)
    requires Distinct(names)
    ensures Text.Ascending(sorted) && Text.Elements(sorted) == Text.Elements(names) && |sorted| == |names|
  {
    sorted := [];
    for i := 0 to |names|
      invariant Text.Ascending(sorted) && Text.Elements(sorted) == Text.Elements(names[..i]) && |sorted| == i
    {
      assert names[..i + 1] == names[..i] + [names[i]];
      ElementsAppend(names[..i], names[i]);
      assert names[i] !in Text.Elements(sorted);
      Text.InsertAscending(names[i], sorted);
      Text.InsertElements(names[i], sorted);
      sorted := Text.Insert(names[i], sorted);
    }
    assert names[..|names|] == names;
  }

  predicate Distinct(names: seq<string>) {
    forall i, j :: 0 <= i < j < |names| ==> names[i] != names[j]
  }

  lemma DistinctAppend(names: seq<string>, name: string)
    requires Distinct(names) && name !in Text.Elements(names)
    ensures Distinct(names + [name])
  {
    assert forall i :: 0 <= i < |names| ==> names[i] in Text.Elements(names);
  }

  /** The text does not depend on the order in which the map was visited. */
  lemma RenderingIsCanonical(names: seq<string>, counters: map<string, int>)
    requires Canonical(names, counters)
    ensures Entries(names, counters) == Rendering(counters)
  {
    Text.AscendingUnique(names, Text.Sorted(counters.Keys));
  }

  lemma OneMoreEntry(names: seq<string>, i: nat, counters: map<string, int>)
    requires i < |names|
    ensures Entries(names[..i + 1], counters) == Entries(names[..i], counters) + Entry(names[i], Get(counters, names[i]))
  {
    var parts := EntryList(names[..i + 1], counters);
    assert parts[..i] == EntryList(names[..i], counters);
  }

  // ---- Reading the text back ----

  datatype Parsed = Parsed(name: string, value: int, rest: string)

  function Strip(prefix: string, s: string): (r: Option<string>)
    ensures r.Some? ==> |r.value| + |prefix| == |s|
  {
    if prefix <= s then Some(s[|prefix|..]) else None
  }

  function ParseValue(name: string, s: string): (r: Option<Parsed>)
    ensures r.Some? ==> |r.value.rest| < |s|
  {
    var end := Text.IndexOf(s, '\n');
    if end == |s| then None
    else match Decimal.ParseInt(s[..end])
      case None => None
      case Some(value) => Some(Parsed(name, value, s[end + 1..]))
  }

  /** Reads one entry: both lines must be there and name the same counter. */
  function ParseEntry(text: string): (r: Option<Parsed>)
    ensures r.Some? ==> |r.value.rest| < |text|
  {
    match Strip(TYPE_COMMENT, text)
    case None => None
    case Some(t) =>
      var name := t[..Text.IndexOf(t, ' ')];
      match Strip(TypeAndName(name), t)
      case None => None
      case Some(u) => ParseValue(name, u)
  }

  function Parse(text: string): Option<seq<(string, int)>>
    decreases |text|
  {
    if text == "" then Some([])
    else match ParseEntry(text)
      case None => None
      case Some(entry) =>
        match Parse(entry.rest)
        case None => None
        case Some(others) => Some([(entry.name, entry.value)] + others)
  }

  predicate PlainName(name: string) {
    forall i :: 0 <= i < |name| ==> !Text.IsSpace(name[i])
  }

  predicate InRange(value: int) {
    Decimal.MIN <= value <= Decimal.MAX
  }

  lemma StripAppend(prefix: string, s: string)
    ensures Strip(prefix, prefix + s) == Some(s)
  {
  }

  lemma NameInFront(name: string, rest: string)
    requires PlainName(name)
    ensures var t := TypeAndName(name) + rest; t[..Text.IndexOf(t, ' ')] == name
  {
    var t := TypeAndName(name) + rest;
    assert forall i :: 0 <= i < |name| ==> t[i] == name[i];
    assert t[|name|] == ' ';
    Text.IndexOfIs(t, ' ', |name|);
  }

  lemma ValueReadsBack(name: string, value: int, rest: string)
    requires InRange(value)
    ensures ParseValue(name, ValueLine(value) + rest) == Some(Parsed(name, value, rest))
  {
    var s, n := ValueLine(value) + rest, |Decimal.Print(value)|;
    Decimal.PrintPlain(value);
    assert forall i :: 0 <= i < n ==> s[i] == Decimal.Print(value)[i];
    assert s[n] == '\n';
    Text.IndexOfIs(s, '\n', n);
    assert s[..n] == Decimal.Print(value) && s[n + 1..] == rest;
    Decimal.ParsePrint(value);
  }

  lemma ParseEntryFrom(text: string, t: string, name: string, u: string)
    requires Strip(TYPE_COMMENT, text) == Some(t) && t[..Text.IndexOf(t, ' ')] == name && Strip(TypeAndName(name), t) == Some(u)
    ensures ParseEntry(text) == ParseValue(name, u)
  {
  }

  lemma EntryThen(name: string, value: int, rest: string)
    ensures Entry(name, value) + rest == TYPE_COMMENT + (TypeAndName(name) + (ValueLine(value) + rest))
  {
    Regroup(TYPE_COMMENT, TypeAndName(name), ValueLine(value), rest);
  }

  lemma Regroup(a: string, b: string, c: string, d: string)
    ensures a + (b + c) + d == a + (b + (c + d))
  {
  }

  lemma ParseOneEntry(name: string, value: int, rest: string)
    requires PlainName(name) && InRange(value)
    ensures ParseEntry(Entry(name, value) + rest) == Some(Parsed(name, value, rest))
  {
    var u := ValueLine(value) + rest;
    var t := TypeAndName(name) + u;
    EntryThen(name, value, rest);
    StripAppend(TYPE_COMMENT, t);
    NameInFront(name, u);
    StripAppend(TypeAndName(name), u);
    ParseEntryFrom(TYPE_COMMENT + t, t, name, u);
    ValueReadsBack(name, value, rest);
  }

  function Pairs(names: seq<string>, counters: map<string, int>): (r: seq<(string, int)>)
    ensures |r| == |names|
  {
    seq(|names|, i requires 0 <= i < |names| => (names[i], Get(counters, names[i])))
  }

  lemma {:induction false} FlattenFront(parts: seq<string>)
    requires |parts| > 0
    ensures Flatten(parts) == parts[0] + Flatten(parts[1..])
  {
    var n := |parts| - 1;
    if n > 0 {
      FlattenFront(parts[..n]);
      assert parts[..n][1..] == parts[1..][..n - 1];
    }
  }

  /** An entry with its value can be read. */
  predicate Readable(name: string, value: int) {
    PlainName(name) && InRange(value)
  }

  lemma EntriesFront(names: seq<string>, counters: map<string, int>)
    requires |names| > 0
    ensures Entries(names, counters) == Entry(names[0], Get(counters, names[0])) + Entries(names[1..], counters)
  {
    var parts := EntryList(names, counters);
    FlattenFront(parts);
    assert parts[1..] == EntryList(names[1..], counters);
    assert parts[0] == Entry(names[0], Get(counters, names[0]));
  }

  lemma PairsFront(names: seq<string>, counters: map<string, int>)
    requires |names| > 0
    ensures Pairs(names, counters) == [(names[0], Get(counters, names[0]))] + Pairs(names[1..], counters)
  {
  }

  /** `text` is the rendering of some names, and parses to their pairs. */
  ghost predicate ReadsBack(text: string, names: seq<string>, counters: map<string, int>) {
    text == Entries(names, counters) && Parse(text) == Some(Pairs(names, counters))
  }

  lemma ReadsBackCons(text: string, names: seq<string>, counters: map<string, int>)
    requires |names| > 0 && Readable(names[0], Get(counters, names[0]))
    requires ReadsBack(text, names[1..], counters)
    ensures ReadsBack(Entry(names[0], Get(counters, names[0])) + text, names, counters)
  {
    var value := Get(counters, names[0]);
    EntriesFront(names, counters);
    PairsFront(names, counters);
    ParseOneEntry(names[0], value, text);
    assert Parse(Entry(names[0], value) + text) == Some([(names[0], value)] + Pairs(names[1..], counters));
  }

  lemma {:induction false} ParseEntries(names: seq<string>, counters: map<string, int>)
    requires forall i :: 0 <= i < |names| ==> Readable(names[i], Get(counters, names[i]))
    ensures ReadsBack(Entries(names, counters), names, counters)
  {
    if |names| > 0 {
      ParseEntries(names[1..], counters);
      ReadsBackCons(Entries(names[1..], counters), names, counters);
      EntriesFront(names, counters);
    }
  }

  /** The counters that a list of pairs sets. */
  function FromPairs(pairs: seq<(string, int)>): map<string, int> {
    if |pairs| == 0 then map[]
    else
      var n := |pairs| - 1;
      FromPairs(pairs[..n])[pairs[n].0 := pairs[n].1]
  }

  lemma {:induction false} FromPairsIs(names: seq<string>, counters: map<string, int>)
    ensures FromPairs(Pairs(names, counters)) == map name | name in Text.Elements(names) :: Get(counters, name)
  {
    if |names| > 0 {
      var n := |names| - 1;
      FromPairsIs(names[..n], counters);
      assert Pairs(names, counters)[..n] == Pairs(names[..n], counters);
      assert names == names[..n] + [names[n]];
    }
  }

  /** Parsing a rendering gives the counters back, each once, in ascending order of names. */
  lemma RenderingReadsBack(counters: map<string, int>)
    requires forall name :: name in counters ==> Readable(name, counters[name])
    ensures var names, parsed := Text.Sorted(counters.Keys), Parse(Rendering(counters));
            && parsed.Some? && FromPairs(parsed.value) == counters
            && |parsed.value| == |names| && forall i :: 0 <= i < |names| ==> parsed.value[i].0 == names[i]
  {
    var names := Text.Sorted(counters.Keys);
    forall i | 0 <= i < |names| ensures names[i] in counters { assert names[i] in Text.Elements(names); }
    ParseEntries(names, counters);
    FromPairsIs(names, counters);
  }

  // ---- What a counter counts ----

  function IncAll(incs: seq<(string, int)>): map<string, int> {
    if |incs| == 0 then map[]
    else
      var n := |incs| - 1;
      var before := IncAll(incs[..n]);
      before[incs[n].0 := Wrap(Get(before, incs[n].0) + incs[n].1)]
  }

  lemma IncAllAppend(incs: seq<(string, int)>, name: string, delta: int)
    ensures IncAll(incs + [(name, delta)]) == IncAll(incs)[name := Wrap(Get(IncAll(incs), name) + delta)]
  {
    assert (incs + [(name, delta)])[..|incs|] == incs;
  }

  function Total(incs: seq<(string, int)>, name: string): int {
    if |incs| == 0 then 0
    else
      var n := |incs| - 1;
      Total(incs[..n], name) + if incs[n].0 == name then incs[n].1 else 0
  }

  lemma {:induction false} TotalOfSum(a: seq<(string, int)>, b: seq<(string, int)>, name: string)
    ensures Total(a + b, name) == Total(a, name) + Total(b, name)
  {
    if |b| == 0 {
      assert a + b == a;
    } else {
      TotalOfSum(a, b[..|b| - 1], name);
      assert (a + b)[..|a + b| - 1] == a + b[..|b| - 1];
    }
  }

  lemma TotalOfOne(x: (string, int), name: string)
    ensures Total([x], name) == if x.0 == name then x.1 else 0
  {
    assert [x][..0] == [];
    assert Total([], name) == 0;
  }

  /** Increments one after another add up. */
  lemma TotalAppend(a: seq<(string, int)>, b: seq<(string, int)>)
    ensures forall name :: Total(a + b, name) == Total(a, name) + Total(b, name)
  {
    forall name ensures Total(a + b, name) == Total(a, name) + Total(b, name) { TotalOfSum(a, b, name); }
  }

  lemma WrapOnce(a: int, b: int)
    ensures Wrap(Wrap(a) + b) == Wrap(a + b)
  {
    var x := a - Decimal.MIN;
    var q := x / MODULUS;
    assert Wrap(a) + b - Decimal.MIN == (a + b - Decimal.MIN) - MODULUS * q;
    ModShift(a + b - Decimal.MIN, q);
  }

  lemma ModShift(n: int, q: int)
    ensures (n - MODULUS * q) % MODULUS == n % MODULUS
  {
    var k := n / MODULUS;
    assert n - MODULUS * q == MODULUS * (k - q) + n % MODULUS;
    ModUnique(n - MODULUS * q, k - q, n % MODULUS);
  }

  lemma ModUnique(n: int, k: int, r: int)
    requires n == MODULUS * k + r && 0 <= r < MODULUS
    ensures n % MODULUS == r
  {
  }

  /** In any order of increments a counter is the sum of its own, modulo 2^64, so the sum itself
      while that fits 64 bits. */
  lemma {:induction false} CounterIsTotal(incs: seq<(string, int)>, name: string)
    ensures Get(IncAll(incs), name) == Wrap(Total(incs, name))
    ensures InRange(Total(incs, name)) ==> Get(IncAll(incs), name) == Total(incs, name)
  {
    if |incs| > 0 {
      var n := |incs| - 1;
      CounterIsTotal(incs[..n], name);
      WrapOnce(Total(incs[..n], name), incs[n].1);
    }
  }

}
