/** Messages (internal/notifications/formatter.go): field selection, line by line markup, and
    what a reader of the markup gets out of it. */
module Formatter {

  import opened Wrappers
  import opened Webhook
  import opened Markup
  import Decimal
  import Events
  import I18n
  import Text

  datatype Field = Field(name: string, value: string)

  // ---- Lists of strings ----

  function Join(parts: seq<string>, separator: string): string {
    if |parts| == 0 then ""
    else if |parts| == 1 then parts[0]
    else Join(parts[..|parts| - 1], separator) + separator + parts[|parts| - 1]
  }

  lemma JoinIs(parts: seq<string>, part: string, separator: string)
    ensures Join([], separator) == "" && Join([part], separator) == part
    ensures |parts| > 0 ==> Join(parts + [part], separator) == Join(parts, separator) + separator + part
  {
    assert (parts + [part])[..|parts|] == parts;
  }

  // ---- Values ----

  function PrintBool(b: bool): string {
    if b then "true" else "false"
  }

  /** valueToString */
  function ValueText(value: Json): string
    decreases value, 0
  {
    match value
    case String(s) => if Text.Trim(s) == "" then "-" else s
    case Array(items) => Join(ValueTexts(items), ", ")
    case Null => "<nil>"
    case Bool(b) => PrintBool(b)
    case Number(printed) => printed
    case Object(printed) => printed
  }

  function ValueTexts(items: seq<Json>): (r: seq<string>)
    ensures |r| == |items|
    decreases items, 0
  {
    if |items| == 0 then [] else ValueTexts(items[..|items| - 1]) + [ValueText(items[|items| - 1])]
  }

  /** valueToString, with its loop over the items of a list. */
  method ValueToString(value: Json) returns (text: string)
    ensures text == ValueText(value)
    decreases value
  {
    match value
    case String(s) => text := if Text.Trim(s) == "" then "-" else s;
    case Array(items) =>
      var parts: seq<string> := [];
      for i := 0 to |items|
        invariant parts == ValueTexts(items[..i])
      {
        var part := ValueToString(items[i]);
        assert items[..i + 1][..i] == items[..i];
        parts := parts + [part];
      }
      assert items[..|items|] == items;
      text := Join(parts, ", ");
    case Null => text := "<nil>";
    case Bool(b) => text := PrintBool(b);
    case Number(printed) => text := printed;
    case Object(printed) => text := printed;
  }

  // ---- Fields ----

  predicate Present(data: map<string, Json>, key: string) {
    key in data && !data[key].Null?
  }

  /** The fields present under the given keys, in the order of the keys, each once. */
  function Picked(data: map<string, Json>, keys: seq<string>): seq<Field> {
    if |keys| == 0 then []
    else
      var n := |keys| - 1;
      Picked(data, keys[..n]) +
      (if keys[n] in keys[..n] || !Present(data, keys[n]) then [] else [Field(keys[n], ValueText(data[keys[n]]))])
  }

  /** pickFields, with its set of keys seen. */
  method PickFields(data: map<string, Json>, keys: seq<string>) returns (fields: seq<Field>)
    ensures fields == Picked(data, keys)
  {
    fields := [];
    var seen: set<string> := {};
    for i := 0 to |keys|
      invariant seen == set k | k in keys[..i]
      invariant fields == Picked(data, keys[..i])
    {
      assert keys[..i + 1][..i] == keys[..i];
      if keys[i] !in seen {
        seen := seen + {keys[i]};
        if keys[i] in data && !data[keys[i]].Null? {
          var text := ValueToString(data[keys[i]]);
          fields := fields + [Field(keys[i], text)];
        }
      }
    }
    assert keys[..|keys|] == keys;
  }

  /** A picked field is the text of a present key of the list. */
  lemma {:induction false} PickedAreFields(data: map<string, Json>, keys: seq<string>, f: Field)
    requires f in Picked(data, keys)
    ensures f.name in keys && Present(data, f.name) && f.value == ValueText(data[f.name])
  {
    var n := |keys| - 1;
    if f in Picked(data, keys[..n]) {
      PickedAreFields(data, keys[..n], f);
    }
  }

  /** Every present key of the list is picked. */
  lemma {:induction false} PickedMissNone(data: map<string, Json>, keys: seq<string>, k: string)
    requires k in keys && Present(data, k)
    ensures Field(k, ValueText(data[k])) in Picked(data, keys)
  {
    var n := |keys| - 1;
    if k in keys[..n] {
      PickedMissNone(data, keys[..n], k);
    }
  }

  /** No key is picked twice. */
  lemma {:induction false} PickedOnce(data: map<string, Json>, keys: seq<string>, i: nat, j: nat)
    requires i < j < |Picked(data, keys)|
    ensures Picked(data, keys)[i].name != Picked(data, keys)[j].name
  {
    var n := |keys| - 1;
    var before := Picked(data, keys[..n]);
    if j < |before| {
      PickedOnce(data, keys[..n], i, j);
    } else {
      assert Picked(data, keys)[i] == before[i] && before[i] in before;
      PickedAreFields(data, keys[..n], before[i]);
    }
  }

  const AUTH_TAIL := ["spanId", "listenerId", "localPort", "remoteIp", "remotePort"]

  /** The keys shown for a type; other types show their whole data. */
  function FieldKeys(kind: string): Option<seq<string>> {
    match kind
    case "auth.success" => Some(["accountName", "accountId"] + AUTH_TAIL)
    case "auth.failed" => Some(["accountName", "id"] + AUTH_TAIL)
    case "auth.error" => Some(["details", "error"] + AUTH_TAIL)
    case "delivery.delivered" =>
      Some(["from", "to", "hostname", "code", "details", "size", "elapsed", "queueName", "spanId", "total"])
    case "delivery.completed" => Some(["from", "to", "size", "elapsed", "queueName", "spanId", "total"])
    case "delivery.failed" => Some(["error", "details", "from", "to", "recipient", "remoteIp", "spanId", "messageId"])
    case "security.ip-blocked" => Some(["listenerId", "localPort", "remoteIp", "ip", "source_ip", "remotePort"])
    case "security.abuse-ban" => Some(["reason", "details", "accountName", "remoteIp", "ip", "source_ip"])
    case "security.authentication-ban" => Some(["reason", "details", "accountName", "remoteIp", "ip", "source_ip"])
    case "server.startup" => Some(["version"])
    case "server.startup-error" => Some(["error", "details", "message"])
    case _ => None
  }

  /** eventFields; `marshalled` is the indented JSON text of the event's data. */
  function EventFields(event: Event, marshalled: string): seq<Field> {
    match FieldKeys(event.kind)
    case Some(keys) => Picked(event.data, keys)
    case None => if marshalled == "" || marshalled == "{}" then [] else [Field("data", marshalled)]
  }

  /** The fields shown: all of them, or three in a short notification. */
  function Shown(event: Event, short: bool, marshalled: string): seq<Field> {
    var fields := EventFields(event, marshalled);
    if short && |fields| > 3 then fields[..3] else fields
  }

  /** The picked fields come in the order of the keys. */
  lemma {:induction false} PickedInOrder(data: map<string, Json>, keys: seq<string>, i: nat, j: nat) returns (a: nat, b: nat)
    requires i < j < |Picked(data, keys)|
    ensures a < b < |keys| && keys[a] == Picked(data, keys)[i].name && keys[b] == Picked(data, keys)[j].name
  {
    var n := |keys| - 1;
    var before := Picked(data, keys[..n]);
    if j < |before| {
      a, b := PickedInOrder(data, keys[..n], i, j);
    } else {
      b := n;
      assert before[i] in before;
      PickedAreFields(data, keys[..n], before[i]);
      a :| 0 <= a < n && keys[..n][a] == before[i].name;
    }
  }

  /** Every registered type has its own list of keys, and no other. */
  lemma RegisteredHaveKeys(kind: string)
    ensures FieldKeys(kind).Some? <==> kind in Events.REGISTRY
  {
    Events.RegisteredTypes();
    assert kind in Events.ALERTS <==> kind == "delivery.failed" || kind == "security.abuse-ban" || kind == "security.authentication-ban"
                                      || kind == "security.ip-blocked" || kind == "server.startup-error";
  }

  /** Which they are. */
  lemma KeysOfAuth()
    ensures FieldKeys("auth.success") == Some(["accountName", "accountId", "spanId", "listenerId", "localPort", "remoteIp", "remotePort"])
    ensures FieldKeys("auth.failed") == Some(["accountName", "id", "spanId", "listenerId", "localPort", "remoteIp", "remotePort"])
    ensures FieldKeys("auth.error") == Some(["details", "error", "spanId", "listenerId", "localPort", "remoteIp", "remotePort"])
  {
    assert ["accountName", "accountId"] + AUTH_TAIL == ["accountName", "accountId", "spanId", "listenerId", "localPort", "remoteIp", "remotePort"];
    assert ["accountName", "id"] + AUTH_TAIL == ["accountName", "id", "spanId", "listenerId", "localPort", "remoteIp", "remotePort"];
    assert ["details", "error"] + AUTH_TAIL == ["details", "error", "spanId", "listenerId", "localPort", "remoteIp", "remotePort"];
  }

  lemma KeysOfDelivery()
    ensures FieldKeys("delivery.delivered")
            == Some(["from", "to", "hostname", "code", "details", "size", "elapsed", "queueName", "spanId", "total"])
    ensures FieldKeys("delivery.completed") == Some(["from", "to", "size", "elapsed", "queueName", "spanId", "total"])
    ensures FieldKeys("delivery.failed") == Some(["error", "details", "from", "to", "recipient", "remoteIp", "spanId", "messageId"])
  {
  }

  lemma KeysOfSecurityAndServer()
    ensures FieldKeys("security.ip-blocked") == Some(["listenerId", "localPort", "remoteIp", "ip", "source_ip", "remotePort"])
    ensures FieldKeys("security.abuse-ban") == FieldKeys("security.authentication-ban")
            == Some(["reason", "details", "accountName", "remoteIp", "ip", "source_ip"])
    ensures FieldKeys("server.startup") == Some(["version"])
    ensures FieldKeys("server.startup-error") == Some(["error", "details", "message"])
  {
  }

  /** What a value is shown as: blank text as a dash, a list item by item. */
  lemma ValueTextIs(value: Json)
    ensures value.String? ==> ValueText(value) == if Text.AllSpace(value.s) then "-" else value.s
    ensures value.Null? ==> ValueText(value) == "<nil>"
    ensures value.Bool? ==> ValueText(value) == if value.b then "true" else "false"
    ensures value.Array? && value.items == [] ==> ValueText(value) == ""
    ensures value.Array? && |value.items| == 1 ==> ValueText(value) == ValueText(value.items[0])
    ensures value.Array? && |value.items| > 1 ==>
              ValueText(value) == ValueText(Array(value.items[..|value.items| - 1])) + ", " + ValueText(value.items[|value.items| - 1])
  {
    if value.String? { Text.TrimsToNothing(value.s); }
    if value.Array? && |value.items| == 1 { assert ValueTexts(value.items) == [ValueText(value.items[0])]; }
  }

  // ---- Lines ----

  const ABUSEIPDB_URL := "https://www.abuseipdb.com/check/"

  function Title(bundle: I18n.Bundle, event: Event, locale: string): string
    requires bundle.Valid()
  {
    var title := I18n.Plain(bundle, locale, "event." + event.kind + ".title");
    if "event." <= title then event.kind else title
  }

  function Bold(s: string): string {
    Tagged("b", s)
  }

  function Code(s: string): string {
    Tagged("code", Escape(s))
  }

  function FieldLine(field: Field): string {
    "• " + Escape(field.name) + " · " + Code(field.value)
  }

  function LinkLine(ip: string, caption: string): string {
    "<" + "a href=" + "\"" + (ABUSEIPDB_URL + Escape(ip)) + ("\"" + ">") + Escape(caption) + ("</" + "a" + ">")
  }

  function FieldLines(fields: seq<Field>): (r: seq<string>)
    ensures |r| == |fields|
  {
    seq(|fields|, i requires 0 <= i < |fields| => FieldLine(fields[i]))
  }

  /** The texts of one locale that a single notification uses. */
  datatype Labels = Labels(event: string, date: string, ref: string, details: string, link: string)

  function LabelsOf(bundle: I18n.Bundle, locale: string): Labels
    requires bundle.Valid()
  {
    Labels(I18n.Plain(bundle, locale, "notification.event"), I18n.Plain(bundle, locale, "notification.date"),
           I18n.Plain(bundle, locale, "notification.ref"), I18n.Plain(bundle, locale, "notification.details"),
           I18n.Plain(bundle, locale, "notification.view_on_abuseipdb"))
  }

  function HeadLines(labels: Labels, title: string, event: Event, date: string): seq<string> {
    [Bold(Escape(title)), "",
     Bold(labels.event) + " " + Code(event.kind),
     Bold(labels.date) + " " + Escape(date),
     Bold(labels.ref) + " " + Code(event.id)]
  }

  function DetailLines(labels: Labels, fields: seq<Field>): seq<string> {
    if |fields| == 0 then [] else ["", labels.details] + FieldLines(fields)
  }

  function LinkLines(labels: Labels, ip: string): seq<string> {
    if ip == "" then [] else ["", LinkLine(ip, labels.link)]
  }

  /** eventFields and the cut to three fields. */
  method SelectFields(event: Event, short: bool, marshalled: string) returns (fields: seq<Field>)
    ensures fields == Shown(event, short, marshalled)
  {
    var keys := FieldKeys(event.kind);
    match keys {
      case Some(ks) => fields := PickFields(event.data, ks);
      case None => fields := if marshalled == "" || marshalled == "{}" then [] else [Field("data", marshalled)];
    }
    if short && |fields| > 3 {
      fields := fields[..3];
    }
  }

  /** The loop that appends a line for each field. */
  method AppendFields(before: seq<string>, fields: seq<Field>) returns (lines: seq<string>)
    ensures lines == before + FieldLines(fields)
  {
    lines := before;
    for i := 0 to |fields|
      invariant lines == before + FieldLines(fields[..i])
    {
      lines := lines + [FieldLine(fields[i])];
      assert FieldLines(fields[..i + 1]) == FieldLines(fields[..i]) + [FieldLine(fields[i])];
    }
    assert fields[..|fields|] == fields;
  }

  function EventLines(labels: Labels, title: string, event: Event, date: string, fields: seq<Field>): seq<string> {
    HeadLines(labels, title, event, date) + DetailLines(labels, fields) + LinkLines(labels, SourceIP(event))
  }

  /** FormatEventMessage; `date` is the event's time in the user's zone, as printed. */
  method FormatEventMessage(bundle: I18n.Bundle, event: Event, locale: string, short: bool,
                            date: string, marshalled: string)
    returns (text: string)
    requires bundle.Valid()
    ensures var resolved := I18n.Resolve(bundle, locale);
            text == Join(EventLines(LabelsOf(bundle, resolved), Title(bundle, event, resolved), event, date,
                                    Shown(event, short, marshalled)), "\n")
  {
    var resolved := I18n.Resolve(bundle, locale);
    var labels := LabelsOf(bundle, resolved);
    var head := HeadLines(labels, Title(bundle, event, resolved), event, date);
    var lines := head;
    var fields := SelectFields(event, short, marshalled);
    if |fields| > 0 {
      lines := AppendFields(lines + ["", labels.details], fields);
    }
    assert lines == head + DetailLines(labels, fields);
    var ip := FindSourceIP(event);
    if ip != "" {
      lines := lines + ["", LinkLine(ip, labels.link)];
    }
    assert lines == head + DetailLines(labels, fields) + LinkLines(labels, ip);
    text := Join(lines, "\n");
  }

  // ---- What a reader gets ----

  function Concat(parts: seq<seq<string>>): seq<string> {
    if |parts| == 0 then [] else Concat(parts[..|parts| - 1]) + parts[|parts| - 1]
  }

  /** Line i of the list stands on its own and has the code spans listed for it. */
  predicate CompleteLines(lines: seq<string>, spans: seq<seq<string>>) {
    |lines| == |spans| && forall i :: 0 <= i < |lines| ==> Complete(lines[i], spans[i])
  }

  /** A message of complete lines is well-formed and has their code spans, in order. */
  lemma {:induction false} CompleteJoin(lines: seq<string>, spans: seq<seq<string>>)
    requires CompleteLines(lines, spans)
    ensures Complete(Join(lines, "\n"), Concat(spans))
  {
    if |lines| == 1 {
      assert spans[..0] == [] && Concat(spans) == spans[0];
    } else if |lines| > 1 {
      var n := |lines| - 1;
      CompleteJoin(lines[..n], spans[..n]);
      CompleteHarmless("\n");
      CompleteAppend(Join(lines[..n], "\n"), "\n", Concat(spans[..n]), []);
      CompleteAppend(Join(lines[..n], "\n") + "\n", lines[n], Concat(spans[..n]) + [], spans[n]);
    }
  }

  lemma CompleteBoldCode(caption: string, spans: seq<string>, s: string)
    requires Complete(caption, spans)
    ensures Complete(Bold(caption) + " " + Code(s), spans + [s])
  {
    CompleteTagged("b", caption, spans);
    CompleteHarmless(" ");
    CompleteCode(s);
    CompleteAppend(Bold(caption), " ", spans, []);
    CompleteAppend(Bold(caption) + " ", Code(s), spans + [], [s]);
  }

  lemma CompleteBoldText(caption: string, spans: seq<string>, s: string)
    requires Complete(caption, spans)
    ensures Complete(Bold(caption) + " " + Escape(s), spans)
  {
    CompleteTagged("b", caption, spans);
    CompleteHarmless(" ");
    CompleteEscaped(s);
    CompleteAppend(Bold(caption), " ", spans, []);
    CompleteAppend(Bold(caption) + " ", Escape(s), spans + [], []);
  }

  lemma CompleteTitle(title: string)
    ensures Complete(Bold(Escape(title)), [])
  {
    CompleteEscaped(title);
    CompleteTagged("b", Escape(title), []);
  }

  lemma CompleteField(field: Field)
    ensures Complete(FieldLine(field), [field.value])
  {
    CompleteHarmless("• ");
    CompleteEscaped(field.name);
    CompleteHarmless(" · ");
    CompleteCode(field.value);
    CompleteAppend("• ", Escape(field.name), [], []);
    CompleteAppend("• " + Escape(field.name), " · ", [], []);
    CompleteAppend("• " + Escape(field.name) + " · ", Code(field.value), [], [field.value]);
    assert [] + [field.value] == [field.value];
  }

  lemma ReadLinkTag()
    ensures Read(START, "<" + "a href=" + "\"") == Reader(Quoted("a href="), [], [])
  {
    ReadAppend(START, "<", "a href=");
    ReadTagText(Feed(START, '<'), "a href=");
    assert "<"[1..] == "" && "\""[1..] == "" && "" + "a href=" == "a href=";
    ReadAppend(START, "<" + "a href=", "\"");
  }

  lemma ReadVia(r: Reader, a: string, b: string, mid: Reader, end: Reader)
    requires Read(r, a) == mid && Read(mid, b) == end
    ensures Read(r, a + b) == end
  {
    ReadAppend(r, a, b);
  }

  lemma ReadLinkHead(ip: string)
    ensures Read(START, "<" + "a href=" + "\"" + (ABUSEIPDB_URL + Escape(ip))) == Reader(Quoted("a href="), [], [])
  {
    var quoted := Reader(Quoted("a href="), [], []);
    var url := ABUSEIPDB_URL;
    ReadLinkTag();
    ReadQuoted(quoted, url);
    ReadQuotedEscaped(quoted, ip);
    ReadVia(quoted, url, Escape(ip), quoted, quoted);
    var attribute := url + Escape(ip);
    ReadVia(START, "<" + "a href=" + "\"", attribute, quoted, quoted);
  }

  lemma ReadLinkEnd()
    ensures Read(Reader(Quoted("a href="), [], []), "\"" + ">") == Reader(Text, ["a"], [])
  {
    assert FirstWord("a href=") == "a" by {
      assert "a href="[1..] == " href=" && FirstWord(" href=") == "";
      assert ['a'] + "" == "a";
    }
    assert ("\"" + ">")[1..] == ">" && ">"[1..] == "";
    assert [] + ["a"] == ["a"];
  }

  lemma CompleteLink(ip: string, caption: string)
    ensures Complete(LinkLine(ip, caption), [])
  {
    var head := "<" + "a href=" + "\"" + (ABUSEIPDB_URL + Escape(ip));
    ReadLinkHead(ip);
    ReadLinkEnd();
    ReadAppend(START, head, "\"" + ">");
    ReadAppend(START, head + ("\"" + ">"), Escape(caption));
    ReadEscaped(Reader(Text, ["a"], []), caption);
    ReadAppend(START, head + ("\"" + ">") + Escape(caption), "</" + "a" + ">");
    ReadClose(Reader(Text, ["a"], []), "a");
    assert ["a"][..0] == [];
  }

  // ---- The whole notification ----

  /** The labels that go into a message unescaped stand on their own, with these code spans. */
  datatype LabelSpans = LabelSpans(event: seq<string>, date: seq<string>, ref: seq<string>, details: seq<string>)

  predicate LabelsComplete(labels: Labels, spans: LabelSpans) {
    Complete(labels.event, spans.event) && Complete(labels.date, spans.date)
    && Complete(labels.ref, spans.ref) && Complete(labels.details, spans.details)
  }

  function HeadSpans(spans: LabelSpans, event: Event): seq<seq<string>> {
    [[], [], spans.event + [event.kind], spans.date, spans.ref + [event.id]]
  }

  function Singletons(fields: seq<Field>): (r: seq<seq<string>>)
    ensures |r| == |fields|
  {
    seq(|fields|, i requires 0 <= i < |fields| => [fields[i].value])
  }

  function Values(fields: seq<Field>): (r: seq<string>)
    ensures |r| == |fields|
  {
    seq(|fields|, i requires 0 <= i < |fields| => fields[i].value)
  }

  lemma CompleteHead(labels: Labels, spans: LabelSpans, title: string, event: Event, date: string)
    requires LabelsComplete(labels, spans)
    ensures CompleteLines(HeadLines(labels, title, event, date), HeadSpans(spans, event))
  {
    CompleteTitle(title);
    CompleteHarmless("");
    CompleteBoldCode(labels.event, spans.event, event.kind);
    CompleteBoldText(labels.date, spans.date, date);
    CompleteBoldCode(labels.ref, spans.ref, event.id);
  }

  lemma CompleteFields(fields: seq<Field>)
    ensures CompleteLines(FieldLines(fields), Singletons(fields))
  {
    forall i | 0 <= i < |fields| ensures Complete(FieldLines(fields)[i], Singletons(fields)[i]) {
      CompleteField(fields[i]);
    }
  }

  lemma CompleteLinesAppend(a: seq<string>, b: seq<string>, x: seq<seq<string>>, y: seq<seq<string>>)
    requires CompleteLines(a, x) && CompleteLines(b, y)
    ensures CompleteLines(a + b, x + y)
  {
  }

  lemma {:induction false} ConcatAppend(a: seq<seq<string>>, b: seq<seq<string>>)
    ensures Concat(a + b) == Concat(a) + Concat(b)
  {
    if |b| == 0 {
      assert a + b == a;
    } else {
      ConcatAppend(a, b[..|b| - 1]);
      assert (a + b)[..|a + b| - 1] == a + b[..|b| - 1];
    }
  }

  lemma ConcatTwo(a: seq<string>, b: seq<string>)
    ensures Concat([a, b]) == a + b
  {
    assert [a, b][..1] == [a] && [a][..0] == [];
    assert Concat([a]) == a;
  }

  lemma {:induction false} ConcatSingletons(fields: seq<Field>)
    ensures Concat(Singletons(fields)) == Values(fields)
  {
    if |fields| > 0 {
      var n := |fields| - 1;
      ConcatSingletons(fields[..n]);
      assert Singletons(fields)[..n] == Singletons(fields[..n]);
      assert Values(fields) == Values(fields[..n]) + [fields[n].value];
    }
  }

  lemma ConcatHead(spans: LabelSpans, event: Event)
    ensures Concat(HeadSpans(spans, event)) == spans.event + [event.kind] + spans.date + spans.ref + [event.id]
  {
    var h := HeadSpans(spans, event);
    assert Concat(h[..0]) == [];
    assert h[..1][..0] == h[..0] && h[..2][..1] == h[..1] && h[..3][..2] == h[..2] && h[..4][..3] == h[..3];
    assert Concat(h[..1]) == [] && Concat(h[..2]) == [];
    assert Concat(h[..3]) == spans.event + [event.kind];
    assert Concat(h[..4]) == spans.event + [event.kind] + spans.date;
  }

  function DetailSpans(spans: LabelSpans, fields: seq<Field>): seq<seq<string>> {
    if |fields| == 0 then [] else [[], spans.details] + Singletons(fields)
  }

  lemma CompleteDetails(labels: Labels, spans: LabelSpans, fields: seq<Field>)
    requires LabelsComplete(labels, spans)
    ensures CompleteLines(DetailLines(labels, fields), DetailSpans(spans, fields))
  {
    CompleteHarmless("");
    CompleteFields(fields);
    CompleteLinesAppend(["", labels.details], FieldLines(fields), [[], spans.details], Singletons(fields));
  }

  lemma ConcatDetails(spans: LabelSpans, fields: seq<Field>)
    ensures Concat(DetailSpans(spans, fields)) == (if |fields| == 0 then [] else spans.details) + Values(fields)
  {
    ConcatAppend([[], spans.details], Singletons(fields));
    ConcatSingletons(fields);
    ConcatTwo([], spans.details);
  }

  function LinkSpans(ip: string): seq<seq<string>> {
    if ip == "" then [] else [[], []]
  }

  lemma CompleteLinkLines(labels: Labels, ip: string)
    ensures CompleteLines(LinkLines(labels, ip), LinkSpans(ip)) && Concat(LinkSpans(ip)) == []
  {
    if ip != "" {
      CompleteHarmless("");
      CompleteLink(ip, labels.link);
      ConcatTwo([], []);
    }
  }

  function EventSpans(spans: LabelSpans, event: Event, fields: seq<Field>): seq<seq<string>> {
    HeadSpans(spans, event) + DetailSpans(spans, fields) + LinkSpans(SourceIP(event))
  }

  lemma CompleteEventLines(labels: Labels, spans: LabelSpans, title: string, event: Event, date: string, fields: seq<Field>)
    requires LabelsComplete(labels, spans)
    ensures CompleteLines(EventLines(labels, title, event, date, fields), EventSpans(spans, event, fields))
  {
    var head, details, link := HeadLines(labels, title, event, date), DetailLines(labels, fields), LinkLines(labels, SourceIP(event));
    CompleteHead(labels, spans, title, event, date);
    CompleteDetails(labels, spans, fields);
    CompleteLinkLines(labels, SourceIP(event));
    CompleteLinesAppend(head, details, HeadSpans(spans, event), DetailSpans(spans, fields));
    CompleteLinesAppend(head + details, link, HeadSpans(spans, event) + DetailSpans(spans, fields), LinkSpans(SourceIP(event)));
  }

  lemma ConcatEventSpans(labels: Labels, spans: LabelSpans, event: Event, fields: seq<Field>)
    ensures Concat(EventSpans(spans, event, fields))
            == Concat(HeadSpans(spans, event)) + Concat(DetailSpans(spans, fields))
  {
    CompleteLinkLines(labels, SourceIP(event));
    ConcatAppend(HeadSpans(spans, event), DetailSpans(spans, fields));
    ConcatAppend(HeadSpans(spans, event) + DetailSpans(spans, fields), LinkSpans(SourceIP(event)));
  }

  /** Whatever the event holds, its notification is well-formed, and the code spans a reader
      gets, after those of the labels, are the type, the ID and exactly the shown values, in order. */
  lemma NotificationReadsBack(labels: Labels, spans: LabelSpans, title: string, event: Event, date: string, fields: seq<Field>)
    requires LabelsComplete(labels, spans)
    ensures var text := Join(EventLines(labels, title, event, date, fields), "\n");
            && WellFormed(text)
            && CodeSpans(text) == spans.event + [event.kind] + spans.date + spans.ref + [event.id]
                                  + (if |fields| == 0 then [] else spans.details) + Values(fields)
  {
    CompleteEventLines(labels, spans, title, event, date, fields);
    CompleteJoin(EventLines(labels, title, event, date, fields), EventSpans(spans, event, fields));
    ConcatEventSpans(labels, spans, event, fields);
    ConcatHead(spans, event);
    ConcatDetails(spans, fields);
  }

  lemma TextsAsFields(fields: seq<Field>, n: nat)
    requires n <= |fields|
    ensures Values(fields[..n]) == Values(fields)[..n]
  {
  }

  /** The fields shown of a type that has a list of keys: all that are present, and of these the first
      three if the notification is to be short. */
  lemma ShownAre(event: Event, short: bool, marshalled: string, keys: seq<string>)
    requires FieldKeys(event.kind) == Some(keys)
    ensures var values := Values(Picked(event.data, keys));
            Values(Shown(event, short, marshalled)) == if !short || |values| <= 3 then values else values[..3]
  {
    var fields := Picked(event.data, keys);
    if |fields| > 3 { TextsAsFields(fields, 3); }
  }

  /** Of any other type the whole data is one field, if there is any. */
  lemma OtherShownAre(event: Event, short: bool, marshalled: string)
    requires FieldKeys(event.kind).None?
    ensures Shown(event, short, marshalled) == if marshalled == "" || marshalled == "{}" then [] else [Field("data", marshalled)]
  {
  }

  /** The lines of a notification, one by one. */
  lemma LinesAre(labels: Labels, title: string, event: Event, date: string, fields: seq<Field>)
    ensures EventLines(labels, title, event, date, fields) ==
              ["<b>" + Escape(title) + "</b>", "",
               "<b>" + labels.event + "</b> <code>" + Escape(event.kind) + "</code>",
               "<b>" + labels.date + "</b> " + Escape(date),
               "<b>" + labels.ref + "</b> <code>" + Escape(event.id) + "</code>"]
              + (if |fields| == 0 then [] else ["", labels.details] + FieldLines(fields))
              + (if SourceIP(event) == "" then []
                 else ["", "<a href=\"" + "https://www.abuseipdb.com/check/" + Escape(SourceIP(event)) + "\">" + Escape(labels.link) + "</a>"])
  {
    HeadLinesAre(labels, title, event, date);
    LinkLineIs(SourceIP(event), labels.link);
  }

  lemma HeadLinesAre(labels: Labels, title: string, event: Event, date: string)
    ensures HeadLines(labels, title, event, date) ==
              ["<b>" + Escape(title) + "</b>", "",
               "<b>" + labels.event + "</b> <code>" + Escape(event.kind) + "</code>",
               "<b>" + labels.date + "</b> " + Escape(date),
               "<b>" + labels.ref + "</b> <code>" + Escape(event.id) + "</code>"]
  {
    BoldIs(Escape(title));
    BoldIs(labels.event);
    BoldIs(labels.date);
    BoldIs(labels.ref);
    CodeAfter(labels.event, event.kind);
    CodeAfter(labels.ref, event.id);
    assert "<b>" + labels.date + "</b>" + " " + Escape(date) == "<b>" + labels.date + "</b> " + Escape(date);
  }

  lemma BoldIs(s: string)
    ensures Bold(s) == "<b>" + s + "</b>"
  {
    assert "<" + "b" + ">" == "<b>" && "</" + "b" + ">" == "</b>";
  }

  lemma CodeIs(s: string)
    ensures Code(s) == "<code>" + Escape(s) + "</code>"
  {
    assert "<" + "code" + ">" == "<code>" && "</" + "code" + ">" == "</code>";
  }

  lemma CodeAfter(caption: string, s: string)
    ensures "<b>" + caption + "</b>" + " " + Code(s) == "<b>" + caption + "</b> <code>" + Escape(s) + "</code>"
  {
    CodeIs(s);
    assert "<b>" + caption + "</b>" + " " + ("<code>" + Escape(s) + "</code>")
        == "<b>" + caption + ("</b>" + " " + "<code>") + Escape(s) + "</code>";
    assert "</b>" + " " + "<code>" == "</b> <code>";
  }

  lemma LinkLineIs(ip: string, caption: string)
    ensures LinkLine(ip, caption)
            == "<a href=\"" + "https://www.abuseipdb.com/check/" + Escape(ip) + "\">" + Escape(caption) + "</a>"
  {
    assert "<" + "a href=" + "\"" == "<a href=\"";
    assert "\"" + ">" == "\">" && "</" + "a" + ">" == "</a>";
    Regroup("<a href=\"", "https://www.abuseipdb.com/check/", Escape(ip));
  }

  lemma Regroup(a: string, b: string, c: string)
    ensures a + (b + c) == a + b + c
  {
  }

  lemma FieldLineIs(field: Field)
    ensures FieldLine(field) == "• " + Escape(field.name) + " · <code>" + Escape(field.value) + "</code>"
  {
    CodeIs(field.value);
    assert "• " + Escape(field.name) + " · " + ("<code>" + Escape(field.value) + "</code>")
        == "• " + Escape(field.name) + (" · " + "<code>") + Escape(field.value) + "</code>";
    assert " · " + "<code>" == " · <code>";
  }

  // ---- Grouped messages ----

  /** The reader over a template; a placeholder may stand where text may stand. */
  function ReadTokens(r: Reader, tokens: seq<I18n.Token>): Reader
    decreases |tokens|
  {
    if |tokens| == 0 then r
    else match tokens[0]
      case Lit(text) => ReadTokens(Read(r, text), tokens[1..])
      case Hole(_) => ReadTokens(if r.mode == Text then r else r.(mode := Bad), tokens[1..])
  }

  /** A template whose tags are balanced and whose placeholders, all bound, stand in text. */
  predicate BalancedTemplate(tokens: seq<I18n.Token>, params: map<string, string>) {
    && ReadTokens(START, tokens).mode == Text && ReadTokens(START, tokens).open == []
    && forall i :: 0 <= i < |tokens| && tokens[i].Hole? ==> tokens[i].name in params
  }

  predicate SameShape(q: Reader, r: Reader) {
    q.mode == r.mode && q.open == r.open
  }

  lemma {:induction false} ReadShape(q: Reader, r: Reader, s: string)
    requires SameShape(q, r)
    ensures SameShape(Read(q, s), Read(r, s))
    decreases |s|
  {
    if |s| > 0 { ReadShape(Feed(q, s[0]), Feed(r, s[0]), s[1..]); }
  }

  lemma {:induction false} TokensStayBad(r: Reader, tokens: seq<I18n.Token>)
    requires r.mode == Bad
    ensures ReadTokens(r, tokens).mode == Bad
    decreases |tokens|
  {
    if |tokens| > 0 {
      if tokens[0].Lit? { BadStaysBad(r, tokens[0].text); TokensStayBad(Read(r, tokens[0].text), tokens[1..]); }
      else { TokensStayBad(r, tokens[1..]); }
    }
  }

  /** Filling a balanced template with harmless text keeps it balanced. */
  lemma {:induction false} FilledShape(q: Reader, r: Reader, tokens: seq<I18n.Token>, params: map<string, string>)
    requires SameShape(q, r) && ReadTokens(r, tokens).mode == Text
    requires forall i :: 0 <= i < |tokens| && tokens[i].Hole? ==> tokens[i].name in params
    requires forall k :: k in params ==> Harmless(params[k])
    ensures SameShape(Read(q, I18n.Render(I18n.Fill(tokens, params))), ReadTokens(r, tokens))
    decreases |tokens|
  {
    if |tokens| > 0 {
      var rest := I18n.Render(I18n.Fill(tokens[1..], params));
      assert I18n.Fill(tokens, params)[1..] == I18n.Fill(tokens[1..], params);
      match tokens[0]
      case Lit(text) =>
        ReadAppend(q, text, rest);
        ReadShape(q, r, text);
        FilledShape(Read(q, text), Read(r, text), tokens[1..], params);
      case Hole(name) =>
        if r.mode != Text { TokensStayBad(r.(mode := Bad), tokens[1..]); }
        ReadAppend(q, params[name], rest);
        ReadHarmless(q, params[name]);
        FilledShape(Emit(q, params[name]), r, tokens[1..], params);
    }
  }

  function GroupTitleParams(events: seq<Event>): map<string, string>
    requires |events| > 0
  {
    map["count" := Decimal.Print(|events|), "type" := events[0].kind]
  }

  /** A line of a grouped message; `time` is the event's time of day, as printed. */
  function GroupLine(event: Event, time: string): string {
    "• " + Code(event.id) + " " + Escape(if SourceIP(event) == "" then "no-ip" else SourceIP(event)) + " " + Escape(time)
  }

  lemma GroupLineIs(event: Event, time: string)
    ensures GroupLine(event, time) ==
              "• <code>" + Escape(event.id) + "</code> " + Escape(if SourceIP(event) == "" then "no-ip" else SourceIP(event)) + " " + Escape(time)
  {
    CodeIs(event.id);
    assert "• " + ("<code>" + Escape(event.id) + "</code>") + " " == ("• " + "<code>") + Escape(event.id) + ("</code>" + " ");
    assert "• " + "<code>" == "• <code>" && "</code>" + " " == "</code> ";
  }

  function GroupLines(events: seq<Event>, time: Event -> string): (r: seq<string>)
    ensures |r| == |events|
  {
    seq(|events|, i requires 0 <= i < |events| => GroupLine(events[i], time(events[i])))
  }

  /** The title of a grouped message: the template of the locale with its placeholders replaced in
      some order, or the name of the template if there is none. */
  ghost predicate GroupTitled(bundle: I18n.Bundle, events: seq<Event>, locale: string, title: string)
    requires bundle.Valid() && |events| > 0
  {
    match I18n.Template(bundle, I18n.Resolve(bundle, locale), "notification.grouped_title")
    case Some(template) => I18n.Replaced(template, GroupTitleParams(events), title)
    case None => title == "notification.grouped_title"
  }

  function GroupText(title: string, events: seq<Event>, time: Event -> string): string {
    Join([title, ""] + GroupLines(events, time), "\n")
  }

  /** The text of a group, whichever order the title's parameters are replaced in. */
  ghost predicate IsGroupText(bundle: I18n.Bundle, events: seq<Event>, locale: string, time: Event -> string, text: string)
    requires bundle.Valid() && |events| > 0
  {
    exists title :: GroupTitled(bundle, events, locale, title) && text == GroupText(title, events, time)
  }

  /** FormatGroupedMessage; `time` prints an event's time of day in the user's zone. */
  method FormatGroupedMessage(bundle: I18n.Bundle, events: seq<Event>, locale: string, time: Event -> string)
    returns (text: string)
    requires bundle.Valid()
    ensures |events| == 0 ==> text == ""
    ensures |events| > 0 ==> IsGroupText(bundle, events, locale, time, text)
  {
    if |events| == 0 {
      return "";
    }
    var heading := GroupTitle(bundle, events, locale);
    text := WriteGroup(heading, events, time);
  }

  method GroupTitle(bundle: I18n.Bundle, events: seq<Event>, locale: string) returns (title: string)
    requires bundle.Valid() && |events| > 0
    ensures GroupTitled(bundle, events, locale, title)
  {
    title := I18n.T(bundle, I18n.Resolve(bundle, locale), "notification.grouped_title", GroupTitleParams(events));
  }

  lemma OneMoreGroupLine(events: seq<Event>, i: nat, time: Event -> string)
    requires i < |events|
    ensures GroupLines(events[..i + 1], time) == GroupLines(events[..i], time) + [GroupLine(events[i], time(events[i]))]
  {
  }

  method WriteGroup(title: string, events: seq<Event>, time: Event -> string) returns (text: string)
    ensures text == GroupText(title, events, time)
  {
    var lines := [title, ""];
    for i := 0 to |events|
      invariant lines == [title, ""] + GroupLines(events[..i], time)
    {
      var ip := FindSourceIP(events[i]);
      if ip == "" {
        ip := "no-ip";
      }
      lines := lines + ["• " + Code(events[i].id) + " " + Escape(ip) + " " + Escape(time(events[i]))];
      OneMoreGroupLine(events, i, time);
    }
    assert events[..|events|] == events;
    text := Join(lines, "\n");
  }

  lemma CompleteGroupLine(event: Event, time: string)
    ensures Complete(GroupLine(event, time), [event.id])
  {
    var ip := if SourceIP(event) == "" then "no-ip" else SourceIP(event);
    CompleteHarmless("• ");
    CompleteHarmless(" ");
    CompleteCode(event.id);
    CompleteEscaped(ip);
    CompleteEscaped(time);
    CompleteAppend("• ", Code(event.id), [], [event.id]);
    CompleteAppend("• " + Code(event.id), " ", [] + [event.id], []);
    CompleteAppend("• " + Code(event.id) + " ", Escape(ip), [event.id], []);
    CompleteAppend("• " + Code(event.id) + " " + Escape(ip), " ", [event.id], []);
    CompleteAppend("• " + Code(event.id) + " " + Escape(ip) + " ", Escape(time), [event.id], []);
    assert [] + [event.id] == [event.id] && [event.id] + [] == [event.id];
  }

  function Ids(events: seq<Event>): (r: seq<string>)
    ensures |r| == |events|
  {
    seq(|events|, i requires 0 <= i < |events| => events[i].id)
  }

  function IdSpans(events: seq<Event>): (r: seq<seq<string>>)
    ensures |r| == |events|
  {
    seq(|events|, i requires 0 <= i < |events| => [events[i].id])
  }

  lemma {:induction false} ConcatIds(events: seq<Event>)
    ensures Concat(IdSpans(events)) == Ids(events)
  {
    if |events| > 0 {
      var n := |events| - 1;
      ConcatIds(events[..n]);
      assert IdSpans(events)[..n] == IdSpans(events[..n]);
      assert Ids(events) == Ids(events[..n]) + [events[n].id];
    }
  }

  /** A grouped message under a complete title is well-formed; its code spans after those of the
      title are the IDs of all the events of the group, in order. */
  lemma GroupReadsBack(title: string, spans: seq<string>, events: seq<Event>, time: Event -> string)
    requires Complete(title, spans)
    ensures var text := GroupText(title, events, time);
            WellFormed(text) && CodeSpans(text) == spans + Ids(events)
  {
    CompleteHarmless("");
    forall i | 0 <= i < |events| ensures Complete(GroupLines(events, time)[i], IdSpans(events)[i]) {
      CompleteGroupLine(events[i], time(events[i]));
    }
    CompleteLinesAppend([title, ""], GroupLines(events, time), [spans, []], IdSpans(events));
    CompleteJoin([title, ""] + GroupLines(events, time), [spans, []] + IdSpans(events));
    ConcatAppend([spans, []], IdSpans(events));
    ConcatIds(events);
    ConcatTwo(spans, []);
  }

  lemma PrintIsHarmless(n: int)
    ensures I18n.Braceless(Decimal.Print(n)) && Harmless(Decimal.Print(n))
  {
    Decimal.PrintPlain(n);
    var s := Decimal.Print(n);
    assert forall i :: 0 <= i < |s| ==> Decimal.IsDigit(s[i]) || s[i] == '-';
  }

  lemma TitleParamsAreHarmless(events: seq<Event>)
    requires |events| > 0 && events[0].kind in Events.REGISTRY
    ensures var params := GroupTitleParams(events);
            forall k :: k in params ==> I18n.Braceless(k) && I18n.Braceless(params[k]) && Harmless(params[k])
  {
    PrintIsHarmless(|events|);
    RegisteredIsHarmless(events[0].kind);
    NamesAreBraceless();
  }

  lemma NamesAreBraceless()
    ensures I18n.Braceless("count") && I18n.Braceless("type")
  {
  }

  lemma RegisteredIsHarmless(kind: string)
    requires kind in Events.REGISTRY
    ensures I18n.Braceless(kind) && Harmless(kind)
  {
    Events.RegisteredArePlain(kind);
    PlainIsHarmless(kind);
  }

  lemma PlainIsHarmless(kind: string)
    requires Events.Plain(kind)
    ensures I18n.Braceless(kind) && Harmless(kind)
  {
    assert forall i :: 0 <= i < |kind| ==> Events.TypeChar(kind[i]);
  }

  /** The title of a group of a registered type is complete if its template is balanced: count
      and type are harmless wherever the template has them. */
  lemma GroupTitleComplete(tokens: seq<I18n.Token>, title: string, events: seq<Event>)
    requires |events| > 0 && events[0].kind in Events.REGISTRY
    requires I18n.Clean(tokens) && BalancedTemplate(tokens, GroupTitleParams(events))
    requires I18n.Replaced(I18n.Render(tokens), GroupTitleParams(events), title)
    ensures Complete(title, CodeSpans(title))
  {
    TitleParamsAreHarmless(events);
    FilledIsComplete(tokens, title, GroupTitleParams(events));
  }

  lemma FilledIsComplete(tokens: seq<I18n.Token>, title: string, params: map<string, string>)
    requires I18n.Clean(tokens) && BalancedTemplate(tokens, params) && I18n.Replaced(I18n.Render(tokens), params, title)
    requires forall k :: k in params ==> I18n.Braceless(k) && I18n.Braceless(params[k]) && Harmless(params[k])
    ensures Complete(title, CodeSpans(title))
  {
    I18n.AnyOrderWillDo(tokens, params, title);
    FilledShape(START, START, tokens, params);
  }

  /** So every text of a group whose title template is balanced is well-formed, and ends with the
      IDs of its events as code spans. */
  lemma GroupTextReadsBack(bundle: I18n.Bundle, events: seq<Event>, locale: string, time: Event -> string, text: string,
                           tokens: seq<I18n.Token>)
    requires bundle.Valid() && |events| > 0 && events[0].kind in Events.REGISTRY
    requires IsGroupText(bundle, events, locale, time, text)
    requires I18n.Template(bundle, I18n.Resolve(bundle, locale), "notification.grouped_title") == Some(I18n.Render(tokens))
    requires I18n.Clean(tokens) && BalancedTemplate(tokens, GroupTitleParams(events))
    ensures var title := I18n.Render(I18n.Fill(tokens, GroupTitleParams(events)));
            && text == GroupText(title, events, time)
            && WellFormed(text) && CodeSpans(text) == CodeSpans(title) + Ids(events)
  {
    var title :| GroupTitled(bundle, events, locale, title) && text == GroupText(title, events, time);
    TitleParamsAreHarmless(events);
    I18n.AnyOrderWillDo(tokens, GroupTitleParams(events), title);
    GroupTitleComplete(tokens, title, events);
    GroupReadsBack(title, CodeSpans(title), events, time);
  }

  // ---- The shipped title ----

  /** The shape that the title has in every shipped catalog. */
  function BoldTitle(x: I18n.Token, b: string, y: I18n.Token, c: string): seq<I18n.Token> {
    [I18n.Lit("<b>")] + ([x] + ([I18n.Lit(b)] + ([y] + BoldEnd(c))))
  }

  function BoldEnd(c: string): seq<I18n.Token> {
    [I18n.Lit(c)] + [I18n.Lit("</b>")]
  }

  function BoldTemplate(b: string, c: string): seq<I18n.Token> {
    BoldTitle(I18n.Hole("count"), b, I18n.Hole("type"), c)
  }

  lemma RenderCons(token: I18n.Token, rest: seq<I18n.Token>)
    ensures I18n.Render([token] + rest) == I18n.Show(token) + I18n.Render(rest)
  {
    assert ([token] + rest)[1..] == rest;
  }

  lemma RenderBold(x: I18n.Token, b: string, y: I18n.Token, c: string)
    ensures I18n.Render(BoldTitle(x, b, y, c)) == "<b>" + (I18n.Show(x) + (b + (I18n.Show(y) + (c + "</b>"))))
  {
    var end := BoldEnd(c);
    I18n.RenderOne(I18n.Lit("</b>"));
    RenderCons(I18n.Lit(c), [I18n.Lit("</b>")]);
    RenderCons(y, end);
    RenderCons(I18n.Lit(b), [y] + end);
    RenderCons(x, [I18n.Lit(b)] + ([y] + end));
    RenderCons(I18n.Lit("<b>"), [x] + ([I18n.Lit(b)] + ([y] + end)));
  }

  /** Such a template is as the catalogs have it. */
  lemma BoldTemplateText(b: string, c: string)
    ensures I18n.Render(BoldTemplate(b, c)) == "<b>" + ("{{count}}" + (b + ("{{type}}" + (c + "</b>"))))
  {
    RenderBold(I18n.Hole("count"), b, I18n.Hole("type"), c);
    PlaceholderTexts();
  }

  lemma PlaceholderTexts()
    ensures I18n.Show(I18n.Hole("count")) == "{{count}}" && I18n.Show(I18n.Hole("type")) == "{{type}}"
  {
  }

  lemma ReadHole(r: Reader, name: string, rest: seq<I18n.Token>)
    requires r.mode == Text
    ensures ReadTokens(r, [I18n.Hole(name)] + rest) == ReadTokens(r, rest)
  {
    assert ([I18n.Hole(name)] + rest)[1..] == rest;
  }

  lemma ReadLit(r: Reader, text: string, rest: seq<I18n.Token>)
    ensures ReadTokens(r, [I18n.Lit(text)] + rest) == ReadTokens(Read(r, text), rest)
  {
    assert ([I18n.Lit(text)] + rest)[1..] == rest;
  }

  const BOLD := Reader(Text, ["b"], [])

  lemma ReadBoldEnd(c: string)
    requires Harmless(c)
    ensures ReadTokens(BOLD, BoldEnd(c)) == START
  {
    ReadHarmless(BOLD, c);
    ReadLit(BOLD, c, [I18n.Lit("</b>")]);
    ReadClose(BOLD, "b");
    assert "</" + "b" + ">" == "</b>" && ["b"][..0] == [];
    assert [I18n.Lit("</b>")] == [I18n.Lit("</b>")] + [];
    ReadLit(BOLD, "</b>", []);
  }

  lemma ReadBold(b: string, c: string)
    requires Harmless(b) && Harmless(c)
    ensures ReadTokens(START, BoldTemplate(b, c)) == START
  {
    var end := BoldEnd(c);
    ReadOpen(START, "b");
    assert "<" + "b" + ">" == "<b>" && [] + ["b"] == ["b"];
    ReadLit(START, "<b>", [I18n.Hole("count")] + ([I18n.Lit(b)] + ([I18n.Hole("type")] + end)));
    ReadHole(BOLD, "count", [I18n.Lit(b)] + ([I18n.Hole("type")] + end));
    ReadHarmless(BOLD, b);
    ReadLit(BOLD, b, [I18n.Hole("type")] + end);
    ReadHole(BOLD, "type", end);
    ReadBoldEnd(c);
  }

  /** It is balanced, so GroupTextReadsBack applies to it. */
  lemma BoldTemplateBalanced(b: string, c: string, events: seq<Event>)
    requires |events| > 0 && I18n.Braceless(b) && I18n.Braceless(c) && Harmless(b) && Harmless(c)
    ensures I18n.Clean(BoldTemplate(b, c)) && BalancedTemplate(BoldTemplate(b, c), GroupTitleParams(events))
  {
    NamesAreBraceless();
    ReadBold(b, c);
  }

  lemma HarmlessAppend(a: string, b: string)
    requires Harmless(a) && Harmless(b)
    ensures Harmless(a + b)
  {
  }

  lemma FillCons(token: I18n.Token, rest: seq<I18n.Token>, params: map<string, string>)
    ensures I18n.Fill([token] + rest, params) == [I18n.FillToken(token, params)] + I18n.Fill(rest, params)
  {
  }

  lemma FillBold(b: string, c: string, params: map<string, string>)
    requires "count" in params && "type" in params
    ensures I18n.Fill(BoldTemplate(b, c), params) == BoldTitle(I18n.Lit(params["count"]), b, I18n.Lit(params["type"]), c)
  {
    var end := BoldEnd(c);
    assert I18n.Fill(end, params) == end;
    FillCons(I18n.Hole("type"), end, params);
    FillCons(I18n.Lit(b), [I18n.Hole("type")] + end, params);
    FillCons(I18n.Hole("count"), [I18n.Lit(b)] + ([I18n.Hole("type")] + end), params);
    FillCons(I18n.Lit("<b>"), [I18n.Hole("count")] + ([I18n.Lit(b)] + ([I18n.Hole("type")] + end)), params);
  }

  lemma BoldHasNoSpans(count: string, b: string, kind: string, c: string)
    requires Harmless(count) && Harmless(b) && Harmless(kind) && Harmless(c)
    ensures CodeSpans("<b>" + (count + (b + (kind + (c + "</b>"))))) == []
  {
    HarmlessAppend(kind, c);
    HarmlessAppend(b, kind + c);
    HarmlessAppend(count, b + (kind + c));
    var inner := count + (b + (kind + c));
    CompleteHarmless(inner);
    CompleteTagged("b", inner, []);
    assert Tagged("b", inner) == "<b>" + (count + (b + (kind + (c + "</b>"))));
  }

  lemma BoldTitleFilled(b: string, c: string, events: seq<Event>)
    requires |events| > 0 && events[0].kind in Events.REGISTRY && Harmless(b) && Harmless(c)
    ensures CodeSpans(I18n.Render(I18n.Fill(BoldTemplate(b, c), GroupTitleParams(events)))) == []
  {
    var params := GroupTitleParams(events);
    TitleParamsAreHarmless(events);
    FillBold(b, c, params);
    RenderBold(I18n.Lit(params["count"]), b, I18n.Lit(params["type"]), c);
    BoldHasNoSpans(params["count"], b, params["type"], c);
  }

  /** With such a title the code spans of a group's text are its event IDs and nothing else. */
  lemma ShippedGroupReadsBack(bundle: I18n.Bundle, events: seq<Event>, locale: string, time: Event -> string, text: string,
                              b: string, c: string)
    requires bundle.Valid() && |events| > 0 && events[0].kind in Events.REGISTRY
    requires I18n.Braceless(b) && I18n.Braceless(c) && Harmless(b) && Harmless(c)
    requires I18n.Template(bundle, I18n.Resolve(bundle, locale), "notification.grouped_title")
             == Some("<b>" + ("{{count}}" + (b + ("{{type}}" + (c + "</b>")))))
    requires IsGroupText(bundle, events, locale, time, text)
    ensures WellFormed(text) && CodeSpans(text) == Ids(events)
  {
    BoldTemplateText(b, c);
    BoldTemplateBalanced(b, c, events);
    GroupTextReadsBack(bundle, events, locale, time, text, BoldTemplate(b, c));
    BoldTitleFilled(b, c, events);
    assert [] + Ids(events) == Ids(events);
  }

  /** And the title says how many events of which type there are. */
  lemma ShippedTitleIs(bundle: I18n.Bundle, events: seq<Event>, locale: string, time: Event -> string, text: string, b: string, c: string)
    requires bundle.Valid() && |events| > 0 && events[0].kind in Events.REGISTRY
    requires I18n.Braceless(b) && I18n.Braceless(c) && Harmless(b) && Harmless(c)
    requires I18n.Template(bundle, I18n.Resolve(bundle, locale), "notification.grouped_title")
             == Some("<b>" + ("{{count}}" + (b + ("{{type}}" + (c + "</b>")))))
    requires IsGroupText(bundle, events, locale, time, text)
    ensures text == Join(["<b>" + (Decimal.Print(|events|) + (b + (events[0].kind + (c + "</b>")))), ""] + GroupLines(events, time), "\n")
  {
    var params := GroupTitleParams(events);
    BoldTemplateText(b, c);
    BoldTemplateBalanced(b, c, events);
    GroupTextReadsBack(bundle, events, locale, time, text, BoldTemplate(b, c));
    FillBold(b, c, params);
    RenderBold(I18n.Lit(params["count"]), b, I18n.Lit(params["type"]), c);
  }

}
