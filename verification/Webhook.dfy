/** Webhook events and what is read from them (internal/webhook/webhook.go), starting from a
    decoded payload. */
module Webhook {

  import opened Wrappers
  import Text

  /** Decoded JSON; numbers and objects carry the text that fmt prints for them. */
  datatype Json =
    | Null
    | Bool(b: bool)
    | Number(printed: string)
    | String(s: string)
    | Array(items: seq<Json>)
    | Object(printed: string)

  datatype Event = Event(id: string, createdAt: int, kind: string, data: map<string, Json>)

  /** An event as it stands in the payload; `data` may be absent. */
  datatype RawEvent = RawEvent(id: string, createdAt: string, kind: string, data: Option<map<string, Json>>)

  const IP_FIELDS: seq<string> := ["remoteIp", "ip", "source_ip"]

  /** The field holds a string that is not blank. */
  predicate HasText(data: map<string, Json>, key: string) {
    key in data && data[key].String? && Text.Trim(data[key].s) != ""
  }

  function FirstText(data: map<string, Json>, keys: seq<string>): string {
    if |keys| == 0 then ""
    else if HasText(data, keys[0]) then Text.Trim(data[keys[0]].s)
    else FirstText(data, keys[1..])
  }

  /** webhook.SourceIP */
  function SourceIP(event: Event): string {
    FirstText(event.data, IP_FIELDS)
  }

  /** What SourceIP promises: the trimmed text of the first field that has one, or nothing. */
  lemma {:induction false} FirstTextIs(data: map<string, Json>, keys: seq<string>, k: nat)
    requires k <= |keys|
    requires forall i :: 0 <= i < k ==> !HasText(data, keys[i])
    requires k < |keys| ==> HasText(data, keys[k])
    ensures FirstText(data, keys) == if k < |keys| then Text.Trim(data[keys[k]].s) else ""
  {
    if k > 0 {
      assert !HasText(data, keys[0]);
      FirstTextIs(data, keys[1..], k - 1);
    }
  }

  /** By name: the remote address, else the address, else the source address. */
  lemma SourceIPIs(event: Event)
    ensures HasText(event.data, "remoteIp") ==> SourceIP(event) == Text.Trim(event.data["remoteIp"].s)
    ensures !HasText(event.data, "remoteIp") && HasText(event.data, "ip") ==> SourceIP(event) == Text.Trim(event.data["ip"].s)
    ensures !HasText(event.data, "remoteIp") && !HasText(event.data, "ip") && HasText(event.data, "source_ip") ==>
              SourceIP(event) == Text.Trim(event.data["source_ip"].s)
    ensures !HasText(event.data, "remoteIp") && !HasText(event.data, "ip") && !HasText(event.data, "source_ip") ==>
              SourceIP(event) == ""
  {
    var k := if HasText(event.data, "remoteIp") then 0 else if HasText(event.data, "ip") then 1
             else if HasText(event.data, "source_ip") then 2 else 3;
    FirstTextIs(event.data, IP_FIELDS, k);
  }

  /** A field has text exactly if it holds a string with something else than white space in it. */
  lemma HasTextIs(data: map<string, Json>, key: string)
    ensures HasText(data, key) <==> key in data && data[key].String? && exists i :: 0 <= i < |data[key].s| && !Text.IsSpace(data[key].s[i])
  {
    if key in data && data[key].String? {
      var s := data[key].s;
      var a, b := Text.TrimDrops(s);
      Text.TrimTrims(s);
      if Text.Trim(s) != "" {
        assert s[|a|] == Text.Trim(s)[0];
      } else {
        assert forall i :: 0 <= i < |s| ==> s[i] == if i < |a| then a[i] else b[i - |a|];
      }
    }
  }

  /** The search loop of SourceIP. */
  method FindSourceIP(event: Event) returns (ip: string)
    ensures ip == SourceIP(event)
    ensures Text.Trimmed(ip)
    ensures ip == "" <==> forall i :: 0 <= i < |IP_FIELDS| ==> !HasText(event.data, IP_FIELDS[i])
  {
    for k := 0 to |IP_FIELDS|
      invariant forall i :: 0 <= i < k ==> !HasText(event.data, IP_FIELDS[i])
    {
      var key := IP_FIELDS[k];
      if key !in event.data { continue; }
      if event.data[key].String? && Text.Trim(event.data[key].s) != "" {
        ip := Text.Trim(event.data[key].s);
        FirstTextIs(event.data, IP_FIELDS, k);
        Text.TrimTrims(event.data[key].s);
        return;
      }
    }
    FirstTextIs(event.data, IP_FIELDS, |IP_FIELDS|);
    ip := "";
  }

  /** One event of the payload, normalised; `parsed` is the parsed timestamp, if it parses. */
  function Normalise(raw: RawEvent, parsed: Option<int>, now: int): Event {
    Event(Text.Trim(raw.id), if parsed.Some? then parsed.value else now, Text.Trim(raw.kind),
          if raw.data.Some? then raw.data.value else map[])
  }

  /** The loop of ParsePayload over the decoded events, given what time.Parse makes of each
      timestamp and what the clock shows; a payload without an event list is an error. */
  method ParsePayload(input: Option<seq<RawEvent>>, parse: string -> Option<int>, clock: nat -> int)
    returns (events: Option<seq<Event>>)
    ensures events.None? <==> input.None?
    ensures input.Some? ==> forall i :: 0 <= i < |input.value| && i < |events.value| ==>
              var raw, event := input.value[i], events.value[i];
              && event.id == Text.Trim(raw.id) && event.kind == Text.Trim(raw.kind)
              && event.data == (if raw.data.Some? then raw.data.value else map[])
              && (parse(Text.Trim(raw.createdAt)).Some? ==> parse(Text.Trim(raw.createdAt)) == Some(event.createdAt))
              && (parse(Text.Trim(raw.createdAt)).None? ==> event.createdAt == clock(i))
    ensures input.Some? ==>
              && |events.value| == |input.value|
              && forall i :: 0 <= i < |input.value| ==>
                   && events.value[i] == Normalise(input.value[i], parse(Text.Trim(input.value[i].createdAt)), clock(i))
                   && Text.Trimmed(events.value[i].kind) && Text.Trimmed(events.value[i].id)
  {
    if input.None? {
      return None;
    }
    var parsed: seq<Event> := [];
    for k := 0 to |input.value|
      invariant |parsed| == k
      invariant forall i :: 0 <= i < k ==>
                  && parsed[i] == Normalise(input.value[i], parse(Text.Trim(input.value[i].createdAt)), clock(i))
                  && Text.Trimmed(parsed[i].kind) && Text.Trimmed(parsed[i].id)
    {
      var item := input.value[k];
      var createdAt := parse(Text.Trim(item.createdAt));
      Text.TrimTrims(item.kind);
      Text.TrimTrims(item.id);
      parsed := parsed + [Event(Text.Trim(item.id), if createdAt.Some? then createdAt.value else clock(k),
                                Text.Trim(item.kind), if item.data.Some? then item.data.value else map[])];
    }
    events := Some(parsed);
  }

}
