/** The deduplicator (internal/notifications/dedup.go): a map of recent acceptance times that is
    purged as it goes, against the history it abbreviates. */
module Dedup {

  import opened Wrappers
  import opened Webhook
  import Events
  import Text

  const SECOND: int := 1_000_000_000

  // ---- Keys ----

  /** The key of an event: its type and source IP, or the type and a placeholder. */
  function Key(event: Event): string {
    var key := event.kind + "|" + SourceIP(event);
    if key == event.kind + "|" then event.kind + "|no-ip" else key
  }

  function Address(event: Event): string {
    if SourceIP(event) == "" then "no-ip" else SourceIP(event)
  }

  /** Two events whose types have no separator share a key exactly when they agree on type and
      address, a missing address counting as the literal no-ip. */
  lemma KeysFaithful(e: Event, f: Event)
    requires '|' !in e.kind && '|' !in f.kind
    ensures Key(e) == Key(f) <==> e.kind == f.kind && Address(e) == Address(f)
  {
    KeySplits(e);
    KeySplits(f);
    if Key(e) == Key(f) {
      var m := |e.kind|;
      Text.IndexOfIs(Key(e), '|', |e.kind|);
      Text.IndexOfIs(Key(f), '|', |f.kind|);
      assert e.kind == Key(e)[..m] && f.kind == Key(f)[..m];
      assert Address(e) == Key(e)[m + 1..] && Address(f) == Key(f)[m + 1..];
    }
  }

  lemma KeySplits(e: Event)
    ensures Key(e) == e.kind + "|" + Address(e)
    ensures Address(e) == if SourceIP(e) == "" then "no-ip" else SourceIP(e)
  {
    if SourceIP(e) == "" {
      assert e.kind + "|" + SourceIP(e) == e.kind + "|";
      assert e.kind + "|" + "no-ip" == e.kind + "|no-ip";
    } else {
      assert |e.kind + "|" + SourceIP(e)| > |e.kind + "|"|;
    }
  }

  /** The types the service accepts have no separator. */
  lemma RegisteredHaveNoSeparator(kind: string)
    requires kind in Events.REGISTRY
    ensures '|' !in kind
  {
    Events.RegisteredArePlain(kind);
  }

  // ---- The history ----

  /** A call: its key, the clock reading under the lock, and the answer. */
  datatype Call = Call(key: string, at: int, answer: bool)

  /** The last call with this key that was let through. */
  function LastIndex(calls: seq<Call>, key: string): (r: Option<nat>)
    ensures r.Some? ==> r.value < |calls| && calls[r.value].key == key && calls[r.value].answer
    ensures r.Some? ==> forall i :: r.value < i < |calls| && calls[i].key == key ==> !calls[i].answer
    ensures r.None? ==> forall i :: 0 <= i < |calls| && calls[i].key == key ==> !calls[i].answer
  {
    if |calls| == 0 then None
    else
      var n := |calls| - 1;
      if calls[n].key == key && calls[n].answer then Some(n) else LastIndex(calls[..n], key)
  }

  /** The answer of a deduplicator that never forgets. */
  predicate Fresh(window: int, calls: seq<Call>, key: string, now: int) {
    match LastIndex(calls, key)
    case None => true
    case Some(i) => now - calls[i].at >= window
  }

  /** Answers are those of a deduplicator that never forgets. */
  predicate Honest(window: int, calls: seq<Call>) {
    forall i {:trigger calls[..i]} :: 0 <= i < |calls| ==> calls[i].answer == Fresh(window, calls[..i], calls[i].key, calls[i].at)
  }

  predicate Monotone(calls: seq<Call>) {
    forall i, j :: 0 <= i <= j < |calls| ==> calls[i].at <= calls[j].at
  }

  // ---- The cache ----

  /** The answer of ShouldNotify from the map alone. */
  predicate Admits(window: int, seen: map<string, int>, key: string, now: int) {
    key !in seen || now - seen[key] >= window
  }

  /** The map after a call: an accepted key is stamped, then everything older than the cutoff goes. */
  function Purged(window: int, seen: map<string, int>, key: string, now: int): map<string, int> {
    if Admits(window, seen, key, now) then
      Since(now - window, seen[key := now])
    else seen
  }

  /** What eviction leaves: the entries not older than the cutoff. */
  function Since(cutoff: int, seen: map<string, int>): map<string, int> {
    map k | k in seen && !(seen[k] < cutoff) :: seen[k]
  }

  /** What the map holds after an accepted call: the key just written, and of the others exactly
      those that are not older than a window; a suppressed call changes nothing. */
  lemma PurgedIs(window: int, seen: map<string, int>, key: string, now: int, k: string)
    requires window > 0
    ensures var after := Purged(window, seen, key, now);
            && (key !in seen || now - seen[key] >= window ==>
                  && (k in after <==> k == key || (k in seen && now - seen[k] <= window))
                  && (k in after ==> after[k] == if k == key then now else seen[k]))
            && (key in seen && now - seen[key] < window ==> after == seen)
  {
  }

  /** The map holds the last acceptance of each of its keys, and a key it lacks has been
      accepted never or more than a window ago. */
  ghost predicate Abbreviates(window: int, seen: map<string, int>, calls: seq<Call>) {
    forall k {:trigger LastIndex(calls, k)} ::
      match LastIndex(calls, k)
      case None => k !in seen
      case Some(i) => if k in seen then seen[k] == calls[i].at else calls[i].at + window < calls[|calls| - 1].at
  }

  /** Evicting refines remembering everything: same answer, and the map still abbreviates. */
  lemma EvictionRefines(window: int, seen: map<string, int>, calls: seq<Call>, key: string, now: int)
    requires window > 0 && Abbreviates(window, seen, calls)
    requires |calls| > 0 ==> calls[|calls| - 1].at <= now
    ensures Admits(window, seen, key, now) == Fresh(window, calls, key, now)
    ensures Abbreviates(window, Purged(window, seen, key, now), calls + [Call(key, now, Admits(window, seen, key, now))])
  {
    assert Admits(window, seen, key, now) == Fresh(window, calls, key, now) by {
      assert match LastIndex(calls, key)
             case None => key !in seen
             case Some(i) => if key in seen then seen[key] == calls[i].at else calls[i].at + window < calls[|calls| - 1].at;
    }
    var answer := Admits(window, seen, key, now);
    var calls', seen' := calls + [Call(key, now, answer)], Purged(window, seen, key, now);
    forall k ensures
      match LastIndex(calls', k)
      case None => k !in seen'
      case Some(i) => if k in seen' then seen'[k] == calls'[i].at else calls'[i].at + window < calls'[|calls'| - 1].at
    {
      assert calls'[..|calls|] == calls;
      assert match LastIndex(calls, k)
             case None => k !in seen
             case Some(i) => if k in seen then seen[k] == calls[i].at else calls[i].at + window < calls[|calls| - 1].at;
    }
  }

  lemma HonestAppend(window: int, calls: seq<Call>, call: Call)
    requires Honest(window, calls) && Monotone(calls)
    requires |calls| > 0 ==> calls[|calls| - 1].at <= call.at
    requires call.answer == Fresh(window, calls, call.key, call.at)
    ensures Honest(window, calls + [call]) && Monotone(calls + [call])
  {
    var calls' := calls + [call];
    forall i | 0 <= i < |calls'|
      ensures calls'[i].answer == Fresh(window, calls'[..i], calls'[i].key, calls'[i].at)
    {
      if i < |calls| { assert calls'[..i] == calls[..i]; } else { assert calls'[..i] == calls; }
    }
  }

  /** A call answered from the map keeps all that is known of map and history. */
  lemma CallKeeps(window: int, seen: map<string, int>, calls: seq<Call>, call: Call)
    requires window > 0 && Monotone(calls) && Honest(window, calls) && Abbreviates(window, seen, calls)
    requires |calls| > 0 ==> calls[|calls| - 1].at <= call.at
    requires call.answer == Admits(window, seen, call.key, call.at)
    ensures call.answer == Fresh(window, calls, call.key, call.at)
    ensures Monotone(calls + [call]) && Honest(window, calls + [call])
    ensures Abbreviates(window, Purged(window, seen, call.key, call.at), calls + [call])
  {
    EvictionRefines(window, seen, calls, call.key, call.at);
    HonestAppend(window, calls, call);
  }

  class Deduplicator {
    const enabled: bool
    const window: int
    var seen: map<string, int>

    /** The calls that got the lock, in that order, with their answers. */
    ghost var calls: seq<Call>

    ghost predicate Valid()
      reads this
    {
      window > 0 && Monotone(calls) && Honest(window, calls) && Abbreviates(window, seen, calls)
    }

    /** No call is later than this. */
    ghost predicate UpTo(now: int)
      reads this
    {
      |calls| > 0 ==> calls[|calls| - 1].at <= now
    }

    constructor (enabled: bool, windowSeconds: int)
      ensures Valid() && calls == [] && seen == map[]
      ensures this.enabled == enabled
      ensures window == if windowSeconds <= 0 then 60 * SECOND else windowSeconds * SECOND
    {
      var seconds := if windowSeconds <= 0 then 60 else windowSeconds;
      this.enabled := enabled;
      this.window := seconds * SECOND;
      this.seen := map[];
      this.calls := [];
    }

    /** `now` is the clock reading taken while the lock is held. */
    method ShouldNotify(event: Event, now: int) returns (notify: bool)
      requires Valid() && UpTo(now)
      modifies this
      ensures Valid() && UpTo(now)
      ensures !enabled ==> notify && calls == old(calls) && seen == old(seen)
      ensures enabled ==> notify == Fresh(window, old(calls), Key(event), now)
      ensures enabled ==> calls == old(calls) + [Call(Key(event), now, notify)]
      ensures enabled ==> seen == Purged(window, old(seen), Key(event), now)
      ensures enabled && notify ==> Key(event) in seen && seen[Key(event)] == now
    {
      if !enabled {
        return true;
      }
      var key := event.kind + "|" + SourceIP(event);
      if key == event.kind + "|" {
        key := event.kind + "|no-ip";
      }
      notify := ShouldAccept(key, now);
    }

    /** The locked section. */
    method ShouldAccept(key: string, now: int) returns (notify: bool)
      requires Valid() && UpTo(now)
      modifies this
      ensures Valid() && UpTo(now)
      ensures notify == Fresh(window, old(calls), key, now)
      ensures calls == old(calls) + [Call(key, now, notify)]
      ensures seen == Purged(window, old(seen), key, now)
      ensures notify ==> key in seen && seen[key] == now
    {
      ghost var call := Call(key, now, Admits(window, seen, key, now));
      CallKeeps(window, seen, calls, call);
      calls := calls + [call];
      if key in seen && now - seen[key] < window {
        return false;
      }
      Stamp(key, now);
      return true;
    }

    method Stamp(key: string, now: int)
      requires window > 0
      modifies this`seen
      ensures seen == Since(now - window, old(seen)[key := now]) && key in seen && seen[key] == now
    {
      seen := seen[key := now];
      Evict(now - window);
    }

    /** The loop over the map that deletes what is older than the cutoff. */
    method Evict(cutoff: int)
      modifies this`seen
      ensures seen == Since(cutoff, old(seen))
    {
      ghost var stamped := seen;
      var rest := seen.Keys;
      while rest != {}
        invariant rest <= stamped.Keys
        invariant seen == map k | k in stamped && (k in rest || !(stamped[k] < cutoff)) :: stamped[k]
        decreases |rest|
      {
        var currentKey :| currentKey in rest;
        if seen[currentKey] < cutoff {
          seen := seen - {currentKey};
        }
        rest := rest - {currentKey};
      }
    }
  }

  // ---- How good the answers are ----

  /** The calls with this key that were let through. */
  function Accepted(calls: seq<Call>, key: string): set<nat> {
    set i: nat | i < |calls| && calls[i].key == key && calls[i].answer
  }

  /** A selection of calls with this key, any two at least a window apart. */
  predicate Separated(window: int, calls: seq<Call>, key: string, chosen: set<nat>) {
    && (forall i :: i in chosen ==> i < |calls| && calls[i].key == key)
    && (forall i, j :: i in chosen && j in chosen && i < j ==> calls[j].at - calls[i].at >= window)
  }

  /** Accepted calls are pairwise at least a window apart. */
  lemma AcceptedAreSeparated(window: int, calls: seq<Call>, key: string)
    requires Honest(window, calls) && Monotone(calls)
    ensures Separated(window, calls, key, Accepted(calls, key))
  {
    forall i, j | i in Accepted(calls, key) && j in Accepted(calls, key) && i < j
      ensures calls[j].at - calls[i].at >= window
    {
      assert Fresh(window, calls[..j], key, calls[j].at);
      var last := LastIndex(calls[..j], key);
      assert calls[..j][i].answer;
      assert calls[i].at <= calls[last.value].at;
    }
  }

  /** The accepted call that stands for call i: itself, or the one that suppressed it. */
  function Stand(calls: seq<Call>, key: string, i: nat): nat
    requires i < |calls|
  {
    if calls[i].answer then i
    else match LastIndex(calls[..i], key) case Some(j) => j case None => i
  }

  /** A suppressed call has an accepted call with its key less than a window before it. */
  lemma SuppressedIsCovered(window: int, calls: seq<Call>, key: string, i: nat)
    requires Honest(window, calls) && i < |calls| && calls[i].key == key
    ensures Stand(calls, key, i) in Accepted(calls, key) && Stand(calls, key, i) <= i
    ensures !calls[i].answer ==> Stand(calls, key, i) < i && calls[i].at - calls[Stand(calls, key, i)].at < window
  {
    assert calls[i].answer == Fresh(window, calls[..i], key, calls[i].at);
  }

  lemma {:induction false} ImageSize(calls: seq<Call>, key: string, chosen: set<nat>)
    requires forall i :: i in chosen ==> i < |calls|
    requires forall i, j :: i in chosen && j in chosen && i < j ==> Stand(calls, key, i) != Stand(calls, key, j)
    ensures |set i | i in chosen :: Stand(calls, key, i)| == |chosen|
  {
    if chosen != {} {
      var i :| i in chosen;
      var rest := chosen - {i};
      ImageSize(calls, key, rest);
      var image := set j | j in rest :: Stand(calls, key, j);
      assert (set j | j in chosen :: Stand(calls, key, j)) == image + {Stand(calls, key, i)};
      assert Stand(calls, key, i) !in image;
    }
  }

  lemma {:induction false} SubsetSize<T>(a: set<T>, b: set<T>)
    requires a <= b
    ensures |a| <= |b|
  {
    if a != {} {
      var x :| x in a;
      SubsetSize(a - {x}, b - {x});
    }
  }

  /** No selection of the calls of one key that keeps the distance is larger than the accepted ones. */
  lemma AcceptedAreOptimal(window: int, calls: seq<Call>, key: string, chosen: set<nat>)
    requires window > 0 && Honest(window, calls) && Monotone(calls)
    requires Separated(window, calls, key, chosen)
    ensures |chosen| <= |Accepted(calls, key)|
  {
    forall i, j | i in chosen && j in chosen && i < j ensures Stand(calls, key, i) != Stand(calls, key, j) {
      SuppressedIsCovered(window, calls, key, i);
      SuppressedIsCovered(window, calls, key, j);
      assert calls[Stand(calls, key, i)].at <= calls[i].at;
    }
    ImageSize(calls, key, chosen);
    var image := set i | i in chosen :: Stand(calls, key, i);
    forall x | x in image ensures x in Accepted(calls, key) {
      var i :| i in chosen && x == Stand(calls, key, i);
      SuppressedIsCovered(window, calls, key, i);
    }
    SubsetSize(image, Accepted(calls, key));
  }

  lemma {:induction false} Latest(chosen: set<nat>) returns (m: nat)
    requires chosen != {}
    ensures m in chosen && forall i :: i in chosen ==> i <= m
  {
    var x :| x in chosen;
    if chosen == {x} {
      m := x;
    } else {
      var y := Latest(chosen - {x});
      m := if x < y then y else x;
      assert forall i :: i in chosen ==> i == x || i in chosen - {x};
    }
  }

  /** n accepted calls of one key take up at least n - 1 windows. */
  lemma {:induction false} SpanOfSeparated(window: int, calls: seq<Call>, key: string, chosen: set<nat>, start: int, end: int)
    requires window > 0 && Separated(window, calls, key, chosen) && chosen != {}
    requires forall i :: i in chosen ==> start <= calls[i].at <= end
    ensures window * (|chosen| - 1) <= end - start
  {
    var m := Latest(chosen);
    var rest := chosen - {m};
    assert |chosen| == |rest| + 1;
    if rest == {} {
      assert window * (|chosen| - 1) == 0;
    } else {
      SpanOfSeparated(window, calls, key, rest, start, end - window);
      assert window * (|chosen| - 1) == window * (|rest| - 1) + window;
    }
  }

  /** The accepted calls of a key in a span of time. */
  function AcceptedWithin(calls: seq<Call>, key: string, start: int, end: int): set<nat> {
    set i | i in Accepted(calls, key) && start <= calls[i].at <= end
  }

  /** In any span of length L at most L / window + 1 calls of one key are accepted. */
  lemma AcceptedInSpan(window: int, calls: seq<Call>, key: string, start: int, length: nat)
    requires window > 0 && Honest(window, calls) && Monotone(calls)
    ensures |AcceptedWithin(calls, key, start, start + length)| <= length / window + 1
  {
    SpanOfAccepted(window, calls, key, start, start + length);
    CountBound(window, |AcceptedWithin(calls, key, start, start + length)|, length);
  }

  lemma SpanOfAccepted(window: int, calls: seq<Call>, key: string, start: int, end: int)
    requires window > 0 && Honest(window, calls) && Monotone(calls)
    ensures |AcceptedWithin(calls, key, start, end)| > 0 ==>
              window * (|AcceptedWithin(calls, key, start, end)| - 1) <= end - start
  {
    if AcceptedWithin(calls, key, start, end) != {} {
      AcceptedAreSeparated(window, calls, key);
      SpanOfSeparated(window, calls, key, AcceptedWithin(calls, key, start, end), start, end);
    }
  }

  lemma CountBound(window: int, count: nat, length: nat)
    requires window > 0 && (count > 0 ==> window * (count - 1) <= length)
    ensures count <= length / window + 1
  {
    if count > 0 { QuotientBound(window, count - 1, length); }
  }

  lemma QuotientBound(window: int, n: nat, length: nat)
    requires window > 0 && window * n <= length
    ensures n <= length / window
  {
    var q := length / window;
    assert length < window * (q + 1);
    if n > q {
      ProductMonotone(window, q + 1, n);
    }
  }

  lemma ProductMonotone(w: int, a: int, b: int)
    requires w > 0 && a <= b
    ensures w * a <= w * b
  {
  }

}
