/** The store (internal/storage/postgres.go): the subscription relation and the preference rows,
    with the effect the queries and unique constraints give each call.  A call that the database
    fails has no effect and no result. */
module Storage {

  import opened Wrappers
  import Text

  datatype UserPrefs = UserPrefs(locale: string, timezone: string, short: bool)

  datatype Tables = Tables(subscriptions: set<(string, string)>, prefs: map<string, UserPrefs>)

  const NO_PREFS := UserPrefs("", "", false)

  function EventsOf(subscriptions: set<(string, string)>, userID: string): set<string> {
    set p | p in subscriptions && p.0 == userID :: p.1
  }

  function SubscribersOf(subscriptions: set<(string, string)>, eventType: string): set<string> {
    set p | p in subscriptions && p.1 == eventType :: p.0
  }

  function Users(subscriptions: set<(string, string)>): set<string> {
    set p | p in subscriptions :: p.0
  }

  /** The pairs that subscribing a user to a list of types inserts. */
  function PairsOf(userID: string, eventTypes: seq<string>): set<(string, string)> {
    set e | e in eventTypes :: (Text.Trim(userID), Text.Trim(e))
  }

  function PrefsOf(prefs: map<string, UserPrefs>, userID: string): UserPrefs {
    if userID in prefs then prefs[userID] else NO_PREFS
  }

  /** What SetPrefs stores: fields left empty keep their current value. */
  function Merged(current: UserPrefs, given: UserPrefs): UserPrefs {
    UserPrefs(if given.locale == "" then current.locale else given.locale,
              if given.timezone == "" then current.timezone else given.timezone,
              given.short)
  }

  /** A user and the number of events subscribed to. */
  datatype Row = Row(userID: string, count: nat)

  predicate RowBefore(a: Row, b: Row) {
    a.count > b.count || (a.count == b.count && Text.Less(a.userID, b.userID))
  }

  class Store {
    var subscriptions: set<(string, string)>
    var prefs: map<string, UserPrefs>

    function View(): Tables
      reads this
    {
      Tables(subscriptions, prefs)
    }

    constructor ()
      ensures View() == Tables({}, map[])
    {
      subscriptions := {};
      prefs := map[];
    }

    method Subscribe(userID: string, eventType: string, fault: bool) returns (added: Option<bool>)
      modifies this`subscriptions
      ensures fault ==> added.None? && subscriptions == old(subscriptions)
      ensures !fault ==> subscriptions == old(subscriptions) + {(Text.Trim(userID), Text.Trim(eventType))}
      ensures !fault ==> added == Some((Text.Trim(userID), Text.Trim(eventType)) !in old(subscriptions))
    {
      if fault {
        return None;
      }
      var pair := (Text.Trim(userID), Text.Trim(eventType));
      added := Some(pair !in subscriptions);
      subscriptions := subscriptions + {pair};
    }

    /** Stops at the first insertion that fails, if `faultAt` is the number of one. */
    method SubscribeAll(userID: string, eventTypes: seq<string>, faultAt: nat) returns (added: nat, ok: bool)
      modifies this`subscriptions
      ensures ok == (faultAt >= |eventTypes|)
      ensures subscriptions == old(subscriptions) + PairsOf(userID, if ok then eventTypes else eventTypes[..faultAt])
      ensures added == |subscriptions| - |old(subscriptions)|
    {
      added := 0;
      for i := 0 to |eventTypes|
        invariant i <= faultAt
        invariant subscriptions == old(subscriptions) + PairsOf(userID, eventTypes[..i])
        invariant added == |subscriptions| - |old(subscriptions)|
      {
        SizeAfterInsertion(subscriptions, (Text.Trim(userID), Text.Trim(eventTypes[i])));
        PairsAppend(userID, eventTypes, i);
        var inserted := Subscribe(userID, eventTypes[i], i == faultAt);
        if inserted.None? {
          return added, false;
        }
        if inserted.value {
          added := added + 1;
        }
      }
      assert eventTypes[..|eventTypes|] == eventTypes;
      ok := true;
    }

    method Unsubscribe(userID: string, eventType: string, fault: bool) returns (removed: Option<bool>)
      modifies this`subscriptions
      ensures fault ==> removed.None? && subscriptions == old(subscriptions)
      ensures !fault ==> subscriptions == old(subscriptions) - {(userID, eventType)}
      ensures !fault ==> removed == Some((userID, eventType) in old(subscriptions))
    {
      if fault {
        return None;
      }
      removed := Some((userID, eventType) in subscriptions);
      subscriptions := subscriptions - {(userID, eventType)};
    }

    method UnsubscribeAll(userID: string, fault: bool) returns (removed: Option<nat>)
      modifies this`subscriptions
      ensures fault ==> removed.None? && subscriptions == old(subscriptions)
      ensures !fault ==> subscriptions == set p | p in old(subscriptions) && p.0 != userID
      ensures !fault ==> removed == Some(|old(subscriptions)| - |subscriptions|)
      ensures !fault ==> removed == Some(|EventsOf(old(subscriptions), userID)|)
    {
      if fault {
        return None;
      }
      var mine := set p | p in subscriptions && p.0 == userID;
      ghost var before := subscriptions;
      subscriptions := subscriptions - mine;
      CardinalityOfDifference(before, mine);
      SizeOfUser(before, userID);
      removed := Some(|mine|);
    }

    method GetSubscriptions(userID: string, fault: bool) returns (list: Option<seq<string>>)
      ensures fault ==> list.None?
      ensures !fault ==> list.Some? && Text.Ascending(list.value)
                         && Text.Elements(list.value) == EventsOf(subscriptions, userID)
    {
      if fault {
        return None;
      }
      var rows := OrderBy(EventsOf(subscriptions, userID));
      list := Some(rows);
    }

    method GetSubscribers(eventType: string, fault: bool) returns (list: Option<seq<string>>)
      ensures fault ==> list.None?
      ensures !fault ==> list.Some? && Text.Ascending(list.value)
                         && Text.Elements(list.value) == SubscribersOf(subscriptions, eventType)
    {
      if fault {
        return None;
      }
      var rows := OrderBy(SubscribersOf(subscriptions, eventType));
      list := Some(rows);
    }

    method SubscribersCount(fault: bool) returns (count: Option<nat>)
      ensures count == if fault then None else Some(|Users(subscriptions)|)
    {
      if fault {
        return None;
      }
      count := Some(|Users(subscriptions)|);
    }

    /** One row for each user with subscriptions, by descending count, then by user. */
    method UsersWithSubscriptionCount(fault: bool) returns (rows: Option<seq<Row>>)
      ensures fault ==> rows.None?
      ensures !fault ==>
                && rows.Some? && RowsOf(subscriptions, Users(subscriptions), rows.value)
                && (forall i, j :: 0 <= i < j < |rows.value| ==> RowBefore(rows.value[i], rows.value[j]))
                && (forall i, j :: 0 <= i < j < |rows.value| ==>
                      rows.value[i].count > rows.value[j].count
                      || (rows.value[i].count == rows.value[j].count && Text.Less(rows.value[i].userID, rows.value[j].userID)))
    {
      if fault {
        return None;
      }
      var counted := CountByUser(subscriptions);
      rows := Some(counted);
    }

    method GetPrefs(userID: string, fault: bool) returns (found: Option<UserPrefs>)
      ensures found == if fault then None else Some(PrefsOf(prefs, userID))
    {
      if fault {
        return None;
      }
      found := Some(if userID in prefs then prefs[userID] else NO_PREFS);
    }

    method SetPrefs(userID: string, given: UserPrefs, readFault: bool, writeFault: bool) returns (ok: bool)
      modifies this`prefs
      ensures ok == (!readFault && !writeFault)
      ensures prefs == if ok then old(prefs)[userID := Merged(PrefsOf(old(prefs), userID), given)] else old(prefs)
    {
      var current := GetPrefs(userID, readFault);
      if current.None? {
        return false;
      }
      var next := given;
      if next.locale == "" {
        next := next.(locale := current.value.locale);
      }
      if next.timezone == "" {
        next := next.(timezone := current.value.timezone);
      }
      if writeFault {
        return false;
      }
      prefs := prefs[userID := next];
      ok := true;
    }
  }

  /** The grouping and ordering of that query. */
  method CountByUser(subscriptions: set<(string, string)>) returns (rows: seq<Row>)
    ensures RowsOf(subscriptions, Users(subscriptions), rows)
    ensures forall i, j :: 0 <= i < j < |rows| ==> RowBefore(rows[i], rows[j])
  {
    rows := [];
    var rest := Users(subscriptions);
    while rest != {}
      invariant rest <= Users(subscriptions)
      invariant RowsOf(subscriptions, Users(subscriptions) - rest, rows)
      invariant forall i, j :: 0 <= i < j < |rows| ==> RowBefore(rows[i], rows[j])
      decreases |rest|
    {
      var userID :| userID in rest;
      var row := Row(userID, |EventsOf(subscriptions, userID)|);
      var at := 0;
      while at < |rows| && RowBefore(rows[at], row)
        invariant at <= |rows|
        invariant forall i :: 0 <= i < at ==> RowBefore(rows[i], row)
      {
        at := at + 1;
      }
      InsertedInOrder(rows, row, at);
      InsertedRow(subscriptions, Users(subscriptions) - rest, rows, row, at);
      assert Users(subscriptions) - (rest - {userID}) == Users(subscriptions) - rest + {userID};
      rows := Inserted(rows, row, at);
      rest := rest - {userID};
    }
    assert Users(subscriptions) - rest == Users(subscriptions);
  }

  /** The rows of a query in ascending order. */
  method OrderBy(items: set<string>) returns (rows: seq<string>)
    ensures Text.Ascending(rows) && Text.Elements(rows) == items
  {
    rows := [];
    var rest := items;
    while rest != {}
      invariant rest <= items
      invariant Text.Ascending(rows) && Text.Elements(rows) == items - rest
      decreases |rest|
    {
      var x :| x in rest;
      assert x in rows ==> x in Text.Elements(rows);
      Text.InsertAscending(x, rows);
      Text.InsertElements(x, rows);
      rows := Text.Insert(x, rows);
      assert items - (rest - {x}) == items - rest + {x};
      rest := rest - {x};
    }
    assert items - rest == items;
  }

  lemma PairsAppend(userID: string, eventTypes: seq<string>, i: nat)
    requires i < |eventTypes|
    ensures PairsOf(userID, eventTypes[..i + 1])
            == PairsOf(userID, eventTypes[..i]) + {(Text.Trim(userID), Text.Trim(eventTypes[i]))}
  {
    assert eventTypes[..i + 1] == eventTypes[..i] + [eventTypes[i]];
  }

  lemma SizeAfterInsertion<T>(a: set<T>, x: T)
    ensures |a + {x}| == |a| + if x in a then 0 else 1
  {
    if x in a { assert a + {x} == a; }
  }

  lemma CardinalityOfDifference<T>(a: set<T>, b: set<T>)
    requires b <= a
    ensures |a - b| == |a| - |b|
  {
  }

  /** A user has as many subscription pairs as event types. */
  lemma {:induction false} SizeOfUser(subscriptions: set<(string, string)>, userID: string)
    ensures |set p | p in subscriptions && p.0 == userID| == |EventsOf(subscriptions, userID)|
    decreases |subscriptions|
  {
    var mine := set p | p in subscriptions && p.0 == userID;
    if mine == {} {
      assert forall p :: p in subscriptions && p.0 == userID ==> p in mine;
      assert EventsOf(subscriptions, userID) == {};
    } else {
      var p :| p in mine;
      SizeOfUser(subscriptions - {p}, userID);
      assert mine == (set q | q in subscriptions - {p} && q.0 == userID) + {p};
      assert EventsOf(subscriptions, userID) == EventsOf(subscriptions - {p}, userID) + {p.1};
    }
  }

  // ---- Views of the relation ----

  /** The two queries are two views of one relation. */
  lemma ViewsAgree(subscriptions: set<(string, string)>, userID: string, eventType: string,
                   users: seq<string>, types: seq<string>)
    requires Text.Elements(users) == SubscribersOf(subscriptions, eventType)
    requires Text.Elements(types) == EventsOf(subscriptions, userID)
    ensures userID in users <==> eventType in types
    ensures userID in users <==> (userID, eventType) in subscriptions
  {
    assert userID in users <==> userID in Text.Elements(users);
    assert eventType in types <==> eventType in Text.Elements(types);
    assert userID in SubscribersOf(subscriptions, eventType) <==> (userID, eventType) in subscriptions;
    assert eventType in EventsOf(subscriptions, userID) <==> (userID, eventType) in subscriptions;
  }

  /** One row, with the right count, for each of the users. */
  predicate RowsOf(subscriptions: set<(string, string)>, users: set<string>, rows: seq<Row>) {
    && (forall i :: 0 <= i < |rows| ==> rows[i].userID in users && rows[i].count == |EventsOf(subscriptions, rows[i].userID)|)
    && (forall u :: u in users ==> HasRow(rows, u))
    && (forall i, j :: 0 <= i < j < |rows| ==> rows[i].userID != rows[j].userID)
  }

  predicate HasRow(rows: seq<Row>, userID: string) {
    exists i :: 0 <= i < |rows| && rows[i].userID == userID
  }

  function Inserted(rows: seq<Row>, row: Row, at: nat): seq<Row>
    requires at <= |rows|
  {
    rows[..at] + [row] + rows[at..]
  }

  lemma InsertedRow(subscriptions: set<(string, string)>, users: set<string>, rows: seq<Row>, row: Row, at: nat)
    requires RowsOf(subscriptions, users, rows) && at <= |rows|
    requires row.userID !in users && row.count == |EventsOf(subscriptions, row.userID)|
    ensures RowsOf(subscriptions, users + {row.userID}, Inserted(rows, row, at))
  {
    var rows' := Inserted(rows, row, at);
    forall u | u in users + {row.userID} ensures HasRow(rows', u) {
      if u == row.userID {
        assert rows'[at].userID == u;
      } else {
        assert HasRow(rows, u);
        var i :| 0 <= i < |rows| && rows[i].userID == u;
        assert rows'[if i < at then i else i + 1].userID == u;
      }
    }
  }

  lemma RowOrder(a: Row, b: Row, c: Row)
    ensures a.userID != b.userID ==> RowBefore(a, b) || RowBefore(b, a)
    ensures RowBefore(a, b) && RowBefore(b, c) ==> RowBefore(a, c)
  {
    Text.LessTotal(a.userID, b.userID);
    if Text.Less(a.userID, b.userID) && Text.Less(b.userID, c.userID) {
      Text.LessTransitive(a.userID, b.userID, c.userID);
    }
  }

  lemma InsertedInOrder(rows: seq<Row>, row: Row, at: nat)
    requires at <= |rows| && forall i :: 0 <= i < |rows| ==> rows[i].userID != row.userID
    requires forall i, j :: 0 <= i < j < |rows| ==> RowBefore(rows[i], rows[j])
    requires forall i :: 0 <= i < at ==> RowBefore(rows[i], row)
    requires at < |rows| ==> !RowBefore(rows[at], row)
    ensures var rows' := Inserted(rows, row, at); forall i, j :: 0 <= i < j < |rows'| ==> RowBefore(rows'[i], rows'[j])
  {
    var rows' := Inserted(rows, row, at);
    forall j | at <= j < |rows| ensures RowBefore(row, rows[j]) {
      RowOrder(row, rows[at], rows[j]);
    }
    forall i, j | 0 <= i < j < |rows'| ensures RowBefore(rows'[i], rows'[j]) {
      assert rows'[i] == if i < at then rows[i] else if i == at then row else rows[i - 1];
      assert rows'[j] == if j < at then rows[j] else if j == at then row else rows[j - 1];
    }
  }

  function SumCounts(rows: seq<Row>): nat {
    if |rows| == 0 then 0 else SumCounts(rows[..|rows| - 1]) + rows[|rows| - 1].count
  }

  lemma WithoutUser(subscriptions: set<(string, string)>, userID: string)
    requires userID in Users(subscriptions)
    ensures var rest := set p | p in subscriptions && p.0 != userID;
            && Users(rest) == Users(subscriptions) - {userID}
            && |subscriptions| == |rest| + |EventsOf(subscriptions, userID)|
            && forall u :: u != userID ==> EventsOf(rest, u) == EventsOf(subscriptions, u)
  {
    var rest := set p | p in subscriptions && p.0 != userID;
    var mine := set p | p in subscriptions && p.0 == userID;
    assert subscriptions == rest + mine;
    SizeOfUser(subscriptions, userID);
    forall u | u in Users(subscriptions) - {userID} ensures u in Users(rest) {
      var p :| p in subscriptions && p.0 == u;
      assert p in rest;
    }
  }

  /** The per-user counts add up to the size of the relation, in as many rows as SubscribersCount. */
  lemma {:induction false} CountsAddUp(subscriptions: set<(string, string)>, rows: seq<Row>)
    requires RowsOf(subscriptions, Users(subscriptions), rows)
    ensures SumCounts(rows) == |subscriptions| && |rows| == |Users(subscriptions)|
    decreases |rows|
  {
    if |rows| == 0 {
      assert Users(subscriptions) == {};
      NoUsersNoPairs(subscriptions);
    } else {
      var n := |rows| - 1;
      var u := rows[n].userID;
      var rest := set p | p in subscriptions && p.0 != u;
      WithoutUser(subscriptions, u);
      forall v | v in Users(rest) ensures HasRow(rows[..n], v) {
        assert HasRow(rows, v);
        var i :| 0 <= i < |rows| && rows[i].userID == v;
        assert rows[..n][i].userID == v;
      }
      CountsAddUp(rest, rows[..n]);
    }
  }

  lemma NoUsersNoPairs(subscriptions: set<(string, string)>)
    ensures Users(subscriptions) == {} ==> subscriptions == {}
  {
    if p :| p in subscriptions {
      assert p.0 in Users(subscriptions);
    }
  }

}
