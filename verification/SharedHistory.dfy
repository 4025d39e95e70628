/**
 * All sessions of one application at once: whatever is created and appended in them, what Get returns of an
 * `app:`, a `user:` or a session key.
 */
module SharedHistory {

  import opened Common
  import opened StateKeys
  import opened SessionRows
  import opened SessionLoad
  import opened SessionColumns
  import opened SessionStore
  import opened SharedState
  import opened Snapshots

  // ---- The sessions, and the calls that change them ----

  /** One session: its user, its rows, and when each state row was last written. */
  datatype Member = Member(userId: string, table: Table, stamps: map<Stored, int>)

  /** By session. */
  type Sessions = map<string, Member>

  /** The time of a call is now() of its transaction. */
  datatype Call =
    | Creates(id: string, userId: string, at: int, initial: map<string, Json>, rows: seq<StateDeltaRow>)
    | Appends(id: string, at: int, attempt: Attempt)

  ghost predicate Encoded(call: Call) {
    match call
    case Creates(_, _, _, initial, rows) => FlattensState(Some(initial), rows)
    case Appends(id, _, a) => Encodable(a.event) && Encodes(id, a.event, a.rows)
  }

  function ColumnsOf(rows: seq<StateDeltaRow>): set<Stored> {
    set i | 0 <= i < |rows| :: Stored(rows[i].scope, rows[i].key)
  }

  /** updated_at_ts of the rows an upsert writes. */
  function Restamped(stamps: map<Stored, int>, rows: seq<StateDeltaRow>, at: int): map<Stored, int> {
    stamps + map st | st in ColumnsOf(rows) :: at
  }

  /** The call was carried out and wrote rows: it was not refused, and its event was new. */
  predicate Writes(db: Sessions, call: Call) {
    match call
    case Creates(id, _, _, _, rows) => id !in db && Create(None, rows).Ok?
    case Appends(id, _, a) =>
      id in db && Append(db[id].table, a.rows).Ok? && !Holds(db[id].table.events, a.rows.event.adkId)
  }

  function Do(db: Sessions, call: Call): Sessions {
    if !Writes(db, call) then db
    else
      match call
      case Creates(id, user, at, _, rows) => db[id := Member(user, Create(None, rows).value, Restamped(map[], rows, at))]
      case Appends(id, at, a) =>
        db[id := Member(db[id].userId, Append(db[id].table, a.rows).value, Restamped(db[id].stamps, a.rows.stateDeltas, at))]
  }

  function DoAll(calls: seq<Call>): Sessions {
    if calls == [] then map[] else Do(DoAll(calls[..|calls| - 1]), calls[|calls| - 1])
  }

  // ---- The reference: who set what when ----

  datatype Change = Change(id: string, userId: string, at: int, delta: map<string, Json>)

  function ChangeOf(db: Sessions, call: Call): Change
    requires Writes(db, call)
  {
    match call
    case Creates(id, user, at, initial, _) => Change(id, user, at, initial)
    case Appends(id, at, a) => Change(id, db[id].userId, at, DeltaOf(a.event))
  }

  /** The changes of the calls that wrote, in order. */
  function Changes(calls: seq<Call>): seq<Change> {
    if calls == [] then []
    else
      var init, call := calls[..|calls| - 1], calls[|calls| - 1];
      Changes(init) + if Writes(DoAll(init), call) then [ChangeOf(DoAll(init), call)] else []
  }

  /** Change i sets a persisted key, and no later one of the same session does. */
  ghost predicate Stands(changes: seq<Change>, i: int, k: string) {
    && 0 <= i < |changes| && k in changes[i].delta && Persisted(k)
    && forall j :: i < j < |changes| && changes[j].id == changes[i].id ==> k !in changes[j].delta
  }

  // ---- The rows of one session hold its last changes ----

  function Values(changes: seq<Change>, id: string): map<string, Json> {
    if changes == [] then map[]
    else
      var before, last := Values(changes[..|changes| - 1], id), changes[|changes| - 1];
      if last.id == id then before + PersistedOnly(last.delta) else before
  }

  function Dated(delta: map<string, Json>, at: int): map<string, int> {
    map k | k in delta && Persisted(k) :: at
  }

  function Times(changes: seq<Change>, id: string): map<string, int> {
    if changes == [] then map[]
    else
      var before, last := Times(changes[..|changes| - 1], id), changes[|changes| - 1];
      if last.id == id then before + Dated(last.delta, last.at) else before
  }

  lemma StandsMore(changes: seq<Change>, last: Change, i: int, k: string)
    ensures i < |changes| ==> (Stands(changes + [last], i, k) <==>
      Stands(changes, i, k) && !(last.id == changes[i].id && k in last.delta))
    ensures i == |changes| ==> (Stands(changes + [last], i, k) <==> k in last.delta && Persisted(k))
  {
    hide Persisted;
    var more := changes + [last];
    assert forall j :: 0 <= j < |changes| ==> more[j] == changes[j];
    assert more[|changes|] == last;
    if Stands(changes, i, k) && i < |changes| && !(last.id == changes[i].id && k in last.delta) {
      forall j | i < j < |more| && more[j].id == more[i].id ensures k !in more[j].delta {
        assert j < |changes| ==> changes[j].id == changes[i].id;
      }
    }
    if Stands(more, i, k) && 0 <= i < |changes| {
      forall j | i < j < |changes| && changes[j].id == changes[i].id ensures k !in changes[j].delta {
        assert more[j].id == more[i].id;
      }
    }
  }

  /** A key of the session has the value and the time of the change that stands. */
  lemma {:induction false} ValueStands(changes: seq<Change>, id: string, k: string)
    ensures k in Values(changes, id) <==> k in Times(changes, id)
    ensures k in Values(changes, id) <==> exists i :: Stands(changes, i, k) && changes[i].id == id
    ensures forall i :: Stands(changes, i, k) && changes[i].id == id ==>
      k in Values(changes, id) && Values(changes, id)[k] == changes[i].delta[k] && Times(changes, id)[k] == changes[i].at
  {
    hide Persisted, Stands;
    if changes == [] {
      assert forall i :: !Stands(changes, i, k) by { hide *; NoneStands(k); }
    } else {
      var init, last := changes[..|changes| - 1], changes[|changes| - 1];
      assert changes == init + [last];
      ValueStands(init, id, k);
      forall i ensures 0 <= i < |init| ==> (Stands(changes, i, k) <==> Stands(init, i, k) && !(last.id == init[i].id && k in last.delta))
               ensures i == |init| ==> (Stands(changes, i, k) <==> k in last.delta && Persisted(k))
               ensures Stands(changes, i, k) ==> 0 <= i < |changes|
               ensures Stands(init, i, k) ==> 0 <= i < |init| && k in init[i].delta && Persisted(k)
      {
        StandsMore(init, last, i, k);
        StandsBounds(changes, i, k);
        StandsBounds(init, i, k);
      }
      if k in Values(init, id) && !(last.id == id && k in last.delta && Persisted(k)) {
        var i :| Stands(init, i, k) && init[i].id == id;
        assert changes[i] == init[i] && Stands(changes, i, k);
      }
    }
  }

  lemma StandsBounds(changes: seq<Change>, i: int, k: string)
    ensures Stands(changes, i, k) ==> 0 <= i < |changes| && k in changes[i].delta && Persisted(k)
  {
  }

  lemma NoneStands(k: string)
    ensures forall i :: !Stands([], i, k)
  {
  }

  /** The rows of every session hold what its changes left, each at its time. */
  ghost predicate RowsHold(db: Sessions, changes: seq<Change>) {
    && (forall id :: id in db ==>
         Represents(db[id].table.state, Values(changes, id)) && Represents(db[id].stamps, Times(changes, id)))
    && forall i :: 0 <= i < |changes| ==> changes[i].id in db && changes[i].userId == db[changes[i].id].userId
  }

  lemma ColumnsExactly(delta: map<string, Json>, rows: seq<StateDeltaRow>)
    requires FlattensState(Some(delta), rows)
    ensures forall st :: st in ColumnsOf(rows) <==> exists k :: k in delta && ScopeOf(k) == Some(st)
  {
    hide ScopeOf, DeltaRows;
    var keys :| Lists(keys, delta.Keys) && rows == DeltaRows(delta, keys);
    DeltaRowsMembers(delta, keys);
    forall st | st in ColumnsOf(rows) ensures exists k :: k in delta && ScopeOf(k) == Some(st) {
      var i :| 0 <= i < |rows| && st == Stored(rows[i].scope, rows[i].key);
      assert rows[i] in rows;
    }
    forall k | k in delta && Persisted(k) ensures ScopeOf(k).value in ColumnsOf(rows) {
      var row := StateDeltaRow(ScopeOf(k).value.scope, ScopeOf(k).value.key, Some(delta[k]));
      assert k in keys && row in rows;
      var i :| 0 <= i < |rows| && rows[i] == row;
      assert Stored(rows[i].scope, rows[i].key) == ScopeOf(k).value;
    }
  }

  lemma RestampedRepresents(stamps: map<Stored, int>, times: map<string, int>, delta: map<string, Json>,
      rows: seq<StateDeltaRow>, at: int)
    requires Represents(stamps, times) && FlattensState(Some(delta), rows)
    ensures Represents(Restamped(stamps, rows, at), times + Dated(delta, at))
  {
    hide ScopeOf, ColumnsOf, FlattensState;
    ColumnsExactly(delta, rows);
    var after, m := Restamped(stamps, rows, at), times + Dated(delta, at);
    forall k | k in m ensures Persisted(k) && ScopeOf(k).value in after && after[ScopeOf(k).value] == m[k] {
      if ScopeOf(k).value in ColumnsOf(rows) {
        var x :| x in delta && ScopeOf(x) == Some(ScopeOf(k).value);
        ColumnsDistinguish(x, k);
      }
    }
    forall st | st in after ensures Key(st.scope, st.key) in m && ScopeOf(Key(st.scope, st.key)) == Some(st) {
      if st in ColumnsOf(rows) {
        var k :| k in delta && ScopeOf(k) == Some(st);
        KeyRestores(k);
        assert k in m;
      } else {
        assert Key(st.scope, st.key) in times;
      }
    }
  }

  lemma NothingRestamped(stamps: map<Stored, int>, times: map<string, int>, at: int)
    ensures Restamped(stamps, [], at) == stamps && times + Dated(map[], at) == times
  {
    assert ColumnsOf([]) == {};
  }

  lemma WriteKept(db: Sessions, changes: seq<Change>, call: Call)
    requires RowsHold(db, changes) && Encoded(call) && Writes(db, call)
    ensures RowsHold(Do(db, call), changes + [ChangeOf(db, call)])
  {
    hide Represents, NotNull, Upserted, PersistedOnly, FlattensState, Restamped, Encodes, Encodable, Holds, Create, Append,
         Dated, HasRoom;
    var last := ChangeOf(db, call);
    var after, more := Do(db, call), changes + [last];
    assert more[..|more| - 1] == changes;
    match call {
      case Creates(id, user, at, initial, rows) => CreatedKept(db, changes, call);
      case Appends(id, at, a) => AppendedKept(db, changes, call);
    }
    forall id | id in after
      ensures Represents(after[id].table.state, Values(more, id)) && Represents(after[id].stamps, Times(more, id))
    {
    }
  }

  lemma NoChanges(db: Sessions, changes: seq<Change>, id: string)
    requires RowsHold(db, changes) && id !in db
    ensures Values(changes, id) == map[] && Times(changes, id) == map[]
    decreases |changes|
  {
    hide Represents;
    if changes != [] {
      NeverChanged(changes, id);
    }
  }

  lemma {:induction false} NeverChanged(changes: seq<Change>, id: string)
    requires forall i :: 0 <= i < |changes| ==> changes[i].id != id
    ensures Values(changes, id) == map[] && Times(changes, id) == map[]
  {
    if changes != [] {
      NeverChanged(changes[..|changes| - 1], id);
    }
  }

  lemma CreatedKept(db: Sessions, changes: seq<Change>, call: Call)
    requires RowsHold(db, changes) && call.Creates? && Encoded(call) && Writes(db, call)
    ensures var after, more := Do(db, call)[call.id], changes + [ChangeOf(db, call)];
      Represents(after.table.state, Values(more, call.id)) && Represents(after.stamps, Times(more, call.id))
  {
    hide Represents, NotNull, Upserted, PersistedOnly, FlattensState, Restamped, Dated, DeltaRowsTaken;
    var more := changes + [ChangeOf(db, call)];
    assert more[..|more| - 1] == changes;
    NoChanges(db, changes, call.id);
    CreateRepresents(call.initial, call.rows);
    NothingRepresented();
    RestampedRepresents(map[], map[], call.initial, call.rows, call.at);
    assert map[] + PersistedOnly(call.initial) == PersistedOnly(call.initial);
  }

  lemma NothingRepresented()
    ensures Represents<int>(map[], map[])
  {
  }

  lemma AppendedKept(db: Sessions, changes: seq<Change>, call: Call)
    requires RowsHold(db, changes) && call.Appends? && Encoded(call) && Writes(db, call)
    ensures var after, more := Do(db, call)[call.id], changes + [ChangeOf(db, call)];
      Represents(after.table.state, Values(more, call.id)) && Represents(after.stamps, Times(more, call.id))
  {
    hide Represents, NotNull, Upserted, PersistedOnly, FlattensState, Restamped, Dated, Holds, HasRoom, Values, Times,
         EventRowTaken, PartRowsTaken, ActionsRowTaken, DeltaRowsTaken, ArtifactRowsTaken, RowOfEvent, RowsOfParts;
    var more, e, rows := changes + [ChangeOf(db, call)], call.attempt.event, call.attempt.rows.stateDeltas;
    var member := db[call.id];
    LastChange(changes, ChangeOf(db, call));
    var m, times := Values(changes, call.id), Times(changes, call.id);
    if e.actions.stateDelta.Some? {
      FlattenedRepresents(member.table.state, m, DeltaOf(e), rows);
      RestampedRepresents(member.stamps, times, DeltaOf(e), rows, call.at);
    } else {
      NothingUpserted(member.table.state, map[], e, call.attempt.rows);
      NothingRestamped(member.stamps, times, call.at);
      assert rows == [] by { hide *; NoStateRows(e, call.attempt.rows); }
      assert m + PersistedOnly(map[]) == m by { hide *; NothingPersisted(m); }
    }
  }

  lemma NoStateRows(e: Event, rows: EventRows)
    requires e.actions.stateDelta.None? && FlattensState(e.actions.stateDelta, rows.stateDeltas)
    ensures rows.stateDeltas == []
  {
  }

  lemma NothingPersisted(m: map<string, Json>)
    ensures m + PersistedOnly(map[]) == m
  {
  }

  lemma LastChange(changes: seq<Change>, last: Change)
    ensures Values(changes + [last], last.id) == Values(changes, last.id) + PersistedOnly(last.delta)
    ensures Times(changes + [last], last.id) == Times(changes, last.id) + Dated(last.delta, last.at)
    ensures forall id :: id != last.id ==> Values(changes + [last], id) == Values(changes, id)
    ensures forall id :: id != last.id ==> Times(changes + [last], id) == Times(changes, id)
  {
    assert (changes + [last])[..|changes|] == changes;
  }

  lemma {:induction false} AllKept(calls: seq<Call>)
    requires forall i :: 0 <= i < |calls| ==> Encoded(calls[i])
    ensures RowsHold(DoAll(calls), Changes(calls))
  {
    hide RowsHold, Encoded, Writes, Do;
    if calls == [] {
      assert RowsHold(map[], []) by { hide *; EmptyKept(); }
    } else {
      var init, call := calls[..|calls| - 1], calls[|calls| - 1];
      AllKept(init);
      if Writes(DoAll(init), call) {
        WriteKept(DoAll(init), Changes(init), call);
      } else {
        DoesNothing(DoAll(init), call);
        assert Changes(init) + [] == Changes(init);
      }
    }
  }

  lemma DoesNothing(db: Sessions, call: Call)
    requires !Writes(db, call)
    ensures Do(db, call) == db
  {
  }

  lemma EmptyKept()
    ensures RowsHold(map[], [])
  {
  }

  // ---- What Get returns ----

  /** A row as the shared-state query returns it. */
  predicate IsRow(db: Sessions, e: Entry) {
    e.sessionId in db &&
    var member, st := db[e.sessionId], Stored(e.scope, e.key);
    && e.userId == member.userId
    && st in member.table.state && member.table.state[st] == e.value
    && st in member.stamps && member.stamps[st] == e.at
  }

  /** A read of the state rows of all sessions, in any order. */
  ghost predicate ReadsAll(db: Sessions, es: seq<Entry>) {
    && (forall i :: 0 <= i < |es| ==> IsRow(db, es[i]))
    && forall id, st :: id in db && st in db[id].table.state && st in db[id].stamps ==>
         Entry(id, db[id].userId, st.scope, st.key, db[id].table.state[st], db[id].stamps[st]) in es
  }

  /** Change i sets the key, which user and session see. */
  predicate Reaches(changes: seq<Change>, i: int, sessionId: string, userId: string, k: string) {
    && 0 <= i < |changes| && k in changes[i].delta && !("temp:" <= k)
    && if "app:" <= k then true
       else if "user:" <= k then changes[i].userId == userId
       else changes[i].id == sessionId
  }

  /** It stands in its session, and none that stands in another is newer. */
  ghost predicate Wins(changes: seq<Change>, i: int, sessionId: string, userId: string, k: string) {
    && Reaches(changes, i, sessionId, userId, k) && Stands(changes, i, k)
    && forall j :: Reaches(changes, j, sessionId, userId, k) && Stands(changes, j, k) ==> changes[j].at <= changes[i].at
  }

  /** A row that was read is the change of its session that stands. */
  lemma RowStands(db: Sessions, changes: seq<Change>, e: Entry) returns (i: int)
    requires RowsHold(db, changes) && IsRow(db, e)
    ensures Persisted(e.Name()) && ScopeOf(e.Name()) == Some(Stored(e.scope, e.key))
    ensures Stands(changes, i, e.Name()) && changes[i].id == e.sessionId && changes[i].userId == e.userId
    ensures e.value == changes[i].delta[e.Name()] && e.at == changes[i].at
  {
    hide Stands, Values, Times, Represents, ScopeOf, Key, Persisted;
    var member, st := db[e.sessionId], Stored(e.scope, e.key);
    var k := RowKey(member.table.state, Values(changes, e.sessionId), st);
    ValueStands(changes, e.sessionId, k);
    i := StandingIndex(changes, e.sessionId, k);
    var times := Times(changes, e.sessionId);
    RepresentsAt(member.stamps, times, k, st);
  }

  lemma RepresentsAt<V>(state: map<Stored, V>, m: map<string, V>, k: string, st: Stored)
    requires Represents(state, m) && k in m && ScopeOf(k) == Some(st)
    ensures st in state && state[st] == m[k]
  {
    hide ScopeOf;
  }

  lemma StandingIndex(changes: seq<Change>, id: string, k: string) returns (i: int)
    requires k in Values(changes, id)
    ensures 0 <= i < |changes| && Stands(changes, i, k) && changes[i].id == id && k in changes[i].delta && Persisted(k)
  {
    hide Values, Times;
    ValueStands(changes, id, k);
    i :| Stands(changes, i, k) && changes[i].id == id;
    StandsBounds(changes, i, k);
  }

  lemma RowKey(state: map<Stored, Json>, m: map<string, Json>, st: Stored) returns (k: string)
    requires Represents(state, m) && st in state
    ensures k in m && Persisted(k) && ScopeOf(k) == Some(st) && m[k] == state[st] && Key(st.scope, st.key) == k
  {
    k := Key(st.scope, st.key);
  }

  /** A change that stands is a row that was read. */
  lemma StandingRow(db: Sessions, changes: seq<Change>, es: seq<Entry>, i: int, k: string) returns (n: int)
    requires RowsHold(db, changes) && ReadsAll(db, es) && Stands(changes, i, k)
    ensures 0 <= n < |es| && es[n].Name() == k && es[n].sessionId == changes[i].id && es[n].userId == changes[i].userId
    ensures es[n].value == changes[i].delta[k] && es[n].at == changes[i].at
  {
    hide Values, Times;
    var id := changes[i].id;
    ValueStands(changes, id, k);
    var st := ScopeOf(k).value;
    assert st in db[id].table.state;
    RepresentsAt(db[id].stamps, Times(changes, id), k, st);
    n :| 0 <= n < |es| && es[n] == Entry(id, db[id].userId, st.scope, st.key, db[id].table.state[st], db[id].stamps[st]);
    KeyRestores(k);
    hide Stands, ScopeOf;
  }

  lemma CountsExactly(changes: seq<Change>, i: int, e: Entry, sessionId: string, userId: string)
    requires 0 <= i < |changes| && e.Name() in changes[i].delta
    requires Persisted(e.Name()) && ScopeOf(e.Name()) == Some(Stored(e.scope, e.key))
    requires changes[i].id == e.sessionId && changes[i].userId == e.userId
    ensures Counts(e, sessionId, userId) <==> Reaches(changes, i, sessionId, userId, e.Name())
  {
    PrefixDecides(e.Name());
    hide ScopeOf;
  }

  /** A change that reaches a session has one that stands, no earlier, of the same session. */
  lemma {:induction false} SomeStands(changes: seq<Change>, i: int, k: string) returns (j: int)
    requires 0 <= i < |changes| && k in changes[i].delta && Persisted(k)
    ensures i <= j && Stands(changes, j, k) && changes[j].id == changes[i].id
    decreases |changes| - i
  {
    hide Persisted;
    if l :| i < l < |changes| && changes[l].id == changes[i].id && k in changes[l].delta {
      j := SomeStands(changes, l, k);
    } else {
      j := i;
    }
  }

  /** A session's own rows, loaded before the merge, are among those read. */
  lemma OwnNamed(db: Sessions, changes: seq<Change>, es: seq<Entry>, sessionId: string, k: string)
    requires RowsHold(db, changes) && ReadsAll(db, es) && sessionId in db && k in Values(changes, sessionId)
    ensures Named(es, sessionId, db[sessionId].userId, k)
  {
    hide Values, Times, Stands, Represents, ReadsAll;
    var i := StandingIndex(changes, sessionId, k);
    var n := StandingRow(db, changes, es, i, k);
    assert Counts(es[n], sessionId, db[sessionId].userId);
  }

  /**
   * Whatever was created and appended in the sessions of the application: the state Get returns has exactly
   * the persisted keys some change sets that reaches this session and user, and each has the value of one that
   * stands and is as new as any.
   */
  lemma GetReturns(calls: seq<Call>, sessionId: string, own: seq<ClientState>, es: seq<Entry>,
      after: map<string, Json>, k: string)
    requires forall i :: 0 <= i < |calls| ==> Encoded(calls[i])
    requires sessionId in DoAll(calls) && ReadsState(DoAll(calls)[sessionId].table.state, own) && ReadsAll(DoAll(calls), es)
    requires Merged(es, sessionId, DoAll(calls)[sessionId].userId, StateOf(own), after)
    ensures var changes, user := Changes(calls), DoAll(calls)[sessionId].userId;
      && (k in after <==> exists i :: Reaches(changes, i, sessionId, user, k))
      && (k in after ==> exists i :: Wins(changes, i, sessionId, user, k) && after[k] == changes[i].delta[k])
  {
    hide Encoded, DoAll, Changes, ReadsState, StateOf, Values, Times, Represents, ReadsAll, Counts, Reaches, Stands, Merged;
    var db, changes := DoAll(calls), Changes(calls);
    var user := db[sessionId].userId;
    AllKept(calls);
    ReadLoads(db[sessionId].table.state, Values(changes, sessionId), own);
    if Named(es, sessionId, user, k) {
      NamedReturns(db, changes, es, sessionId, user, StateOf(own), after, k);
    } else {
      UnnamedAbsent(db, changes, es, sessionId, StateOf(own), after, k);
    }
  }

  lemma NamedReturns(db: Sessions, changes: seq<Change>, es: seq<Entry>, sessionId: string, user: string,
      before: map<string, Json>, after: map<string, Json>, k: string)
    requires RowsHold(db, changes) && ReadsAll(db, es) && Merged(es, sessionId, user, before, after)
    requires Named(es, sessionId, user, k)
    ensures k in after
    ensures exists i :: Wins(changes, i, sessionId, user, k) && after[k] == changes[i].delta[k]
  {
    hide Represents, Counts, Stands, Key, ScopeOf, Values, Times, IsRow, RowsHold, Named;
    var n := Decider(es, sessionId, user, k);
    assert IsRow(db, es[n]);
    var i := RowStands(db, changes, es[n]);
    StandsBounds(changes, i, k);
    CountsExactly(changes, i, es[n], sessionId, user);
    forall j | Reaches(changes, j, sessionId, user, k) && Stands(changes, j, k) ensures changes[j].at <= changes[i].at {
      var l := StandingCounts(db, changes, es, j, sessionId, user, k);
    }
  }

  lemma StandingCounts(db: Sessions, changes: seq<Change>, es: seq<Entry>, j: int, sessionId: string, user: string, k: string)
    returns (l: int)
    requires RowsHold(db, changes) && ReadsAll(db, es) && Reaches(changes, j, sessionId, user, k) && Stands(changes, j, k)
    ensures 0 <= l < |es| && es[l].Name() == k && Counts(es[l], sessionId, user) && es[l].at == changes[j].at
  {
    hide Represents, Counts, Reaches, Stands, Key, ScopeOf, Values, Times, IsRow, RowsHold;
    StandsBounds(changes, j, k);
    l := StandingRow(db, changes, es, j, k);
    assert IsRow(db, es[l]);
    var x := RowStands(db, changes, es[l]);
    CountsExactly(changes, j, es[l], sessionId, user);
  }

  lemma UnnamedAbsent(db: Sessions, changes: seq<Change>, es: seq<Entry>, sessionId: string,
      before: map<string, Json>, after: map<string, Json>, k: string)
    requires RowsHold(db, changes) && ReadsAll(db, es) && sessionId in db && before == Values(changes, sessionId)
    requires Merged(es, sessionId, db[sessionId].userId, before, after) && !Named(es, sessionId, db[sessionId].userId, k)
    ensures k !in after
    ensures forall i :: !Reaches(changes, i, sessionId, db[sessionId].userId, k)
  {
    hide Represents, Counts, Stands, Key, ScopeOf, Values, Times, Decides;
    var user := db[sessionId].userId;
    if k in before {
      OwnNamed(db, changes, es, sessionId, k);
    }
    forall i ensures !Reaches(changes, i, sessionId, user, k) {
      if Reaches(changes, i, sessionId, user, k) {
        ReachedIsNamed(db, changes, es, i, sessionId, user, k);
      }
    }
  }

  lemma ReachedIsNamed(db: Sessions, changes: seq<Change>, es: seq<Entry>, i: int, sessionId: string, user: string, k: string)
    requires RowsHold(db, changes) && ReadsAll(db, es) && Reaches(changes, i, sessionId, user, k)
    ensures Named(es, sessionId, user, k)
  {
    hide Represents, Counts, Stands, Key, ScopeOf, Values, Times, IsRow;
    PrefixDecides(k);
    var j := SomeStands(changes, i, k);
    StandsBounds(changes, j, k);
    assert Reaches(changes, j, sessionId, user, k);
    var l := StandingCounts(db, changes, es, j, sessionId, user, k);
  }

  /** When the changes that set a key are committed at increasing times, Get returns what the last of them set. */
  lemma LatestWins(calls: seq<Call>, sessionId: string, own: seq<ClientState>, es: seq<Entry>,
      after: map<string, Json>, k: string, last: int)
    requires forall i :: 0 <= i < |calls| ==> Encoded(calls[i])
    requires sessionId in DoAll(calls) && ReadsState(DoAll(calls)[sessionId].table.state, own) && ReadsAll(DoAll(calls), es)
    requires Merged(es, sessionId, DoAll(calls)[sessionId].userId, StateOf(own), after)
    requires Reaches(Changes(calls), last, sessionId, DoAll(calls)[sessionId].userId, k)
    requires forall i :: Reaches(Changes(calls), i, sessionId, DoAll(calls)[sessionId].userId, k) && i != last ==>
      i < last && Changes(calls)[i].at < Changes(calls)[last].at
    ensures k in after && after[k] == Changes(calls)[last].delta[k]
  {
    hide Encoded, DoAll, Changes, ReadsState, StateOf, ReadsAll, Merged, Stands;
    var changes, user := Changes(calls), DoAll(calls)[sessionId].userId;
    GetReturns(calls, sessionId, own, es, after, k);
    LastStands(calls, changes, sessionId, user, k, last);
  }

  lemma LastStands(calls: seq<Call>, changes: seq<Change>, sessionId: string, userId: string, k: string, last: int)
    requires (forall i :: 0 <= i < |calls| ==> Encoded(calls[i])) && changes == Changes(calls)
    requires Reaches(changes, last, sessionId, userId, k)
    requires forall i :: Reaches(changes, i, sessionId, userId, k) ==> i <= last
    ensures Stands(changes, last, k)
  {
    hide Encoded, Changes, ScopeOf, Represents, DoAll;
    PrefixDecides(k);
    AllKept(calls);
    assert forall i, j :: 0 <= i < |changes| && 0 <= j < |changes| && changes[i].id == changes[j].id ==>
      changes[i].userId == changes[j].userId;
    forall j | last < j < |changes| && changes[j].id == changes[last].id ensures k !in changes[j].delta {
      assert k in changes[j].delta ==> Reaches(changes, j, sessionId, userId, k);
    }
  }
}
