/**
 * What the database keeps of a session: create_session and append_event, as far as the types and
 * constraints of their tables decide, and the round trip through them.
 */
module SessionStore {

  import opened Common
  import opened StateKeys
  import opened SessionRows
  import opened SessionLoad
  import opened SessionColumns

  datatype StoredEvent = StoredEvent(sequence: int, rows: EventRows)

  /** The rows of one session: its state by scope and key, and its events in append order. */
  datatype Table = Table(state: map<Stored, Json>, events: seq<StoredEvent>)

  /** Unstorable: some value is not one its column can hold. */
  datatype Refusal = AlreadyExists | Unstorable | NullValue

  /** value_json is NOT NULL: every row must hold a document once filled in. */
  predicate NotNull(rows: seq<StateDeltaRow>) {
    forall i :: 0 <= i < |rows| ==> Held(rows[i].value).Some?
  }

  /** The upsert into session_state: the last row of a scope and key wins. */
  function Upserted(state: map<Stored, Json>, rows: seq<StateDeltaRow>): map<Stored, Json>
    requires NotNull(rows)
  {
    if rows == [] then state
    else
      var last := rows[|rows| - 1];
      Upserted(state, rows[..|rows| - 1])[Stored(last.scope, last.key) := last.value.value]
  }

  /** create_session: an existing session is refused, and so is a value its column cannot hold, null included. */
  function Create(existing: Option<Table>, rows: seq<StateDeltaRow>): Result<Table, Refusal> {
    if existing.Some? then Err(AlreadyExists)
    else if !DeltaRowsTaken(rows) then Err(Unstorable)
    else if !NotNull(rows) then Err(NullValue)
    else Ok(Table(Upserted(map[], rows), []))
  }

  function MaxSequence(events: seq<StoredEvent>): (m: int)
    ensures m >= 0 && forall i :: 0 <= i < |events| ==> events[i].sequence <= m
  {
    if events == [] then 0
    else
      var before := MaxSequence(events[..|events| - 1]);
      if events[|events| - 1].sequence > before then events[|events| - 1].sequence else before
  }

  /** The next sequence number is an integer too. */
  predicate HasRoom(t: Table) {
    MaxSequence(t.events) < MAX_INTEGER
  }

  predicate Holds(events: seq<StoredEvent>, adkId: string) {
    exists i :: 0 <= i < |events| && events[i].rows.event.adkId == adkId
  }

  /**
   * append_event: the next number is taken and the event row converted first; an event already there is then
   * left alone, whatever its other rows hold; otherwise all its rows go in, or none.
   */
  function Append(t: Table, rows: EventRows): Result<Table, Refusal> {
    if !HasRoom(t) || !EventRowTaken(rows.event) then Err(Unstorable)
    else if Holds(t.events, rows.event.adkId) then Ok(t)
    else if !PartRowsTaken(rows.parts) || !ActionsRowTaken(rows.actions) || !DeltaRowsTaken(rows.stateDeltas) then Err(Unstorable)
    else if !NotNull(rows.stateDeltas) then Err(NullValue)
    else if !ArtifactRowsTaken(rows.artifactDeltas) then Err(Unstorable)
    else Ok(Table(Upserted(t.state, rows.stateDeltas), t.events + [StoredEvent(MaxSequence(t.events) + 1, rows)]))
  }

  // ---- One event ----

  lemma FlattenedNotNull(delta: map<string, Json>, rows: seq<StateDeltaRow>)
    requires FlattensState(Some(delta), rows)
    ensures NotNull(rows) <==> NoNull(delta)
  {
    hide ScopeOf, DeltaRows;
    var keys :| Lists(keys, delta.Keys) && rows == DeltaRows(delta, keys);
    DeltaRowsMembers(delta, keys);
    if NotNull(rows) {
      forall k | k in delta && Persisted(k) ensures delta[k].Document? {
        var row := StateDeltaRow(ScopeOf(k).value.scope, ScopeOf(k).value.key, Some(delta[k]));
        assert k in keys && row in rows;
      }
    }
    if NoNull(delta) {
      forall i | 0 <= i < |rows| ensures Held(rows[i].value).Some? {
        assert rows[i] in rows;
      }
    }
  }

  lemma EncodedNotNull(sessionId: string, e: Event, rows: EventRows)
    requires Encodable(e) && Encodes(sessionId, e, rows)
    ensures NotNull(rows.stateDeltas) <==> NoNullIn(e.actions)
  {
    hide NotNull, NoNull, RowOfEvent, RowOfPart, RowsOfParts, FlattensArtifacts;
    if e.actions.stateDelta.Some? {
      FlattenedNotNull(e.actions.stateDelta.value, rows.stateDeltas);
    } else {
      NoRows();
    }
  }

  lemma NoRows()
    ensures NotNull([])
  {
  }

  /** Everything in the event is of a kind its column holds. */
  predicate Storable(e: Event) {
    Encodable(e) && HeaderFits(e) && BodyFits(e) && NoNullIn(e.actions)
  }

  /**
   * An append is accepted exactly when a sequence number is left, the event itself fits, and it is there
   * already or the rest of it fits with no persisted key of its delta null. Once stored, it changes nothing more.
   */
  lemma AcceptsExactly(sessionId: string, t: Table, e: Event, rows: EventRows)
    requires Encodable(e) && Encodes(sessionId, e, rows)
    ensures Append(t, rows).Ok? <==> HasRoom(t) && HeaderFits(e) && (Holds(t.events, e.id) || Storable(e))
    ensures Append(t, rows).Ok? && Holds(t.events, e.id) ==> Append(t, rows).value == t
    ensures Append(t, rows).Ok? && !Holds(t.events, e.id) ==>
      Append(t, rows).value.events == t.events + [StoredEvent(MaxSequence(t.events) + 1, rows)]
    ensures HasRoom(t) && HeaderFits(e) && !Holds(t.events, e.id) && BodyFits(e) && !NoNullIn(e.actions) ==>
      Append(t, rows) == Err(NullValue)
  {
    hide NotNull, NoNullIn, Holds, Upserted, HeaderFits, BodyFits, EventRowTaken, PartRowsTaken, ActionsRowTaken,
         DeltaRowsTaken, ArtifactRowsTaken, Encodes, HasRoom;
    EncodedId(sessionId, e, rows);
    EncodedNotNull(sessionId, e, rows);
    FitsExactly(sessionId, e, rows);
  }

  /** Whatever the store accepted comes back: the event without its temporary keys, its time to the microsecond. */
  lemma RoundTrip(sessionId: string, t: Table, e: Event, rows: EventRows, arrived: ClientEvent)
    requires Encodable(e) && Encodes(sessionId, e, rows) && !Holds(t.events, e.id) && Append(t, rows).Ok?
    requires Arrives(Append(t, rows).value.events[|t.events|].rows, arrived)
    ensures DecodedEvent(RowsFrom(sessionId, arrived)) == Ok(Loaded(e, arrived.timestamp))
    ensures ToMicrosecond(e.timestamp, arrived.timestamp)
  {
    hide NotNull, NoNullIn, Holds, Upserted, Encodes, Arrives, DecodedEvent, RowsFrom, Loaded, Append, ToMicrosecond,
         HeaderFits, BodyFits;
    AcceptsExactly(sessionId, t, e, rows);
    LoadsExactly(sessionId, e, rows, arrived);
    TimeArrives(sessionId, e, rows, arrived);
  }

  lemma TimeArrives(sessionId: string, e: Event, rows: EventRows, arrived: ClientEvent)
    requires Encodable(e) && Encodes(sessionId, e, rows) && Arrives(rows, arrived)
    ensures ToMicrosecond(e.timestamp, arrived.timestamp)
  {
  }

  lemma EncodedId(sessionId: string, e: Event, rows: EventRows)
    requires Encodable(e) && Encodes(sessionId, e, rows)
    ensures rows.event.adkId == e.id
  {
  }

  // ---- Events that survive encoding and decoding, and that the store refuses ----

  const NO_ACTIONS := Actions(false, "", false, None, None, None)

  lemma RefusedThough(sessionId: string, t: Table, e: Event, rows: EventRows)
    requires Encodable(e) && Encodes(sessionId, e, rows) && !Holds(t.events, e.id) && !Storable(e)
    ensures Append(t, rows).Err? && DecodedEvent(rows) == Ok(Normal(e))
  {
    hide DecodedEvent, Encodes, Holds, Storable, Normal, Append;
    DirectRoundTrip(sessionId, e, rows);
    AcceptsExactly(sessionId, t, e, rows);
  }

  /** A state key set to null: the column is NOT NULL. */
  lemma NullValueIsRefused(sessionId: string, t: Table, e: Event, rows: EventRows)
    requires e.actions == NO_ACTIONS.(stateDelta := Some(map["colour" := JsonNull]))
    requires Encodable(e) && Encodes(sessionId, e, rows) && !Holds(t.events, e.id)
    ensures DecodedEvent(rows) == Ok(e) && Append(t, rows).Err?
    ensures HasRoom(t) && HeaderFits(e) && BodyFits(e) ==> Append(t, rows) == Err(NullValue)
  {
    hide DecodedEvent, Encodes, Holds, Append, HeaderFits, BodyFits, HasRoom;
    RefusedByNull();
    AcceptsExactly(sessionId, t, e, rows);
    RefusedThough(sessionId, t, e, rows);
    var k := "colour";
    assert k[0] == 'c' && KEY_PREFIX_TEMP[0] == 't' && Persisted(k);
    assert k in e.actions.stateDelta.value;
    assert Kept(e.actions.stateDelta) == e.actions.stateDelta by {
      assert (map x | x in e.actions.stateDelta.value && Persisted(x) :: e.actions.stateDelta.value[x]) == map[k := JsonNull];
    }
  }

  lemma RefusedByNull()
    ensures !NoNullIn(NO_ACTIONS.(stateDelta := Some(map["colour" := JsonNull])))
  {
    var k := "colour";
    assert k[0] == 'c' && KEY_PREFIX_TEMP[0] == 't' && Persisted(k);
    assert k in map["colour" := JsonNull];
  }

  /** An artifact version one beyond the column's integer, which the event holds in 64 bits. */
  lemma WideVersionIsRefused(sessionId: string, t: Table, e: Event, rows: EventRows)
    requires e.actions == NO_ACTIONS.(artifactDelta := Some(map["report" := 2147483648]))
    requires Encodable(e) && Encodes(sessionId, e, rows) && !Holds(t.events, e.id)
    ensures DecodedEvent(rows) == Ok(e) && Append(t, rows).Err?
  {
    hide DecodedEvent, Encodes, Holds, Append, HeaderFits, NoNullIn, Text, PartsFit;
    assert "report" in e.actions.artifactDelta.value;
    RefusedThough(sessionId, t, e, rows);
  }

  /** The character zero in the text of a part. */
  lemma ZeroCharacterIsRefused(sessionId: string, t: Table, e: Event, rows: EventRows)
    requires e.actions == NO_ACTIONS && e.content.Some? && |e.content.value.parts| == 1
    requires e.content.value.parts[0].Some? && e.content.value.parts[0].value.text == "\0"
    requires Encodable(e) && Encodes(sessionId, e, rows) && !Holds(t.events, e.id)
    ensures DecodedEvent(rows) == Ok(e) && Append(t, rows).Err?
  {
    hide DecodedEvent, Encodes, Holds, Append, HeaderFits, NoNullIn, CallsFit, DataFits;
    var text := "\0";
    assert text[0] == '\0' && !Text(text);
    assert !PartFits(e.content.value.parts[0].value);
    RefusedThough(sessionId, t, e, rows);
  }

  // ---- A whole conversation ----

  /** One call of AppendEvent that got as far as the store. */
  datatype Attempt = Attempt(event: Event, rows: EventRows)

  ghost predicate AllEncoded(sessionId: string, attempts: seq<Attempt>) {
    forall i :: 0 <= i < |attempts| ==>
      Encodable(attempts[i].event) && Encodes(sessionId, attempts[i].event, attempts[i].rows)
  }

  /** The table after some appends; a refused one changes nothing. */
  function AppendAll(t: Table, attempts: seq<Attempt>): Table {
    if attempts == [] then t
    else
      var before := AppendAll(t, attempts[..|attempts| - 1]);
      var r := Append(before, attempts[|attempts| - 1].rows);
      if r.Ok? then r.value else before
  }

  predicate Among(es: seq<Event>, id: string) {
    exists i :: 0 <= i < |es| && es[i].id == id
  }

  /** The reference: the first storable event of each id, while numbers last. */
  function Accepted(attempts: seq<Attempt>): seq<Event> {
    if attempts == [] then []
    else
      var before, e := Accepted(attempts[..|attempts| - 1]), attempts[|attempts| - 1].event;
      if Among(before, e.id) || !Storable(e) || |before| >= MAX_INTEGER then before else before + [e]
  }

  /** The stored events are those, in order and numbered from 1. */
  ghost predicate StoresAll(sessionId: string, events: seq<StoredEvent>, es: seq<Event>) {
    && |events| == |es|
    && (forall i :: 0 <= i < |es| ==> Encodable(es[i]) && Encodes(sessionId, es[i], events[i].rows))
    && (forall i :: 0 <= i < |es| ==> NoNullIn(es[i].actions))
    && forall i :: 0 <= i < |es| ==> events[i].sequence == i + 1
  }

  lemma {:induction false} NumberedFromOne(events: seq<StoredEvent>)
    requires forall i :: 0 <= i < |events| ==> events[i].sequence == i + 1
    ensures MaxSequence(events) == |events|
  {
    if events != [] {
      NumberedFromOne(events[..|events| - 1]);
    }
  }

  lemma SameIds(sessionId: string, events: seq<StoredEvent>, es: seq<Event>, id: string)
    requires StoresAll(sessionId, events, es)
    ensures Holds(events, id) <==> Among(es, id)
  {
    hide Encodes, NoNullIn, Encodable;
    forall i | 0 <= i < |es| ensures events[i].rows.event.adkId == es[i].id {
      EncodedId(sessionId, es[i], events[i].rows);
    }
  }

  lemma OneMore(sessionId: string, t: Table, es: seq<Event>, a: Attempt)
    requires StoresAll(sessionId, t.events, es) && Encodable(a.event) && Encodes(sessionId, a.event, a.rows)
    ensures var r := Append(t, a.rows);
            var events := if r.Ok? then r.value.events else t.events;
            StoresAll(sessionId, events,
              if Among(es, a.event.id) || !Storable(a.event) || |es| >= MAX_INTEGER then es else es + [a.event])
  {
    hide Encodes, NoNullIn, Encodable, HeaderFits, BodyFits, Append, Holds, Among;
    SameIds(sessionId, t.events, es, a.event.id);
    AcceptsExactly(sessionId, t, a.event, a.rows);
    NumberedFromOne(t.events);
  }

  lemma {:induction false} HistoryStored(sessionId: string, state: map<Stored, Json>, attempts: seq<Attempt>)
    requires AllEncoded(sessionId, attempts)
    ensures StoresAll(sessionId, AppendAll(Table(state, []), attempts).events, Accepted(attempts))
  {
    hide Append, Encodes, StoresAll, Among, Storable, Encodable;
    if attempts == [] {
      Nothing(sessionId);
    } else {
      var n := |attempts| - 1;
      HistoryStored(sessionId, state, attempts[..n]);
      OneMore(sessionId, AppendAll(Table(state, []), attempts[..n]), Accepted(attempts[..n]), attempts[n]);
    }
  }

  lemma Nothing(sessionId: string)
    ensures StoresAll(sessionId, [], [])
  {
  }

  /** A read of the stored events, each with its rows in any order. */
  ghost predicate Read(events: seq<StoredEvent>, read: seq<ClientEvent>) {
    && |read| == |events|
    && forall i :: 0 <= i < |events| ==> Arrives(events[i].rows, read[i]) && read[i].sequence == events[i].sequence
  }

  function RowsOfAll(events: seq<StoredEvent>): (rows: seq<EventRows>)
    ensures |rows| == |events| && forall i :: 0 <= i < |events| ==> rows[i] == events[i].rows
  {
    seq(|events|, i requires 0 <= i < |events| => events[i].rows)
  }

  lemma StoredIsAppended(sessionId: string, events: seq<StoredEvent>, es: seq<Event>, read: seq<ClientEvent>)
    requires StoresAll(sessionId, events, es) && Read(events, read)
    ensures Appended(sessionId, es, RowsOfAll(events), read)
  {
    hide Encodes, NoNullIn, Encodable, Arrives;
    forall i, j | 0 <= i < j < |read| ensures BySequence(read[i]) < BySequence(read[j]) {
    }
  }

  /** An event as it comes back. */
  predicate ComesBack(e: Event, back: Event) {
    back == Loaded(e, back.timestamp) && ToMicrosecond(e.timestamp, back.timestamp)
  }

  /** Whatever is appended to a new session, in whatever order its events and their rows are read back: it
      loads, as the accepted events in append order without their temporary keys, at the times held. */
  lemma SessionRoundTrip(sessionId: string, state: map<Stored, Json>, attempts: seq<Attempt>,
      read: seq<ClientEvent>, arrived: seq<ClientEvent>)
    requires AllEncoded(sessionId, attempts)
    requires Read(AppendAll(Table(state, []), attempts).events, read) && multiset(arrived) == multiset(read)
    ensures var r := DecodedEvents(sessionId, StableSort(arrived, BySequence));
            r.Ok? && |r.value| == |Accepted(attempts)|
            && forall i :: 0 <= i < |r.value| ==> ComesBack(Accepted(attempts)[i], r.value[i])
  {
    hide DecodedEvents, StableSort, Encodes, Arrives, Encodable, NoNullIn, NormalActions, ToMicrosecond, AppendAll, Accepted;
    var events, es := AppendAll(Table(state, []), attempts).events, Accepted(attempts);
    HistoryStored(sessionId, state, attempts);
    StoredIsAppended(sessionId, events, es, read);
    assert forall i :: 0 <= i < |es| ==> NoNullIn(es[i].actions);
    HistoryLoads(sessionId, es, RowsOfAll(events), read, arrived);
    forall i | 0 <= i < |es| ensures ToMicrosecond(es[i].timestamp, read[i].timestamp) {
      TimeArrives(sessionId, es[i], events[i].rows, read[i]);
    }
  }
}
