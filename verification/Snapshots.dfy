/**
 * The in-memory session a caller of the session service holds, beside the rows of the store: where
 * applyToSnapshot mirrors the append and where it does not, and what reloading gives.
 */
module Snapshots {

  import opened Common
  import opened StateKeys
  import opened SessionRows
  import opened SessionLoad
  import opened SessionColumns
  import opened SessionStore
  import opened SharedState

  // ---- The state ----

  function PersistedOnly(m: map<string, Json>): map<string, Json> {
    map k | k in m && Persisted(k) :: m[k]
  }

  /** The rows hold exactly this state. */
  ghost predicate Represents<V>(state: map<Stored, V>, m: map<string, V>) {
    && (forall k :: k in m ==> Persisted(k) && ScopeOf(k).value in state && state[ScopeOf(k).value] == m[k])
    && forall st :: st in state ==> Key(st.scope, st.key) in m && ScopeOf(Key(st.scope, st.key)) == Some(st)
  }

  lemma RepresentsOne<V>(state: map<Stored, V>, m: map<string, V>, k: string, v: V)
    requires Represents(state, m) && Persisted(k)
    ensures Represents(state[ScopeOf(k).value := v], m[k := v])
  {
    var after, state' := m[k := v], state[ScopeOf(k).value := v];
    forall x | x in after ensures Persisted(x) && ScopeOf(x).value in state' && state'[ScopeOf(x).value] == after[x] {
      if ScopeOf(x) == ScopeOf(k) && Persisted(x) {
        ColumnsDistinguish(x, k);
      }
    }
    hide ScopeOf, Key;
    KeyRestores(k);
    forall st | st in state' ensures Key(st.scope, st.key) in after && ScopeOf(Key(st.scope, st.key)) == Some(st) {
    }
  }

  /** The persisted part of a delta, as far as some keys go. */
  function KeptOf(delta: map<string, Json>, keys: seq<string>): map<string, Json>
    requires forall k :: k in keys ==> k in delta
  {
    map k | k in keys && Persisted(k) :: delta[k]
  }

  lemma KeptMore(m: map<string, Json>, delta: map<string, Json>, init: seq<string>, k: string)
    requires forall x :: x in init + [k] ==> x in delta
    ensures m + KeptOf(delta, init + [k]) == if Persisted(k) then (m + KeptOf(delta, init))[k := delta[k]] else m + KeptOf(delta, init)
  {
    hide Persisted;
    assert KeptOf(delta, init + [k]) == if Persisted(k) then KeptOf(delta, init)[k := delta[k]] else KeptOf(delta, init);
  }

  lemma DeltaRowsMore(delta: map<string, Json>, init: seq<string>, k: string)
    requires forall x :: x in init + [k] ==> x in delta
    ensures DeltaRows(delta, init + [k]) == DeltaRows(delta, init) +
      if Persisted(k) then [StateDeltaRow(ScopeOf(k).value.scope, ScopeOf(k).value.key, Some(delta[k]))] else []
  {
    hide ScopeOf;
    assert (init + [k])[..|init|] == init;
  }

  lemma UpsertedMore(state: map<Stored, Json>, rows: seq<StateDeltaRow>, row: StateDeltaRow)
    requires NotNull(rows + [row])
    ensures NotNull(rows) && row.value.Some?
    ensures Upserted(state, rows + [row]) == Upserted(state, rows)[Stored(row.scope, row.key) := row.value.value]
  {
    var all := rows + [row];
    assert all[..|all| - 1] == rows && all[|rows|] == row;
    forall i | 0 <= i < |rows| ensures Held(rows[i].value).Some? {
      assert all[i] == rows[i];
    }
  }

  /** One more key upserts one more row, or none. */
  lemma UpsertMore(state: map<Stored, Json>, delta: map<string, Json>, init: seq<string>, k: string)
    requires (forall x :: x in init + [k] ==> x in delta) && NotNull(DeltaRows(delta, init + [k]))
    ensures NotNull(DeltaRows(delta, init))
    ensures Upserted(state, DeltaRows(delta, init + [k])) ==
            if Persisted(k) then Upserted(state, DeltaRows(delta, init))[ScopeOf(k).value := delta[k]]
            else Upserted(state, DeltaRows(delta, init))
  {
    hide ScopeOf, NotNull, DeltaRows, Upserted;
    DeltaRowsMore(delta, init, k);
    var rows := DeltaRows(delta, init);
    if Persisted(k) {
      UpsertedMore(state, rows, StateDeltaRow(ScopeOf(k).value.scope, ScopeOf(k).value.key, Some(delta[k])));
    } else {
      assert rows + [] == rows;
    }
  }

  lemma {:induction false} UpsertRepresents(state: map<Stored, Json>, m: map<string, Json>, delta: map<string, Json>, keys: seq<string>)
    requires Represents(state, m) && (forall k :: k in keys ==> k in delta) && NotNull(DeltaRows(delta, keys))
    ensures Represents(Upserted(state, DeltaRows(delta, keys)), m + KeptOf(delta, keys))
    decreases |keys|
  {
    if keys == [] {
      assert m + KeptOf(delta, keys) == m;
    } else {
      hide ScopeOf, Represents, NotNull, Upserted, DeltaRows, KeptOf, Persisted;
      var init, k := keys[..|keys| - 1], keys[|keys| - 1];
      assert keys == init + [k];
      UpsertMore(state, delta, init, k);
      KeptMore(m, delta, init, k);
      UpsertRepresents(state, m, delta, init);
      if Persisted(k) {
        RepresentsOne(Upserted(state, DeltaRows(delta, init)), m + KeptOf(delta, init), k, delta[k]);
      }
    }
  }

  lemma FlattenedRepresents(state: map<Stored, Json>, m: map<string, Json>, delta: map<string, Json>, rows: seq<StateDeltaRow>)
    requires Represents(state, m) && FlattensState(Some(delta), rows) && NotNull(rows)
    ensures Represents(Upserted(state, rows), m + PersistedOnly(delta))
  {
    hide ScopeOf, Represents, NotNull, Upserted, DeltaRows;
    var keys :| Lists(keys, delta.Keys) && rows == DeltaRows(delta, keys);
    UpsertRepresents(state, m, delta, keys);
    assert PersistedOnly(delta) == KeptOf(delta, keys);
  }

  lemma PersistedPlus(a: map<string, Json>, b: map<string, Json>)
    ensures PersistedOnly(a + b) == PersistedOnly(a) + PersistedOnly(b)
  {
  }

  /** The rows hold one state only. */
  lemma RepresentsOnce(state: map<Stored, Json>, m: map<string, Json>, n: map<string, Json>)
    requires Represents(state, m) && Represents(state, n)
    ensures m == n
  {
    forall k | k in m ensures k in n && n[k] == m[k] {
      Contained(state, m, n, k);
    }
    forall k | k in n ensures k in m {
      Contained(state, n, m, k);
    }
  }

  lemma Contained(state: map<Stored, Json>, m: map<string, Json>, n: map<string, Json>, k: string)
    requires Represents(state, m) && Represents(state, n) && k in m
    ensures k in n && n[k] == m[k]
  {
    hide ScopeOf, Key;
    KeyRestores(k);
  }

  /** A new event does to the rows what applying it does to a snapshot. */
  lemma UpsertMirrors(sessionId: string, state: map<Stored, Json>, snapshot: map<string, Json>, e: Event, rows: EventRows)
    requires Represents(state, PersistedOnly(snapshot))
    requires Encodable(e) && Encodes(sessionId, e, rows) && NotNull(rows.stateDeltas)
    ensures Represents(Upserted(state, rows.stateDeltas), PersistedOnly(snapshot + DeltaOf(e)))
  {
    hide Represents, NotNull, PersistedOnly, FlattensState, RowOfEvent, RowOfPart, RowsOfParts;
    var delta := e.actions.stateDelta;
    PersistedPlus(snapshot, DeltaOf(e));
    if delta.Some? {
      FlattenedRepresents(state, PersistedOnly(snapshot), delta.value, rows.stateDeltas);
    } else {
      NothingUpserted(state, snapshot, e, rows);
    }
  }

  lemma NothingUpserted(state: map<Stored, Json>, snapshot: map<string, Json>, e: Event, rows: EventRows)
    requires e.actions.stateDelta.None? && FlattensState(e.actions.stateDelta, rows.stateDeltas)
    ensures NotNull(rows.stateDeltas) && Upserted(state, rows.stateDeltas) == state
    ensures PersistedOnly(snapshot + DeltaOf(e)) == PersistedOnly(snapshot)
  {
  }

  /** Every key the event would persist has that value in the snapshot already. */
  predicate SetsNothingNew(snapshot: map<string, Json>, e: Event) {
    forall k :: k in DeltaOf(e) && Persisted(k) ==> k in snapshot && snapshot[k] == DeltaOf(e)[k]
  }

  lemma NothingNewExactly(snapshot: map<string, Json>, e: Event)
    ensures PersistedOnly(snapshot + DeltaOf(e)) == PersistedOnly(snapshot) <==> SetsNothingNew(snapshot, e)
  {
    hide Persisted;
    var a, b := PersistedOnly(snapshot + DeltaOf(e)), PersistedOnly(snapshot);
    if a == b {
      forall k | k in DeltaOf(e) && Persisted(k) ensures k in snapshot && snapshot[k] == DeltaOf(e)[k] {
        assert k in a && k in b;
      }
    }
  }

  /**
   * AppendEvent applies the event to the snapshot whenever append_event reports no error, which it does of an
   * event already stored too. The rows and the snapshot stay the same state if and only if the event was new,
   * or sets nothing the snapshot does not hold already.
   */
  lemma AppendMirrorsExactly(sessionId: string, t: Table, snapshot: Snapshot, e: Event, rows: EventRows)
    requires Represents(t.state, PersistedOnly(snapshot.state))
    requires Encodable(e) && Encodes(sessionId, e, rows) && Append(t, rows).Ok?
    ensures Represents(Append(t, rows).value.state, PersistedOnly(Mirror(snapshot, e).state)) <==>
      !Holds(t.events, e.id) || SetsNothingNew(snapshot.state, e)
  {
    hide Represents, NotNull, PersistedOnly, Upserted, Holds, SetsNothingNew, HasRoom, Encodes, DeltaOf,
         EventRowTaken, PartRowsTaken, ActionsRowTaken, DeltaRowsTaken, ArtifactRowsTaken;
    EncodedId(sessionId, e, rows);
    if Holds(t.events, e.id) {
      NothingNewExactly(snapshot.state, e);
      if Represents(t.state, PersistedOnly(snapshot.state + DeltaOf(e))) {
        RepresentsOnce(t.state, PersistedOnly(snapshot.state), PersistedOnly(snapshot.state + DeltaOf(e)));
      }
    } else {
      UpsertMirrors(sessionId, t.state, snapshot.state, e, rows);
    }
  }

  // ---- A whole conversation, with the snapshot its caller holds ----

  /** The snapshot after some appends: applied whenever the store reported no error. */
  function MirrorAll(t: Table, snapshot: Snapshot, attempts: seq<Attempt>): Snapshot {
    if attempts == [] then snapshot
    else
      var init, a := attempts[..|attempts| - 1], attempts[|attempts| - 1];
      var before := MirrorAll(t, snapshot, init);
      if Append(AppendAll(t, init), a.rows).Ok? then Mirror(before, a.event) else before
  }

  ghost predicate InStep(t: Table, snapshot: Snapshot, attempts: seq<Attempt>) {
    Represents(AppendAll(t, attempts).state, PersistedOnly(MirrorAll(t, snapshot, attempts).state))
  }

  /** The last of these appends was reported as stored although its event was there before. */
  predicate Repeats(t: Table, attempts: seq<Attempt>)
    requires attempts != []
  {
    var before, a := AppendAll(t, attempts[..|attempts| - 1]), attempts[|attempts| - 1];
    Append(before, a.rows).Ok? && Holds(before.events, a.event.id)
  }

  /** And it sets a key to something else than the snapshot holds. */
  predicate Strays(t: Table, snapshot: Snapshot, attempts: seq<Attempt>)
    requires attempts != []
  {
    var before := MirrorAll(t, snapshot, attempts[..|attempts| - 1]);
    Repeats(t, attempts) && !SetsNothingNew(before.state, attempts[|attempts| - 1].event)
  }

  lemma StepMirrors(sessionId: string, t: Table, snapshot: Snapshot, attempts: seq<Attempt>)
    requires attempts != [] && AllEncoded(sessionId, attempts)
    requires InStep(t, snapshot, attempts[..|attempts| - 1])
    ensures InStep(t, snapshot, attempts) <==> !Strays(t, snapshot, attempts)
  {
    hide Represents, PersistedOnly, Append, Holds, SetsNothingNew, Encodes, Encodable, Mirror;
    var init, a := attempts[..|attempts| - 1], attempts[|attempts| - 1];
    var before := AppendAll(t, init);
    if Append(before, a.rows).Ok? {
      AppendMirrorsExactly(sessionId, before, MirrorAll(t, snapshot, init), a.event, a.rows);
    }
  }

  /** However many appends, refusals and repetitions: rows and snapshot are the same state all along if and
      only if no repetition strays from the snapshot. */
  lemma StateMirrorsExactly(sessionId: string, t: Table, snapshot: Snapshot, attempts: seq<Attempt>)
    requires AllEncoded(sessionId, attempts) && Represents(t.state, PersistedOnly(snapshot.state))
    ensures (forall n :: 0 <= n <= |attempts| ==> InStep(t, snapshot, attempts[..n])) <==>
      forall n :: 0 < n <= |attempts| ==> !Strays(t, snapshot, attempts[..n])
  {
    hide InStep, Strays, Represents, AllEncoded;
    if forall n :: 0 <= n <= |attempts| ==> InStep(t, snapshot, attempts[..n]) {
      forall n | 0 < n <= |attempts| ensures !Strays(t, snapshot, attempts[..n]) {
        assert InStep(t, snapshot, attempts[..n - 1]) && InStep(t, snapshot, attempts[..n]);
        StepAt(sessionId, t, snapshot, attempts, n);
      }
    }
    if forall n :: 0 < n <= |attempts| ==> !Strays(t, snapshot, attempts[..n]) {
      forall n | 0 <= n <= |attempts| ensures InStep(t, snapshot, attempts[..n]) {
        StaysInStep(sessionId, t, snapshot, attempts, n);
      }
    }
  }

  lemma StepAt(sessionId: string, t: Table, snapshot: Snapshot, attempts: seq<Attempt>, n: nat)
    requires 0 < n <= |attempts| && AllEncoded(sessionId, attempts) && InStep(t, snapshot, attempts[..n - 1])
    ensures InStep(t, snapshot, attempts[..n]) <==> !Strays(t, snapshot, attempts[..n])
  {
    hide InStep, Strays, Encodes, Encodable;
    assert attempts[..n][..n - 1] == attempts[..n - 1];
    StepMirrors(sessionId, t, snapshot, attempts[..n]);
  }

  lemma {:induction false} StaysInStep(sessionId: string, t: Table, snapshot: Snapshot, attempts: seq<Attempt>, n: nat)
    requires n <= |attempts| && AllEncoded(sessionId, attempts) && Represents(t.state, PersistedOnly(snapshot.state))
    requires forall i :: 0 < i <= |attempts| ==> !Strays(t, snapshot, attempts[..i])
    ensures InStep(t, snapshot, attempts[..n])
  {
    hide InStep, Strays, Represents, AllEncoded;
    if n == 0 {
      StartsInStep(t, snapshot, attempts);
    } else {
      StaysInStep(sessionId, t, snapshot, attempts, n - 1);
      StepAt(sessionId, t, snapshot, attempts, n);
    }
  }

  lemma StartsInStep(t: Table, snapshot: Snapshot, attempts: seq<Attempt>)
    requires Represents(t.state, PersistedOnly(snapshot.state))
    ensures InStep(t, snapshot, attempts[..0])
  {
    assert attempts[..0] == [];
  }

  /** A read of the state rows, in any order. */
  ghost predicate ReadsState(state: map<Stored, Json>, arrived: seq<ClientState>) {
    && (forall i :: 0 <= i < |arrived| ==>
         Stored(arrived[i].scope, arrived[i].key) in state
         && state[Stored(arrived[i].scope, arrived[i].key)] == arrived[i].value)
    && forall st :: st in state ==> ClientState(st.scope, st.key, state[st]) in arrived
  }

  lemma ReadRows(state: map<Stored, Json>, m: map<string, Json>, arrived: seq<ClientState>, stored: bool)
    requires Represents(state, m) && ReadsState(state, arrived) && !stored
    ensures RowsOf(m, AsDeltas(arrived), stored)
  {
    hide ScopeOf, Travelled;
    var rows := AsDeltas(arrived);
    forall i | 0 <= i < |rows| ensures FromKey(m, rows[i], stored) {
      var st := Stored(arrived[i].scope, arrived[i].key);
      var k := Key(st.scope, st.key);
      Untravelled(m, k, stored);
    }
    forall k | k in m && Persisted(k) ensures Travelled(m, k, stored) in rows {
      Untravelled(m, k, stored);
      var st := ScopeOf(k).value;
      var i :| 0 <= i < |arrived| && arrived[i] == ClientState(st.scope, st.key, state[st]);
      assert rows[i] == Travelled(m, k, stored);
    }
  }

  lemma ReadLoads(state: map<Stored, Json>, m: map<string, Json>, arrived: seq<ClientState>)
    requires Represents(state, m) && ReadsState(state, arrived)
    ensures StateOf(arrived) == m
  {
    hide ScopeOf, StateOf, RowsOf, ReadsState;
    ReadRows(state, m, arrived, false);
    StateRowsLoad(m, arrived);
    assert (map k | k in m && Persisted(k) :: m[k]) == m;
  }

  /** A session is created exactly when it is new and every persisted initial value is one the column holds and
      not null; then its state loads as it was given, without its temporary keys. */
  lemma CreateExactly(existing: Option<Table>, initial: map<string, Json>, rows: seq<StateDeltaRow>, arrived: seq<ClientState>)
    requires FlattensState(Some(initial), rows)
    ensures Create(existing, rows).Ok? <==> existing.None? && StateFits(initial) && NoNull(initial)
    ensures Create(existing, rows).Ok? && ReadsState(Create(existing, rows).value.state, arrived) ==>
      StateOf(arrived) == PersistedOnly(initial)
  {
    hide NotNull, NoNull, Upserted, ReadsState, StateOf, PersistedOnly, FlattensState, DeltaRowsTaken, StateFits;
    FlattenedNotNull(initial, rows);
    StateTaken(initial, rows);
    if Create(existing, rows).Ok? {
      CreateRepresents(initial, rows);
      if ReadsState(Create(existing, rows).value.state, arrived) {
        ReadLoads(Create(existing, rows).value.state, PersistedOnly(initial), arrived);
      }
    }
  }

  lemma CreateRepresents(initial: map<string, Json>, rows: seq<StateDeltaRow>)
    requires FlattensState(Some(initial), rows) && NotNull(rows)
    ensures Represents(Upserted(map[], rows), PersistedOnly(initial))
  {
    hide NotNull, Upserted, FlattensState;
    FlattenedRepresents(map[], map[], initial, rows);
    assert map[] + PersistedOnly(initial) == PersistedOnly(initial);
  }

  /** The reference: the deltas of some events applied in order. */
  function Folded(initial: map<string, Json>, es: seq<Event>): map<string, Json> {
    if es == [] then initial else Folded(initial, es[..|es| - 1]) + DeltaOf(es[|es| - 1])
  }

  /** A call is reported as stored and was new exactly when the reference takes its event. */
  lemma NewExactly(sessionId: string, t: Table, es: seq<Event>, a: Attempt)
    requires StoresAll(sessionId, t.events, es) && Encodable(a.event) && Encodes(sessionId, a.event, a.rows)
    ensures Append(t, a.rows).Ok? && !Holds(t.events, a.event.id) <==>
      !(Among(es, a.event.id) || !Storable(a.event) || |es| >= MAX_INTEGER)
    ensures Append(t, a.rows).Ok? && Holds(t.events, a.event.id) ==> Append(t, a.rows).value == t
  {
    hide Encodes, NoNullIn, Encodable, HeaderFits, BodyFits, Append, Holds, Among;
    SameIds(sessionId, t.events, es, a.event.id);
    AcceptsExactly(sessionId, t, a.event, a.rows);
    NumberedFromOne(t.events);
  }

  lemma {:induction false} HistoryRepresents(sessionId: string, state: map<Stored, Json>, initial: map<string, Json>, attempts: seq<Attempt>)
    requires AllEncoded(sessionId, attempts) && Represents(state, PersistedOnly(initial))
    ensures Represents(AppendAll(Table(state, []), attempts).state, PersistedOnly(Folded(initial, Accepted(attempts))))
  {
    hide Encodes, Represents, PersistedOnly, Encodable, Storable, Append, Holds, Among, DeltaOf, StoresAll;
    if attempts != [] {
      var n := |attempts| - 1;
      var init, a := attempts[..n], attempts[n];
      var t, es := AppendAll(Table(state, []), init), Accepted(init);
      HistoryRepresents(sessionId, state, initial, init);
      HistoryStored(sessionId, state, init);
      NewExactly(sessionId, t, es, a);
      if Append(t, a.rows).Ok? && !Holds(t.events, a.event.id) {
        AppendMirrorsExactly(sessionId, t, Snapshot(Folded(initial, es), []), a.event, a.rows);
        assert (es + [a.event])[..|es| + 1 - 1] == es;
      }
    }
  }

  /** No append so far was reported as stored although its event was there before. */
  ghost predicate NeverRepeats(t: Table, attempts: seq<Attempt>) {
    forall n :: 0 < n <= |attempts| ==> !Repeats(t, attempts[..n])
  }

  lemma NeverRepeatsMore(t: Table, attempts: seq<Attempt>)
    requires attempts != []
    ensures NeverRepeats(t, attempts) <==> NeverRepeats(t, attempts[..|attempts| - 1]) && !Repeats(t, attempts)
  {
    hide Repeats;
    var m := |attempts| - 1;
    assert attempts[..m + 1] == attempts;
    assert forall n :: 0 < n <= m ==> attempts[..m][..n] == attempts[..n];
    if NeverRepeats(t, attempts) {
      forall n | 0 < n <= m ensures !Repeats(t, attempts[..m][..n]) {
        assert !Repeats(t, attempts[..n]);
      }
    }
  }

  /** The snapshot's events are the stored ones if and only if no append was a repetition; each adds one too many. */
  lemma {:induction false} EventsMirrorExactly(sessionId: string, state: map<Stored, Json>, initial: map<string, Json>, attempts: seq<Attempt>)
    requires AllEncoded(sessionId, attempts)
    ensures var held := MirrorAll(Table(state, []), Snapshot(initial, []), attempts).events;
      && |held| >= |Accepted(attempts)|
      && (held == Accepted(attempts) <==> NeverRepeats(Table(state, []), attempts))
      && (|held| == |Accepted(attempts)| <==> NeverRepeats(Table(state, []), attempts))
  {
    hide Encodes, Encodable, Storable, Append, Holds, Among, StoresAll, NeverRepeats, DeltaOf;
    var start := Table(state, []);
    if attempts == [] {
      assert NeverRepeats(start, attempts) by { hide *; NothingRepeats(start); }
    } else {
      var n := |attempts| - 1;
      var init, a := attempts[..n], attempts[n];
      EventsMirrorExactly(sessionId, state, initial, init);
      HistoryStored(sessionId, state, init);
      NewExactly(sessionId, AppendAll(start, init), Accepted(init), a);
      NeverRepeatsMore(start, attempts);
    }
  }

  lemma NothingRepeats(t: Table)
    ensures NeverRepeats(t, [])
  {
  }

  /** Reloading a session gives the state the accepted events left, and that is the snapshot's exactly when
      the two are in step. */
  lemma ReloadIsSnapshot(sessionId: string, initial: map<string, Json>, rows: seq<StateDeltaRow>,
      attempts: seq<Attempt>, arrived: seq<ClientState>)
    requires FlattensState(Some(initial), rows) && Create(None, rows).Ok? && AllEncoded(sessionId, attempts)
    requires ReadsState(AppendAll(Create(None, rows).value, attempts).state, arrived)
    ensures StateOf(arrived) == PersistedOnly(Folded(initial, Accepted(attempts)))
    ensures var t, snapshot := Create(None, rows).value, Snapshot(initial, []);
      StateOf(arrived) == PersistedOnly(MirrorAll(t, snapshot, attempts).state) <==> InStep(t, snapshot, attempts)
  {
    hide NotNull, Upserted, ReadsState, StateOf, PersistedOnly, FlattensState, AppendAll, Accepted, Folded, AllEncoded,
         Represents, DeltaRowsTaken, MirrorAll;
    CreateRepresents(initial, rows);
    var t := Create(None, rows).value;
    var state, m := AppendAll(t, attempts).state, PersistedOnly(Folded(initial, Accepted(attempts)));
    HistoryRepresents(sessionId, t.state, initial, attempts);
    ReadLoads(state, m, arrived);
    if InStep(t, Snapshot(initial, []), attempts) {
      RepresentsOnce(state, m, PersistedOnly(MirrorAll(t, Snapshot(initial, []), attempts).state));
    }
  }

  // ---- A history that strays ----

  /** An event that sets "x". */
  function Setting(id: string, value: string): Event {
    Event(id, "", "", "", 0, false, false, "", "", "", None, None, None, None, None, None, None, None, None,
          NO_ACTIONS.(stateDelta := Some(map["x" := Document(value)])))
  }

  lemma SettingFits(id: string, value: string)
    requires (id == "a" || id == "b") && (value == "1" || value == "2")
    ensures Storable(Setting(id, value)) && DeltaOf(Setting(id, value)) == map["x" := Document(value)]
  {
    assert Text("") && Text("a") && Text("b") && Text("x") && !EscapesZero("1") && !EscapesZero("2");
    var delta := map["x" := Document(value)];
    assert forall k :: k in delta ==> k == "x" && delta[k] == Document(value);
  }

  lemma KeyPersists()
    ensures Persisted("x")
  {
    assert "x"[0] == 'x' && KEY_PREFIX_TEMP[0] == 't';
  }

  /** "x" set to 1, then to 2, and the first event appended again: the rows hold 2, the snapshot 1 and one
      event too many. */
  lemma RepetitionStrays(sessionId: string, rowsA: EventRows, rowsB: EventRows)
    requires Encodes(sessionId, Setting("a", "1"), rowsA) && Encodes(sessionId, Setting("b", "2"), rowsB)
    ensures var a, b := Attempt(Setting("a", "1"), rowsA), Attempt(Setting("b", "2"), rowsB);
      var t, start := Table(map[], []), Snapshot(map[], []);
      && Represents(AppendAll(t, [a, b, a]).state, map["x" := Document("2")])
      && MirrorAll(t, start, [a, b, a]) == Snapshot(map["x" := Document("1")], [a.event, b.event, a.event])
      && Accepted([a, b, a]) == [a.event, b.event]
      && !InStep(t, start, [a, b, a])
  {
    hide Encodes, Represents, PersistedOnly, Storable, Append, Holds, StoresAll, Persisted, Setting, DeltaOf, Encodable;
    var a, b := Attempt(Setting("a", "1"), rowsA), Attempt(Setting("b", "2"), rowsB);
    var t, start := Table(map[], []), Snapshot(map[], []);
    SettingFits("a", "1");
    SettingFits("b", "2");
    SettingIds();
    AcceptedThree(a, b);
    MirroredThree(sessionId, t, start, a, b);
    var attempts := [a, b, a];
    assert AllEncoded(sessionId, attempts);
    EmptyRepresents();
    HistoryRepresents(sessionId, map[], map[], attempts);
    FoldedTwo(a.event, b.event);
    assert Folded(map[], [a.event, b.event]) == map["x" := Document("2")];
    assert MirrorAll(t, start, attempts).state == map["x" := Document("1")];
    assert map["x" := Document("2")]["x"] != map["x" := Document("1")]["x"];
    OnlyX("1");
    OnlyX("2");
    if InStep(t, start, attempts) {
      RepresentsOnce(AppendAll(t, attempts).state, map["x" := Document("2")], map["x" := Document("1")]);
    }
  }

  lemma FoldedTwo(a: Event, b: Event)
    ensures Folded(map[], [a, b]) == DeltaOf(a) + DeltaOf(b)
  {
    hide DeltaOf;
    assert [a, b][..1] == [a] && [a][..0] == [];
    assert Folded(map[], [a]) == map[] + DeltaOf(a) == DeltaOf(a);
  }

  lemma SettingIds()
    ensures forall value :: Encodable(Setting("a", value)) && Setting("a", value).id == "a"
    ensures forall value :: Encodable(Setting("b", value)) && Setting("b", value).id == "b"
  {
  }

  lemma EmptyRepresents()
    ensures Represents(map[], PersistedOnly(map[]))
  {
  }

  lemma OnlyX(value: string)
    ensures PersistedOnly(map["x" := Document(value)]) == map["x" := Document(value)]
  {
    KeyPersists();
  }

  lemma AcceptedThree(a: Attempt, b: Attempt)
    requires Storable(a.event) && Storable(b.event) && a.event.id != b.event.id
    ensures Accepted([a, b, a]) == [a.event, b.event]
    ensures Accepted([a, b]) == [a.event, b.event] && Accepted([a]) == [a.event]
  {
    hide Storable;
    assert [a, b, a][..2] == [a, b] && [a, b][..1] == [a] && [a][..0] == [];
    assert Accepted([a]) == [a.event];
    assert !Among([a.event], b.event.id);
    assert Accepted([a, b]) == [a.event, b.event];
    assert [a.event, b.event][0].id == a.event.id;
  }

  lemma MirroredThree(sessionId: string, t: Table, start: Snapshot, a: Attempt, b: Attempt)
    requires t == Table(map[], []) && Storable(a.event) && Storable(b.event) && a.event.id != b.event.id
    requires Encodes(sessionId, a.event, a.rows) && Encodes(sessionId, b.event, b.rows)
    ensures MirrorAll(t, start, [a, b, a]) == Mirror(Mirror(Mirror(start, a.event), b.event), a.event)
  {
    hide Encodes, Append, Holds, StoresAll, Mirror, HeaderFits, BodyFits, Encodable, Accepted, NoNullIn;
    var attempts := [a, b, a];
    assert attempts[..2] == [a, b] && [a, b][..1] == [a] && [a][..0] == [];
    AcceptedThree(a, b);
    assert AllEncoded(sessionId, [a]) && AllEncoded(sessionId, [a, b]);
    assert Accepted([]) == [] by { NoneAccepted(); }
    HistoryStored(sessionId, map[], []);
    NewExactly(sessionId, t, [], a);
    HistoryStored(sessionId, map[], [a]);
    assert MirrorAll(t, start, [a]) == Mirror(start, a.event);
    assert !Among([a.event], b.event.id);
    NewExactly(sessionId, AppendAll(t, [a]), [a.event], b);
    assert MirrorAll(t, start, [a, b]) == Mirror(Mirror(start, a.event), b.event);
    HistoryStored(sessionId, map[], [a, b]);
    assert [a.event, b.event][0] == a.event && Among([a.event, b.event], a.event.id);
    HeldAgain(sessionId, AppendAll(t, [a, b]), [a.event, b.event], a);
  }

  lemma NoneAccepted()
    ensures Accepted([]) == []
  {
  }

  /** An event among the stored ones is reported as stored again. */
  lemma HeldAgain(sessionId: string, t: Table, es: seq<Event>, a: Attempt)
    requires StoresAll(sessionId, t.events, es) && Storable(a.event) && Encodes(sessionId, a.event, a.rows)
    requires Among(es, a.event.id) && |es| < MAX_INTEGER
    ensures Append(t, a.rows) == Ok(t)
  {
    hide Encodes, Append, Holds, Among, HeaderFits, BodyFits, NoNullIn;
    SameIds(sessionId, t.events, es, a.event.id);
    AcceptsExactly(sessionId, t, a.event, a.rows);
    NumberedFromOne(t.events);
  }
}
