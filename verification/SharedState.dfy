/** State shared between the sessions of an application, and the window Get returns (session/service.go). */
module SharedState {

  import opened Common
  import opened StateKeys
  import opened SessionRows

  /** One state row of one session, as the shared-state query returns it. */
  datatype Entry = Entry(sessionId: string, userId: string, scope: string, key: string, value: Json, at: int) {
    function Name(): string {
      Key(scope, key)
    }
  }

  datatype StateRow = StateRow(scope: string, key: string, value: Json, at: int)

  datatype Holder = Holder(id: string, userId: string, state: seq<StateRow>)

  function EntriesOf(s: Holder): (es: seq<Entry>)
    ensures |es| == |s.state|
    ensures forall i :: 0 <= i < |es| ==>
        es[i] == Entry(s.id, s.userId, s.state[i].scope, s.state[i].key, s.state[i].value, s.state[i].at)
  {
    seq(|s.state|, i requires 0 <= i < |s.state| =>
      Entry(s.id, s.userId, s.state[i].scope, s.state[i].key, s.state[i].value, s.state[i].at))
  }

  /** Every row of the result, in order. */
  function Entries(shared: seq<Holder>): seq<Entry> {
    if shared == [] then [] else Entries(shared[..|shared| - 1]) + EntriesOf(shared[|shared| - 1])
  }

  /** Whose loading a row takes part in: anyone's for the application, the same user's, or its own session's. */
  predicate Counts(e: Entry, sessionId: string, userId: string) {
    if e.scope == SCOPE_APP then true
    else if e.scope == SCOPE_USER then e.userId == userId
    else e.sessionId == sessionId
  }

  /** Row i decides its key: no other row that counts is newer, and none as new comes later. */
  ghost predicate Decides(es: seq<Entry>, sessionId: string, userId: string, i: int) {
    && 0 <= i < |es| && Counts(es[i], sessionId, userId)
    && forall j :: 0 <= j < |es| && Counts(es[j], sessionId, userId) && es[j].Name() == es[i].Name() ==>
        es[j].at < es[i].at || (es[j].at == es[i].at && j <= i)
  }

  datatype Stamped = Stamped(value: Json, at: int)

  /** `newest` holds exactly what the deciding rows say. */
  ghost predicate Tracks(es: seq<Entry>, sessionId: string, userId: string, newest: map<string, Stamped>) {
    && (forall i :: 0 <= i < |es| && Counts(es[i], sessionId, userId) ==> es[i].Name() in newest)
    && forall name :: name in newest ==>
        exists i :: Decides(es, sessionId, userId, i) && es[i].Name() == name
                    && newest[name] == Stamped(es[i].value, es[i].at)
  }

  /** One more row: it replaces what is there unless that is newer. */
  function Overlay(newest: map<string, Stamped>, e: Entry, sessionId: string, userId: string): map<string, Stamped> {
    if !Counts(e, sessionId, userId) then newest
    else if e.Name() in newest && newest[e.Name()].at > e.at then newest
    else newest[e.Name() := Stamped(e.value, e.at)]
  }

  lemma OverlayTracks(es: seq<Entry>, e: Entry, sessionId: string, userId: string, newest: map<string, Stamped>)
    requires Tracks(es, sessionId, userId, newest)
    ensures Tracks(es + [e], sessionId, userId, Overlay(newest, e, sessionId, userId))
  {
    hide Key, Counts;
    var after := Overlay(newest, e, sessionId, userId);
    var more := es + [e];
    forall name | name in after
      ensures exists i :: Decides(more, sessionId, userId, i) && more[i].Name() == name
                          && after[name] == Stamped(more[i].value, more[i].at)
    {
      if Counts(e, sessionId, userId) && name == e.Name() && !(name in newest && newest[name].at > e.at) {
        if name in newest {
          var k :| Decides(es, sessionId, userId, k) && es[k].Name() == name
                   && newest[name] == Stamped(es[k].value, es[k].at);
        }
        LaterDecides(es, e, sessionId, userId);
        assert more[|es|] == e;
      } else {
        var k :| Decides(es, sessionId, userId, k) && es[k].Name() == name
                 && newest[name] == Stamped(es[k].value, es[k].at);
        EarlierDecides(es, e, sessionId, userId, k);
        assert more[k] == es[k];
      }
    }
    forall i | 0 <= i < |more| && Counts(more[i], sessionId, userId) ensures more[i].Name() in after {
      if i < |es| {
        assert more[i] == es[i];
      }
    }
  }

  /** A new row decides when every row that counts under its name is no newer. */
  lemma LaterDecides(es: seq<Entry>, e: Entry, sessionId: string, userId: string)
    requires Counts(e, sessionId, userId)
    requires forall j :: 0 <= j < |es| && Counts(es[j], sessionId, userId) && es[j].Name() == e.Name() ==> es[j].at <= e.at
    ensures Decides(es + [e], sessionId, userId, |es|)
  {
    hide Key, Counts;
    var more := es + [e];
    forall j | 0 <= j < |more| && Counts(more[j], sessionId, userId) && more[j].Name() == e.Name()
      ensures more[j].at < e.at || (more[j].at == e.at && j <= |es|)
    {
      if j < |es| {
        assert more[j] == es[j];
      }
    }
  }

  /** A row goes on deciding when the new one does not count, has another name, or is older. */
  lemma EarlierDecides(es: seq<Entry>, e: Entry, sessionId: string, userId: string, k: int)
    requires Decides(es, sessionId, userId, k)
    requires Counts(e, sessionId, userId) && e.Name() == es[k].Name() ==> e.at < es[k].at
    ensures Decides(es + [e], sessionId, userId, k)
  {
    hide Key, Counts;
    var more := es + [e];
    assert more[k] == es[k];
    forall j | 0 <= j < |more| && Counts(more[j], sessionId, userId) && more[j].Name() == more[k].Name()
      ensures more[j].at < more[k].at || (more[j].at == more[k].at && j <= k)
    {
      if j < |es| {
        assert more[j] == es[j];
      }
    }
  }

  /** What the merge does to a session's state: a key some row counts for gets the deciding row's value,
      every other key is left alone. */
  ghost predicate Merged(es: seq<Entry>, sessionId: string, userId: string,
                         before: map<string, Json>, after: map<string, Json>)
  {
    && (forall i :: Decides(es, sessionId, userId, i) ==> es[i].Name() in after && after[es[i].Name()] == es[i].value)
    && (forall i :: 0 <= i < |es| && Counts(es[i], sessionId, userId) ==> es[i].Name() in after)
    && forall name :: !Named(es, sessionId, userId, name) ==>
        (name in after <==> name in before) && (name in before ==> after[name] == before[name])
  }

  /** Some row counts for the name. */
  ghost predicate Named(es: seq<Entry>, sessionId: string, userId: string, name: string) {
    exists i :: 0 <= i < |es| && Counts(es[i], sessionId, userId) && es[i].Name() == name
  }

  lemma DecidesOnce(es: seq<Entry>, sessionId: string, userId: string, i: int, j: int)
    requires Decides(es, sessionId, userId, i) && Decides(es, sessionId, userId, j) && es[i].Name() == es[j].Name()
    ensures i == j
  {
  }

  /** The first half of the merge: the newest value and time seen for every key in scope. */
  method Newest(sessionId: string, user: string, shared: seq<Holder>) returns (newest: map<string, Stamped>)
    ensures Tracks(Entries(shared), sessionId, user, newest)
  {
    hide Key, Counts, Decides, Overlay;
    newest := map[];
    for a := 0 to |shared|
      invariant Tracks(Entries(shared[..a]), sessionId, user, newest)
    {
      var s := shared[a];
      ghost var before := Entries(shared[..a]);
      assert before + EntriesOf(s)[..0] == before;
      for b := 0 to |s.state|
        invariant Tracks(before + EntriesOf(s)[..b], sessionId, user, newest)
      {
        var st := s.state[b];
        var e := Entry(s.id, s.userId, st.scope, st.key, st.value, st.at);
        OverlayTracks(before + EntriesOf(s)[..b], e, sessionId, user, newest);
        assert before + EntriesOf(s)[..b] + [e] == before + EntriesOf(s)[..b + 1];
        newest := Overlay(newest, e, sessionId, user);
      }
      assert before + EntriesOf(s)[..|s.state|] == before + EntriesOf(s);
      assert shared[..a + 1][..a] == shared[..a];
    }
    assert shared[..|shared|] == shared;
  }

  /** The session a caller holds in memory. */
  datatype Snapshot = Snapshot(state: map<string, Json>, events: seq<Event>)

  function DeltaOf(e: Event): map<string, Json> {
    if e.actions.stateDelta.Some? then e.actions.stateDelta.value else map[]
  }

  /** An event appended to it, and its whole delta applied, temporary keys included. */
  function Mirror(s: Snapshot, e: Event): Snapshot {
    Snapshot(s.state + DeltaOf(e), s.events + [e])
  }

  class StoredSession {
    const id: string
    const userId: string
    var state: map<string, Json>
    var events: seq<Event>

    function Value(): Snapshot
      reads this
    {
      Snapshot(state, events)
    }

    constructor (id: string, userId: string, state: map<string, Json>, events: seq<Event>)
      ensures this.id == id && this.userId == userId && this.state == state && this.events == events
    {
      this.id, this.userId, this.state, this.events := id, userId, state, events;
    }

    /** mergeSharedState: the newest value of every key in scope, over every session of the result. */
    method MergeSharedState(sessionId: string, user: string, shared: seq<Holder>)
      modifies this`state
      ensures Merged(Entries(shared), sessionId, user, old(state), state)
    {
      hide *;
      var newest := Newest(sessionId, user, shared);
      var pending := newest.Keys;
      while pending != {}
        invariant pending <= newest.Keys
        invariant forall name :: name in newest && name !in pending ==> name in state && state[name] == newest[name].value
        invariant forall name :: name !in newest || name in pending ==>
            (name in state <==> name in old(state)) && (name in old(state) ==> state[name] == old(state)[name])
        decreases pending
      {
        var name :| name in pending;
        state := state[name := newest[name].value];
        pending := pending - {name};
      }
      TracksMerge(Entries(shared), sessionId, user, newest, old(state), state);
    }

    /** applyToSnapshot. */
    method Apply(e: Event)
      modifies this
      ensures Value() == Mirror(old(Value()), e)
    {
      events := events + [e];
      if e.actions.stateDelta.Some? {
        var delta := e.actions.stateDelta.value;
        var pending := delta.Keys;
        while pending != {}
          invariant pending <= delta.Keys
          invariant events == old(events) + [e]
          invariant state == old(state) + (map k | k in delta && k !in pending :: delta[k])
          decreases pending
        {
          var k :| k in pending;
          state := state[k := delta[k]];
          pending := pending - {k};
        }
        assert delta == map k | k in delta && k !in pending :: delta[k];
      }
    }
  }

  lemma TracksMerge(es: seq<Entry>, sessionId: string, userId: string, newest: map<string, Stamped>,
      before: map<string, Json>, after: map<string, Json>)
    requires Tracks(es, sessionId, userId, newest)
    requires forall name :: name in newest ==> name in after && after[name] == newest[name].value
    requires forall name :: name !in newest ==>
        (name in after <==> name in before) && (name in before ==> after[name] == before[name])
    ensures Merged(es, sessionId, userId, before, after)
  {
    hide Key, Counts;
    forall i | Decides(es, sessionId, userId, i)
      ensures es[i].Name() in after && after[es[i].Name()] == es[i].value
    {
      var k :| Decides(es, sessionId, userId, k) && es[k].Name() == es[i].Name()
               && newest[es[i].Name()] == Stamped(es[k].value, es[k].at);
      DecidesOnce(es, sessionId, userId, i, k);
    }
    forall name | name in newest ensures Named(es, sessionId, userId, name) {
      var k :| Decides(es, sessionId, userId, k) && es[k].Name() == name;
    }
  }

  // ---- Two sessions loaded from one result ----

  /** Every row was written by ScopeOf. */
  ghost predicate WellScoped(es: seq<Entry>) {
    forall i :: 0 <= i < |es| ==> ScopeOf(es[i].Name()) == Some(Stored(es[i].scope, es[i].key))
  }

  /** A session's state before the merge comes from its own rows, and they are in the result. */
  ghost predicate FromOwnRows(es: seq<Entry>, sessionId: string, userId: string, state: map<string, Json>) {
    forall name :: name in state ==>
      exists i :: 0 <= i < |es| && es[i].sessionId == sessionId && es[i].userId == userId && es[i].Name() == name
  }

  lemma OwnNamesCount(es: seq<Entry>, sessionId: string, userId: string, state: map<string, Json>, name: string)
    requires FromOwnRows(es, sessionId, userId, state) && name in state
    ensures Named(es, sessionId, userId, name)
  {
    var i :| 0 <= i < |es| && es[i].sessionId == sessionId && es[i].userId == userId && es[i].Name() == name;
    assert Counts(es[i], sessionId, userId);
  }

  /** A name whose rows count for both sessions or for neither means the same in both. */
  lemma SameNameAgrees(es: seq<Entry>, s1: string, u1: string, s2: string, u2: string,
      before1: map<string, Json>, after1: map<string, Json>,
      before2: map<string, Json>, after2: map<string, Json>, name: string)
    requires Merged(es, s1, u1, before1, after1) && Merged(es, s2, u2, before2, after2)
    requires FromOwnRows(es, s1, u1, before1) && FromOwnRows(es, s2, u2, before2)
    requires forall i :: 0 <= i < |es| && es[i].Name() == name ==> (Counts(es[i], s1, u1) <==> Counts(es[i], s2, u2))
    ensures name in after1 <==> name in after2
    ensures name in after1 ==> after1[name] == after2[name]
  {
    hide Key, Counts, FromOwnRows;
    if Named(es, s1, u1, name) {
      var i := Decider(es, s1, u1, name);
      assert Decides(es, s2, u2, i);
    } else {
      if name in before1 {
        OwnNamesCount(es, s1, u1, before1, name);
      }
      if name in before2 {
        OwnNamesCount(es, s2, u2, before2, name);
      }
    }
  }

  lemma NamedSplit(init: seq<Entry>, last: Entry, sessionId: string, userId: string, name: string)
    requires Named(init + [last], sessionId, userId, name)
    ensures Named(init, sessionId, userId, name) || (Counts(last, sessionId, userId) && last.Name() == name)
  {
    hide Key, Counts;
    var es := init + [last];
    var k :| 0 <= k < |es| && Counts(es[k], sessionId, userId) && es[k].Name() == name;
    assert k < |init| ==> init[k] == es[k];
  }

  /** A name some row counts for has a deciding row. */
  lemma {:induction false} Decider(es: seq<Entry>, sessionId: string, userId: string, name: string) returns (i: int)
    requires Named(es, sessionId, userId, name)
    ensures Decides(es, sessionId, userId, i) && es[i].Name() == name
    decreases |es|
  {
    hide Key, Counts;
    var n := |es| - 1;
    var init, last := es[..n], es[n];
    assert es == init + [last];
    NamedSplit(init, last, sessionId, userId, name);
    if Named(init, sessionId, userId, name) {
      i := Decider(init, sessionId, userId, name);
      if Counts(last, sessionId, userId) && last.Name() == name && init[i].at <= last.at {
        LaterDecides(init, last, sessionId, userId);
        i := n;
      } else {
        EarlierDecides(init, last, sessionId, userId, i);
      }
    } else {
      LaterDecides(init, last, sessionId, userId);
      i := n;
    }
  }

  /** Two sessions of one application agree on every `app:` key, and for one user on every `user:` key. */
  lemma SharedKeysAgree(es: seq<Entry>, s1: string, u1: string, s2: string, u2: string,
      before1: map<string, Json>, after1: map<string, Json>,
      before2: map<string, Json>, after2: map<string, Json>, name: string)
    requires WellScoped(es)
    requires Merged(es, s1, u1, before1, after1) && Merged(es, s2, u2, before2, after2)
    requires FromOwnRows(es, s1, u1, before1) && FromOwnRows(es, s2, u2, before2)
    requires "app:" <= name || ("user:" <= name && u1 == u2)
    ensures name in after1 <==> name in after2
    ensures name in after1 ==> after1[name] == after2[name]
  {
    assert "temp:"[0] == 't' && "app:"[0] == 'a' && "user:"[0] == 'u';
    PrefixDecides(name);
    hide Merged, FromOwnRows, ScopeOf, Key;
    SameNameAgrees(es, s1, u1, s2, u2, before1, after1, before2, after2, name);
  }

  /** No session's own keys leak: a row of session scope changes no other session. */
  lemma SessionKeysStayPrivate(es: seq<Entry>, sessionId: string, userId: string,
      before: map<string, Json>, after: map<string, Json>, name: string)
    requires WellScoped(es) && Merged(es, sessionId, userId, before, after)
    requires !("app:" <= name) && !("user:" <= name) && !("temp:" <= name)
    requires forall i :: 0 <= i < |es| && es[i].Name() == name ==> es[i].sessionId != sessionId
    ensures name in after <==> name in before
    ensures name in before ==> after[name] == before[name]
  {
    PrefixDecides(name);
    hide ScopeOf, Key;
    assert SCOPE_SESSION[0] == 's' && SCOPE_APP[0] == 'a' && SCOPE_USER[0] == 'u';
    assert !Named(es, sessionId, userId, name);
  }

  // ---- The window of events Get returns ----

  /** The events at or after a time, in order. */
  function Since(es: seq<Event>, after: int): seq<Event> {
    if es == [] then []
    else Since(es[..|es| - 1], after) + if es[|es| - 1].timestamp >= after then [es[|es| - 1]] else []
  }

  /** The filter, compacting the slice in place: the kept events move to the front of the same array. */
  method KeepSince(events: array<Event>, after: int) returns (kept: nat)
    modifies events
    ensures kept <= events.Length && events[..kept] == Since(old(events[..]), after)
  {
    hide Since;
    kept := 0;
    SinceNothing(after);
    for i := 0 to events.Length
      invariant kept <= i
      invariant events[..kept] == Since(old(events[..])[..i], after)
      invariant forall k :: i <= k < events.Length ==> events[k] == old(events[k])
    {
      SinceMore(old(events[..]), i, after);
      if events[i].timestamp >= after {
        events[kept] := events[i];
        kept := kept + 1;
      }
    }
    assert old(events[..])[..events.Length] == old(events[..]);
  }

  lemma SinceNothing(after: int)
    ensures Since([], after) == []
  {
  }

  lemma SinceMore(es: seq<Event>, i: nat, after: int)
    requires i < |es|
    ensures Since(es[..i + 1], after) == Since(es[..i], after) + if es[i].timestamp >= after then [es[i]] else []
  {
    assert es[..i + 1][..i] == es[..i];
  }

  /** The last n, when a limit is set and there are more. */
  function Recent(es: seq<Event>, n: int): seq<Event> {
    if n > 0 && |es| > n then es[|es| - n..] else es
  }

  /** What Get returns of a session's events: the time filter first, the count second. None is the zero time. */
  function Window(es: seq<Event>, after: Option<int>, n: int): seq<Event> {
    Recent(if after.Some? then Since(es, after.value) else es, n)
  }

  method Get(events: array<Event>, after: Option<int>, n: int) returns (r: seq<Event>)
    modifies events
    ensures r == Window(old(events[..]), after, n)
  {
    var kept := events.Length;
    if after.Some? {
      kept := KeepSince(events, after.value);
    }
    var lo := 0;
    if n > 0 && kept > n {
      lo := kept - n;
    }
    r := events[lo..kept];
  }

  lemma {:induction false} SinceMembers(es: seq<Event>, after: int, e: Event)
    ensures e in Since(es, after) <==> e in es && e.timestamp >= after
  {
    if es != [] {
      SinceMembers(es[..|es| - 1], after, e);
      assert es == es[..|es| - 1] + [es[|es| - 1]];
    }
  }

  lemma {:induction false} SinceAppend(a: seq<Event>, b: seq<Event>, after: int)
    ensures Since(a + b, after) == Since(a, after) + Since(b, after)
  {
    if b == [] {
      assert a + b == a;
    } else {
      var init := b[..|b| - 1];
      assert (a + b)[..|a + b| - 1] == a + init;
      SinceAppend(a, init, after);
    }
  }

  /** The window is an end of what passes the time filter, all of it unless a positive count is less; without a
      time, everything passes. */
  lemma WindowIsEnd(es: seq<Event>, after: Option<int>, n: int)
    ensures var passing, w := if after.Some? then Since(es, after.value) else es, Window(es, after, n);
      && |w| == (if 0 < n < |passing| then n else |passing|)
      && w == passing[|passing| - |w|..]
  {
  }

  /** Which events the window holds: one at position i is in it exactly when it is not too old and fewer
      than n that are not too old come after it. */
  lemma WindowExactly(es: seq<Event>, after: int, n: int, i: nat)
    requires i < |es| && n > 0
    ensures es[i].timestamp >= after ==>
        Since(es, after) == Since(es[..i], after) + [es[i]] + Since(es[i + 1..], after)
    ensures es[i].timestamp >= after && |Since(es[i + 1..], after)| < n ==>
        exists k :: 0 <= k < |Window(es, Some(after), n)| && Window(es, Some(after), n)[k] == es[i]
                    && Window(es, Some(after), n)[k + 1..] == Since(es[i + 1..], after)
  {
    hide Since;
    var newer := Since(es[i + 1..], after);
    SinceMore(es, i, after);
    SinceAppend(es[..i + 1], es[i + 1..], after);
    assert es == es[..i + 1] + es[i + 1..];
    if es[i].timestamp >= after && |newer| < n {
      var all := Since(es, after);
      var w := Window(es, Some(after), n);
      var k := |w| - |newer| - 1;
      assert w == all[|all| - |w|..];
      assert w[k] == all[|all| - |newer| - 1] == es[i];
      assert w[k + 1..] == newer;
    }
  }
}
