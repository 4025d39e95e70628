/** Reading a stored session back (session/load.go, sessionFromRow in session/service.go). */
module SessionLoad {

  import opened Common
  import opened StateKeys
  import opened SessionRows

  // ---- Sorting, as the sort package does it: stable, by an integer key ----

  function Place<T>(x: T, xs: seq<T>, rank: T -> int): seq<T> {
    if xs == [] || rank(x) <= rank(xs[0]) then [x] + xs else [xs[0]] + Place(x, xs[1..], rank)
  }

  function StableSort<T>(xs: seq<T>, rank: T -> int): seq<T> {
    if xs == [] then [] else Place(xs[0], StableSort(xs[1..], rank), rank)
  }

  ghost predicate Sorted<T>(xs: seq<T>, rank: T -> int) {
    forall i, j :: 0 <= i < j < |xs| ==> rank(xs[i]) <= rank(xs[j])
  }

  ghost predicate StrictlySorted<T>(xs: seq<T>, rank: T -> int) {
    forall i, j :: 0 <= i < j < |xs| ==> rank(xs[i]) < rank(xs[j])
  }

  lemma {:induction false} PlaceKeeps<T>(x: T, xs: seq<T>, rank: T -> int)
    ensures multiset(Place(x, xs, rank)) == multiset(xs) + multiset{x}
  {
    if xs != [] && rank(xs[0]) < rank(x) {
      PlaceKeeps(x, xs[1..], rank);
      assert xs == [xs[0]] + xs[1..];
    }
  }

  lemma {:induction false} PlaceSorts<T>(x: T, xs: seq<T>, rank: T -> int)
    requires Sorted(xs, rank)
    ensures Sorted(Place(x, xs, rank), rank)
  {
    if xs != [] && rank(xs[0]) < rank(x) {
      PlaceSorts(x, xs[1..], rank);
      PlaceKeeps(x, xs[1..], rank);
      AtMostAll(xs, Place(x, xs[1..], rank), x, rank);
    }
  }

  /** A head no larger than x and its own tail is no larger than any mixture of them. */
  lemma AtMostAll<T>(xs: seq<T>, mixed: seq<T>, x: T, rank: T -> int)
    requires xs != [] && Sorted(xs, rank) && rank(xs[0]) < rank(x)
    requires multiset(mixed) == multiset(xs[1..]) + multiset{x}
    ensures forall j :: 0 <= j < |mixed| ==> rank(xs[0]) <= rank(mixed[j])
  {
    forall j | 0 <= j < |mixed| ensures rank(xs[0]) <= rank(mixed[j]) {
      assert mixed[j] in multiset(mixed);
      if mixed[j] != x {
        var i :| 0 <= i < |xs| - 1 && xs[1..][i] == mixed[j];
      }
    }
  }

  lemma {:induction false} StableSortSorts<T>(xs: seq<T>, rank: T -> int)
    ensures Sorted(StableSort(xs, rank), rank)
    ensures multiset(StableSort(xs, rank)) == multiset(xs)
  {
    if xs != [] {
      StableSortSorts(xs[1..], rank);
      PlaceSorts(xs[0], StableSort(xs[1..], rank), rank);
      PlaceKeeps(xs[0], StableSort(xs[1..], rank), rank);
      assert xs == [xs[0]] + xs[1..];
    }
  }

  /** Sorting undoes any rearrangement of a strictly sorted sequence. */
  lemma SortRestores<T>(original: seq<T>, arrived: seq<T>, rank: T -> int)
    requires StrictlySorted(original, rank) && multiset(arrived) == multiset(original)
    ensures StableSort(arrived, rank) == original
  {
    StableSortSorts(arrived, rank);
    SortedIsUnique(original, StableSort(arrived, rank), rank);
  }

  lemma {:induction false} SortedIsUnique<T>(original: seq<T>, xs: seq<T>, rank: T -> int)
    requires StrictlySorted(original, rank) && Sorted(xs, rank) && multiset(xs) == multiset(original)
    ensures xs == original
    decreases |original|
  {
    hide Sorted, StrictlySorted;
    SameLength(xs, original);
    if original != [] {
      TailsSorted(original, xs, rank);
      SameHead(original, xs, rank);
      TailMultiset(xs);
      TailMultiset(original);
      SortedIsUnique(original[1..], xs[1..], rank);
      assert xs == [xs[0]] + xs[1..] && original == [original[0]] + original[1..];
    }
  }

  lemma TailsSorted<T>(original: seq<T>, xs: seq<T>, rank: T -> int)
    requires StrictlySorted(original, rank) && Sorted(xs, rank) && original != [] && xs != []
    ensures StrictlySorted(original[1..], rank) && Sorted(xs[1..], rank)
  {
  }

  lemma TailMultiset<T>(xs: seq<T>)
    requires xs != []
    ensures multiset(xs[1..]) == multiset(xs) - multiset{xs[0]}
  {
    assert xs == [xs[0]] + xs[1..];
  }

  lemma SameLength<T>(a: seq<T>, b: seq<T>)
    requires multiset(a) == multiset(b)
    ensures |a| == |b|
  {
    assert |multiset(a)| == |a| && |multiset(b)| == |b|;
  }

  lemma SameHead<T>(original: seq<T>, xs: seq<T>, rank: T -> int)
    requires StrictlySorted(original, rank) && Sorted(xs, rank) && multiset(xs) == multiset(original)
    requires original != [] && xs != []
    ensures xs[0] == original[0]
  {
    assert xs[0] in multiset(original) && original[0] in multiset(xs);
    var i :| 0 <= i < |original| && original[i] == xs[0];
    var j :| 0 <= j < |xs| && xs[j] == original[0];
    assert rank(xs[0]) <= rank(xs[j]);
  }

  // ---- What the generated client returns: json columns parsed, bytes as base64 text ----

  /** The base64 text of some bytes; the empty text is that of no bytes. */
  datatype Base64 = Empty | Encoded(content: bytes)

  datatype ClientPart = ClientPart(
    partIndex: int,
    text: Option<string>,
    thought: Option<bool>,
    thoughtSignature: Option<Base64>,
    functionCallId: Option<string>,
    functionCallName: Option<string>,
    functionCallArgs: Option<string>,
    functionResponseId: Option<string>,
    functionResponseName: Option<string>,
    functionResponseResponse: Option<string>,
    inlineDataMimeType: Option<string>,
    inlineDataBytes: Option<Base64>,
    inlineDataDisplayName: Option<string>,
    fileDataMimeType: Option<string>,
    fileDataUri: Option<string>,
    fileDataDisplayName: Option<string>,
    executableCodeLanguage: Option<string>,
    executableCodeCode: Option<string>,
    codeExecutionOutcome: Option<string>,
    codeExecutionOutput: Option<string>,
    videoStart: Option<OffsetText>,
    videoEnd: Option<OffsetText>,
    videoFps: Option<real>,
    mediaResolution: Option<Json>,
    toolCall: Option<string>,
    toolResponse: Option<string>,
    partMetadata: Option<string>)

  /** A parsed value: None is nil. */
  datatype ClientDelta = ClientDelta(scope: string, key: string, value: Option<string>)

  datatype ClientActions = ClientActions(
    skipSummarization: Option<bool>,
    transferToAgent: Option<string>,
    escalate: Option<bool>,
    requestedAuthConfigs: Option<string>,
    stateDeltas: seq<ClientDelta>,
    artifactDeltas: seq<ArtifactDeltaRow>)

  datatype ClientEvent = ClientEvent(
    adkId: string,
    sequence: int,
    invocationId: string,
    author: string,
    branch: Option<string>,
    timestamp: int,
    turnComplete: bool,
    interrupted: bool,
    isolationScope: Option<string>,
    errorCode: Option<string>,
    errorMessage: Option<string>,
    contentRole: Option<string>,
    longRunningToolIds: Option<seq<string>>,
    routes: Option<string>,
    requestedInput: Option<string>,
    nodeInfo: Option<string>,
    groundingMetadata: Option<string>,
    usageMetadata: Option<string>,
    citationMetadata: Option<string>,
    customMetadata: Option<string>,
    parts: seq<ClientPart>,
    actions: seq<ClientActions>)

  // ---- The transport, as far as the loader can tell ----

  /**
   * What a json column holds, and the driver parses: the text null becomes SQL NULL when
   * json_populate_record fills the row, so neither is told from the other afterwards.
   */
  function Held(c: Column): Option<string> {
    if c.Some? && c.value.Document? then Some(c.value.text) else None
  }

  function ToBase64(b: Option<bytes>): Option<Base64> {
    if b.None? then None else if b.value == [] then Some(Empty) else Some(Encoded(b.value))
  }

  function SentPart(r: PartRow): ClientPart {
    ClientPart(r.partIndex, Some(r.text), Some(r.thought), ToBase64(r.thoughtSignature),
               r.functionCallId, r.functionCallName, Held(r.functionCallArgs),
               r.functionResponseId, r.functionResponseName, Held(r.functionResponseResponse),
               r.inlineDataMimeType, ToBase64(r.inlineDataBytes), r.inlineDataDisplayName,
               r.fileDataMimeType, r.fileDataUri, r.fileDataDisplayName,
               r.executableCodeLanguage, r.executableCodeCode, r.codeExecutionOutcome, r.codeExecutionOutput,
               r.videoStart, r.videoEnd, r.videoFps, r.mediaResolution,
               Held(r.toolCall), Held(r.toolResponse), Held(r.partMetadata))
  }

  function SentParts(rows: seq<PartRow>): (sent: seq<ClientPart>)
    ensures |sent| == |rows|
    ensures forall i :: 0 <= i < |rows| ==> sent[i] == SentPart(rows[i])
  {
    seq(|rows|, i requires 0 <= i < |rows| => SentPart(rows[i]))
  }

  function SentDeltas(rows: seq<StateDeltaRow>): (sent: seq<ClientDelta>)
    ensures |sent| == |rows|
    ensures forall i :: 0 <= i < |rows| ==> sent[i] == ClientDelta(rows[i].scope, rows[i].key, Held(rows[i].value))
  {
    seq(|rows|, i requires 0 <= i < |rows| => ClientDelta(rows[i].scope, rows[i].key, Held(rows[i].value)))
  }

  /** Everything but parts, deltas and artifacts, which arrive in an order of their own. */
  function SentEvent(r: EventRow, sequence: int, parts: seq<ClientPart>, actions: ClientActions): ClientEvent {
    ClientEvent(r.adkId, sequence, r.invocationId, r.author, Some(r.branch), r.timestamp, r.turnComplete, r.interrupted,
                Some(r.isolationScope), Some(r.errorCode), Some(r.errorMessage), r.contentRole, r.longRunningToolIds,
                Held(r.routes), Held(r.requestedInput), Held(r.nodeInfo), Held(r.groundingMetadata),
                Held(r.usageMetadata), Held(r.citationMetadata), Held(r.customMetadata),
                parts, [actions])
  }

  /** A timestamptz holds whole microseconds: a time, in nanoseconds, is stored as one nearest to it. */
  predicate ToMicrosecond(time: int, held: int) {
    held % 1000 == 0 && time - 500 <= held <= time + 500
  }

  /** e is what a read of these stored rows may return: the child rows of each table in any order. */
  ghost predicate Arrives(rows: EventRows, e: ClientEvent) {
    && |e.actions| == 1
    && ToMicrosecond(rows.event.timestamp, e.timestamp)
    && e == SentEvent(rows.event.(timestamp := e.timestamp), e.sequence, e.parts, e.actions[0])
    && multiset(e.parts) == multiset(SentParts(rows.parts))
    && e.actions[0].skipSummarization == Some(rows.actions.skipSummarization)
    && e.actions[0].transferToAgent == Some(rows.actions.transferToAgent)
    && e.actions[0].escalate == Some(rows.actions.escalate)
    && e.actions[0].requestedAuthConfigs == Held(rows.actions.requestedAuthConfigs)
    && multiset(e.actions[0].stateDeltas) == multiset(SentDeltas(rows.stateDeltas))
    && multiset(e.actions[0].artifactDeltas) == multiset(rows.artifactDeltas)
  }

  // ---- The loader ----

  /** A parsed column back as text; nil stays NULL. */
  function RawFromAny(v: Option<string>): Column {
    if v.None? then None else Some(Document(v.value))
  }

  function BytesFromBase64(s: Option<Base64>): Option<bytes> {
    if s.None? then None else if s.value.Empty? then Some([]) else Some(s.value.content)
  }

  function PartRowFromSession(p: ClientPart): PartRow {
    PartRow(p.partIndex, Or(p.text, ""), Or(p.thought, false), BytesFromBase64(p.thoughtSignature),
            p.functionCallId, p.functionCallName, RawFromAny(p.functionCallArgs),
            p.functionResponseId, p.functionResponseName, RawFromAny(p.functionResponseResponse),
            p.inlineDataMimeType, BytesFromBase64(p.inlineDataBytes), p.inlineDataDisplayName,
            p.fileDataMimeType, p.fileDataUri, p.fileDataDisplayName,
            p.executableCodeLanguage, p.executableCodeCode, p.codeExecutionOutcome, p.codeExecutionOutput,
            p.videoStart, p.videoEnd, p.videoFps, p.mediaResolution,
            RawFromAny(p.toolCall), RawFromAny(p.toolResponse), RawFromAny(p.partMetadata))
  }

  function PartRowsFrom(parts: seq<ClientPart>): (rows: seq<PartRow>)
    ensures |rows| == |parts|
    ensures forall i :: 0 <= i < |parts| ==> rows[i] == PartRowFromSession(parts[i])
  {
    seq(|parts|, i requires 0 <= i < |parts| => PartRowFromSession(parts[i]))
  }

  function DeltaRowsFrom(deltas: seq<ClientDelta>): (rows: seq<StateDeltaRow>)
    ensures |rows| == |deltas|
    ensures forall i :: 0 <= i < |deltas| ==>
        rows[i] == StateDeltaRow(deltas[i].scope, deltas[i].key, RawFromAny(deltas[i].value))
  {
    seq(|deltas|, i requires 0 <= i < |deltas| =>
      StateDeltaRow(deltas[i].scope, deltas[i].key, RawFromAny(deltas[i].value)))
  }

  function EventRowFrom(sessionId: string, e: ClientEvent): EventRow {
    EventRow(e.adkId, sessionId, e.invocationId, e.author, Or(e.branch, ""), e.timestamp, e.turnComplete, e.interrupted,
             Or(e.isolationScope, ""), Or(e.errorCode, ""), Or(e.errorMessage, ""), e.contentRole, e.longRunningToolIds,
             RawFromAny(e.routes), RawFromAny(e.requestedInput), RawFromAny(e.nodeInfo), RawFromAny(e.groundingMetadata),
             RawFromAny(e.usageMetadata), RawFromAny(e.citationMetadata), RawFromAny(e.customMetadata))
  }

  const ByIndex: ClientPart -> int := (p: ClientPart) => p.partIndex

  const BySequence: ClientEvent -> int := (e: ClientEvent) => e.sequence

  /** What eventRowsFromSession returns: parts sorted by index; no actions row reads as the zero actions. */
  function RowsFrom(sessionId: string, e: ClientEvent): EventRows {
    var parts := PartRowsFrom(StableSort(e.parts, ByIndex));
    if e.actions == [] then EventRows(EventRowFrom(sessionId, e), parts, ActionsRow(false, "", false, None), [], [])
    else
      var a := e.actions[0];
      EventRows(EventRowFrom(sessionId, e), parts,
                ActionsRow(Or(a.skipSummarization, false), Or(a.transferToAgent, ""), Or(a.escalate, false),
                           RawFromAny(a.requestedAuthConfigs)),
                DeltaRowsFrom(a.stateDeltas), a.artifactDeltas)
  }

  method EventRowsFromSession(sessionId: string, e: ClientEvent) returns (rows: EventRows)
    ensures rows == RowsFrom(sessionId, e)
  {
    hide PartRowFromSession, EventRowFrom, StableSort;
    var sorted := StableSort(e.parts, ByIndex);
    var parts: seq<PartRow> := [];
    for i := 0 to |sorted|
      invariant parts == PartRowsFrom(sorted)[..i]
    {
      parts := parts + [PartRowFromSession(sorted[i])];
    }
    assert parts == PartRowsFrom(sorted);
    rows := EventRows(EventRowFrom(sessionId, e), parts, ActionsRow(false, "", false, None), [], []);
    if |e.actions| > 0 {
      var a := e.actions[0];
      var deltas: seq<StateDeltaRow> := [];
      for i := 0 to |a.stateDeltas|
        invariant deltas == DeltaRowsFrom(a.stateDeltas)[..i]
      {
        deltas := deltas + [StateDeltaRow(a.stateDeltas[i].scope, a.stateDeltas[i].key, RawFromAny(a.stateDeltas[i].value))];
      }
      assert deltas == DeltaRowsFrom(a.stateDeltas);
      rows := rows.(actions := ActionsRow(Or(a.skipSummarization, false), Or(a.transferToAgent, ""),
                                          Or(a.escalate, false), RawFromAny(a.requestedAuthConfigs)),
                    stateDeltas := deltas,
                    artifactDeltas := a.artifactDeltas);
    }
  }

  /** An event stored without an actions row loads as one with no actions. */
  lemma MissingActions(sessionId: string, e: ClientEvent)
    requires e.actions == []
    ensures DecodedEvent(RowsFrom(sessionId, e)).Ok?
    ensures DecodedEvent(RowsFrom(sessionId, e)).value.actions == Actions(false, "", false, None, None, None)
  {
    hide StableSort, EventRowFrom;
  }

  // ---- The round trip ----

  /** What is left of a state delta: no temporary keys, and nil when nothing is left. */
  function Kept(delta: Option<map<string, Json>>): Option<map<string, Json>> {
    if delta.None? then None
    else
      var m := map k | k in delta.value && Persisted(k) :: delta.value[k];
      if m == map[] then None else Some(m)
  }

  function NonEmpty(delta: Option<map<string, int>>): Option<map<string, int>> {
    if delta.Some? && delta.value == map[] then None else delta
  }

  function NormalActions(a: Actions): Actions {
    a.(stateDelta := Kept(a.stateDelta), artifactDelta := NonEmpty(a.artifactDelta))
  }

  /** An event less what has no column. */
  function Normal(e: Event): Event {
    e.(actions := NormalActions(e.actions))
  }

  /** What a store that held it with this time gives back. */
  function Loaded(e: Event, held: int): Event {
    Normal(e).(timestamp := held)
  }

  /** Of a delta: the persisted keys with their values, and no map where there are none. */
  lemma KeptExactly(delta: map<string, Json>, k: string)
    ensures Kept(Some(delta)).Some? <==> exists x :: x in delta && !("temp:" <= x)
    ensures Kept(Some(delta)).Some? ==> (k in Kept(Some(delta)).value <==> k in delta && !("temp:" <= k))
    ensures Kept(Some(delta)).Some? && k in Kept(Some(delta)).value ==> Kept(Some(delta)).value[k] == delta[k]
  {
    hide Persisted;
    var m := map x | x in delta && Persisted(x) :: delta[x];
    PrefixDecides(k);
    if x :| x in delta && !("temp:" <= x) {
      PrefixDecides(x);
      assert x in m;
    }
    if m != map[] {
      var x :| x in m;
      PrefixDecides(x);
    }
  }

  /** What comes back of an event: of its delta the persisted keys with their values, no map where no row was,
      and everything else as it was. */
  lemma LoadedExactly(e: Event, held: int, k: string)
    ensures var a, b := e.actions, Loaded(e, held).actions;
      && (b.stateDelta.Some? <==> a.stateDelta.Some? && exists x :: x in a.stateDelta.value && !("temp:" <= x))
      && (b.stateDelta.Some? ==> (k in b.stateDelta.value <==> k in a.stateDelta.value && !("temp:" <= k)))
      && (b.stateDelta.Some? && k in b.stateDelta.value ==> b.stateDelta.value[k] == a.stateDelta.value[k])
      && b.artifactDelta == (if a.artifactDelta == Some(map[]) then None else a.artifactDelta)
    ensures Loaded(e, held) == e.(timestamp := held, actions :=
      e.actions.(stateDelta := Loaded(e, held).actions.stateDelta, artifactDelta := Loaded(e, held).actions.artifactDelta))
  {
    if e.actions.stateDelta.Some? {
      hide Kept;
      KeptExactly(e.actions.stateDelta.value, k);
    }
  }

  /** Nothing is lost of a time in whole microseconds. */
  lemma WholeMicroseconds(e: Event, held: int)
    requires ToMicrosecond(e.timestamp, held)
    ensures Loaded(e, held) == Normal(e) <==> e.timestamp % 1000 == 0
  {
  }

  /** No persisted key of the delta has the value null. */
  predicate NoNull(delta: map<string, Json>) {
    forall k :: k in delta && Persisted(k) ==> delta[k].Document?
  }

  predicate NoNullIn(a: Actions) {
    a.stateDelta.Some? ==> NoNull(a.stateDelta.value)
  }

  lemma ColumnRoundTrip(v: Option<string>, t: GoType)
    ensures UnmarshalNullable(RawFromAny(Held(MarshalNullable(v, t)))) == v
  {
  }

  lemma BytesRoundTrip(b: Option<bytes>)
    ensures BytesFromBase64(ToBase64(b)) == b
  {
  }

  /** What the transport does to a column that is not a state delta value cannot be seen after decoding. */
  lemma ColumnSame(c: Column)
    ensures UnmarshalNullable(RawFromAny(Held(c))) == UnmarshalNullable(c)
  {
  }

  /** A part decodes to the same value whether or not its row travelled. */
  lemma TravelledPart(r: PartRow)
    ensures DecodePart(PartRowFromSession(SentPart(r))) == DecodePart(r)
  {
    hide UnmarshalNullable, RawFromAny, Held, BytesFromBase64, ToBase64, ParseOffset;
    ColumnSame(r.functionCallArgs);
    ColumnSame(r.functionResponseResponse);
    ColumnSame(r.toolCall);
    ColumnSame(r.toolResponse);
    ColumnSame(r.partMetadata);
    BytesRoundTrip(r.thoughtSignature);
    BytesRoundTrip(r.inlineDataBytes);
  }

  /** Parts come back in order and unchanged, whatever order their rows arrived in. */
  lemma PartsRoundTrip(parts: seq<Option<Part>>, rows: seq<PartRow>, arrived: seq<ClientPart>)
    requires NoNilPart(parts) && RowsOfParts(parts, rows)
    requires multiset(arrived) == multiset(SentParts(rows))
    ensures DecodedParts(PartRowsFrom(StableSort(arrived, ByIndex))) == parts
  {
    hide DecodePart, StableSort;
    var sent := SentParts(rows);
    forall i | 0 <= i < |sent| ensures ByIndex(sent[i]) == i {
      assert rows[i] == RowOfPart(i, parts[i].value);
    }
    hide RowOfPart, SentPart, PartRowFromSession;
    SortRestores(sent, arrived, ByIndex);
    var decoded := DecodedParts(PartRowsFrom(sent));
    forall i | 0 <= i < |parts| ensures decoded[i] == parts[i] {
      TravelledPart(rows[i]);
      PartRoundTrip(i, parts[i].value);
    }
  }

  /** The row of one key as the decoder sees it: as encoded, or after a trip through the database. */
  function Travelled(delta: map<string, Json>, k: string, stored: bool): StateDeltaRow
    requires k in delta && Persisted(k)
  {
    StateDeltaRow(ScopeOf(k).value.scope, ScopeOf(k).value.key,
                  if stored then RawFromAny(Held(Some(delta[k]))) else Some(delta[k]))
  }

  ghost predicate FromKey(delta: map<string, Json>, row: StateDeltaRow, stored: bool) {
    exists k :: k in delta && Persisted(k) && row == Travelled(delta, k, stored)
  }

  /** The rows are those of the persisted keys, in some order. */
  ghost predicate RowsOf(delta: map<string, Json>, rows: seq<StateDeltaRow>, stored: bool) {
    && (forall i :: 0 <= i < |rows| ==> FromKey(delta, rows[i], stored))
    && forall k :: k in delta && Persisted(k) ==> Travelled(delta, k, stored) in rows
  }

  lemma {:induction false} CollectOkExactly(rows: seq<StateDeltaRow>)
    ensures CollectState(rows).Ok? <==> forall i :: 0 <= i < |rows| ==> rows[i].value.Some?
  {
    if rows != [] {
      var init := rows[..|rows| - 1];
      CollectOkExactly(init);
      if forall i :: 0 <= i < |init| ==> init[i].value.Some? {
        assert rows[|rows| - 1].value.Some? ==> forall i :: 0 <= i < |rows| ==> rows[i].value.Some?;
      }
    }
  }

  /** Every row's key is in the result, and every entry of the result is some row's. */
  lemma {:induction false} CollectEntries(rows: seq<StateDeltaRow>)
    requires CollectState(rows).Ok?
    ensures forall i :: 0 <= i < |rows| ==> Key(rows[i].scope, rows[i].key) in CollectState(rows).value
    ensures forall k :: k in CollectState(rows).value ==>
        exists i :: 0 <= i < |rows| && Key(rows[i].scope, rows[i].key) == k
                    && rows[i].value == Some(CollectState(rows).value[k])
  {
    hide Key;
    if rows != [] {
      var init := rows[..|rows| - 1];
      CollectEntries(init);
      var m := CollectState(init).value;
      var last := rows[|rows| - 1];
      forall k | k in CollectState(rows).value
        ensures exists i :: 0 <= i < |rows| && Key(rows[i].scope, rows[i].key) == k
                            && rows[i].value == Some(CollectState(rows).value[k])
      {
        if k == Key(last.scope, last.key) {
          assert rows[|rows| - 1] == last;
        } else {
          var i :| 0 <= i < |init| && Key(init[i].scope, init[i].key) == k && init[i].value == Some(m[k]);
          assert rows[i] == init[i];
        }
      }
    }
  }

  lemma TravelledKey(delta: map<string, Json>, k: string, stored: bool)
    requires k in delta && Persisted(k)
    ensures Key(Travelled(delta, k, stored).scope, Travelled(delta, k, stored).key) == k
    ensures Travelled(delta, k, stored).value == if !stored || delta[k].Document? then Some(delta[k]) else None
  {
    KeyRestores(k);
  }

  /** The state delta comes back without its temporary keys; loading it fails exactly when a persisted key is null. */
  lemma StateRoundTrip(delta: map<string, Json>, rows: seq<StateDeltaRow>, stored: bool)
    requires RowsOf(delta, rows, stored)
    ensures CollectState(rows).Ok? <==> !stored || NoNull(delta)
    ensures CollectState(rows).Ok? ==>
        CollectState(rows).value == map k | k in delta && Persisted(k) :: delta[k]
  {
    hide Key, ScopeOf, RawFromAny, Held, Persisted, Travelled;
    CollectOkExactly(rows);
    forall k | k in delta && Persisted(k) ensures CollectState(rows).Ok? ==> !stored || delta[k].Document? {
      TravelledKey(delta, k, stored);
      var i :| 0 <= i < |rows| && rows[i] == Travelled(delta, k, stored);
    }
    forall i | 0 <= i < |rows|
      ensures !stored || NoNull(delta) ==> rows[i].value.Some?
    {
      var k :| k in delta && Persisted(k) && rows[i] == Travelled(delta, k, stored);
      TravelledKey(delta, k, stored);
    }
    if CollectState(rows).Ok? {
      StateEntries(delta, rows, stored);
    }
  }

  lemma StateEntries(delta: map<string, Json>, rows: seq<StateDeltaRow>, stored: bool)
    requires RowsOf(delta, rows, stored) && CollectState(rows).Ok?
    ensures CollectState(rows).value == map k | k in delta && Persisted(k) :: delta[k]
  {
    hide *;
    forall k | k in delta && Persisted(k) ensures k in CollectState(rows).value {
      StateHas(delta, rows, k, stored);
    }
    forall k | k in CollectState(rows).value
      ensures k in delta && Persisted(k) && CollectState(rows).value[k] == delta[k]
    {
      StateHasOnly(delta, rows, k, stored);
    }
  }

  lemma StateHas(delta: map<string, Json>, rows: seq<StateDeltaRow>, k: string, stored: bool)
    requires RowsOf(delta, rows, stored) && CollectState(rows).Ok? && k in delta && Persisted(k)
    ensures k in CollectState(rows).value
  {
    hide Key, ScopeOf, RawFromAny, Held, Persisted, Travelled, CollectState;
    CollectEntries(rows);
    TravelledKey(delta, k, stored);
    var i :| 0 <= i < |rows| && rows[i] == Travelled(delta, k, stored);
  }

  lemma StateHasOnly(delta: map<string, Json>, rows: seq<StateDeltaRow>, k: string, stored: bool)
    requires RowsOf(delta, rows, stored) && CollectState(rows).Ok? && k in CollectState(rows).value
    ensures k in delta && Persisted(k) && CollectState(rows).value[k] == delta[k]
  {
    hide Key, ScopeOf, RawFromAny, Held, Persisted, Travelled, CollectState;
    CollectEntries(rows);
    var m := CollectState(rows).value;
    var i :| 0 <= i < |rows| && Key(rows[i].scope, rows[i].key) == k && rows[i].value == Some(m[k]);
    var x :| x in delta && Persisted(x) && rows[i] == Travelled(delta, x, stored);
    TravelledKey(delta, x, stored);
  }

  lemma {:induction false} DeltaRowsMembers(delta: map<string, Json>, keys: seq<string>)
    requires forall k :: k in keys ==> k in delta
    ensures forall row :: row in DeltaRows(delta, keys) <==>
        exists k :: k in keys && Persisted(k)
                    && row == StateDeltaRow(ScopeOf(k).value.scope, ScopeOf(k).value.key, Some(delta[k]))
  {
    hide ScopeOf;
    if keys != [] {
      var init := keys[..|keys| - 1];
      DeltaRowsMembers(delta, init);
      assert keys == init + [keys[|keys| - 1]];
    }
  }

  /** What arrives and is converted are the rows of the persisted keys. */
  lemma ArrivedRows(delta: map<string, Json>, stored: seq<StateDeltaRow>, arrived: seq<ClientDelta>)
    requires FlattensState(Some(delta), stored) && multiset(arrived) == multiset(SentDeltas(stored))
    ensures RowsOf(delta, DeltaRowsFrom(arrived), true)
  {
    hide ScopeOf, RawFromAny, Held, DeltaRows;
    var keys :| Lists(keys, delta.Keys) && stored == DeltaRows(delta, keys);
    DeltaRowsMembers(delta, keys);
    var rows := DeltaRowsFrom(arrived);
    var sent := SentDeltas(stored);
    forall i | 0 <= i < |rows| ensures FromKey(delta, rows[i], true) {
      assert arrived[i] in multiset(sent);
      var j :| 0 <= j < |sent| && sent[j] == arrived[i];
      assert stored[j] in DeltaRows(delta, keys);
    }
    forall k | k in delta && Persisted(k) ensures Travelled(delta, k, true) in rows {
      assert k in keys;
      var row := StateDeltaRow(ScopeOf(k).value.scope, ScopeOf(k).value.key, Some(delta[k]));
      assert row in stored;
      var j :| 0 <= j < |stored| && stored[j] == row;
      assert sent[j] in multiset(arrived);
      var i :| 0 <= i < |arrived| && arrived[i] == sent[j];
      assert rows[i] == Travelled(delta, k, true);
    }
  }

  /** The rows as encoded are those of the persisted keys too. */
  lemma EncodedRows(delta: map<string, Json>, rows: seq<StateDeltaRow>, stored: bool)
    requires FlattensState(Some(delta), rows) && !stored
    ensures RowsOf(delta, rows, stored)
  {
    hide ScopeOf, RawFromAny, Held, DeltaRows, Travelled;
    var keys :| Lists(keys, delta.Keys) && rows == DeltaRows(delta, keys);
    DeltaRowsMembers(delta, keys);
    forall i | 0 <= i < |rows| ensures FromKey(delta, rows[i], stored) {
      assert rows[i] in DeltaRows(delta, keys);
      var k :| k in keys && Persisted(k)
               && rows[i] == StateDeltaRow(ScopeOf(k).value.scope, ScopeOf(k).value.key, Some(delta[k]));
      Untravelled(delta, k, stored);
    }
    forall k | k in delta && Persisted(k) ensures Travelled(delta, k, stored) in rows {
      assert k in keys;
      Untravelled(delta, k, stored);
      var row := StateDeltaRow(ScopeOf(k).value.scope, ScopeOf(k).value.key, Some(delta[k]));
      assert row in DeltaRows(delta, keys);
    }
  }

  lemma Untravelled(delta: map<string, Json>, k: string, stored: bool)
    requires k in delta && Persisted(k) && !stored
    ensures Travelled(delta, k, stored) == StateDeltaRow(ScopeOf(k).value.scope, ScopeOf(k).value.key, Some(delta[k]))
  {
  }

  lemma {:induction false} ArtifactEntries(rows: seq<ArtifactDeltaRow>)
    ensures forall i :: 0 <= i < |rows| ==> rows[i].filename in CollectArtifacts(rows)
    ensures forall n :: n in CollectArtifacts(rows) ==> ArtifactDeltaRow(n, CollectArtifacts(rows)[n]) in rows
  {
    if rows != [] {
      var init := rows[..|rows| - 1];
      ArtifactEntries(init);
      assert rows == init + [rows[|rows| - 1]];
    }
  }

  lemma ArtifactsRoundTrip(delta: map<string, int>, stored: seq<ArtifactDeltaRow>, arrived: seq<ArtifactDeltaRow>)
    requires FlattensArtifacts(Some(delta), stored) && multiset(arrived) == multiset(stored)
    ensures CollectArtifacts(arrived) == delta
  {
    hide CollectArtifacts;
    ArtifactEntries(arrived);
    var m := CollectArtifacts(arrived);
    forall n | n in m ensures n in delta && m[n] == delta[n] {
      assert ArtifactDeltaRow(n, m[n]) in multiset(arrived);
      ArtifactStored(delta, stored, ArtifactDeltaRow(n, m[n]));
    }
    forall n | n in delta ensures n in m {
      ArtifactStored(delta, stored, ArtifactDeltaRow(n, delta[n]));
      assert ArtifactDeltaRow(n, delta[n]) in multiset(arrived);
      var j :| 0 <= j < |arrived| && arrived[j] == ArtifactDeltaRow(n, delta[n]);
    }
  }

  lemma ArtifactStored(delta: map<string, int>, stored: seq<ArtifactDeltaRow>, row: ArtifactDeltaRow)
    requires FlattensArtifacts(Some(delta), stored)
    ensures row in multiset(stored) <==> row.filename in delta && row.version == delta[row.filename]
  {
    var names :| Lists(names, delta.Keys) && stored == ArtifactRows(delta, names);
    if row in multiset(stored) {
      var i :| 0 <= i < |stored| && stored[i] == row;
      assert names[i] in names;
    }
    if row.filename in delta && row.version == delta[row.filename] {
      assert row.filename in names;
      var i :| 0 <= i < |names| && names[i] == row.filename;
      assert stored[i] == row;
    }
  }

  lemma EmptyMultiset<T>(a: seq<T>)
    requires multiset(a) == multiset{}
    ensures a == []
  {
    assert |multiset(a)| == |a|;
  }

  /** The actions: either delta may be nil, and one with nothing left in it comes back nil. */
  lemma ActionsRoundTrip(a: Actions, state: seq<StateDeltaRow>, artifacts: seq<ArtifactDeltaRow>,
      arrivedState: seq<ClientDelta>, arrivedArtifacts: seq<ArtifactDeltaRow>, row: ActionsRow)
    requires FlattensState(a.stateDelta, state) && FlattensArtifacts(a.artifactDelta, artifacts)
    requires multiset(arrivedState) == multiset(SentDeltas(state))
    requires multiset(arrivedArtifacts) == multiset(artifacts)
    requires row == RowOfActions(a).(requestedAuthConfigs := RawFromAny(Held(RowOfActions(a).requestedAuthConfigs)))
    ensures DecodedAll(row, DeltaRowsFrom(arrivedState), arrivedArtifacts).Ok? <==> NoNullIn(a)
    ensures NoNullIn(a) ==> DecodedAll(row, DeltaRowsFrom(arrivedState), arrivedArtifacts) == Ok(NormalActions(a))
  {
    hide Persisted, FlattensState, FlattensArtifacts, Held, RawFromAny, UnmarshalNullable, MarshalNullable, NoNull;
    ColumnRoundTrip(a.confirmations, ConfirmationMap);
    NothingFlattened(a, state, artifacts);
    if a.stateDelta.Some? {
      ArrivedRows(a.stateDelta.value, state, arrivedState);
      StateRoundTrip(a.stateDelta.value, DeltaRowsFrom(arrivedState), true);
    } else {
      EmptyMultiset(arrivedState);
    }
    if a.artifactDelta.Some? {
      ArtifactsRoundTrip(a.artifactDelta.value, artifacts, arrivedArtifacts);
    } else {
      EmptyMultiset(arrivedArtifacts);
    }
  }

  lemma DirectColumn(v: Option<string>, t: GoType)
    ensures UnmarshalNullable(MarshalNullable(v, t)) == v
  {
  }

  lemma CollectNothing()
    ensures CollectState([]) == Ok(map[]) && CollectArtifacts([]) == map[]
  {
  }

  /** Without the trip through the database, a null value is no obstacle. */
  lemma ActionsDirect(a: Actions, state: seq<StateDeltaRow>, artifacts: seq<ArtifactDeltaRow>)
    requires FlattensState(a.stateDelta, state) && FlattensArtifacts(a.artifactDelta, artifacts)
    ensures DecodedAll(RowOfActions(a), state, artifacts) == Ok(NormalActions(a))
  {
    hide Persisted, FlattensState, FlattensArtifacts, Held, RawFromAny, NoNull, MarshalNullable, UnmarshalNullable, CollectState;
    DirectColumn(a.confirmations, ConfirmationMap);
    CollectNothing();
    NothingFlattened(a, state, artifacts);
    if a.stateDelta.Some? {
      EncodedRows(a.stateDelta.value, state, false);
      StateRoundTrip(a.stateDelta.value, state, false);
    }
    if a.artifactDelta.Some? {
      ArtifactsRoundTrip(a.artifactDelta.value, artifacts, artifacts);
    }
  }

  lemma NothingFlattened(a: Actions, state: seq<StateDeltaRow>, artifacts: seq<ArtifactDeltaRow>)
    requires FlattensState(a.stateDelta, state) && FlattensArtifacts(a.artifactDelta, artifacts)
    ensures a.stateDelta.None? ==> state == [] && SentDeltas(state) == []
    ensures a.artifactDelta.None? ==> artifacts == []
  {
  }

  lemma ContentRoundTrip(content: Option<Content>, rows: seq<PartRow>, arrived: seq<ClientPart>)
    requires content.Some? ==> NoNilPart(content.value.parts) && RowsOfParts(content.value.parts, rows)
    requires multiset(arrived) == multiset(SentParts(rows))
    ensures var role := if content.Some? then Some(content.value.role) else None;
            DecodedContent(role, PartRowsFrom(StableSort(arrived, ByIndex))) == content
  {
    hide StableSort, RowOfPart, SentPart, PartRowFromSession, DecodePart;
    if content.Some? {
      PartsRoundTrip(content.value.parts, rows, arrived);
    }
  }

  /** The fields of the event row itself. */
  lemma FieldsRoundTrip(sessionId: string, e: Event, row: EventRow, sequence: int, parts: seq<ClientPart>,
      actions: ClientActions, content: Option<Content>, decoded: Actions)
    requires row == RowOfEvent(sessionId, e)
    ensures EventOf(EventRowFrom(sessionId, SentEvent(row, sequence, parts, actions)), content, decoded)
            == e.(content := content, actions := decoded)
  {
    hide MarshalNullable, UnmarshalNullable, RawFromAny, Held;
    ColumnRoundTrip(e.routes, StringSlice);
    ColumnRoundTrip(e.requestedInput, RequestInputPointer);
    ColumnRoundTrip(e.nodeInfo, NodeInfoPointer);
    ColumnRoundTrip(e.groundingMetadata, GroundingPointer);
    ColumnRoundTrip(e.usageMetadata, UsagePointer);
    ColumnRoundTrip(e.citationMetadata, CitationPointer);
    ColumnRoundTrip(e.customMetadata, AnyMap);
  }

  /** The loader, given the rows of every table in any order and whether or not a store would hold them:
      it succeeds exactly when no persisted state key is null, and then gives the event without its
      temporary keys, at the time held. */
  lemma LoadsExactly(sessionId: string, e: Event, rows: EventRows, arrived: ClientEvent)
    requires Encodable(e) && Encodes(sessionId, e, rows) && Arrives(rows, arrived)
    ensures DecodedEvent(RowsFrom(sessionId, arrived)).Ok? <==> NoNullIn(e.actions)
    ensures NoNullIn(e.actions) ==> DecodedEvent(RowsFrom(sessionId, arrived)) == Ok(Loaded(e, arrived.timestamp))
  {
    hide EventRowFrom, EventOf, StableSort, DecodedAll, NoNullIn, NormalActions, DecodedContent, PartRowsFrom,
         FlattensState, FlattensArtifacts, RowsOfParts, Held, RawFromAny, MarshalNullable, DeltaRowsFrom;
    var a := arrived.actions[0];
    var row := RowOfActions(e.actions);
    ActionsRoundTrip(e.actions, rows.stateDeltas, rows.artifactDeltas, a.stateDeltas, a.artifactDeltas,
                     row.(requestedAuthConfigs := RawFromAny(Held(row.requestedAuthConfigs))));
    ContentRoundTrip(e.content, rows.parts, arrived.parts);
    var decoded := DecodedAll(RowsFrom(sessionId, arrived).actions, RowsFrom(sessionId, arrived).stateDeltas, a.artifactDeltas);
    if decoded.Ok? {
      var held := e.(timestamp := arrived.timestamp);
      FieldsRoundTrip(sessionId, held, RowOfEvent(sessionId, held), arrived.sequence, arrived.parts, a, e.content, decoded.value);
    }
    RoleArrives(sessionId, e, arrived, rows);
  }

  lemma RoleArrives(sessionId: string, e: Event, arrived: ClientEvent, rows: EventRows)
    requires rows.event == RowOfEvent(sessionId, e) && Arrives(rows, arrived)
    ensures EventRowFrom(sessionId, arrived).contentRole == if e.content.Some? then Some(e.content.value.role) else None
  {
  }

  lemma DirectContent(content: Option<Content>, rows: seq<PartRow>)
    requires content.Some? ==> NoNilPart(content.value.parts) && RowsOfParts(content.value.parts, rows)
    ensures DecodedContent(if content.Some? then Some(content.value.role) else None, rows) == content
  {
    hide RowOfPart, DecodePart;
    if content.Some? {
      var parts := content.value.parts;
      forall i | 0 <= i < |parts| ensures DecodedParts(rows)[i] == parts[i] {
        PartRoundTrip(i, parts[i].value);
      }
      assert DecodedParts(rows) == parts;
    }
  }

  lemma DirectFields(sessionId: string, e: Event, content: Option<Content>, decoded: Actions)
    ensures EventOf(RowOfEvent(sessionId, e), content, decoded) == e.(content := content, actions := decoded)
  {
    hide MarshalNullable, UnmarshalNullable;
    DirectColumn(e.routes, StringSlice);
    DirectColumn(e.requestedInput, RequestInputPointer);
    DirectColumn(e.nodeInfo, NodeInfoPointer);
    DirectColumn(e.groundingMetadata, GroundingPointer);
    DirectColumn(e.usageMetadata, UsagePointer);
    DirectColumn(e.citationMetadata, CitationPointer);
    DirectColumn(e.customMetadata, AnyMap);
  }

  /** Encoding and decoding with no database in between: every event comes back, null values included. */
  lemma DirectRoundTrip(sessionId: string, e: Event, rows: EventRows)
    requires Encodable(e) && Encodes(sessionId, e, rows)
    ensures DecodedEvent(rows) == Ok(Normal(e))
  {
    hide EventOf, DecodedAll, NormalActions, DecodedContent, FlattensState, FlattensArtifacts, RowsOfParts,
         MarshalNullable, RowOfActions;
    ActionsDirect(e.actions, rows.stateDeltas, rows.artifactDeltas);
    DirectContent(e.content, rows.parts);
    DirectFields(sessionId, e, e.content, NormalActions(e.actions));
  }

  // ---- A whole session ----

  datatype ClientState = ClientState(scope: string, key: string, value: Json)

  datatype ClientSession = ClientSession(id: string, state: seq<ClientState>, events: seq<ClientEvent>)

  function StateOf(rows: seq<ClientState>): map<string, Json> {
    if rows == [] then map[]
    else
      var row := rows[|rows| - 1];
      StateOf(rows[..|rows| - 1])[Key(row.scope, row.key) := row.value]
  }

  /** The events of a session, decoded in the order given; the first that does not decode is the result. */
  function DecodedEvents(sessionId: string, es: seq<ClientEvent>): Result<seq<Event>, Error> {
    if es == [] then Ok([])
    else
      match DecodedEvents(sessionId, es[..|es| - 1])
      case Err(x) => Err(x)
      case Ok(before) =>
        match DecodedEvent(RowsFrom(sessionId, es[|es| - 1]))
        case Err(x) => Err(x)
        case Ok(e) => Ok(before + [e])
  }

  lemma {:induction false} DecodingStops(sessionId: string, es: seq<ClientEvent>, i: nat)
    requires i <= |es| && DecodedEvents(sessionId, es[..i]).Err?
    ensures DecodedEvents(sessionId, es) == DecodedEvents(sessionId, es[..i])
  {
    hide DecodedEvent, RowsFrom;
    if i == |es| {
      assert es[..i] == es;
    } else {
      assert es[..|es| - 1][..i] == es[..i];
      DecodingStops(sessionId, es[..|es| - 1], i);
    }
  }

  /** sessionFromRow: the state with its prefixes restored, and the events in order of their sequence. */
  method SessionFromRow(row: ClientSession) returns (r: Result<(map<string, Json>, seq<Event>), Error>)
    ensures var events := DecodedEvents(row.id, StableSort(row.events, BySequence));
            r == if events.Ok? then Ok((StateOf(row.state), events.value)) else Err(events.error)
  {
    hide DecodedEvent, RowsFrom, StableSort, Key;
    var state: map<string, Json> := map[];
    for i := 0 to |row.state|
      invariant state == StateOf(row.state[..i])
    {
      assert row.state[..i + 1][..i] == row.state[..i];
      state := state[Key(row.state[i].scope, row.state[i].key) := row.state[i].value];
    }
    assert row.state[..|row.state|] == row.state;
    var sorted := StableSort(row.events, BySequence);
    var events: seq<Event> := [];
    for i := 0 to |sorted|
      invariant DecodedEvents(row.id, sorted[..i]) == Ok(events)
    {
      assert sorted[..i + 1][..i] == sorted[..i];
      var rows := EventRowsFromSession(row.id, sorted[i]);
      var e := DecodeEvent(rows);
      if e.Err? {
        DecodingStops(row.id, sorted, i + 1);
        return Err(e.error);
      }
      events := events + [e.value];
    }
    assert sorted[..|sorted|] == sorted;
    return Ok((state, events));
  }

  /** State rows seen as delta rows. */
  function AsDeltas(rows: seq<ClientState>): (out: seq<StateDeltaRow>)
    ensures |out| == |rows|
    ensures forall i :: 0 <= i < |rows| ==> out[i] == StateDeltaRow(rows[i].scope, rows[i].key, Some(rows[i].value))
  {
    seq(|rows|, i requires 0 <= i < |rows| => StateDeltaRow(rows[i].scope, rows[i].key, Some(rows[i].value)))
  }

  lemma {:induction false} StateOfCollects(rows: seq<ClientState>)
    ensures CollectState(AsDeltas(rows)) == Ok(StateOf(rows))
  {
    if rows != [] {
      var n := |rows| - 1;
      StateOfCollects(rows[..n]);
      assert AsDeltas(rows)[..n] == AsDeltas(rows[..n]);
    }
  }

  /** State rows that are those of the persisted keys of a state, in any order, load as that state. */
  lemma StateRowsLoad(state: map<string, Json>, arrived: seq<ClientState>)
    requires RowsOf(state, AsDeltas(arrived), false)
    ensures StateOf(arrived) == map k | k in state && Persisted(k) :: state[k]
  {
    hide FlattensState, RowsOf, Persisted, CollectState, StateOf;
    StateRoundTrip(state, AsDeltas(arrived), false);
    StateOfCollects(arrived);
  }

  /** es are the events of a session in append order, and these are their stored rows. */
  ghost predicate Appended(sessionId: string, es: seq<Event>, rows: seq<EventRows>, arrived: seq<ClientEvent>) {
    && |es| == |rows| == |arrived|
    && StrictlySorted(arrived, BySequence)
    && forall i :: 0 <= i < |es| ==>
        Encodable(es[i]) && Encodes(sessionId, es[i], rows[i]) && Arrives(rows[i], arrived[i])
  }

  lemma {:induction false} HistoryDecodes(sessionId: string, es: seq<Event>, rows: seq<EventRows>, arrived: seq<ClientEvent>)
    requires Appended(sessionId, es, rows, arrived)
    requires forall i :: 0 <= i < |es| ==> NoNullIn(es[i].actions)
    ensures DecodedEvents(sessionId, arrived).Ok? && |DecodedEvents(sessionId, arrived).value| == |es|
    ensures forall i :: 0 <= i < |es| ==> DecodedEvents(sessionId, arrived).value[i] == Loaded(es[i], arrived[i].timestamp)
  {
    hide DecodedEvent, RowsFrom, Encodes, Arrives, Encodable, NoNullIn, Loaded, ByIndex;
    if es != [] {
      var n := |es| - 1;
      HistoryDecodes(sessionId, es[..n], rows[..n], arrived[..n]);
      LoadsExactly(sessionId, es[n], rows[n], arrived[n]);
    }
  }

  /** A whole history loads in append order, whatever order its events and their rows arrive in. */
  lemma HistoryLoads(sessionId: string, es: seq<Event>, rows: seq<EventRows>, stored: seq<ClientEvent>, arrived: seq<ClientEvent>)
    requires Appended(sessionId, es, rows, stored) && multiset(arrived) == multiset(stored)
    requires forall i :: 0 <= i < |es| ==> NoNullIn(es[i].actions)
    ensures var r := DecodedEvents(sessionId, StableSort(arrived, BySequence));
            r.Ok? && |r.value| == |es| && forall i :: 0 <= i < |es| ==> r.value[i] == Loaded(es[i], stored[i].timestamp)
  {
    hide DecodedEvents, StableSort, Encodes, Arrives, Encodable, NoNullIn, Loaded;
    SortRestores(stored, arrived, BySequence);
    HistoryDecodes(sessionId, es, rows, stored);
  }
}
