/**
 * What the columns of the session tables take: json_populate_record converts the value of every field to
 * the type of its column, and the whole statement fails with the first it cannot convert.
 */
module SessionColumns {

  import opened Common
  import opened StateKeys
  import opened SessionRows
  import opened SessionLoad

  const MAX_INTEGER := 0x7fff_ffff

  /** integer */
  predicate Int32(n: int) {
    -0x8000_0000 <= n <= MAX_INTEGER
  }

  /** text: anything but the character zero. */
  predicate Text(s: string) {
    '\0' !in s
  }

  predicate MaybeText(o: Option<string>) {
    o.Some? ==> Text(o.value)
  }

  /** The escape of that character stands in a JSON text, where a backslash always starts an escape. */
  predicate EscapesZero(json: string) {
    if |json| < 2 then false
    else if json[0] != '\\' then EscapesZero(json[1..])
    else "\\u0000" <= json || EscapesZero(json[2..])
  }

  /** What counts as that escape: u0000 behind a backslash that is not itself escaped. */
  lemma {:induction false} EscapesExactly(plain: string, c: char, rest: string)
    requires '\\' !in plain
    ensures !EscapesZero(plain)
    ensures EscapesZero(plain + "\\u0000" + rest)
    ensures !("\\u0000" <= ['\\', c] + rest) ==> (EscapesZero(plain + ['\\', c] + rest) <==> EscapesZero(rest))
  {
    var escape, other := plain + "\\u0000" + rest, plain + ['\\', c] + rest;
    if plain == [] {
      assert escape == "\\u0000" + rest && escape[0] == '\\';
      assert other == ['\\', c] + rest && other[2..] == rest;
    } else {
      EscapesExactly(plain[1..], c, rest);
      assert escape[1..] == plain[1..] + "\\u0000" + rest;
      assert other[1..] == plain[1..] + ['\\', c] + rest;
    }
  }

  /** The versions an artifact row can hold. */
  lemma VersionTaken(n: int)
    ensures ArtifactRowsTaken([ArtifactDeltaRow("a", n)]) <==> -2147483648 <= n <= 2147483647
  {
    var rows := [ArtifactDeltaRow("a", n)];
    assert rows[0].version == n && Text("a");
  }

  /** json, inside a document whose strings are all unescaped on the way. */
  predicate JsonColumn(c: Column) {
    c.Some? && c.value.Document? ==> !EscapesZero(c.value.text)
  }

  predicate MaybeJson(o: Option<string>) {
    o.Some? ==> !EscapesZero(o.value)
  }

  // ---- What a row needs ----

  predicate EventRowTaken(r: EventRow) {
    && Text(r.adkId) && Text(r.invocationId) && Text(r.author) && Text(r.branch) && Text(r.isolationScope)
    && Text(r.errorCode) && Text(r.errorMessage) && MaybeText(r.contentRole)
    && (r.longRunningToolIds.Some? ==> forall i :: 0 <= i < |r.longRunningToolIds.value| ==> Text(r.longRunningToolIds.value[i]))
    && (forall i :: 0 <= i < |EventColumns(r)| ==> JsonColumn(EventColumns(r)[i]))
  }

  predicate PartRowTaken(r: PartRow) {
    && Int32(r.partIndex) && Text(r.text)
    && MaybeText(r.functionCallId) && MaybeText(r.functionCallName)
    && MaybeText(r.functionResponseId) && MaybeText(r.functionResponseName)
    && MaybeText(r.inlineDataMimeType) && MaybeText(r.inlineDataDisplayName)
    && MaybeText(r.fileDataMimeType) && MaybeText(r.fileDataUri) && MaybeText(r.fileDataDisplayName)
    && MaybeText(r.executableCodeLanguage) && MaybeText(r.executableCodeCode)
    && MaybeText(r.codeExecutionOutcome) && MaybeText(r.codeExecutionOutput)
    && (forall i :: 0 <= i < |PartColumns(r)| ==> JsonColumn(PartColumns(r)[i]))
  }

  predicate PartRowsTaken(rows: seq<PartRow>) {
    forall i :: 0 <= i < |rows| ==> PartRowTaken(rows[i])
  }

  predicate ActionsRowTaken(r: ActionsRow) {
    Text(r.transferToAgent) && JsonColumn(r.requestedAuthConfigs)
  }

  predicate DeltaRowTaken(r: StateDeltaRow) {
    Text(r.scope) && Text(r.key) && JsonColumn(r.value)
  }

  predicate DeltaRowsTaken(rows: seq<StateDeltaRow>) {
    forall i :: 0 <= i < |rows| ==> DeltaRowTaken(rows[i])
  }

  predicate ArtifactRowsTaken(rows: seq<ArtifactDeltaRow>) {
    forall i :: 0 <= i < |rows| ==> Text(rows[i].filename) && Int32(rows[i].version)
  }

  // ---- What an event needs, before it is encoded ----

  predicate HeaderFits(e: Event) {
    && Text(e.id) && Text(e.invocationId) && Text(e.author) && Text(e.branch) && Text(e.isolationScope)
    && Text(e.errorCode) && Text(e.errorMessage) && (e.content.Some? ==> Text(e.content.value.role))
    && (e.longRunningToolIds.Some? ==> forall i :: 0 <= i < |e.longRunningToolIds.value| ==> Text(e.longRunningToolIds.value[i]))
    && MaybeJson(e.routes) && MaybeJson(e.requestedInput) && MaybeJson(e.nodeInfo) && MaybeJson(e.groundingMetadata)
    && MaybeJson(e.usageMetadata) && MaybeJson(e.citationMetadata) && MaybeJson(e.customMetadata)
  }

  predicate CallsFit(p: Part) {
    && (p.functionCall.Some? ==>
         var f := p.functionCall.value; Text(f.id) && Text(f.name) && MaybeJson(f.args))
    && (p.functionResponse.Some? ==>
         var f := p.functionResponse.value; Text(f.id) && Text(f.name) && MaybeJson(f.response))
    && MaybeJson(p.toolCall) && MaybeJson(p.toolResponse) && MaybeJson(p.partMetadata)
  }

  predicate DataFits(p: Part) {
    && (p.inlineData.Some? ==> Text(p.inlineData.value.mimeType) && Text(p.inlineData.value.displayName))
    && (p.fileData.Some? ==>
         var f := p.fileData.value; Text(f.mimeType) && Text(f.uri) && Text(f.displayName))
    && (p.executableCode.Some? ==> Text(p.executableCode.value.language) && Text(p.executableCode.value.code))
    && (p.codeResult.Some? ==> Text(p.codeResult.value.outcome) && Text(p.codeResult.value.output))
  }

  predicate PartFits(p: Part) {
    Text(p.text) && CallsFit(p) && DataFits(p)
  }

  /** As many parts as an index has values. */
  predicate PartsFit(parts: seq<Option<Part>>)
    requires NoNilPart(parts)
  {
    |parts| <= MAX_INTEGER + 1 && forall i :: 0 <= i < |parts| ==> PartFits(parts[i].value)
  }

  /** A value of a persisted key: null is taken by the type. */
  predicate StateFits(delta: map<string, Json>) {
    forall k :: k in delta && Persisted(k) ==> Text(k) && JsonColumn(Some(delta[k]))
  }

  predicate ArtifactsFit(delta: map<string, int>) {
    forall n :: n in delta ==> Text(n) && Int32(delta[n])
  }

  predicate BodyFits(e: Event)
    requires Encodable(e)
  {
    && (e.content.Some? ==> PartsFit(e.content.value.parts))
    && Text(e.actions.transferToAgent) && MaybeJson(e.actions.confirmations)
    && (e.actions.stateDelta.Some? ==> StateFits(e.actions.stateDelta.value))
    && (e.actions.artifactDelta.Some? ==> ArtifactsFit(e.actions.artifactDelta.value))
  }

  // ---- They are the same ----

  lemma JsonFits(v: Option<string>, t: GoType)
    ensures JsonColumn(MarshalNullable(v, t)) <==> MaybeJson(v)
  {
  }

  lemma HeaderTaken(sessionId: string, e: Event)
    ensures EventRowTaken(RowOfEvent(sessionId, e)) <==> HeaderFits(e)
  {
    hide MarshalNullable, JsonColumn, MaybeJson, Text;
    JsonFits(e.routes, StringSlice);
    JsonFits(e.requestedInput, RequestInputPointer);
    JsonFits(e.nodeInfo, NodeInfoPointer);
    JsonFits(e.groundingMetadata, GroundingPointer);
    JsonFits(e.usageMetadata, UsagePointer);
    JsonFits(e.citationMetadata, CitationPointer);
    JsonFits(e.customMetadata, AnyMap);
    var r := RowOfEvent(sessionId, e);
    var cs := EventColumns(r);
    assert (forall i :: 0 <= i < |cs| ==> JsonColumn(cs[i])) <==>
      JsonColumn(cs[0]) && JsonColumn(cs[1]) && JsonColumn(cs[2]) && JsonColumn(cs[3]) && JsonColumn(cs[4]) && JsonColumn(cs[5]) && JsonColumn(cs[6]);
  }

  lemma PartTaken(index: int, p: Part)
    ensures PartRowTaken(RowOfPart(index, p)) <==> Int32(index) && PartFits(p)
  {
    hide MarshalNullable, JsonColumn, MaybeJson, Text, Int32;
    if p.functionCall.Some? {
      JsonFits(p.functionCall.value.args, AnyMap);
    }
    if p.functionResponse.Some? {
      JsonFits(p.functionResponse.value.response, AnyMap);
    }
    JsonFits(p.toolCall, ToolCallPointer);
    JsonFits(p.toolResponse, ToolResponsePointer);
    JsonFits(p.partMetadata, AnyMap);
    NullFits();
    var cs := PartColumns(RowOfPart(index, p));
    assert (forall i :: 0 <= i < |cs| ==> JsonColumn(cs[i])) <==>
      JsonColumn(cs[0]) && JsonColumn(cs[1]) && JsonColumn(cs[2]) && JsonColumn(cs[3]) && JsonColumn(cs[4]);
  }

  lemma NullFits()
    ensures JsonColumn(None)
  {
  }

  lemma PartsTaken(parts: seq<Option<Part>>, rows: seq<PartRow>)
    requires NoNilPart(parts) && RowsOfParts(parts, rows)
    ensures PartRowsTaken(rows) <==> PartsFit(parts)
  {
    hide PartRowTaken, PartFits, RowOfPart;
    forall i | 0 <= i < |parts| ensures PartRowTaken(rows[i]) <==> i <= MAX_INTEGER && PartFits(parts[i].value) {
      PartTaken(i, parts[i].value);
    }
    if PartRowsTaken(rows) && |parts| > 0 {
      assert PartRowTaken(rows[|rows| - 1]);
    }
  }

  /** A key holds the character zero where its columns do. */
  lemma KeyTaken(k: string)
    requires Persisted(k)
    ensures Text(ScopeOf(k).value.scope)
    ensures Text(ScopeOf(k).value.key) <==> Text(k)
  {
    var st := ScopeOf(k).value;
    KeyRestores(k);
    assert Text(SCOPE_APP) && Text(SCOPE_USER) && Text(SCOPE_SESSION) && Text(KEY_PREFIX_APP) && Text(KEY_PREFIX_USER);
  }

  lemma StateTaken(delta: map<string, Json>, rows: seq<StateDeltaRow>)
    requires FlattensState(Some(delta), rows)
    ensures DeltaRowsTaken(rows) <==> StateFits(delta)
  {
    hide ScopeOf, DeltaRows, JsonColumn, Text;
    var keys :| Lists(keys, delta.Keys) && rows == DeltaRows(delta, keys);
    DeltaRowsMembers(delta, keys);
    forall k | k in delta && Persisted(k)
      ensures DeltaRowTaken(StateDeltaRow(ScopeOf(k).value.scope, ScopeOf(k).value.key, Some(delta[k])))
              <==> Text(k) && JsonColumn(Some(delta[k]))
    {
      KeyTaken(k);
    }
    hide DeltaRowTaken;
    if DeltaRowsTaken(rows) {
      forall k | k in delta && Persisted(k) ensures Text(k) && JsonColumn(Some(delta[k])) {
        var row := StateDeltaRow(ScopeOf(k).value.scope, ScopeOf(k).value.key, Some(delta[k]));
        assert k in keys && row in rows;
      }
    }
    if StateFits(delta) {
      forall i | 0 <= i < |rows| ensures DeltaRowTaken(rows[i]) {
        assert rows[i] in rows;
      }
    }
  }

  lemma ArtifactsTaken(delta: map<string, int>, rows: seq<ArtifactDeltaRow>)
    requires FlattensArtifacts(Some(delta), rows)
    ensures ArtifactRowsTaken(rows) <==> ArtifactsFit(delta)
  {
    hide Text, Int32;
    var names :| Lists(names, delta.Keys) && rows == ArtifactRows(delta, names);
    if ArtifactRowsTaken(rows) {
      forall n | n in delta ensures Text(n) && Int32(delta[n]) {
        assert n in names;
        var i :| 0 <= i < |names| && names[i] == n;
        assert rows[i] == ArtifactDeltaRow(n, delta[n]);
      }
    }
    if ArtifactsFit(delta) {
      forall i | 0 <= i < |rows| ensures Text(rows[i].filename) && Int32(rows[i].version) {
        assert names[i] in names;
      }
    }
  }

  lemma NothingTaken()
    ensures PartRowsTaken([]) && DeltaRowsTaken([]) && ArtifactRowsTaken([])
  {
  }

  /** The rows of an event are taken exactly when the event fits: that of the event itself, and the rest. */
  lemma FitsExactly(sessionId: string, e: Event, rows: EventRows)
    requires Encodable(e) && Encodes(sessionId, e, rows)
    ensures EventRowTaken(rows.event) <==> HeaderFits(e)
    ensures BodyFits(e) <==>
      && PartRowsTaken(rows.parts) && ActionsRowTaken(rows.actions) && DeltaRowsTaken(rows.stateDeltas)
      && ArtifactRowsTaken(rows.artifactDeltas)
  {
    hide EventRowTaken, HeaderFits, PartRowsTaken, DeltaRowsTaken, ArtifactRowsTaken, PartsFit, StateFits, ArtifactsFit,
         RowsOfParts, RowOfEvent, FlattensState, FlattensArtifacts, JsonColumn, MaybeJson, MarshalNullable, Text;
    HeaderTaken(sessionId, e);
    JsonFits(e.actions.confirmations, ConfirmationMap);
    NothingTaken();
    NothingFlattened(e.actions, rows.stateDeltas, rows.artifactDeltas);
    if e.content.Some? {
      PartsTaken(e.content.value.parts, rows.parts);
    }
    if e.actions.stateDelta.Some? {
      StateTaken(e.actions.stateDelta.value, rows.stateDeltas);
    }
    if e.actions.artifactDelta.Some? {
      ArtifactsTaken(e.actions.artifactDelta.value, rows.artifactDeltas);
    }
  }
}
