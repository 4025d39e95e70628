/** One session event and the rows of five tables it becomes (session/rows.go). */
module SessionRows {

  import opened Common
  import opened StateKeys

  /** A JSON text. Everything but null is opaque: marshalling and unmarshalling undo each other. */
  datatype Json = JsonNull | Document(text: string)

  // ---- The event, its carried fields only. None is a Go nil; Some of an empty value is not nil. ----

  datatype FunctionCall = FunctionCall(id: string, name: string, args: Option<string>)
  datatype FunctionResponse = FunctionResponse(id: string, name: string, response: Option<string>)
  datatype Blob = Blob(mimeType: string, data: Option<bytes>, displayName: string)
  datatype FileData = FileData(mimeType: string, uri: string, displayName: string)
  datatype ExecutableCode = ExecutableCode(language: string, code: string)
  datatype CodeResult = CodeResult(outcome: string, output: string)
  datatype Video = Video(start: int, end: int, fps: Option<real>)

  datatype Part = Part(
    text: string,
    thought: bool,
    thoughtSignature: Option<bytes>,
    functionCall: Option<FunctionCall>,
    functionResponse: Option<FunctionResponse>,
    inlineData: Option<Blob>,
    fileData: Option<FileData>,
    executableCode: Option<ExecutableCode>,
    codeResult: Option<CodeResult>,
    video: Option<Video>,
    mediaResolution: Option<string>,
    toolCall: Option<string>,
    toolResponse: Option<string>,
    partMetadata: Option<string>)

  /** A nil pointer in the slice of parts is None. */
  datatype Content = Content(role: string, parts: seq<Option<Part>>)

  datatype Actions = Actions(
    skipSummarization: bool,
    transferToAgent: string,
    escalate: bool,
    confirmations: Option<string>,
    stateDelta: Option<map<string, Json>>,
    artifactDelta: Option<map<string, int>>)

  datatype Event = Event(
    id: string,
    invocationId: string,
    author: string,
    branch: string,
    timestamp: int,
    turnComplete: bool,
    interrupted: bool,
    isolationScope: string,
    errorCode: string,
    errorMessage: string,
    longRunningToolIds: Option<seq<string>>,
    routes: Option<string>,
    requestedInput: Option<string>,
    nodeInfo: Option<string>,
    groundingMetadata: Option<string>,
    usageMetadata: Option<string>,
    citationMetadata: Option<string>,
    customMetadata: Option<string>,
    content: Option<Content>,
    actions: Actions)

  // ---- The rows. None is SQL NULL. ----

  type Column = Option<Json>

  datatype EventRow = EventRow(
    adkId: string,
    sessionId: string,
    invocationId: string,
    author: string,
    branch: string,
    timestamp: int,
    turnComplete: bool,
    interrupted: bool,
    isolationScope: string,
    errorCode: string,
    errorMessage: string,
    contentRole: Option<string>,
    longRunningToolIds: Option<seq<string>>,
    routes: Column,
    requestedInput: Column,
    nodeInfo: Column,
    groundingMetadata: Column,
    usageMetadata: Column,
    citationMetadata: Column,
    customMetadata: Column)

  /** The text of a duration. */
  datatype OffsetText = Blank | Rendered(nanoseconds: int)

  datatype PartRow = PartRow(
    partIndex: int,
    text: string,
    thought: bool,
    thoughtSignature: Option<bytes>,
    functionCallId: Option<string>,
    functionCallName: Option<string>,
    functionCallArgs: Column,
    functionResponseId: Option<string>,
    functionResponseName: Option<string>,
    functionResponseResponse: Column,
    inlineDataMimeType: Option<string>,
    inlineDataBytes: Option<bytes>,
    inlineDataDisplayName: Option<string>,
    fileDataMimeType: Option<string>,
    fileDataUri: Option<string>,
    fileDataDisplayName: Option<string>,
    executableCodeLanguage: Option<string>,
    executableCodeCode: Option<string>,
    codeExecutionOutcome: Option<string>,
    codeExecutionOutput: Option<string>,
    videoStart: Option<OffsetText>,
    videoEnd: Option<OffsetText>,
    videoFps: Option<real>,
    mediaResolution: Option<Json>,
    toolCall: Column,
    toolResponse: Column,
    partMetadata: Column)

  datatype ActionsRow = ActionsRow(skipSummarization: bool, transferToAgent: string, escalate: bool,
    requestedAuthConfigs: Column)

  datatype StateDeltaRow = StateDeltaRow(scope: string, key: string, value: Column)

  datatype ArtifactDeltaRow = ArtifactDeltaRow(filename: string, version: int)

  datatype EventRows = EventRows(event: EventRow, parts: seq<PartRow>, actions: ActionsRow,
    stateDeltas: seq<StateDeltaRow>, artifactDeltas: seq<ArtifactDeltaRow>)

  datatype Error = NilEvent | NilPart(index: nat) | EmptyDocument(key: string)

  // ---- Nullable columns ----

  function Marshal(v: Option<string>): Json {
    if v.None? then JsonNull else Document(v.value)
  }

  /** The Go types of the values that go into nullable json columns. */
  datatype GoType =
    | RequestInputPointer | NodeInfoPointer | GroundingPointer | UsagePointer | CitationPointer
    | ToolCallPointer | ToolResponsePointer | AnyMap | StringSlice
    | ConfirmationMap  // map[string]toolconfirmation.ToolConfirmation

  /** isNil: a type switch, one case for each type it knows, and false for any other. */
  predicate IsNil(v: Option<string>, t: GoType) {
    match t
    case RequestInputPointer => v.None?
    case NodeInfoPointer => v.None?
    case GroundingPointer => v.None?
    case UsagePointer => v.None?
    case CitationPointer => v.None?
    case ToolCallPointer => v.None?
    case ToolResponsePointer => v.None?
    case AnyMap => v.None?
    case StringSlice => v.None?
    case _ => false
  }

  /** A nil isNil sees becomes SQL NULL; anything else is marshalled. */
  function MarshalNullable(v: Option<string>, t: GoType): Column {
    if IsNil(v, t) then None else Some(Marshal(v))
  }

  /** SQL NULL leaves the destination nil; so does the text null. */
  function UnmarshalNullable(raw: Column): Option<string> {
    if raw.None? || raw.value.JsonNull? then None else Some(raw.value.text)
  }

  function ParseOffset(text: OffsetText): int {
    if text.Blank? then 0 else text.nanoseconds
  }

  function Or<T>(o: Option<T>, zero: T): T {
    if o.Some? then o.value else zero
  }

  // ---- Encode ----

  /** encodePart for a part that is there. */
  function RowOfPart(index: int, p: Part): PartRow {
    PartRow(index, p.text, p.thought, p.thoughtSignature,
            if p.functionCall.Some? then Some(p.functionCall.value.id) else None,
            if p.functionCall.Some? then Some(p.functionCall.value.name) else None,
            if p.functionCall.Some? then MarshalNullable(p.functionCall.value.args, AnyMap) else None,
            if p.functionResponse.Some? then Some(p.functionResponse.value.id) else None,
            if p.functionResponse.Some? then Some(p.functionResponse.value.name) else None,
            if p.functionResponse.Some? then MarshalNullable(p.functionResponse.value.response, AnyMap) else None,
            if p.inlineData.Some? then Some(p.inlineData.value.mimeType) else None,
            if p.inlineData.Some? then p.inlineData.value.data else None,
            if p.inlineData.Some? then Some(p.inlineData.value.displayName) else None,
            if p.fileData.Some? then Some(p.fileData.value.mimeType) else None,
            if p.fileData.Some? then Some(p.fileData.value.uri) else None,
            if p.fileData.Some? then Some(p.fileData.value.displayName) else None,
            if p.executableCode.Some? then Some(p.executableCode.value.language) else None,
            if p.executableCode.Some? then Some(p.executableCode.value.code) else None,
            if p.codeResult.Some? then Some(p.codeResult.value.outcome) else None,
            if p.codeResult.Some? then Some(p.codeResult.value.output) else None,
            if p.video.Some? then Some(Rendered(p.video.value.start)) else None,
            if p.video.Some? then Some(Rendered(p.video.value.end)) else None,
            if p.video.Some? then p.video.value.fps else None,
            if p.mediaResolution.Some? then Some(Document(p.mediaResolution.value)) else None,
            MarshalNullable(p.toolCall, ToolCallPointer),
            MarshalNullable(p.toolResponse, ToolResponsePointer),
            MarshalNullable(p.partMetadata, AnyMap))
  }

  predicate NoNilPart(parts: seq<Option<Part>>) {
    forall i :: 0 <= i < |parts| ==> parts[i].Some?
  }

  predicate RowsOfParts(parts: seq<Option<Part>>, rows: seq<PartRow>)
    requires NoNilPart(parts)
  {
    && |rows| == |parts|
    && forall i :: 0 <= i < |parts| ==> rows[i] == RowOfPart(i, parts[i].value)
  }

  /** The loop over the parts: the first nil one stops it. */
  method EncodeParts(parts: seq<Option<Part>>) returns (r: Result<seq<PartRow>, Error>)
    ensures r.Ok? <==> NoNilPart(parts)
    ensures r.Ok? ==> RowsOfParts(parts, r.value)
    ensures r.Err? ==> exists i :: 0 <= i < |parts| && parts[i].None? && NoNilPart(parts[..i]) && r.error == NilPart(i)
  {
    var rows: seq<PartRow> := [];
    for i := 0 to |parts|
      invariant NoNilPart(parts[..i])
      invariant |rows| == i && forall j :: 0 <= j < i ==> rows[j] == RowOfPart(j, parts[j].value)
    {
      if parts[i].None? {
        return Err(NilPart(i));
      }
      rows := rows + [RowOfPart(i, parts[i].value)];
    }
    return Ok(rows);
  }

  function RowOfActions(a: Actions): ActionsRow {
    ActionsRow(a.skipSummarization, a.transferToAgent, a.escalate, MarshalNullable(a.confirmations, ConfirmationMap))
  }

  /** The rows of some keys of a state delta: temporary keys have none. */
  function DeltaRows(delta: map<string, Json>, keys: seq<string>): seq<StateDeltaRow>
    requires forall k :: k in keys ==> k in delta
  {
    if keys == [] then []
    else
      var k := keys[|keys| - 1];
      DeltaRows(delta, keys[..|keys| - 1]) +
      if Persisted(k) then [StateDeltaRow(ScopeOf(k).value.scope, ScopeOf(k).value.key, Some(delta[k]))] else []
  }

  function ArtifactRows(delta: map<string, int>, names: seq<string>): (rows: seq<ArtifactDeltaRow>)
    requires forall n :: n in names ==> n in delta
    ensures |rows| == |names|
    ensures forall i :: 0 <= i < |names| ==> rows[i] == ArtifactDeltaRow(names[i], delta[names[i]])
  {
    seq(|names|, i requires 0 <= i < |names| => ArtifactDeltaRow(names[i], delta[names[i]]))
  }

  /** The rows are those of the sorted keys. */
  ghost predicate FlattensState(delta: Option<map<string, Json>>, rows: seq<StateDeltaRow>) {
    if delta.None? then rows == []
    else exists keys :: Lists(keys, delta.value.Keys) && rows == DeltaRows(delta.value, keys)
  }

  ghost predicate FlattensArtifacts(delta: Option<map<string, int>>, rows: seq<ArtifactDeltaRow>) {
    if delta.None? then rows == []
    else exists names :: Lists(names, delta.value.Keys) && rows == ArtifactRows(delta.value, names)
  }

  method EncodeActions(a: Actions)
    returns (row: ActionsRow, deltas: seq<StateDeltaRow>, artifacts: seq<ArtifactDeltaRow>)
    ensures row == RowOfActions(a)
    ensures FlattensState(a.stateDelta, deltas)
    ensures FlattensArtifacts(a.artifactDelta, artifacts)
  {
    row, deltas, artifacts := RowOfActions(a), [], [];
    if a.stateDelta.Some? {
      var delta := a.stateDelta.value;
      var keys := SortedKeys(delta.Keys);
      for i := 0 to |keys|
        invariant deltas == DeltaRows(delta, keys[..i])
      {
        assert keys[..i + 1][..i] == keys[..i];
        var stored := ScopeOf(keys[i]);
        if stored.Some? {
          deltas := deltas + [StateDeltaRow(stored.value.scope, stored.value.key, Some(delta[keys[i]]))];
        }
      }
      assert keys[..|keys|] == keys;
    }
    if a.artifactDelta.Some? {
      var delta := a.artifactDelta.value;
      var names := SortedKeys(delta.Keys);
      for i := 0 to |names|
        invariant artifacts == ArtifactRows(delta, names)[..i]
      {
        artifacts := artifacts + [ArtifactDeltaRow(names[i], delta[names[i]])];
      }
    }
  }

  /** stateDocument: the rows a new session's state starts with. */
  method StateDocument(state: map<string, Json>) returns (rows: seq<StateDeltaRow>)
    ensures FlattensState(Some(state), rows)
  {
    rows := [];
    var keys := SortedKeys(state.Keys);
    for i := 0 to |keys|
      invariant rows == DeltaRows(state, keys[..i])
    {
      assert keys[..i + 1][..i] == keys[..i];
      var stored := ScopeOf(keys[i]);
      if stored.Some? {
        rows := rows + [StateDeltaRow(stored.value.scope, stored.value.key, Some(state[keys[i]]))];
      }
    }
    assert keys[..|keys|] == keys;
  }

  function RowOfEvent(sessionId: string, e: Event): EventRow {
    EventRow(e.id, sessionId, e.invocationId, e.author, e.branch, e.timestamp, e.turnComplete, e.interrupted,
             e.isolationScope, e.errorCode, e.errorMessage,
             if e.content.Some? then Some(e.content.value.role) else None,
             e.longRunningToolIds,
             MarshalNullable(e.routes, StringSlice),
             MarshalNullable(e.requestedInput, RequestInputPointer),
             MarshalNullable(e.nodeInfo, NodeInfoPointer),
             MarshalNullable(e.groundingMetadata, GroundingPointer),
             MarshalNullable(e.usageMetadata, UsagePointer),
             MarshalNullable(e.citationMetadata, CitationPointer),
             MarshalNullable(e.customMetadata, AnyMap))
  }

  /** A column is SQL NULL exactly for a nil of any type but that of the confirmations, whose nil becomes the
      text null; it reads back the same either way. */
  lemma NullExactly(v: Option<string>, t: GoType)
    ensures MarshalNullable(v, t) == None <==> v.None? && t != ConfirmationMap
    ensures MarshalNullable(v, t) == Some(JsonNull) <==> v.None? && t == ConfirmationMap
    ensures UnmarshalNullable(MarshalNullable(v, t)) == v
  {
  }

  /** Some column is the text null. */
  predicate WritesNull(columns: seq<Column>) {
    Some(JsonNull) in columns
  }

  function EventColumns(r: EventRow): seq<Column> {
    [r.routes, r.requestedInput, r.nodeInfo, r.groundingMetadata, r.usageMetadata, r.citationMetadata, r.customMetadata]
  }

  function PartColumns(r: PartRow): seq<Column> {
    [r.functionCallArgs, r.functionResponseResponse, r.toolCall, r.toolResponse, r.partMetadata]
  }

  /** Of all the nullable columns of an event, its parts and its actions, only that of nil confirmations ever
      holds the text null. */
  lemma OnlyConfirmationsWriteNull(sessionId: string, e: Event, index: int, p: Part)
    ensures WritesNull([RowOfActions(e.actions).requestedAuthConfigs]) <==> e.actions.confirmations.None?
    ensures !WritesNull(EventColumns(RowOfEvent(sessionId, e)))
    ensures !WritesNull(PartColumns(RowOfPart(index, p)))
  {
    hide MarshalNullable;
    NullExactly(e.actions.confirmations, ConfirmationMap);
    assert [RowOfActions(e.actions).requestedAuthConfigs][0] == MarshalNullable(e.actions.confirmations, ConfirmationMap);
    forall v, t | t != ConfirmationMap ensures MarshalNullable(v, t) != Some(JsonNull) {
      NullExactly(v, t);
    }
  }

  predicate Encodable(e: Event) {
    e.content.Some? ==> NoNilPart(e.content.value.parts)
  }

  /** The rows of an event. */
  ghost predicate Encodes(sessionId: string, e: Event, rows: EventRows)
    requires Encodable(e)
  {
    && rows.event == RowOfEvent(sessionId, e)
    && (if e.content.Some? then RowsOfParts(e.content.value.parts, rows.parts) else rows.parts == [])
    && rows.actions == RowOfActions(e.actions)
    && FlattensState(e.actions.stateDelta, rows.stateDeltas)
    && FlattensArtifacts(e.actions.artifactDelta, rows.artifactDeltas)
  }

  /** encodeEvent: refused exactly for no event or a nil part. */
  method EncodeEvent(sessionId: string, event: Option<Event>) returns (r: Result<EventRows, Error>)
    ensures r.Ok? <==> event.Some? && Encodable(event.value)
    ensures r.Ok? ==> Encodes(sessionId, event.value, r.value)
    ensures event.None? ==> r == Err(NilEvent)
  {
    if event.None? {
      return Err(NilEvent);
    }
    var e := event.value;
    var parts: seq<PartRow> := [];
    if e.content.Some? {
      var encoded := EncodeParts(e.content.value.parts);
      if encoded.Err? {
        return Err(encoded.error);
      }
      parts := encoded.value;
    }
    var actions, deltas, artifacts := EncodeActions(e.actions);
    return Ok(EventRows(RowOfEvent(sessionId, e), parts, actions, deltas, artifacts));
  }

  /** The rows do not depend on the order in which the maps were iterated. */
  lemma EncodingIsDeterministic(sessionId: string, e: Event, a: EventRows, b: EventRows)
    requires Encodable(e) && Encodes(sessionId, e, a) && Encodes(sessionId, e, b)
    ensures a == b
  {
    hide RowOfEvent, RowOfPart;
    assert a.parts == b.parts;
    if e.actions.stateDelta.Some? {
      var delta := e.actions.stateDelta.value;
      var x :| Lists(x, delta.Keys) && a.stateDeltas == DeltaRows(delta, x);
      var y :| Lists(y, delta.Keys) && b.stateDeltas == DeltaRows(delta, y);
      SortedListUnique(x, y, delta.Keys);
    }
    if e.actions.artifactDelta.Some? {
      var delta := e.actions.artifactDelta.value;
      var x :| Lists(x, delta.Keys) && a.artifactDeltas == ArtifactRows(delta, x);
      var y :| Lists(y, delta.Keys) && b.artifactDeltas == ArtifactRows(delta, y);
      SortedListUnique(x, y, delta.Keys);
    }
  }

  // ---- Which value goes into which column ----

  /** Every value of an event stands in the column of its own name. */
  lemma EventByColumn(sessionId: string, e: Event)
    ensures var r := RowOfEvent(sessionId, e);
      && r.adkId == e.id && r.sessionId == sessionId && r.invocationId == e.invocationId && r.author == e.author
      && r.branch == e.branch && r.timestamp == e.timestamp && r.turnComplete == e.turnComplete
      && r.interrupted == e.interrupted && r.isolationScope == e.isolationScope
      && r.errorCode == e.errorCode && r.errorMessage == e.errorMessage && r.longRunningToolIds == e.longRunningToolIds
      && (r.contentRole.Some? <==> e.content.Some?) && (e.content.Some? ==> r.contentRole.value == e.content.value.role)
      && UnmarshalNullable(r.routes) == e.routes && UnmarshalNullable(r.requestedInput) == e.requestedInput
      && UnmarshalNullable(r.nodeInfo) == e.nodeInfo && UnmarshalNullable(r.groundingMetadata) == e.groundingMetadata
      && UnmarshalNullable(r.usageMetadata) == e.usageMetadata && UnmarshalNullable(r.citationMetadata) == e.citationMetadata
      && UnmarshalNullable(r.customMetadata) == e.customMetadata
    ensures var r := RowOfActions(e.actions);
      && r.skipSummarization == e.actions.skipSummarization && r.transferToAgent == e.actions.transferToAgent
      && r.escalate == e.actions.escalate && UnmarshalNullable(r.requestedAuthConfigs) == e.actions.confirmations
  {
  }

  /** And every value of a part; the columns of a kind of content it does not have are NULL. */
  lemma PartByColumn(index: int, p: Part)
    ensures var r := RowOfPart(index, p);
      && r.partIndex == index && r.text == p.text && r.thought == p.thought && r.thoughtSignature == p.thoughtSignature
      && (p.functionCall.Some? ==> r.functionCallId == Some(p.functionCall.value.id) && r.functionCallName == Some(p.functionCall.value.name))
      && (p.functionCall.None? ==> r.functionCallId == None && r.functionCallName == None && r.functionCallArgs == None)
      && (p.functionResponse.Some? ==>
           r.functionResponseId == Some(p.functionResponse.value.id) && r.functionResponseName == Some(p.functionResponse.value.name))
      && (p.functionResponse.None? ==>
           r.functionResponseId == None && r.functionResponseName == None && r.functionResponseResponse == None)
    ensures var r := RowOfPart(index, p);
      && (p.inlineData.Some? ==>
           var d := p.inlineData.value;
           r.inlineDataMimeType == Some(d.mimeType) && r.inlineDataBytes == d.data && r.inlineDataDisplayName == Some(d.displayName))
      && (p.inlineData.None? ==> r.inlineDataMimeType == None && r.inlineDataBytes == None && r.inlineDataDisplayName == None)
      && (p.fileData.Some? ==>
           var d := p.fileData.value;
           r.fileDataMimeType == Some(d.mimeType) && r.fileDataUri == Some(d.uri) && r.fileDataDisplayName == Some(d.displayName))
      && (p.fileData.None? ==> r.fileDataMimeType == None && r.fileDataUri == None && r.fileDataDisplayName == None)
    ensures var r := RowOfPart(index, p);
      && (p.executableCode.Some? ==>
           r.executableCodeLanguage == Some(p.executableCode.value.language) && r.executableCodeCode == Some(p.executableCode.value.code))
      && (p.codeResult.Some? ==>
           r.codeExecutionOutcome == Some(p.codeResult.value.outcome) && r.codeExecutionOutput == Some(p.codeResult.value.output))
      && (p.video.Some? ==>
           r.videoStart == Some(Rendered(p.video.value.start)) && r.videoEnd == Some(Rendered(p.video.value.end))
           && r.videoFps == p.video.value.fps)
  {
  }

  // ---- Decode ----

  function DecodePart(row: PartRow): Part {
    Part(
      row.text, row.thought, row.thoughtSignature,
      if row.functionCallId.Some? || row.functionCallName.Some?
      then Some(FunctionCall(Or(row.functionCallId, ""), Or(row.functionCallName, ""), UnmarshalNullable(row.functionCallArgs)))
      else None,
      if row.functionResponseId.Some? || row.functionResponseName.Some?
      then Some(FunctionResponse(Or(row.functionResponseId, ""), Or(row.functionResponseName, ""),
                                 UnmarshalNullable(row.functionResponseResponse)))
      else None,
      if row.inlineDataMimeType.Some? || row.inlineDataDisplayName.Some? || row.inlineDataBytes.Some?
      then Some(Blob(Or(row.inlineDataMimeType, ""), row.inlineDataBytes, Or(row.inlineDataDisplayName, "")))
      else None,
      if row.fileDataMimeType.Some? || row.fileDataUri.Some? || row.fileDataDisplayName.Some?
      then Some(FileData(Or(row.fileDataMimeType, ""), Or(row.fileDataUri, ""), Or(row.fileDataDisplayName, "")))
      else None,
      if row.executableCodeLanguage.Some? || row.executableCodeCode.Some?
      then Some(ExecutableCode(Or(row.executableCodeLanguage, ""), Or(row.executableCodeCode, "")))
      else None,
      if row.codeExecutionOutcome.Some? || row.codeExecutionOutput.Some?
      then Some(CodeResult(Or(row.codeExecutionOutcome, ""), Or(row.codeExecutionOutput, "")))
      else None,
      if row.videoStart.Some? || row.videoEnd.Some? || row.videoFps.Some?
      then Some(Video(ParseOffset(Or(row.videoStart, Blank)), ParseOffset(Or(row.videoEnd, Blank)), row.videoFps))
      else None,
      UnmarshalNullable(row.mediaResolution),
      UnmarshalNullable(row.toolCall),
      UnmarshalNullable(row.toolResponse),
      UnmarshalNullable(row.partMetadata))
  }

  lemma CallsRoundTrip(index: int, p: Part)
    ensures DecodePart(RowOfPart(index, p)).functionCall == p.functionCall
    ensures DecodePart(RowOfPart(index, p)).functionResponse == p.functionResponse
  {
  }

  lemma DataRoundTrip(index: int, p: Part)
    ensures DecodePart(RowOfPart(index, p)).inlineData == p.inlineData
    ensures DecodePart(RowOfPart(index, p)).fileData == p.fileData
  {
  }

  lemma CodeRoundTrip(index: int, p: Part)
    ensures DecodePart(RowOfPart(index, p)).executableCode == p.executableCode
    ensures DecodePart(RowOfPart(index, p)).codeResult == p.codeResult
  {
  }

  lemma VideoRoundTrip(index: int, p: Part)
    ensures DecodePart(RowOfPart(index, p)).video == p.video
  {
  }

  lemma PlainRoundTrip(index: int, p: Part)
    ensures DecodePart(RowOfPart(index, p)).text == p.text
    ensures DecodePart(RowOfPart(index, p)).thought == p.thought
    ensures DecodePart(RowOfPart(index, p)).thoughtSignature == p.thoughtSignature
    ensures DecodePart(RowOfPart(index, p)).mediaResolution == p.mediaResolution
    ensures DecodePart(RowOfPart(index, p)).toolCall == p.toolCall
    ensures DecodePart(RowOfPart(index, p)).toolResponse == p.toolResponse
    ensures DecodePart(RowOfPart(index, p)).partMetadata == p.partMetadata
  {
  }

  /** A part survives its row: every nil stays nil and every empty value stays empty. */
  lemma PartRoundTrip(index: int, p: Part)
    ensures DecodePart(RowOfPart(index, p)) == p
  {
    hide *;
    CallsRoundTrip(index, p);
    DataRoundTrip(index, p);
    CodeRoundTrip(index, p);
    VideoRoundTrip(index, p);
    PlainRoundTrip(index, p);
  }

  /** What the loop over the state delta rows builds: the last row of a key wins, and a row without a
      document is an error. */
  function CollectState(rows: seq<StateDeltaRow>): Result<map<string, Json>, Error> {
    if rows == [] then Ok(map[])
    else
      var row := rows[|rows| - 1];
      match CollectState(rows[..|rows| - 1])
      case Err(e) => Err(e)
      case Ok(m) =>
        if row.value.None? then Err(EmptyDocument(row.key)) else Ok(m[Key(row.scope, row.key) := row.value.value])
  }

  function CollectArtifacts(rows: seq<ArtifactDeltaRow>): map<string, int> {
    if rows == [] then map[]
    else CollectArtifacts(rows[..|rows| - 1])[rows[|rows| - 1].filename := rows[|rows| - 1].version]
  }

  /** An Err of the loop so far is the Err of all the rows. */
  lemma {:induction false} CollectStops(rows: seq<StateDeltaRow>, i: nat)
    requires i <= |rows| && CollectState(rows[..i]).Err?
    ensures CollectState(rows) == CollectState(rows[..i])
  {
    if i == |rows| {
      assert rows[..i] == rows;
    } else {
      assert rows[..|rows| - 1][..i] == rows[..i];
      CollectStops(rows[..|rows| - 1], i);
    }
  }

  function DecodedActions(row: ActionsRow, state: map<string, Json>, artifacts: map<string, int>): Actions {
    Actions(row.skipSummarization, row.transferToAgent, row.escalate, UnmarshalNullable(row.requestedAuthConfigs),
            if state == map[] then None else Some(state),
            if artifacts == map[] then None else Some(artifacts))
  }

  /** What decodeActions returns. */
  function DecodedAll(row: ActionsRow, deltas: seq<StateDeltaRow>, artifacts: seq<ArtifactDeltaRow>): Result<Actions, Error> {
    match CollectState(deltas)
    case Err(e) => Err(e)
    case Ok(state) => Ok(DecodedActions(row, state, CollectArtifacts(artifacts)))
  }

  lemma {:induction false} CollectNonEmpty(rows: seq<StateDeltaRow>)
    requires CollectState(rows).Ok?
    ensures CollectState(rows).value == map[] <==> rows == []
  {
    if rows != [] {
      var row := rows[|rows| - 1];
      assert Key(row.scope, row.key) in CollectState(rows).value;
    }
  }

  /** decodeActions: the maps are made only when there are rows. */
  method DecodeActions(row: ActionsRow, deltas: seq<StateDeltaRow>, artifacts: seq<ArtifactDeltaRow>)
    returns (r: Result<Actions, Error>)
    ensures r == DecodedAll(row, deltas, artifacts)
  {
    var a := Actions(row.skipSummarization, row.transferToAgent, row.escalate,
                     UnmarshalNullable(row.requestedAuthConfigs), None, None);
    if |deltas| > 0 {
      var state: map<string, Json> := map[];
      for i := 0 to |deltas|
        invariant CollectState(deltas[..i]) == Ok(state)
      {
        assert deltas[..i + 1][..i] == deltas[..i];
        if deltas[i].value.None? {
          CollectStops(deltas, i + 1);
          return Err(EmptyDocument(deltas[i].key));
        }
        state := state[Key(deltas[i].scope, deltas[i].key) := deltas[i].value.value];
      }
      assert deltas[..|deltas|] == deltas;
      CollectNonEmpty(deltas);
      a := a.(stateDelta := Some(state));
    }
    if |artifacts| > 0 {
      var versions: map<string, int> := map[];
      for i := 0 to |artifacts|
        invariant versions == CollectArtifacts(artifacts[..i])
      {
        assert artifacts[..i + 1][..i] == artifacts[..i];
        versions := versions[artifacts[i].filename := artifacts[i].version];
      }
      assert artifacts[..|artifacts|] == artifacts;
      assert artifacts[|artifacts| - 1].filename in versions;
      a := a.(artifactDelta := Some(versions));
    }
    return Ok(a);
  }

  function DecodedParts(rows: seq<PartRow>): (parts: seq<Option<Part>>)
    ensures |parts| == |rows|
    ensures forall i :: 0 <= i < |rows| ==> parts[i] == Some(DecodePart(rows[i]))
  {
    seq(|rows|, i requires 0 <= i < |rows| => Some(DecodePart(rows[i])))
  }

  /** The fields decodeEvent copies from the event row. */
  function EventOf(row: EventRow, content: Option<Content>, actions: Actions): Event {
    Event(row.adkId, row.invocationId, row.author, row.branch, row.timestamp, row.turnComplete, row.interrupted,
          row.isolationScope, row.errorCode, row.errorMessage, row.longRunningToolIds,
          UnmarshalNullable(row.routes),
          UnmarshalNullable(row.requestedInput),
          UnmarshalNullable(row.nodeInfo),
          UnmarshalNullable(row.groundingMetadata),
          UnmarshalNullable(row.usageMetadata),
          UnmarshalNullable(row.citationMetadata),
          UnmarshalNullable(row.customMetadata),
          content, actions)
  }

  function DecodedContent(role: Option<string>, rows: seq<PartRow>): Option<Content> {
    if role.Some? then Some(Content(role.value, DecodedParts(rows))) else None
  }

  /** What decodeEvent returns: parts in the order given, and no content at all without a role. */
  function DecodedEvent(rows: EventRows): Result<Event, Error> {
    match DecodedAll(rows.actions, rows.stateDeltas, rows.artifactDeltas)
    case Err(e) => Err(e)
    case Ok(actions) => Ok(EventOf(rows.event, DecodedContent(rows.event.contentRole, rows.parts), actions))
  }

  method DecodeEvent(rows: EventRows) returns (r: Result<Event, Error>)
    ensures r == DecodedEvent(rows)
  {
    hide EventOf, DecodePart;
    var content: Option<Content> := None;
    if rows.event.contentRole.Some? {
      var parts: seq<Option<Part>> := [];
      for i := 0 to |rows.parts|
        invariant parts == DecodedParts(rows.parts)[..i]
      {
        parts := parts + [Some(DecodePart(rows.parts[i]))];
      }
      assert parts == DecodedParts(rows.parts);
      content := Some(Content(rows.event.contentRole.value, parts));
    }
    var actions := DecodeActions(rows.actions, rows.stateDeltas, rows.artifactDeltas);
    if actions.Err? {
      return Err(actions.error);
    }
    return Ok(EventOf(rows.event, content, actions.value));
  }
}
