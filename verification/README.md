# Verified models of wasmpg, the determinism analyzer, the session mapping and the migration runner

This project models the four parts of the repository whose correctness cannot be read off one function body, and proves
what each of them is for. `dafny verify dfyconfig.toml` checks all of it.

## The multiplexer (wasmpg)

N logical `net.Conn`s share one PGlite backend session.

* `Fifo.dfy` and `Hold.dfy` are the lock with cancellable waiters and the per-connection ownership record, as classes
  whose methods are the regions the source runs under a mutex, each proved equal to a function on values.
* `Multiplexer.dfy` puts those functions into a step system: one step for each region under a mutex, and one for each
  event outside (an exec call starts or returns, a wait is cancelled, `done` closes). Any number of connections write,
  close, fail and give up in any interleaving. `MuxSafety.dfy` proves an invariant of every reachable state and from it
  transaction isolation and exactly what breaks it, one owner at a time, one release for each acquisition, no session
  stranded by a close, and first come, first served. `MuxTrips.dfy` reads off the calls made what a connection holds the
  session for and what the shim rolls back for.
* `PgProto.dfy`, `WriteStream.dfy`, `ReadQueue.dfy`, `SqlLexer.dfy`, `Listen.dfy`, `Routing.dfy` and `Deadline.dfy` are
  the codec, the two byte streams of a connection, the SQL statement lexer, the LISTEN parser, the routing index and the
  deadline. `ListenText.dfy` is SQL text as a client may write it, and what lexer and parser make of it. `StaleRoutes.dfy`
  follows LISTEN operations applied behind a close from the bytes to the index.

The backend is an oracle. A call may return any bytes or fail; the last ReadyForQuery of a reply tells the truth about
the session; a call returns only when the backend is done with it. A ROLLBACK the shim sends may fail like any other
call. The framing is that of the PostgreSQL frontend/backend protocol 3.0 (section 55.7, "Message Formats", of the
PostgreSQL 16 manual).

## The determinism analyzer

`Determinism.dfy` reduces a Go syntax tree to what the walk distinguishes: statements and expressions with children,
function literals, names, and calls by what they resolve to. The fixed point of `exportFacts` is the source's three
nested loops with both map iterations in arbitrary order. It terminates because each recorded pair of function and origin uses up
room in a finite set. The table it ends with holds exactly the reachable origins, each with a call path that is real and
passes through no function of the package twice. Run package by package in import order, the tables equal reachability
in the call graph of the whole module. The depth-first reporter, with its shared set of functions already entered,
reports exactly the same origins.

## The session mapping

`StateKeys.dfy`, `SessionRows.dfy` and `SessionLoad.dfy` encode an event into rows of five tables, send the rows through
the database (json columns come back parsed, bytes as base64 text, the rows of every table in any order), and load and
decode them. `SessionColumns.dfy` is what the columns of those tables can hold, and `SessionStore.dfy` what the database
accepts and keeps: whole conversations, appended with refusals and repetitions, come back. `Snapshots.dfy` sets the
in-memory session of the caller beside the rows. `SharedState.dfy` is the merge of `app:` and `user:` state and the window
of events `Get` returns, and `SharedHistory.dfy` what the merge gives of everything ever created and appended in all
sessions of an application.

## The migration runner

`Migrate.dfy` is `Apply` as a program in which every statement may be done, refused, or take effect and still report an
error, which is also how a crash looks, with any number of runs after it. `Goose.dfy` is the split of one annotated file.

## Where the code and its own account differ

Each promise that fails has an input at which it does, and the exact condition under which the code meets it.

* A framing error discards the messages already batched in the same Write, and a LISTEN behind a Terminate in the same
  Write is still applied, so how a stream is cut into writes can be seen: `WriteStream.InvarianceExactly`,
  `WriteStream.LosesItsBatch`, `WriteStream.AppliesLate`, and at bytes `WriteStream.SyncLost`.
* Such a LISTEN leaves a route to a connection that is gone: `Routing.ConnectedExactly`, `StaleRoutes.StaleExactly`,
  `StaleRoutes.LateListenLeavesRoute`.
* `rollbackSession` ignores whether its ROLLBACK succeeds and passes the session on, so after one that failed the next
  connection can find itself inside the transaction of another. That is the only way: `MuxSafety.TransactionIsolation`,
  `MuxSafety.WorkingRollbacksIsolate`, `MuxSafety.FailedRollbackLeaks`.
* Not every event that survives encoding and decoding can be stored: a state value null meets a NOT NULL column, an
  artifact version is an int64 in an event and an integer in its column, and no text column and no document takes the
  character U+0000. `SessionLoad.DirectRoundTrip`, `SessionStore.AcceptsExactly`, `Snapshots.CreateExactly`,
  `SessionStore.NullValueIsRefused`, `SessionStore.WideVersionIsRefused`, `SessionStore.ZeroCharacterIsRefused`. And a
  stored event's time is that of the event exactly when that is in whole microseconds: `SessionLoad.WholeMicroseconds`.
* `applyToSnapshot` is said to mirror the append. It runs after every call that reports no error, and `append_event`
  reports none for an event already stored, which changes the snapshot and not the rows:
  `Snapshots.AppendMirrorsExactly`, `Snapshots.StateMirrorsExactly`, `Snapshots.EventsMirrorExactly`,
  `Snapshots.RepetitionStrays`.
* `isNil` does not know the type of `RequestedToolConfirmations`, so a nil map is written as the JSON text null where its
  comment promises SQL NULL: `SessionRows.NullExactly`, `SessionRows.OnlyConfirmationsWriteNull`. The round trip holds
  all the same and covers it.
* A damaged reply is said to be misread only in the safe direction. It reads as idle when an idle ReadyForQuery stands
  before the damage, and wrongly so when another status was behind it: `Hold.DamagedReadsIdleExactly`,
  `Hold.DamageIsUnsafeExactly`, `Hold.DamagedReplyReadsIdle`.
* The runner cut off between a migration and its ledger row leaves it to be applied again: `Migrate.RunDanglesExactly`
  says when a run does that, `Migrate.RunAppliesOnce` and `Migrate.EachAppliedOnce` when it is repeated. A migration that
  cannot be repeated, as one of plain CREATE TABLE statements, then stops every later run: `Migrate.StuckExactly`,
  `Migrate.UnrepeatableIsStuck`.

* The splitter takes dollar signs inside a bare name for a dollar quote, so behind LISTEN a$$ the rest of the text is not
  seen: `ListenText.ScriptIsObserved` needs every bare name to leave no quote open, `ListenText.UnsettledSwallows` says what
  is lost when one does and no later dollar sign closes it, and `ListenText.DollarNameSwallows` is a text.

Block comments do not nest in `splitStatements`, although they do in PostgreSQL (section 4.1.5 of its manual). The lexer
modelled is the code's.

## Model

| member | source | states |
|---|---|---|
| `Fifo.FifoLock.Acquire` | wasmpg/fifo.go:27-44 | A free lock is taken; a held one makes the caller the last waiter. |
| `Fifo.FifoLock.Abandon` | wasmpg/fifo.go:51-65 | The caller leaves the queue if it is still in it; if it is not, it was granted, and it learns so. |
| `Fifo.FifoLock.Release` | wasmpg/fifo.go:68-79 | The lock passes straight to the longest waiter and stays held; without waiters it becomes free. |
| `Fifo.WithoutOrdered` | wasmpg/fifo.go:51-65 | A withdrawal removes exactly that waiter and keeps arrival order. |
| `Fifo.WithdrawalMovesUp` | wasmpg/fifo.go:51-65 | A withdrawal moves everybody behind it up by one and nobody else. |
| `Hold.BackendHold.Begin` | wasmpg/conn.go:318-330 | A closing connection is refused, an owner re-enters, anybody else must acquire. |
| `Hold.BackendHold.Record` | wasmpg/conn.go:335-349 | Ownership is recorded unless the close landed first; then the lock is handed on. |
| `Hold.BackendHold.End` | wasmpg/conn.go:358-376 | Ownership survives only an open transaction of a connection that is not closing; a rollback is owed unless the session is idle. |
| `Hold.BackendHold.Abandon` | wasmpg/conn.go:383-402 | The closer takes ownership away unless a round trip is in flight, which then gives it back itself. |
| `Hold.DamagedReadsIdleExactly` | wasmpg/pgproto.go:241-259 | A damaged reply reads as idle exactly when the last ReadyForQuery before the damage said so. |
| `Hold.DamageIsUnsafeExactly` | wasmpg/pgproto.go:244-249 | Reading it so is unsafe exactly when, besides, the lost part ended in another status. |
| `Hold.DamagedReplyReadsIdle` | wasmpg/pgproto.go:244-249 | One such reply, and its intact form that keeps the session. |
| `MuxSafety.InitInv` | wasmpg/mux.go:150-186 | A new multiplexer satisfies the invariant. |
| `MuxSafety.KeepsInv` | wasmpg/conn.go:318-453 | Every step of every connection keeps the invariant of lock, queue, ownership, session and call log. |
| `MuxSafety.RunKeepsInv` | wasmpg/conn.go:318-453 | So does every run, of any length and interleaving. |
| `MuxSafety.OwnedInOnePlace` | wasmpg/conn.go:318-402 | In every reachable state the lock's ownership is in exactly one place: free, recorded by one connection, or with one writer or one closer. |
| `MuxSafety.StepBalance` | wasmpg/fifo.go:27-79 | Each step changes the number of outstanding acquisitions exactly as its grants and releases say. |
| `MuxSafety.AcquiredAndReleasedOnce` | wasmpg/fifo.go:27-79 | Over any run, grants minus releases is one while the lock is held and zero while it is free. |
| `MuxSafety.OneCallAtATime` | wasmpg/mux.go:330-357 | No two exec calls overlap, and a running call belongs to the owner of the lock. |
| `MuxSafety.DeadBranches` | wasmpg/conn.go:358-376 | endRoundTrip never finds the session not held, and abandon never waits for a grant that is not there. |
| `MuxSafety.FirstBlock` | wasmpg/conn.go:318-402 | The longest first part of the call log made by one connection. |
| `MuxSafety.BlocksCover` | wasmpg/conn.go:318-402 | The blocks of the call log are the log. |
| `MuxSafety.BlocksAreWhole` | wasmpg/conn.go:318-402 | A chained log that changes hands only when idle consists of whole blocks, each idle to idle. |
| `MuxSafety.BlocksButLastAreWhole` | wasmpg/conn.go:318-402 | Wherever such a log stops, only its last block may be unfinished. |
| `MuxSafety.TransactionIsolation` | wasmpg/conn.go:318-420 | In every reachable state the calls made so far are contiguous blocks of one connection each, begun idle and, all but the last, ended idle, if and only if no connection took over directly from a rollback of the shim that failed; the session is idle whenever the lock is free, but for such a rollback. |
| `MuxSafety.WorkingRollbacksIsolate` | wasmpg/conn.go:404-420 | While every such rollback ends the transaction, isolation holds without exception. |
| `MuxSafety.FailedRollbackLeaks` | wasmpg/conn.go:404-420 | A run in which one does not, and the next connection's call lands in the transaction of the first. |
| `MuxSafety.WholeBlocksSwitchIdle` | wasmpg/conn.go:318-402 | Whole blocks leave the session idle wherever the connection changes. |
| `MuxSafety.TransactionStaysWithItsConnection` | wasmpg/mux.go:330-357 | Inside a transaction every further call is made by the connection that opened it, unless that one's rollback has just failed. |
| `MuxSafety.ClosedLeavesNothing` | wasmpg/conn.go:383-453 | A closed connection whose calls have returned neither owns the lock nor waits for it, wherever the close landed. |
| `MuxSafety.ClosedWriterCanMove` | wasmpg/conn.go:331-348 | A writer still at work on a closed connection always has a next step of its own. |
| `MuxSafety.ClosedWriterDrains` | wasmpg/conn.go:331-376 | Each such step brings it nearer to resting, so it drains in a bounded number of them. |
| `MuxSafety.OwnerCanMove` | wasmpg/conn.go:358-402 | The owner of a held lock can always move on, except an open connection idle inside its own transaction. |
| `MuxSafety.FirstComeFirstServed` | wasmpg/fifo.go:27-79 | A free lock has no waiters, and grants follow the order of arrival. |
| `MuxSafety.WaiterAdvances` | wasmpg/fifo.go:48-79 | A waiter leaves only by grant at the head or by its own withdrawal; until then each release and each withdrawal ahead moves it up by one and nothing moves it back. |
| `MuxSafety.JoinKeepsPosition` | wasmpg/fifo.go:27-44 | Somebody joining the queue moves nobody. |
| `MuxTrips.KeepsTrips` | wasmpg/conn.go:318-420 | Every step keeps what ownership, outcomes and rollbacks have to do with the calls made. |
| `MuxTrips.HeldExactly` | wasmpg/conn.go:351-376 | In every reachable state a connection between round trips holds the session if and only if it is not closing and the last call of all was its client's, brought a reply, and the reply's last ReadyForQuery was not I. |
| `MuxTrips.RollbackFollowsExactly` | wasmpg/conn.go:351-420 | Each rollback of the shim directly follows a call of its own connection's client: a writer's one that failed, or one left open on a closing connection, a closer's one left open. |
| `PgProto.ReadPut` | wasmpg/pgproto.go:178-180 | A 32-bit integer written big-endian reads back, wrap-around included. |
| `PgProto.CStringOf` | wasmpg/pgproto.go:160-167 | A C string is read up to its terminator and no further. |
| `PgProto.NextBackendExactly` | wasmpg/pgproto.go:292-304 | A frame is found exactly when the buffer starts with one encodeBackend can write within the size cap. |
| `PgProto.NextBackendPrefix` | wasmpg/pgproto.go:292-304 | More bytes behind a complete frame do not change it. |
| `PgProto.EncodedIsFrame` | wasmpg/pgproto.go:171-180 | What encodeBackend writes is one whole frame exactly when its length is within the accepted maximum. |
| `PgProto.FramesCover` | wasmpg/pgproto.go:292-304 | The frames of a buffer and its tail are the buffer. |
| `PgProto.FramesWellFormed` | wasmpg/pgproto.go:292-304 | Each is a whole frame, and the tail starts none. |
| `PgProto.FramesOfConcat` | wasmpg/pgproto.go:292-304 | Framing undoes concatenation of frames. |
| `PgProto.ScanLastReady` | wasmpg/pgproto.go:241-259 | The moving-index loop finds the status of the last ReadyForQuery frame before the first damage, or none. |
| `PgProto.LastReadyExactly` | wasmpg/pgproto.go:241-259 | The status of a reply is s exactly when some whole frame is the ReadyForQuery of s and none behind it, up to the damage, is a ReadyForQuery. |
| `PgProto.NotificationRoundTrip` | wasmpg/pgproto.go:265-270 | A notification decodes to itself exactly when neither channel nor payload holds a zero byte. |
| `PgProto.DecodesExactly` | wasmpg/pgproto.go:350-366 | A payload decodes to exactly the notification whose process id and two terminated texts it begins with. |
| `PgProto.NotificationBytes` | wasmpg/pgproto.go:265-270 | One notification, byte for byte. |
| `PgProto.SplitNotifications` | wasmpg/pgproto.go:329-348 | The loop returns the other frames in order with the unframed tail, and the decodable notifications in order. |
| `PgProto.StreamSplits` | wasmpg/pgproto.go:329-348 | Of any notifications among garbled ones and any other frames, exactly those notifications are found, each once and in order, and the other frames and the tail are left as they were. |
| `PgProto.CleanFrames` | wasmpg/pgproto.go:329-348 | The clean stream's frames are the non-notification frames of the raw one, with the same tail. |
| `PgProto.CleanIdempotent` | wasmpg/pgproto.go:329-348 | Cleaning twice is cleaning once, and finds nothing the second time. |
| `PgProto.CleanKeepsStatus` | wasmpg/pgproto.go:241-259 | The last status of the clean stream is that of the raw stream. |
| `PgProto.NextFrontendExactly` | wasmpg/pgproto.go:90-131 | In either phase a message is read exactly when the buffer starts with one that can be sent, and it is that one. |
| `PgProto.QueryRoundTrip` | wasmpg/pgproto.go:135-167 | A Query the shim frames itself reads back as its text exactly when the text holds no zero byte. |
| `PgProto.NextFrontendPrefix` | wasmpg/pgproto.go:90-131 | More bytes behind a complete message, or behind a framing error, change nothing. |
| `PgProto.LengthDecides` | wasmpg/pgproto.go:115-131 | The declared length decides between too small, too large and not yet complete. |
| `PgProto.StartupLengthDecides` | wasmpg/pgproto.go:90-108 | And so in the startup phase. |
| `PgProto.SqlExactly` | wasmpg/pgproto.go:135-158 | The text of a Query, and of a Parse behind its name, is found exactly between the zero bytes; any other message has none. |
| `WriteStream.WriteSide.Flush` | wasmpg/conn.go:199-207 | The batch is gone either way and reaches the backend only if the submit succeeds. |
| `WriteStream.WriteSide.HandleLocally` | wasmpg/conn.go:245-291 | The mutable write side does to each message what the specification says, answers and LISTEN operations included. |
| `WriteStream.WriteSide.Write` | wasmpg/conn.go:183-236 | The decode loop terminates and leaves the connection in the state the specification gives. |
| `WriteStream.DecodeAgrees` | wasmpg/conn.go:183-236 | Decoding with batching agrees with forwarding every message on its own, but for what a framing error drops. |
| `WriteStream.IdealSplit` | wasmpg/conn.go:183-236 | Reading a stream at once, or its beginning and then the rest, is the same. |
| `WriteStream.ChunksAgree` | wasmpg/conn.go:183-236 | Any sequence of writes agrees with reading their concatenation at once. |
| `WriteStream.ChunkInvariance` | wasmpg/conn.go:183-236 | When every submit succeeds, every way of cutting a well-framed stream into writes gives the same forwarded bytes, answers and LISTEN operations up to the close. |
| `WriteStream.IdealDoes` | wasmpg/conn.go:183-291 | A stream read at once does what its messages in front of the close say, and a framing error is answered last. |
| `WriteStream.StreamDoes` | wasmpg/conn.go:183-291 | However a well-framed stream is cut, the backend gets each message behind the startup phase up to the first Terminate once and byte for byte, each request for encryption is refused, the startup message answered, each LISTEN operation of a Query or Parse applied once, and only a CancelRequest in the startup phase or a Terminate after it closes. |
| `WriteStream.ErrorDoes` | wasmpg/conn.go:199-217 | One that is not well framed is closed with its error answered last, and a first part of its messages is sent. |
| `WriteStream.DownDoes` | wasmpg/conn.go:183-236 | While no submit succeeds nothing is sent, the rest is done as ever, and a Terminate closes only with nothing batched in front of it. |
| `WriteStream.WrittenLate` | wasmpg/conn.go:183-236 | One Write applies, behind a close, exactly the operations the rest of its bytes hold. |
| `WriteStream.FedLate` | wasmpg/conn.go:183-236 | However a stream is cut, what is applied behind its close is a first part of what is there. |
| `WriteStream.CutAtClose` | wasmpg/conn.go:183-189 | Cut at the message that closes it, a stream has nothing applied behind the close. |
| `WriteStream.LateHeard` | wasmpg/conn.go:183-291 | On a closed connection a Write still applies an operation exactly when one of the messages it reads commands it and no Terminate stops the reading first. |
| `WriteStream.BehindExactly` | wasmpg/conn.go:183-291 | So something is behind the close of a stream exactly when its messages there command it. |
| `WriteStream.BatchDropped` | wasmpg/conn.go:199-217 | A framing error met in one Write loses everything batched in it. |
| `WriteStream.BeforeError` | wasmpg/conn.go:199-217 | Up to a framing error the stream is well framed and read as such. |
| `WriteStream.InvarianceExactly` | wasmpg/conn.go:183-291 | When every submit succeeds, all ways of cutting a stream into writes agree, late LISTEN operations included, if and only if it is well framed or nothing was to be forwarded before its framing error, and no Query or Parse behind the message that closes it commands a LISTEN operation, before a framing error and before a Terminate that finds a batch. |
| `WriteStream.AppliesLate` | wasmpg/conn.go:245-291 | With one there, two ways of cutting the same stream differ. |
| `WriteStream.LosesItsBatch` | wasmpg/conn.go:199-217 | Otherwise two ways of cutting the same stream differ. |
| `WriteStream.SyncLost` | wasmpg/conn.go:199-217 | Startup, a Sync and a Query with a bad length: in one Write the Sync never reaches the backend, cut before the Query it does. |
| `Common.IndexOfFirst` | wasmpg/listen.go:246-250 | The search finds the first occurrence, or none is there. |
| `SqlLexer.SkipQuoted` | wasmpg/listen.go:213-226 | The skip ends where the character-by-character lexer is back at top level with nothing cut, at the first such place that is not between the halves of a doubled quote. |
| `SqlLexer.SkipDollarQuoted` | wasmpg/listen.go:231-251 | The same for a dollar sign: past the first occurrence of its tag behind an opening tag, the end when there is none, and one byte when no tag opens. |
| `SqlLexer.SkipLineComment` | wasmpg/listen.go:178-185 | The same for a line comment: past its first newline, or the end. |
| `SqlLexer.SkipBlockComment` | wasmpg/listen.go:188-195 | The same for a block comment, which does not nest: past the first closing mark, or the end. |
| `SqlLexer.FailedTag` | wasmpg/listen.go:231-251 | A dollar sign without a closing tag delimiter is plain text to the lexer too. |
| `SqlLexer.DelimiterEnds` | wasmpg/listen.go:231-251 | A body ends exactly behind the first occurrence of its delimiter. |
| `SqlLexer.SplitStatements` | wasmpg/listen.go:170-208 | The index loop cuts at exactly the top-level semicolons of the lexer. |
| `SqlLexer.JoinedPieces` | wasmpg/listen.go:170-208 | Joining what the lexer cuts, from any of its states, restores the text. |
| `SqlLexer.StatementsJoin` | wasmpg/listen.go:170-208 | Joining the statements with semicolons restores the input. |
| `Listen.DropLeading` | wasmpg/listen.go:141-161 | The loop drops white space and comments, and nothing else. |
| `Listen.SkipsPrefix` | wasmpg/listen.go:141-161 | What is left is a suffix of the text. |
| `Listen.SkipsAllLeading` | wasmpg/listen.go:141-161 | No white space and no comment is left in front of it. |
| `Listen.ParseIdentifier` | wasmpg/listen.go:97-123 | The loop reads a quoted identifier with its doubled quotes undone, or a bare one folded to lower case. |
| `Listen.ObserveListen` | wasmpg/listen.go:30-47 | The operations observed are those of the statements, in order. |
| `Listen.RejectionLosesNothing` | wasmpg/listen.go:30-47 | The cheap early return, no "listen" in the lowered text, never drops an operation. |
| `ListenText.GapSkips` | wasmpg/listen.go:138-163 | Any white space and comments in front of a token are skipped, and nothing more. |
| `ListenText.BareIdentifier` | wasmpg/listen.go:114-137 | A bare name up to the first byte that cannot belong to it is the channel, A to Z folded. |
| `ListenText.QuotesIdentifier` | wasmpg/listen.go:97-112 | A quoted name is the channel as it is, whatever quotes are in it. |
| `ListenText.SpokenParses` | wasmpg/listen.go:51-93 | A command is understood with its keyword in any case and white space and comments anywhere; LISTEN * asks for nothing. |
| `ListenText.LongerWord` | wasmpg/listen.go:84-93 | A longer word that begins like the keyword is no command. |
| `ListenText.ScriptCuts` | wasmpg/listen.go:170-253 | A script of commands and other statements, with literals, comments and dollar-quoted bodies in them, is cut into exactly its statements. |
| `ListenText.ScriptIsObserved` | wasmpg/listen.go:30-49 | What is observed of such a script is what its commands ask for, each once, in order, and nothing besides. |
| `ListenText.UnsettledSwallows` | wasmpg/listen.go:231-253 | Behind a bare name that opens a dollar quote nothing closes, nothing is observed. |
| `ListenText.DollarNameSwallows` | wasmpg/listen.go:231-253 | LISTEN a$$;LISTEN b registers the first channel only. |
| `ListenText.ScriptRoundTrip` | wasmpg/listen.go:30-49 | Any operations of non-empty names written down and observed are those operations. |
| `Routing.Mux.DialContext` | wasmpg/mux.go:200-218 | Refused exactly for a closed multiplexer or a spent budget; otherwise a new id is registered. |
| `Routing.Mux.UnregisterLocked` | wasmpg/mux.go:410-418 | The connection leaves the channel, and an entry that becomes empty goes. |
| `Routing.Mux.UnregisterEverywhere` | wasmpg/mux.go:400-407 | Ranging over the channels in any order removes the connection from all of them and leaves no empty entry. |
| `Routing.Mux.ApplyOp` | wasmpg/mux.go:377-395 | One LISTEN operation changes the tables as the specification says. |
| `Routing.Mux.ForgetConn` | wasmpg/mux.go:400-407 | A connection that goes leaves both tables. |
| `Routing.Mux.Shutdown` | wasmpg/conn.go:443-453 | A connection leaves the tables before its `done` is closed. |
| `Routing.Mux.Notify` | wasmpg/mux.go:227-244 | Exactly one frame is queued on each listener that is connected, and none anywhere else. |
| `Routing.Mux.Listeners` | wasmpg/mux.go:248-252 | The number of connections registered, open or not. |
| `Routing.RoutedIndex` | wasmpg/mux.go:377-418 | An operation changes its own connection on its own channels and nothing else, and leaves no empty entry. |
| `Routing.IndexIsHistory` | wasmpg/mux.go:377-418 | After any history the index holds a connection on a channel exactly when its own last word on the channel says so. |
| `Routing.StaysConnectedExactly` | wasmpg/mux.go:377-395 | Listeners stay connected through one event if and only if it is not a LISTEN by a connection that has gone. |
| `Routing.ConnectedExactly` | wasmpg/mux.go:377-418 | Listeners are connected throughout a whole history if and only if none of its events is a LISTEN by a connection gone by then. |
| `Routing.LateListenStaysRouted` | wasmpg/mux.go:377-395 | A concrete history in which a route outlives its connection. |
| `StaleRoutes.StaleExactly` | wasmpg/conn.go:278-287 | After its close a connection is routed on exactly the channels that the operations behind the close leave it on. |
| `StaleRoutes.LateExactly` | wasmpg/conn.go:183-291 | Any LISTEN operations written with a Terminate before them are all applied late, and none is when the Write is cut at the Terminate. |
| `StaleRoutes.LateListenLeavesRoute` | wasmpg/mux.go:248-252 | The bytes of a startup, a Terminate and a LISTEN: in one Write the route outlives the connection, in two it does not. |
| `Routing.BudgetHolds` | wasmpg/mux.go:200-218 | There are never more connections than the budget. |
| `Routing.ClosedForGood` | wasmpg/mux.go:200-285 | Once closed, the multiplexer stays closed and takes no connection. |
| `ReadQueue.ReadSide.Enqueue` | wasmpg/conn.go:106-122 | A delivery is appended whole unless the connection is closed. |
| `ReadQueue.ReadSide.Take` | wasmpg/conn.go:129-172 | The caller's array gets the next bytes in order, as many as fit of one frame, and the rest stays first. |
| `ReadQueue.KeepsInv` | wasmpg/conn.go:106-172 | Every step of deliverers, reader and closer keeps the read side's invariant. |
| `ReadQueue.NothingLost` | wasmpg/conn.go:106-172 | Bytes returned and bytes buffered are always the concatenation of the accepted deliveries. |
| `ReadQueue.PollReturns` | wasmpg/conn.go:129-170 | A Read with something pending returns at once as much as fits of the frame it has come to, and nothing of the next. |
| `ReadQueue.EmptyEnds` | wasmpg/conn.go:129-170 | With nothing pending it blocks, and after done it looks once more and reports the end. |
| `ReadQueue.LookFinds` | wasmpg/conn.go:129-170 | Looking once more, it takes up whatever has arrived. |
| `ReadQueue.InjectionIsAligned` | wasmpg/conn.go:106-122 | A delivery lands only behind a whole earlier delivery. |
| `ReadQueue.DrainsBeforeEnd` | wasmpg/conn.go:129-172 | A reader is told of the close only when everything accepted has been returned. |
| `ReadQueue.BlockedReaderIsWoken` | wasmpg/conn.go:106-172 | A reader blocked beside a non-empty queue has a wake-up waiting, or a deliverer about to post one. |
| `Deadline.Cell.BeginSet` | wasmpg/deadline.go:30-38 | A live timer is stopped; one that has fired makes the call wait for its callback. |
| `Deadline.Cell.FinishSet` | wasmpg/deadline.go:38-60 | A closed channel is replaced before a zero or future time is set, and an open one is closed for a past time. |
| `Deadline.Cell.RunCallback` | wasmpg/deadline.go:53 | A fired timer closes the channel that is current when its function runs. |
| `Deadline.KeepsInv` | wasmpg/deadline.go:30-60 | Every interleaving of set, timers and callbacks keeps the deadline's invariant. |
| `Deadline.NeverClosedTwice` | wasmpg/deadline.go:30-60 | No cancel channel is closed twice. |
| `Deadline.CallbackClosesItsOwn` | wasmpg/deadline.go:47-60 | A fired timer closes the channel it was armed for and never a replacement. |
| `Deadline.ExpiredExactly` | wasmpg/deadline.go:62-81 | With no timer pending the channel is closed exactly if the last time set was non-zero and past. |
| `Deadline.ReplacedChannelsAreClosed` | wasmpg/deadline.go:30-60 | Every channel that was replaced is closed, so nobody waits on it for ever. |
| `Deadline.SetIsReleased` | wasmpg/deadline.go:30-46 | A set that waits for a fired timer is always released by it. |
| `Determinism.BoundaryHidesItsWork` | analyzer/determinism/determinism.go:439-472 | The function values handed to a step boundary never influence the walk, nor does how the boundary is named. |
| `Determinism.BoundaryWalksTheRest` | analyzer/determinism/determinism.go:450-461 | Every other argument of it is walked, and nothing else. |
| `Determinism.WalkTells` | analyzer/determinism/determinism.go:366-494 | The walk reports exactly the operations, and names exactly the calls, that stand in the tree outside what step boundaries hide. |
| `Determinism.FoundExactly` | analyzer/determinism/determinism.go:383-494 | A go statement, a select, a range over a map with a variable in use, or a forbidden call that stands there is found, and nothing else. |
| `Determinism.CalledExactly` | analyzer/determinism/determinism.go:439-494 | And so for calls of functions of the module. |
| `Determinism.ReachesByWay` | analyzer/determinism/determinism.go:253-317 | A body reaches exactly the operations, by message and position, that some chain of calls standing openly leads to. |
| `Determinism.Scan` | analyzer/determinism/determinism.go:366-377 | The findings and the calls of a body are exactly those of one walk. |
| `Determinism.AddReason` | analyzer/determinism/determinism.go:324-332 | A reason is appended exactly when its message and position are new. |
| `Determinism.StepJustified` | analyzer/determinism/determinism.go:273-281 | A callee's reason with the callee in front is a real path of the caller and, when news to it, repeats no function of the package. |
| `Determinism.AddKeeps` | analyzer/determinism/determinism.go:281-283 | Recording it keeps every chain real and uses up room in a finite set of pairs. |
| `Determinism.MergeCallee` | analyzer/determinism/determinism.go:273-286 | After one call is merged the caller has every origin the callee had; a change makes progress. |
| `Determinism.Pass` | analyzer/determinism/determinism.go:270-287 | One pass in any map order is sound, makes progress if it changes anything, and if not the table is closed. |
| `Determinism.ClosedMissesNothing` | analyzer/determinism/determinism.go:265-287 | A closed table holds every reachable origin, however long the way and through whatever cycles. |
| `Determinism.Resolve` | analyzer/determinism/determinism.go:253-287 | The loop terminates and the table holds exactly the reachable origins, each with a real chain that repeats no function of the package. |
| `Determinism.ExportFacts` | analyzer/determinism/determinism.go:253-303 | The facts published are the non-empty entries of the exported functions. |
| `Determinism.PublishedExactly` | analyzer/determinism/determinism.go:289-303 | Published are exactly the exported functions that can reach something, each with all it can reach. |
| `Determinism.LocalIsTrue` | analyzer/determinism/determinism.go:305-317 | A chain that is real for a package and its imported facts is real in the whole program and visits no function twice. |
| `Determinism.TrueIsLocal` | analyzer/determinism/determinism.go:289-303 | What the whole program reaches, a package reaches through the facts of exported functions alone. |
| `Determinism.TableIsTrue` | analyzer/determinism/determinism.go:253-317 | A package's table is right about the whole program once its imported facts are. |
| `Determinism.AnalyzeModule` | analyzer/determinism/determinism.go:170-195 | Package by package in import order, the tables equal reachability in the call graph of the whole module, whatever the iteration order. |
| `Determinism.ReportBody` | analyzer/determinism/determinism.go:740-773 | The walk terminates, enters each body once, finishes all it enters, and reports only true paths from the entry. |
| `Determinism.ReportMissesNothing` | analyzer/determinism/determinism.go:740-773 | When it is over, every origin the entry can reach has been reported. |
| `Determinism.WalkIsExact` | analyzer/determinism/determinism.go:740-773 | The origins reported are exactly those reachable. |
| `Determinism.ReportArgument` | analyzer/determinism/determinism.go:684-716 | A literal, a function of the package and a function of another package each report exactly what they reach; anything else nothing. |
| `Determinism.ReportEntry` | analyzer/determinism/determinism.go:684-716 | A registration reports exactly the origins of its arguments. |
| `Determinism.ReporterAgrees` | analyzer/determinism/determinism.go:684-773 | For a named workflow the reporter and the fixed point agree on every origin. |
| `StateKeys.KeyRestores` | session/state.go:34-64 | A persisted key comes back byte for byte. |
| `StateKeys.ScopesByPrefix` | session/state.go:34-64 | app: and user: decide the scope and are dropped, temp: keys are not persisted, any other key is the session's own. |
| `StateKeys.PrefixDecides` | session/state.go:34-45 | Persistence and scope, said of a key's prefix. |
| `StateKeys.LessExactly` | session/rows.go:371-375 | Keys are ordered by the first character that differs. |
| `StateKeys.ScopeRestoresExactly` | session/state.go:34-64 | A row comes back as the row exactly for app and user rows and for session rows whose key carries no prefix. |
| `StateKeys.ColumnsDistinguish` | session/state.go:34-45 | Different keys get different columns. |
| `StateKeys.SortedKeys` | session/rows.go:371-375 | The keys collected in any map order come out in ascending order, each once. |
| `StateKeys.SortedListUnique` | session/rows.go:365-375 | That list is unique, so it does not depend on the map's order. |
| `SessionRows.EncodeParts` | session/rows.go:213-225 | Every part gets its row and its index, or the first nil part is named. |
| `SessionRows.EncodeActions` | session/rows.go:352-406 | The rows are those of the persisted keys in sorted order, and of the artifacts in sorted order. |
| `SessionRows.StateDocument` | session/service.go:588-609 | A new session's state becomes the rows of its persisted keys in sorted order. |
| `SessionRows.EncodeEvent` | session/rows.go:162-239 | Refused exactly for no event or a nil part; otherwise the rows of the event. |
| `SessionRows.EncodingIsDeterministic` | session/rows.go:365-403 | An event has only one encoding, whatever order its maps are iterated in. |
| `SessionRows.EventByColumn` | session/rows.go:162-211 | Every value of an event and its actions stands in the column of its name. |
| `SessionRows.PartByColumn` | session/rows.go:246-345 | And of a part; the columns of content it does not have are NULL. |
| `SessionRows.NullExactly` | session/rows.go:644-701 | By the type switch of isNil, a column is SQL NULL exactly for a nil of any type but that of the confirmations, whose nil becomes the text null; it reads back the same either way. |
| `SessionRows.OnlyConfirmationsWriteNull` | session/rows.go:650-701 | Nil confirmations are written as the text null, and no other column of the event, its parts or its actions ever is. |
| `SessionRows.PartRoundTrip` | session/rows.go:478-599 | A part survives its row: every nil stays nil and every empty value stays empty. |
| `SessionRows.DecodeActions` | session/rows.go:601-637 | The maps are built from their rows and made only when there are rows; a row without a document is the error. |
| `SessionRows.DecodeEvent` | session/rows.go:417-476 | The parts are decoded in the order given, and content exists exactly when there is a role. |
| `SessionLoad.StableSortSorts` | session/load.go:93-95 | Sorting sorts and loses nothing. |
| `SessionLoad.SortRestores` | session/load.go:93-95 | Sorting by index undoes any rearrangement of the rows. |
| `SessionLoad.EventRowsFromSession` | session/load.go:45-138 | Parts are sorted by index and converted; a missing actions row reads as the zero actions. |
| `SessionLoad.TravelledPart` | session/load.go:140-190 | A part decodes to the same value whether or not its row went through the database. |
| `SessionLoad.PartsRoundTrip` | session/load.go:93-104 | Parts come back in order and unchanged, whatever order their rows arrived in. |
| `SessionLoad.StateRoundTrip` | session/load.go:121-129 | A state delta comes back without its temporary keys; loading it fails exactly when a persisted key is null. |
| `SessionLoad.ArtifactsRoundTrip` | session/rows.go:629-634 | Artifact versions come back whatever order their rows arrived in. |
| `SessionLoad.DirectRoundTrip` | session/rows.go:417-637 | Encoding and decoding with no database in between gives every event back, less temporary keys, an empty delta as nil. |
| `SessionLoad.LoadsExactly` | session/load.go:45-138 | Given every table's rows in any order, the loader succeeds exactly when no persisted key is null, and then gives the event back, its time as held. |
| `SessionLoad.LoadedExactly` | session/rows.go:601-637 | What comes back: the persisted keys with their values, no map where no row was, everything else as it was. |
| `SessionLoad.MissingActions` | session/load.go:103-138 | An event without an actions row loads as one with no actions. |
| `SessionLoad.WholeMicroseconds` | migrate/tables/0001_agentiq_tables.sql:29 | A timestamptz gives the time of an event back exactly when that is in whole microseconds. |
| `SessionLoad.SessionFromRow` | session/service.go:537-583 | State keys get their prefixes back, events come in sequence order, and the first that fails to decode is the error. |
| `SessionLoad.StateRowsLoad` | session/service.go:546-552 | State rows in any order load as the state they are the rows of. |
| `SessionLoad.HistoryLoads` | session/service.go:554-580 | Events in any order, each with rows in any order, load in sequence order. |
| `SessionColumns.HeaderTaken` | session/rows.go:162-211 | The columns of the event row take its values exactly when its texts and documents are free of U+0000. |
| `SessionColumns.PartTaken` | session/rows.go:246-345 | Those of a part exactly when its index is an integer and its texts and documents are. |
| `SessionColumns.StateTaken` | session/rows.go:371-388 | Those of a delta exactly when its persisted keys and values are. |
| `SessionColumns.EscapesExactly` | migrate/sql/0002_append_event.sql:63-145 | What counts as the escape of U+0000: u0000 behind a backslash that is not escaped itself. |
| `SessionColumns.VersionTaken` | migrate/tables/0001_agentiq_tables.sql:12-19 | An artifact row takes the versions of 32 bits. |
| `SessionColumns.FitsExactly` | migrate/sql/0002_append_event.sql:63-145 | What the columns of all five tables take of an event, said of the event before it is encoded. |
| `SessionStore.AcceptsExactly` | migrate/sql/0002_append_event.sql:51-145 | An append is accepted exactly when a sequence number is left, the event row's texts and documents are free of U+0000, and the event is there already or its other rows fit too: no U+0000, part indexes and artifact versions in 32 bits, no persisted value null. An event already there changes nothing. |
| `SessionStore.RoundTrip` | session/service.go:406-433 | Whatever the store accepted comes back, less temporary keys, an empty delta as nil, its time to the nearest microsecond. |
| `SessionStore.NullValueIsRefused` | migrate/tables/0001_agentiq_tables.sql:105-113 | One event that encodes and decodes to itself and that the store refuses. |
| `SessionStore.WideVersionIsRefused` | migrate/tables/0001_agentiq_tables.sql:12-19 | So is one with an artifact version of 2147483648. |
| `SessionStore.ZeroCharacterIsRefused` | migrate/tables/0001_agentiq_tables.sql:49-81 | And one with U+0000 in the text of a part. |
| `SessionStore.HistoryStored` | migrate/sql/0002_append_event.sql:51-91 | After any appends the stored events are the first storable one of each id, in order and numbered from 1, while numbers last. |
| `SessionStore.SessionRoundTrip` | session/service.go:537-583 | Whatever was appended to a session, refusals and repetitions included, it loads, as the accepted events in append order, their times to the microsecond. |
| `Snapshots.CreateExactly` | migrate/sql/0003_session_functions.sql:46-92 | A session is created exactly when it is new and its persisted keys and values are free of U+0000 and not null, and its state then loads as given, less temporary keys. |
| `Snapshots.UpsertMirrors` | migrate/sql/0002_append_event.sql:147-154 | A new event does to the state rows what applying it does to a snapshot. |
| `Snapshots.AppendMirrorsExactly` | session/service.go:406-474 | After an append reported as stored, rows and snapshot are the same state if and only if the event was new or sets nothing the snapshot does not hold. |
| `Snapshots.StateMirrorsExactly` | session/service.go:406-474 | Over any appends, refusals and repetitions they are the same state all along if and only if no repetition sets a key to something else than the snapshot holds. |
| `Snapshots.EventsMirrorExactly` | session/service.go:442-474 | The snapshot's events are the stored ones if and only if no append was a repetition; with one there are more. |
| `Snapshots.RepetitionStrays` | session/service.go:442-474 | A key set to 1 and then to 2, and the first event appended again: the rows hold 2 and two events, the snapshot 1 and three. |
| `Snapshots.ReloadIsSnapshot` | session/service.go:537-553 | Reloading gives the state the accepted events left, which is the snapshot's persisted state exactly when the two are in step. |
| `SharedState.OverlayTracks` | session/service.go:524-528 | One more row keeps the newest value of every key: a later one replaces an equally old one, never a newer. |
| `SharedState.Newest` | session/service.go:505-530 | The nested loops hold for each key in scope the value and time of the row that decides it. |
| `SharedState.StoredSession.MergeSharedState` | session/service.go:500-535 | Each key in scope gets the value with the greatest time, the last in order on ties; every other key is left alone. |
| `SharedState.SharedKeysAgree` | session/service.go:490-535 | Two sessions of one application loaded from one result agree on every app key, and for one user on every user key. |
| `SharedState.SessionKeysStayPrivate` | session/service.go:516-523 | A session-scoped row of another session changes nothing. |
| `SharedHistory.ValueStands` | migrate/sql/0002_append_event.sql:147-154 | A session's row of a key holds the value and the time of the last of its changes that set the key. |
| `SharedHistory.AllKept` | migrate/sql/0002_append_event.sql:147-154 | After any creations and appends, refused and repeated ones included, the rows of every session hold exactly that of every key. |
| `SharedHistory.GetReturns` | session/service.go:490-535 | The state Get returns has exactly the persisted keys some accepted change set that reaches the session and user, each with the value of a change that stands in its session and is as new as any that stands. |
| `SharedHistory.LatestWins` | session/service.go:490-535 | Committed at increasing times, the last change of an app key in any session, of a user key in any of that user's, is what Get returns. |
| `SharedState.StoredSession.Apply` | session/service.go:462-474 | The snapshot gets the event and its whole delta, temporary keys included. |
| `SharedState.KeepSince` | session/service.go:297-305 | Compacting the slice in place leaves exactly the events at or after the time, in order. |
| `SharedState.Get` | session/service.go:293-308 | The time filter comes first and the count second. |
| `SharedState.SinceMembers` | session/service.go:297-305 | An event passes the filter exactly when it is not before the time. |
| `SharedState.WindowIsEnd` | session/service.go:293-308 | The window is an end of what passes the time filter, as long as a positive count allows; without a time everything passes. |
| `SharedState.WindowExactly` | session/service.go:293-308 | An event young enough with fewer than n young enough behind it is in the window, followed by exactly those. |
| `Migrate.Newest` | migrate/migrate.go:334-343 | The last file of the graph history that defines the graph. |
| `Migrate.ApplyGraph` | migrate/migrate.go:303-353 | Only the newest definition is applied, its Down first; no history or no definition is an error. |
| `Migrate.Apply` | migrate/migrate.go:244-294 | The imperative runner does to the database what the specification says, whatever happens to its statements. |
| `Migrate.RecordIsSafe` | migrate/migrate.go:281-291 | Recording the next migration after applying it takes the ledger one further along the order. |
| `Migrate.LoopIsSafe` | migrate/migrate.go:281-291 | Wherever the loop is cut off the database is safe, and if it is not cut off everything is recorded. |
| `Migrate.RunIsSafe` | migrate/migrate.go:244-294 | So is one whole run. |
| `Migrate.CrashSafe` | migrate/migrate.go:244-294 | From an empty database, over any number of runs cut off anywhere: the ledger is a prefix of tables-then-own, everything in it was applied before it was recorded, and nothing recorded is ever applied again. |
| `Migrate.TablesComeFirst` | migrate/migrate.go:252-291 | Over any runs from an empty database, a hand-written migration behind the bootstrap is applied only with every table migration on record, and in either history one is applied only with all earlier ones on record. |
| `Migrate.LedgerHoldsTablesFirst` | migrate/migrate.go:252-291 | The ledger holds a first part of the tables, and of the hand-written ones any only with all the tables. |
| `Migrate.LedgerReaches` | migrate/migrate.go:275-291 | With k migrations on it, it reaches that far into the one history and then into the other. |
| `Migrate.BootstrapFirst` | migrate/migrate.go:244-251 | The bootstrap takes effect before anything else, and without it in its place nothing does. |
| `Migrate.SettledRun` | migrate/migrate.go:244-353 | With everything recorded a run issues only the bootstrap and the newest graph's Down and Up, in that order, all of them if it succeeds. |
| `Migrate.SettledForever` | migrate/migrate.go:244-353 | After that, over any number of runs, the ledger never changes and nothing else takes effect. |
| `Migrate.SuccessSettles` | migrate/migrate.go:244-294 | One reported success records every migration. |
| `Migrate.SucceedsExactly` | migrate/migrate.go:244-353 | A run reports success if and only if some file defines the graph and every statement it issues is done: two for each migration not yet recorded, and four besides. |
| `Migrate.RunExactly` | migrate/migrate.go:244-294 | One run from a safe state, whatever happens to its statements: where the ledger ends, what is left applied but unrecorded, and whether a migration is repeated. |
| `Migrate.RunAppliesOnce` | migrate/migrate.go:281-291 | A run repeats a migration if and only if the first unrecorded one was applied before it and its statement takes effect again. |
| `Migrate.RunDanglesExactly` | migrate/migrate.go:285-290 | A run leaves a migration applied but unrecorded if and only if its first fault falls between the two, or comes before it gets to one that was so already. |
| `Migrate.SuccessRepeats` | migrate/migrate.go:281-291 | A run that succeeds from such a state has applied that migration twice. |
| `Migrate.EachAppliedOnce` | migrate/migrate.go:244-294 | Over any number of runs from an empty database no migration is applied twice if and only if no run, finding the first unrecorded one applied already, gets as far as applying it again. |
| `Migrate.CutBeforeRecordAppliesTwice` | migrate/migrate.go:285-290 | The shortest example of that: one migration, cut off before its record, and a second run. |
| `Migrate.MovesExactly` | migrate/migrate.go:281-291 | While a migration is unrecorded, a run changes the ledger exactly when it applies that one without an error and its record takes effect, and succeeds only then. |
| `Migrate.StuckExactly` | migrate/migrate.go:281-291 | Over any number of runs the ledger is stuck if and only if no run does. |
| `Migrate.UnrepeatableIsStuck` | migrate/migrate.go:285-287 | A migration left unrecorded and refused when applied again fails every later run, and nothing behind it is ever applied. |
| `Goose.MarkersApart` | migrate/migrate.go:188-204 | The two markers never overlap, so the slice between them is always within bounds. |
| `Goose.SplitExactly` | migrate/migrate.go:187-212 | A file of any text and two directions splits back into them if and only if no marker stands in that text and no Down marker in the Up text. |
| `Goose.FailsExactly` | migrate/migrate.go:187-212 | A missing marker and markers in the wrong order are told apart, exactly. |
| `Goose.BlankFails` | migrate/migrate.go:205-211 | A direction of nothing but white space is a fault of its own. |
| `Goose.TrimsExactly` | migrate/migrate.go:203-204 | Only white space is trimmed away, and all of it. |

## Left out

- The backend behind exec: the real one may return early when a context is cancelled; the model's returns only when the backend is done.
- A reply that ends idle and a following message that leaves half a batch open in the same reply: the last ReadyForQuery is taken as the truth.
- The start of a close is possible at any moment, also in the middle of the connection's own Write; the step system allows more interleavings than the source, never fewer.
- Deadline.Cell.BeginSet: `set` blocks halfway through on a channel another goroutine closes, so the class has one method for each stretch of it; the wait itself is the step between them, and the clock is the argument.
- The bytes of the startup handshake and of error responses: answers are a datatype; only their place in the stream is modelled.
- Routing.Mux.DialContext: does not model the cancelled context or the handshake bytes, and ids are unbounded where the source's are 32-bit.
- Error message texts, and the cleanup functions of operation contexts.
- WriteStream.ChunkInvariance: is stated for submits that succeed; a failed submit ends its Write, and WriteStream.WriteSide.Write says in which state.
- Identifier folding is ASCII; the source folds with strings.ToLower.
- Determinism: resolution of a call to its function, the lists of forbidden functions and the module prefix are given with the tree.
- Determinism.ExportFacts: does not model the sorting of a fact's reasons, which rearranges them only, nor the rendering of a chain's functions as names.
- Determinism.ReportBody: does not model the call site a report is attached to.
- SessionRows: JSON, base64 and duration texts are opaque inverse pairs; a column written by something else than the encoder is not modelled.
- SessionRows.EncodeEvent: fields of the event that have no column are not in the model, nor is the audio transcription column, which nothing writes; a nil and an empty slice of parts are one value.
- SessionLoad: which of two nearest microseconds a time is stored as is left open; the generated client is modelled as rows given back in any order.
- SessionStore: of the SQL functions, create_session and append_event are modelled as far as keys, column types, NOT NULL and upserts decide; delete_session, partial events, which are dropped before the store, and two transactions at once are not.
- SessionStore.AcceptsExactly: does not model limits of size, of an index entry or a document, years a timestamptz or RFC 3339 cannot hold, or strings that are not Unicode, which json.Marshal rewrites.
- SharedHistory.GetReturns: takes the session's rows and the shared rows from one moment; Get reads them one after the other.
- SharedState.SharedKeysAgree: the session's own state rows are assumed to be among the shared ones of the same result; of a stored history SharedHistory proves it.
- Migrate: the content of the statements and reading the embedded files; two runners at once, which the source does not support either.
- wasmpg/pglite_js.go, demo, dbosadk, workflow, model, cmd and tools: adapters over systems that cannot be seen, or plumbing.
