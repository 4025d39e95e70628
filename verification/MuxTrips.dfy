/** What a connection keeps the session for, and what the shim rolls back for, read off the calls made. */
module MuxTrips {
  import opened Common
  import opened Fifo
  import opened Hold
  import opened Multiplexer
  import opened MuxSafety
  import PgProto

  /** The reply does not end with the session idle: its last ReadyForQuery, if any, says something else. */
  predicate Unfinished(result: ExecResult) {
    result.Reply? && PgProto.LastReadyForQuery(result.raw) != Some(73)  // 'I'
  }

  /** The last call was the client's, made by connection c. */
  predicate LastBy(log: seq<Call>, c: nat) {
    log != [] && log[|log| - 1].conn == c && log[|log| - 1].purpose == Client
  }

  /** And its reply left something unfinished. */
  predicate LeftOpen(log: seq<Call>, c: nat) {
    LastBy(log, c) && Unfinished(log[|log| - 1].result)
  }

  predicate WritersRollback(w: Writer) {
    w == RollingBack || w == InRollback
  }

  predicate ClosersRollback(k: Closer) {
    k == CloserRollingBack || k == CloserInRollback
  }

  /** What a writer rolls back for: a call that failed, or one left open on a connection that is closing. */
  predicate OwesRollback(result: ExecResult, closing: bool) {
    result.Failed? || (Unfinished(result) && closing)
  }

  predicate TripOk(c: nat, k: Conn, log: seq<Call>) {
    && (!InTrip(k.writer) ==> (k.hold.held <==> !k.hold.closing && LeftOpen(log, c)))
    && (k.writer.Ending? ==> LastBy(log, c) && k.writer.outcome == OutcomeOf(log[|log| - 1].result))
    && (WritersRollback(k.writer) ==> LastBy(log, c) && OwesRollback(log[|log| - 1].result, k.hold.closing))
    && (ClosersRollback(k.closer) ==> LeftOpen(log, c))
  }

  predicate TripsOk(s: State) {
    forall c :: c in s.conns ==> TripOk(c, s.conns[c], s.log)
  }

  /** A rollback follows directly on the call it is for. */
  predicate FollowsCall(log: seq<Call>, i: nat)
    requires i < |log|
  {
    match log[i].purpose
    case Client => true
    case WriterRollback => i > 0 && LastBy(log[..i], log[i].conn) && OwesRollback(log[i - 1].result, log[i].closing)
    case CloserRollback => i > 0 && LeftOpen(log[..i], log[i].conn)
  }

  predicate RollbacksFollow(log: seq<Call>) {
    forall i :: 0 <= i < |log| ==> FollowsCall(log, i)
  }

  // ---- Every step keeps it ----

  /** How the outcome of endRoundTrip reads a result. */
  lemma OutcomeSays(result: ExecResult)
    ensures OutcomeOf(result) == SessionUnknown <==> result.Failed?
    ensures OutcomeOf(result) == SessionInTx <==> Unfinished(result)
  {
  }

  /** A step that makes no call and changes one connection. */
  lemma QuietTrips(s: State, s': State, c: nat)
    requires TripsOk(s) && c in s.conns && s'.log == s.log && s'.conns.Keys == s.conns.Keys
    requires forall d :: d in s.conns && d != c ==> s'.conns[d] == s.conns[d]
    requires TripOk(c, s'.conns[c], s.log)
    ensures TripsOk(s')
  {
    hide TripOk;
  }

  /** The owner of the session calls: nobody else holds it, ends a trip or rolls back. */
  lemma CallTrips(s: State, c: nat, call: Call, k: Conn)
    requires Inv(s) && TripsOk(s) && c in s.conns && call.conn == c
    requires s.token != Free && s.token.conn == c
    requires TripOk(c, k, s.log + [call])
    ensures forall d :: d in s.conns ==> TripOk(d, if d == c then k else s.conns[d], s.log + [call])
  {
    hide OrderOk, LogOk, QueueOk, SessionOk, Unfinished;
    forall d | d in s.conns && d != c ensures TripOk(d, s.conns[d], s.log + [call]) {
      assert ConnOk(d, s.conns[d], s.lock, s.token, s.session);
      assert TripOk(d, s.conns[d], s.log);
    }
  }

  /** One more call, which follows on what it is for. */
  lemma FollowsMore(log: seq<Call>, call: Call)
    requires RollbacksFollow(log) && FollowsCall(log + [call], |log|)
    ensures RollbacksFollow(log + [call])
  {
    hide LastBy, LeftOpen, OwesRollback;
    var more := log + [call];
    forall i | 0 <= i < |more| ensures FollowsCall(more, i) {
      if i < |log| {
        assert more[..i] == log[..i] && more[i] == log[i];
        assert FollowsCall(log, i);
      }
    }
  }

  /** The connection whose call has returned. */
  lemma ReturnTrip(s: State, t: Step, call: Call)
    requires Inv(s) && TripsOk(s) && Enabled(s, t) && IsCall(t) && t.c in Next(s, t).conns
    requires Next(s, t).log == s.log + [call] && call.conn == t.c
    ensures s.token != Free && s.token.conn == t.c
    ensures TripOk(t.c, Next(s, t).conns[t.c], s.log + [call])
    ensures FollowsCall(s.log + [call], |s.log|)
  {
    hide OrderOk, LogOk, QueueOk, SessionOk, Unfinished, OutcomeOf;
    var c, k := t.c, s.conns[t.c];
    assert ConnOk(c, k, s.lock, s.token, s.session) && TripOk(c, k, s.log);
    hide ConnsOk, TripsOk;
    assert (s.log + [call])[..|s.log|] == s.log;
  }

  lemma ReturnTrips(s: State, t: Step)
    requires Inv(s) && TripsOk(s) && RollbacksFollow(s.log) && Enabled(s, t) && IsCall(t)
    ensures TripsOk(Next(s, t)) && RollbacksFollow(Next(s, t).log)
  {
    CallLogged(s, t);
    var c, s' := t.c, Next(s, t);
    var call := s'.log[|s.log|];
    hide Inv, Enabled, Next, TripOk, RollbacksFollow, FollowsCall;
    ReturnTrip(s, t, call);
    CallTrips(s, c, call, s'.conns[c]);
    FollowsMore(s.log, call);
  }

  lemma CallLogged(s: State, t: Step)
    requires Enabled(s, t) && IsCall(t)
    ensures var s' := Next(s, t);
      && t.c in s.conns && s'.conns.Keys == s.conns.Keys
      && |s'.log| == |s.log| + 1 && s'.log == s.log + [s'.log[|s.log|]] && s'.log[|s.log|].conn == t.c
      && forall d :: d in s.conns && d != t.c ==> s'.conns[d] == s.conns[d]
  {
    hide SessionOutcome;
  }

  lemma EndTrips(s: State, c: nat)
    requires Inv(s) && TripsOk(s) && Enabled(s, End(c))
    ensures TripsOk(Next(s, End(c)))
  {
    hide OrderOk, LogOk, QueueOk, SessionOk, Unfinished, OutcomeOf;
    var k := s.conns[c];
    assert ConnOk(c, k, s.lock, s.token, s.session) && TripOk(c, k, s.log);
    OutcomeSays(s.log[|s.log| - 1].result);
    QuietTrips(s, Next(s, End(c)), c);
  }

  predicate IsCall(t: Step) {
    t.ExecReturn? || t.RollbackReturn? || t.CloserRollbackReturn?
  }

  /** What any other step does outside its connection. */
  lemma OthersStay(s: State, t: Step)
    requires Enabled(s, t) && !t.Dial? && !IsCall(t)
    ensures t.c in s.conns && Next(s, t).log == s.log && Next(s, t).conns.Keys == s.conns.Keys
    ensures forall d :: d in s.conns && d != t.c ==> Next(s, t).conns[d] == s.conns[d]
  {
    hide SessionOutcome, Without;
  }

  lemma WriterTrip(s: State, t: Step)
    requires Inv(s) && TripsOk(s) && Enabled(s, t) && !t.Dial? && !t.End? && !IsCall(t) && ByWriterOf(t, t.c)
    ensures TripOk(t.c, Next(s, t).conns[t.c], s.log)
  {
    hide OrderOk, LogOk, QueueOk, SessionOk, OutcomeOf, LastBy, LeftOpen, OwesRollback, Without;
    var c, k := t.c, s.conns[t.c];
    assert ConnOk(c, k, s.lock, s.token, s.session) && TripOk(c, k, s.log);
    hide ConnsOk, TripsOk;
  }

  lemma CloserTrip(s: State, t: Step)
    requires Inv(s) && TripsOk(s) && Enabled(s, t) && !t.Dial? && !IsCall(t) && !ByWriterOf(t, t.c)
    ensures TripOk(t.c, Next(s, t).conns[t.c], s.log)
  {
    hide OrderOk, LogOk, QueueOk, SessionOk, OutcomeOf, LastBy, LeftOpen, Unfinished, Without;
    var c, k := t.c, s.conns[t.c];
    assert ConnOk(c, k, s.lock, s.token, s.session) && TripOk(c, k, s.log);
    hide ConnsOk, TripsOk;
  }

  lemma OtherTrips(s: State, t: Step)
    requires Inv(s) && TripsOk(s) && Enabled(s, t) && !t.Dial? && !t.End? && !IsCall(t)
    ensures TripsOk(Next(s, t)) && Next(s, t).log == s.log
  {
    hide Inv, TripsOk, TripOk, Enabled, Next;
    OthersStay(s, t);
    if ByWriterOf(t, t.c) {
      WriterTrip(s, t);
    } else {
      CloserTrip(s, t);
    }
    QuietTrips(s, Next(s, t), t.c);
  }

  /** A new connection has made no call. */
  lemma DialTrips(s: State)
    requires Inv(s) && TripsOk(s) && forall i :: 0 <= i < |s.log| ==> s.log[i].conn in s.conns
    ensures TripsOk(DoDial(s))
  {
    hide OrderOk, LogOk, QueueOk, SessionOk, Unfinished;
  }

  predicate MadeByConns(s: State) {
    forall i :: 0 <= i < |s.log| ==> s.log[i].conn in s.conns
  }

  predicate TripInv(s: State) {
    TripsOk(s) && RollbacksFollow(s.log) && MadeByConns(s)
  }

  lemma KeepsTrips(s: State, t: Step)
    requires Inv(s) && TripInv(s) && Enabled(s, t)
    ensures TripInv(Next(s, t))
  {
    hide Inv, TripsOk, RollbacksFollow;
    if t.Dial? {
      DialTrips(s);
    } else if t.End? {
      EndTrips(s, t.c);
    } else if IsCall(t) {
      ReturnTrips(s, t);
    } else {
      OtherTrips(s, t);
    }
  }

  lemma {:induction false} RunKeepsTrips(s: State, ts: seq<Step>)
    requires Inv(s) && TripInv(s) && Runs(s, ts)
    ensures TripInv(After(s, ts))
    decreases |ts|
  {
    hide Inv, TripInv;
    if ts != [] {
      KeepsInv(s, ts[0]);
      KeepsTrips(s, ts[0]);
      RunKeepsTrips(Next(s, ts[0]), ts[1..]);
    }
  }

  lemma ReachableTrips(s: State)
    requires Reachable(s)
    ensures Inv(s) && TripInv(s)
  {
    var pid: nat, ts: seq<Step> :| Runs(Init(pid), ts) && s == After(Init(pid), ts);
    InitInv(pid);
    RunKeepsTrips(Init(pid), ts);
    ReachableInv(s);
  }

  // ---- What follows ----

  /**
   * In every reachable state, between its round trips: a connection holds the session if and only if it is not
   * closing and the last call of all was its client's, brought a reply, and the reply's last ReadyForQuery was
   * not 'I'. After an idle reply, a failure or a rollback the session is free for the next.
   */
  lemma HeldExactly(s: State, c: nat)
    requires Reachable(s) && c in s.conns && s.conns[c].writer == Resting
    ensures s.conns[c].hold.held <==>
      && !s.conns[c].hold.closing
      && s.log != [] && s.log[|s.log| - 1].conn == c && s.log[|s.log| - 1].purpose == Client
      && s.log[|s.log| - 1].result.Reply? && PgProto.LastReadyForQuery(s.log[|s.log| - 1].result.raw) != Some(73)
  {
    ReachableTrips(s);
    hide Inv;
    assert TripOk(c, s.conns[c], s.log);
  }

  /**
   * In every reachable state each rollback of the shim follows directly on a call of its own connection's
   * client. A writer rolls back after a call that failed, or one whose reply was not idle on a connection that
   * was closing; a closer after one whose reply was not idle.
   */
  lemma RollbackFollowsExactly(s: State, i: nat)
    requires Reachable(s) && i < |s.log| && s.log[i].purpose != Client
    ensures i > 0 && s.log[i - 1].conn == s.log[i].conn && s.log[i - 1].purpose == Client
    ensures var result := s.log[i - 1].result;
      var open := result.Reply? && PgProto.LastReadyForQuery(result.raw) != Some(73);
      if s.log[i].purpose == WriterRollback then result.Failed? || (open && s.log[i].closing) else open
  {
    ReachableTrips(s);
    hide Inv;
    assert FollowsCall(s.log, i);
    assert s.log[..i][i - 1] == s.log[i - 1];
  }
}
