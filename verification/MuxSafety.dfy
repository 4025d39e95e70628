/** What every step of the multiplexer keeps, and what therefore holds of every run. */
module MuxSafety {
  import opened Common
  import opened Fifo
  import opened Hold
  import opened Multiplexer

  // ---- The invariant ----

  /** The writer owns the lock without it being recorded in hold.held. */
  predicate WriterOwns(granted: set<Waiter>, w: Writer) {
    match w
    case Queued(ch) => ch in granted
    case GivingUp(ch) => ch in granted
    case Granted => true
    case RollingBack => true
    case InRollback => true
    case Releasing => true
    case _ => false
  }

  predicate CloserOwns(k: Closer) {
    k.CloserRollingBack? || k.CloserInRollback? || k.CloserReleasing?
  }

  /** A round trip is between beginRoundTrip and endRoundTrip. */
  predicate InTrip(w: Writer) {
    w.Ready? || w.Executing? || w.Ending?
  }

  predicate Waiting(w: Writer) {
    w.Queued? || w.GivingUp?
  }

  /** Where one connection's flags, writer and closer must agree with the shared state. */
  predicate ConnOk(c: nat, k: Conn, lock: LockState, token: Token, session: Session) {
    && (k.hold.held <==> token == Recorded(c))
    && (WriterOwns(lock.granted, k.writer) <==> token == WithWriter(c))
    && (CloserOwns(k.closer) <==> token == WithCloser(c))
    && (k.hold.inFlight <==> InTrip(k.writer))
    && (k.hold.inFlight ==> k.hold.held)
    && (k.hold.closing <==> CloserOwns(k.closer) || k.closer.Closed?)
    && (k.hold.closing && !k.hold.inFlight ==> !k.hold.held)
    && (Waiting(k.writer) ==> k.writer.w.conn == c && (k.writer.w in lock.waiters <==> k.writer.w !in lock.granted))
    && (k.writer.Acquiring? || Waiting(k.writer) ==> !k.hold.held)
    && (k.writer == Ending(SessionIdle) ==> session == Idle)
  }

  predicate ConnsOk(s: State) {
    forall c :: c in s.conns ==> ConnOk(c, s.conns[c], s.lock, s.token, s.session)
  }

  /** The lock is held exactly when its ownership is somewhere, and is never free with waiters. */
  predicate LockOk(s: State) {
    && (s.lock.held <==> s.token != Free)
    && (s.token == Free ==> s.lock.waiters == [])
    && (s.token != Free ==> s.token.conn in s.conns)
  }

  predicate QueueOk(s: State) {
    forall w :: w in s.lock.waiters ==>
      w.conn in s.conns && (s.conns[w.conn].writer == Queued(w) || s.conns[w.conn].writer == GivingUp(w))
  }

  /** Arrival numbers: along the queue, along the grants, and every grant before every waiter. */
  predicate OrderOk(lock: LockState, nextTicket: nat, grants: seq<nat>) {
    && InArrivalOrder(lock.waiters)
    && (forall w :: w in lock.waiters ==> w.ticket < nextTicket)
    && (forall w :: w in lock.granted ==> w.ticket < nextTicket)
    && (forall i, j :: 0 <= i < j < |grants| ==> grants[i] < grants[j])
    && (forall g :: g in grants ==> g < nextTicket)
    && (forall g, w :: g in grants && w in lock.waiters ==> g < w.ticket)
  }

  /** A ROLLBACK of the shim that did not end the transaction. */
  predicate RollbackFailed(call: Call) {
    call.Rollback() && call.after == Busy
  }

  /** It was the last call. */
  predicate Stranded(log: seq<Call>) {
    log != [] && RollbackFailed(log[|log| - 1])
  }

  /** Outside a transaction, except where the owner is inside one or about to roll back, or a rollback failed. */
  predicate SessionOk(s: State) {
    s.session == Busy && !Stranded(s.log) ==>
      match s.token
      case Free => false
      case Recorded(_) => true
      case WithWriter(c) => c in s.conns && (s.conns[c].writer == RollingBack || s.conns[c].writer == InRollback)
      case WithCloser(c) =>
        c in s.conns && (s.conns[c].closer == CloserRollingBack || s.conns[c].closer == CloserInRollback)
  }

  /** The log is one session's history, and changes connection only where the session is idle or the shim's own
      rollback has just failed. */
  predicate LogOk(log: seq<Call>, session: Session, token: Token) {
    && (log == [] ==> session == Idle)
    && (log != [] ==> log[0].before == Idle && log[|log| - 1].after == session)
    && Chained(log) && SwitchesAfterRollback(log)
    && (session == Busy && !Stranded(log) ==> token != Free && log[|log| - 1].conn == token.conn)
  }

  /** Backend PIDs are handed out in increasing order, so a new one is unused. */
  predicate PidsOk(s: State) {
    forall c :: c in s.conns ==> c <= s.nextPid
  }

  predicate Core(s: State) {
    ConnsOk(s) && LockOk(s) && QueueOk(s) && SessionOk(s) && PidsOk(s)
  }

  predicate Inv(s: State) {
    Core(s) && OrderOk(s.lock, s.nextTicket, s.grants) && LogOk(s.log, s.session, s.token)
  }

  lemma InitInv(pid: nat)
    ensures Inv(Init(pid))
  {
  }

  // ---- Every step keeps it ----

  /** One more grant, later than all before it and earlier than everyone waiting. */
  lemma GrantsExtend(ws: seq<Waiter>, grants: seq<nat>, t: nat)
    requires forall i, j :: 0 <= i < j < |grants| ==> grants[i] < grants[j]
    requires forall g :: g in grants ==> g < t
    requires forall w :: w in ws ==> t < w.ticket
    ensures forall i, j :: 0 <= i < j < |grants + [t]| ==> (grants + [t])[i] < (grants + [t])[j]
    ensures forall g :: g in grants + [t] ==> g <= t
    ensures forall g, w :: g in grants + [t] && w in ws ==> g < w.ticket
  {
    forall i, j | 0 <= i < j < |grants + [t]| ensures (grants + [t])[i] < (grants + [t])[j] {
      assert grants[i] in grants;
    }
  }

  /** A request takes the newest number: it is granted or queued behind everyone before it. */
  lemma AskKeepsOrder(lock: LockState, w: Waiter, grants: seq<nat>)
    requires OrderOk(lock, w.ticket, grants)
    requires !lock.held ==> lock.waiters == []
    ensures OrderOk(lock.Ask(w), w.ticket + 1, if lock.held then grants else grants + [w.ticket])
    ensures w !in lock.waiters && w !in lock.granted
    ensures lock.held ==> forall v :: v in lock.Ask(w).waiters <==> v in lock.waiters || v == w
  {
    if lock.held {
      assert forall v :: v in lock.Ask(w).waiters <==> v in lock.waiters || v == w;
    } else {
      GrantsExtend([], grants, w.ticket);
    }
  }

  /** The oldest waiter is granted: later than every earlier grant, earlier than everyone left. */
  lemma ReleaseKeepsOrder(lock: LockState, nextTicket: nat, grants: seq<nat>)
    requires OrderOk(lock, nextTicket, grants) && lock.waiters != []
    ensures OrderOk(lock.Release(), nextTicket, grants + [lock.waiters[0].ticket])
    ensures forall v :: v in lock.waiters <==> v == lock.waiters[0] || v in lock.Release().waiters
    ensures lock.waiters[0] !in lock.Release().waiters
  {
    var w, ws := lock.waiters[0], lock.waiters[1..];
    assert lock.waiters == [w] + ws;
    assert forall v :: v in lock.waiters <==> v == w || v in ws;
    assert forall v :: v in ws ==> w.ticket < v.ticket;
    GrantsExtend(ws, grants, w.ticket);
  }

  lemma WithdrawKeepsOrder(lock: LockState, w: Waiter, nextTicket: nat, grants: seq<nat>)
    requires OrderOk(lock, nextTicket, grants)
    ensures OrderOk(lock.Withdraw(w), nextTicket, grants)
    ensures forall v :: v in lock.Withdraw(w).waiters <==> v in lock.waiters && v != w
  {
    WithoutOrdered(lock.waiters, w);
  }

  /** Ownership may move inside one connection at any time, and to another when the session is idle. */
  lemma LogFollows(log: seq<Call>, session: Session, token: Token, token': Token)
    requires LogOk(log, session, token)
    requires session == Idle || Stranded(log) || (token != Free && token' != Free && token'.conn == token.conn)
    ensures LogOk(log, session, token')
  {
  }

  /** A call by whoever owns the session extends the log, wherever the session stood. */
  lemma LogExtends(log: seq<Call>, session: Session, token: Token, call: Call)
    requires LogOk(log, session, token)
    requires token != Free && call.conn == token.conn && call.before == session
    ensures LogOk(log + [call], call.after, token)
  {
  }

  /** A writer that moves without gaining, losing or queueing for anything. */
  lemma WriterMoves(s: State, c: nat, w: Writer)
    requires Inv(s) && c in s.conns
    requires WriterOwns(s.lock.granted, w) == WriterOwns(s.lock.granted, s.conns[c].writer)
    requires InTrip(w) == InTrip(s.conns[c].writer) && !w.Acquiring? && !w.Ending?
    requires Waiting(w) ==> Waiting(s.conns[c].writer) && w.w == s.conns[c].writer.w
    requires Waiting(s.conns[c].writer) && !Waiting(w) ==> s.conns[c].writer.w !in s.lock.waiters
    requires s.conns[c].writer == RollingBack || s.conns[c].writer == InRollback ==> w == RollingBack || w == InRollback
    ensures Inv(SetWriter(s, c, w))
  {
    hide OrderOk, LogOk;
  }

  lemma CloserMoves(s: State, c: nat, k: Closer)
    requires Inv(s) && c in s.conns
    requires CloserOwns(k) == CloserOwns(s.conns[c].closer)
    requires k.Closed? == s.conns[c].closer.Closed?
    requires s.conns[c].closer == CloserRollingBack || s.conns[c].closer == CloserInRollback
      ==> k == CloserRollingBack || k == CloserInRollback
    ensures Inv(SetCloser(s, c, k))
  {
    hide OrderOk, LogOk;
  }

  lemma DialKeeps(s: State)
    requires Inv(s)
    ensures Inv(DoDial(s))
  {
    hide OrderOk, LogOk;
  }

  lemma BeginKeeps(s: State, c: nat)
    requires Inv(s) && c in s.conns && s.conns[c].writer == Resting
    ensures Inv(DoBegin(s, c))
  {
    hide OrderOk, LogOk;
  }

  lemma AcquireFreeKeeps(s: State, c: nat)
    requires Inv(s) && c in s.conns && s.conns[c].writer == Acquiring && !s.lock.held
    ensures Inv(DoAcquire(s, c))
  {
    AskKeepsOrder(s.lock, Waiter(c, s.nextTicket), s.grants);
    LogFollows(s.log, s.session, s.token, WithWriter(c));
    hide OrderOk, LogOk;
  }

  lemma AcquireQueuedKeeps(s: State, c: nat)
    requires Inv(s) && c in s.conns && s.conns[c].writer == Acquiring && s.lock.held
    ensures Inv(DoAcquire(s, c))
  {
    AskKeepsOrder(s.lock, Waiter(c, s.nextTicket), s.grants);
    hide OrderOk, LogOk;
  }

  lemma AbandonKeeps(s: State, c: nat)
    requires Inv(s) && c in s.conns && s.conns[c].writer.GivingUp?
    ensures Inv(DoAbandon(s, c))
  {
    var w := s.conns[c].writer.w;
    WithdrawKeepsOrder(s.lock, w, s.nextTicket, s.grants);
    hide OrderOk, LogOk, Without;
    if w in s.lock.waiters {
      assert ConnsOk(DoAbandon(s, c));
    } else {
      WriterMoves(s, c, Releasing);
    }
  }

  lemma RecordKeeps(s: State, c: nat)
    requires Inv(s) && c in s.conns && s.conns[c].writer == Granted
    ensures Inv(DoRecord(s, c))
  {
    LogFollows(s.log, s.session, s.token, DoRecord(s, c).token);
    hide OrderOk, LogOk;
  }

  lemma ExecReturnKeeps(s: State, c: nat, result: ExecResult, after: Session)
    requires Inv(s) && c in s.conns && s.conns[c].writer == Executing && Truthful(result, after)
    ensures Inv(DoExecReturn(s, c, result, after))
  {
    LogExtends(s.log, s.session, s.token, Call(c, Client, result, s.conns[c].hold.closing, s.session, after));
    hide SessionOutcome, OrderOk, LogOk;
  }

  lemma EndKeeps(s: State, c: nat)
    requires Inv(s) && c in s.conns && s.conns[c].writer.Ending?
    ensures Inv(DoEnd(s, c))
  {
    LogFollows(s.log, s.session, s.token, DoEnd(s, c).token);
    hide OrderOk, LogOk;
  }

  lemma RollbackKeeps(s: State, c: nat, result: ExecResult, after: Session)
    requires Inv(s) && c in s.conns && s.conns[c].writer == InRollback
    ensures Inv(SetWriter(Called(s, c, WriterRollback, result, after), c, Releasing))
  {
    LogExtends(s.log, s.session, s.token, Call(c, WriterRollback, result, s.conns[c].hold.closing, s.session, after));
    hide OrderOk, LogOk;
  }

  lemma CloserRollbackKeeps(s: State, c: nat, result: ExecResult, after: Session)
    requires Inv(s) && c in s.conns && s.conns[c].closer == CloserInRollback
    ensures Inv(SetCloser(Called(s, c, CloserRollback, result, after), c, CloserReleasing))
  {
    LogExtends(s.log, s.session, s.token, Call(c, CloserRollback, result, s.conns[c].hold.closing, s.session, after));
    hide OrderOk, LogOk;
  }

  lemma ReleaseFreeKeeps(s: State, c: nat)
    requires Inv(s) && c in s.conns && s.lock.waiters == []
    ensures s.conns[c].writer == Releasing ==> Inv(SetWriter(DoRelease(s), c, Resting))
    ensures s.conns[c].closer == CloserReleasing ==> Inv(SetCloser(DoRelease(s), c, Closed))
  {
    if s.session == Idle || Stranded(s.log) {
      LogFollows(s.log, s.session, s.token, Free);
    }
    hide OrderOk, LogOk;
  }

  /** How a release that grants the next waiter looks to a connection that no longer owns anything. */
  lemma GrantSeen(s: State, d: nat, k: Conn)
    requires Inv(s) && d in s.conns && s.lock.waiters != []
    requires k.hold == s.conns[d].hold && !k.hold.held && !CloserOwns(k.closer)
    requires k.writer == s.conns[d].writer || (k.writer == Resting && s.conns[d].writer == Releasing)
    requires WriterOwns(s.lock.granted, s.conns[d].writer) ==> k.writer == Resting
    requires k.closer == s.conns[d].closer || (k.closer == Closed && s.conns[d].closer == CloserReleasing)
    ensures ConnOk(d, k, s.lock.Release(), DoRelease(s).token, s.session)
  {
    ReleaseKeepsOrder(s.lock, s.nextTicket, s.grants);
    hide OrderOk, LogOk;
  }

  lemma ReleaseKeepsLog(s: State, c: nat)
    requires Inv(s) && c in s.conns && (s.conns[c].writer == Releasing || s.conns[c].closer == CloserReleasing)
    ensures LogOk(s.log, s.session, DoRelease(s).token)
  {
    hide OrderOk, QueueOk;
    assert ConnOk(c, s.conns[c], s.lock, s.token, s.session);
    hide ConnOk, ConnsOk;
    LogFollows(s.log, s.session, s.token, DoRelease(s).token);
  }

  lemma ReleaseKeeps(s: State, c: nat)
    requires Inv(s) && c in s.conns && s.conns[c].writer == Releasing && s.lock.waiters != []
    ensures Inv(SetWriter(DoRelease(s), c, Resting))
  {
    ReleaseKeepsOrder(s.lock, s.nextTicket, s.grants);
    ReleaseKeepsLog(s, c);
    hide OrderOk, LogOk, Stranded;
    var s' := SetWriter(DoRelease(s), c, Resting);
    forall d | d in s.conns ensures ConnOk(d, s'.conns[d], s'.lock, s'.token, s'.session) {
      GrantSeen(s, d, s'.conns[d]);
    }
    hide ConnOk;
  }

  lemma CloserReleaseKeeps(s: State, c: nat)
    requires Inv(s) && c in s.conns && s.conns[c].closer == CloserReleasing && s.lock.waiters != []
    ensures Inv(SetCloser(DoRelease(s), c, Closed))
  {
    ReleaseKeepsOrder(s.lock, s.nextTicket, s.grants);
    ReleaseKeepsLog(s, c);
    hide OrderOk, LogOk, Stranded;
    var s' := SetCloser(DoRelease(s), c, Closed);
    forall d | d in s.conns ensures ConnOk(d, s'.conns[d], s'.lock, s'.token, s'.session) {
      GrantSeen(s, d, s'.conns[d]);
    }
    hide ConnOk;
  }

  lemma SettleKeeps(s: State, c: nat)
    requires Inv(s) && c in s.conns && s.conns[c].closer == Settling
    ensures Inv(DoSettle(s, c))
  {
    LogFollows(s.log, s.session, s.token, DoSettle(s, c).token);
    hide OrderOk, LogOk;
  }

  lemma GrantKeeps(s: State, c: nat)
    requires Inv(s) && c in s.conns && s.conns[c].writer.Queued? && s.conns[c].writer.w in s.lock.granted
    ensures Inv(SetWriter(s, c, Granted))
  {
    WriterMoves(s, c, Granted);
  }

  lemma CloseStartKeeps(s: State, c: nat)
    requires Inv(s) && c in s.conns && s.conns[c].closer == Open
    ensures Inv(SetCloser(s, c, Forgetting))
  {
    CloserMoves(s, c, Forgetting);
  }

  lemma ForgetKeeps(s: State, c: nat)
    requires Inv(s) && c in s.conns && s.conns[c].closer == Forgetting
    ensures Inv(SetCloser(s, c, Signalling))
  {
    CloserMoves(s, c, Signalling);
  }

  lemma SignalKeeps(s: State, c: nat)
    requires Inv(s) && c in s.conns && s.conns[c].closer == Signalling
    ensures Inv(SetCloser(s, c, Settling))
  {
    CloserMoves(s, c, Settling);
  }

  lemma KeepsInv(s: State, t: Step)
    requires Inv(s) && Enabled(s, t)
    ensures Inv(Next(s, t))
  {
    hide Inv, SessionOutcome;
    match t
    case Dial => DialKeeps(s);
    case Begin(c) => BeginKeeps(s, c);
    case Acquire(c) => if s.lock.held { AcquireQueuedKeeps(s, c); } else { AcquireFreeKeeps(s, c); }
    case TakeGrant(c) => GrantKeeps(s, c);
    case WaitCancelled(c) => WriterMoves(s, c, GivingUp(s.conns[c].writer.w));
    case WaitClosed(c) => WriterMoves(s, c, GivingUp(s.conns[c].writer.w));
    case Abandon(c) => AbandonKeeps(s, c);
    case Record(c) => RecordKeeps(s, c);
    case ExecStart(c) => WriterMoves(s, c, Executing);
    case ExecReturn(c, result, after) => ExecReturnKeeps(s, c, result, after);
    case End(c) => EndKeeps(s, c);
    case RollbackStart(c) => WriterMoves(s, c, InRollback);
    case RollbackReturn(c, result, after) => RollbackKeeps(s, c, result, after);
    case Release(c) => if s.lock.waiters == [] { ReleaseFreeKeeps(s, c); } else { ReleaseKeeps(s, c); }
    case CloseStart(c) => CloseStartKeeps(s, c);
    case Forget(c) => ForgetKeeps(s, c);
    case Signal(c) => SignalKeeps(s, c);
    case Settle(c) => SettleKeeps(s, c);
    case CloserRollbackStart(c) => CloserMoves(s, c, CloserInRollback);
    case CloserRollbackReturn(c, result, after) => CloserRollbackKeeps(s, c, result, after);
    case CloserRelease(c) => if s.lock.waiters == [] { ReleaseFreeKeeps(s, c); } else { CloserReleaseKeeps(s, c); }
  }

  lemma {:induction false} RunKeepsInv(s: State, ts: seq<Step>)
    requires Inv(s) && Runs(s, ts)
    ensures Inv(After(s, ts))
    decreases |ts|
  {
    hide Inv;
    if ts != [] {
      KeepsInv(s, ts[0]);
      RunKeepsInv(Next(s, ts[0]), ts[1..]);
    }
  }

  /** A state some interleaving of steps reaches. */
  ghost predicate Reachable(s: State) {
    exists pid: nat, ts: seq<Step> :: Runs(Init(pid), ts) && s == After(Init(pid), ts)
  }

  lemma ReachableInv(s: State)
    requires Reachable(s)
    ensures Inv(s)
  {
    var pid: nat, ts: seq<Step> :| Runs(Init(pid), ts) && s == After(Init(pid), ts);
    InitInv(pid);
    RunKeepsInv(Init(pid), ts);
  }

  // ---- Ownership is conserved ----

  /** Where ownership of the lock can be, read off the connections alone. */
  datatype Place = InHold(conn: nat) | InWriter(conn: nat) | InCloser(conn: nat)

  predicate Occupied(s: State, p: Place) {
    p.conn in s.conns &&
    match p
    case InHold(c) => s.conns[c].hold.held
    case InWriter(c) => WriterOwns(s.lock.granted, s.conns[c].writer)
    case InCloser(c) => CloserOwns(s.conns[c].closer)
  }

  /** A held lock is owned in exactly one place, a free one nowhere. */
  lemma OwnedInOnePlace(s: State)
    requires Reachable(s)
    ensures s.lock.held <==> exists p :: Occupied(s, p)
    ensures forall p, q :: Occupied(s, p) && Occupied(s, q) ==> p == q
  {
    ReachableInv(s);
    hide OrderOk, LogOk;
    forall p | Occupied(s, p)
      ensures s.token == match p case InHold(c) => Recorded(c) case InWriter(c) => WithWriter(c) case InCloser(c) => WithCloser(c)
    {
      assert ConnOk(p.conn, s.conns[p.conn], s.lock, s.token, s.session);
    }
    if s.lock.held {
      var c := s.token.conn;
      assert ConnOk(c, s.conns[c], s.lock, s.token, s.session);
      assert Occupied(s, match s.token case Recorded(_) => InHold(c) case WithWriter(_) => InWriter(c) case _ => InCloser(c));
    }
  }

  predicate IsRelease(t: Step) {
    t.Release? || t.CloserRelease?
  }

  function Releases(ts: seq<Step>): (n: nat)
  {
    if ts == [] then 0 else (if IsRelease(ts[0]) then 1 else 0) + Releases(ts[1..])
  }

  function Held(s: State): (n: nat)
  {
    if s.lock.held then 1 else 0
  }

  /** One step: a grant is balanced by a release or by the lock becoming held. */
  lemma StepBalance(s: State, t: Step)
    requires Inv(s) && Enabled(s, t)
    ensures |Next(s, t).grants| + Held(s) == |s.grants| + Held(Next(s, t)) + (if IsRelease(t) then 1 else 0)
  {
    hide OrderOk, LogOk, SessionOk, SessionOutcome, QueueOk;
    if IsRelease(t) {
      assert ConnOk(t.c, s.conns[t.c], s.lock, s.token, s.session);
    }
    hide ConnOk;
  }

  /** Over every run, each acquisition is released exactly once, bar the one that still stands. */
  lemma {:induction false} AcquiredAndReleasedOnce(s: State, ts: seq<Step>)
    requires Inv(s) && Runs(s, ts)
    ensures |After(s, ts).grants| + Held(s) == |s.grants| + Held(After(s, ts)) + Releases(ts)
    decreases |ts|
  {
    hide Inv;
    if ts != [] {
      StepBalance(s, ts[0]);
      KeepsInv(s, ts[0]);
      AcquiredAndReleasedOnce(Next(s, ts[0]), ts[1..]);
    }
  }

  // ---- One call at a time ----

  predicate Calling(s: State, p: Place) {
    p.conn in s.conns &&
    match p
    case InHold(c) => s.conns[c].writer == Executing
    case InWriter(c) => s.conns[c].writer == InRollback
    case InCloser(c) => s.conns[c].closer == CloserInRollback
  }

  /** No two exec calls overlap, and a running call's connection owns the lock. */
  lemma OneCallAtATime(s: State, p: Place, q: Place)
    requires Reachable(s) && Calling(s, p) && Calling(s, q)
    ensures p == q && Occupied(s, p)
  {
    ReachableInv(s);
    hide OrderOk, LogOk;
    forall r | r == p || r == q ensures Occupied(s, r) {
      assert ConnOk(r.conn, s.conns[r.conn], s.lock, s.token, s.session);
    }
    OwnedInOnePlace(s);
  }

  /** endRoundTrip always finds the session held, and abandon's drain never blocks. */
  lemma DeadBranches(s: State, c: nat)
    requires Reachable(s) && c in s.conns
    ensures s.conns[c].writer.Ending? ==> s.conns[c].hold.EndVerdict(s.conns[c].writer.outcome) != NothingHeld
    ensures s.conns[c].writer.GivingUp? && s.conns[c].writer.w !in s.lock.waiters
      ==> s.conns[c].writer.w in s.lock.granted
  {
    ReachableInv(s);
    assert ConnOk(c, s.conns[c], s.lock, s.token, s.session);
  }

  // ---- Transaction isolation ----

  /** The longest prefix of log made by one connection. */
  function FirstBlock(log: seq<Call>): (n: nat)
    requires log != []
    ensures 1 <= n <= |log|
    ensures forall i :: 0 <= i < n ==> log[i].conn == log[0].conn
    ensures n < |log| ==> log[n].conn != log[n - 1].conn
  {
    if |log| == 1 || log[1].conn != log[0].conn then 1
    else
      var n := FirstBlock(log[1..]);
      assert forall i :: 1 <= i < n + 1 ==> log[i] == log[1..][i - 1];
      n + 1
  }

  /** The log cut wherever the calling connection changes. */
  function Blocks(log: seq<Call>): (r: seq<seq<Call>>)
    decreases |log|
  {
    if log == [] then [] else [log[..FirstBlock(log)]] + Blocks(log[FirstBlock(log)..])
  }

  /** A block is one connection's, and starts and ends with the session idle. */
  predicate WholeBlock(b: seq<Call>) {
    && b != []
    && (forall i :: 0 <= i < |b| ==> b[i].conn == b[0].conn)
    && b[0].before == Idle
    && b[|b| - 1].after == Idle
  }

  lemma {:induction false} BlocksCover(log: seq<Call>)
    ensures Concat(Blocks(log)) == log
    decreases |log|
  {
    hide FirstBlock;
    if log != [] {
      var n := FirstBlock(log);
      var rest := Blocks(log[n..]);
      BlocksCover(log[n..]);
      assert ([log[..n]] + rest)[1..] == rest;
      assert log == log[..n] + log[n..];
    }
  }

  /** The log is one history: each call finds the session as the previous one left it. */
  predicate Chained(log: seq<Call>) {
    forall i, j :: 0 <= i && j == i + 1 < |log| ==> log[i].after == log[j].before
  }

  predicate SwitchesAfterRollback(log: seq<Call>) {
    forall i, j :: 0 <= i && j == i + 1 < |log| && log[i].conn != log[j].conn ==> log[i].after == Idle || log[i].Rollback()
  }

  predicate SwitchesIdle(log: seq<Call>) {
    forall i, j :: 0 <= i && j == i + 1 < |log| && log[i].conn != log[j].conn ==> log[i].after == Idle
  }

  /** A history that changes connection only where the session is idle is made of whole blocks. */
  lemma {:induction false} BlocksAreWhole(log: seq<Call>)
    requires log != [] ==> log[0].before == Idle && log[|log| - 1].after == Idle
    requires Chained(log) && SwitchesIdle(log)
    ensures forall b :: b in Blocks(log) ==> WholeBlock(b)
    decreases |log|
  {
    hide FirstBlock;
    if log != [] {
      var n := FirstBlock(log);
      var first, rest := log[..n], log[n..];
      assert WholeBlock(first);
      if n < |log| {
        assert log[n - 1].after == Idle && log[n].before == Idle;
        SuffixChained(log, n);
        BlocksAreWhole(rest);
      }
    }
  }

  lemma SuffixChained(log: seq<Call>, n: nat)
    requires n <= |log| && Chained(log) && SwitchesIdle(log)
    ensures Chained(log[n..]) && SwitchesIdle(log[n..])
  {
    var rest := log[n..];
    forall i, j | 0 <= i && j == i + 1 < |rest|
      ensures rest[i].after == rest[j].before && (rest[i].conn != rest[j].conn ==> rest[i].after == Idle)
    {
      assert rest[i] == log[n + i] && rest[j] == log[n + j];
    }
  }

  /** A block is one connection's, and starts with the session idle. */
  predicate OpenBlock(b: seq<Call>) {
    && b != []
    && (forall i :: 0 <= i < |b| ==> b[i].conn == b[0].conn)
    && b[0].before == Idle
  }

  /** Wherever such a history stops, only its last block may be unfinished. */
  lemma {:induction false} BlocksButLastAreWhole(log: seq<Call>)
    requires log != [] ==> log[0].before == Idle
    requires Chained(log) && SwitchesIdle(log)
    ensures forall i :: 0 <= i < |Blocks(log)| ==> OpenBlock(Blocks(log)[i])
    ensures forall i :: 0 <= i < |Blocks(log)| - 1 ==> WholeBlock(Blocks(log)[i])
    decreases |log|
  {
    hide FirstBlock;
    if log != [] {
      var n := FirstBlock(log);
      var first, rest := log[..n], log[n..];
      assert OpenBlock(first);
      if n < |log| {
        assert log[n - 1].after == Idle && log[n].before == Idle;
        SuffixChained(log, n);
        BlocksButLastAreWhole(rest);
        assert WholeBlock(first);
      } else {
        assert rest == [];
      }
    }
  }

  /** The calls up to now never land inside another connection's transaction. */
  predicate Isolated(log: seq<Call>) {
    && (forall i :: 0 <= i < |Blocks(log)| ==> OpenBlock(Blocks(log)[i]))
    && forall i :: 0 <= i < |Blocks(log)| - 1 ==> WholeBlock(Blocks(log)[i])
  }

  /** Blocks that are whole leave the session idle wherever the connection changes. */
  lemma {:induction false} WholeBlocksSwitchIdle(log: seq<Call>)
    requires forall i :: 0 <= i < |Blocks(log)| - 1 ==> WholeBlock(Blocks(log)[i])
    ensures SwitchesIdle(log)
    decreases |log|
  {
    hide FirstBlock;
    if log != [] {
      var n := FirstBlock(log);
      var first, rest := log[..n], log[n..];
      assert Blocks(log) == [first] + Blocks(rest);
      forall i | 0 <= i < |Blocks(rest)| - 1 ensures WholeBlock(Blocks(rest)[i]) {
        assert Blocks(log)[i + 1] == Blocks(rest)[i];
      }
      WholeBlocksSwitchIdle(rest);
      if n < |log| {
        assert Blocks(rest) != [] && WholeBlock(Blocks(log)[0]);
        assert log[n - 1] == first[n - 1];
      }
      hide Blocks, WholeBlock;
      forall i, j | 0 <= i && j == i + 1 < |log| && log[i].conn != log[j].conn ensures log[i].after == Idle {
        if i >= n {
          assert rest[i - n] == log[i] && rest[j - n] == log[j];
        }
      }
    }
  }

  /** Another connection's call follows directly on a rollback that failed. */
  predicate TakenOver(log: seq<Call>) {
    exists i, j :: 0 <= i && j == i + 1 < |log| && RollbackFailed(log[i]) && log[j].conn != log[i].conn
  }

  /**
   * In every reachable state the calls made so far are contiguous blocks of one connection each, begun with
   * the session idle and, all but the last, ended with it idle, so that no call lands inside another
   * connection's transaction, if and only if no connection took the session over directly from a rollback of
   * the shim that failed. The last block is whole too whenever the session is idle, and it is idle whenever
   * the lock is free, but for such a rollback.
   */
  lemma TransactionIsolation(s: State)
    requires Reachable(s)
    ensures Concat(Blocks(s.log)) == s.log
    ensures Isolated(s.log) <==> !TakenOver(s.log)
    ensures Isolated(s.log) && s.session == Idle ==> forall b :: b in Blocks(s.log) ==> WholeBlock(b)
    ensures !s.lock.held && s.session == Busy ==> Stranded(s.log)
  {
    ReachableInv(s);
    BlocksCover(s.log);
    SwitchesExactly(s.log);
    hide Blocks, Chained, Reachable, ConnsOk, OrderOk;
    if Isolated(s.log) {
      WholeBlocksSwitchIdle(s.log);
    }
    if SwitchesIdle(s.log) {
      BlocksButLastAreWhole(s.log);
      if s.session == Idle {
        BlocksAreWhole(s.log);
      }
    }
  }

  lemma SwitchesExactly(log: seq<Call>)
    requires SwitchesAfterRollback(log)
    ensures SwitchesIdle(log) <==> !TakenOver(log)
  {
  }

  /** While every rollback the shim sends ends the transaction, isolation holds without exception. */
  lemma WorkingRollbacksIsolate(s: State)
    requires Reachable(s) && forall i :: 0 <= i < |s.log| && s.log[i].Rollback() ==> s.log[i].after == Idle
    ensures Isolated(s.log) && (!s.lock.held ==> s.session == Idle)
  {
    hide Blocks, Isolated;
    TransactionIsolation(s);
  }

  lemma {:induction false} RunsOn(s: State, ts: seq<Step>, t: Step)
    requires Runs(s, ts) && Enabled(After(s, ts), t)
    ensures Runs(s, ts + [t]) && After(s, ts + [t]) == Next(After(s, ts), t)
    decreases |ts|
  {
    hide Enabled, Next;
    if ts == [] {
      assert [] + [t] == [t] && [t][1..] == [];
    } else {
      assert (ts + [t])[1..] == ts[1..] + [t];
      RunsOn(Next(s, ts[0]), ts[1..], t);
    }
  }

  lemma ReachesOn(s: State, t: Step)
    requires Reachable(s) && Enabled(s, t)
    ensures Reachable(Next(s, t))
  {
    hide Enabled, Next;
    var pid: nat, ts: seq<Step> :| Runs(Init(pid), ts) && s == After(Init(pid), ts);
    RunsOn(Init(pid), ts, t);
  }

  /** A connection that finds the lock free is granted it. */
  lemma Asks(s: State, c: nat) returns (r: State)
    requires Reachable(s) && c in s.conns && !s.lock.held
    requires s.conns[c] == Conn(HoldState(false, false, false), Resting, Open)
    ensures Reachable(r) && r.session == s.session && r.log == s.log && r.conns.Keys == s.conns.Keys
    ensures r.conns[c].writer == Granted && r.conns[c].hold == HoldState(false, false, false)
    ensures forall d :: d in s.conns && d != c ==> r.conns[d] == s.conns[d]
    ensures r.lock.waiters == s.lock.waiters
  {
    hide Reachable;
    r := Next(s, Begin(c));
    ReachesOn(s, Begin(c));
    ReachesOn(r, Step.Acquire(c));
    r := Next(r, Step.Acquire(c));
  }

  /** And gets as far as its exec call. */
  lemma Starts(s: State, c: nat) returns (r: State)
    requires Reachable(s) && c in s.conns && !s.lock.held
    requires s.conns[c] == Conn(HoldState(false, false, false), Resting, Open)
    ensures Reachable(r) && r.session == s.session && r.log == s.log && r.conns.Keys == s.conns.Keys
    ensures r.conns[c].writer == Executing && r.conns[c].hold == HoldState(true, true, false)
    ensures forall d :: d in s.conns && d != c ==> r.conns[d] == s.conns[d]
    ensures r.lock.waiters == s.lock.waiters
  {
    hide Reachable;
    r := Asks(s, c);
    ReachesOn(r, Step.Record(c));
    r := Next(r, Step.Record(c));
    ReachesOn(r, ExecStart(c));
    r := Next(r, ExecStart(c));
  }

  /** An exec call that fails inside a transaction, and a ROLLBACK that fails too: the lock is passed on all
      the same, and the next connection's call lands inside the transaction of the first. */
  lemma FailedRollbackLeaks() returns (s: State)
    ensures Reachable(s)
    ensures s.log == [Call(1, Client, Failed, false, Idle, Busy), Call(1, WriterRollback, Failed, false, Busy, Busy),
                        Call(2, Client, Failed, false, Busy, Busy)]
    ensures TakenOver(s.log) && !Isolated(s.log)
  {
    hide Reachable, Isolated;
    s := TwoDialled();
    s := Starts(s, 1);
    ReachesOn(s, ExecReturn(1, Failed, Busy));
    s := Next(s, ExecReturn(1, Failed, Busy));
    s := EndsUnknown(s, 1);
    s := GivesBack(s, 1);
    assert s.log == [Call(1, Client, Failed, false, Idle, Busy), Call(1, WriterRollback, Failed, false, Busy, Busy)];
    s := Starts(s, 2);
    ReachesOn(s, ExecReturn(2, Failed, Busy));
    s := Next(s, ExecReturn(2, Failed, Busy));
    assert RollbackFailed(s.log[1]) && s.log[2].conn != s.log[1].conn;
    TransactionIsolation(s);
  }

  lemma TwoDialled() returns (s: State)
    ensures Reachable(s) && s.session == Idle && s.log == [] && s.conns.Keys == {1, 2} && !s.lock.held && s.lock.waiters == []
    ensures forall c :: c in s.conns ==> s.conns[c] == Conn(HoldState(false, false, false), Resting, Open)
  {
    s := Init(0);
    assert Runs(s, []) && After(s, []) == s;
    ReachesOn(s, Dial);
    s := Next(s, Dial);
    ReachesOn(s, Dial);
    s := Next(s, Dial);
  }

  /** The end of a round trip that failed. */
  lemma EndsUnknown(s: State, c: nat) returns (r: State)
    requires Reachable(s) && c in s.conns && s.conns[c].writer == Ending(SessionUnknown)
    requires s.conns[c].hold == HoldState(true, true, false)
    ensures Reachable(r) && r.session == s.session && r.log == s.log && r.lock == s.lock && r.conns.Keys == s.conns.Keys
    ensures r.conns[c].writer == InRollback && !r.conns[c].hold.closing
    ensures forall d :: d in s.conns && d != c ==> r.conns[d] == s.conns[d]
  {
    hide Reachable;
    r := Next(s, End(c));
    ReachesOn(s, End(c));
    ReachesOn(r, RollbackStart(c));
    r := Next(r, RollbackStart(c));
  }

  /** A rollback that fails. */
  lemma GivesBack(s: State, c: nat) returns (r: State)
    requires Reachable(s) && c in s.conns && s.conns[c].writer == InRollback && s.lock.waiters == []
    ensures Reachable(r) && r.session == Busy && !r.lock.held && r.lock.waiters == []
    ensures r.log == s.log + [Call(c, WriterRollback, Failed, s.conns[c].hold.closing, s.session, Busy)] && r.conns.Keys == s.conns.Keys
    ensures forall d :: d in s.conns && d != c ==> r.conns[d] == s.conns[d]
  {
    hide Reachable;
    ReachesOn(s, RollbackReturn(c, Failed, Busy));
    r := Next(s, RollbackReturn(c, Failed, Busy));
    ReachesOn(r, Step.Release(c));
    r := Next(r, Step.Release(c));
  }

  /** Inside a transaction, every further call is made by the connection that opened it, unless its rollback failed. */
  lemma TransactionStaysWithItsConnection(s: State, p: Place)
    requires Reachable(s) && s.session == Busy && Calling(s, p)
    ensures s.log != [] && (s.log[|s.log| - 1].conn == p.conn || Stranded(s.log))
  {
    ReachableInv(s);
    assert ConnOk(p.conn, s.conns[p.conn], s.lock, s.token, s.session);
  }

  // ---- Nobody is stranded ----

  /** A closed connection whose calls have returned owns nothing and waits for nothing. */
  lemma ClosedLeavesNothing(s: State, c: nat)
    requires Reachable(s) && c in s.conns
    requires s.conns[c].closer == Closed && s.conns[c].writer == Resting
    ensures forall p :: Occupied(s, p) ==> p.conn != c
    ensures forall w :: w in s.lock.waiters ==> w.conn != c
  {
    ReachableInv(s);
    hide OrderOk, LogOk;
    assert ConnOk(c, s.conns[c], s.lock, s.token, s.session);
  }

  /** Regions and calls a writer still has in front of it once its connection is closed. */
  function Remaining(w: Writer): (n: nat)
  {
    match w
    case Resting => 0
    case Releasing => 1
    case Granted => 2
    case InRollback => 2
    case RollingBack => 3
    case GivingUp(_) => 3
    case Ending(_) => 4
    case Queued(_) => 4
    case Executing => 5
    case Acquiring => 5
    case Ready => 6
  }

  predicate ByWriterOf(t: Step, c: nat) {
    match t
    case Begin(d) => d == c
    case Acquire(d) => d == c
    case TakeGrant(d) => d == c
    case WaitCancelled(d) => d == c
    case WaitClosed(d) => d == c
    case Abandon(d) => d == c
    case Record(d) => d == c
    case ExecStart(d) => d == c
    case ExecReturn(d, _, _) => d == c
    case End(d) => d == c
    case RollbackStart(d) => d == c
    case RollbackReturn(d, _, _) => d == c
    case Release(d) => d == c
    case _ => false
  }

  /** What a closed connection's writer can do next: every pc but an exec call has a step of its own. */
  function OwnStep(s: State, c: nat): (t: Step)
    requires c in s.conns && s.conns[c].writer != Resting
  {
    match s.conns[c].writer
    case Acquiring => Acquire(c)
    case Queued(_) => WaitClosed(c)
    case GivingUp(_) => Abandon(c)
    case Granted => Record(c)
    case Ready => ExecStart(c)
    case Executing => ExecReturn(c, Failed, Busy)
    case Ending(_) => End(c)
    case RollingBack => RollbackStart(c)
    case InRollback => RollbackReturn(c, Failed, Idle)
    case Releasing => Release(c)
  }

  /** Once a connection is closed its writer is never stuck behind the lock. */
  lemma ClosedWriterCanMove(s: State, c: nat)
    requires Reachable(s) && c in s.conns && s.conns[c].hold.closing && s.conns[c].writer != Resting
    ensures Enabled(s, OwnStep(s, c)) && ByWriterOf(OwnStep(s, c), c)
  {
    ReachableInv(s);
    assert ConnOk(c, s.conns[c], s.lock, s.token, s.session);
  }

  /** Every step a closed connection's writer takes brings it nearer to rest; a new Begin is refused. */
  lemma ClosedWriterDrains(s: State, c: nat, t: Step)
    requires c in s.conns && s.conns[c].hold.closing && Enabled(s, t) && ByWriterOf(t, c)
    ensures var before, after := s.conns[c].writer, Next(s, t).conns[c].writer;
      Remaining(after) < Remaining(before) || (before == Resting && after == Resting)
  {
    hide SessionOutcome, Without;
  }

  /**
   * A held lock can always be moved on by its owner, except while an open connection sits idle
   * inside its own transaction.
   */
  lemma OwnerCanMove(s: State)
    requires Reachable(s) && s.lock.held
    ensures s.token != Free && s.token.conn in s.conns
    ensures var c := s.token.conn;
      if s.conns[c].writer == Resting && !CloserOwns(s.conns[c].closer)
      then s.conns[c].hold.held && !s.conns[c].hold.closing
      else exists t :: Enabled(s, t) && (ByWriterOf(t, c) || t in {CloserRollbackStart(c), CloserRollbackReturn(c, Failed, Idle), CloserRelease(c)})
  {
    ReachableInv(s);
    hide OrderOk, LogOk, QueueOk, SessionOk;
    var c := s.token.conn;
    var k := s.conns[c];
    assert ConnOk(c, k, s.lock, s.token, s.session);
    if CloserOwns(k.closer) {
      OwningCloserMoves(s, c);
    } else if k.writer != Resting {
      OwningWriterMoves(s, c);
    }
  }

  lemma OwningCloserMoves(s: State, c: nat)
    requires c in s.conns && CloserOwns(s.conns[c].closer)
    ensures exists t :: Enabled(s, t) && t in {CloserRollbackStart(c), CloserRollbackReturn(c, Failed, Idle), CloserRelease(c)}
  {
    var closer := s.conns[c].closer;
    var t := if closer == CloserRollingBack then CloserRollbackStart(c)
      else if closer == CloserInRollback then CloserRollbackReturn(c, Failed, Idle) else CloserRelease(c);
    assert Enabled(s, t);
  }

  lemma OwningWriterMoves(s: State, c: nat)
    requires Inv(s) && c in s.conns && s.lock.held && s.token != Free && s.token.conn == c
    requires s.conns[c].writer != Resting && !CloserOwns(s.conns[c].closer)
    ensures exists t :: Enabled(s, t) && ByWriterOf(t, c)
  {
    hide OrderOk, LogOk, QueueOk, SessionOk;
    assert ConnOk(c, s.conns[c], s.lock, s.token, s.session);
    var t := if s.conns[c].writer.Queued? then TakeGrant(c) else OwnStep(s, c);
    assert Enabled(s, t) && ByWriterOf(t, c);
  }

  // ---- First come, first served ----

  /** A free lock has no waiters, and grants follow the order of arrival. */
  lemma FirstComeFirstServed(s: State)
    requires Reachable(s)
    ensures !s.lock.held ==> s.lock.waiters == []
    ensures forall i, j :: 0 <= i < j < |s.grants| ==> s.grants[i] < s.grants[j]
    ensures forall g, w :: g in s.grants && w in s.lock.waiters ==> g < w.ticket
  {
    ReachableInv(s);
  }

  /** How many places nearer the head step t brings waiter v. */
  function Gain(s: State, t: Step, v: Waiter): (n: nat)
  {
    if IsRelease(t) then 1
    else if t.Abandon? && t.c in s.conns && s.conns[t.c].writer.GivingUp? && s.conns[t.c].writer.w in s.lock.waiters
      && Position(s.lock.waiters, s.conns[t.c].writer.w) < Position(s.lock.waiters, v) then 1
    else 0
  }

  /**
   * A waiter leaves the queue only by being granted at its head or by its own withdrawal.
   * Until then it never moves back, and moves up by one on each release and on each
   * withdrawal ahead of it.
   */
  lemma WaiterAdvances(s: State, t: Step, v: Waiter)
    requires Reachable(s) && Enabled(s, t) && v in s.lock.waiters
    ensures var ws, ws' := s.lock.waiters, Next(s, t).lock.waiters;
      if v in ws' then Position(ws', v) + Gain(s, t, v) == Position(ws, v)
      else (IsRelease(t) && v == ws[0] && v in Next(s, t).lock.granted) || (t == Abandon(v.conn) && s.conns[v.conn].writer == GivingUp(v))
  {
    ReachableInv(s);
    LockAfter(s, t);
    hide LogOk, SessionOk, SessionOutcome, Next, ConnOk, Enabled, Position;
    var ws := s.lock.waiters;
    if t.Abandon? {
      AbandonAdvances(s, t.c, v);
      OnlyTheWriterAbandons(s, t.c);
    } else if IsRelease(t) {
      ReleaseAdvances(ws, v);
    } else if t.Acquire? {
      JoinKeepsPosition(ws, Waiter(t.c, s.nextTicket), v);
    }
  }

  lemma OnlyTheWriterAbandons(s: State, c: nat)
    requires Inv(s) && Enabled(s, Abandon(c))
    ensures c in s.conns && s.conns[c].writer.GivingUp? && s.conns[c].writer.w.conn == c
  {
    hide LogOk, SessionOk;
    assert ConnOk(c, s.conns[c], s.lock, s.token, s.session);
  }

  /** Only three kinds of step touch the lock. */
  lemma LockAfter(s: State, t: Step)
    requires Enabled(s, t)
    ensures Next(s, t).lock ==
      if t.Abandon? then DoAbandon(s, t.c).lock
      else if IsRelease(t) then s.lock.Release()
      else if t.Acquire? then s.lock.Ask(Waiter(t.c, s.nextTicket))
      else s.lock
  {
  }

  lemma AbandonAdvances(s: State, c: nat, v: Waiter)
    requires Inv(s) && Enabled(s, Abandon(c)) && v in s.lock.waiters
    ensures var ws, ws' := s.lock.waiters, DoAbandon(s, c).lock.waiters;
      if v in ws' then Position(ws', v) + Gain(s, Abandon(c), v) == Position(ws, v)
      else c == v.conn && s.conns[c].writer == GivingUp(v)
  {
    hide LogOk, SessionOk;
    assert ConnOk(c, s.conns[c], s.lock, s.token, s.session);
    var w := s.conns[c].writer.w;
    if w in s.lock.waiters {
      WithoutOrdered(s.lock.waiters, w);
      if v != w {
        WithdrawalMovesUp(s.lock.waiters, w, v);
        assert Position(s.lock.waiters, w) != Position(s.lock.waiters, v);
      }
    }
  }

  lemma ReleaseAdvances(ws: seq<Waiter>, v: Waiter)
    requires InArrivalOrder(ws) && v in ws
    ensures if v == ws[0] then v !in ws[1..] else v in ws[1..] && Position(ws[1..], v) + 1 == Position(ws, v)
  {
    assert forall w :: w in ws[1..] ==> ws[0].ticket < w.ticket;
  }

  lemma {:induction false} JoinKeepsPosition(ws: seq<Waiter>, w: Waiter, v: Waiter)
    requires v in ws
    ensures v in ws + [w] && Position(ws + [w], v) == Position(ws, v)
  {
    assert (ws + [w])[0] == ws[0];
    if ws[0] != v {
      assert (ws + [w])[1..] == ws[1..] + [w];
      JoinKeepsPosition(ws[1..], w, v);
    }
  }
}
