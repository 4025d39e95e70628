/**
 * wasmpg/mux.go and wasmpg/conn.go as a step system: N logical connections sharing one
 * backend session. A step is one region the source runs under a mutex, or one event
 * outside it: an exec call starts or returns, a wait fires, done is closed.
 *
 * Each connection has one writer (Write holds wmu) and one closer (closed.Do runs once).
 * A close may start at any moment, which covers Close, Terminate, a framing error and the
 * multiplexer's own Close; a connection may be dialled at any moment (the budget and the
 * tables are module Routing's).
 */
module Multiplexer {
  import opened Common
  import opened Fifo
  import opened Hold
  import PgProto

  /** The true state of the shared session: inside no transaction, or not. */
  datatype Session = Idle | Busy

  /** Where a connection's writer stands between two regions. */
  datatype Writer =
    | Resting                    // not inside submit
    | Acquiring                  // beginRoundTrip found nothing held; about to call acquire
    | Queued(w: Waiter)          // in acquire's select
    | GivingUp(w: Waiter)        // select took ctx or done; about to enter abandon
    | Granted                    // acquire returned; about to record ownership
    | Ready                      // beginRoundTrip returned; exec not called yet
    | Executing                  // inside exec with the client's bytes
    | Ending(outcome: Outcome)   // exec returned; about to enter endRoundTrip
    | RollingBack                // ownership cleared; about to exec ROLLBACK
    | InRollback                 // inside exec with ROLLBACK
    | Releasing                  // about to release the lock

  /** Where a connection's closer stands inside shutdown. */
  datatype Closer =
    | Open
    | Forgetting                 // about to drop the connection from the tables
    | Signalling                 // about to close done
    | Settling                   // done closed; about to enter abandonHold
    | CloserRollingBack
    | CloserInRollback
    | CloserReleasing
    | Closed

  datatype Conn = Conn(hold: HoldState, writer: Writer, closer: Closer)

  /** What an exec call brings back: reply bytes, or an error. */
  datatype ExecResult = Reply(raw: bytes) | Failed

  /** A client's bytes, or the ROLLBACK of the shim: its writer's, or its closer's. */
  datatype Purpose = Client | WriterRollback | CloserRollback

  /** One finished exec call: who made it and why, what it brought back, whether the connection was closing by
      then, and the session before and after. */
  datatype Call = Call(conn: nat, purpose: Purpose, result: ExecResult, closing: bool, before: Session, after: Session) {
    predicate Rollback() {
      purpose != Client
    }
  }

  /** Auxiliary: the one place the lock's ownership is. */
  datatype Token = Free | Recorded(conn: nat) | WithWriter(conn: nat) | WithCloser(conn: nat)

  /**
   * `token`, `log`, `grants` and the ticket numbers are auxiliary: no step reads them to
   * decide anything.
   */
  datatype State = State(
    lock: LockState,
    conns: map<nat, Conn>,
    nextPid: nat,
    session: Session,
    log: seq<Call>,
    token: Token,
    nextTicket: nat,
    grants: seq<nat>)

  datatype Step =
    | Dial
    | Begin(c: nat)
    | Acquire(c: nat)
    | TakeGrant(c: nat)
    | WaitCancelled(c: nat)      // ctx.Done(): the write deadline, or the connection closing
    | WaitClosed(c: nat)         // done
    | Abandon(c: nat)
    | Record(c: nat)
    | ExecStart(c: nat)
    | ExecReturn(c: nat, result: ExecResult, after: Session)
    | End(c: nat)
    | RollbackStart(c: nat)
    | RollbackReturn(c: nat, result: ExecResult, after: Session)
    | Release(c: nat)
    | CloseStart(c: nat)
    | Forget(c: nat)
    | Signal(c: nat)
    | Settle(c: nat)
    | CloserRollbackStart(c: nat)
    | CloserRollbackReturn(c: nat, result: ExecResult, after: Session)
    | CloserRelease(c: nat)

  function Init(pid: nat): (s: State)
  {
    State(LockState(false, [], {}), map[], pid, Idle, [], Free, 0, [])
  }

  /** isClosed(c.done) */
  predicate DoneClosed(k: Closer) {
    !k.Open? && !k.Forgetting? && !k.Signalling?
  }

  /**
   * What is assumed of the backend: the last ReadyForQuery of a reply tells the truth about
   * the session. A reply without one, or an error, may leave it anywhere.
   */
  predicate Truthful(result: ExecResult, after: Session) {
    result.Reply? && PgProto.LastReadyForQuery(result.raw).Some? ==>
      (after == Idle <==> PgProto.LastReadyForQuery(result.raw) == Some(PgProto.READY_IDLE))
  }

  function OutcomeOf(result: ExecResult): (r: Outcome)
  {
    if result.Reply? then SessionOutcome(result.raw) else SessionUnknown
  }

  /** The guard of each step. */
  predicate Enabled(s: State, t: Step) {
    match t
    case Dial => true
    case Begin(c) => c in s.conns && s.conns[c].writer == Resting
    case Acquire(c) => c in s.conns && s.conns[c].writer == Acquiring
    case TakeGrant(c) => c in s.conns && s.conns[c].writer.Queued? && s.conns[c].writer.w in s.lock.granted
    case WaitCancelled(c) => c in s.conns && s.conns[c].writer.Queued?
    case WaitClosed(c) => c in s.conns && s.conns[c].writer.Queued? && DoneClosed(s.conns[c].closer)
    case Abandon(c) => c in s.conns && s.conns[c].writer.GivingUp?
    case Record(c) => c in s.conns && s.conns[c].writer == Granted
    case ExecStart(c) => c in s.conns && s.conns[c].writer == Ready
    case ExecReturn(c, result, after) => c in s.conns && s.conns[c].writer == Executing && Truthful(result, after)
    case End(c) => c in s.conns && s.conns[c].writer.Ending?
    case RollbackStart(c) => c in s.conns && s.conns[c].writer == RollingBack
    case RollbackReturn(c, result, after) => c in s.conns && s.conns[c].writer == InRollback && Truthful(result, after)
    case Release(c) => c in s.conns && s.conns[c].writer == Releasing
    case CloseStart(c) => c in s.conns && s.conns[c].closer == Open
    case Forget(c) => c in s.conns && s.conns[c].closer == Forgetting
    case Signal(c) => c in s.conns && s.conns[c].closer == Signalling
    case Settle(c) => c in s.conns && s.conns[c].closer == Settling
    case CloserRollbackStart(c) => c in s.conns && s.conns[c].closer == CloserRollingBack
    case CloserRollbackReturn(c, result, after) =>
      c in s.conns && s.conns[c].closer == CloserInRollback && Truthful(result, after)
    case CloserRelease(c) => c in s.conns && s.conns[c].closer == CloserReleasing
  }

  function SetWriter(s: State, c: nat, w: Writer): (r: State)
    requires c in s.conns
  {
    s.(conns := s.conns[c := s.conns[c].(writer := w)])
  }

  function SetCloser(s: State, c: nat, k: Closer): (r: State)
    requires c in s.conns
  {
    s.(conns := s.conns[c := s.conns[c].(closer := k)])
  }

  /** fifoLock.acquire up to its select: every request takes the next arrival number. */
  function DoAcquire(s: State, c: nat): (r: State)
    requires c in s.conns
  {
    var w := Waiter(c, s.nextTicket);
    var asked := s.(lock := s.lock.Ask(w), nextTicket := s.nextTicket + 1);
    if s.lock.held then SetWriter(asked, c, Queued(w))
    else SetWriter(asked.(token := WithWriter(c), grants := s.grants + [w.ticket]), c, Granted)
  }

  /** fifoLock.abandon: withdrawn, or granted already and so to be passed on. */
  function DoAbandon(s: State, c: nat): (r: State)
    requires c in s.conns && s.conns[c].writer.GivingUp?
  {
    var w := s.conns[c].writer.w;
    if w in s.lock.waiters then SetWriter(s.(lock := s.lock.Withdraw(w)), c, Resting)
    else SetWriter(s, c, Releasing)
  }

  function DoRecord(s: State, c: nat): (r: State)
    requires c in s.conns
  {
    var k := s.conns[c];
    var recorded := k.hold.Record();
    if recorded == k.hold then SetWriter(s, c, Releasing)
    else s.(conns := s.conns[c := k.(hold := recorded, writer := Ready)], token := Recorded(c))
  }

  function DoBegin(s: State, c: nat): (r: State)
    requires c in s.conns
  {
    var k := s.conns[c];
    var next := match k.hold.BeginVerdict()
      case Refused => Resting
      case Reentered => Ready
      case MustAcquire => Acquiring;
    s.(conns := s.conns[c := k.(hold := k.hold.Begin(), writer := next)])
  }

  /** An exec call of c has returned. */
  function Called(s: State, c: nat, purpose: Purpose, result: ExecResult, after: Session): (r: State)
    requires c in s.conns
  {
    s.(session := after, log := s.log + [Call(c, purpose, result, s.conns[c].hold.closing, s.session, after)])
  }

  function DoExecReturn(s: State, c: nat, result: ExecResult, after: Session): (r: State)
    requires c in s.conns
  {
    SetWriter(Called(s, c, Client, result, after), c, Ending(OutcomeOf(result)))
  }

  function DoEnd(s: State, c: nat): (r: State)
    requires c in s.conns && s.conns[c].writer.Ending?
  {
    var k := s.conns[c];
    var outcome := k.writer.outcome;
    var ended := k.(hold := k.hold.End(outcome));
    match k.hold.EndVerdict(outcome)
    case Kept => s.(conns := s.conns[c := ended.(writer := Resting)])
    case NothingHeld => s.(conns := s.conns[c := ended.(writer := Resting)])
    case GiveBack(rollback) =>
      s.(conns := s.conns[c := ended.(writer := if rollback then RollingBack else Releasing)],
         token := WithWriter(c))
  }

  /** fifoLock.release, with the token following the grant. */
  function DoRelease(s: State): (r: State)
  {
    var ws := s.lock.waiters;
    var released := s.(lock := s.lock.Release());
    if ws == [] then released.(token := Free)
    else released.(token := WithWriter(ws[0].conn), grants := s.grants + [ws[0].ticket])
  }

  function DoSettle(s: State, c: nat): (r: State)
    requires c in s.conns
  {
    var k := s.conns[c];
    var settled := k.(hold := k.hold.Abandon());
    if k.hold.MustGiveBack()
    then s.(conns := s.conns[c := settled.(closer := CloserRollingBack)], token := WithCloser(c))
    else s.(conns := s.conns[c := settled.(closer := Closed)])
  }

  function DoDial(s: State): (r: State)
  {
    var pid := s.nextPid + 1;
    s.(nextPid := pid,
       conns := s.conns[pid := Conn(HoldState(false, false, false), Resting, Open)])
  }

  function Next(s: State, t: Step): (r: State)
    requires Enabled(s, t)
  {
    match t
    case Dial => DoDial(s)
    case Begin(c) => DoBegin(s, c)
    case Acquire(c) => DoAcquire(s, c)
    case TakeGrant(c) => SetWriter(s, c, Granted)
    case WaitCancelled(c) => SetWriter(s, c, GivingUp(s.conns[c].writer.w))
    case WaitClosed(c) => SetWriter(s, c, GivingUp(s.conns[c].writer.w))
    case Abandon(c) => DoAbandon(s, c)
    case Record(c) => DoRecord(s, c)
    case ExecStart(c) => SetWriter(s, c, Executing)
    case ExecReturn(c, result, after) => DoExecReturn(s, c, result, after)
    case End(c) => DoEnd(s, c)
    case RollbackStart(c) => SetWriter(s, c, InRollback)
    case RollbackReturn(c, result, after) => SetWriter(Called(s, c, WriterRollback, result, after), c, Releasing)
    case Release(c) => SetWriter(DoRelease(s), c, Resting)
    case CloseStart(c) => SetCloser(s, c, Forgetting)
    case Forget(c) => SetCloser(s, c, Signalling)
    case Signal(c) => SetCloser(s, c, Settling)
    case Settle(c) => DoSettle(s, c)
    case CloserRollbackStart(c) => SetCloser(s, c, CloserInRollback)
    case CloserRollbackReturn(c, result, after) => SetCloser(Called(s, c, CloserRollback, result, after), c, CloserReleasing)
    case CloserRelease(c) => SetCloser(DoRelease(s), c, Closed)
  }

  /** The steps of ts can be taken one after the other from s. */
  predicate Runs(s: State, ts: seq<Step>)
    decreases |ts|
  {
    ts == [] || (Enabled(s, ts[0]) && Runs(Next(s, ts[0]), ts[1..]))
  }

  function After(s: State, ts: seq<Step>): (r: State)
    requires Runs(s, ts)
    decreases |ts|
  {
    if ts == [] then s else After(Next(s, ts[0]), ts[1..])
  }
}
