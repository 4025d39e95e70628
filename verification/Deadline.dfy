/**
 * wasmpg/deadline.go: calls of set, serialised by the mutex, racing with timers that fire and
 * with their callbacks, which take no mutex. A step is a stretch of set between two points
 * where a callback can get in, or one event of a timer.
 */
module Deadline {
  import opened Common

  /** The argument of set, as the clock sees it: the zero time, a past one, or a future one. */
  datatype When = Zero | Past | Future

  /** A timer that has fired runs its callback at some later moment. */
  datatype Timer = Armed | Stopped | Fired | Ran

  datatype Setter =
    | Idle
    | Waiting(t: When)       // Stop said the timer had fired; at the receive from d.cancel
    | Committing(t: When)    // past the old timer

  /**
   * Channels and timers are numbered in the order they are made. `armedFor` and `last` are
   * auxiliary: the channel each timer was meant to close, and the last deadline set.
   * `panicked` records a close of a closed channel.
   */
  datatype State = State(
    timer: Option<nat>, timers: seq<Timer>, armedFor: seq<nat>,
    cancel: nat, closed: set<nat>, made: nat,
    setter: Setter, last: When, panicked: bool)

  /** newDeadline */
  const Init := State(None, [], [], 0, {}, 1, Idle, Zero, false)

  datatype Step =
    | SetStart(t: When)      // set, up to and including Stop
    | Received               // the receive from d.cancel returns
    | Commit                 // the rest of set
    | Fire(id: nat)          // a timer goes off
    | Callback(id: nat)      // and its callback closes d.cancel

  predicate Enabled(s: State, t: Step) {
    match t
    case SetStart(_) => s.setter == Idle
    case Received => s.setter.Waiting? && s.cancel in s.closed
    case Commit => s.setter.Committing?
    case Fire(id) => id < |s.timers| && s.timers[id] == Armed
    case Callback(id) => id < |s.timers| && s.timers[id] == Fired
  }

  function CloseCancel(s: State): (r: State) {
    s.(panicked := s.panicked || s.cancel in s.closed, closed := s.closed + {s.cancel})
  }

  /** A closed channel is replaced by a new one, an open one is kept. */
  function Reopened(s: State): (r: State) {
    if s.cancel in s.closed then s.(cancel := s.made, made := s.made + 1) else s
  }

  function Started(s: State, t: When): (r: State) {
    match s.timer
    case None => s.(setter := Committing(t))
    case Some(id) =>
      if id < |s.timers| && s.timers[id] == Armed
      then s.(timers := s.timers[id := Stopped], setter := Committing(t))
      else s.(setter := Waiting(t))
  }

  function Committed(s: State, t: When): (r: State) {
    var free := s.(timer := None, setter := Idle, last := t);
    match t
    case Zero => Reopened(free)
    case Future =>
      var open := Reopened(free);
      open.(timer := Some(|s.timers|), timers := s.timers + [Armed], armedFor := s.armedFor + [open.cancel])
    case Past => if s.cancel in s.closed then free else CloseCancel(free)
  }

  function Next(s: State, t: Step): (r: State)
    requires Enabled(s, t)
  {
    match t
    case SetStart(w) => Started(s, w)
    case Received => s.(setter := Committing(s.setter.t))
    case Commit => Committed(s, s.setter.t)
    case Fire(id) => s.(timers := s.timers[id := Fired])
    case Callback(id) => CloseCancel(s.(timers := s.timers[id := Ran]))
  }

  /** The deadline as the source keeps it. Its methods are the stretches of set, and the timer's callback. */
  class Cell {
    var timer: Option<nat>
    var timers: seq<Timer>
    var cancel: nat
    var closed: set<nat>
    var made: nat
    var setter: Setter
    var panicked: bool
    ghost var armedFor: seq<nat>
    ghost var last: When

    ghost function Value(): State
      reads this
    {
      State(timer, timers, armedFor, cancel, closed, made, setter, last, panicked)
    }

    constructor ()
      ensures Value() == Init
    {
      timer, timers, cancel, closed, made, setter, panicked := None, [], 0, {}, 1, Idle, false;
      armedFor, last := [], Zero;
    }

    /** set up to Stop: says whether it has to wait for the callback of a timer that has fired. */
    method BeginSet(t: When) returns (wait: bool)
      requires setter == Idle
      modifies this
      ensures Value() == Next(old(Value()), SetStart(t))
      ensures wait == setter.Waiting?
    {
      if timer.Some? {
        var stopped := timer.value < |timers| && timers[timer.value] == Armed;
        if !stopped {
          setter := Waiting(t);
          return true;
        }
        timers := timers[timer.value := Stopped];
      }
      setter := Committing(t);
      return false;
    }

    /** The rest of set. */
    method FinishSet()
      requires setter.Committing?
      modifies this
      ensures Value() == Next(old(Value()), Commit)
    {
      var t := setter.t;
      timer, setter, last := None, Idle, t;
      var wasClosed := cancel in closed;
      if t == Zero {
        if wasClosed {
          cancel, made := made, made + 1;
        }
        return;
      }
      if t == Future {
        if wasClosed {
          cancel, made := made, made + 1;
        }
        timer, timers, armedFor := Some(|timers|), timers + [Armed], armedFor + [cancel];
        return;
      }
      if !wasClosed {
        Close();
      }
    }

    method Close()
      modifies this`closed, this`panicked
      ensures Value() == CloseCancel(old(Value()))
    {
      panicked := panicked || cancel in closed;
      closed := closed + {cancel};
    }

    /** A fired timer's function runs. */
    method RunCallback(id: nat)
      requires id < |timers| && timers[id] == Fired
      modifies this
      ensures Value() == Next(old(Value()), Callback(id))
    {
      timers := timers[id := Ran];
      Close();
    }
  }

  predicate Live(t: Timer) {
    t == Armed || t == Fired
  }

  /** Only the current timer can still close anything, and then only the current channel. */
  predicate TimersOk(s: State) {
    && |s.armedFor| == |s.timers|
    && (s.timer.Some? ==> s.timer.value < |s.timers|)
    && (forall id :: 0 <= id < |s.timers| && Live(s.timers[id]) ==>
          s.timer == Some(id) && s.armedFor[id] == s.cancel && s.cancel !in s.closed && !s.setter.Committing?)
  }

  /** Every channel but the current one is closed: nobody is left waiting on a replaced one. */
  predicate ChannelsOk(s: State) {
    && s.cancel < s.made
    && (forall ch :: ch in s.closed ==> ch < s.made)
    && (forall ch: nat :: ch < s.made && ch != s.cancel ==> ch in s.closed)
  }

  /** There is a timer, not stopped, and the channel is closed exactly if its callback has run. */
  predicate FollowsTimer(s: State) {
    && s.timer.Some?
    && s.timer.value < |s.timers|
    && s.timers[s.timer.value] != Stopped
    && (s.cancel in s.closed <==> s.timers[s.timer.value] == Ran)
  }

  /** Outside set, the state of the current channel is what the last deadline asks for. */
  predicate LastOk(s: State) {
    match s.setter
    case Idle =>
      (match s.last
       case Zero => s.timer == None && s.cancel !in s.closed
       case Past => s.timer == None && s.cancel in s.closed
       case Future => FollowsTimer(s))
    case Waiting(_) => FollowsTimer(s) && s.timers[s.timer.value] != Armed
    case Committing(_) => true
  }

  ghost predicate Inv(s: State) {
    TimersOk(s) && ChannelsOk(s) && LastOk(s) && !s.panicked
  }

  lemma KeepsInv(s: State, t: Step)
    requires Inv(s) && Enabled(s, t)
    ensures Inv(Next(s, t))
  {
  }

  predicate Runs(s: State, ts: seq<Step>)
    decreases |ts|
  {
    ts == [] || (Enabled(s, ts[0]) && Runs(Next(s, ts[0]), ts[1..]))
  }

  function After(s: State, ts: seq<Step>): (r: State)
    requires Runs(s, ts)
    decreases |ts|
  {
    if ts == [] then s else After(Next(s, ts[0]), ts[1..])
  }

  lemma {:induction false} RunKeepsInv(s: State, ts: seq<Step>)
    requires Inv(s) && Runs(s, ts)
    ensures Inv(After(s, ts))
    decreases |ts|
  {
    hide Inv;
    if ts != [] {
      KeepsInv(s, ts[0]);
      RunKeepsInv(Next(s, ts[0]), ts[1..]);
    }
  }

  ghost predicate Reachable(s: State) {
    exists ts: seq<Step> :: Runs(Init, ts) && s == After(Init, ts)
  }

  lemma ReachableInv(s: State)
    requires Reachable(s)
    ensures Inv(s)
  {
    var ts: seq<Step> :| Runs(Init, ts) && s == After(Init, ts);
    RunKeepsInv(Init, ts);
  }

  /** No channel is ever closed twice. */
  lemma NeverClosedTwice(s: State)
    requires Reachable(s)
    ensures !s.panicked
  {
    ReachableInv(s);
  }

  /** A timer that fires closes the channel it was armed for, never one made later. */
  lemma CallbackClosesItsOwn(s: State, id: nat)
    requires Reachable(s) && Enabled(s, Callback(id))
    ensures id < |s.armedFor| && s.armedFor[id] == s.cancel && Next(s, Callback(id)).closed == s.closed + {s.armedFor[id]}
  {
    ReachableInv(s);
  }

  /**
   * Whenever set is not running, the deadline has passed exactly if the last time set was not
   * the zero time and either was past already or has had its timer's callback run.
   */
  lemma ExpiredExactly(s: State)
    requires Reachable(s) && s.setter == Idle
    ensures s.cancel in s.closed <==>
      s.last == Past || (s.last == Future && s.timer.Some? && s.timer.value < |s.timers| && s.timers[s.timer.value] == Ran)
    ensures s.timer == None ==> (s.cancel in s.closed <==> s.last == Past)
  {
    ReachableInv(s);
  }

  /** Whoever waits on a channel that has been replaced has been woken. */
  lemma ReplacedChannelsAreClosed(s: State, ch: nat)
    requires Reachable(s) && ch < s.made && ch != s.cancel
    ensures ch in s.closed
  {
    ReachableInv(s);
  }

  /** set never waits for a close that is not coming. */
  lemma SetIsReleased(s: State)
    requires Reachable(s) && s.setter.Waiting?
    ensures Enabled(s, Received) || exists id :: Enabled(s, Callback(id)) && Enabled(Next(s, Callback(id)), Received)
  {
    ReachableInv(s);
    if s.cancel !in s.closed {
      assert Enabled(s, Callback(s.timer.value));
    }
  }
}
