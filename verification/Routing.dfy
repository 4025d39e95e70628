/** The tables of wasmpg/mux.go: who is connected, and who listens on which channel. */
module Routing {
  import opened Common
  import opened Listen
  import PgProto

  type Index = map<bytes, set<nat>>

  datatype DialError = MuxClosed | BudgetExhausted

  /** conns, routes, nextPID and closed; every function is one region run under m.mu. */
  datatype Tables = Tables(conns: set<nat>, routes: Index, nextPid: nat, closed: bool, budget: nat)

  /** unregisterLocked: an entry that becomes empty is removed. */
  function Unregistered(routes: Index, c: nat, channel: bytes): (r: Index) {
    if channel !in routes then routes
    else if routes[channel] - {c} == {} then routes - {channel}
    else routes[channel := routes[channel] - {c}]
  }

  function UnregisteredAll(routes: Index, c: nat): (r: Index) {
    map channel | channel in routes && routes[channel] - {c} != {} :: routes[channel] - {c}
  }

  function Registered(routes: Index, c: nat, channel: bytes): (r: Index) {
    routes[channel := (if channel in routes then routes[channel] else {}) + {c}]
  }

  function Routed(routes: Index, c: nat, op: ListenOp): (r: Index) {
    match op
    case Register(channel) => Registered(routes, c, channel)
    case Unregister(channel) => Unregistered(routes, c, channel)
    case UnregisterAll => UnregisteredAll(routes, c)
  }

  /** What happens to the tables, in the order the mutex imposes. */
  datatype Event = Dial | Apply(c: nat, op: ListenOp) | Forget(c: nat) | MuxClose

  function Next(t: Tables, e: Event): (r: Tables) {
    match e
    case Dial =>
      if t.closed || |t.conns| >= t.budget then t
      else t.(nextPid := t.nextPid + 1, conns := t.conns + {t.nextPid + 1})
    case Apply(c, op) => t.(routes := Routed(t.routes, c, op))
    case Forget(c) => t.(conns := t.conns - {c}, routes := UnregisteredAll(t.routes, c))
    case MuxClose => t.(closed := true)
  }

  function Start(budget: nat, pid: nat): (t: Tables) {
    Tables({}, map[], pid, false, budget)
  }

  function After(t: Tables, history: seq<Event>): (r: Tables)
  {
    if history == [] then t else Next(After(t, history[..|history| - 1]), history[|history| - 1])
  }

  // ---- The simple view ----

  /** What one connection's own history says about a channel: the last word on it counts. */
  predicate Listening(history: seq<Event>, c: nat, channel: bytes)
  {
    history != [] &&
    var last, before := history[|history| - 1], history[..|history| - 1];
    if last == Apply(c, Register(channel)) then true
    else if last == Apply(c, Unregister(channel)) || last == Apply(c, UnregisterAll) || last == Forget(c) then false
    else Listening(before, c, channel)
  }

  predicate IsRouted(routes: Index, channel: bytes, c: nat) {
    channel in routes && c in routes[channel]
  }

  predicate NoEmptyEntry(routes: Index) {
    forall channel :: channel in routes ==> routes[channel] != {}
  }

  /** The routing index is the simple view: after any history at all, by open connections or not. */
  lemma {:induction false} IndexIsHistory(t: Tables, history: seq<Event>)
    requires t.routes == map[]
    ensures NoEmptyEntry(After(t, history).routes)
    ensures forall channel, c :: IsRouted(After(t, history).routes, channel, c) <==> Listening(history, c, channel)
  {
    if history != [] {
      var before, last := history[..|history| - 1], history[|history| - 1];
      IndexIsHistory(t, before);
      if last.Apply? {
        RoutedIndex(After(t, before).routes, last.c, last.op);
      } else if last.Forget? {
        RoutedIndex(After(t, before).routes, last.c, UnregisterAll);
      }
    }
  }

  lemma UnregisteredIndex(routes: Index, c: nat, gone: bytes, channel: bytes, d: nat)
    ensures IsRouted(Unregistered(routes, c, gone), channel, d) <==>
      IsRouted(routes, channel, d) && !(d == c && channel == gone)
  {
    if channel in routes {
      assert d in routes[channel] - {c} <==> d in routes[channel] && d != c;
    }
  }

  lemma UnregisteredAllIndex(routes: Index, c: nat, channel: bytes, d: nat)
    ensures IsRouted(UnregisteredAll(routes, c), channel, d) <==> IsRouted(routes, channel, d) && d != c
  {
    if channel in routes {
      assert d in routes[channel] - {c} <==> d in routes[channel] && d != c;
    }
  }

  /** What one operation changes: its own connection on its own channels, and nothing else. */
  lemma RoutedIndex(routes: Index, c: nat, op: ListenOp)
    requires NoEmptyEntry(routes)
    ensures NoEmptyEntry(Routed(routes, c, op))
    ensures forall channel, d :: IsRouted(Routed(routes, c, op), channel, d) <==>
      if d == c && op == Register(channel) then true
      else if d == c && (op == Unregister(channel) || op == UnregisterAll) then false
      else IsRouted(routes, channel, d)
  {
    match op
    case Register(_) =>
    case Unregister(gone) =>
      forall channel, d
        ensures IsRouted(Unregistered(routes, c, gone), channel, d) <==>
          IsRouted(routes, channel, d) && !(d == c && channel == gone)
      {
        UnregisteredIndex(routes, c, gone, channel, d);
      }
    case UnregisterAll =>
      forall channel, d
        ensures IsRouted(UnregisteredAll(routes, c), channel, d) <==> IsRouted(routes, channel, d) && d != c
      {
        UnregisteredAllIndex(routes, c, channel, d);
      }
  }

  /** Every listener is connected. */
  predicate RoutesConnected(t: Tables) {
    forall channel :: channel in t.routes ==> t.routes[channel] <= t.conns
  }

  /**
   * apply never asks whether its connection is still open, so listeners stay connected
   * through an event exactly when it is not a LISTEN by one that has gone.
   */
  lemma StaysConnectedExactly(t: Tables, e: Event)
    requires RoutesConnected(t) && NoEmptyEntry(t.routes)
    ensures RoutesConnected(Next(t, e)) <==> !(e.Apply? && e.op.Register? && e.c !in t.conns)
  {
    if e.Apply? {
      RoutedIndex(t.routes, e.c, e.op);
      if e.op.Register? && e.c !in t.conns {
        assert IsRouted(Next(t, e).routes, e.op.channel, e.c);
      } else {
        forall channel | channel in Next(t, e).routes ensures Next(t, e).routes[channel] <= t.conns {
          forall d | d in Next(t, e).routes[channel] ensures d in t.conns {
            assert IsRouted(Next(t, e).routes, channel, d);
          }
        }
      }
    }
  }

  /** A LISTEN by a connection that has gone. */
  predicate LateListen(t: Tables, e: Event) {
    e.Apply? && e.op.Register? && e.c !in t.conns
  }

  lemma {:induction false} NoEmptyEntries(t: Tables, history: seq<Event>)
    requires NoEmptyEntry(t.routes)
    ensures NoEmptyEntry(After(t, history).routes)
  {
    if history != [] {
      NoEmptyEntries(t, history[..|history| - 1]);
      var before, last := After(t, history[..|history| - 1]), history[|history| - 1];
      if last.Apply? {
        RoutedIndex(before.routes, last.c, last.op);
      }
    }
  }

  /** Every listener is connected at every point of a history. */
  predicate ConnectedThroughout(t: Tables, history: seq<Event>) {
    forall i :: 0 <= i <= |history| ==> RoutesConnected(After(t, history[..i]))
  }

  /** No event of a history is a LISTEN by a connection that has gone by then. */
  predicate NeverLate(t: Tables, history: seq<Event>) {
    forall i :: 0 <= i < |history| ==> !LateListen(After(t, history[..i]), history[i])
  }

  lemma Prefixes(init: seq<Event>, e: Event)
    ensures forall i :: 0 <= i <= |init| ==> (init + [e])[..i] == init[..i]
    ensures (init + [e])[..|init|] == init == init[..|init|] && (init + [e])[..|init| + 1] == init + [e]
  {
  }

  lemma LastConnected(t: Tables, init: seq<Event>, e: Event)
    ensures ConnectedThroughout(t, init + [e]) <==> ConnectedThroughout(t, init) && RoutesConnected(Next(After(t, init), e))
  {
    assert After(t, init + [e]) == Next(After(t, init), e);
    hide RoutesConnected, Next, After;
    Prefixes(init, e);
    var n, history := |init|, init + [e];
    if ConnectedThroughout(t, history) {
      assert RoutesConnected(After(t, history[..n + 1]));
      forall i | 0 <= i <= n ensures RoutesConnected(After(t, init[..i])) {
        assert RoutesConnected(After(t, history[..i]));
      }
    }
    if ConnectedThroughout(t, init) && RoutesConnected(Next(After(t, init), e)) {
      forall i | 0 <= i <= n + 1 ensures RoutesConnected(After(t, history[..i])) {
        assert i <= n ==> RoutesConnected(After(t, init[..i]));
      }
    }
  }

  lemma LastLate(t: Tables, init: seq<Event>, e: Event)
    ensures NeverLate(t, init + [e]) <==> NeverLate(t, init) && !LateListen(After(t, init), e)
  {
    hide LateListen, After;
    Prefixes(init, e);
    var n, history := |init|, init + [e];
    if NeverLate(t, history) {
      assert !LateListen(After(t, history[..n]), history[n]);
      forall i | 0 <= i < n ensures !LateListen(After(t, init[..i]), init[i]) {
        assert !LateListen(After(t, history[..i]), history[i]);
      }
    }
    if NeverLate(t, init) && !LateListen(After(t, init), e) {
      forall i | 0 <= i < n + 1 ensures !LateListen(After(t, history[..i]), history[i]) {
        assert i < n ==> !LateListen(After(t, init[..i]), init[i]);
      }
    }
  }

  /** Listeners are connected throughout a history if and only if none of its events comes so late. */
  lemma {:induction false} ConnectedExactly(t: Tables, history: seq<Event>)
    requires RoutesConnected(t) && NoEmptyEntry(t.routes)
    ensures ConnectedThroughout(t, history) <==> NeverLate(t, history)
    decreases |history|
  {
    hide RoutesConnected, NoEmptyEntry, Next;
    if history == [] {
      assert After(t, history[..0]) == t;
    } else {
      var init, e := history[..|history| - 1], history[|history| - 1];
      assert history == init + [e];
      ConnectedExactly(t, init);
      NoEmptyEntries(t, init);
      LastConnected(t, init, e);
      LastLate(t, init, e);
      ThroughoutEnds(t, init);
      if ConnectedThroughout(t, init) {
        StaysConnectedExactly(After(t, init), e);
      }
    }
  }

  lemma ThroughoutEnds(t: Tables, history: seq<Event>)
    ensures ConnectedThroughout(t, history) ==> RoutesConnected(After(t, history))
  {
    assert history[..|history|] == history;
  }

  /** A LISTEN behind a Terminate in the same Write leaves a route to a connection that is gone. */
  lemma LateListenStaysRouted()
    ensures var history := [Dial, Forget(1), Apply(1, Register([97]))];
      var t := After(Start(2, 0), history);
      t.conns == {} && t.routes == map[[97] := {1}]
  {
    var h1: seq<Event> := [Dial];
    var h2 := h1 + [Forget(1)];
    var h3 := h2 + [Apply(1, Register([97]))];
    assert h1[..0] == [] && h2[..1] == h1 && h3[..2] == h2;
    assert After(Start(2, 0), h1) == Tables({1}, map[], 1, false, 2);
    assert After(Start(2, 0), h2) == Tables({}, map[], 1, false, 2);
    assert h3 == [Dial, Forget(1), Apply(1, Register([97]))];
  }

  /** The budget is never exceeded, and the next PID is always unused. */
  lemma {:induction false} BudgetHolds(budget: nat, pid: nat, history: seq<Event>)
    ensures |After(Start(budget, pid), history).conns| <= budget
    ensures After(Start(budget, pid), history).budget == budget
    ensures pid <= After(Start(budget, pid), history).nextPid
    ensures forall c :: c in After(Start(budget, pid), history).conns ==> pid < c <= After(Start(budget, pid), history).nextPid
  {
    if history != [] {
      BudgetHolds(budget, pid, history[..|history| - 1]);
      var t := After(Start(budget, pid), history[..|history| - 1]);
      if history[|history| - 1].Forget? {
        CardinalityShrinks(t.conns, history[|history| - 1].c);
      }
    }
  }

  /** Once the multiplexer is closed it is closed for good, and no connection is ever added. */
  lemma {:induction false} ClosedForGood(t: Tables, history: seq<Event>)
    ensures Next(t, MuxClose).closed && Next(t, MuxClose).conns == t.conns
    ensures t.closed ==> After(t, history).closed && After(t, history).conns <= t.conns
  {
    if history != [] {
      ClosedForGood(t, history[..|history| - 1]);
    }
  }

  lemma CardinalityShrinks(s: set<nat>, c: nat)
    ensures |s - {c}| <= |s|
  {
    if c in s {
      assert s == (s - {c}) + {c};
    } else {
      assert s - {c} == s;
    }
  }

  // ---- The tables as the source changes them ----

  /** The channels in todo are as they were; c is gone from the others. */
  ghost predicate PartlyUnregistered(before: Index, now: Index, c: nat, todo: set<bytes>) {
    && (forall channel :: channel in todo ==> channel in before && channel in now && now[channel] == before[channel])
    && (forall channel :: channel !in todo ==> (channel in now <==> channel in before && before[channel] - {c} != {}))
    && forall channel :: channel !in todo && channel in now ==> now[channel] == before[channel] - {c}
  }

  lemma OneMoreUnregistered(before: Index, now: Index, c: nat, todo: set<bytes>, channel: bytes)
    requires PartlyUnregistered(before, now, c, todo) && channel in todo
    ensures PartlyUnregistered(before, Unregistered(now, c, channel), c, todo - {channel})
  {
  }

  class Mux {
    var conns: set<nat>
    var routes: Index
    var nextPid: nat
    var closed: bool
    const budget: nat
    const pid: int

    /** Frames delivered to each connection ever made, and the connections whose done is closed. */
    var queues: map<nat, seq<bytes>>
    var done: set<nat>

    ghost function Value(): Tables
      reads this
    {
      Tables(conns, routes, nextPid, closed, budget)
    }

    /** Everything in the tables is a connection this multiplexer made, and no entry is empty. */
    ghost predicate Valid()
      reads this
    {
      && NoEmptyEntry(routes)
      && (forall channel, d :: IsRouted(routes, channel, d) ==> d in queues)
      && (forall c :: c in queues ==> c <= nextPid)
      && conns <= queues.Keys && done <= queues.Keys && conns !! done
      && |conns| <= budget
    }

    constructor (budget: nat, pid: nat)
      ensures Valid() && Value() == Start(budget, pid) && queues == map[] && done == {}
    {
      this.budget, this.pid := budget, pid;
      conns, routes, nextPid, closed := {}, map[], pid, false;
      queues, done := map[], {};
    }

    method DialContext() returns (r: Result<nat, DialError>)
      requires Valid()
      modifies this
      ensures Valid() && Value() == Next(old(Value()), Dial)
      ensures r.Ok? ==> r.value == nextPid && r.value !in old(queues) && queues == old(queues)[r.value := []]
      ensures r.Ok? ==> conns == old(conns) + {r.value} && routes == old(routes) && closed == old(closed)
      ensures r.Err? ==> queues == old(queues) && Value() == old(Value())
      ensures done == old(done)
      ensures r == Err(MuxClosed) <==> old(closed)
      ensures r == Err(BudgetExhausted) <==> !old(closed) && |old(conns)| >= budget
    {
      if closed {
        return Err(MuxClosed);
      }
      if |conns| >= budget {
        return Err(BudgetExhausted);
      }
      nextPid := nextPid + 1;
      conns := conns + {nextPid};
      queues := queues[nextPid := []];
      return Ok(nextPid);
    }

    method UnregisterLocked(c: nat, channel: bytes)
      modifies this`routes
      ensures routes == Unregistered(old(routes), c, channel)
    {
      if channel !in routes {
        return;
      }
      routes := routes[channel := routes[channel] - {c}];
      if routes[channel] == {} {
        routes := routes - {channel};
      }
    }

    /** Ranges over the channels, in whatever order, removing c from each. */
    method UnregisterEverywhere(c: nat)
      requires NoEmptyEntry(routes)
      modifies this`routes
      ensures routes == UnregisteredAll(old(routes), c)
    {
      var todo := routes.Keys;
      while todo != {}
        invariant todo <= old(routes).Keys
        invariant PartlyUnregistered(old(routes), routes, c, todo)
        decreases |todo|
      {
        var channel :| channel in todo;
        ghost var before := routes;
        UnregisterLocked(c, channel);
        OneMoreUnregistered(old(routes), before, c, todo, channel);
        todo := todo - {channel};
      }
    }

    /** apply, by a connection of this multiplexer, open or not. */
    method ApplyOp(c: nat, op: ListenOp)
      requires Valid() && c in queues
      modifies this`routes
      ensures Valid() && Value() == Next(old(Value()), Apply(c, op))
    {
      RoutedIndex(routes, c, op);
      match op
      case Register(channel) =>
        var reg: set<nat> := if channel in routes then routes[channel] else {};
        routes := routes[channel := reg + {c}];
      case Unregister(channel) => UnregisterLocked(c, channel);
      case UnregisterAll => UnregisterEverywhere(c);
    }

    method ForgetConn(c: nat)
      requires Valid()
      modifies this`conns, this`routes
      ensures Valid() && Value() == Next(old(Value()), Forget(c))
    {
      RoutedIndex(routes, c, UnregisterAll);
      CardinalityShrinks(conns, c);
      conns := conns - {c};
      UnregisterEverywhere(c);
    }

    /** shutdown: out of the tables first, then done. */
    method Shutdown(c: nat)
      requires Valid() && c in queues
      modifies this`conns, this`routes, this`done
      ensures Valid() && Value() == Next(old(Value()), Forget(c)) && done == old(done) + {c}
    {
      ForgetConn(c);
      done := done + {c};
    }

    /** Says which connections are to be closed; nothing the second time. */
    method Close() returns (victims: set<nat>)
      requires Valid()
      modifies this`closed
      ensures Valid() && Value() == Next(old(Value()), MuxClose)
      ensures closed && conns == old(conns) && routes == old(routes)
      ensures victims == if old(closed) then {} else conns
    {
      if closed {
        return {};
      }
      closed := true;
      victims := conns;
    }

    method Deliver(c: nat, frame: bytes)
      requires c in queues
      modifies this`queues
      ensures queues == if c in done then old(queues) else old(queues)[c := old(queues)[c] + [frame]]
    {
      if c in done {
        return;
      }
      queues := queues[c := queues[c] + [frame]];
    }

    /** One notification frame on every open listener of the channel, and nothing anywhere else. */
    method Notify(channel: bytes, payload: bytes)
      requires Valid()
      modifies this`queues
      ensures Valid() && queues.Keys == old(queues).Keys
      ensures var frame := PgProto.EncodeNotification(PgProto.Notification(pid, channel, payload));
        forall d :: d in queues ==>
          queues[d] == old(queues)[d] + if IsRouted(routes, channel, d) && d !in done then [frame] else []
    {
      hide PgProto.EncodeNotification;
      var targets := Targets(channel);
      var frame := PgProto.EncodeNotification(PgProto.Notification(pid, channel, payload));
      var todo := targets;
      while todo != {}
        invariant todo <= targets && queues.Keys == old(queues).Keys
        invariant forall d :: d in queues ==>
          queues[d] == old(queues)[d] + if d in targets - todo && d !in done then [frame] else []
        decreases |todo|
      {
        var d :| d in todo;
        Deliver(d, frame);
        todo := todo - {d};
      }
    }

    method Targets(channel: bytes) returns (targets: set<nat>)
      requires Valid()
      ensures targets <= queues.Keys && forall d :: d in targets <==> IsRouted(routes, channel, d)
    {
      targets := if channel in routes then routes[channel] else {};
      forall d | d in targets ensures d in queues {
        assert IsRouted(routes, channel, d);
      }
    }

    /** Listeners: how many connections, open or not, are registered for a channel. */
    method Listeners(channel: bytes) returns (n: nat)
      requires Valid()
      ensures n == |set d | d in queues && IsRouted(routes, channel, d)|
    {
      var targets := Targets(channel);
      assert targets == set d | d in queues && IsRouted(routes, channel, d);
      n := |targets|;
    }
  }
}
