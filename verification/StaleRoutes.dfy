/**
 * What LISTEN operations applied behind a close do to the routing index: module WriteStream says
 * which they are, module Routing what becomes of them.
 */
module StaleRoutes {
  import opened Common
  import opened PgProto
  import opened Listen
  import opened ListenText
  import W = WriteStream
  import R = Routing

  /** Some operations of connection c, as events of the tables. */
  function Applies(c: nat, ops: seq<ListenOp>): (r: seq<R.Event>)
    ensures |r| == |ops| && forall i :: 0 <= i < |ops| ==> r[i] == R.Apply(c, ops[i])
  {
    seq(|ops|, i requires 0 <= i < |ops| => R.Apply(c, ops[i]))
  }

  /** What a connection's writes do to the tables, in order: its operations, its close, and those behind it. */
  function Trace(c: nat, s: W.Stream): seq<R.Event> {
    Applies(c, s.ops) + if s.closed then [R.Forget(c)] + Applies(c, s.lateOps) else []
  }

  /** The last word of some operations on a channel is a LISTEN. */
  predicate LeavesRegistered(ops: seq<ListenOp>, channel: bytes) {
    ops != [] &&
    var last := ops[|ops| - 1];
    if last == Register(channel) then true
    else if last == Unregister(channel) || last == UnregisterAll then false
    else LeavesRegistered(ops[..|ops| - 1], channel)
  }

  lemma {:induction false} LastWord(before: seq<R.Event>, c: nat, ops: seq<ListenOp>, channel: bytes)
    ensures R.Listening(before + [R.Forget(c)] + Applies(c, ops), c, channel) <==> LeavesRegistered(ops, channel)
  {
    var history := before + [R.Forget(c)] + Applies(c, ops);
    if ops == [] {
      assert history == before + [R.Forget(c)];
    } else {
      var init := ops[..|ops| - 1];
      assert history[|history| - 1] == R.Apply(c, ops[|ops| - 1]);
      assert history[..|history| - 1] == before + [R.Forget(c)] + Applies(c, init);
      LastWord(before, c, init, channel);
    }
  }

  /** After its close a connection is routed on exactly the channels the operations behind the close leave it on. */
  lemma StaleExactly(t: R.Tables, before: seq<R.Event>, c: nat, s: W.Stream, channel: bytes)
    requires t.routes == map[] && s.closed
    ensures R.IsRouted(R.After(t, before + Trace(c, s)).routes, channel, c) <==> LeavesRegistered(s.lateOps, channel)
  {
    hide R.After, R.IsRouted;
    var history := before + Trace(c, s);
    R.IndexIsHistory(t, history);
    assert history == before + Applies(c, s.ops) + [R.Forget(c)] + Applies(c, s.lateOps);
    LastWord(before + Applies(c, s.ops), c, s.lateOps, channel);
  }

  /** And it is gone from the connections. */
  lemma {:induction false} GoneExactly(t: R.Tables, before: seq<R.Event>, c: nat, ops: seq<ListenOp>)
    ensures c !in R.After(t, before + [R.Forget(c)] + Applies(c, ops)).conns
  {
    var history := before + [R.Forget(c)] + Applies(c, ops);
    if ops == [] {
      assert history == before + [R.Forget(c)];
      assert history[..|history| - 1] == before;
    } else {
      assert history[..|history| - 1] == before + [R.Forget(c)] + Applies(c, ops[..|ops| - 1]);
      GoneExactly(t, before, c, ops[..|ops| - 1]);
    }
  }

  // ---- A stream that does it ----

  const TERMINATE: bytes := [88, 0, 0, 0, 4]

  /** The operations as SQL text. */
  function TextOf(ops: seq<ListenOp>): bytes
    requires ops != []
  {
    Script(AllPlainly(ops))
  }

  /** A startup message, a Terminate, and a Query of some LISTEN operations. */
  function LateStream(ops: seq<ListenOp>): bytes
    requires ops != []
  {
    W.STARTUP + (TERMINATE + EncodeQuery(TextOf(ops)))
  }

  lemma TerminateReads(rest: bytes)
    ensures NextFrontend(TERMINATE + rest, false) == Message(FrontendMessage(FE_TERMINATE, 0, TERMINATE, []))
  {
    assert PutInt32(4) == [0, 0, 0, 4];
    FrontendReads(FrontendMessage(FE_TERMINATE, 0, TERMINATE, []), false, rest);
  }

  /** The connection of that stream, closed by its Terminate with the Query still to be read. */
  function Closed(query: bytes): W.Stream {
    W.Stream(query, false, true, [], [], [W.Handshake], [], [])
  }

  lemma StreamCloses(query: bytes)
    ensures var whole := W.More(W.Fresh, W.STARTUP + (TERMINATE + query));
      W.WellFramed(whole) && W.Ideal(whole) == Closed(query)
  {
    hide NextFrontend;
    var rest := TERMINATE + query;
    W.StartupReads(rest);
    TerminateReads(query);
    var whole := W.More(W.Fresh, W.STARTUP + rest);
    assert whole.wbuf == W.STARTUP + rest && whole.wbuf[8..] == rest && rest[5..] == query;
    var started := W.Stream(rest, false, false, [], [], [W.Handshake], [], []);
    var m := FrontendMessage(0, 196608, W.STARTUP, []);
    assert W.Flushed(W.Handle(whole, m, true).c, true) == started;
    assert W.Ideal(started) == Closed(query) && W.WellFramed(started);
  }

  lemma TextRoundTrip(ops: seq<ListenOp>)
    requires ops != [] && (forall op :: op in ops ==> Named(op))
    ensures Observed(TextOf(ops)) == ops
  {
    hide Observed, Named;
    ScriptRoundTrip(ops);
  }

  lemma ClosedReadsOn(ops: seq<ListenOp>)
    requires ops != [] && (forall op :: op in ops ==> Named(op))
    requires 0 !in TextOf(ops) && |TextOf(ops)| + 5 <= MAX_MESSAGE
    ensures W.Decode(Closed(EncodeQuery(TextOf(ops))), true).c.lateOps == ops
  {
    hide NextFrontend, Observed, TextOf, Named;
    var query := EncodeQuery(TextOf(ops));
    QueryRoundTrip(TextOf(ops), []);
    assert query + [] == query;
    TextRoundTrip(ops);
    var m := NextFrontend(query, false).msg;
    var h := W.Handle(Closed(query), m, true);
    assert h.c.wbuf == [] && h.c.lateOps == ops;
    W.NothingDecoded(h.c);
  }

  /** Any operations behind a Terminate are applied late when written with it, and not when cut at the close. */
  lemma LateExactly(ops: seq<ListenOp>)
    requires ops != [] && (forall op :: op in ops ==> Named(op))
    requires 0 !in TextOf(ops) && |TextOf(ops)| + 5 <= MAX_MESSAGE
    ensures W.Fed(W.Fresh, [LateStream(ops)]).lateOps == ops
    ensures W.Fed(W.Fresh, [W.STARTUP + TERMINATE, EncodeQuery(TextOf(ops))]).lateOps == []
    ensures W.Fed(W.Fresh, [LateStream(ops)]).closed
    ensures W.Fed(W.Fresh, [W.STARTUP + TERMINATE, EncodeQuery(TextOf(ops))]).closed
  {
    hide W.Ideal, W.WellFramed, W.Decode, W.Fed, W.Written, TextOf, EncodeQuery;
    var query := EncodeQuery(TextOf(ops));
    var whole := W.More(W.Fresh, LateStream(ops));
    StreamCloses(query);
    ClosedReadsOn(ops);
    W.FreshAtRest();
    W.WrittenLate(W.Fresh, LateStream(ops));
    W.WrittenAgrees(W.Fresh, LateStream(ops));
    W.FedOne(W.Fresh, LateStream(ops));
    Regroup(W.STARTUP, TERMINATE, query);
    W.CutAtClose(LateStream(ops), W.STARTUP + TERMINATE, query);
  }

  /** One Write of startup, Terminate and LISTEN "a": the route outlives the connection. Cut in two, it does not. */
  lemma LateListenLeavesRoute(before: seq<R.Event>, c: nat)
    ensures var t := R.Start(2, 0);
      var once := W.Fed(W.Fresh, [LateStream([Register([97])])]);
      var twice := W.Fed(W.Fresh, [W.STARTUP + TERMINATE, EncodeQuery(TextOf([Register([97])]))]);
      && R.IsRouted(R.After(t, before + Trace(c, once)).routes, [97], c)
      && c !in R.After(t, before + Trace(c, once)).conns
      && !R.IsRouted(R.After(t, before + Trace(c, twice)).routes, [97], c)
  {
    hide W.Fed, R.After, R.IsRouted, EncodeQuery;
    var ops := [Register([97])];
    var t := R.Start(2, 0);
    OneCommand();
    LateExactly(ops);
    var once, twice := W.Fed(W.Fresh, [LateStream(ops)]), W.Fed(W.Fresh, [W.STARTUP + TERMINATE, EncodeQuery(TextOf(ops))]);
    StaleExactly(t, before, c, once, [97]);
    assert before + Trace(c, once) == (before + Applies(c, once.ops)) + [R.Forget(c)] + Applies(c, once.lateOps);
    GoneExactly(t, before + Applies(c, once.ops), c, once.lateOps);
    StaleExactly(t, before, c, twice, [97]);
  }

  lemma OneCommand()
    ensures 0 !in TextOf([Register([97])]) && |TextOf([Register([97])])| == 10
  {
  }
}
