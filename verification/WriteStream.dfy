/**
 * The write side of a logical connection: Conn.Write and handleLocally of wasmpg/conn.go.
 *
 * The effects of a Write are the bytes it submits to the backend, the answers it delivers
 * itself and the LISTEN operations it applies. `up` says whether submit succeeds on an open
 * connection; on a closed one it is refused.
 */
module WriteStream {
  import opened Common
  import opened PgProto
  import opened Listen

  /** What is delivered without asking the backend. */
  datatype Answer = SslRefused | Handshake | FatalError(error: FrontendError)

  /**
   * The state Write works on, and its effects so far. `forward` is the batch not yet
   * submitted; `lateOps` are operations applied after the connection had closed.
   */
  datatype Stream = Stream(
    wbuf: bytes,
    startup: bool,
    closed: bool,
    forward: bytes,
    sent: bytes,
    answers: seq<Answer>,
    ops: seq<ListenOp>,
    lateOps: seq<ListenOp>)

  const Fresh := Stream([], true, false, [], [], [], [], [])

  /** deliver: a closed connection accepts nothing more. */
  function Answered(c: Stream, a: Answer): (r: Stream) {
    if c.closed then c else c.(answers := c.answers + [a])
  }

  function Applied(c: Stream, ops: seq<ListenOp>): (r: Stream) {
    if c.closed then c.(lateOps := c.lateOps + ops) else c.(ops := c.ops + ops)
  }

  /** flush: the batch is gone either way, and reaches the backend only if submit succeeds. */
  function Flushed(c: Stream, up: bool): (r: Stream) {
    if !c.closed && up then c.(sent := c.sent + c.forward, forward := []) else c.(forward := [])
  }

  predicate FlushFails(c: Stream, up: bool) {
    c.forward != [] && (c.closed || !up)
  }

  /** One message taken off the buffer and handled; `stop` when Write returns an error for it. */
  datatype Handled = Handled(c: Stream, stop: bool)

  function Handle(c: Stream, m: FrontendMessage, up: bool): (r: Handled)
    requires |m.raw| <= |c.wbuf|
    ensures r.c.wbuf == c.wbuf[|m.raw|..]
  {
    var d := c.(wbuf := c.wbuf[|m.raw|..]);
    if c.startup then
      if m.code == SSL_REQUEST || m.code == GSS_ENC_REQUEST then Handled(Answered(d, SslRefused), false)
      else if m.code == CANCEL_REQUEST then Handled(d.(closed := true), false)
      else Handled(Answered(d.(startup := false), Handshake), false)
    else if m.typ == FE_TERMINATE then
      if FlushFails(d, up) then Handled(Flushed(d, up), true)
      else Handled(Flushed(d, up).(closed := true), false)
    else if m.typ == FE_QUERY || m.typ == FE_PARSE then
      Handled(Applied(d, Observed(Sql(m))).(forward := d.forward + m.raw), false)
    else Handled(d.(forward := d.forward + m.raw), false)
  }

  /** The decode loop of Write, from where it stands. */
  function Decode(c: Stream, up: bool): (r: Handled)
    decreases |c.wbuf|
  {
    match NextFrontend(c.wbuf, c.startup)
    case Incomplete => Handled(c, false)
    case Bad(e) => Handled(Answered(c, FatalError(e)).(closed := true, forward := []), true)
    case Message(m) =>
      var h := Handle(c, m, up);
      if h.stop then h else Decode(h.c, up)
  }

  /** Write: nothing at all on a closed connection; otherwise decode, then flush. */
  function Written(c: Stream, p: bytes, up: bool): (r: Stream)
  {
    if c.closed then c
    else
      var h := Decode(c.(wbuf := c.wbuf + p, forward := []), up);
      if h.stop then h.c.(forward := []) else Flushed(h.c, up)
  }

  /** Conn's write side as the source keeps it. */
  class WriteSide {
    var wbuf: bytes
    var startup: bool
    var closed: bool
    var sent: bytes
    var answers: seq<Answer>
    var ops: seq<ListenOp>
    var lateOps: seq<ListenOp>

    ghost function Value(forward: bytes): Stream
      reads this
    {
      Stream(wbuf, startup, closed, forward, sent, answers, ops, lateOps)
    }

    constructor ()
      ensures Value([]) == Fresh
    {
      wbuf, startup, closed, sent, answers, ops, lateOps := [], true, false, [], [], [], [];
    }

    method Deliver(a: Answer)
      modifies this`answers
      ensures forall f :: Value(f) == Answered(old(Value(f)), a)
    {
      if !closed {
        answers := answers + [a];
      }
    }

    method Apply(observed: seq<ListenOp>)
      modifies this`ops, this`lateOps
      ensures forall f :: Value(f) == Applied(old(Value(f)), observed)
    {
      if closed {
        lateOps := lateOps + observed;
      } else {
        ops := ops + observed;
      }
    }

    /** submit, for a batch that is not empty. */
    method Submit(msg: bytes, up: bool) returns (ok: bool)
      modifies this`sent
      ensures ok == (!closed && up)
      ensures sent == if ok then old(sent) + msg else old(sent)
    {
      ok := !closed && up;
      if ok {
        sent := sent + msg;
      }
    }

    method Flush(forward: bytes, up: bool) returns (ok: bool)
      modifies this`sent
      ensures ok == !FlushFails(old(Value(forward)), up)
      ensures Value([]) == Flushed(old(Value(forward)), up)
    {
      if |forward| == 0 {
        return true;
      }
      ok := Submit(forward, up);
    }

    /** handleLocally: answers what never reaches the backend, and says whether it did. */
    method HandleLocally(m: FrontendMessage, forward: bytes, up: bool)
      returns (local: bool, ok: bool, rest: bytes)
      modifies this
      ensures wbuf == old(wbuf)
      ensures forall w: bytes | w == m.raw + wbuf ::
        Handled(Value(if local then rest else rest + m.raw), !ok) == Handle(old(Value(forward)).(wbuf := w), m, up)
    {
      local, ok, rest := true, true, forward;
      if startup {
        if m.code == SSL_REQUEST || m.code == GSS_ENC_REQUEST {
          Deliver(SslRefused);
        } else if m.code == CANCEL_REQUEST {
          closed := true;
        } else {
          startup := false;
          Deliver(Handshake);
        }
        return;
      }
      if m.typ == FE_TERMINATE {
        ok := Flush(forward, up);
        rest := [];
        if ok {
          closed := true;
        }
      } else if m.typ == FE_QUERY || m.typ == FE_PARSE {
        var observed := ObserveListen(Sql(m));
        Apply(observed);
        local := false;
      } else {
        local := false;
      }
    }

    /** Returns whether all of p was accepted. */
    method Write(p: bytes, up: bool) returns (ok: bool)
      modifies this
      ensures Value([]) == Written(old(Value([])), p, up)
    {
      hide NextFrontend, Handle;
      if closed {
        return false;
      }
      wbuf := wbuf + p;
      var forward: bytes := [];
      ghost var start := Value([]);
      while true
        invariant !start.closed && start == old(Value([])).(wbuf := old(wbuf) + p)
        invariant Decode(start, up) == Decode(Value(forward), up)
        decreases |wbuf|
      {
        var next := NextFrontend(wbuf, startup);
        if next.Bad? {
          Deliver(FatalError(next.error));
          closed := true;
          return false;
        }
        if next.Incomplete? {
          break;
        }
        var m := next.msg;
        ghost var before := Value(forward);
        wbuf := wbuf[|m.raw|..];
        assert before == Value(forward).(wbuf := m.raw + wbuf);
        var local, fine, rest := HandleLocally(m, forward, up);
        if !fine {
          return false;
        }
        forward := if local then rest else rest + m.raw;
      }
      ok := Flush(forward, up);
    }
  }

  // ---- Any way of cutting the stream into writes gives the same effects ----

  /** Feeding the chunks one Write at a time. */
  function Fed(c: Stream, chunks: seq<bytes>): (r: Stream)
    decreases |chunks|
  {
    if chunks == [] then c else Fed(Written(c, chunks[0], true), chunks[1..])
  }

  /**
   * The reference: the whole stream read at once, every message forwarded on its own, up to
   * the first message that closes the connection.
   */
  function Ideal(c: Stream): (r: Stream)
    decreases |c.wbuf|
  {
    if c.closed then c
    else match NextFrontend(c.wbuf, c.startup)
      case Incomplete => c
      case Bad(e) => Answered(c, FatalError(e)).(closed := true)
      case Message(m) => Ideal(Flushed(Handle(c, m, true).c, true))
  }

  predicate WellFramed(c: Stream)
    decreases |c.wbuf|
  {
    c.closed ||
    match NextFrontend(c.wbuf, c.startup)
    case Incomplete => true
    case Bad(_) => false
    case Message(m) => WellFramed(Flushed(Handle(c, m, true).c, true))
  }

  /** What an observer can tell from a connection. */
  datatype View = View(
    wbuf: bytes, startup: bool, closed: bool, sent: bytes, answers: seq<Answer>, ops: seq<ListenOp>,
    lateOps: seq<ListenOp>)

  /**
   * All of it but the operations applied after the close. The batch of an open connection
   * counts as sent: the flush that ends the Write sends it.
   */
  function UpToClose(c: Stream): (r: View) {
    if c.closed then View([], false, true, c.sent, c.answers, c.ops, [])
    else View(c.wbuf, c.startup, false, c.sent + c.forward, c.answers, c.ops, [])
  }

  function Seen(c: Stream): (r: View) {
    UpToClose(c).(lateOps := c.lateOps)
  }

  /** A connection that has not finished its handshake has forwarded nothing. */
  predicate Sane(c: Stream) {
    c.startup ==> c.forward == [] && c.sent == []
  }

  /** No complete message is left in the buffer. */
  predicate Drained(c: Stream) {
    NextFrontend(c.wbuf, c.startup).Incomplete?
  }

  /** Between two writes: nothing batched, nothing undecoded. */
  predicate AtRest(c: Stream) {
    Sane(c) && c.forward == [] && Drained(c)
  }

  /** The same to an observer, except that c may have lost the end of what d sent. */
  predicate Agrees(c: Stream, d: Stream) {
    UpToClose(c).sent <= UpToClose(d).sent && UpToClose(c).(sent := UpToClose(d).sent) == UpToClose(d)
  }

  /** What a message does depends on the message, not on how much of the batch is submitted. */
  lemma HandleSeen(c: Stream, d: Stream, m: FrontendMessage)
    requires !c.closed && !d.closed && UpToClose(c) == UpToClose(d) && Sane(c) && Sane(d)
    requires |m.raw| <= |c.wbuf|
    ensures UpToClose(Handle(c, m, true).c) == UpToClose(Handle(d, m, true).c)
    ensures !Handle(c, m, true).stop && Sane(Handle(c, m, true).c)
  {
    hide Observed, Sql;
    Regroup(c.sent, c.forward, m.raw);
    Regroup(d.sent, d.forward, m.raw);
  }

  lemma FlushedSeen(c: Stream)
    requires Sane(c)
    ensures UpToClose(Flushed(c, true)) == UpToClose(c) && Sane(Flushed(c, true)) && Flushed(c, true).forward == []
  {
  }

  /** A closed connection's effects stand, whatever else the same Write decodes. */
  lemma {:induction false} ClosedStays(c: Stream)
    requires c.closed
    ensures Decode(c, true).c.closed && UpToClose(Decode(c, true).c) == UpToClose(c)
    decreases |c.wbuf|
  {
    hide NextFrontend, Observed, Sql;
    var next := NextFrontend(c.wbuf, c.startup);
    if next.Message? {
      var h := Handle(c, next.msg, true);
      if !h.stop {
        ClosedStays(h.c);
      }
    }
  }

  lemma {:induction false} IdealSeen(c: Stream, d: Stream)
    requires !c.closed && !d.closed && UpToClose(c) == UpToClose(d) && Sane(c) && Sane(d)
    requires c.forward == [] && d.forward == []
    ensures UpToClose(Ideal(c)) == UpToClose(Ideal(d))
    ensures WellFramed(c) == WellFramed(d)
    decreases |c.wbuf|
  {
    hide NextFrontend, Handle;
    assert c.sent + [] == c.sent && d.sent + [] == d.sent;
    var next := NextFrontend(c.wbuf, c.startup);
    if next.Message? {
      HandleSeen(c, d, next.msg);
      HandleSeen(d, c, next.msg);
      var c', d' := Flushed(Handle(c, next.msg, true).c, true), Flushed(Handle(d, next.msg, true).c, true);
      FlushedSeen(Handle(c, next.msg, true).c);
      FlushedSeen(Handle(d, next.msg, true).c);
      if !c'.closed {
        IdealSeen(c', d');
      }
    }
  }

  /** The source's loop agrees with the reference, but for the batch a framing error drops. */
  lemma {:induction false} DecodeAgrees(c: Stream, d: Stream)
    requires !c.closed && !d.closed && UpToClose(c) == UpToClose(d) && Sane(c) && Sane(d) && d.forward == []
    ensures Agrees(Decode(c, true).c, Ideal(d))
    ensures Decode(c, true).c.closed || (Sane(Decode(c, true).c) && Drained(Decode(c, true).c))
    ensures WellFramed(d) ==> UpToClose(Decode(c, true).c) == UpToClose(Ideal(d))
    ensures !Decode(c, true).c.closed ==> UpToClose(Decode(c, true).c) == UpToClose(Ideal(d))
    ensures Decode(c, true).stop ==> Decode(c, true).c.closed
    decreases |c.wbuf|
  {
    hide NextFrontend, Handle;
    assert c.sent + [] == c.sent && d.sent + [] == d.sent;
    var next := NextFrontend(c.wbuf, c.startup);
    if next.Message? {
      HandleSeen(c, d, next.msg);
      HandleSeen(d, c, next.msg);
      var c', d' := Handle(c, next.msg, true).c, Flushed(Handle(d, next.msg, true).c, true);
      FlushedSeen(Handle(d, next.msg, true).c);
      if c'.closed {
        ClosedStays(c');
      } else {
        DecodeAgrees(c', d');
      }
    }
  }

  function More(c: Stream, b: bytes): (r: Stream) {
    c.(wbuf := c.wbuf + b)
  }

  lemma HandleMore(c: Stream, m: FrontendMessage, b: bytes)
    requires |m.raw| <= |c.wbuf|
    ensures Handle(More(c, b), m, true).c == More(Handle(c, m, true).c, b)
  {
    hide Observed, Sql;
    assert More(c, b).wbuf[|m.raw|..] == c.wbuf[|m.raw|..] + b;
  }

  /** Reading a stream at once, or reading its beginning and then the rest, is the same. */
  lemma {:induction false} IdealSplit(c: Stream, b: bytes)
    requires !c.closed && Sane(c) && c.forward == []
    ensures Ideal(c).closed ==> UpToClose(Ideal(More(c, b))) == UpToClose(Ideal(c)) && WellFramed(More(c, b)) == WellFramed(c)
    ensures !Ideal(c).closed ==> Sane(Ideal(c)) && Ideal(c).forward == []
    ensures !Ideal(c).closed ==> Ideal(More(c, b)) == Ideal(More(Ideal(c), b))
    ensures !Ideal(c).closed ==> WellFramed(More(c, b)) == WellFramed(More(Ideal(c), b))
    decreases |c.wbuf|
  {
    hide NextFrontend, Handle;
    var next := NextFrontend(c.wbuf, c.startup);
    if !next.Incomplete? {
      NextFrontendPrefix(c.wbuf, b, c.startup);
    }
    if next.Message? {
      HandleMore(c, next.msg, b);
      HandleSeen(c, c, next.msg);
      var h := Handle(c, next.msg, true).c;
      FlushedSeen(h);
      assert Flushed(More(h, b), true) == More(Flushed(h, true), b);
      if !h.closed {
        IdealSplit(Flushed(h, true), b);
      }
    }
  }

  /** One Write against the reference, in either outcome. */
  lemma WrittenAgrees(c: Stream, p: bytes)
    requires !c.closed && AtRest(c)
    ensures Agrees(Written(c, p, true), Ideal(More(c, p)))
    ensures WellFramed(More(c, p)) ==> UpToClose(Written(c, p, true)) == UpToClose(Ideal(More(c, p)))
    ensures Written(c, p, true).closed || AtRest(Written(c, p, true))
    ensures Written(c, p, true).closed || UpToClose(Written(c, p, true)) == UpToClose(Ideal(More(c, p)))
    ensures Written(c, p, true).closed == Ideal(More(c, p)).closed
  {
    hide NextFrontend, Handle, Decode, Ideal;
    var d := More(c, p);
    DecodeAgrees(d, d);
    var h := Decode(d, true);
    if !h.stop && !h.c.closed {
      FlushedSeen(h.c);
    }
  }

  lemma {:induction false} FedClosed(c: Stream, chunks: seq<bytes>)
    requires c.closed
    ensures Fed(c, chunks) == c
  {
    if chunks != [] {
      FedClosed(c, chunks[1..]);
    }
  }

  /**
   * However a stream is cut into writes, the local answers, the operations applied while open
   * and the closing are those of reading it at once; what reaches the backend is a prefix of
   * what it should be, and all of it when no framing error is met.
   */
  lemma {:induction false} ChunksAgree(c: Stream, chunks: seq<bytes>)
    requires !c.closed && AtRest(c)
    ensures Agrees(Fed(c, chunks), Ideal(More(c, Concat(chunks))))
    ensures WellFramed(More(c, Concat(chunks))) ==> UpToClose(Fed(c, chunks)) == UpToClose(Ideal(More(c, Concat(chunks))))
    decreases |chunks|, 0
  {
    if chunks == [] {
      assert More(c, Concat(chunks)) == c;
    } else {
      var p, rest := chunks[0], Concat(chunks[1..]);
      var first, w := More(c, p), Written(c, p, true);
      assert More(c, Concat(chunks)) == More(first, rest) by { Regroup(c.wbuf, p, rest); }
      ChunkStep(c, p, chunks[1..]);
    }
  }

  lemma {:induction false} ChunkStep(c: Stream, p: bytes, chunks: seq<bytes>)
    requires !c.closed && AtRest(c)
    ensures var w, whole := Written(c, p, true), Ideal(More(More(c, p), Concat(chunks)));
      && Agrees(Fed(w, chunks), whole)
      && (WellFramed(More(More(c, p), Concat(chunks))) ==> UpToClose(Fed(w, chunks)) == UpToClose(whole))
    decreases |chunks|, 1
  {
    hide NextFrontend, Handle, Decode, Ideal, Written, WellFramed, Fed;
    var first, w, rest := More(c, p), Written(c, p, true), Concat(chunks);
    WrittenAgrees(c, p);
    IdealSplit(first, rest);
    if w.closed {
      FedClosed(w, chunks);
    } else {
      var i := Ideal(first);
      assert UpToClose(w) == UpToClose(i);
      IdealSeen(More(i, rest), More(w, rest));
      ChunksAgree(w, chunks);
    }
  }

  /** From a fresh connection: up to the close, two ways of cutting one well-framed stream cannot be told apart. */
  lemma ChunkInvariance(chunks: seq<bytes>, chunks': seq<bytes>)
    requires Concat(chunks) == Concat(chunks') && WellFramed(More(Fresh, Concat(chunks)))
    ensures UpToClose(Fed(Fresh, chunks)) == UpToClose(Fed(Fresh, chunks'))
  {
    hide Ideal, Fed, WellFramed;
    ChunksAgree(Fresh, chunks);
    ChunksAgree(Fresh, chunks');
  }

  // ---- Behind the close: what the rest of the same Write still applies ----

  /** The operations read behind the message that closes the connection, when all of it is written at once. */
  function Behind(c: Stream): seq<ListenOp> {
    Decode(Ideal(c), true).c.lateOps
  }

  lemma HandleClosed(c: Stream, d: Stream, m: FrontendMessage)
    requires c.closed && d.closed && c.wbuf == d.wbuf && c.startup == d.startup && c.forward == d.forward
    requires c.lateOps == d.lateOps && |m.raw| <= |c.wbuf|
    ensures var h, k := Handle(c, m, true), Handle(d, m, true);
      && h.c.closed && k.c.closed && h.stop == k.stop
      && h.c.wbuf == k.c.wbuf && h.c.startup == k.c.startup && h.c.forward == k.c.forward && h.c.lateOps == k.c.lateOps
      && c.lateOps <= h.c.lateOps
  {
    hide Observed, Sql;
  }

  /** What is applied late depends on the bytes alone. */
  lemma {:induction false} LateOnly(c: Stream, d: Stream)
    requires c.closed && d.closed && c.wbuf == d.wbuf && c.startup == d.startup && c.forward == d.forward
    requires c.lateOps == d.lateOps
    ensures Decode(c, true).c.lateOps == Decode(d, true).c.lateOps
    ensures c.lateOps <= Decode(c, true).c.lateOps
    decreases |c.wbuf|
  {
    hide NextFrontend, Handle;
    var next := NextFrontend(c.wbuf, c.startup);
    if next.Message? {
      HandleClosed(c, d, next.msg);
      if !Handle(c, next.msg, true).stop {
        LateOnly(Handle(c, next.msg, true).c, Handle(d, next.msg, true).c);
      }
    }
  }

  /** More bytes behind can only add to it. */
  lemma {:induction false} LateMore(c: Stream, b: bytes)
    requires c.closed
    ensures Decode(c, true).c.lateOps <= Decode(More(c, b), true).c.lateOps
    decreases |c.wbuf|
  {
    hide NextFrontend, Handle;
    var next := NextFrontend(c.wbuf, c.startup);
    LateOnly(More(c, b), More(c, b));
    if !next.Incomplete? {
      NextFrontendPrefix(c.wbuf, b, c.startup);
    }
    if next.Message? {
      HandleMore(c, next.msg, b);
      HandleMoreStops(c, next.msg, b);
      HandleClosed(c, c, next.msg);
      if !Handle(c, next.msg, true).stop {
        LateMore(Handle(c, next.msg, true).c, b);
      }
    }
  }

  lemma HandleMoreStops(c: Stream, m: FrontendMessage, b: bytes)
    requires |m.raw| <= |c.wbuf|
    ensures Handle(More(c, b), m, true).stop == Handle(c, m, true).stop
  {
    hide Observed, Sql;
  }

  lemma HandleOpen(c: Stream, m: FrontendMessage)
    requires !c.closed && |m.raw| <= |c.wbuf| && Sane(c)
    ensures Handle(c, m, true).c.lateOps == c.lateOps
    ensures Handle(c, m, true).c.closed ==> Handle(c, m, true).c.forward == []
  {
    hide Observed, Sql;
  }

  /** The reference leaves no batch and applies nothing late, and where it stops depends on what is seen. */
  lemma {:induction false} IdealRest(c: Stream, d: Stream)
    requires !c.closed && !d.closed && UpToClose(c) == UpToClose(d) && Sane(c) && Sane(d)
    requires c.forward == [] && d.forward == []
    ensures Ideal(c).wbuf == Ideal(d).wbuf && Ideal(c).startup == Ideal(d).startup
    ensures Ideal(c).forward == [] && Ideal(c).lateOps == c.lateOps
    ensures Ideal(c).closed == Ideal(d).closed
    decreases |c.wbuf|
  {
    hide NextFrontend, Handle;
    assert c.sent + [] == c.sent && d.sent + [] == d.sent;
    var next := NextFrontend(c.wbuf, c.startup);
    if next.Message? {
      HandleSeen(c, d, next.msg);
      HandleSeen(d, c, next.msg);
      HandleOpen(c, next.msg);
      HandleOpen(d, next.msg);
      HandleStartup(c, d, next.msg);
      var c', d' := Flushed(Handle(c, next.msg, true).c, true), Flushed(Handle(d, next.msg, true).c, true);
      FlushedSeen(Handle(c, next.msg, true).c);
      FlushedSeen(Handle(d, next.msg, true).c);
      if !c'.closed {
        IdealRest(c', d');
      }
    }
  }

  lemma HandleStartup(c: Stream, d: Stream, m: FrontendMessage)
    requires c.startup == d.startup && |m.raw| <= |c.wbuf| && |m.raw| <= |d.wbuf|
    ensures Handle(c, m, true).stop || Handle(d, m, true).stop || Handle(c, m, true).c.startup == Handle(d, m, true).c.startup
  {
    hide Observed, Sql;
  }

  /** Where the reference closes does not depend on what follows. */
  lemma {:induction false} IdealClosed(c: Stream, b: bytes)
    requires !c.closed && Sane(c) && c.forward == [] && Ideal(c).closed
    ensures Ideal(More(c, b)) == More(Ideal(c), b)
    decreases |c.wbuf|
  {
    hide NextFrontend, Handle;
    var next := NextFrontend(c.wbuf, c.startup);
    if !next.Incomplete? {
      NextFrontendPrefix(c.wbuf, b, c.startup);
    }
    if next.Message? {
      HandleMore(c, next.msg, b);
      HandleSeen(c, c, next.msg);
      var h := Handle(c, next.msg, true).c;
      FlushedSeen(h);
      assert Flushed(More(h, b), true) == More(Flushed(h, true), b);
      if !h.closed {
        IdealClosed(Flushed(h, true), b);
      }
    }
  }

  /** One Write applies late what the reference would, from where it closes. */
  lemma {:induction false} LateOfDecode(c: Stream, d: Stream)
    requires !c.closed && !d.closed && UpToClose(c) == UpToClose(d) && Sane(c) && Sane(d) && d.forward == []
    requires c.lateOps == [] && d.lateOps == []
    ensures Decode(c, true).c.lateOps == Behind(d)
    decreases |c.wbuf|
  {
    hide NextFrontend, Handle;
    assert c.sent + [] == c.sent && d.sent + [] == d.sent;
    var next := NextFrontend(c.wbuf, c.startup);
    if next.Message? {
      HandleSeen(c, d, next.msg);
      HandleSeen(d, c, next.msg);
      HandleOpen(c, next.msg);
      HandleOpen(d, next.msg);
      HandleStartup(c, d, next.msg);
      var c', d' := Handle(c, next.msg, true).c, Flushed(Handle(d, next.msg, true).c, true);
      FlushedSeen(Handle(d, next.msg, true).c);
      assert Decode(c, true) == Decode(c', true) && Ideal(d) == Ideal(d');
      if c'.closed {
        LateOnly(c', d');
      } else {
        LateOfDecode(c', d');
      }
    }
  }

  lemma WrittenLate(c: Stream, p: bytes)
    requires !c.closed && AtRest(c) && c.lateOps == []
    ensures Written(c, p, true).lateOps == Behind(More(c, p))
    ensures !Written(c, p, true).closed ==> Written(c, p, true).lateOps == []
  {
    hide Ideal, NextFrontend, Handle, Behind;
    var first := More(c, p);
    LateOfDecode(first, first);
    WrittenAgrees(c, p);
    IdealRest(first, first);
    if !Ideal(first).closed {
      OpenBehind(first);
    }
  }

  /** Nothing is behind a close that does not come. */
  lemma {:induction false} OpenBehind(c: Stream)
    requires !c.closed && Sane(c) && c.forward == [] && !Ideal(c).closed
    ensures Behind(c) == c.lateOps
    decreases |c.wbuf|
  {
    hide NextFrontend, Handle;
    var next := NextFrontend(c.wbuf, c.startup);
    if next.Message? {
      HandleSeen(c, c, next.msg);
      HandleOpen(c, next.msg);
      FlushedSeen(Handle(c, next.msg, true).c);
      OpenBehind(Flushed(Handle(c, next.msg, true).c, true));
    }
  }

  /** However a stream is cut, what is applied late is a first part of what is behind its close. */
  lemma {:induction false} FedLate(c: Stream, chunks: seq<bytes>)
    requires !c.closed && AtRest(c) && c.lateOps == []
    ensures Fed(c, chunks).lateOps <= Behind(More(c, Concat(chunks)))
    decreases |chunks|
  {
    hide NextFrontend, Handle, Decode, Ideal, Written, Behind;
    if chunks != [] {
      var p, rest := chunks[0], Concat(chunks[1..]);
      var first, w := More(c, p), Written(c, p, true);
      assert More(c, Concat(chunks)) == More(first, rest) by { Regroup(c.wbuf, p, rest); }
      WrittenAgrees(c, p);
      WrittenLate(c, p);
      if w.closed {
        FedClosed(w, chunks[1..]);
        IdealRest(first, first);
        BehindMore(first, rest);
      } else {
        FedLate(w, chunks[1..]);
        BehindSame(first, w, rest);
      }
    }
  }

  lemma BehindMore(c: Stream, b: bytes)
    requires !c.closed && Sane(c) && c.forward == [] && Ideal(c).closed
    ensures Behind(c) <= Behind(More(c, b))
  {
    hide Ideal, Decode;
    IdealClosed(c, b);
    LateMore(Ideal(c), b);
  }

  /** After a Write that leaves the connection open, what is behind the close is as it was. */
  lemma BehindSame(first: Stream, w: Stream, rest: bytes)
    requires !first.closed && Sane(first) && first.forward == [] && first.lateOps == [] && !Ideal(first).closed
    requires !w.closed && AtRest(w) && w.lateOps == [] && UpToClose(w) == UpToClose(Ideal(first))
    ensures Behind(More(first, rest)) == Behind(More(w, rest))
  {
    hide Ideal, Decode, NextFrontend;
    IdealSplit(first, rest);
    var i := Ideal(first);
    IdealRest(first, first);
    var a, b := More(i, rest), More(w, rest);
    IdealRest(a, b);
    IdealRest(b, a);
    IdealDrained(a);
    DecodeLate(Ideal(a), Ideal(b));
  }

  lemma {:induction false} IdealDrained(c: Stream)
    ensures Ideal(c).closed || Drained(Ideal(c))
    decreases |c.wbuf|
  {
    hide NextFrontend, Handle;
    var next := NextFrontend(c.wbuf, c.startup);
    if !c.closed && next.Message? {
      IdealDrained(Flushed(Handle(c, next.msg, true).c, true));
    }
  }

  lemma DecodeLate(a: Stream, b: Stream)
    requires a.closed == b.closed && a.wbuf == b.wbuf && a.startup == b.startup && a.forward == b.forward
    requires a.lateOps == b.lateOps && (a.closed || Drained(a))
    ensures Decode(a, true).c.lateOps == Decode(b, true).c.lateOps
  {
    hide NextFrontend;
    if a.closed {
      LateOnly(a, b);
    }
  }

  /** A message as it is read: in the startup phase or after it. */
  datatype Read = Read(startup: bool, msg: FrontendMessage)

  /** The messages of some bytes, as far as they are framed. */
  function Reads(buf: bytes, startup: bool): (rs: seq<Read>)
    decreases |buf|
  {
    match NextFrontend(buf, startup)
    case Incomplete => []
    case Bad(_) => []
    case Message(m) => [Read(startup, m)] + Reads(buf[|m.raw|..], startup && StaysInStartup(m))
  }

  /** SSLRequest, GSSENCRequest and CancelRequest; any other code is that of a startup message. */
  predicate StaysInStartup(m: FrontendMessage) {
    m.code == 80877103 || m.code == 80877104 || m.code == 80877102
  }

  /** A Query or a Parse whose text listens or unlistens. */
  predicate Commands(r: Read) {
    Operations(r) != []
  }

  /** The LISTEN operations of a Query or a Parse. */
  function Operations(r: Read): seq<ListenOp> {
    if !r.startup && (r.msg.typ == 81 || r.msg.typ == 80) then Observed(Sql(r.msg)) else []
  }

  predicate Ends(r: Read) {
    !r.startup && r.msg.typ == 88
  }

  predicate Batches(r: Read) {
    !r.startup && r.msg.typ != 88
  }

  /** No Terminate among these messages finds anything batched. */
  ghost predicate Unstopped(rs: seq<Read>, pending: bool) {
    forall j :: 0 <= j < |rs| && Ends(rs[j]) ==> !pending && forall k :: 0 <= k < j ==> !Batches(rs[k])
  }

  /** Some message commands, and none before it stops the reading. */
  ghost predicate Heard(rs: seq<Read>, pending: bool) {
    exists i :: 0 <= i < |rs| && Commands(rs[i]) && Unstopped(rs[..i], pending)
  }

  lemma HeardFirst(r: Read, rest: seq<Read>, pending: bool)
    ensures Heard([r] + rest, pending) <==>
      Commands(r) || (!(Ends(r) && pending) && Heard(rest, pending || Batches(r)))
  {
    hide Commands, Ends, Batches, Unstopped;
    var rs, later := [r] + rest, pending || Batches(r);
    if Commands(r) {
      NothingBefore(pending);
      assert Commands(rs[0]) && rs[..0] == [];
    } else if Heard(rs, pending) {
      var i :| 0 <= i < |rs| && Commands(rs[i]) && Unstopped(rs[..i], pending);
      assert rest[i - 1] == rs[i] && rs[..i] == [r] + rest[..i - 1];
      UnstoppedFirst(r, rest[..i - 1], pending);
      assert Commands(rest[i - 1]) && Unstopped(rest[..i - 1], later);
    }
    if !(Ends(r) && pending) && Heard(rest, later) {
      var i :| 0 <= i < |rest| && Commands(rest[i]) && Unstopped(rest[..i], later);
      UnstoppedFirst(r, rest[..i], pending);
      assert rs[i + 1] == rest[i] && rs[..i + 1] == [r] + rest[..i];
    }
  }

  lemma NothingBefore(pending: bool)
    ensures Unstopped([], pending)
  {
  }

  lemma UnstoppedFirst(r: Read, rest: seq<Read>, pending: bool)
    ensures Unstopped([r] + rest, pending) <==> !(Ends(r) && pending) && Unstopped(rest, pending || Batches(r))
  {
    hide Ends, Batches;
    var rs, later := [r] + rest, pending || Batches(r);
    assert rs[0] == r && forall j :: 0 <= j < |rest| ==> rs[j + 1] == rest[j];
    if Unstopped(rs, pending) {
      forall j | 0 <= j < |rest| && Ends(rest[j]) ensures !later && forall k :: 0 <= k < j ==> !Batches(rest[k]) {
        assert Ends(rs[j + 1]);
        forall k | 0 <= k < j ensures !Batches(rest[k]) {
          assert !Batches(rs[k + 1]);
        }
        assert !Batches(rs[0]);
      }
    }
    if !(Ends(r) && pending) && Unstopped(rest, later) {
      forall j | 0 <= j < |rs| && Ends(rs[j]) ensures !pending && forall k :: 0 <= k < j ==> !Batches(rs[k]) {
        if j > 0 {
          assert Ends(rest[j - 1]) && !later;
          forall k | 0 <= k < j ensures !Batches(rs[k]) {
            assert k > 0 ==> rs[k] == rest[k - 1];
          }
        }
      }
    }
  }

  /** What one message does to a closed connection. */
  lemma HandleHeard(c: Stream, m: FrontendMessage)
    requires c.closed && |m.raw| <= |c.wbuf| && m.raw != []
    ensures var h, r := Handle(c, m, true), Read(c.startup, m);
      && h.c.closed && h.c.startup == (c.startup && StaysInStartup(m))
      && (h.stop <==> Ends(r) && c.forward != [])
      && (!h.stop ==> (h.c.forward != [] <==> c.forward != [] || Batches(r)))
      && (h.c.lateOps == c.lateOps <==> !Commands(r))
      && (h.stop ==> h.c.lateOps == c.lateOps)
  {
    hide Observed, Sql;
  }

  /** Something is applied late exactly when a message behind the close commands and the reading gets to it. */
  lemma {:induction false} LateHeard(c: Stream)
    requires c.closed
    ensures Decode(c, true).c.lateOps != c.lateOps <==> Heard(Reads(c.wbuf, c.startup), c.forward != [])
    decreases |c.wbuf|
  {
    hide NextFrontend, Handle, Heard, Commands, Ends, Batches, StaysInStartup;
    var next := NextFrontend(c.wbuf, c.startup);
    if next.Message? {
      var m := next.msg;
      var h := Handle(c, m, true);
      HandleHeard(c, m);
      HandleClosed(c, c, m);
      HeardFirst(Read(c.startup, m), Reads(h.c.wbuf, h.c.startup), c.forward != []);
      CommandsDoNotEnd(Read(c.startup, m));
      if !h.stop {
        LateHeard(h.c);
        LateOnly(h.c, h.c);
      }
    } else {
      NothingHeard(c.forward != []);
    }
  }

  lemma CommandsDoNotEnd(r: Read)
    ensures Commands(r) ==> !Ends(r)
  {
  }

  lemma NothingHeard(pending: bool)
    ensures !Heard([], pending)
  {
  }

  /** The same of a whole stream: its messages behind the one that closes it. */
  ghost predicate CommandsBehind(c: Stream) {
    Heard(Reads(Ideal(c).wbuf, Ideal(c).startup), false)
  }

  lemma BehindExactly(c: Stream)
    requires !c.closed && Sane(c) && c.forward == [] && c.lateOps == []
    ensures Behind(c) != [] <==> CommandsBehind(c)
  {
    hide Ideal, Decode, NextFrontend, Heard;
    IdealRest(c, c);
    IdealDrained(c);
    if Ideal(c).closed {
      LateHeard(Ideal(c));
    } else {
      OpenBehind(c);
      NothingHeard(false);
    }
  }

  // ---- Where invariance fails ----

  /** Where the reference stands when it meets the framing error. */
  function AtError(c: Stream): (r: Stream)
    requires !WellFramed(c)
    ensures |r.wbuf| <= |c.wbuf|
    decreases |c.wbuf|
  {
    match NextFrontend(c.wbuf, c.startup)
    case Bad(_) => c
    case Message(m) => AtError(Flushed(Handle(c, m, true).c, true))
  }

  lemma {:induction false} AtErrorStands(c: Stream)
    requires !WellFramed(c)
    ensures !AtError(c).closed && NextFrontend(AtError(c).wbuf, AtError(c).startup).Bad?
    ensures Ideal(c).sent == AtError(c).sent && Ideal(c).closed
    ensures c.forward == [] ==> AtError(c).forward == []
    decreases |c.wbuf|
  {
    hide NextFrontend, Handle;
    var next := NextFrontend(c.wbuf, c.startup);
    if next.Message? {
      AtErrorStands(Flushed(Handle(c, next.msg, true).c, true));
    }
  }

  /** The bytes before the error, and the ones the error is found in. */
  lemma {:induction false} AtErrorSuffix(c: Stream)
    requires !WellFramed(c)
    ensures AtError(c).wbuf == c.wbuf[|c.wbuf| - |AtError(c).wbuf|..]
    decreases |c.wbuf|
  {
    hide NextFrontend, Handle;
    var next := NextFrontend(c.wbuf, c.startup);
    if next.Message? {
      var d := Flushed(Handle(c, next.msg, true).c, true);
      AtErrorSuffix(d);
      assert d.wbuf == c.wbuf[|next.msg.raw|..];
    }
  }

  /** Write submits nothing before it meets a framing error: the batch is dropped with it. */
  lemma {:induction false} BatchDropped(c: Stream, d: Stream)
    requires !c.closed && !d.closed && UpToClose(c) == UpToClose(d) && Sane(c) && Sane(d) && d.forward == []
    requires !WellFramed(d)
    ensures Decode(c, true).c.sent == c.sent
    decreases |c.wbuf|
  {
    hide NextFrontend, Handle;
    var next := NextFrontend(c.wbuf, c.startup);
    if next.Message? {
      HandleSeen(c, d, next.msg);
      HandleSeen(d, c, next.msg);
      FlushedSeen(Handle(d, next.msg, true).c);
      StillBatched(c, next.msg);
      BatchDropped(Handle(c, next.msg, true).c, Flushed(Handle(d, next.msg, true).c, true));
    }
  }

  /** Only a Terminate submits the batch, and it closes the connection. */
  lemma StillBatched(c: Stream, m: FrontendMessage)
    requires |m.raw| <= |c.wbuf|
    ensures Handle(c, m, true).c.closed || Handle(c, m, true).c.sent == c.sent
  {
    hide Observed, Sql;
  }

  lemma HandleOnly(c: Stream, m: FrontendMessage, w: bytes)
    requires |m.raw| <= |c.wbuf|
    ensures Handle(c.(wbuf := m.raw + w), m, true).c == Handle(c, m, true).c.(wbuf := w)
  {
    hide Observed, Sql;
    assert (m.raw + w)[|m.raw|..] == w;
  }

  /** Everything before the error is well framed and, written on its own, is submitted. */
  lemma {:induction false} BeforeError(c: Stream, w: bytes)
    requires !WellFramed(c) && c.wbuf == w + AtError(c).wbuf
    ensures WellFramed(c.(wbuf := w)) && Ideal(c.(wbuf := w)) == AtError(c).(wbuf := [])
    decreases |c.wbuf|
  {
    hide Handle;
    var next := NextFrontend(c.wbuf, c.startup);
    if next.Message? {
      BeforeErrorStep(c, next.msg, w);
    } else {
      assert w == [];
    }
  }

  lemma BeforeErrorStep(c: Stream, m: FrontendMessage, w: bytes)
    requires !WellFramed(c) && c.wbuf == w + AtError(c).wbuf && NextFrontend(c.wbuf, c.startup) == Message(m)
    ensures WellFramed(c.(wbuf := w)) && Ideal(c.(wbuf := w)) == AtError(c).(wbuf := [])
    decreases |c.wbuf|, 0
  {
    hide Handle, NextFrontend;
    var h := Handle(c, m, true).c;
    var d := Flushed(h, true);
    var rest := w[|m.raw|..];
    assert c.wbuf[|m.raw|..] == rest + AtError(c).wbuf;
    BeforeError(d, rest);
    assert c.wbuf[..|w|] == w && w == m.raw + rest;
    PrefixDecides(c.wbuf, |w|, c.startup);
    HandleOnly(c, m, rest);
    assert Flushed(h.(wbuf := rest), true) == d.(wbuf := rest);
  }

  lemma HeaderWithin(buf: bytes, n: nat, startup: bool)
    requires n <= |buf| && NextFrontend(buf, startup).Message? && |NextFrontend(buf, startup).msg.raw| <= n
    ensures if startup then n >= 8 && buf[..n][..4] == buf[..4] && buf[..n][4..8] == buf[4..8]
            else n >= 5 && buf[..n][1..5] == buf[1..5]
  {
    hide ReadInt32;
  }

  /** A message that lies within the first n bytes is read from them alone. */
  lemma PrefixDecides(buf: bytes, n: nat, startup: bool)
    requires n <= |buf| && NextFrontend(buf, startup).Message? && |NextFrontend(buf, startup).msg.raw| <= n
    ensures NextFrontend(buf[..n], startup) == NextFrontend(buf, startup)
  {
    assert buf == buf[..n] + buf[n..];
    HeaderWithin(buf, n, startup);
    if !NextFrontend(buf[..n], startup).Incomplete? {
      NextFrontendPrefix(buf[..n], buf[n..], startup);
    }
  }

  /**
   * The exact condition. Every way of cutting a stream into writes looks the same to an
   * observer if and only if it is well framed, or nothing was to be forwarded before its
   * framing error, and no message behind the one that closes it commands a LISTEN operation
   * that is still read: before a framing error, and before a Terminate with a batch behind it.
   */
  lemma InvarianceExactly(stream: bytes)
    ensures (forall chunks: seq<bytes>, chunks': seq<bytes> :: Concat(chunks) == stream && Concat(chunks') == stream
                ==> Seen(Fed(Fresh, chunks)) == Seen(Fed(Fresh, chunks')))
      <==> (WellFramed(More(Fresh, stream)) || Ideal(More(Fresh, stream)).sent == []) && !CommandsBehind(More(Fresh, stream))
  {
    hide Ideal, WellFramed, Fed, Behind, CommandsBehind;
    var whole := More(Fresh, stream);
    FreshAtRest();
    BehindExactly(whole);
    if Behind(whole) != [] {
      AppliesLate(stream);
    } else if WellFramed(whole) || Ideal(whole).sent == [] {
      forall chunks: seq<bytes>, chunks': seq<bytes> | Concat(chunks) == stream && Concat(chunks') == stream
        ensures Seen(Fed(Fresh, chunks)) == Seen(Fed(Fresh, chunks'))
      {
        SameAsWhole(chunks);
        SameAsWhole(chunks');
        FedLate(Fresh, chunks);
        FedLate(Fresh, chunks');
      }
    } else {
      LosesItsBatch(stream);
    }
  }

  /** Two writes of a stream with operations behind its close: at once, and cut at the close. */
  lemma AppliesLate(stream: bytes)
    requires Behind(More(Fresh, stream)) != []
    ensures exists chunks: seq<bytes>, chunks': seq<bytes> ::
      Concat(chunks) == stream && Concat(chunks') == stream && Seen(Fed(Fresh, chunks)) != Seen(Fed(Fresh, chunks'))
  {
    hide Ideal, WellFramed, Fed, Behind, Written;
    var whole := More(Fresh, stream);
    FreshAtRest();
    assert whole.wbuf == stream;
    if !Ideal(whole).closed {
      OpenBehind(whole);
    }
    if !WellFramed(whole) {
      ErrorBehind(whole);
    }
    IdealSuffix(whole);
    var rest := Ideal(whole).wbuf;
    var first := stream[..|stream| - |rest|];
    assert first + rest == stream;
    WrittenLate(Fresh, stream);
    FedOne(Fresh, stream);
    CutAtClose(stream, first, rest);
    var once, twice := [stream], [first, rest];
    assert Concat(once) == stream by { ConcatSingle(stream); }
    assert Concat(twice) == stream by { assert twice[1..] == [rest]; ConcatSingle(rest); }
    assert Seen(Fed(Fresh, once)) != Seen(Fed(Fresh, twice));
  }

  lemma FedOne(c: Stream, a: bytes)
    ensures Fed(c, [a]) == Written(c, a, true)
  {
    hide Written;
    assert [a][1..] == [];
  }

  /** Nothing is read behind a framing error. */
  lemma {:induction false} ErrorBehind(c: Stream)
    requires !WellFramed(c) && Sane(c) && c.forward == []
    ensures Behind(c) == c.lateOps
    decreases |c.wbuf|
  {
    hide NextFrontend, Handle;
    var next := NextFrontend(c.wbuf, c.startup);
    if next.Message? {
      HandleSeen(c, c, next.msg);
      HandleOpen(c, next.msg);
      FlushedSeen(Handle(c, next.msg, true).c);
      ErrorBehind(Flushed(Handle(c, next.msg, true).c, true));
    }
  }

  lemma {:induction false} IdealSuffix(c: Stream)
    ensures |Ideal(c).wbuf| <= |c.wbuf| && Ideal(c).wbuf == c.wbuf[|c.wbuf| - |Ideal(c).wbuf|..]
    decreases |c.wbuf|
  {
    hide NextFrontend, Handle;
    var next := NextFrontend(c.wbuf, c.startup);
    if !c.closed && next.Message? {
      var d := Flushed(Handle(c, next.msg, true).c, true);
      IdealSuffix(d);
      assert d.wbuf == c.wbuf[|next.msg.raw|..];
    }
  }

  /** The bytes up to the close are enough to close. */
  lemma {:induction false} IdealPrefix(c: Stream, w: bytes)
    requires !c.closed && WellFramed(c) && Ideal(c).closed && c.wbuf == w + Ideal(c).wbuf
    ensures Ideal(c.(wbuf := w)) == Ideal(c).(wbuf := [])
    decreases |c.wbuf|
  {
    hide NextFrontend, Handle;
    var m := NextFrontend(c.wbuf, c.startup).msg;
    var h := Handle(c, m, true).c;
    var d := Flushed(h, true);
    IdealSuffix(d);
    var rest := w[|m.raw|..];
    assert c.wbuf[|m.raw|..] == rest + Ideal(c).wbuf;
    assert c.wbuf[..|w|] == w && w == m.raw + rest;
    PrefixDecides(c.wbuf, |w|, c.startup);
    HandleOnly(c, m, rest);
    assert Flushed(h.(wbuf := rest), true) == d.(wbuf := rest);
    if !d.closed {
      IdealPrefix(d, rest);
    } else {
      assert rest == [];
    }
  }

  lemma CutAtClose(stream: bytes, first: bytes, rest: bytes)
    requires var whole := More(Fresh, stream);
      WellFramed(whole) && Ideal(whole).closed && rest == Ideal(whole).wbuf && stream == first + rest
    ensures Fed(Fresh, [first, rest]).lateOps == [] && Fed(Fresh, [first, rest]).closed
  {
    hide Ideal, WellFramed, NextFrontend, Decode, Written, Fed;
    var whole := More(Fresh, stream);
    FreshAtRest();
    assert whole.wbuf == stream && whole.(wbuf := first) == More(Fresh, first);
    IdealPrefix(whole, first);
    IdealRest(whole, whole);
    WrittenAgrees(Fresh, first);
    WrittenLate(Fresh, first);
    NothingDecoded(Ideal(whole).(wbuf := []));
    FedTwo(Fresh, first, rest);
    ClosedWrite(Written(Fresh, first, true), rest);
  }

  lemma NothingDecoded(c: Stream)
    requires c.wbuf == []
    ensures Decode(c, true).c == c
  {
  }

  lemma ClosedWrite(c: Stream, p: bytes)
    requires c.closed
    ensures Written(c, p, true) == c
  {
  }

  lemma SameAsWhole(chunks: seq<bytes>)
    requires var whole := More(Fresh, Concat(chunks)); WellFramed(whole) || Ideal(whole).sent == []
    ensures UpToClose(Fed(Fresh, chunks)) == UpToClose(Ideal(More(Fresh, Concat(chunks))))
  {
    var whole := More(Fresh, Concat(chunks));
    hide Fed, Ideal, WellFramed, Concat;
    ChunksAgree(Fresh, chunks);
    if !WellFramed(whole) {
      AtErrorStands(whole);
    }
  }

  /** Two writes of one ill-framed stream that the backend can tell apart. */
  lemma LosesItsBatch(stream: bytes)
    requires !WellFramed(More(Fresh, stream)) && Ideal(More(Fresh, stream)).sent != []
    ensures exists chunks: seq<bytes>, chunks': seq<bytes> ::
      Concat(chunks) == stream && Concat(chunks') == stream && UpToClose(Fed(Fresh, chunks)) != UpToClose(Fed(Fresh, chunks'))
  {
    var whole := More(Fresh, stream);
    hide Ideal, WellFramed, NextFrontend, Decode, Fed, UpToClose, AtError, Concat;
    assert whole.wbuf == stream;
    AtErrorSuffix(whole);
    var rest := AtError(whole).wbuf;
    var first := stream[..|stream| - |rest|];
    assert first + rest == stream;
    OneWrite(stream);
    TwoWrites(stream, first, rest);
    var once, twice := [stream], [first, rest];
    ConcatSingle(stream);
    ConcatTwo(first, rest);
    assert UpToClose(Fed(Fresh, once)) != UpToClose(Fed(Fresh, twice));
  }

  lemma ConcatTwo(a: bytes, b: bytes)
    ensures Concat([a, b]) == a + b
  {
    assert [a, b][1..] == [b];
    ConcatSingle(b);
  }

  lemma FreshAtRest()
    ensures AtRest(Fresh) && !Fresh.closed
  {
  }

  lemma OneWrite(stream: bytes)
    requires !WellFramed(More(Fresh, stream))
    ensures UpToClose(Fed(Fresh, [stream])).sent == []
  {
    FreshAtRest();
    var whole := More(Fresh, stream);
    hide Ideal, WellFramed, NextFrontend, Decode;
    BatchDropped(whole, whole);
    WrittenAgrees(Fresh, stream);
    AtErrorStands(whole);
    FedOne(Fresh, stream);
  }

  lemma FedTwo(c: Stream, a: bytes, b: bytes)
    ensures Fed(c, [a, b]) == Written(Written(c, a, true), b, true)
  {
    hide Written;
    var w, second := Written(c, a, true), [b];
    assert [a, b][1..] == second && second[1..] == [];
    assert Fed(w, second) == Fed(Written(w, b, true), second[1..]);
  }

  lemma TwoWrites(stream: bytes, first: bytes, rest: bytes)
    requires !WellFramed(More(Fresh, stream)) && AtError(More(Fresh, stream)).wbuf == rest && stream == first + rest
    ensures UpToClose(Fed(Fresh, [first, rest])).sent == Ideal(More(Fresh, stream)).sent
  {
    FreshAtRest();
    var whole := More(Fresh, stream);
    hide Ideal, WellFramed, NextFrontend, Decode, Written, Fed;
    assert whole.wbuf == stream;
    var e := AtError(whole);
    AtErrorStands(whole);
    BeforeError(whole, first);
    assert whole.(wbuf := first) == More(Fresh, first);
    WrittenAgrees(Fresh, first);
    var w := Written(Fresh, first, true);
    SecondWriteFails(w, e);
    FedTwo(Fresh, first, rest);
  }

  lemma SecondWriteFails(w: Stream, e: Stream)
    requires !w.closed && AtRest(w) && UpToClose(w) == UpToClose(e.(wbuf := [])) && !e.closed && e.forward == []
    requires NextFrontend(e.wbuf, e.startup).Bad?
    ensures UpToClose(Written(w, e.wbuf, true)).sent == e.sent
  {
    hide NextFrontend;
    assert w.sent + [] == w.sent && e.sent + [] == e.sent;
    assert w.wbuf + e.wbuf == e.wbuf;
  }

  // ---- A stream that loses its batch ----

  const STARTUP: bytes := [0, 0, 0, 8, 0, 3, 0, 0]
  const SYNC: bytes := [83, 0, 0, 0, 4]

  /** A Query whose length is one short of the least. */
  const CUT_SHORT: bytes := [81, 0, 0, 0, 3]

  lemma StartupReads(rest: bytes)
    ensures NextFrontend(STARTUP + rest, true) == Message(FrontendMessage(0, 196608, STARTUP, []))
  {
    assert PutInt32(8) == [0, 0, 0, 8] && PutInt32(196608) == [0, 3, 0, 0];
    FrontendReads(FrontendMessage(0, 196608, STARTUP, []), true, rest);
  }

  lemma SyncReads(rest: bytes)
    ensures NextFrontend(SYNC + rest, false) == Message(FrontendMessage(83, 0, SYNC, []))
  {
    assert PutInt32(4) == [0, 0, 0, 4];
    FrontendReads(FrontendMessage(83, 0, SYNC, []), false, rest);
  }

  lemma CutShortReads()
    ensures NextFrontend(CUT_SHORT, false) == Bad(TooSmall)
  {
    assert PutInt32(3) == [0, 0, 0, 3];
    ReadPut(3, []);
    assert CUT_SHORT[1..5] == PutInt32(3) + [];
  }

  /** A startup message, a Sync and the broken Query: not well framed, with a Sync to forward before the error. */
  lemma SyncBeforeError()
    ensures var whole := More(Fresh, STARTUP + (SYNC + CUT_SHORT));
      && !WellFramed(whole) && Ideal(whole).sent == SYNC
      && AtError(whole) == Stream(CUT_SHORT, false, false, [], SYNC, [Handshake], [], [])
  {
    hide NextFrontend, Observed, Sql;
    var rest := SYNC + CUT_SHORT;
    StartupReads(rest);
    SyncReads(CUT_SHORT);
    CutShortReads();
    var whole := More(Fresh, STARTUP + rest);
    assert whole.wbuf == STARTUP + rest && whole.wbuf[8..] == rest && rest[5..] == CUT_SHORT;
    var started := Stream(rest, false, false, [], [], [Handshake], [], []);
    var synced := Stream(CUT_SHORT, false, false, [], SYNC, [Handshake], [], []);
    assert Flushed(Handle(whole, FrontendMessage(0, 196608, STARTUP, []), true).c, true) == started;
    assert Flushed(Handle(started, FrontendMessage(83, 0, SYNC, []), true).c, true) == synced;
    assert !WellFramed(synced) && Ideal(synced).sent == SYNC && AtError(synced) == synced;
    assert !WellFramed(started) && Ideal(started).sent == SYNC && AtError(started) == synced;
  }

  /** In one Write the Sync never reaches the backend; cut before the error, it does. */
  lemma SyncLost()
    ensures Fed(Fresh, [STARTUP + (SYNC + CUT_SHORT)]).sent == []
    ensures Fed(Fresh, [STARTUP + SYNC, CUT_SHORT]).sent == SYNC
  {
    hide Ideal, WellFramed, Fed, AtError;
    var stream := STARTUP + (SYNC + CUT_SHORT);
    SyncBeforeError();
    Regroup(STARTUP, SYNC, CUT_SHORT);
    OneWrite(stream);
    TwoWrites(stream, STARTUP + SYNC, CUT_SHORT);
    SentIsSeen(Fed(Fresh, [stream]), [stream]);
    SentIsSeen(Fed(Fresh, [STARTUP + SYNC, CUT_SHORT]), [STARTUP + SYNC, CUT_SHORT]);
  }

  /** Between writes nothing is batched. */
  lemma SentIsSeen(c: Stream, chunks: seq<bytes>)
    requires c == Fed(Fresh, chunks)
    ensures UpToClose(c).sent == c.sent
  {
    hide Fed, Written;
    NoBatch(Fresh, chunks);
    assert c.sent + [] == c.sent;
  }

  lemma {:induction false} NoBatch(c: Stream, chunks: seq<bytes>)
    requires c.forward == []
    ensures Fed(c, chunks).forward == []
    decreases |chunks|
  {
    hide Decode;
    if chunks != [] {
      NoBatch(Written(c, chunks[0], true), chunks[1..]);
    }
  }

  // ---- What a stream does, said of its messages ----

  /** A CancelRequest in place of a startup message, or a Terminate after one. */
  predicate Closes(r: Read) {
    if r.startup then r.msg.code == 80877102 else r.msg.typ == 88
  }

  /** The messages in front of the one that closes the connection. */
  function UntilClose(rs: seq<Read>): (open: seq<Read>)
    ensures |open| <= |rs| && open == rs[..|open|]
    ensures |open| < |rs| ==> Closes(rs[|open|])
    ensures forall r :: r in open ==> !Closes(r)
  {
    if rs == [] || Closes(rs[0]) then [] else [rs[0]] + UntilClose(rs[1..])
  }

  /** Everything sent after the startup phase, byte for byte. */
  function Forwards(rs: seq<Read>): bytes {
    if rs == [] then [] else (if rs[0].startup then [] else rs[0].msg.raw) + Forwards(rs[1..])
  }

  /** A refusal for each request for encryption, and the handshake for the startup message. */
  function Answers(rs: seq<Read>): seq<Answer> {
    if rs == [] then []
    else
      (if !rs[0].startup then []
       else if rs[0].msg.code == 80877103 || rs[0].msg.code == 80877104 then [SslRefused]
       else [Handshake]) + Answers(rs[1..])
  }

  function AllOperations(rs: seq<Read>): seq<ListenOp> {
    if rs == [] then [] else Operations(rs[0]) + AllOperations(rs[1..])
  }

  /** What has been forwarded, answered and applied beyond what had been before. */
  predicate Did(before: Stream, after: Stream, rs: seq<Read>) {
    && after.sent + after.forward == before.sent + before.forward + Forwards(rs)
    && after.answers == before.answers + Answers(rs)
    && after.ops == before.ops + AllOperations(rs)
  }

  /** One message, on an open connection. */
  lemma HandleDoes(c: Stream, m: FrontendMessage)
    requires !c.closed && Sane(c) && |m.raw| <= |c.wbuf| && (c.startup ==> m.typ == 0)
    ensures var h, r := Handle(c, m, true).c, Read(c.startup, m);
      && (h.closed <==> Closes(r))
      && (h.closed ==> Did(c, h, []))
      && (!h.closed ==> Did(c, h, [r]) && h.startup == (c.startup && StaysInStartup(m)))
  {
    hide Observed, Sql;
    var r := Read(c.startup, m);
    assert [r][1..] == [];
    assert Forwards([r]) == if c.startup then [] else m.raw;
    assert AllOperations([r]) == Operations(r);
    assert c.startup ==> Answers([r]) == [if m.code == 80877103 || m.code == 80877104 then SslRefused else Handshake];
    assert !c.startup ==> Answers([r]) == [];
    Regroup(c.sent, c.forward, m.raw);
    Unchanged(c.sent + c.forward);
    Unchanged(c.answers);
    Unchanged(c.ops);
  }

  lemma Unchanged<T>(xs: seq<T>)
    ensures xs + [] == xs
  {
  }

  /** One message more in front. */
  lemma OneMore(r: Read, rs: seq<Read>)
    ensures Forwards([r] + rs) == Forwards([r]) + Forwards(rs)
    ensures Answers([r] + rs) == Answers([r]) + Answers(rs)
    ensures AllOperations([r] + rs) == AllOperations([r]) + AllOperations(rs)
  {
    hide Operations;
    assert ([r] + rs)[1..] == rs && [r][1..] == [];
  }

  lemma DidThen(a: Stream, b: Stream, c: Stream, r: Read, rs: seq<Read>)
    requires Did(a, b, [r]) && Did(b, c, rs)
    ensures Did(a, c, [r] + rs)
  {
    OneMore(r, rs);
    hide Forwards, Answers, AllOperations;
    Regroup(a.sent + a.forward, Forwards([r]), Forwards(rs));
    Regroup(a.answers, Answers([r]), Answers(rs));
    Regroup(a.ops, AllOperations([r]), AllOperations(rs));
  }

  lemma FlushedDid(a: Stream, b: Stream, rs: seq<Read>)
    requires Did(a, b, rs) && (b.closed ==> b.forward == [])
    ensures Did(a, Flushed(b, true), rs)
  {
    assert b.sent + b.forward + [] == b.sent + b.forward;
  }

  lemma NothingDone(c: Stream)
    ensures Did(c, c, [])
  {
  }

  /** A stream read at once does what its messages in front of the close say; a framing error is answered, and
      closes it too. */
  lemma {:induction false} IdealDoes(c: Stream)
    requires !c.closed && Sane(c) && c.forward == []
    ensures var rs := Reads(c.wbuf, c.startup);
      if WellFramed(c) then Did(c, Ideal(c), UntilClose(rs)) && (Ideal(c).closed <==> |UntilClose(rs)| < |rs|)
      else
        var e := AtError(c);
        Did(c, e, rs) && UntilClose(rs) == rs && NextFrontend(e.wbuf, e.startup).Bad?
        && Ideal(c) == e.(closed := true, answers := e.answers + [FatalError(NextFrontend(e.wbuf, e.startup).error)])
    decreases |c.wbuf|
  {
    hide NextFrontend, Handle, Operations, Closes, Did, Forwards, Answers, AllOperations;
    var next := NextFrontend(c.wbuf, c.startup);
    NothingDone(c);
    if next.Bad? {
      AtErrorStands(c);
    }
    if next.Message? {
      StartupUntyped(c.wbuf);
      HandleSeen(c, c, next.msg);
      HandleDoes(c, next.msg);
      HandleOpen(c, next.msg);
      var h, r := Handle(c, next.msg, true).c, Read(c.startup, next.msg);
      FlushedSeen(h);
      var d := Flushed(h, true);
      var rest := Reads(d.wbuf, c.startup && StaysInStartup(next.msg));
      UntilCloseFirst(r, rest);
      if h.closed {
        FlushedDid(c, h, []);
        assert Ideal(d) == d && WellFramed(d);
      } else {
        FlushedDid(c, h, [r]);
        IdealDoes(d);
        if WellFramed(c) {
          DidThen(c, d, Ideal(d), r, UntilClose(rest));
        } else {
          AtErrorStands(c);
          DidThen(c, d, AtError(d), r, rest);
        }
      }
    }
  }

  lemma StartupUntyped(buf: bytes)
    ensures NextFrontend(buf, true).Message? ==> NextFrontend(buf, true).msg.typ == 0
  {
  }

  lemma UntilCloseFirst(r: Read, rest: seq<Read>)
    ensures UntilClose([r] + rest) == if Closes(r) then [] else [r] + UntilClose(rest)
  {
    hide Closes;
    assert ([r] + rest)[1..] == rest;
  }

  /**
   * However a well-framed stream is cut into writes: the backend gets exactly the messages behind the startup
   * phase up to the first Terminate, each once and byte for byte; every request for encryption is refused and
   * the startup message answered; and each LISTEN operation of a Query or a Parse is applied once, in order.
   * It is closed by a CancelRequest in place of the startup message, by a Terminate after it, and by nothing else.
   */
  lemma StreamDoes(chunks: seq<bytes>)
    requires WellFramed(More(Fresh, Concat(chunks)))
    ensures var rs, c := Reads(Concat(chunks), true), Fed(Fresh, chunks);
      && c.sent == Forwards(UntilClose(rs))
      && c.answers == Answers(UntilClose(rs))
      && c.ops == AllOperations(UntilClose(rs))
      && (c.closed <==> |UntilClose(rs)| < |rs|)
  {
    hide Ideal, Fed, WellFramed, NextFrontend, Reads, UntilClose, Forwards, Answers, AllOperations;
    var whole := More(Fresh, Concat(chunks));
    assert whole.wbuf == Concat(chunks);
    FreshAtRest();
    ChunksAgree(Fresh, chunks);
    IdealDoes(whole);
    IdealRest(whole, whole);
    NoBatch(Fresh, chunks);
    var i := Ideal(whole);
    assert i.sent + [] == i.sent && Fed(Fresh, chunks).sent + [] == Fed(Fresh, chunks).sent;
    assert Did(whole, i, UntilClose(Reads(Concat(chunks), true)));
  }

  /** One that is not well framed is closed all the same, its error answered last; what reaches the backend
      depends on the cut, and is a first part of the messages in front of the error. */
  lemma ErrorDoes(chunks: seq<bytes>)
    requires !WellFramed(More(Fresh, Concat(chunks)))
    ensures var rs, c := Reads(Concat(chunks), true), Fed(Fresh, chunks);
      && c.sent <= Forwards(rs) && c.ops == AllOperations(rs) && c.closed
      && exists e :: c.answers == Answers(rs) + [FatalError(e)]
  {
    hide Ideal, Fed, WellFramed, NextFrontend, Reads, UntilClose, Forwards, Answers, AllOperations, AtError;
    var whole := More(Fresh, Concat(chunks));
    assert whole.wbuf == Concat(chunks);
    FreshAtRest();
    ChunksAgree(Fresh, chunks);
    IdealDoes(whole);
    AtErrorStands(whole);
    NoBatch(Fresh, chunks);
    var e := AtError(whole);
    assert e.sent + [] == e.sent && Fed(Fresh, chunks).sent + [] == Fed(Fresh, chunks).sent;
    assert Did(whole, e, Reads(Concat(chunks), true));
  }

  /** A submit that fails forwards nothing of its Write. */
  lemma FailedSubmit(c: Stream, p: bytes)
    ensures Written(c, p, false).sent == c.sent
  {
    NeverSent(c.(wbuf := c.wbuf + p, forward := []));
  }

  lemma {:induction false} NeverSent(c: Stream)
    ensures Decode(c, false).c.sent == c.sent
    decreases |c.wbuf|
  {
    hide NextFrontend, Observed, Sql;
    var next := NextFrontend(c.wbuf, c.startup);
    if next.Message? {
      NeverSent(Handle(c, next.msg, false).c);
    }
  }

  lemma {:induction false} ClosedStaysDown(c: Stream)
    requires c.closed
    ensures var d := Decode(c, false).c; d.closed && d.answers == c.answers && d.ops == c.ops
    decreases |c.wbuf|
  {
    hide NextFrontend, Observed, Sql;
    var next := NextFrontend(c.wbuf, c.startup);
    if next.Message? {
      var h := Handle(c, next.msg, false);
      if !h.stop {
        ClosedStaysDown(h.c);
      }
    }
  }

  /** One message while no submit succeeds: a Terminate that finds a batch is the only one that fails. */
  lemma HandleDown(c: Stream, m: FrontendMessage)
    requires !c.closed && Sane(c) && |m.raw| <= |c.wbuf| && (c.startup ==> m.typ == 0)
    ensures var h, r := Handle(c, m, false), Read(c.startup, m);
      && (h.stop <==> Ends(r) && c.forward != [])
      && (h.c.closed <==> Closes(r) && !h.stop)
      && (Closes(r) ==> h.c.answers == c.answers && h.c.ops == c.ops)
      && (!Closes(r) ==> h.c.answers == c.answers + Answers([r]) && h.c.ops == c.ops + AllOperations([r]))
      && (!Closes(r) ==> h.c.forward == c.forward + Forwards([r]) && h.c.startup == (c.startup && StaysInStartup(m)) && Sane(h.c))
  {
    hide Observed, Sql;
    var r := Read(c.startup, m);
    assert [r][1..] == [];
    assert Forwards([r]) == if c.startup then [] else m.raw;
    assert AllOperations([r]) == Operations(r);
    assert c.startup ==> Answers([r]) == [if m.code == 80877103 || m.code == 80877104 then SslRefused else Handshake];
    assert !c.startup ==> Answers([r]) == [];
    Unchanged(c.answers);
    Unchanged(c.ops);
    Unchanged(c.forward);
  }

  /**
   * While no submit succeeds, up to the message that closes: the same answers and operations, and the
   * connection is closed by it unless it is a Terminate with something batched, whose Write fails instead.
   */
  lemma {:induction false} DecodeDown(c: Stream)
    requires !c.closed && Sane(c)
    requires |UntilClose(Reads(c.wbuf, c.startup))| < |Reads(c.wbuf, c.startup)|
    ensures var rs, h := Reads(c.wbuf, c.startup), Decode(c, false);
      var open := UntilClose(rs);
      && h.c.answers == c.answers + Answers(open) && h.c.ops == c.ops + AllOperations(open)
      && (h.c.closed <==> rs[|open|].startup || c.forward + Forwards(open) == [])
      && (!h.c.closed ==> h.stop)
    decreases |c.wbuf|
  {
    hide NextFrontend, Handle, Operations, Closes, Forwards, Answers, AllOperations;
    var next := NextFrontend(c.wbuf, c.startup);
    var m := next.msg;
    StartupUntyped(c.wbuf);
    HandleDown(c, m);
    var h, r := Handle(c, m, false), Read(c.startup, m);
    var rest := Reads(c.wbuf[|m.raw|..], c.startup && StaysInStartup(m));
    UntilCloseFirst(r, rest);
    EndsAndCloses(r);
    if Closes(r) {
      NothingAdded(c);
      if h.c.closed {
        ClosedStaysDown(h.c);
      }
    } else {
      DecodeDown(h.c);
      AddedFirst(c, r, UntilClose(rest));
      assert ([r] + rest)[|UntilClose(rest)| + 1] == rest[|UntilClose(rest)|];
    }
  }

  lemma EndsAndCloses(r: Read)
    ensures Ends(r) ==> Closes(r)
    ensures Closes(r) ==> (Ends(r) <==> !r.startup)
  {
  }

  lemma NothingAdded(c: Stream)
    ensures c.answers + Answers([]) == c.answers && c.ops + AllOperations([]) == c.ops && c.forward + Forwards([]) == c.forward
  {
  }

  lemma AddedFirst(c: Stream, r: Read, rs: seq<Read>)
    ensures c.answers + Answers([r]) + Answers(rs) == c.answers + Answers([r] + rs)
    ensures c.ops + AllOperations([r]) + AllOperations(rs) == c.ops + AllOperations([r] + rs)
    ensures c.forward + Forwards([r]) + Forwards(rs) == c.forward + Forwards([r] + rs)
  {
    OneMore(r, rs);
    hide Forwards, Answers, AllOperations;
    Regroup(c.answers, Answers([r]), Answers(rs));
    Regroup(c.ops, AllOperations([r]), AllOperations(rs));
    Regroup(c.forward, Forwards([r]), Forwards(rs));
  }

  /** A Write while no submit succeeds sends nothing. Up to a message that closes it does the rest as ever, and
      that message closes the connection unless something was batched in front of it, when the Write fails. */
  lemma DownDoes(c: Stream, p: bytes)
    requires !c.closed && Sane(c) && c.forward == []
    requires |UntilClose(Reads(c.wbuf + p, c.startup))| < |Reads(c.wbuf + p, c.startup)|
    ensures var rs, w := Reads(c.wbuf + p, c.startup), Written(c, p, false);
      var open := UntilClose(rs);
      && w.sent == c.sent && w.answers == c.answers + Answers(open) && w.ops == c.ops + AllOperations(open)
      && (w.closed <==> rs[|open|].startup || Forwards(open) == [])
  {
    hide Decode, Reads, UntilClose, Forwards, Answers, AllOperations;
    FailedSubmit(c, p);
    DecodeDown(c.(wbuf := c.wbuf + p, forward := []));
  }
}
