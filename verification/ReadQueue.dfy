/**
 * The read side of a logical connection: deliver and Read of wasmpg/conn.go, with their
 * wake-up channel. Deliverers and the one reader run concurrently; a step is one region run
 * under rmu, or one event of the select.
 */
module ReadQueue {
  import opened Common

  /** What the reader still has to hand out: the frame it is in, and the whole frames after it. */
  datatype Buffer = Buffer(queue: seq<bytes>, rem: bytes) {

    function Pending(): bytes {
      rem + Concat(queue)
    }

    /** The region's first half: move on to the next frame when the last one is used up. */
    function Advance(): Buffer {
      if rem == [] && queue != [] then Buffer(queue[1..], queue[0]) else this
    }

    function Drop(n: nat): Buffer
      requires n <= |rem|
    {
      this.(rem := rem[n..])
    }
  }

  function Min(a: nat, b: nat): (m: nat)
    ensures m <= a && m <= b && (m == a || m == b)
  {
    if a < b then a else b
  }

  lemma AdvanceKeepsPending(b: Buffer)
    ensures b.Advance().Pending() == b.Pending()
  {
    if b.rem == [] && b.queue != [] {
      assert b.Pending() == b.queue[0] + Concat(b.queue[1..]);
    }
  }

  class ReadSide {
    var queue: seq<bytes>
    var rem: bytes

    ghost function Value(): Buffer
      reads this
    {
      Buffer(queue, rem)
    }

    constructor ()
      ensures Value() == Buffer([], [])
    {
      queue, rem := [], [];
    }

    /** The region of deliver; says whether the frame was accepted. */
    method Enqueue(b: bytes, done: bool) returns (accepted: bool)
      modifies this`queue
      ensures accepted == (b != [] && !done)
      ensures queue == if accepted then old(queue) + [b] else old(queue)
    {
      if |b| == 0 || done {
        return false;
      }
      queue := queue + [b];
      return true;
    }

    /**
     * The region of Read, copying into the caller's buffer: the bytes copied are the next ones
     * pending, at least one if there are any, and the rest of the buffer is left alone.
     */
    method Take(p: array<byte>) returns (n: nat)
      requires p.Length > 0
      modifies this, p
      ensures n == Min(p.Length, |old(Value()).Advance().rem|)
      ensures Value() == old(Value()).Advance().Drop(n)
      ensures p[..n] + Value().Pending() == old(Value()).Pending()
      ensures p[n..] == old(p[n..])
    {
      AdvanceKeepsPending(Value());
      ghost var before := Value();
      if |rem| == 0 && |queue| > 0 {
        rem := queue[0];
        queue := queue[1..];
      }
      n := Min(p.Length, |rem|);
      for i := 0 to n
        modifies p
        invariant p[..i] == rem[..i]
        invariant p[n..] == old(p[n..])
      {
        p[i] := rem[i];
      }
      Regroup(rem[..n], rem[n..], Concat(queue));
      assert rem[..n] + rem[n..] == rem;
      rem := rem[n..];
    }
  }

  // ---- Deliverers and the reader together ----

  datatype Reader =
    | Away                 // not in Read
    | Polling(n: nat)      // about to enter Read's region, with room for n bytes
    | Blocked(n: nat)      // found nothing; in the select
    | Draining(n: nat)     // the select took done; about to look once more

  /**
   * `posting` counts deliverers that have appended and not yet posted their wake-up; `token`
   * is the one the channel can hold. `accepted`, `taken`, `returned` and `ended` are auxiliary:
   * the frames delivered so far, how many of them the reader has started on, the bytes it has
   * returned, and whether it has reported the end of the stream.
   */
  datatype State = State(
    buffer: Buffer, token: bool, posting: nat, done: bool, reader: Reader,
    accepted: seq<bytes>, taken: nat, returned: bytes, ended: bool)

  const Init := State(Buffer([], []), false, 0, false, Away, [], 0, [], false)

  datatype Step =
    | Deliver(b: bytes)    // deliver, up to releasing rmu
    | Post                 // deliver's non-blocking send
    | Call(n: nat)         // Read with a buffer of n bytes
    | Poll                 // Read's region
    | Wake                 // the select takes the wake-up
    | SeeDone              // the select takes done
    | Expire               // the read deadline, before or in the select
    | LookOnce             // the look after done
    | Close                // done closes

  predicate Enabled(s: State, t: Step) {
    match t
    case Deliver(_) => true
    case Post => s.posting > 0
    case Call(n) => s.reader.Away? && n > 0
    case Poll => s.reader.Polling?
    case Wake => s.reader.Blocked? && s.token
    case SeeDone => s.reader.Blocked? && s.done
    case Expire => s.reader.Blocked?
    case LookOnce => s.reader.Draining?
    case Close => !s.done
  }

  function Polled(s: State): (r: State)
    requires s.reader.Polling?
  {
    var b := s.buffer.Advance();
    var n := Min(s.reader.n, |b.rem|);
    var started := if s.buffer.rem == [] && s.buffer.queue != [] then s.taken + 1 else s.taken;
    if b.rem != [] then
      s.(buffer := b.Drop(n), taken := started, returned := s.returned + b.rem[..n], reader := Away)
    else s.(buffer := b, taken := started, reader := if b.queue != [] then s.reader else Blocked(s.reader.n))
  }

  function Next(s: State, t: Step): (r: State)
    requires Enabled(s, t)
  {
    match t
    case Deliver(b) =>
      if b == [] || s.done then s
      else s.(buffer := s.buffer.(queue := s.buffer.queue + [b]), posting := s.posting + 1, accepted := s.accepted + [b])
    case Post => s.(posting := s.posting - 1, token := true)
    case Call(n) => s.(reader := Polling(n))
    case Poll => Polled(s)
    case Wake => s.(token := false, reader := Polling(s.reader.n))
    case SeeDone => s.(reader := Draining(s.reader.n))
    case Expire => s.(reader := Away)
    case LookOnce =>
      if s.buffer.rem != [] || s.buffer.queue != [] then s.(reader := Polling(s.reader.n))
      else s.(reader := Away, ended := true)
    case Close => s.(done := true)
  }

  /** The queue is the accepted frames not started on, whole; what was returned lies before them. */
  predicate Aligned(s: State) {
    && s.taken <= |s.accepted|
    && s.buffer.queue == s.accepted[s.taken..]
    && s.returned + s.buffer.rem == Concat(s.accepted[..s.taken])
    && (s.taken == 0 ==> s.buffer.rem == [])
    && (s.taken > 0 ==> |s.buffer.rem| <= |s.accepted[s.taken - 1]|)
    && (forall b :: b in s.accepted ==> b != [])
  }

  /** A blocked reader with something to read has a wake-up waiting or on its way. */
  predicate NoLostWakeUp(s: State) {
    s.reader.Blocked? ==> s.buffer.rem == [] && (s.buffer.queue != [] ==> s.token || s.posting > 0)
  }

  predicate Inv(s: State) {
    && Aligned(s)
    && NoLostWakeUp(s)
    && (s.reader.Draining? ==> s.done)
    && (s.ended ==> s.done && s.buffer.rem == [] && s.buffer.queue == [])
  }

  lemma DeliverAligned(s: State, b: bytes)
    requires Aligned(s) && b != [] && !s.done
    ensures Aligned(Next(s, Deliver(b)))
  {
    var a := s.accepted + [b];
    assert a[..s.taken] == s.accepted[..s.taken] && a[s.taken..] == s.accepted[s.taken..] + [b];
  }

  lemma PollAligned(s: State)
    requires Aligned(s) && s.reader.Polling?
    ensures Aligned(Polled(s))
  {
    if s.buffer.rem == [] && s.buffer.queue != [] {
      var f := s.accepted[s.taken];
      assert s.buffer.queue[0] == f && f in s.accepted;
      assert s.accepted[..s.taken + 1] == s.accepted[..s.taken] + [f];
      ConcatAppend(s.accepted[..s.taken], [f]);
      ConcatSingle(f);
      assert s.returned + [] == s.returned;
      assert s.buffer.queue[1..] == s.accepted[s.taken + 1..];
    }
    var b := s.buffer.Advance();
    var n := Min(s.reader.n, |b.rem|);
    assert s.returned + b.rem[..n] + b.rem[n..] == s.returned + b.rem by {
      assert b.rem[..n] + b.rem[n..] == b.rem;
      Regroup(s.returned, b.rem[..n], b.rem[n..]);
    }
  }

  lemma KeepsInv(s: State, t: Step)
    requires Inv(s) && Enabled(s, t)
    ensures Inv(Next(s, t))
  {
    match t
    case Deliver(b) =>
      if b != [] && !s.done {
        DeliverAligned(s, b);
        hide Aligned;
      }
    case Poll =>
      PollAligned(s);
      hide Aligned;
    case _ => SameBuffer(s, t);
  }

  /** The other steps touch neither the buffer nor the frames. */
  lemma SameBuffer(s: State, t: Step)
    requires Inv(s) && Enabled(s, t) && !t.Deliver? && !t.Poll?
    ensures Inv(Next(s, t))
  {
    assert Aligned(s) ==> Aligned(Next(s, t));
    hide Aligned;
  }

  predicate Runs(s: State, ts: seq<Step>)
    decreases |ts|
  {
    ts == [] || (Enabled(s, ts[0]) && Runs(Next(s, ts[0]), ts[1..]))
  }

  function After(s: State, ts: seq<Step>): (r: State)
    requires Runs(s, ts)
    decreases |ts|
  {
    if ts == [] then s else After(Next(s, ts[0]), ts[1..])
  }

  lemma {:induction false} RunKeepsInv(s: State, ts: seq<Step>)
    requires Inv(s) && Runs(s, ts)
    ensures Inv(After(s, ts))
    decreases |ts|
  {
    hide Inv;
    if ts != [] {
      KeepsInv(s, ts[0]);
      RunKeepsInv(Next(s, ts[0]), ts[1..]);
    }
  }

  ghost predicate Reachable(s: State) {
    exists ts: seq<Step> :: Runs(Init, ts) && s == After(Init, ts)
  }

  lemma ReachableInv(s: State)
    requires Reachable(s)
    ensures Inv(s)
  {
    var ts: seq<Step> :| Runs(Init, ts) && s == After(Init, ts);
    RunKeepsInv(Init, ts);
  }

  /** No byte is lost, invented or reordered: returned, then held, is exactly what was accepted. */
  lemma NothingLost(s: State)
    requires Reachable(s)
    ensures s.returned + s.buffer.Pending() == Concat(s.accepted)
  {
    ReachableInv(s);
    assert s.accepted == s.accepted[..s.taken] + s.accepted[s.taken..];
    ConcatAppend(s.accepted[..s.taken], s.accepted[s.taken..]);
    Regroup(s.returned, s.buffer.rem, Concat(s.buffer.queue));
  }

  /** A frame accepted now lands behind whole frames: only the one being read can be partial. */
  lemma InjectionIsAligned(s: State, b: bytes)
    requires Reachable(s) && b != [] && !s.done
    ensures s.taken <= |s.accepted|
    ensures var s' := Next(s, Deliver(b));
      && s'.buffer.rem == s.buffer.rem
      && s'.buffer.queue == s.accepted[s.taken..] + [b]
      && s.returned + s.buffer.rem == Concat(s.accepted[..s.taken])
  {
    ReachableInv(s);
  }

  /** A look at the buffer with something in it returns at once: as much as fits of the frame it has come to,
      and nothing of the one after it. */
  lemma PollReturns(s: State)
    requires Reachable(s) && s.reader.Polling? && s.reader.n > 0 && s.buffer.Pending() != []
    ensures var s', frame := Next(s, Poll), if s.buffer.rem != [] then s.buffer.rem else s.buffer.queue[0];
      && s'.reader == Away && frame != []
      && s'.returned == s.returned + frame[..if s.reader.n < |frame| then s.reader.n else |frame|]
  {
    ReachableInv(s);
    if s.buffer.rem == [] {
      assert s.buffer.Pending() == Concat(s.buffer.queue);
      assert s.buffer.queue[0] in s.accepted;
    }
  }

  /** Of frames with something in them, nothing is pending exactly when there are none. */
  lemma NothingPending(b: Buffer)
    requires forall f :: f in b.queue ==> f != []
    ensures b.Pending() == [] <==> b.rem == [] && b.queue == []
  {
    if b.queue != [] {
      assert b.queue[0] in b.queue && |Concat(b.queue)| >= |b.queue[0]| > 0;
    }
  }

  /** With nothing in it the reader blocks; after done, it looks once more and reports the end. */
  lemma EmptyEnds(s: State)
    requires Reachable(s) && s.buffer.Pending() == []
    ensures s.reader.Polling? ==> Next(s, Poll).reader == Blocked(s.reader.n) && Next(s, Poll).returned == s.returned
    ensures s.reader.Draining? ==> Next(s, LookOnce).reader == Away && Next(s, LookOnce).ended
    ensures s.reader.Blocked? && s.done ==> Enabled(s, SeeDone) && Next(s, SeeDone).reader.Draining?
  {
    ReachableInv(s);
    forall f | f in s.buffer.queue ensures f != [] {
      assert f in s.accepted;
    }
    NothingPending(s.buffer);
  }

  /** Looking once more, it takes up whatever is there. */
  lemma LookFinds(s: State)
    requires Reachable(s) && s.reader.Draining? && s.buffer.Pending() != []
    ensures Next(s, LookOnce) == s.(reader := Polling(s.reader.n))
  {
    ReachableInv(s);
  }

  /** The end of the stream is reported only after everything accepted has been returned. */
  lemma DrainsBeforeEnd(s: State)
    requires Reachable(s) && s.ended
    ensures s.returned == Concat(s.accepted)
  {
    ReachableInv(s);
    NothingLost(s);
    assert s.buffer.Pending() == [];
  }

  /** A reader is never left asleep over something to read: a step that wakes it is due. */
  lemma BlockedReaderIsWoken(s: State)
    requires Reachable(s) && s.reader.Blocked? && s.buffer.Pending() != []
    ensures Enabled(s, Wake) || (Enabled(s, Post) && Enabled(Next(s, Post), Wake))
  {
    ReachableInv(s);
    assert s.buffer.rem == [];
    assert s.buffer.queue != [];
  }
}
