/** backendHold of wasmpg/conn.go: a connection's ownership of the shared session. */
module Hold {
  import opened Common
  import PgProto

  /** What a finished round trip says about the shared session. */
  datatype Outcome = SessionIdle | SessionInTx | SessionUnknown

  /** sessionOutcome: anything but a last ReadyForQuery('I') keeps the session. */
  function SessionOutcome(reply: bytes): (r: Outcome)
  {
    match PgProto.LastReadyForQuery(reply)
    case None => SessionInTx
    case Some(status) => if status == PgProto.READY_IDLE then SessionIdle else SessionInTx
  }

  /**
   * A reply damaged behind the frames fs reads as idle exactly when the last ReadyForQuery
   * before the damage said so.
   */
  lemma DamagedReadsIdleExactly(fs: seq<bytes>, tail: bytes)
    requires (forall f :: f in fs ==> PgProto.IsFrame(f)) && PgProto.NextBackend(tail).None?
    ensures SessionOutcome(Concat(fs) + tail) == SessionIdle <==> PgProto.LastReady(fs) == Some(PgProto.READY_IDLE)
  {
    PgProto.FramesOfConcat(fs, tail);
  }

  /**
   * When that is unsafe: the intact reply, with the frames lost to the damage, would have kept
   * the session. It takes an idle ReadyForQuery before the damage and another status after it.
   */
  lemma DamageIsUnsafeExactly(fs: seq<bytes>, lost: seq<bytes>, tail: bytes)
    requires forall f :: f in fs || f in lost ==> PgProto.IsFrame(f)
    requires PgProto.NextBackend(tail).None?
    ensures (SessionOutcome(Concat(fs) + tail) == SessionIdle && SessionOutcome(Concat(fs + lost)) != SessionIdle) <==>
      (PgProto.LastReady(fs) == Some(PgProto.READY_IDLE)
       && PgProto.LastReady(lost).Some? && PgProto.LastReady(lost) != Some(PgProto.READY_IDLE))
  {
    hide PgProto.LastReady, PgProto.NextBackend;
    DamagedReadsIdleExactly(fs, tail);
    NothingFollows();
    DamagedReadsIdleExactly(fs + lost, []);
    assert Concat(fs + lost) + [] == Concat(fs + lost);
    PgProto.LastReadyConcat(fs, lost);
  }

  lemma NothingFollows()
    ensures PgProto.NextBackend([]).None?
  {
  }

  /** COMMIT; BEGIN answered with 'I' and then 'T', the second frame damaged in its length: read as idle. */
  lemma DamagedReplyReadsIdle()
    ensures SessionOutcome([90, 0, 0, 0, 5, 73] + [90, 0, 0, 0, 3, 84]) == SessionIdle
    ensures SessionOutcome([90, 0, 0, 0, 5, 73] + [90, 0, 0, 0, 5, 84]) == SessionInTx
  {
    hide *;
    var idle, busy: bytes := [90, 0, 0, 0, 5, 73], [90, 0, 0, 0, 5, 84];
    var damaged: bytes := [90, 0, 0, 0, 3, 84];
    OneReady(73);
    OneReady(84);
    DamagedLength();
    DamageIsUnsafeExactly([idle], [busy], damaged);
    ConcatSingle(idle);
    ConcatSingle(busy);
    ConcatAppend([idle], [busy]);
    Settles([idle] + [busy]);
  }

  lemma DamagedLength()
    ensures PgProto.NextBackend([90, 0, 0, 0, 3, 84]).None?
  {
    hide PgProto.BigEndian;
    var damaged: bytes := [90, 0, 0, 0, 3, 84];
    assert damaged[1..5] == PgProto.PutInt32(3) + [];
    PgProto.ReadPut(3, []);
  }

  lemma OneReady(status: byte)
    ensures PgProto.IsFrame([90, 0, 0, 0, 5, status])
    ensures PgProto.LastReady([[90, 0, 0, 0, 5, status]]) == Some(status)
    ensures PgProto.READY_IDLE == 73
  {
    assert [90, 0, 0, 0, 5, status] == PgProto.EncodeBackend(90, [status]);
    PgProto.EncodedIsFrame(90, [status]);
  }

  /** A reply is idle or keeps the session. */
  lemma Settles(fs: seq<bytes>)
    ensures SessionOutcome(Concat(fs)) != SessionUnknown
  {
  }

  datatype BeginVerdict = Refused | Reentered | MustAcquire

  datatype EndVerdict = Kept | NothingHeld | GiveBack(rollback: bool)

  /** The three flags. Each function is one region run under hold.mu. */
  datatype HoldState = HoldState(held: bool, inFlight: bool, closing: bool) {

    function BeginVerdict(): BeginVerdict {
      if closing then Refused else if held then Reentered else MustAcquire
    }

    /** First region of beginRoundTrip. */
    function Begin(): HoldState {
      if !closing && held then this.(inFlight := true) else this
    }

    /** Second region of beginRoundTrip, reached with the lock just granted. */
    function Record(): HoldState {
      if closing then this else this.(held := true, inFlight := true)
    }

    function EndVerdict(outcome: Outcome): EndVerdict {
      if outcome == SessionInTx && !closing then Kept
      else if !held then NothingHeld
      else GiveBack(outcome != SessionIdle)
    }

    /** The region of endRoundTrip. */
    function End(outcome: Outcome): HoldState {
      if outcome == SessionInTx && !closing then this.(inFlight := false)
      else this.(inFlight := false, held := false)
    }

    /** Whether abandonHold has to roll back and release. */
    function MustGiveBack(): bool {
      !inFlight && held
    }

    /** The region of abandonHold. */
    function Abandon(): HoldState {
      if inFlight then this.(closing := true) else this.(closing := true, held := false)
    }
  }

  /** backendHold as the source keeps it: three flags changed in place. */
  class BackendHold {
    var held: bool
    var inFlight: bool
    var closing: bool

    ghost function Value(): HoldState
      reads this
    {
      HoldState(held, inFlight, closing)
    }

    constructor ()
      ensures Value() == HoldState(false, false, false)
    {
      held, inFlight, closing := false, false, false;
    }

    method Begin() returns (verdict: BeginVerdict)
      modifies this
      ensures verdict == old(Value()).BeginVerdict()
      ensures Value() == old(Value()).Begin()
    {
      if closing {
        return Refused;
      } else if held {
        inFlight := true;
        return Reentered;
      }
      return MustAcquire;
    }

    /** Says whether ownership was recorded; if not, the lock has to be handed straight on. */
    method Record() returns (recorded: bool)
      modifies this
      ensures recorded == !old(closing)
      ensures Value() == old(Value()).Record()
    {
      if closing {
        return false;
      }
      held := true;
      inFlight := true;
      return true;
    }

    method End(outcome: Outcome) returns (verdict: EndVerdict)
      modifies this
      ensures verdict == old(Value()).EndVerdict(outcome)
      ensures Value() == old(Value()).End(outcome)
    {
      inFlight := false;
      if outcome == SessionInTx && !closing {
        return Kept;
      }
      var was := held;
      held := false;
      if !was {
        return NothingHeld;
      }
      return GiveBack(outcome != SessionIdle);
    }

    method Abandon() returns (giveBack: bool)
      modifies this
      ensures giveBack == old(Value()).MustGiveBack()
      ensures Value() == old(Value()).Abandon()
    {
      closing := true;
      if inFlight {
        return false;
      }
      giveBack := held;
      held := false;
    }
  }
}
