/** The one-in-flight lock of wasmpg/fifo.go: a queue of waiters granted in arrival order. */
module Fifo {

  /** A waiter's channel. The connection that made it and its arrival number identify it. */
  datatype Waiter = Waiter(conn: nat, ticket: nat)

  /** The lock at rest: `held`, the queue, and the channels that have been closed (granted). */
  datatype LockState = LockState(held: bool, waiters: seq<Waiter>, granted: set<Waiter>) {

    /** The locked region of acquire: take a free lock, or join the queue. */
    function Ask(w: Waiter): LockState {
      if held then this.(waiters := waiters + [w]) else this.(held := true)
    }

    /** The locked region of release: hand over to the longest waiter, or mark the lock free. */
    function Release(): LockState {
      if waiters != []
      then this.(waiters := waiters[1..], granted := granted + {waiters[0]})
      else this.(held := false)
    }

    /** The locked region of abandon: leave the queue, if still in it. */
    function Withdraw(w: Waiter): LockState {
      this.(waiters := Without(waiters, w))
    }
  }

  /** The queue with the first occurrence of w removed. */
  function Without(ws: seq<Waiter>, w: Waiter): (r: seq<Waiter>)
  {
    if ws == [] then []
    else if ws[0] == w then ws[1..]
    else [ws[0]] + Without(ws[1..], w)
  }

  lemma {:induction false} WithoutAbsent(ws: seq<Waiter>, w: Waiter)
    requires w !in ws
    ensures Without(ws, w) == ws
  {
    if ws != [] {
      WithoutAbsent(ws[1..], w);
    }
  }

  /** Removing the waiter at position i closes the gap and keeps everyone else in order. */
  lemma {:induction false} WithoutAt(ws: seq<Waiter>, w: Waiter, i: nat)
    requires i < |ws| && ws[i] == w && w !in ws[..i]
    ensures Without(ws, w) == ws[..i] + ws[i + 1..]
  {
    if i == 0 {
    } else {
      assert ws[0] in ws[..i];
      assert ws[1..][..i - 1] == ws[..i][1..];
      WithoutAt(ws[1..], w, i - 1);
      assert ws[1..][i..] == ws[i + 1..];
      assert ws[..i] == [ws[0]] + ws[..i][1..];
    }
  }

  /** Arrival order: tickets strictly increase along the queue. */
  predicate InArrivalOrder(ws: seq<Waiter>) {
    forall i, j :: 0 <= i < j < |ws| ==> ws[i].ticket < ws[j].ticket
  }

  /** A withdrawal keeps arrival order and takes out exactly that waiter. */
  lemma {:induction false} WithoutOrdered(ws: seq<Waiter>, w: Waiter)
    requires InArrivalOrder(ws)
    ensures InArrivalOrder(Without(ws, w))
    ensures forall v :: v in Without(ws, w) <==> v in ws && v != w
  {
    if ws != [] {
      var rest := ws[1..];
      assert forall v :: v in ws <==> v == ws[0] || v in rest;
      assert InArrivalOrder(rest);
      if ws[0] != w {
        WithoutOrdered(rest, w);
        assert forall v :: v in Without(rest, w) ==> ws[0].ticket < v.ticket;
      } else {
        assert forall v :: v in rest ==> ws[0].ticket < v.ticket;
      }
    }
  }

  /** Where v stands in the queue, or the queue's length when it is not in it. */
  function Position(ws: seq<Waiter>, v: Waiter): (p: nat)
    ensures p <= |ws|
    ensures p < |ws| <==> v in ws
    ensures p < |ws| ==> ws[p] == v
  {
    if ws == [] then 0 else if ws[0] == v then 0 else 1 + Position(ws[1..], v)
  }

  /** Withdrawing w moves up by one everybody behind it and leaves everybody ahead in place. */
  lemma {:induction false} WithdrawalMovesUp(ws: seq<Waiter>, w: Waiter, v: Waiter)
    requires InArrivalOrder(ws) && v in ws && w in ws && v != w
    ensures v in Without(ws, w)
    ensures Position(Without(ws, w), v) == Position(ws, v) - (if Position(ws, w) < Position(ws, v) then 1 else 0)
  {
    WithoutOrdered(ws, w);
    assert InArrivalOrder(ws[1..]);
    if ws[0] != w && ws[0] != v {
      WithdrawalMovesUp(ws[1..], w, v);
    }
  }

  /** fifoLock itself. Each method is one region the source runs under f.mu. */
  class FifoLock {
    var held: bool
    var waiters: seq<Waiter>
    var granted: set<Waiter>

    ghost function Value(): LockState
      reads this
    {
      LockState(held, waiters, granted)
    }

    constructor ()
      ensures Value() == LockState(false, [], {})
    {
      held, waiters, granted := false, [], {};
    }

    /** Says whether the caller owns the lock now; otherwise it waits on w. */
    method Acquire(w: Waiter) returns (owned: bool)
      modifies this
      ensures owned == !old(held)
      ensures Value() == old(Value()).Ask(w)
    {
      if !held {
        held := true;
        return true;
      }
      waiters := waiters + [w];
      return false;
    }

    /** Says whether w was still queued. If not, it was granted and the caller must pass it on. */
    method Abandon(w: Waiter) returns (withdrawn: bool)
      modifies this
      ensures withdrawn <==> w in old(waiters)
      ensures Value() == old(Value()).Withdraw(w)
    {
      var i := 0;
      while i < |waiters|
        invariant 0 <= i <= |waiters|
        invariant w !in waiters[..i]
        invariant Value() == old(Value())
      {
        if waiters[i] == w {
          WithoutAt(waiters, w, i);
          waiters := waiters[..i] + waiters[i + 1..];
          return true;
        }
        i := i + 1;
      }
      WithoutAbsent(waiters, w);
      return false;
    }

    method Release()
      modifies this
      ensures Value() == old(Value()).Release()
    {
      if |waiters| > 0 {
        granted := granted + {waiters[0]};
        waiters := waiters[1..];
        return;
      }
      held := false;
    }
  }
}
