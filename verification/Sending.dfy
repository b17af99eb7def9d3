/** send_all: one message, many send() calls, each of which may be short, interrupted or refused. */
module Sending {

  /** What one send() answers. `Sent(n)`: the socket had room for n bytes. */
  datatype Answer = Sent(n: nat) | Interrupted | WouldBlock | Failed

  /** What send_all returns: 1, 0, -1; `Blocked` when it is still inside send(). */
  datatype Outcome = Complete | Later | Broken | Blocked

  /** The answers that move nothing and end nothing. */
  function Stalls(answers: seq<Answer>): nat {
    if answers == [] then 0
    else (if answers[0].Interrupted? || answers[0] == Sent(0) then 1 else 0) + Stalls(answers[1..])
  }

  lemma {:induction false} StallsSplit(answers: seq<Answer>, k: nat)
    requires k < |answers|
    ensures Stalls(answers[..k + 1]) ==
            Stalls(answers[..k]) + if answers[k].Interrupted? || answers[k] == Sent(0) then 1 else 0
    ensures Stalls(answers[..k + 1]) <= Stalls(answers)
  {
    if k == 0 {
      assert answers[..1] == [answers[0]] && answers[..1][1..] == [];
    } else {
      StallsSplit(answers[1..], k - 1);
      assert answers[..k + 1][1..] == answers[1..][..k] && answers[..k][1..] == answers[1..][..k - 1];
    }
  }

  /** The room that the first answers offer. */
  function Moved(answers: seq<Answer>): nat {
    if answers == [] then 0 else Moved(answers[..|answers| - 1]) + Room(answers[|answers| - 1])
  }

  function Room(answer: Answer): nat {
    if answer.Sent? then answer.n else 0
  }

  lemma MovedMore(answers: seq<Answer>, k: nat)
    requires k < |answers|
    ensures Moved(answers[..k + 1]) == Moved(answers[..k]) + Room(answers[k])
  {
    assert answers[..k + 1][..k] == answers[..k];
  }

  /** What reaches the peer is always a prefix of the message, and is the whole message exactly
      when the call reports success; its length is the room that the answers offered, up to the
      length of the message. It goes on after short sends and interrupts only, and stops once
      there was room for all. Progress: the number of send() calls is bounded by the bytes
      that left plus the stalls, so with finitely many stalls the call comes back. */
  method SendAll(buf: string, answers: seq<Answer>) returns (rc: Outcome, wire: string, calls: nat)
    ensures wire <= buf
    ensures calls <= |answers| && |wire| == if Moved(answers[..calls]) < |buf| then Moved(answers[..calls]) else |buf|
    ensures rc.Complete? <==> wire == buf
    ensures calls <= |answers| && calls <= |wire| + Stalls(answers[..calls]) + 1
    ensures rc.Later? ==> calls > 0 && answers[calls - 1].WouldBlock?
    ensures rc.Broken? ==> calls > 0 && answers[calls - 1].Failed?
    ensures rc.Blocked? ==> calls == |answers|
    ensures forall k :: 0 <= k < calls ==>
      answers[k].Sent? || answers[k].Interrupted? || (k == calls - 1 && (rc.Later? || rc.Broken?))
    ensures calls > 0 ==> Moved(answers[..calls - 1]) < |buf|
    ensures |answers| >= |buf| + Stalls(answers) ==> !rc.Blocked?
  {
    var sent := 0;
    calls := 0;
    while sent < |buf|
      invariant 0 <= sent <= |buf| && calls <= |answers|
      invariant calls <= sent + Stalls(answers[..calls])
      invariant sent == if Moved(answers[..calls]) < |buf| then Moved(answers[..calls]) else |buf|
      invariant Stalls(answers[..calls]) <= Stalls(answers)
      invariant forall k :: 0 <= k < calls ==> answers[k].Sent? || answers[k].Interrupted?
      invariant calls > 0 ==> Moved(answers[..calls - 1]) < |buf|
      decreases |answers| - calls
    {
      if calls == |answers| {
        assert answers[..calls] == answers;
        return Blocked, buf[..sent], calls;
      }
      var answer := answers[calls];
      StallsSplit(answers, calls);
      MovedMore(answers, calls);
      calls := calls + 1;
      match answer {
        case Interrupted =>
        case WouldBlock => return Later, buf[..sent], calls;
        case Failed => return Broken, buf[..sent], calls;
        case Sent(n) => sent := sent + if n <= |buf| - sent then n else |buf| - sent;
      }
    }
    assert buf[..sent] == buf;
    return Complete, buf, calls;
  }
}
