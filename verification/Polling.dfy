/** Waiting for an asynchronous transaction: the node is asked again until its answer is final. */
module Polling {
  import opened Types
  import opened Outcome

  datatype Poll = Ready(result: ExecutionFinalResult) | NotReady

  /** Turns the node's answer into an outcome, or into the error that says why there is none. */
  function StatusTx(reply: Reply): Result<FinalOutcome, Error> {
    match reply
    case Err(e) => Err(RpcTransactionFailure(e))
    case Ok(resp) =>
      if resp.status.NoStatus? || resp.status.Included? then Err(RpcTransactionPending)
      else match resp.outcome
        case None => Err(RpcReturnedInvalidData)
        case Some(view) => Ok(IntoOutcome(view))
  }

  /** An unknown transaction, a timeout and an unfinished one are not errors yet. */
  function Status(reply: Reply): Result<Poll, Error> {
    match StatusTx(reply)
    case Ok(outcome) => Ok(Ready(FromView(outcome)))
    case Err(RpcTransactionFailure(e)) =>
      if e == ServerError(HandlerError(UnknownTransaction)) || e == ServerError(HandlerError(TimeoutError))
      then Ok(NotReady)
      else Err(RpcTransactionFailure(e))
    case Err(RpcTransactionPending) => Ok(NotReady)
    case Err(e) => Err(e)
  }

  /** The node has given an answer that ends the wait. */
  predicate Final(reply: Reply) { Status(reply) != Ok(NotReady) }

  function Verdict(reply: Reply): Result<ExecutionFinalResult, Error>
    requires Final(reply)
  {
    match Status(reply) case Ok(poll) => Ok(poll.result) case Err(e) => Err(e)
  }

  /** Exactly the pending, unknown and timed-out answers keep the wait going; any other answer ends it
      with the outcome it carries, with the node's error, or with the complaint that the outcome is missing. */
  lemma NotFinalIff(reply: Reply)
    ensures !Final(reply) <==>
      || reply == Err(ServerError(HandlerError(UnknownTransaction)))
      || reply == Err(ServerError(HandlerError(TimeoutError)))
      || (exists outcome :: reply == Ok(RpcResponse(outcome, NoStatus)) || reply == Ok(RpcResponse(outcome, Included)))
    ensures Final(reply) ==>
      && (forall e :: reply == Err(e) ==> Verdict(reply) == Err(RpcTransactionFailure(e)))
      && (forall st :: reply == Ok(RpcResponse(None, st)) ==> Verdict(reply) == Err(RpcReturnedInvalidData))
      && (forall o :: Carries(reply, o) ==> Verdict(reply) == Ok(FromView(o)))
  {
    forall o { CarriesIff(reply, o); }
    if reply.Ok? {
      assert reply == Ok(RpcResponse(reply.value.outcome, reply.value.status));
    }
  }

  /** The wait after at most `n` polls of the stream of answers, `None` while it goes on; with the
      number of polls made. */
  function WaitFor(answers: nat -> Reply, n: nat): Option<(Result<ExecutionFinalResult, Error>, nat)> {
    if n == 0 then None
    else match WaitFor(answers, n - 1)
      case Some(done) => Some(done)
      case None => if Final(answers(n - 1)) then Some((Verdict(answers(n - 1)), n)) else None
  }

  predicate FirstFinal(answers: nat -> Reply, i: nat) {
    Final(answers(i)) && forall j :: 0 <= j < i ==> !Final(answers(j))
  }

  lemma {:induction false} WaitForMeans(answers: nat -> Reply, n: nat)
    ensures WaitFor(answers, n).None? <==> forall j :: 0 <= j < n ==> !Final(answers(j))
    ensures WaitFor(answers, n).Some? ==>
      var polls := WaitFor(answers, n).value.1;
      0 < polls <= n && FirstFinal(answers, polls - 1) && WaitFor(answers, n).value.0 == Verdict(answers(polls - 1))
  {
    if n > 0 { WaitForMeans(answers, n - 1); }
  }

  /** For every stream of answers the wait ends if and only if some answer is final; it then returns
      the verdict on the first such answer, having polled exactly up to it. */
  lemma WaitEndsIff(answers: nat -> Reply)
    ensures (exists n: nat :: WaitFor(answers, n).Some?) <==> exists i: nat :: Final(answers(i))
    ensures forall n: nat, i: nat :: FirstFinal(answers, i) && i < n ==>
      WaitFor(answers, n) == Some((Verdict(answers(i)), i + 1))
  {
    if n: nat :| WaitFor(answers, n).Some? {
      WaitForMeans(answers, n);
      assert Final(answers(WaitFor(answers, n).value.1 - 1));
    }
    if i: nat :| Final(answers(i)) {
      WaitForMeans(answers, i + 1);
      assert WaitFor(answers, i + 1).Some?;
    }
    forall n: nat, i: nat | FirstFinal(answers, i) && i < n
      ensures WaitFor(answers, n) == Some((Verdict(answers(i)), i + 1))
    {
      WaitForMeans(answers, n);
    }
  }

  /** The polling loop; `last` only says that the stream holds a final answer somewhere. */
  method Wait(answers: nat -> Reply, ghost last: nat) returns (result: Result<ExecutionFinalResult, Error>, polls: nat)
    requires Final(answers(last))
    ensures polls > 0 && FirstFinal(answers, polls - 1) && result == Verdict(answers(polls - 1))
  {
    polls := 0;
    while true
      invariant polls <= last
      invariant forall j :: 0 <= j < polls ==> !Final(answers(j))
      decreases last - polls
    {
      polls := polls + 1;
      match Status(answers(polls - 1))
      case Err(e) => return Err(e), polls;
      case Ok(Ready(val)) => return Ok(val), polls;
      case Ok(NotReady) =>
    }
  }
}
