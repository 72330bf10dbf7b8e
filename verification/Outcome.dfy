/** What a node's answer says about a transaction: the errors that drive the invalidation of the
    nonce cache, the failure views shown to users, and the returned value. */
module Outcome {
  import opened Types
  import Base64

  // ----- Views -----

  datatype ExecutionDetails = ExecutionDetails(
    transaction: nat,
    transactionOutcome: OutcomeWithId,
    receiptsOutcome: seq<OutcomeWithId>)

  datatype ExecutionFinalResult = ExecutionFinalResult(status: FinalStatus, details: ExecutionDetails)

  /** A successful execution; the value is kept as its base64 text. */
  datatype ExecutionSuccess = ExecutionSuccess(totalGasBurnt: nat, repr: string, details: ExecutionDetails)

  /** The node's reply carries this outcome, with or without the receipts themselves. */
  ghost predicate Carries(reply: Reply, o: FinalOutcome) {
    || (exists st :: reply == Ok(RpcResponse(Some(Plain(o)), st)))
    || (exists st, receipts :: reply == Ok(RpcResponse(Some(WithReceipt(o, receipts)), st)))
  }

  lemma CarriesIff(reply: Reply, o: FinalOutcome)
    ensures Carries(reply, o) <==> reply.Ok? && reply.value.outcome.Some? && IntoOutcome(reply.value.outcome.value) == o
  {
    if reply.Ok? && reply.value.outcome.Some? && IntoOutcome(reply.value.outcome.value) == o {
      var st := reply.value.status;
      match reply.value.outcome.value
      case Plain(_) => assert reply == Ok(RpcResponse(Some(Plain(o)), st));
      case WithReceipt(_, receipts) => assert reply == Ok(RpcResponse(Some(WithReceipt(o, receipts)), st));
    }
  }

  function FromView(view: FinalOutcome): ExecutionFinalResult {
    ExecutionFinalResult(view.status, ExecutionDetails(view.transaction, view.transactionOutcome, view.receiptsOutcome))
  }

  /** The transaction's outcome followed by those of its receipts. */
  function AllOutcomes(d: ExecutionDetails): seq<OutcomeWithId> { [d.transactionOutcome] + d.receiptsOutcome }

  /** The failed outcomes, in their order. */
  function Failed(os: seq<OutcomeWithId>): seq<OutcomeWithId> {
    if os == [] then []
    else (if os[0].status.Failure? then [os[0]] else []) + Failed(os[1..])
  }

  function Errors(os: seq<OutcomeWithId>): (es: seq<TxExecutionError>)
    requires forall o :: o in os ==> o.status.Failure?
    ensures |es| == |os| && forall i :: 0 <= i < |es| ==> es[i] == os[i].status.error
  {
    seq(|os|, i requires 0 <= i < |os| => os[i].status.error)
  }

  function AllLogs(os: seq<OutcomeWithId>): seq<string> {
    if os == [] then [] else os[0].logs + AllLogs(os[1..])
  }

  /** The logs of each outcome stand together, in their order, after those of the outcomes before it. */
  lemma {:induction false} LogsInOrder(os: seq<OutcomeWithId>, i: nat)
    requires i < |os|
    ensures |AllLogs(os[..i])| + |os[i].logs| == |AllLogs(os[..i + 1])| <= |AllLogs(os)|
    ensures AllLogs(os)[|AllLogs(os[..i])|..|AllLogs(os[..i + 1])|] == os[i].logs
  {
    if i > 0 {
      LogsInOrder(os[1..], i - 1);
      assert os[..i][0] == os[0] && os[..i][1..] == os[1..][..i - 1];
      assert os[..i + 1][0] == os[0] && os[..i + 1][1..] == os[1..][..i];
    } else {
      assert os[..1][1..] == [];
    }
  }

  /** A failed outcome stands in the view after the failed ones before it; others do not show up. */
  lemma {:induction false} FailedInOrder(os: seq<OutcomeWithId>, i: nat)
    requires i < |os|
    ensures |Failed(os[..i + 1])| == |Failed(os[..i])| + (if os[i].status.Failure? then 1 else 0)
    ensures |Failed(os[..i + 1])| <= |Failed(os)|
    ensures os[i].status.Failure? ==> Failed(os)[|Failed(os[..i])|] == os[i]
  {
    if i > 0 {
      FailedInOrder(os[1..], i - 1);
      assert os[..i][0] == os[0] && os[..i][1..] == os[1..][..i - 1];
      assert os[..i + 1][0] == os[0] && os[..i + 1][1..] == os[1..][..i];
    } else {
      assert os[..1][1..] == [];
    }
  }

  /** `Failed` keeps exactly the failures. */
  lemma {:induction false} FailedExactly(os: seq<OutcomeWithId>, o: OutcomeWithId)
    ensures o in Failed(os) <==> o in os && o.status.Failure?
  {
    if os != [] {
      FailedExactly(os[1..], o);
      assert os == [os[0]] + os[1..];
    }
  }

  lemma AllFailed(os: seq<OutcomeWithId>)
    ensures forall o :: o in Failed(os) ==> o.status.Failure?
  {
    forall o { FailedExactly(os, o); }
  }

  method DetailsFailures(d: ExecutionDetails) returns (failures: seq<OutcomeWithId>)
    ensures failures == Failed(AllOutcomes(d))
    ensures forall o :: o in failures <==> o in AllOutcomes(d) && o.status.Failure?
  {
    failures := [];
    if d.transactionOutcome.status.Failure? {
      failures := failures + [d.transactionOutcome];
    }
    failures := failures + Failed(d.receiptsOutcome);
    assert AllOutcomes(d)[1..] == d.receiptsOutcome;
    forall o { FailedExactly(AllOutcomes(d), o); }
  }

  method ResultFailures(r: ExecutionSuccess) returns (failures: seq<OutcomeWithId>)
    ensures failures == Failed(AllOutcomes(r.details))
  {
    failures := [];
    if r.details.transactionOutcome.status.Failure? {
      failures := failures + [r.details.transactionOutcome];
    }
    failures := failures + Failed(r.details.receiptsOutcome);
    assert AllOutcomes(r.details)[1..] == r.details.receiptsOutcome;
  }

  // ----- The error list behind the invalidation -----

  function FinalErrors(status: FinalStatus): seq<TxExecutionError> {
    if status.FinalFailure? then [status.error] else []
  }

  /** The errors of the outcomes that failed, in their order. */
  function ErrorsOf(os: seq<OutcomeWithId>): seq<TxExecutionError> {
    if os == [] then []
    else ErrorsOf(os[..|os| - 1]) + (if os[|os| - 1].status.Failure? then [os[|os| - 1].status.error] else [])
  }

  function TxErrors(resp: RpcResponse): seq<TxExecutionError> {
    match resp.outcome
    case None => []
    case Some(view) =>
      FinalErrors(IntoOutcome(view).status) + ErrorsOf(AllOutcomes(FromView(IntoOutcome(view)).details))
  }

  method FetchTxErrs(resp: RpcResponse) returns (failures: seq<TxExecutionError>)
    ensures failures == TxErrors(resp)
    ensures resp.outcome.None? ==> failures == []
    ensures forall o :: Carries(Ok(resp), o) ==>
      failures == (if o.status.FinalFailure? then [o.status.error] else [])
                  + ErrorsOf([o.transactionOutcome] + o.receiptsOutcome)
  {
    forall o { CarriesIff(Ok(resp), o); }
    failures := [];
    if resp.outcome.None? {
      return;
    }
    var outcome := IntoOutcome(resp.outcome.value);
    if outcome.status.FinalFailure? {
      failures := failures + [outcome.status.error];
    }
    if outcome.transactionOutcome.status.Failure? {
      failures := failures + [outcome.transactionOutcome.status.error];
    }
    ghost var all := AllOutcomes(FromView(outcome).details);
    assert all[..1] == [outcome.transactionOutcome] && all[..1][..0] == [];
    for i := 0 to |outcome.receiptsOutcome|
      invariant failures == FinalErrors(outcome.status) + ErrorsOf(all[..1 + i])
    {
      var receipt := outcome.receiptsOutcome[i];
      assert all[..2 + i][..1 + i] == all[..1 + i] && all[1 + i] == receipt;
      if receipt.status.Failure? {
        failures := failures + [receipt.status.error];
      }
    }
    assert all[..|all|] == all;
  }

  lemma {:induction false} ErrorsOfCons(o: OutcomeWithId, os: seq<OutcomeWithId>)
    ensures ErrorsOf([o] + os) == (if o.status.Failure? then [o.status.error] else []) + ErrorsOf(os)
  {
    if os == [] {
      assert [o] + os == [o] && [o][..0] == [];
    } else {
      ErrorsOfCons(o, os[..|os| - 1]);
      assert ([o] + os)[..|os|] == [o] + os[..|os| - 1];
    }
  }

  lemma ErrorsCons(o: OutcomeWithId, os: seq<OutcomeWithId>)
    requires o.status.Failure? && forall x :: x in os ==> x.status.Failure?
    ensures Errors([o] + os) == [o.status.error] + Errors(os)
  {
  }

  /** They are the errors of the failure view. */
  lemma {:induction false} ErrorsOfFailed(os: seq<OutcomeWithId>)
    ensures (forall o :: o in Failed(os) ==> o.status.Failure?) && ErrorsOf(os) == Errors(Failed(os))
  {
    AllFailed(os);
    if os != [] {
      ErrorsOfFailed(os[1..]);
      assert os == [os[0]] + os[1..];
      ErrorsOfCons(os[0], os[1..]);
      if os[0].status.Failure? { ErrorsCons(os[0], Failed(os[1..])); }
    }
  }

  predicate IsNonceError(e: TxExecutionError) {
    match e
    case ActionError(_, kind) => kind.DelegateActionInvalidNonce?
    case InvalidTx(context) => context.InvalidNonce?
  }

  /** The handler error by which a node refuses a nonce at or below the chain's. */
  predicate IsInvalidNonce(reply: Reply) {
    && reply.Err?
    && reply.error.ServerError? && reply.error.server.HandlerError?
    && reply.error.server.handler.InvalidTransaction?
    && reply.error.server.handler.context.InvalidNonce?
  }

  function NonceErrors(es: seq<TxExecutionError>): nat {
    if es == [] then 0 else NonceErrors(es[..|es| - 1]) + (if IsNonceError(es[|es| - 1]) then 1 else 0)
  }

  /** How many times a reply makes the client invalidate the entry. */
  function Invalidations(reply: Reply): nat {
    if IsInvalidNonce(reply) then 1
    else if reply.Ok? then NonceErrors(TxErrors(reply.value))
    else 0
  }

  lemma {:induction false} NonceErrorsPositive(es: seq<TxExecutionError>)
    ensures NonceErrors(es) > 0 <==> exists i :: 0 <= i < |es| && IsNonceError(es[i])
  {
    if es != [] { NonceErrorsPositive(es[..|es| - 1]); }
  }

  /** The error is one of the final status, the transaction's outcome or any of its receipts. */
  ghost predicate Reports(o: FinalOutcome, e: TxExecutionError) {
    || o.status == FinalFailure(e)
    || o.transactionOutcome.status == Failure(e)
    || exists i :: 0 <= i < |o.receiptsOutcome| && o.receiptsOutcome[i].status == Failure(e)
  }

  lemma {:induction false} ErrorsOfMember(os: seq<OutcomeWithId>, e: TxExecutionError)
    ensures e in ErrorsOf(os) <==> exists i :: 0 <= i < |os| && os[i].status == Failure(e)
  {
    if os != [] { ErrorsOfMember(os[..|os| - 1], e); }
  }

  lemma ErrorsReported(o: FinalOutcome, e: TxExecutionError)
    ensures e in FinalErrors(o.status) + ErrorsOf(AllOutcomes(FromView(o).details)) <==> Reports(o, e)
  {
    var all := AllOutcomes(FromView(o).details);
    ErrorsOfMember(all, e);
    if i :| 0 <= i < |all| && all[i].status == Failure(e) {
      if i > 0 { assert o.receiptsOutcome[i - 1].status == Failure(e); }
    }
    if o.transactionOutcome.status == Failure(e) { assert all[0].status == Failure(e); }
    if i :| 0 <= i < |o.receiptsOutcome| && o.receiptsOutcome[i].status == Failure(e) {
      assert all[i + 1].status == Failure(e);
    }
  }

  /** The two errors that say a nonce was at or below the one on chain. */
  ghost predicate SaysNonceInvalid(e: TxExecutionError) {
    || (exists index, n, m :: e == ActionError(index, DelegateActionInvalidNonce(n, m)))
    || (exists n, m :: e == InvalidTx(InvalidNonce(n, m)))
  }

  lemma NonceErrorShape(e: TxExecutionError)
    ensures IsNonceError(e) <==> SaysNonceInvalid(e)
  {
    match e
    case ActionError(index, DelegateActionInvalidNonce(n, m)) =>
      assert e == ActionError(index, DelegateActionInvalidNonce(n, m));
    case InvalidTx(InvalidNonce(n, m)) => assert e == InvalidTx(InvalidNonce(n, m));
    case _ =>
  }

  /** The reply is the InvalidNonce handler error, or carries an executed outcome that reports one of the
      two nonce errors anywhere. */
  ghost predicate DemandsRemoval(reply: Reply) {
    || (exists n, m :: reply == Err(ServerError(HandlerError(InvalidTransaction(InvalidNonce(n, m))))))
    || (exists o, e :: Carries(reply, o) && SaysNonceInvalid(e) && Reports(o, e))
  }

  /** A reply invalidates the entry exactly when it demands it. */
  lemma InvalidatesIff(reply: Reply)
    ensures Invalidations(reply) > 0 <==> DemandsRemoval(reply)
    ensures reply.Err? ==> Invalidations(reply) <= 1
  {
    forall e ensures IsNonceError(e) <==> SaysNonceInvalid(e) { NonceErrorShape(e); }
    forall o { CarriesIff(reply, o); }
    if IsInvalidNonce(reply) {
      var c := reply.error.server.handler.context;
      assert reply == Err(ServerError(HandlerError(InvalidTransaction(InvalidNonce(c.txNonce, c.akNonce)))));
    }
    if reply.Ok? {
      var es := TxErrors(reply.value);
      NonceErrorsPositive(es);
      if reply.value.outcome.Some? {
        var o := IntoOutcome(reply.value.outcome.value);
        assert Carries(reply, o);
        forall e { ErrorsReported(o, e); }
        if e :| IsNonceError(e) && Reports(o, e) {
          var i :| 0 <= i < |es| && es[i] == e;
        }
      }
    }
  }

  /** What `send_tx_once` makes of the node's reply. */
  function SendResult(reply: Reply): Result<FinalOutcome, Error> {
    match reply
    case Err(e) => Err(RpcTransactionFailure(e))
    case Ok(resp) =>
      match resp.outcome
      case None => Err(RpcReturnedInvalidData)
      case Some(view) => Ok(IntoOutcome(view))
  }

  /** What a reply means for the sender, case by case. */
  ghost predicate Means(reply: Reply, result: Result<FinalOutcome, Error>) {
    && (forall o :: Carries(reply, o) ==> result == Ok(o))
    && (forall st :: reply == Ok(RpcResponse(None, st)) ==> result == Err(RpcReturnedInvalidData))
    && (forall e :: reply == Err(e) ==> result == Err(RpcTransactionFailure(e)))
  }

  lemma SendResultMeans(reply: Reply, result: Result<FinalOutcome, Error>)
    ensures Means(reply, result) <==> result == SendResult(reply)
  {
    forall o { CarriesIff(reply, o); }
    match reply
    case Err(e) =>
    case Ok(RpcResponse(Some(view), st)) => assert Carries(reply, IntoOutcome(view));
    case Ok(RpcResponse(None, st)) => assert reply == Ok(RpcResponse(None, st));
  }

  // ----- The returned value -----

  function SumGas(os: seq<OutcomeWithId>): nat {
    if os == [] then 0 else os[0].gasBurnt + SumGas(os[1..])
  }

  /** Gas is summed in 64-bit words that wrap, as in an optimized build. */
  function TotalGasBurnt(r: ExecutionFinalResult): nat {
    (r.details.transactionOutcome.gasBurnt + SumGas(r.details.receiptsOutcome)) % U64
  }

  lemma {:induction false} GasAddsUp(a: seq<OutcomeWithId>, b: seq<OutcomeWithId>, x: OutcomeWithId)
    ensures SumGas([]) == 0 && SumGas([x]) == x.gasBurnt && SumGas(a + b) == SumGas(a) + SumGas(b)
  {
    assert [x][1..] == [];
    if a == [] {
      assert a + b == b;
    } else {
      assert (a + b)[0] == a[0] && (a + b)[1..] == a[1..] + b;
      GasAddsUp(a[1..], b, x);
    }
  }

  function IntoResult(r: ExecutionFinalResult): Result<ExecutionSuccess, Error> {
    match r.status
    case FinalSuccess(value) => Ok(ExecutionSuccess(TotalGasBurnt(r), Base64.Encode(value), r.details))
    case FinalFailure(e) => Err(TxExecution(e))
    case NotStarted => Err(TxStatus("NotStarted"))
    case Started => Err(TxStatus("Started"))
  }

  function RawBytes(r: ExecutionSuccess): Result<Bytes, Error> {
    match Base64.Decode(r.repr)
    case Some(v) => Ok(v)
    case None => Err(Base64Invalid)
  }

  /** What the user reads from an outcome. */
  predicate ReadsBack(o: FinalOutcome, v: Bytes) {
    IntoResult(FromView(o)).Ok? && RawBytes(IntoResult(FromView(o)).value) == Ok(v)
  }

  /** What a contract returned is what the user reads, byte for byte, with the gas that all outcomes have
      burnt, modulo the word; every other final status is an error that says which. */
  lemma ValueRoundTrip(o: FinalOutcome)
    ensures var r := IntoResult(FromView(o));
      match o.status
      case FinalSuccess(v) =>
        ReadsBack(o, v) && r.value.totalGasBurnt == SumGas([o.transactionOutcome] + o.receiptsOutcome) % U64
      case FinalFailure(e) => r == Err(TxExecution(e))
      case NotStarted => r == Err(TxStatus("NotStarted"))
      case Started => r == Err(TxStatus("Started"))
  {
    if o.status.FinalSuccess? {
      Base64.RoundTrip(o.status.value);
      GasAddsUp([o.transactionOutcome], o.receiptsOutcome, o.transactionOutcome);
    }
  }

  /** The views of a result are those of the outcome that the node has sent: its transaction, all its
      outcomes and their logs; a successful result shows the same. The errors that drive invalidation
      are the final status's error followed by those of the failure view. */
  lemma ViewsAgree(reply: Reply, o: FinalOutcome)
    requires Carries(reply, o)
    ensures var d := FromView(o).details; var all := [o.transactionOutcome] + o.receiptsOutcome;
      && d.transaction == o.transaction && AllOutcomes(d) == all && FromView(o).status == o.status
      && (forall x :: x in Failed(all) ==> x.status.Failure?)
      && reply.Ok?
      && TxErrors(reply.value) == (if o.status.FinalFailure? then [o.status.error] else []) + Errors(Failed(all))
      && (IntoResult(FromView(o)).Ok? ==> IntoResult(FromView(o)).value.details == d)
  {
    CarriesIff(reply, o);
    ErrorsOfFailed(AllOutcomes(FromView(o).details));
  }
}
