/** The values that every part of the client passes around: keys, results, errors and
    the views of a node's answers that the client inspects. */
module Types {
  datatype Option<+T> = None | Some(value: T)

  datatype Result<+T, +E> = Ok(value: T) | Err(error: E)

  /** First value an unsigned 64-bit word cannot hold. */
  const U64: nat := 0x1_0000_0000_0000_0000

  type TaskId = nat
  type AccountId = string
  type Byte = x: int | 0 <= x < 256
  type Bytes = seq<Byte>
  datatype PublicKey = PublicKey(data: seq<nat>)
  datatype CacheKey = CacheKey(account: AccountId, publicKey: PublicKey)

  // ----- Errors a node reports -----

  datatype InvalidTxError = InvalidNonce(txNonce: nat, akNonce: nat) | OtherInvalidTx(code: nat)

  datatype ActionErrorKind =
    | DelegateActionInvalidNonce(delegateNonce: nat, accessKeyNonce: nat)
    | OtherActionError(code: nat)

  datatype TxExecutionError =
    | ActionError(index: Option<nat>, kind: ActionErrorKind)
    | InvalidTx(context: InvalidTxError)

  datatype RpcTransactionError =
    | InvalidTransaction(context: InvalidTxError)
    | UnknownTransaction
    | TimeoutError
    | OtherTransactionError(code: nat)

  datatype JsonRpcServerError = HandlerError(handler: RpcTransactionError) | OtherServerError(code: nat)

  datatype JsonRpcError = ServerError(server: JsonRpcServerError) | TransportError(code: nat)

  /** The errors of the client itself. */
  datatype Error =
    | RpcBlockError
    | RpcQueryError
    | RpcTransactionFailure(rpc: JsonRpcError)
    | RpcTransactionPending
    | RpcReturnedInvalidData
    | TxExecution(failure: TxExecutionError)
    | TxStatus(status: string)
    | Serialization(code: nat)
    | Base64Invalid
    | Io(code: nat)
    | InvalidArgs(reason: string)
    | Dropped

  // ----- Views of a node's answers -----

  datatype ExecutionStatus =
    | Unknown
    | Failure(error: TxExecutionError)
    | SuccessValue(value: Bytes)
    | SuccessReceiptId(id: nat)

  datatype OutcomeWithId = OutcomeWithId(id: nat, logs: seq<string>, gasBurnt: nat, status: ExecutionStatus)

  datatype FinalStatus = NotStarted | Started | FinalFailure(error: TxExecutionError) | FinalSuccess(value: Bytes)

  datatype FinalOutcome = FinalOutcome(
    status: FinalStatus,
    transaction: nat,
    transactionOutcome: OutcomeWithId,
    receiptsOutcome: seq<OutcomeWithId>)

  datatype OutcomeView = Plain(plain: FinalOutcome) | WithReceipt(finalOutcome: FinalOutcome, receipts: seq<nat>)

  datatype TxExecutionStatus = NoStatus | Included | ExecutedOptimistic | IncludedFinal | Executed | Final

  datatype RpcResponse = RpcResponse(outcome: Option<OutcomeView>, status: TxExecutionStatus)

  type Reply = Result<RpcResponse, JsonRpcError>

  function IntoOutcome(view: OutcomeView): FinalOutcome {
    match view
    case Plain(o) => o
    case WithReceipt(o, _) => o
  }
}
