# near-fetch: a verified model of the transaction client

near-fetch sends transactions to the NEAR chain. Every transaction of an access key needs a nonce above
the key's last one, so the client caches nonces, hands them out to any number of concurrent tasks behind
one reader/writer lock, and throws an entry away when the chain refuses a nonce. A rotating signer picks
a different key for every signature, failed sends are retried, and the outcome is turned into views for
the user. This project models those parts in Dafny and proves what they promise over every run.

## How the model is built

| file | what it models |
|---|---|
| `Types.dfy` | keys, errors, and the views of a node's answers |
| `NonceProtocol.dfy` | the nonce cache as a labelled transition system: lock, cache, tasks, chain, history |
| `NonceInvariant.dfy` | its inductive invariant |
| `Solo.dfy` | concrete runs of a task that is alone |
| `Epochs.dfy` | contiguity, uniqueness, repeats across epochs, double-checked locking |
| `TicketCounter.dfy` | linearizability to a sequential ticket counter |
| `Progress.dfy` | deadlock freedom, termination, bounded waiting |
| `Signer.dfy` | the rotating signer: class, fairness, agreement of the key read and the key that signs |
| `SendProtocol.dfy` | `send_tx_once` on top of the nonce protocol, with shared signers, chain and outsiders |
| `SendInvariant.dfy` | its unconditional invariant; key agreement and fairness over interleavings |
| `Monotone.dfy` | strictly increasing nonces when sends on a key go one at a time |
| `SelfHealing.dfy` | how many refusals stale entries can cause |
| `RetryLoop.dfy` | the retry loop over runs of the sending protocol: how many retries are enough |
| `Sharpness.dfy` | runs in which one retry less is not enough: the bound is exact |
| `Outcome.dfy`, `Base64.dfy` | error lists, failure views, invalidation rule, returned value |
| `Builder.dfy` | function-call arguments and the batch builder, as classes |
| `Polling.dfy` | the polling loop of asynchronous transactions |
| `Waits.dfy` | what a call comes to when the moves of the others at its awaits are given |
| `Client.dfy`, `Sending.dfy` | the client's methods in the source's own order, proved to be runs of the nonce protocol |

A run is the sequence of its labels, so "for every run" is a quantifier over `seq<Label>`. An await is a
point where other tasks move; a task can be dropped at each of them. The class methods take the moves of
the other tasks as a parameter, hold for all of them, and say which state each of them leads to: when the
lock admits the task, what it then finds, and what the call answers. From a free lock, where nobody is in
the way, that is spelt out in the contracts.

What is assumed of the environment, all of it written into `Enabled` of `NonceProtocol` and
`SendProtocol`:

- the chain accepts a transaction exactly when it is signed by its own key and its nonce exceeds the key's
  chain nonce, which then becomes the chain nonce;
- chain nonces never decrease, and outsiders may raise them at any time;
- an InvalidNonce reply is only given to a transaction refused because its nonce is not above the chain's;
- an executed outcome, also one with a failed delegate action, is only returned for an accepted transaction;
- an access-key query reads the chain nonce of some moment while it is under way;
- nonces stay below 2^64, so the atomic counters never wrap;
- the lock is fair, as tokio documents its reader/writer lock to be: guards are given in the order asked for.

## Model

| member | source | states |
|---|---|---|
| NonceInvariant.InvRun | near-fetch/src/lib.rs:335-376 | every step of every task, RPC failures, drops and chain moves included, keeps the invariant of lock, tickets, entries and history |
| Epochs.Contiguity | near-fetch/src/lib.rs:335-376 | over every run, the nonces drawn in a key's open epoch are exactly those above the chain nonce its query read, up to the cached value |
| Epochs.IntervalOfEpoch | near-fetch/src/lib.rs:338-339 | the same for every epoch, closed or open: its nonces are an interval with no gaps |
| Epochs.Uniqueness | near-fetch/src/lib.rs:335-376 | two tickets of one epoch never share a nonce, they grow in the order drawn |
| Epochs.PendingHasOneHolder | near-fetch/src/lib.rs:339-343 | a ticket not yet returned is held by one task only |
| Epochs.RepeatedIff | near-fetch/src/lib.rs:262-265 | a nonce is drawn again in a later epoch exactly when it exceeds the chain nonce that epoch started from and the epoch has come that far |
| Epochs.NoRepeatIffCaughtUp | near-fetch/src/lib.rs:359-373 | no nonce of a key is handed out twice in a run if and only if every refetch read a chain nonce that had caught up with all earlier epochs |
| Epochs.RepeatExists | near-fetch/src/lib.rs:262-265 | uniqueness over a whole run fails in general: a concrete run hands out one nonce twice |
| Epochs.MutualExclusion | near-fetch/src/lib.rs:354-376 | a task holding the write guard, also across its RPC, shares the lock with nobody |
| Epochs.DoubleCheckSound | near-fetch/src/lib.rs:354-373 | no insert overwrites an entry, and no removal can happen between a task's fetch_add or insert and its return |
| Epochs.OneQueryPerEpoch | near-fetch/src/lib.rs:367-373 | the epochs of a key are as many as its answered queries that were inserted; nothing else makes a vacant entry present |
| Epochs.QueryOpensEpoch | near-fetch/src/lib.rs:365-373 | from the node's reading of a nonce to the insert of the answer no other task gets to look at the cache, over every run; the insert opens the key's next epoch with the nonce read |
| TicketCounter.Simulation | near-fetch/src/lib.rs:335-376 | step by step, the cache refines a sequential ticket counter and each task's events refine a well-formed call |
| TicketCounter.Linearizable | near-fetch/src/lib.rs:335-376 | every interleaving is linearizable: its effects in order are a run of the sequential counter ending in the cache's contents |
| TicketCounter.EffectInsideCall | near-fetch/src/lib.rs:335-376 | every returning call took effect at one instant between its start and its return and returns what the counter gave it there; a fresh entry comes from a chain nonce read in the same call |
| Progress.SomeCallMoves | near-fetch/src/lib.rs:354-376 | whenever a call is unfinished, some call can move with its RPCs answering, although guards are held across RPCs |
| Progress.DeadlockFree | near-fetch/src/lib.rs:354-376 | the same in every reachable state |
| Progress.Terminates | near-fetch/src/lib.rs:349-376 | without new calls no run is longer than the sum of the tasks' ranks |
| Progress.CanFinish | near-fetch/src/lib.rs:349-376 | from every state of the invariant all calls under way can be brought to their end |
| Progress.NoOvertaking | near-fetch/src/lib.rs:355-360 | whoever a queued task waits for after a step, it waited for before |
| Progress.BoundedWaiting | near-fetch/src/lib.rs:355-360 | however many calls keep arriving, the tasks a queued one waits for take no more steps than the work they had left |
| Progress.GetsItsTurn | near-fetch/src/lib.rs:355-360 | a queued task gets its turn: those it waits for can go on until the lock admits it, in no more steps than the work they have left |
| Signer.ConstructionKeepsAccount | near-fetch/src/signer.rs:18-40 | construction succeeds exactly for a non-empty list of one account; keys keep their order and the account is the same at every counter value |
| Signer.KeyRotatingSigner.Sign | near-fetch/src/signer.rs:49-61 | signs with the key presented before the call and moves the counter on, wrapping at the machine word |
| Signer.RotationsClosed | near-fetch/src/signer.rs:49-53 | m rotations of the wrapping counter are addition modulo the machine word |
| Signer.Fair | near-fetch/src/signer.rs:49-53 | in any window of m signatures without a wrap each position is used floor(m/n) or ceil(m/n) times |
| Signer.FairAcrossWraps | near-fetch/src/signer.rs:49-53 | over a window with w wraps two positions differ by at most w + 1, so by at most 2 over one wrap |
| Signer.WrapUnnoticed | near-fetch/src/signer.rs:49-53 | when the number of keys divides the word, every window is fair however often the counter wraps |
| Signer.WrapRepeatsKey | near-fetch/src/signer.rs:49-53 | the bound of 2 is met: on 64 bits with three keys the two signatures around the wrap use the same key |
| Signer.AgreesIff | near-fetch/src/signer.rs:43-61 | a key read earlier is the key that signs exactly when the signatures in between are a multiple of the number of keys |
| SendInvariant.FairOverRuns | near-fetch/src/signer.rs:49-57 | over any run, with whatever tasks sharing the signer, each key signs floor(m/n) or ceil(m/n) of its m transactions without a wrap or when n divides the word, and two keys differ by at most one plus the number of wraps |
| SendInvariant.Projection | near-fetch/src/lib.rs:98-146 | every run of the sending protocol contains a run of the nonce protocol, so the results on that protocol carry over |
| SendInvariant.BaseRun | near-fetch/src/lib.rs:98-146 | every run keeps flows and cache calls in step, and the chain at or above every accepted or refused nonce |
| SendInvariant.KeyAgreement | near-fetch/src/lib.rs:104-116 | over any interleaving the embedded key is the signing key exactly when the number of other tasks' signatures between the read and the sign is a multiple of the number of keys |
| SendInvariant.CacheKeyAgreement | near-fetch/src/lib.rs:104-128 | the same for the key under which the entry would be invalidated |
| Monotone.KeyStep | near-fetch/src/lib.rs:121-146 | every step keeps: entry present, every issued nonce is at most the cached value; entry absent, at most the chain nonce |
| Monotone.NoncesIncrease | near-fetch/src/lib.rs:121-146 | when sends on a key go one at a time its nonces strictly increase over the whole run, across invalidations, timed-out sends in flight and outsiders |
| Monotone.KeysCoincide | near-fetch/src/lib.rs:128-139 | then the cache key, the embedded key and the signing key are one, although the signer has rotated when the entry is invalidated |
| SelfHealing.StaysHealthy | near-fetch/src/lib.rs:229-265 | a healthy key becomes unhealthy only by an outsider's move or a dropped invalidation |
| SelfHealing.RefusalsBound | near-fetch/src/lib.rs:229-265 | over any run, InvalidNonce replies for a set of keys are at most their setbacks (moves of outsiders, dropped invalidations) plus the keys whose entries were stale at the start |
| RetryLoop.Recovers | near-fetch/src/ops.rs:469-489 | a retry loop, with whatever signer and after any past, that has at least as many retries as there are setbacks, stale keys and failures of other kinds ends in success unless its task is dropped |
| Sharpness.RecoversIff | near-fetch/src/ops.rs:469-489 | with n keys and at most r setbacks a loop is sure to get past stale nonces if and only if it has at least r + n retries; so r + 1 are enough for a plain signer and not for a rotating one |
| Sharpness.TooFew | near-fetch/src/ops.rs:469-489 | for every n and r, with fewer retries, a run from the initial state in which the loop gives up on a refusal |
| Outcome.FetchTxErrs | near-fetch/src/lib.rs:309-333 | for a reply that carries an outcome, with or without receipts, the loop returns the error of its final status followed by those of the transaction and the receipts; without an outcome nothing |
| Outcome.FailedInOrder | near-fetch/src/result.rs:69-74 | a failed outcome stands in the failure view after exactly the failed ones before it, and no other does |
| Outcome.LogsInOrder | near-fetch/src/result.rs:77-83 | the logs of each outcome stand together, in their order, after those of all outcomes before it |
| Outcome.DetailsFailures | near-fetch/src/result.rs:42-74 | the failure view is the Failure filter of all outcomes, in order |
| Outcome.ResultFailures | near-fetch/src/result.rs:265-297 | the same for a successful result |
| Outcome.ViewsAgree | near-fetch/src/result.rs:112-138 | for every outcome a reply carries, the errors that drive invalidation are its final error followed by those of the failure view; the views show its transaction and all its outcomes, also those of a successful result |
| Outcome.InvalidatesIff | near-fetch/src/lib.rs:229-260 | a reply invalidates exactly when it is the InvalidNonce handler error, or carries an outcome, with or without receipts, in which one of the two nonce errors is reported anywhere |
| Outcome.SendResultMeans | near-fetch/src/lib.rs:141-145 | a send returns the outcome the reply carries, the complaint that it is missing, or the node's error, and nothing else |
| Outcome.ValueRoundTrip | near-fetch/src/result.rs:126-149 | what a contract returned is what the user reads, byte for byte, with the gas of all outcomes modulo the word; other final statuses are errors that name them |
| Base64.StandardEncoding | near-fetch/src/result.rs:126-138 | the encoding is that of section 4 of RFC 4648: each group of three bytes is spelt by four symbols of its table, the last one padded |
| Base64.RoundTrip | near-fetch/src/result.rs:345-347 | decoding an encoding gives the value back in all three padding cases |
| Base64.DecodesExactly | near-fetch/src/result.rs:345-347 | the decoder accepts exactly the encodings |
| Builder.LastSerializerDecides | near-fetch/src/ops.rs:66-93 | the last serializing setter decides whether a call has arguments, and plain bytes never clear its error |
| Builder.NoSerializerNoError | near-fetch/src/ops.rs:54-72 | without a serializer a call always has arguments |
| Builder.BatchMeaning | near-fetch/src/ops.rs:299-397 | a batch is Ok exactly when every call had arguments, and then its actions are, position by position, the pushed one or a call with the requested name, arguments, gas and deposit; else it is the error of the last failing call |
| Builder.CallSends | near-fetch/src/ops.rs:54-120 | from settings to the action sent: the name given, the deposit set last or 0, the gas set last (300 Tgas for the maximum) or 10 Tgas, and the arguments given last or none |
| Builder.OneCallBatch | near-fetch/src/ops.rs:177-191 | a batch of one call sends the same as the call on its own: one call with the requested name, arguments, gas and deposit, or its error |
| Builder.Transaction.Call | near-fetch/src/ops.rs:317-336 | appends a call with the requested name, arguments, gas and deposit, or puts its error in place of everything so far |
| Builder.Transaction.Transact | near-fetch/src/ops.rs:271-281 | sends, position by position, what the requests made so far ask for, or the error of the last that failed |
| Polling.WaitEndsIff | near-fetch/src/ops.rs:542-584 | for every stream of answers the wait ends if and only if some answer is final, and returns the verdict on the first after polling exactly up to it |
| Polling.NotFinalIff | near-fetch/src/ops.rs:549-565 | exactly pending, unknown and timed-out answers keep the wait going; any other ends it with the outcome it carries, its error, or the complaint that there is none |
| Polling.Wait | near-fetch/src/ops.rs:575-584 | the loop returns the verdict on the first final answer and counts the polls |
| Waits.WaitMeans | near-fetch/src/lib.rs:355-360 | a task is admitted exactly when some number of rounds of the others' moves leads to a state in which the lock can admit it, and in the first such state |
| Waits.DroppedIff | near-fetch/src/lib.rs:355-364 | unless its RPC is cut off, a fetch is dropped if and only if one of its two waits, the second one only for an absent entry, is in vain |
| Client.Client.FetchNonce | near-fetch/src/lib.rs:349-376 | with any moves of others the call is a run of the protocol into exactly the state given by where the lock admits it; it gets a nonce if and only if the lock admits it each time it asks and its RPC is answered, one above the cached value found there, or above the chain nonce for a vacant entry; an Ok result is a ticket drawn during the call |
| Client.Client.CachedNonce | near-fetch/src/lib.rs:335-344 | returns one above the cached value, or burns it when the block query goes wrong |
| Client.Client.AwaitGuard | near-fetch/src/lib.rs:355-360 | a guard is given in the first state in which the lock can admit the task, with the rounds after it left over, and refused only if there is none |
| Client.Client.InvalidateCache | near-fetch/src/lib.rs:262-265 | removes the given entry if and only if the lock admits the task within the wait; from a free lock the entry goes and nothing else changes |
| Sending.SignTx | near-fetch/src/lib.rs:98-118 | the transaction embeds the key presented at the start, is signed by it, and rotates the signer only if a nonce was obtained, which is so exactly when the lock admits the fetch and the node answers |
| Sending.CheckAndInvalidate | near-fetch/src/lib.rs:229-260 | removes the given entry as often as the reply demands, up to the first removal that the lock does not admit; from a free lock the entry goes if and only if the reply demands it, several matches have the effect of one, and every other entry stays |
| Sending.SendTxOnce | near-fetch/src/lib.rs:121-146 | one attempt: a transaction with a fresh nonce exactly when the fetch is served, else the fetch's error; the result that the reply means, and the removal of the entry that issued the nonce, although the signer has rotated; undisturbed, what a contract returned is what the user reads |
| Sending.SendTxAsync | near-fetch/src/lib.rs:151-178 | the entry is removed exactly for a handler error, whichever it is, if the lock admits it; undisturbed it is gone if and only if the reply is one, the others stay, and the result is the node's error or the transaction |
| Sending.Retry | near-fetch/src/ops.rs:469-489 | the run consists of at most k+1 attempts of `send_tx_once` with equal actions, linked without a gap, each with the key after the signatures of those before; the first success or the last error is returned |
| Sending.RetryUndisturbed | near-fetch/src/ops.rs:469-489 | undisturbed, the j-th attempt sends with the j-th next key and its result is what the j-th reply means, down to the bytes the user reads |

## Left out

- JSON-RPC transport, the tokio runtime, retry delays and jitter: replies and interleavings are arbitrary instead.
- Hashing and signature schemes: a signature records which key made it.
- JSON and Borsh serialization: only whether a serializer succeeded, and with which bytes.
- `near-fetch/src/query.rs`, `error.rs`, the examples: request builders and wrappers with only easy members.
- Monotone.NoncesIncrease: covers sends through `send_tx_once`; `send_tx_async`, which drops the entry on any handler error, and callers who invalidate the key at will are excluded by its premise, and `Epochs.RepeatExists` shows why.
- Sending.Retry: for one flow at a time on its signer; other tasks' moves are moves of the nonce protocol. Signers shared by concurrent flows are treated in `SendProtocol` and `RetryLoop`.
- Sending.SendTxOnce: a task dropped while it waits for the node's reply is a step of `SendProtocol` only.
- Sharpness.RecoversIff: its "only if" half builds runs, so it needs room for their nonces and signatures below the word size.
- Signer.KeyRotatingSigner.constructor: a signer built from an empty list panics on first use in the source and cannot be built here.
- Outcome.ValueRoundTrip: gas is summed in wrapping 64-bit words, as in an optimized build; a debug build panics on overflow instead.
- Which account an asynchronous transaction's status is asked for: the source stores the receiver as the sender, and nothing is claimed about it.
