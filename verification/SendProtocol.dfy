/** Sending transactions on top of the nonce cache.

    Any number of tasks run `send_tx_once` and call the cache directly. Signers are rings of keys
    shared between tasks. The chain, other parties and the network are the environment, under these
    assumptions: a transaction is accepted exactly when it is signed by its own key and its nonce
    exceeds the key's chain nonce, which it then becomes; a chain nonce never goes down; InvalidNonce
    is only answered for a transaction refused because of its nonce; an executed outcome is only
    answered for an accepted transaction; an access-key query reads the chain nonce of its moment. */
module SendProtocol {
  import opened Types
  import opened Outcome
  import opened Signer
  import N = NonceProtocol

  type SignerId = nat

  /** A signer: one account and the keys it rotates through; a plain signer has one key. */
  datatype Ring = Ring(account: AccountId, keys: seq<PublicKey>)

  datatype Tx = Tx(key: CacheKey, nonce: nat, signedBy: PublicKey)

  /** Where a task is in `send_tx_once`. Marks count the signatures of the signer when a key was read. */
  datatype Flow =
    | Resting
    | Begun(sg: SignerId, cacheKey: CacheKey, cacheMark: nat)     // cache key formed
    // embedded key read, fetch_nonce runs
    | Fetching(sg: SignerId, cacheKey: CacheKey, cacheMark: nat, key: CacheKey, mark: nat)
    | Fetched(sg: SignerId, cacheKey: CacheKey, cacheMark: nat, key: CacheKey, mark: nat, nonce: nat)
    | Signed(sg: SignerId, cacheKey: CacheKey, tx: Tx)
    | Sent(sg: SignerId, cacheKey: CacheKey, tx: Tx)              // the node's reply is awaited
    | Checking(sg: SignerId, cacheKey: CacheKey, tx: Tx, left: nat)  // reply here, `left` invalidations to go
    | Removing(sg: SignerId, cacheKey: CacheKey, tx: Tx, left: nat)  // invalidate_cache runs

  /** `signs[g]` counts the signatures of signer `g` from a start in its first turn of the counter. */
  datatype State = State(
    net: N.State,
    rings: map<SignerId, Ring>,
    signs: map<SignerId, nat>,
    flows: map<TaskId, Flow>,
    inflight: set<Tx>,
    accepted: set<Tx>,
    rejected: set<Tx>)

  datatype Label =
    | Begin(task: TaskId, sg: SignerId)
    | ReadKey(task: TaskId)
    | Net(inner: N.Label)                   // a step of the nonce protocol, or the chain moved by others
    | Sign(task: TaskId, sg: SignerId)
    | Broadcast(task: TaskId)
    | Accept(tx: Tx)
    | Reject(tx: Tx)
    | Answer(task: TaskId, reply: Reply)
    | Invalidate(task: TaskId)              // one invalidation demanded by the reply
    | Finish(task: TaskId)
    | Abandon(task: TaskId)                 // dropped while waiting for the reply

  // ----- Reading a state -----

  function FlowOf(s: State, t: TaskId): Flow {
    if t in s.flows then s.flows[t] else Resting
  }

  function SignsOf(s: State, sg: SignerId): nat {
    if sg in s.signs then s.signs[sg] else 0
  }

  /** The key a signer presents at the moment. */
  function Presented(s: State, sg: SignerId): CacheKey
    requires sg in s.rings && s.rings[sg].keys != []
  {
    CacheKey(s.rings[sg].account, KeyAt(s.rings[sg].keys, U64, SignsOf(s, sg)))
  }

  predicate Usable(s: State, sg: SignerId) { sg in s.rings && s.rings[sg].keys != [] }

  /** What the environment may answer to a transaction. */
  predicate Admissible(s: State, tx: Tx, reply: Reply) {
    && (IsInvalidNonce(reply) ==> tx in s.rejected)
    && (reply.Ok? && reply.value.outcome.Some? ==> tx in s.accepted)
  }

  // ----- Steps -----

  predicate Enabled(s: State, l: Label) {
    match l
    case Begin(t, sg) => FlowOf(s, t).Resting? && N.PcOf(s.net, t).Idle? && Usable(s, sg)
    case ReadKey(t) =>
      && FlowOf(s, t).Begun? && Usable(s, FlowOf(s, t).sg)
      && N.Enabled(s.net, N.CallFetch(t, Presented(s, FlowOf(s, t).sg)))
    case Net(n) => N.Enabled(s.net, n) && (n.CallFetch? || n.CallInvalidate? ==> FlowOf(s, n.task).Resting?)
    case Sign(t, sg) => FlowOf(s, t).Fetched? && FlowOf(s, t).sg == sg && Usable(s, sg)
    case Broadcast(t) => FlowOf(s, t).Signed?
    case Accept(tx) =>
      && tx in s.inflight && tx.signedBy == tx.key.publicKey
      && N.ChainOf(s.net, tx.key) < tx.nonce < U64
    case Reject(tx) => tx in s.inflight && tx.nonce <= N.ChainOf(s.net, tx.key)
    case Answer(t, reply) => FlowOf(s, t).Sent? && Admissible(s, FlowOf(s, t).tx, reply)
    case Invalidate(t) =>
      FlowOf(s, t).Checking? && FlowOf(s, t).left > 0 && N.Enabled(s.net, N.CallInvalidate(t, FlowOf(s, t).cacheKey))
    case Finish(t) => FlowOf(s, t).Checking? && FlowOf(s, t).left == 0
    case Abandon(t) => FlowOf(s, t).Sent?
  }

  /** How a step of the nonce protocol moves the flow of the task that takes it. */
  function FlowAfter(net: N.State, flow: Flow, n: N.Label): Flow
    requires !n.Advance?
  {
    var pc := N.PcOf(net, n.task);
    if flow.Fetching? && n.Return? && N.HasTicket(pc) && pc.i < |net.log| then
      Fetched(flow.sg, flow.cacheKey, flow.cacheMark, flow.key, flow.mark, net.log[pc.i].nonce)
    else if flow.Removing? && n.Return? then Checking(flow.sg, flow.cacheKey, flow.tx, flow.left)
    else if (flow.Fetching? || flow.Removing?) && (n.Fail? || n.Drop?) then Resting
    else flow
  }

  function Step(s: State, l: Label): State
    requires Enabled(s, l)
  {
    match l
    case Begin(t, sg) => s.(flows := s.flows[t := Begun(sg, Presented(s, sg), SignsOf(s, sg))])
    case ReadKey(t) =>
      var f := FlowOf(s, t);
      var k := Presented(s, f.sg);
      s.(net := N.Step(s.net, N.CallFetch(t, k)),
         flows := s.flows[t := Fetching(f.sg, f.cacheKey, f.cacheMark, k, SignsOf(s, f.sg))])
    case Net(n) =>
      if n.Advance? then s.(net := N.Step(s.net, n))
      else s.(net := N.Step(s.net, n), flows := s.flows[n.task := FlowAfter(s.net, FlowOf(s, n.task), n)])
    case Sign(t, sg) =>
      var f := FlowOf(s, t);
      s.(signs := s.signs[sg := SignsOf(s, sg) + 1],
         flows := s.flows[t := Signed(sg, f.cacheKey, Tx(f.key, f.nonce, Presented(s, sg).publicKey))])
    case Broadcast(t) =>
      var f := FlowOf(s, t);
      s.(inflight := s.inflight + {f.tx}, flows := s.flows[t := Sent(f.sg, f.cacheKey, f.tx)])
    case Accept(tx) =>
      s.(net := N.Step(s.net, N.Advance(tx.key, tx.nonce)),
         inflight := s.inflight - {tx}, accepted := s.accepted + {tx})
    case Reject(tx) => s.(inflight := s.inflight - {tx}, rejected := s.rejected + {tx})
    case Answer(t, reply) =>
      var f := FlowOf(s, t);
      s.(flows := s.flows[t := Checking(f.sg, f.cacheKey, f.tx, Invalidations(reply))])
    case Invalidate(t) =>
      var f := FlowOf(s, t);
      s.(net := N.Step(s.net, N.CallInvalidate(t, f.cacheKey)),
         flows := s.flows[t := Removing(f.sg, f.cacheKey, f.tx, f.left - 1)])
    case Finish(t) => s.(flows := s.flows[t := Resting])
    case Abandon(t) => s.(flows := s.flows[t := Resting])
  }

  // ----- Runs -----

  predicate Run(s: State, ls: seq<Label>)
    decreases |ls|
  {
    ls != [] ==> Enabled(s, ls[0]) && Run(Step(s, ls[0]), ls[1..])
  }

  function Exec(s: State, ls: seq<Label>): State
    requires Run(s, ls)
    decreases |ls|
  {
    if ls == [] then s else Exec(Step(s, ls[0]), ls[1..])
  }

  function Init(rings: map<SignerId, Ring>, signs: map<SignerId, nat>): State {
    State(N.Init, rings, signs, map[], {}, {}, {})
  }

  lemma {:induction false} RunConcat(s: State, a: seq<Label>, b: seq<Label>)
    requires Run(s, a) && Run(Exec(s, a), b)
    ensures Run(s, a + b) && Exec(s, a + b) == Exec(Exec(s, a), b)
    decreases |a|
  {
    if a == [] {
      assert a + b == b;
    } else {
      assert (a + b)[0] == a[0] && (a + b)[1..] == a[1..] + b;
      RunConcat(Step(s, a[0]), a[1..], b);
    }
  }
}
