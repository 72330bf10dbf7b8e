/** The retry bound cannot be improved: for every number of keys and every number of setbacks there are
    runs in which a loop with one retry less ends in a refusal. They are built here label by label. */
module Sharpness {
  import opened Types
  import opened Outcome
  import opened Signer
  import opened SendProtocol
  import opened SendInvariant
  import opened Monotone
  import opened SelfHealing
  import opened RetryLoop
  import N = NonceProtocol
  import Solo

  const REFUSAL: JsonRpcError := ServerError(HandlerError(InvalidTransaction(InvalidNonce(0, 0))))

  // ----- Pieces of a run -----

  /** The run is one of the loop, and takes it from one place to the other. */
  ghost predicate Leads(s: State, ls: seq<Label>, s': State, t: TaskId, sg: SignerId, loop: Loop, loop': Loop) {
    Run(s, ls) && Exec(s, ls) == s' && Loops(s, ls, t, sg, loop) && After(s, ls, t, loop) == loop'
  }

  lemma {:induction false} LeadsOn(s: State, a: seq<Label>, s1: State, b: seq<Label>, s2: State,
                                   t: TaskId, sg: SignerId, loop: Loop, loop1: Loop, loop2: Loop)
    requires Leads(s, a, s1, t, sg, loop, loop1) && Leads(s1, b, s2, t, sg, loop1, loop2)
    ensures Leads(s, a + b, s2, t, sg, loop, loop2)
    decreases |a|
  {
    if a == [] {
      assert a + b == b;
    } else {
      assert (a + b)[0] == a[0] && (a + b)[1..] == a[1..] + b;
      LeadsOn(Step(s, a[0]), a[1..], s1, b, s2, t, sg, Next(s, a[0], t, loop), loop1, loop2);
    }
  }

  lemma {:induction false} Leads3(s: State, x: seq<Label>, a: State, y: seq<Label>, b: State, z: seq<Label>, s': State,
                                  t: TaskId, sg: SignerId, loop: Loop, loop1: Loop, loop2: Loop, loop3: Loop)
    requires Leads(s, x, a, t, sg, loop, loop1) && Leads(a, y, b, t, sg, loop1, loop2)
    requires Leads(b, z, s', t, sg, loop2, loop3)
    ensures Leads(s, x + (y + z), s', t, sg, loop, loop3)
  {
    hide Leads;
    LeadsOn(a, y, b, z, s', t, sg, loop1, loop2, loop3);
    LeadsOn(s, x, a, y + z, s', t, sg, loop, loop1, loop3);
  }

  lemma {:induction false} LeadsOne(s: State, l: Label, t: TaskId, sg: SignerId, loop: Loop)
    requires Enabled(s, l) && (l.Begin? && l.task == t ==> loop.Ready? && l.sg == sg)
    ensures Leads(s, [l], Step(s, l), t, sg, loop, Next(s, l, t, loop))
  {
    assert [l][1..] == [];
  }

  lemma {:induction false} RunOne(s: State, ls: seq<Label>)
    requires ls != [] && Enabled(s, ls[0]) && Run(Step(s, ls[0]), ls[1..])
    ensures Run(s, ls) && Exec(s, ls) == Exec(Step(s, ls[0]), ls[1..])
  {
  }

  /** Labels that do not move the loop of `t`. */
  predicate Plain(l: Label, t: TaskId) {
    match l
    case Net(n) => n.Advance? || (!n.Fail? && !n.Drop?)
    case Begin(u, _) => u != t
    case Answer(u, _) => u != t
    case Finish(u) => u != t
    case Abandon(u) => u != t
    case _ => true
  }

  lemma {:induction false} PlainLeads(s: State, ls: seq<Label>, t: TaskId, sg: SignerId, loop: Loop)
    requires Run(s, ls) && forall l :: l in ls ==> Plain(l, t)
    ensures Leads(s, ls, Exec(s, ls), t, sg, loop, loop)
    decreases |ls|
  {
    if ls != [] {
      assert ls[0] in ls;
      PlainLeads(Step(s, ls[0]), ls[1..], t, sg, loop);
    }
  }

  /** Labels of the task and of outsiders only, without calls to the cache from outside a send, without
      failures other than refusals, and without drops inside the cache. */
  predicate Lonely(l: Label, t: TaskId) {
    match l
    case Net(n) => n.Advance? || (n.task == t && !n.CallFetch? && !n.CallInvalidate? && !n.Fail? && !n.Drop?)
    case Answer(u, reply) => u == t && reply == Err(REFUSAL)
    case Accept(_) => false
    case Reject(_) => true
    case _ => l.task == t
  }

  function Advances(ls: seq<Label>): nat {
    if ls == [] then 0 else (if ls[0].Net? && ls[0].inner.Advance? then 1 else 0) + Advances(ls[1..])
  }

  lemma {:induction false} AdvancesConcat(a: seq<Label>, b: seq<Label>)
    ensures Advances(a + b) == Advances(a) + Advances(b)
  {
    if a == [] {
      assert a + b == b;
    } else {
      assert (a + b)[0] == a[0] && (a + b)[1..] == a[1..] + b;
      AdvancesConcat(a[1..], b);
    }
  }

  ghost predicate AllLonely(ls: seq<Label>, t: TaskId) { forall l :: l in ls ==> Lonely(l, t) }

  /** Such labels without outsiders. */
  ghost predicate Clean(ls: seq<Label>, t: TaskId) {
    forall l :: l in ls ==> Lonely(l, t) && !(l.Net? && l.inner.Advance?)
  }

  lemma {:induction false} CleanMeans(ls: seq<Label>, t: TaskId)
    requires Clean(ls, t)
    ensures AllLonely(ls, t) && Advances(ls) == 0
  {
    if ls != [] {
      assert ls[0] in ls;
      CleanMeans(ls[1..], t);
    }
  }

  lemma {:induction false} Clean3(x: seq<Label>, y: seq<Label>, z: seq<Label>, t: TaskId)
    requires Clean(x, t) && Clean(y, t) && Clean(z, t)
    ensures AllLonely(x + (y + z), t) && Advances(x + (y + z)) == 0
  {
    CleanMeans(x + (y + z), t);
  }

  ghost predicate OthersRest(s: State, t: TaskId) { forall u: TaskId :: u != t ==> FlowOf(s, u).Resting? }

  lemma {:induction false} RestStays(s: State, l: Label, t: TaskId)
    requires Enabled(s, l) && OthersRest(s, t) && Lonely(l, t)
    ensures OthersRest(Step(s, l), t)
  {
    forall u: TaskId | u != t ensures FlowOf(Step(s, l), u).Resting? { FlowOther(s, l, u); }
  }

  /** Such runs are orderly, and only outsiders set a key back in them. */
  lemma {:induction false} LonelyRun(s: State, ls: seq<Label>, t: TaskId, ks: set<CacheKey>)
    requires Run(s, ls) && OthersRest(s, t) && forall l :: l in ls ==> Lonely(l, t)
    ensures AllOrderly(s, ls, ks) && Setbacks(s, ls, ks) <= Advances(ls) && OtherFailures(s, ls, t) == 0
    decreases |ls|
  {
    if ls != [] {
      var l, s' := ls[0], Step(s, ls[0]);
      assert l in ls;
      RestStays(s, l, t);
      LonelyRun(s', ls[1..], t, ks);
      forall k | k in ks ensures Orderly(s, ls, k) { assert Orderly(s', ls[1..], k); }
    }
  }

  // ----- One attempt -----

  /** Nobody is sending, and the lock is free. */
  ghost predicate Still(s: State, t: TaskId, sg: SignerId, ring: Ring) {
    && Solo.Quiet(s.net, t) && (forall u: TaskId :: FlowOf(s, u).Resting?)
    && sg in s.rings && s.rings[sg] == ring && ring.keys != []
  }

  function Nets(ns: seq<N.Label>): seq<Label> {
    if ns == [] then [] else [Net(ns[0])] + Nets(ns[1..])
  }

  /** A step of the nonce protocol in the middle of a call of the task. */
  predicate Inner(n: N.Label, t: TaskId) {
    !n.Advance? && n.task == t && !n.CallFetch? && !n.CallInvalidate? && !n.Return? && !n.Fail? && !n.Drop?
  }

  lemma {:induction false} Lifts(s: State, ns: seq<N.Label>, t: TaskId)
    requires N.Run(s.net, ns) && forall n :: n in ns ==> Inner(n, t)
    ensures Run(s, Nets(ns)) && Clean(Nets(ns), t) && forall l :: l in Nets(ns) ==> Plain(l, t)
    ensures var s' := Exec(s, Nets(ns));
      && s' == s.(net := N.Exec(s.net, ns), flows := s'.flows)
      && forall u: TaskId :: FlowOf(s', u) == FlowOf(s, u)
    decreases |ns|
  {
    if ns != [] {
      assert ns[0] in ns;
      var l := Net(ns[0]);
      var s' := Step(s, l);
      Lifts(s', ns[1..], t);
      assert Nets(ns) == [l] + Nets(ns[1..]) && Nets(ns)[1..] == Nets(ns[1..]);
    }
  }

  /** The nonce that the next send of a key gets, and the labels inside its `fetch_nonce`. */
  function NextNonce(net: N.State, k: CacheKey): nat {
    (if k in net.cache then net.cache[k] else N.ChainOf(net, k)) + 1
  }

  function FetchLabels(net: N.State, k: CacheKey, t: TaskId): seq<N.Label> {
    if k in net.cache then Solo.HitLabels(t) else Solo.FillLabels(t)
  }

  /** The key is read and the nonce fetched. */
  lemma {:induction false} Begins(s: State, t: TaskId, sg: SignerId, ring: Ring, left: nat) returns (s': State)
    requires Still(s, t, sg, ring)
    ensures Leads(s, [Begin(t, sg), ReadKey(t)], s', t, sg, Ready(left), Attempting(left))
    ensures var k, m := Presented(s, sg), SignsOf(s, sg);
      && s' == s.(net := N.Step(s.net, N.CallFetch(t, k)), flows := s'.flows)
      && FlowOf(s', t) == Fetching(sg, k, m, k, m) && OthersRest(s', t)
  {
    var a := Step(s, Begin(t, sg));
    LeadsOne(s, Begin(t, sg), t, sg, Ready(left));
    s' := Step(a, ReadKey(t));
    LeadsOne(a, ReadKey(t), t, sg, Attempting(left));
    RestStays(s, Begin(t, sg), t);
    RestStays(a, ReadKey(t), t);
    LeadsOn(s, [Begin(t, sg)], a, [ReadKey(t)], s', t, sg, Ready(left), Attempting(left), Attempting(left));
    assert [Begin(t, sg)] + [ReadKey(t)] == [Begin(t, sg), ReadKey(t)];
  }

  /** The cache after the fetch, whose guard the task still holds. */
  lemma {:induction false} Fetches(net: N.State, t: TaskId, k: CacheKey) returns (a: N.State, b: N.State)
    requires Solo.Quiet(net, t) && NextNonce(net, k) < U64
    ensures N.Enabled(net, N.CallFetch(t, k)) && a == N.Step(net, N.CallFetch(t, k))
    ensures N.Run(a, FetchLabels(net, k, t)) && b == N.Exec(a, FetchLabels(net, k, t))
    ensures forall n :: n in FetchLabels(net, k, t) ==> Inner(n, t)
    ensures b.cache == net.cache[k := NextNonce(net, k)] && b.chain == net.chain
    ensures b.lock == N.Lock({t}, None, []) || b.lock == N.Lock({}, Some(t), [])
    ensures N.HasTicket(N.PcOf(b, t)) && N.PcOf(b, t).i < |b.fates| == |b.log|
    ensures b.log[N.PcOf(b, t).i].nonce == NextNonce(net, k)
  {
    hide N.Run, N.Exec;
    a := N.Step(net, N.CallFetch(t, k));
    if k in net.cache { Solo.Hits(a, t, k); } else { Solo.Fills(a, t, k); }
    b := N.Exec(a, FetchLabels(net, k, t));
  }

  /** The cache after a removal, whose guard the task still holds. */
  lemma {:induction false} Purges(net: N.State, t: TaskId, k: CacheKey) returns (a: N.State, b: N.State)
    requires Solo.Quiet(net, t)
    ensures N.Enabled(net, N.CallInvalidate(t, k)) && a == N.Step(net, N.CallInvalidate(t, k))
    ensures N.Run(a, Solo.RemoveLabels(t)) && b == N.Exec(a, Solo.RemoveLabels(t))
    ensures forall n :: n in Solo.RemoveLabels(t) ==> Inner(n, t)
    ensures b.cache == net.cache - {k} && b.chain == net.chain && |b.fates| == |b.log|
    ensures b.lock == N.Lock({}, Some(t), []) && N.PcOf(b, t) == N.Removed(k)
  {
    a := N.Step(net, N.CallInvalidate(t, k));
    Solo.Removes(a, t, k);
    b := N.Exec(a, Solo.RemoveLabels(t));
  }

  lemma {:induction false} Signs(s: State, t: TaskId, sg: SignerId, k: CacheKey, m: nat, n: nat, ls: seq<Label>)
    returns (s': State)
    requires FlowOf(s, t) == Fetched(sg, k, m, k, m, n) && OthersRest(s, t) && Usable(s, sg) && Presented(s, sg) == k
    requires ls == [Sign(t, sg), Broadcast(t)]
    ensures Run(s, ls) && s' == Exec(s, ls)
    ensures s'.net == s.net && s'.rings == s.rings && s'.signs == s.signs[sg := SignsOf(s, sg) + 1]
    ensures FlowOf(s', t) == Sent(sg, k, Tx(k, n, k.publicKey)) && OthersRest(s', t)
    ensures Tx(k, n, k.publicKey) in s'.inflight
  {
    var a := Step(s, ls[0]);
    RestStays(s, ls[0], t);
    s' := Step(a, ls[1]);
    RestStays(a, ls[1], t);
    RunOne(a, ls[1..]);
    RunOne(s, ls);
  }

  /** The call returns, the transaction is signed and sent. */
  lemma {:induction false} Posts(s: State, t: TaskId, sg: SignerId, k: CacheKey, m: nat, n: nat) returns (s': State)
    requires FlowOf(s, t) == Fetching(sg, k, m, k, m) && OthersRest(s, t) && |s.net.fates| == |s.net.log|
    requires s.net.lock == N.Lock({t}, None, []) || s.net.lock == N.Lock({}, Some(t), [])
    requires N.HasTicket(N.PcOf(s.net, t)) && N.PcOf(s.net, t).i < |s.net.log|
    requires s.net.log[N.PcOf(s.net, t).i].nonce == n && Usable(s, sg) && Presented(s, sg) == k
    ensures Run(s, [Net(N.Return(t)), Sign(t, sg), Broadcast(t)])
    ensures s' == Exec(s, [Net(N.Return(t)), Sign(t, sg), Broadcast(t)])
    ensures s'.net.cache == s.net.cache && s'.net.chain == s.net.chain && s'.rings == s.rings && Solo.Quiet(s'.net, t)
    ensures s'.signs == s.signs[sg := SignsOf(s, sg) + 1]
    ensures FlowOf(s', t) == Sent(sg, k, Tx(k, n, k.publicKey)) && OthersRest(s', t)
    ensures Tx(k, n, k.publicKey) in s'.inflight
  {
    var ls := [Net(N.Return(t)), Sign(t, sg), Broadcast(t)];
    Solo.Returns(s.net, t);
    var a := Step(s, ls[0]);
    RestStays(s, ls[0], t);
    assert FlowOf(a, t) == Fetched(sg, k, m, k, m, n);
    s' := Signs(a, t, sg, k, m, n, ls[1..]);
    RunOne(s, ls);
  }

  lemma {:induction false} PostsPlain(t: TaskId, sg: SignerId)
    ensures Clean([Begin(t, sg), ReadKey(t)], t) && Clean([Net(N.Return(t)), Sign(t, sg), Broadcast(t)], t)
    ensures forall l :: l in [Net(N.Return(t)), Sign(t, sg), Broadcast(t)] ==> Plain(l, t)
  {
  }

  /** From a quiet state the task sends a transaction with the key its signer presents. */
  lemma {:induction false} Sends(s: State, t: TaskId, sg: SignerId, ring: Ring, left: nat)
    returns (ls: seq<Label>, s': State)
    requires Still(s, t, sg, ring) && NextNonce(s.net, Presented(s, sg)) < U64
    ensures Leads(s, ls, s', t, sg, Ready(left), Attempting(left)) && AllLonely(ls, t) && Advances(ls) == 0
    ensures var k := Presented(s, sg); var n := NextNonce(s.net, k);
      && s'.net.cache == s.net.cache[k := n] && s'.net.chain == s.net.chain && s'.rings == s.rings
      && Solo.Quiet(s'.net, t) && SignsOf(s', sg) == SignsOf(s, sg) + 1
      && FlowOf(s', t) == Sent(sg, k, Tx(k, n, k.publicKey)) && OthersRest(s', t)
      && Tx(k, n, k.publicKey) in s'.inflight
  {
    hide Leads, N.Enabled, Enabled, N.Step, Step, N.Run, Run, OthersRest, Plain, Inner, Clean, AllLonely, Lonely;
    var k, m := Presented(s, sg), SignsOf(s, sg);
    var begin, post := [Begin(t, sg), ReadKey(t)], [Net(N.Return(t)), Sign(t, sg), Broadcast(t)];
    var a := Begins(s, t, sg, ring, left);
    var neta, netb := Fetches(s.net, t, k);
    var fetch := Nets(FetchLabels(s.net, k, t));
    Lifts(a, FetchLabels(s.net, k, t), t);
    var b := Exec(a, fetch);
    s' := Posts(b, t, sg, k, m, NextNonce(s.net, k));
    PostsPlain(t, sg);
    PlainLeads(a, fetch, t, sg, Attempting(left));
    PlainLeads(b, post, t, sg, Attempting(left));
    Leads3(s, begin, a, fetch, b, post, s', t, sg, Ready(left), Attempting(left), Attempting(left), Attempting(left));
    ls := begin + (fetch + post);
    Clean3(begin, fetch, post, t);
  }

  /** The chain refuses the transaction, and the entry's removal begins. */
  lemma {:induction false} Refused(s: State, t: TaskId, sg: SignerId, k: CacheKey, n: nat, left: nat, ls: seq<Label>)
    returns (s': State)
    requires FlowOf(s, t) == Sent(sg, k, Tx(k, n, k.publicKey)) && OthersRest(s, t) && Solo.Quiet(s.net, t)
    requires Tx(k, n, k.publicKey) in s.inflight && n <= N.ChainOf(s.net, k)
    requires ls == [Reject(Tx(k, n, k.publicKey)), Answer(t, Err(REFUSAL)), Invalidate(t)]
    ensures Leads(s, ls, s', t, sg, Attempting(left), Judged(left, Err(RpcTransactionFailure(REFUSAL))))
    ensures s'.net == N.Step(s.net, N.CallInvalidate(t, k)) && s'.rings == s.rings && s'.signs == s.signs
    ensures FlowOf(s', t) == Removing(sg, k, Tx(k, n, k.publicKey), 0) && OthersRest(s', t)
  {
    var a := Step(s, ls[0]);
    RestStays(s, ls[0], t);
    var b := Step(a, ls[1]);
    RestStays(a, ls[1], t);
    assert Invalidations(Err(REFUSAL)) == 1;
    s' := Step(b, ls[2]);
    RestStays(b, ls[2], t);
    var judged := Judged(left, Err(RpcTransactionFailure(REFUSAL)));
    LeadsOne(s, ls[0], t, sg, Attempting(left));
    LeadsOne(a, ls[1], t, sg, Attempting(left));
    LeadsOne(b, ls[2], t, sg, judged);
    LeadsOn(a, [ls[1]], b, [ls[2]], s', t, sg, Attempting(left), judged, judged);
    LeadsOn(s, [ls[0]], a, [ls[1]] + [ls[2]], s', t, sg, Attempting(left), Attempting(left), judged);
    assert ls == [ls[0]] + ([ls[1]] + [ls[2]]);
  }

  /** The removal is over, and with it the attempt. */
  lemma {:induction false} Ends(s: State, t: TaskId, sg: SignerId, k: CacheKey, left: nat, verdict: Verdict,
                                ls: seq<Label>)
    returns (s': State)
    requires FlowOf(s, t).Removing? && FlowOf(s, t).left == 0 && OthersRest(s, t) && |s.net.fates| == |s.net.log|
    requires s.net.lock == N.Lock({}, Some(t), []) && N.PcOf(s.net, t) == N.Removed(k)
    requires ls == [Net(N.Return(t)), Finish(t)]
    ensures Leads(s, ls, s', t, sg, Judged(left, verdict), AttemptEnds(left, verdict))
    ensures s'.net.cache == s.net.cache && s'.net.chain == s.net.chain && s'.rings == s.rings && s'.signs == s.signs
    ensures Solo.Quiet(s'.net, t) && forall u: TaskId :: FlowOf(s', u).Resting?
  {
    Solo.Returns(s.net, t);
    var a := Step(s, ls[0]);
    RestStays(s, ls[0], t);
    s' := Step(a, ls[1]);
    RestStays(a, ls[1], t);
    LeadsOne(s, ls[0], t, sg, Judged(left, verdict));
    LeadsOne(a, ls[1], t, sg, Judged(left, verdict));
    var judged := Judged(left, verdict);
    LeadsOn(s, [ls[0]], a, [ls[1]], s', t, sg, judged, judged, AttemptEnds(left, verdict));
    assert ls == [ls[0]] + [ls[1]];
  }

  /** From the refusal to the end of the attempt. */
  lemma {:induction false} Fails(s: State, t: TaskId, sg: SignerId, ring: Ring, k: CacheKey, n: nat, left: nat)
    returns (ls: seq<Label>, s': State)
    requires FlowOf(s, t) == Sent(sg, k, Tx(k, n, k.publicKey)) && OthersRest(s, t) && Solo.Quiet(s.net, t)
    requires Tx(k, n, k.publicKey) in s.inflight && n <= N.ChainOf(s.net, k)
    requires sg in s.rings && s.rings[sg] == ring && ring.keys != []
    ensures Leads(s, ls, s', t, sg, Attempting(left), AttemptEnds(left, Err(RpcTransactionFailure(REFUSAL))))
    ensures AllLonely(ls, t) && Advances(ls) == 0 && Still(s', t, sg, ring) && SignsOf(s', sg) == SignsOf(s, sg)
    ensures s'.net.cache == s.net.cache - {k} && s'.net.chain == s.net.chain
  {
    hide Leads, N.Enabled, Enabled, N.Step, Step, N.Run, Run, Plain, Inner, AllLonely;
    var refuse := [Reject(Tx(k, n, k.publicKey)), Answer(t, Err(REFUSAL)), Invalidate(t)];
    var remove, end := Nets(Solo.RemoveLabels(t)), [Net(N.Return(t)), Finish(t)];
    var verdict := Err(RpcTransactionFailure(REFUSAL));
    var a := Refused(s, t, sg, k, n, left, refuse);
    var neta, netb := Purges(s.net, t, k);
    Lifts(a, Solo.RemoveLabels(t), t);
    var b := Exec(a, remove);
    PlainLeads(a, remove, t, sg, Judged(left, verdict));
    s' := Ends(b, t, sg, k, left, verdict, end);
    Leads3(s, refuse, a, remove, b, end, s', t, sg,
           Attempting(left), Judged(left, verdict), Judged(left, verdict), AttemptEnds(left, verdict));
    ls := refuse + (remove + end);
    Clean3(refuse, remove, end, t);
  }

  /** An outsider moves a key's nonce by one. */
  lemma {:induction false} OutsiderMoves(s: State, t: TaskId, sg: SignerId, k: CacheKey, c: nat, loop: Loop)
    returns (s': State)
    requires N.ChainOf(s.net, k) <= c < U64 && OthersRest(s, t)
    ensures Leads(s, [Net(N.Advance(k, c))], s', t, sg, loop, loop) && OthersRest(s', t)
    ensures s' == s.(net := s.net.(chain := s.net.chain[k := c]))
  {
    s' := Step(s, Net(N.Advance(k, c)));
    RestStays(s, Net(N.Advance(k, c)), t);
    LeadsOne(s, Net(N.Advance(k, c)), t, sg, loop);
  }

  // ----- A refused attempt -----

  /** An attempt with a stale entry is refused, and one with a vacant entry when an outsider moves the
      key's nonce while the transaction is on its way. */
  lemma {:induction false} RefusedAttempt(s: State, t: TaskId, sg: SignerId, ring: Ring, left: nat)
    returns (ls: seq<Label>, s': State)
    requires Still(s, t, sg, ring)
    requires var k := Presented(s, sg);
      N.ChainOf(s.net, k) + 1 < U64 && (k in s.net.cache ==> s.net.cache[k] < N.ChainOf(s.net, k))
    ensures Leads(s, ls, s', t, sg, Ready(left), AttemptEnds(left, Err(RpcTransactionFailure(REFUSAL))))
    ensures AllLonely(ls, t) && Still(s', t, sg, ring) && SignsOf(s', sg) == SignsOf(s, sg) + 1
    ensures var k := Presented(s, sg);
      && s'.net.cache == s.net.cache - {k}
      && Advances(ls) == (if k in s.net.cache then 0 else 1)
      && s'.net.chain == (if k in s.net.cache then s.net.chain else s.net.chain[k := N.ChainOf(s.net, k) + 1])
  {
    hide Leads;
    var k := Presented(s, sg);
    var n := NextNonce(s.net, k);
    var send, a := Sends(s, t, sg, ring, left);
    var end := AttemptEnds(left, Err(RpcTransactionFailure(REFUSAL)));
    var b, move := a, [];
    if k in s.net.cache {
      PlainLeads(a, [], t, sg, Attempting(left));
    } else {
      b := OutsiderMoves(a, t, sg, k, n, Attempting(left));
      move := [Net(N.Advance(k, n))];
    }
    var fail;
    fail, s' := Fails(b, t, sg, ring, k, n, left);
    Leads3(s, send, a, move, b, fail, s', t, sg, Ready(left), Attempting(left), Attempting(left), end);
    ls := send + (move + fail);
    AdvancesConcat(send, move + fail);
    AdvancesConcat(move, fail);
    assert s.net.cache[k := n] - {k} == s.net.cache - {k};
  }

  // ----- The order in which the keys come round -----

  /** The key a ring presents `x` signatures after mark `c`. */
  function Turn(ring: Ring, c: nat, x: nat): CacheKey
    requires ring.keys != []
  {
    CacheKey(ring.account, KeyAt(ring.keys, U64, c + x))
  }

  /** The keys of the turns from `i` to `j`. */
  function Window(ring: Ring, c: nat, i: nat, j: nat): set<CacheKey>
    requires ring.keys != []
  {
    set x: nat | i <= x < j :: Turn(ring, c, x)
  }

  lemma {:induction false} TurnsDiffer(ring: Ring, c: nat, a: nat, b: nat)
    requires ring.keys != [] && DistinctKeys(ring.keys) && a < b < a + |ring.keys| && c + b < U64
    ensures Turn(ring, c, a) != Turn(ring, c, b)
  {
    Small(c + a, U64);
    Small(c + b, U64);
    Small(b - a, |ring.keys|);
    AgreesIff(ring.keys, U64, c + a, c + b);
  }

  lemma {:induction false} TurnsRepeat(ring: Ring, c: nat, a: nat)
    requires ring.keys != [] && DistinctKeys(ring.keys) && c + a + |ring.keys| < U64
    ensures Turn(ring, c, |ring.keys| + a) == Turn(ring, c, a)
  {
    Small(c + a, U64);
    Small(c + a + |ring.keys|, U64);
    Quotient(|ring.keys|, |ring.keys|, 1, 0);
    AgreesIff(ring.keys, U64, c + a, c + a + |ring.keys|);
  }

  /** A window of at most all keys grows by a new key at its end. */
  lemma {:induction false} WindowEnd(ring: Ring, c: nat, j: nat)
    requires ring.keys != [] && DistinctKeys(ring.keys) && j < |ring.keys| && c + j < U64
    ensures Turn(ring, c, j) !in Window(ring, c, 0, j)
    ensures Window(ring, c, 0, j + 1) == Window(ring, c, 0, j) + {Turn(ring, c, j)}
  {
    hide Turn;
    forall x: nat | x < j ensures Turn(ring, c, x) != Turn(ring, c, j) { TurnsDiffer(ring, c, x, j); }
  }

  /** And loses a key at its start. */
  lemma {:induction false} WindowStart(ring: Ring, c: nat, i: nat)
    requires ring.keys != [] && DistinctKeys(ring.keys) && i < |ring.keys| && c + |ring.keys| <= U64
    ensures var n := |ring.keys|;
      && Turn(ring, c, i) in Window(ring, c, i, n)
      && Window(ring, c, i + 1, n) == Window(ring, c, i, n) - {Turn(ring, c, i)}
  {
    hide Turn;
    forall x: nat | i < x < |ring.keys| ensures Turn(ring, c, i) != Turn(ring, c, x) { TurnsDiffer(ring, c, i, x); }
  }

  // ----- A past that leaves every entry stale -----

  /** Entries at 1 for exactly these keys, each behind its chain nonce of 2. */
  ghost predicate Behind(net: N.State, ks: set<CacheKey>) {
    net.cache.Keys == ks && forall k :: k in ks ==> net.cache[k] == 1 && N.ChainOf(net, k) == 2
  }

  lemma {:induction false} Overtaken(s: State, t: TaskId, k: CacheKey, ls: seq<Label>) returns (s': State)
    requires FlowOf(s, t).Sent? && OthersRest(s, t) && N.ChainOf(s.net, k) <= 2
    requires ls == [Abandon(t), Net(N.Advance(k, 2))]
    ensures Run(s, ls) && s' == Exec(s, ls) && AllLonely(ls, t)
    ensures s' == s.(net := s.net.(chain := s.net.chain[k := 2]), flows := s'.flows)
    ensures forall u: TaskId :: FlowOf(s', u).Resting?
  {
    var a := Step(s, ls[0]);
    RestStays(s, ls[0], t);
    s' := Step(a, ls[1]);
    RestStays(a, ls[1], t);
    RunOne(a, ls[1..]);
    RunOne(s, ls);
  }

  /** One send whose reply nobody waits for, and an outsider who overtakes it. */
  lemma {:induction false} Outdated(s: State, t: TaskId, sg: SignerId, ring: Ring) returns (ls: seq<Label>, s': State)
    requires Still(s, t, sg, ring)
    requires Presented(s, sg) !in s.net.cache && N.ChainOf(s.net, Presented(s, sg)) == 0
    ensures Run(s, ls) && s' == Exec(s, ls) && AllLonely(ls, t)
    ensures Still(s', t, sg, ring) && SignsOf(s', sg) == SignsOf(s, sg) + 1
    ensures s'.net.cache == s.net.cache[Presented(s, sg) := 1] && s'.net.chain == s.net.chain[Presented(s, sg) := 2]
  {
    hide Lonely;
    var k := Presented(s, sg);
    var send, a := Sends(s, t, sg, ring, 0);
    var rest := [Abandon(t), Net(N.Advance(k, 2))];
    s' := Overtaken(a, t, k, rest);
    RunConcat(s, send, rest);
    ls := send + rest;
  }

  /** After `i` such sends; the keys not sent with yet have chain nonce 0. */
  ghost predicate Prepared(s: State, t: TaskId, sg: SignerId, ring: Ring, c: nat, i: nat) {
    && Still(s, t, sg, ring) && SignsOf(s, sg) == c + i && Behind(s.net, Window(ring, c, 0, i))
    && forall k :: k !in s.net.cache ==> N.ChainOf(s.net, k) == 0
  }

  lemma {:induction false} Prepare(s: State, t: TaskId, sg: SignerId, ring: Ring, c: nat, i: nat)
    returns (ls: seq<Label>, s': State)
    requires Prepared(s, t, sg, ring, c, i) && DistinctKeys(ring.keys) && i <= |ring.keys| && c + |ring.keys| <= U64
    ensures Run(s, ls) && s' == Exec(s, ls) && AllLonely(ls, t) && Prepared(s', t, sg, ring, c, |ring.keys|)
    decreases |ring.keys| - i
  {
    ls, s' := [], s;
    if i < |ring.keys| {
      WindowEnd(ring, c, i);
      assert Presented(s, sg) == Turn(ring, c, i);
      var first, a := Outdated(s, t, sg, ring);
      var rest;
      rest, s' := Prepare(a, t, sg, ring, c, i + 1);
      RunConcat(s, first, rest);
      ls := first + rest;
    }
  }

  // ----- A loop that fails to the end -----

  /** The keys of the turns from `i` on are stale, the others vacant, and there is room for `m` attempts. */
  ghost predicate Failing(s: State, t: TaskId, sg: SignerId, ring: Ring, c: nat, i: nat, m: nat) {
    && Still(s, t, sg, ring) && i <= |ring.keys| && Behind(s.net, Window(ring, c, i, |ring.keys|))
    && (i < |ring.keys| ==> SignsOf(s, sg) == c + |ring.keys| + i)
    && forall k :: N.ChainOf(s.net, k) + m + 1 < U64
  }

  lemma {:induction false} PresentedTurn(s: State, t: TaskId, sg: SignerId, ring: Ring, c: nat, x: nat)
    requires Still(s, t, sg, ring) && SignsOf(s, sg) == c + x
    ensures Presented(s, sg) == Turn(ring, c, x)
  {
  }

  /** One more refused attempt: of a stale key as long as there is one, else at the cost of an outsider. */
  lemma {:induction false} FailOnce(s: State, t: TaskId, sg: SignerId, ring: Ring, c: nat, i: nat, m: nat)
    returns (ls: seq<Label>, s': State)
    requires Failing(s, t, sg, ring, c, i, m + 1) && DistinctKeys(ring.keys) && c + 2 * |ring.keys| <= U64
    ensures Leads(s, ls, s', t, sg, Ready(m), AttemptEnds(m, Err(RpcTransactionFailure(REFUSAL)))) && AllLonely(ls, t)
    ensures Failing(s', t, sg, ring, c, if i < |ring.keys| then i + 1 else i, m)
    ensures Advances(ls) == if i < |ring.keys| then 0 else 1
  {
    hide Leads, Turn;
    var n := |ring.keys|;
    var k := Presented(s, sg);
    if i < n {
      TurnsRepeat(ring, c, i);
      WindowStart(ring, c, i);
      PresentedTurn(s, t, sg, ring, c, n + i);
    } else {
      assert Window(ring, c, i, n) == {};
    }
    ls, s' := RefusedAttempt(s, t, sg, ring, m);
    assert s'.net.cache.Keys == s.net.cache.Keys - {k};
    assert forall j :: N.ChainOf(s'.net, j) <= N.ChainOf(s.net, j) + 1;
    assert i < n ==> forall j :: N.ChainOf(s'.net, j) == N.ChainOf(s.net, j);
  }

  lemma {:induction false} FailAll(s: State, t: TaskId, sg: SignerId, ring: Ring, c: nat, i: nat, retries: nat)
    returns (ls: seq<Label>, s': State)
    requires Failing(s, t, sg, ring, c, i, retries + 1) && DistinctKeys(ring.keys) && c + 2 * |ring.keys| <= U64
    ensures Leads(s, ls, s', t, sg, Ready(retries), Over(Err(RpcTransactionFailure(REFUSAL)))) && AllLonely(ls, t)
    ensures Advances(ls) <= if retries + 1 <= |ring.keys| - i then 0 else retries + 1 - (|ring.keys| - i)
    decreases retries
  {
    hide Leads, Failing;
    var failed := Over(Err(RpcTransactionFailure(REFUSAL)));
    ls, s' := FailOnce(s, t, sg, ring, c, i, retries);
    if retries > 0 {
      assert Failing(s, t, sg, ring, c, i, retries + 1);
      var a, first, rest := s', ls, [];
      rest, s' := FailAll(a, t, sg, ring, c, if i < |ring.keys| then i + 1 else i, retries - 1);
      LeadsOn(s, first, a, rest, s', t, sg, Ready(retries), Ready(retries - 1), failed);
      ls := first + rest;
      AdvancesConcat(first, rest);
    }
  }

  // ----- The exact bound -----

  /** A loop that gives up on a refusal, with at most `r` setbacks of its keys and no other failure. */
  ghost predicate GivesUp(rings: map<SignerId, Ring>, signs: map<SignerId, nat>, past: seq<Label>, ls: seq<Label>,
                          t: TaskId, sg: SignerId, retries: nat, r: nat)
  {
    && Retrying(rings, signs, past, ls, t, sg, retries)
    && var s := Exec(Init(rings, signs), past);
      && Setbacks(s, ls, RingKeys(rings[sg])) <= r && OtherFailures(s, ls, t) == 0
      && var end := After(s, ls, t, Ready(retries));
        end.Over? && end.verdict.Err? && end.verdict != Err(Dropped)
  }

  lemma {:induction false} TooFew(rings: map<SignerId, Ring>, signs: map<SignerId, nat>, t: TaskId, sg: SignerId,
                                  retries: nat, r: nat)
    returns (past: seq<Label>, ls: seq<Label>)
    requires sg in rings && rings[sg].keys != [] && DistinctKeys(rings[sg].keys) && retries < r + |rings[sg].keys|
    requires retries + 4 < U64
    requires var c := if sg in signs then signs[sg] else 0; c + 2 * |rings[sg].keys| <= U64
    ensures GivesUp(rings, signs, past, ls, t, sg, retries, r)
  {
    var ring, init := rings[sg], Init(rings, signs);
    var c := SignsOf(init, sg);
    assert Window(ring, c, 0, 0) == {};
    var s, end;
    past, s := Prepare(init, t, sg, ring, c, 0);
    LonelyRun(init, past, t, RingKeys(ring));
    ls, end := FailAll(s, t, sg, ring, c, 0, retries);
    LonelyRun(s, ls, t, RingKeys(ring));
  }

  /** With `n` keys and at most `r` setbacks, a retry loop is sure to get past stale nonces if and only if
      it has at least `r + n` retries: `r + 1` for a plain signer. The two keys of a rotating signer are
      both stale, say, and nobody interferes: then one retry is not enough. */
  lemma RecoversIff(rings: map<SignerId, Ring>, signs: map<SignerId, nat>, t: TaskId, sg: SignerId,
                    retries: nat, r: nat)
    requires sg in rings && rings[sg].keys != [] && DistinctKeys(rings[sg].keys)
    // The nonces and the signer's counter stay below the word size.
    requires retries + 4 < U64 && (if sg in signs then signs[sg] else 0) + 2 * |rings[sg].keys| <= U64
    ensures retries >= r + |rings[sg].keys| <==>
      forall past, ls :: !GivesUp(rings, signs, past, ls, t, sg, retries, r)
  {
    if retries < r + |rings[sg].keys| {
      var past, ls := TooFew(rings, signs, t, sg, retries, r);
    } else {
      forall past, ls ensures !GivesUp(rings, signs, past, ls, t, sg, retries, r) {
        if GivesUp(rings, signs, past, ls, t, sg, retries, r) {
          var s, ks := Exec(Init(rings, signs), past), RingKeys(rings[sg]);
          RingSize(rings[sg]);
          Smaller(Unhealthy(s, ks), ks);
          Recovers(rings, signs, past, ls, t, sg, retries);
        }
      }
    }
  }
}
