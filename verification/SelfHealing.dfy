/** However far the cached nonce of a key has fallen behind, sends on it recover: each InvalidNonce
    reply, except possibly the first, takes an outsider moving the key's nonce on chain. */
module SelfHealing {
  import opened Types
  import opened Outcome
  import opened SendProtocol
  import opened SendInvariant
  import opened Monotone
  import N = NonceProtocol
  import I = NonceInvariant

  // ----- The transactions of a key -----

  ghost predicate Drawn(net: N.State, k: CacheKey, n: nat) {
    exists i :: 0 <= i < |net.log| && net.log[i].key == k && net.log[i].nonce == n
  }

  predicate Outstanding(s: State, tx: Tx, k: CacheKey) {
    tx.key == k && (tx in s.inflight || tx in s.accepted || tx in s.rejected)
  }

  /** The flow has drawn a nonce but not broadcast it. */
  predicate Unsent(f: Flow) { f.Fetching? || f.Fetched? || f.Signed? }

  /** Every transaction of `k` carries a nonce issued for it, and has at most one fate. */
  ghost predicate TxInv(s: State, k: CacheKey) {
    forall tx :: Outstanding(s, tx, k) ==>
      && Drawn(s.net, k, tx.nonce)
      && (tx in s.inflight ==> tx !in s.accepted && tx !in s.rejected)
      && (tx in s.accepted ==> tx !in s.rejected)
  }

  /** The nonce a flow has in hand for `k` has been issued, and every other transaction of `k` has a
      lower one. */
  ghost predicate HandInv(s: State, t: TaskId, k: CacheKey) {
    var f, h := FlowOf(s, t), InHand(s, t);
    Covering(s, t, k) && h.Some? && h.value.0 == k ==>
      && Drawn(s.net, k, h.value.1)
      && forall tx :: Outstanding(s, tx, k) ==> tx.nonce < h.value.1 || (!Unsent(f) && tx == f.tx)
  }

  ghost predicate SendsInv(s: State, k: CacheKey) {
    Base(s) && KeyInv(s, k) && TxInv(s, k) && forall t: TaskId :: HandInv(s, t, k)
  }

  lemma LogGrows(s: State, l: Label)
    requires Enabled(s, l)
    ensures s.net.log <= Step(s, l).net.log
  {
    ChainGrows(s, l, CacheKey("", PublicKey([])));
  }

  lemma DrawnStays(s: State, l: Label, k: CacheKey, n: nat)
    requires Enabled(s, l) && Drawn(s.net, k, n)
    ensures Drawn(Step(s, l).net, k, n)
  {
    var i :| 0 <= i < |s.net.log| && s.net.log[i].key == k && s.net.log[i].nonce == n;
    LogGrows(s, l);
    assert Step(s, l).net.log[i] == s.net.log[i];
  }

  /** Broadcasting is the only way for a transaction to appear. */
  lemma OutstandingStep(s: State, l: Label, tx: Tx, k: CacheKey)
    requires Enabled(s, l) && Outstanding(Step(s, l), tx, k)
    ensures Outstanding(s, tx, k) || (l.Broadcast? && tx == FlowOf(s, l.task).tx)
  {
  }

  lemma TxStep(s: State, l: Label, k: CacheKey)
    requires SendsInv(s, k) && Enabled(s, l)
    ensures TxInv(Step(s, l), k)
  {
    var s' := Step(s, l);
    forall tx | Outstanding(s', tx, k)
      ensures Drawn(s'.net, k, tx.nonce)
      ensures tx in s'.inflight ==> tx !in s'.accepted && tx !in s'.rejected
      ensures tx in s'.accepted ==> tx !in s'.rejected
    {
      OutstandingStep(s, l, tx, k);
      if l.Broadcast? && tx == FlowOf(s, l.task).tx {
        assert HandInv(s, l.task, k) && FlowInv(s, l.task);
      }
      DrawnStays(s, l, k, tx.nonce);
    }
  }

  /** The hand of a covering task changes only by drawing a nonce. */
  lemma HandStays(s: State, l: Label, t: TaskId, k: CacheKey)
    requires SendsInv(s, k) && Enabled(s, l) && OneAtATime(s, l, k)
    requires Covering(Step(s, l), t, k) && InHand(Step(s, l), t).Some? && InHand(Step(s, l), t).value.0 == k
    requires !(l.Net? && (l.inner.Hit? || l.inner.Fill?) && l.inner.task == t)
    ensures Covering(s, t, k) && InHand(s, t) == InHand(Step(s, l), t)
    ensures !Unsent(FlowOf(s, t)) ==> !Unsent(FlowOf(Step(s, l), t)) && FlowOf(Step(s, l), t).tx == FlowOf(s, t).tx
  {
    assert FlowInv(s, t) && I.TaskInv(s.net, t);
    CoveringStep(s, l, t, k);
    if !Moves(l, t) {
      FlowOther(s, l, t);
      LogGrows(s, l);
    } else if l.Net? && !l.inner.Return? && !l.inner.Fail? && !l.inner.Drop? {
      FlowStays(s, l, t);
      LogGrows(s, l);
    }
  }

  /** A ticket drawn for `k` exceeds every nonce issued for it before. */
  lemma DrawnBelow(s: State, l: Label, k: CacheKey, m: nat)
    requires Base(s) && KeyInv(s, k) && Enabled(s, l) && l.Net? && (l.inner.Hit? || l.inner.Fill?)
    requires N.PcOf(s.net, l.inner.task).key == k && Drawn(s.net, k, m)
    ensures m < Step(s, l).net.log[|s.net.log|].nonce
  {
    OwnTicket(s, l, k);
    LogGrows(s, l);
    var i :| 0 <= i < |s.net.log| && s.net.log[i].key == k && s.net.log[i].nonce == m;
    assert Step(s, l).net.log[i] == s.net.log[i];
  }

  lemma HandDrawn(s: State, l: Label, t: TaskId, k: CacheKey)
    requires SendsInv(s, k) && Enabled(s, l) && l.Net? && (l.inner.Hit? || l.inner.Fill?) && l.inner.task == t
    requires Covering(Step(s, l), t, k) && InHand(Step(s, l), t).Some? && InHand(Step(s, l), t).value.0 == k
    ensures HandInv(Step(s, l), t, k)
  {
    var s' := Step(s, l);
    assert FlowInv(s, t);
    FlowStays(s, l, t);
    OwnTicket(s, l, k);
    var n := s'.net.log[|s.net.log|].nonce;
    forall tx | Outstanding(s', tx, k) ensures tx.nonce < n {
      OutstandingStep(s, l, tx, k);
      DrawnBelow(s, l, k, tx.nonce);
    }
  }

  lemma HandStep(s: State, l: Label, t: TaskId, k: CacheKey)
    requires SendsInv(s, k) && Enabled(s, l) && OneAtATime(s, l, k)
    ensures HandInv(Step(s, l), t, k)
  {
    var s' := Step(s, l);
    var h := InHand(s', t);
    if Covering(s', t, k) && h.Some? && h.value.0 == k {
      if l.Net? && (l.inner.Hit? || l.inner.Fill?) && l.inner.task == t {
        HandDrawn(s, l, t, k);
      } else {
        HandStays(s, l, t, k);
        assert HandInv(s, t, k);
        DrawnStays(s, l, k, h.value.1);
        forall tx | Outstanding(s', tx, k)
          ensures tx.nonce < h.value.1 || (!Unsent(FlowOf(s', t)) && tx == FlowOf(s', t).tx)
        {
          OutstandingStep(s, l, tx, k);
          if l.Broadcast? && tx == FlowOf(s, l.task).tx {
            assert FlowInv(s, l.task) && Covering(s, l.task, k);
          }
        }
      }
    }
  }

  lemma SendsStep(s: State, l: Label, k: CacheKey)
    requires SendsInv(s, k) && Enabled(s, l) && OneAtATime(s, l, k)
    ensures SendsInv(Step(s, l), k)
  {
    BaseStep(s, l);
    KeyStep(s, l, k);
    TxStep(s, l, k);
    forall t: TaskId ensures HandInv(Step(s, l), t, k) { HandStep(s, l, t, k); }
  }

  // ----- Health -----

  predicate PurgesKey(s: State, t: TaskId, k: CacheKey) {
    Covering(s, t, k) && Purging(FlowOf(s, t)) && FlowOf(s, t).cacheKey == k
  }

  /** The entry is not behind the chain, or is about to be removed. */
  ghost predicate EntryHealthy(s: State, k: CacheKey) {
    k in s.net.cache ==> N.ChainOf(s.net, k) <= s.net.cache[k] || exists t: TaskId :: PurgesKey(s, t, k)
  }

  /** The chain has neither accepted nor, as far as the flow knows, refused the flow's nonce. */
  predicate ToBeJudged(s: State, t: TaskId) {
    var f := FlowOf(s, t);
    Unsent(f) || (f.Sent? && f.tx !in s.accepted)
  }

  /** A nonce that is still to be judged by the chain is above the chain's, or already accepted. */
  ghost predicate TaskHealthy(s: State, t: TaskId, k: CacheKey) {
    var h, pc := InHand(s, t), N.PcOf(s.net, t);
    Covering(s, t, k) ==>
      && (h.Some? && h.value.0 == k && ToBeJudged(s, t) ==> N.ChainOf(s.net, k) < h.value.1)
      && (pc.Loaded? && pc.key == k ==> N.ChainOf(s.net, k) <= pc.read)
  }

  ghost predicate Healthy(s: State, k: CacheKey) {
    EntryHealthy(s, k) && forall t: TaskId :: TaskHealthy(s, t, k)
  }

  /** The node refuses the nonce of a transaction of `k`. */
  predicate Refusal(s: State, l: Label, k: CacheKey) {
    l.Answer? && IsInvalidNonce(l.reply) && FlowOf(s, l.task).Sent? && FlowOf(s, l.task).tx.key == k
  }

  /** An outsider moves the nonce of `k` on chain. */
  predicate Outsider(l: Label, k: CacheKey) { l.Net? && l.inner.Advance? && l.inner.key == k }

  /** An invalidation of `k` demanded by a reply is given up because its task is dropped. */
  predicate DropsPurge(s: State, l: Label, k: CacheKey) { l.Net? && l.inner.Drop? && PurgesKey(s, l.inner.task, k) }

  lemma HealthyNotRefused(s: State, l: Label, k: CacheKey)
    requires SendsInv(s, k) && Healthy(s, k) && Enabled(s, l)
    ensures !Refusal(s, l, k)
  {
    if l.Answer? && FlowOf(s, l.task).tx.key == k {
      var t, tx := l.task, FlowOf(s, l.task).tx;
      assert FlowInv(s, t) && TaskHealthy(s, t, k);
      if tx in s.accepted { assert Outstanding(s, tx, k); }
      assert tx !in s.rejected;
    }
  }

  lemma RefusalHeals(s: State, l: Label, k: CacheKey)
    requires SendsInv(s, k) && Enabled(s, l) && Refusal(s, l, k)
    ensures Healthy(Step(s, l), k)
  {
    var s', t := Step(s, l), l.task;
    assert FlowInv(s, t) && SenderInv(s, t, k);
    assert Covering(s, t, k) && PurgesKey(s', t, k);
    forall u: TaskId ensures TaskHealthy(s', u, k) {
      assert FlowInv(s, u);
      if u != t {
        FlowOther(s, l, u);
        assert !Covering(s, u, k);
      }
    }
  }

  lemma AcceptKeepsHealth(s: State, l: Label, k: CacheKey)
    requires SendsInv(s, k) && Healthy(s, k) && Enabled(s, l) && l.Accept? && l.tx.key == k
    ensures Healthy(Step(s, l), k)
  {
    var s' := Step(s, l);
    assert Outstanding(s, l.tx, k) && Drawn(s.net, k, l.tx.nonce);
    assert N.ChainOf(s'.net, k) == l.tx.nonce && s'.net.log == s.net.log && s'.net.cache == s.net.cache;
    forall t: TaskId ensures TaskHealthy(s', t, k) {
      assert HandInv(s, t, k) && SenderInv(s, t, k) && FlowInv(s, t);
      FlowOther(s, l, t);
      assert InHand(s', t) == InHand(s, t);
    }
  }

  lemma DrawnHealthy(s: State, l: Label, t: TaskId, k: CacheKey)
    requires SendsInv(s, k) && Healthy(s, k) && Enabled(s, l)
    requires l.Net? && (l.inner.Hit? || l.inner.Fill?) && l.inner.task == t
    requires N.PcOf(s.net, t).key == k
    ensures N.ChainOf(s.net, k) < Step(s, l).net.log[|s.net.log|].nonce
  {
    assert SenderInv(s, t, k) && FlowInv(s, t) && TaskHealthy(s, t, k);
    if l.inner.Hit? {
      forall u: TaskId ensures !PurgesKey(s, u, k) { }
    }
  }

  lemma TaskDrawsHealthy(s: State, l: Label, t: TaskId, k: CacheKey)
    requires SendsInv(s, k) && Healthy(s, k) && Enabled(s, l)
    requires l.Net? && (l.inner.Hit? || l.inner.Fill?) && l.inner.task == t
    requires N.ChainOf(Step(s, l).net, k) == N.ChainOf(s.net, k)
    ensures TaskHealthy(Step(s, l), t, k)
  {
    assert FlowInv(s, t);
    FlowStays(s, l, t);
    var h := InHand(Step(s, l), t);
    if h.Some? && h.value.0 == k { DrawnHealthy(s, l, t, k); }
  }

  /** Once sent, a flow is not unsent again, and an accepted transaction stays accepted. */
  lemma JudgedStays(s: State, l: Label, t: TaskId, k: CacheKey)
    requires Enabled(s, l) && ToBeJudged(Step(s, l), t) && InHand(s, t).Some?
    requires TxInv(s, k) && HandInv(s, t, k) && Covering(s, t, k) && InHand(s, t).value.0 == k
    ensures ToBeJudged(s, t)
  {
    if !Moves(l, t) { FlowOther(s, l, t); }
  }

  lemma LoadedHealthy(s: State, l: Label, t: TaskId, k: CacheKey)
    requires Enabled(s, l) && TaskHealthy(s, t, k) && Covering(s, t, k)
    requires N.ChainOf(Step(s, l).net, k) == N.ChainOf(s.net, k)
    ensures var pc' := N.PcOf(Step(s, l).net, t); pc'.Loaded? && pc'.key == k ==> N.ChainOf(s.net, k) <= pc'.read
  {
    if !Moves(l, t) { FlowOther(s, l, t); }
    else if l.Net? && !l.inner.Return? && !l.inner.Fail? && !l.inner.Drop? { FlowStays(s, l, t); }
  }

  lemma TaskStaysHealthy(s: State, l: Label, t: TaskId, k: CacheKey)
    requires SendsInv(s, k) && Healthy(s, k) && Enabled(s, l) && OneAtATime(s, l, k)
    requires N.ChainOf(Step(s, l).net, k) == N.ChainOf(s.net, k)
    ensures TaskHealthy(Step(s, l), t, k)
  {
    assert TaskHealthy(s, t, k) && FlowInv(s, t) && I.TaskInv(s.net, t);
    if Covering(Step(s, l), t, k) {
      if l.Net? && (l.inner.Hit? || l.inner.Fill?) && l.inner.task == t {
        TaskDrawsHealthy(s, l, t, k);
      } else {
        CoveringStep(s, l, t, k);
        if InHand(Step(s, l), t).Some? && InHand(Step(s, l), t).value.0 == k {
          HandStays(s, l, t, k);
          if ToBeJudged(Step(s, l), t) { JudgedStays(s, l, t, k); }
        }
        if Covering(s, t, k) { LoadedHealthy(s, l, t, k); }
      }
    }
  }

  lemma ChainStays(s: State, l: Label, k: CacheKey)
    requires Enabled(s, l) && !Outsider(l, k) && !(l.Accept? && l.tx.key == k)
    ensures N.ChainOf(Step(s, l).net, k) == N.ChainOf(s.net, k)
  {
  }

  lemma PurgeGoesOn(s: State, l: Label, t: TaskId, k: CacheKey)
    requires SendsInv(s, k) && Enabled(s, l) && PurgesKey(s, t, k) && !DropsPurge(s, l, k) && k in s.net.cache
    ensures PurgesKey(Step(s, l), t, k)
  {
    assert FlowInv(s, t) && I.TaskInv(s.net, t);
    if !Moves(l, t) { FlowOther(s, l, t); }
  }

  lemma EntryStaysHealthy(s: State, l: Label, k: CacheKey)
    requires SendsInv(s, k) && Healthy(s, k) && Enabled(s, l) && OneAtATime(s, l, k)
    requires !Outsider(l, k) && !(l.Accept? && l.tx.key == k) && !DropsPurge(s, l, k)
    ensures EntryHealthy(Step(s, l), k)
  {
    var s' := Step(s, l);
    ChainStays(s, l, k);
    if k in s'.net.cache {
      if l.Net? && (l.inner.Hit? || l.inner.Fill?) && N.PcOf(s.net, l.inner.task).key == k {
        DrawnHealthy(s, l, l.inner.task, k);
        OwnTicket(s, l, k);
      } else {
        assert k in s.net.cache && s'.net.cache[k] == s.net.cache[k];
        if t: TaskId :| PurgesKey(s, t, k) { PurgeGoesOn(s, l, t, k); }
      }
    }
  }

  lemma StaysHealthy(s: State, l: Label, k: CacheKey)
    requires SendsInv(s, k) && Healthy(s, k) && Enabled(s, l) && OneAtATime(s, l, k)
    requires !Outsider(l, k) && !DropsPurge(s, l, k)
    ensures Healthy(Step(s, l), k)
  {
    if l.Accept? && l.tx.key == k {
      AcceptKeepsHealth(s, l, k);
    } else {
      EntryStaysHealthy(s, l, k);
      ChainStays(s, l, k);
      forall t: TaskId ensures TaskHealthy(Step(s, l), t, k) { TaskStaysHealthy(s, l, t, k); }
    }
  }

  // ----- The bound -----

  /** The key is set back from outside the sends on it. */
  predicate Setback(s: State, l: Label, k: CacheKey) { Outsider(l, k) || DropsPurge(s, l, k) }

  predicate SetsBack(s: State, l: Label, ks: set<CacheKey>) { exists k :: k in ks && Setback(s, l, k) }

  predicate Refuses(s: State, l: Label, ks: set<CacheKey>) { exists k :: k in ks && Refusal(s, l, k) }

  ghost function Unhealthy(s: State, ks: set<CacheKey>): set<CacheKey> { set k | k in ks && !Healthy(s, k) }

  /** The refusals of a run for transactions of the keys. */
  function Refusals(s: State, ls: seq<Label>, ks: set<CacheKey>): nat
    requires Run(s, ls)
    decreases |ls|
  {
    if ls == [] then 0 else (if Refuses(s, ls[0], ks) then 1 else 0) + Refusals(Step(s, ls[0]), ls[1..], ks)
  }

  /** How often a run sets one of the keys back. */
  function Setbacks(s: State, ls: seq<Label>, ks: set<CacheKey>): nat
    requires Run(s, ls)
    decreases |ls|
  {
    if ls == [] then 0 else (if SetsBack(s, ls[0], ks) then 1 else 0) + Setbacks(Step(s, ls[0]), ls[1..], ks)
  }

  ghost predicate AllSendsInv(s: State, ks: set<CacheKey>) { forall k :: k in ks ==> SendsInv(s, k) }

  ghost predicate AllOrderly(s: State, ls: seq<Label>, ks: set<CacheKey>)
    requires Run(s, ls)
  {
    forall k :: k in ks ==> Orderly(s, ls, k)
  }

  /** A step refuses or sets back one key at most. */
  lemma OneKey(s: State, l: Label, j: CacheKey, k: CacheKey)
    requires (Setback(s, l, j) && Setback(s, l, k)) || (Refusal(s, l, j) && Refusal(s, l, k))
    ensures j == k
  {
  }

  lemma {:induction false} Smaller(a: set<CacheKey>, b: set<CacheKey>)
    requires a <= b
    ensures |a| <= |b|
    decreases |a|
  {
    if k :| k in a { Smaller(a - {k}, b - {k}); }
  }

  /** A refusal makes its key healthy, only a setback makes one unhealthy. */
  lemma HealthStep(s: State, l: Label, ks: set<CacheKey>)
    requires AllSendsInv(s, ks) && Enabled(s, l) && forall k :: k in ks ==> OneAtATime(s, l, k)
    ensures (if Refuses(s, l, ks) then 1 else 0) + |Unhealthy(Step(s, l), ks)|
         <= (if SetsBack(s, l, ks) then 1 else 0) + |Unhealthy(s, ks)|
  {
    hide Healthy, SendsInv, OneAtATime, Enabled, Step;
    var s', was, now := Step(s, l), Unhealthy(s, ks), Unhealthy(Step(s, l), ks);
    forall k | k in ks && Healthy(s, k) && !Setback(s, l, k) ensures Healthy(s', k) { StaysHealthy(s, l, k); }
    if j :| j in ks && Refusal(s, l, j) {
      if Healthy(s, j) { HealthyNotRefused(s, l, j); }
      RefusalHeals(s, l, j);
      Smaller(now, was - {j});
    } else if j :| j in ks && Setback(s, l, j) {
      forall k | k in now && k != j ensures k in was {
        if Setback(s, l, k) { OneKey(s, l, j, k); }
      }
      Smaller(now - {j}, was);
    } else {
      Smaller(now, was);
    }
  }

  /** Over any run the refusals of a set of keys are at most its setbacks and the keys unhealthy at the
      start; those still unhealthy in the end have not even been refused yet. */
  lemma {:induction false} RefusalsBound(s: State, ls: seq<Label>, ks: set<CacheKey>)
    requires AllSendsInv(s, ks) && Run(s, ls) && AllOrderly(s, ls, ks)
    ensures Refusals(s, ls, ks) + |Unhealthy(Exec(s, ls), ks)| <= Setbacks(s, ls, ks) + |Unhealthy(s, ks)|
    decreases |ls|
  {
    if ls != [] {
      var s' := Step(s, ls[0]);
      forall k | k in ks ensures SendsInv(s', k) && OneAtATime(s, ls[0], k) && Orderly(s', ls[1..], k) {
        assert Orderly(s, ls, k);
        SendsStep(s, ls[0], k);
      }
      HealthStep(s, ls[0], ks);
      RefusalsBound(s', ls[1..], ks);
    }
  }

  lemma {:induction false} SendsRun(s: State, ls: seq<Label>, k: CacheKey)
    requires SendsInv(s, k) && Run(s, ls) && Orderly(s, ls, k)
    ensures SendsInv(Exec(s, ls), k)
    decreases |ls|
  {
    if ls != [] {
      SendsStep(s, ls[0], k);
      SendsRun(Step(s, ls[0]), ls[1..], k);
    }
  }
}
