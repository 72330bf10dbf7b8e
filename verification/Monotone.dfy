/** When the sends on a key go one at a time, the nonces issued for it only ever increase, across any
    number of invalidations, with earlier sends still in flight and outsiders using the key. Other
    keys are used, invalidated and interleaved at will. */
module Monotone {
  import opened Types
  import opened Outcome
  import opened Signer
  import opened SendProtocol
  import opened SendInvariant
  import N = NonceProtocol
  import I = NonceInvariant

  // ----- One at a time -----

  /** The flow of `t` runs with a signer that has the key. */
  predicate Covering(s: State, t: TaskId, k: CacheKey) {
    !FlowOf(s, t).Resting? && FlowOf(s, t).sg in s.rings && Covers(s.rings[FlowOf(s, t).sg], k)
  }

  /** A send with a signer that has `k` only begins when no other such send is under way, and nobody
      calls the cache for `k` except through `send_tx_once`. */
  ghost predicate OneAtATime(s: State, l: Label, k: CacheKey) {
    match l
    case Begin(t, sg) => sg in s.rings && Covers(s.rings[sg], k) ==> forall u: TaskId :: !Covering(s, u, k)
    case Net(n) => (n.CallFetch? || n.CallInvalidate?) ==> n.key != k
    case _ => true
  }

  ghost predicate Orderly(s: State, ls: seq<Label>, k: CacheKey)
    requires Run(s, ls)
    decreases |ls|
  {
    ls != [] ==> OneAtATime(s, ls[0], k) && Orderly(Step(s, ls[0]), ls[1..], k)
  }

  // ----- The invariant of one key -----

  /** No nonce issued for `k` exceeds `n`. */
  ghost predicate UpTo(net: N.State, k: CacheKey, n: nat) {
    forall i :: 0 <= i < |net.log| && net.log[i].key == k ==> net.log[i].nonce <= n
  }

  ghost predicate Increasing(net: N.State, k: CacheKey) {
    forall i, j :: 0 <= i < j < |net.log| && net.log[i].key == k && net.log[j].key == k ==>
      net.log[i].nonce < net.log[j].nonce
  }

  /** Entry present: every issued nonce is at most the cached value; absent: at most the chain nonce. */
  ghost predicate Bounded(net: N.State, k: CacheKey) {
    UpTo(net, k, if k in net.cache then net.cache[k] else N.ChainOf(net, k))
  }

  /** The key of the nonce that a flow has in hand, and the nonce. */
  function InHand(s: State, t: TaskId): Option<(CacheKey, nat)> {
    var f, pc := FlowOf(s, t), N.PcOf(s.net, t);
    match f
    case Fetching(_, _, _, k, _) =>
      if N.HasTicket(pc) && pc.i < |s.net.log| then Some((k, s.net.log[pc.i].nonce)) else None
    case Fetched(_, _, _, k, _, n) => Some((k, n))
    case Signed(_, _, tx) => Some((tx.key, tx.nonce))
    case Sent(_, _, tx) => Some((tx.key, tx.nonce))
    case Checking(_, _, tx, _) => Some((tx.key, tx.nonce))
    case Removing(_, _, tx, _) => Some((tx.key, tx.nonce))
    case _ => None
  }

  predicate Purging(f: Flow) { (f.Checking? && f.left > 0) || f.Removing? }

  function KeyNow(s: State, sg: SignerId): CacheKey {
    if Usable(s, sg) then Presented(s, sg) else CacheKey("", PublicKey([]))
  }

  /** A flow that covers `k`: it uses one and the same key throughout, the nonce it has in hand is the
      latest issued, and if it invalidates the entry, the chain has caught up with every nonce. */
  ghost predicate SenderInv(s: State, t: TaskId, k: CacheKey) {
    var f, pc := FlowOf(s, t), N.PcOf(s.net, t);
    && (pc != N.Idle && pc.key == k ==> Covering(s, t, k) && (f.Fetching? || f.Removing?))
    && (Covering(s, t, k) ==>
          && (f.Begun? || f.Fetching? || f.Fetched? ==> f.cacheKey == KeyNow(s, f.sg))
          && (f.Fetching? || f.Fetched? ==> f.key == f.cacheKey)
          && (f.Signed? || f.Sent? || f.Checking? || f.Removing? ==>
                f.tx.key == f.cacheKey && f.tx.signedBy == f.tx.key.publicKey)
          && (InHand(s, t).Some? && InHand(s, t).value.0 == k ==> UpTo(s.net, k, InHand(s, t).value.1))
          && (pc.Loaded? && pc.key == k ==> UpTo(s.net, k, pc.read))
          && (Purging(f) && f.cacheKey == k ==> UpTo(s.net, k, N.ChainOf(s.net, k))))
  }

  ghost predicate KeyInv(s: State, k: CacheKey) {
    && (forall t, u: TaskId :: Covering(s, t, k) && Covering(s, u, k) ==> t == u)
    && (forall t: TaskId :: SenderInv(s, t, k))
    && Bounded(s.net, k)
    && Increasing(s.net, k)
  }

  // ----- Preservation -----

  lemma CoveringStep(s: State, l: Label, t: TaskId, k: CacheKey)
    requires Base(s) && Enabled(s, l) && Covering(Step(s, l), t, k)
    ensures Covering(s, t, k) || (l.Begin? && l.task == t && Covers(s.rings[l.sg], k))
  {
    assert FlowInv(s, t);
    if !Moves(l, t) { FlowOther(s, l, t); }
  }

  /** A step that leaves the entry and the log of `k` alone, other than the chain moving up. */
  predicate Aside(s: State, l: Label, k: CacheKey)
    requires Enabled(s, l)
  {
    var net, net' := s.net, Step(s, l).net;
    net'.log == net.log && (k in net'.cache <==> k in net.cache) && (k in net.cache ==> net'.cache[k] == net.cache[k])
  }

  lemma UpToGrows(s: State, l: Label, k: CacheKey)
    requires Enabled(s, l) && Aside(s, l, k)
    ensures N.ChainOf(s.net, k) <= N.ChainOf(Step(s, l).net, k)
    ensures forall n :: UpTo(s.net, k, n) ==> UpTo(Step(s, l).net, k, n)
    ensures Bounded(s.net, k) ==> Bounded(Step(s, l).net, k)
    ensures Increasing(s.net, k) ==> Increasing(Step(s, l).net, k)
  {
    ChainGrows(s, l, k);
  }

  /** A ticket drawn for another key. */
  lemma ForeignTicket(s: State, l: Label, k: CacheKey)
    requires Base(s) && Enabled(s, l) && l.Net? && (l.inner.Hit? || l.inner.Fill?)
    requires N.PcOf(s.net, l.inner.task).key != k
    ensures forall n :: UpTo(s.net, k, n) ==> UpTo(Step(s, l).net, k, n)
    ensures Bounded(s.net, k) ==> Bounded(Step(s, l).net, k)
    ensures Increasing(s.net, k) ==> Increasing(Step(s, l).net, k)
    ensures N.ChainOf(s.net, k) == N.ChainOf(Step(s, l).net, k)
  {
    var log, log' := s.net.log, Step(s, l).net.log;
    assert |log'| == |log| + 1 && log'[..|log|] == log && log'[|log|].key != k;
    assert forall i :: 0 <= i < |log| ==> log'[i] == log[i];
  }

  /** What a ticket drawn for `k` must exceed. */
  lemma OwnTicket(s: State, l: Label, k: CacheKey)
    requires Base(s) && KeyInv(s, k) && Enabled(s, l) && l.Net? && (l.inner.Hit? || l.inner.Fill?)
    requires N.PcOf(s.net, l.inner.task).key == k
    ensures var net' := Step(s, l).net; var n := net'.log[|s.net.log|].nonce;
      && k in net'.cache && net'.cache[k] == n && UpTo(net', k, n)
      && Bounded(net', k) && Increasing(net', k)
      && N.ChainOf(net', k) == N.ChainOf(s.net, k)
  {
    var t := l.inner.task;
    assert SenderInv(s, t, k) && I.TaskInv(s.net, t);
    var log, log' := s.net.log, Step(s, l).net.log;
    assert |log'| == |log| + 1 && forall i :: 0 <= i < |log| ==> log'[i] == log[i];
    var n := log'[|log|].nonce;
    assert UpTo(s.net, k, n - 1);
  }

  lemma EntryRemoved(s: State, l: Label, k: CacheKey)
    requires Base(s) && KeyInv(s, k) && Enabled(s, l) && l.Net? && l.inner.Remove?
    requires N.PcOf(s.net, l.inner.task).key == k
    ensures Bounded(Step(s, l).net, k) && Increasing(Step(s, l).net, k)
  {
    assert SenderInv(s, l.inner.task, k) && FlowInv(s, l.inner.task);
    assert Step(s, l).net.log == s.net.log;
  }

  lemma ForeignRemoval(net: N.State, n: N.Label, k: CacheKey)
    requires N.Enabled(net, n) && n.Remove? && N.PcOf(net, n.task).key != k
    ensures var net' := N.Step(net, n);
      net'.log == net.log && (k in net'.cache <==> k in net.cache) && (k in net.cache ==> net'.cache[k] == net.cache[k])
  {
  }

  lemma StepsAside(s: State, l: Label, k: CacheKey)
    requires Enabled(s, l) && !(l.Net? && (l.inner.Hit? || l.inner.Fill?))
    requires l.Net? && l.inner.Remove? ==> N.PcOf(s.net, l.inner.task).key != k
    ensures Aside(s, l, k)
  {
    hide N.Enabled, N.Step;
    InsideStep(s, l);
    if l.Net? && l.inner.Remove? {
      ForeignRemoval(s.net, l.inner, k);
    } else if Inside(s, l) != [] {
      I.Grows(s.net, Inside(s, l)[0], k);
    }
  }

  lemma EntryStep(s: State, l: Label, k: CacheKey)
    requires Base(s) && KeyInv(s, k) && Enabled(s, l)
    ensures Bounded(Step(s, l).net, k) && Increasing(Step(s, l).net, k)
  {
    hide Base, N.Step, Step, Bounded, Increasing, Aside, Covering, InHand;
    if l.Net? && (l.inner.Hit? || l.inner.Fill?) {
      if N.PcOf(s.net, l.inner.task).key == k { OwnTicket(s, l, k); } else { ForeignTicket(s, l, k); }
    } else if l.Net? && l.inner.Remove? && N.PcOf(s.net, l.inner.task).key == k {
      EntryRemoved(s, l, k);
    } else {
      StepsAside(s, l, k);
      UpToGrows(s, l, k);
    }
  }

  /** A flow that does not move keeps its part of the invariant if no nonce is issued for `k` and its
      signer does not rotate. */
  lemma SenderFrame(s: State, s': State, t: TaskId, k: CacheKey)
    requires SenderInv(s, t, k)
    requires FlowOf(s', t) == FlowOf(s, t) && N.PcOf(s'.net, t) == N.PcOf(s.net, t) && s'.rings == s.rings
    requires Covering(s, t, k) ==> KeyNow(s', FlowOf(s, t).sg) == KeyNow(s, FlowOf(s, t).sg)
    requires Covering(s, t, k) ==> InHand(s', t) == InHand(s, t)
    requires Covering(s, t, k) ==> forall n :: UpTo(s.net, k, n) ==> UpTo(s'.net, k, n)
    requires N.ChainOf(s.net, k) <= N.ChainOf(s'.net, k)
    ensures SenderInv(s', t, k)
  {
  }

  lemma SignerWaits(s: State, l: Label, t: TaskId, k: CacheKey)
    requires Base(s) && KeyInv(s, k) && Enabled(s, l) && !Moves(l, t) && Covering(s, t, k)
    ensures KeyNow(Step(s, l), FlowOf(s, t).sg) == KeyNow(s, FlowOf(s, t).sg)
  {
    var f := FlowOf(s, t);
    SignsGrow(s, l, f.sg);
    if l.Sign? && l.sg == f.sg { assert Covering(s, l.task, k); }
  }

  lemma OtherTicket(s: State, l: Label, t: TaskId, k: CacheKey)
    requires Base(s) && KeyInv(s, k) && Enabled(s, l) && !Moves(l, t) && Covering(s, t, k)
    requires l.Net? && (l.inner.Hit? || l.inner.Fill?)
    ensures InHand(Step(s, l), t) == InHand(s, t)
    ensures forall n :: UpTo(s.net, k, n) ==> UpTo(Step(s, l).net, k, n)
  {
    assert N.PcOf(s.net, l.inner.task).key != k by { assert SenderInv(s, l.inner.task, k); }
    ForeignTicket(s, l, k);
    FlowOther(s, l, t);
    assert FlowInv(s, t) && I.TaskInv(s.net, t);
    assert Step(s, l).net.log[..|s.net.log|] == s.net.log;
  }

  lemma LogStays(s: State, l: Label, k: CacheKey)
    requires Enabled(s, l) && !(l.Net? && (l.inner.Hit? || l.inner.Fill?))
    ensures Step(s, l).net.log == s.net.log
    ensures N.ChainOf(s.net, k) <= N.ChainOf(Step(s, l).net, k)
    ensures forall n :: UpTo(s.net, k, n) ==> UpTo(Step(s, l).net, k, n)
  {
    InsideStep(s, l);
    if Inside(s, l) != [] { I.Grows(s.net, Inside(s, l)[0], k); }
  }

  lemma SenderOther(s: State, l: Label, t: TaskId, k: CacheKey)
    requires Base(s) && KeyInv(s, k) && Enabled(s, l) && OneAtATime(s, l, k) && !Moves(l, t)
    ensures SenderInv(Step(s, l), t, k)
  {
    assert SenderInv(s, t, k);
    FlowOther(s, l, t);
    ChainGrows(s, l, k);
    if Covering(s, t, k) {
      SignerWaits(s, l, t, k);
      if l.Net? && (l.inner.Hit? || l.inner.Fill?) { OtherTicket(s, l, t, k); } else { LogStays(s, l, k); }
    }
    SenderFrame(s, Step(s, l), t, k);
  }

  // The flow that moves, other than by a step of the nonce protocol.

  lemma SenderStarts(s: State, l: Label, k: CacheKey)
    requires (l.Begin? || l.ReadKey?) && FlowInv(s, l.task) && SenderInv(s, l.task, k) && Enabled(s, l)
    ensures SenderInv(Step(s, l), l.task, k)
  {
    var s', t := Step(s, l), l.task;
    assert s'.net.log == s.net.log && N.ChainOf(s'.net, k) == N.ChainOf(s.net, k);
    assert s'.rings == s.rings && s'.signs == s.signs;
    assert InHand(s', t) == None;
  }

  lemma SenderSigns(s: State, l: Label, k: CacheKey)
    requires l.Sign? && FlowInv(s, l.task) && SenderInv(s, l.task, k) && Enabled(s, l)
    ensures SenderInv(Step(s, l), l.task, k)
  {
    var s', t := Step(s, l), l.task;
    assert s'.net == s.net && s'.rings == s.rings;
    assert InHand(s', t) == InHand(s, t);
  }

  lemma SenderTalks(s: State, l: Label, k: CacheKey)
    requires (l.Broadcast? || l.Finish? || l.Abandon? || l.Invalidate?)
    requires FlowInv(s, l.task) && SenderInv(s, l.task, k) && Enabled(s, l)
    ensures SenderInv(Step(s, l), l.task, k)
  {
    var s', t := Step(s, l), l.task;
    assert s'.net.log == s.net.log && N.ChainOf(s'.net, k) == N.ChainOf(s.net, k);
    assert s'.rings == s.rings && s'.signs == s.signs;
    assert InHand(s', t).Some? ==> InHand(s', t) == InHand(s, t);
  }

  lemma SenderAnswered(s: State, l: Label, k: CacheKey)
    requires l.Answer? && FlowInv(s, l.task) && SenderInv(s, l.task, k) && ChainInv(s) && Enabled(s, l)
    ensures SenderInv(Step(s, l), l.task, k)
  {
    var s', t := Step(s, l), l.task;
    assert s'.net == s.net && InHand(s', t) == InHand(s, t);
    var tx := FlowOf(s, t).tx;
    if Invalidations(l.reply) > 0 { assert tx in s.rejected || tx in s.accepted; }
  }

  lemma SenderMover(s: State, l: Label, t: TaskId, k: CacheKey)
    requires Base(s) && KeyInv(s, k) && Enabled(s, l) && Moves(l, t) && !l.Net?
    ensures SenderInv(Step(s, l), t, k)
  {
    assert SenderInv(s, t, k) && FlowInv(s, t);
    if l.Begin? || l.ReadKey? { SenderStarts(s, l, k); }
    else if l.Sign? { SenderSigns(s, l, k); }
    else if l.Answer? { SenderAnswered(s, l, k); }
    else { SenderTalks(s, l, k); }
  }

  /** Where a step of the nonce protocol inside a call leaves the task. */
  ghost predicate InsideCall(net: N.State, n: N.Label, pc: N.Pc, pc': N.Pc) {
    && pc' != N.Idle
    && (if pc.Idle? then (n.CallFetch? || n.CallInvalidate?) && pc'.key == n.key
        else !n.CallFetch? && !n.CallInvalidate? && pc'.key == pc.key && (N.InFetch(pc') <==> N.InFetch(pc)))
    && (N.HasTicket(pc') <==> n.Hit? || n.Fill?)
    && (N.HasTicket(pc') ==> pc'.i == |net.log|)
    && (pc'.Loaded? ==> pc.Query? && pc'.read == N.ChainOf(net, pc.key))
  }

  lemma StaysInside(net: N.State, n: N.Label)
    requires N.Enabled(net, n) && !n.Advance? && !n.Return? && !n.Fail? && !n.Drop?
    ensures InsideCall(net, n, N.PcOf(net, n.task), N.PcOf(N.Step(net, n), n.task))
  {
  }

  /** The flow of the task that takes the step stays where it is. */
  lemma FlowStays(s: State, l: Label, t: TaskId)
    requires Enabled(s, l) && l.Net? && Moves(l, t) && !l.inner.Return? && !l.inner.Fail? && !l.inner.Drop?
    ensures var s' := Step(s, l);
      && FlowOf(s', t) == FlowOf(s, t) && s'.rings == s.rings && s'.signs == s.signs
      && s'.net == N.Step(s.net, l.inner)
      && InsideCall(s.net, l.inner, N.PcOf(s.net, t), N.PcOf(s'.net, t))
  {
    StaysInside(s.net, l.inner);
  }

  lemma SenderDrawsOwn(s: State, l: Label, t: TaskId, k: CacheKey)
    requires Base(s) && KeyInv(s, k) && Enabled(s, l) && Moves(l, t) && l.Net? && (l.inner.Hit? || l.inner.Fill?)
    requires N.PcOf(s.net, t).key == k
    ensures SenderInv(Step(s, l), t, k)
  {
    assert SenderInv(s, t, k) && FlowInv(s, t);
    FlowStays(s, l, t);
    OwnTicket(s, l, k);
  }

  lemma SenderDrawsForeign(s: State, l: Label, t: TaskId, k: CacheKey)
    requires Base(s) && KeyInv(s, k) && Enabled(s, l) && Moves(l, t) && l.Net? && (l.inner.Hit? || l.inner.Fill?)
    requires N.PcOf(s.net, t).key != k
    ensures SenderInv(Step(s, l), t, k)
  {
    assert SenderInv(s, t, k) && FlowInv(s, t);
    FlowStays(s, l, t);
    ForeignTicket(s, l, k);
  }

  lemma SenderReturned(s: State, s': State, t: TaskId, k: CacheKey)
    requires SenderInv(s, t, k) && s'.rings == s.rings && s'.signs == s.signs && s'.net.log == s.net.log
    requires N.PcOf(s'.net, t) == N.Idle && N.ChainOf(s'.net, k) == N.ChainOf(s.net, k)
    requires var f, f' := FlowOf(s, t), FlowOf(s', t);
      || f'.Resting?
      || (((f.Fetching? && f'.Fetched? && f'.key == f.key) || (f.Removing? && f'.Checking? && f'.tx == f.tx))
            && InHand(s', t) == InHand(s, t) && f'.sg == f.sg && f'.cacheKey == f.cacheKey)
    ensures SenderInv(s', t, k)
  {
  }

  lemma SenderReturns(s: State, l: Label, t: TaskId, k: CacheKey)
    requires Base(s) && KeyInv(s, k) && Enabled(s, l) && Moves(l, t)
    requires l.Net? && (l.inner.Return? || l.inner.Fail? || l.inner.Drop?)
    ensures SenderInv(Step(s, l), t, k)
  {
    assert FlowInv(s, t) && I.TaskInv(s.net, t);
    I.Grows(s.net, l.inner, k);
    SenderReturned(s, Step(s, l), t, k);
  }

  lemma SenderGoesOn(s: State, l: Label, t: TaskId, k: CacheKey)
    requires Base(s) && KeyInv(s, k) && Enabled(s, l) && OneAtATime(s, l, k) && Moves(l, t)
    requires l.Net? && !l.inner.Return? && !l.inner.Fail? && !l.inner.Drop? && !l.inner.Hit? && !l.inner.Fill?
    ensures SenderInv(Step(s, l), t, k)
  {
    assert SenderInv(s, t, k) && FlowInv(s, t) && I.TaskInv(s.net, t);
    FlowStays(s, l, t);
    LogStays(s, l, k);
  }

  lemma SenderNet(s: State, l: Label, t: TaskId, k: CacheKey)
    requires Base(s) && KeyInv(s, k) && Enabled(s, l) && OneAtATime(s, l, k) && Moves(l, t) && l.Net?
    ensures SenderInv(Step(s, l), t, k)
  {
    if l.inner.Hit? || l.inner.Fill? {
      if N.PcOf(s.net, t).key == k { SenderDrawsOwn(s, l, t, k); } else { SenderDrawsForeign(s, l, t, k); }
    }
    else if l.inner.Return? || l.inner.Fail? || l.inner.Drop? { SenderReturns(s, l, t, k); }
    else { SenderGoesOn(s, l, t, k); }
  }

  lemma KeyStep(s: State, l: Label, k: CacheKey)
    requires Base(s) && KeyInv(s, k) && Enabled(s, l) && OneAtATime(s, l, k)
    ensures KeyInv(Step(s, l), k)
  {
    var s' := Step(s, l);
    forall t, u: TaskId | Covering(s', t, k) && Covering(s', u, k) ensures t == u {
      CoveringStep(s, l, t, k);
      CoveringStep(s, l, u, k);
    }
    forall t: TaskId ensures SenderInv(s', t, k) {
      if !Moves(l, t) { SenderOther(s, l, t, k); }
      else if l.Net? { SenderNet(s, l, t, k); }
      else { SenderMover(s, l, t, k); }
    }
    EntryStep(s, l, k);
  }

  lemma {:induction false} KeyRun(s: State, ls: seq<Label>, k: CacheKey)
    requires Base(s) && KeyInv(s, k) && Run(s, ls) && Orderly(s, ls, k)
    ensures Base(Exec(s, ls)) && KeyInv(Exec(s, ls), k)
    decreases |ls|
  {
    if ls != [] {
      KeyStep(s, ls[0], k);
      BaseStep(s, ls[0]);
      KeyRun(Step(s, ls[0]), ls[1..], k);
    }
  }

  /** Over every run in which sends on `k` go one at a time, the nonces issued for `k` strictly
      increase, so none is ever issued twice. */
  lemma NoncesIncrease(rings: map<SignerId, Ring>, signs: map<SignerId, nat>, ls: seq<Label>, k: CacheKey,
                       i: nat, j: nat)
    requires Run(Init(rings, signs), ls) && Orderly(Init(rings, signs), ls, k)
    requires var log := Exec(Init(rings, signs), ls).net.log; i < j < |log| && log[i].key == log[j].key == k
    ensures var log := Exec(Init(rings, signs), ls).net.log; log[i].nonce < log[j].nonce
  {
    InitBase(rings, signs);
    KeyRun(Init(rings, signs), ls, k);
  }

  /** With one send at a time the key under which the entry is invalidated, the key embedded in the
      transaction and the key that signs it are one, although the signer has rotated by then. */
  lemma KeysCoincide(rings: map<SignerId, Ring>, signs: map<SignerId, nat>, ls: seq<Label>, k: CacheKey, t: TaskId)
    requires Run(Init(rings, signs), ls) && Orderly(Init(rings, signs), ls, k)
    requires var s := Exec(Init(rings, signs), ls);
      var f := FlowOf(s, t);
      Covering(s, t, k) && (f.Signed? || f.Sent? || f.Checking? || f.Removing?)
    ensures var f := FlowOf(Exec(Init(rings, signs), ls), t);
      f.tx.key == f.cacheKey && f.tx.signedBy == f.tx.key.publicKey
  {
    InitBase(rings, signs);
    KeyRun(Init(rings, signs), ls, k);
    assert SenderInv(Exec(Init(rings, signs), ls), t, k);
  }
}
