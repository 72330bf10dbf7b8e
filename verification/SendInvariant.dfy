/** What every reachable state of the sending protocol satisfies, whatever its tasks do, and which key
    signs a transaction when other tasks rotate the signer in between. */
module SendInvariant {
  import opened Types
  import opened Outcome
  import opened Signer
  import opened SendProtocol
  import N = NonceProtocol
  import I = NonceInvariant

  // ----- The nonce protocol inside -----

  /** The step of the nonce protocol that a step of the sending protocol contains, if any. */
  function Inside(s: State, l: Label): seq<N.Label>
    requires Enabled(s, l)
  {
    match l
    case ReadKey(t) => [N.CallFetch(t, Presented(s, FlowOf(s, t).sg))]
    case Net(n) => [n]
    case Accept(tx) => [N.Advance(tx.key, tx.nonce)]
    case Invalidate(t) => [N.CallInvalidate(t, FlowOf(s, t).cacheKey)]
    case _ => []
  }

  lemma InsideStep(s: State, l: Label)
    requires Enabled(s, l)
    ensures var n := Inside(s, l);
      if n == [] then Step(s, l).net == s.net
      else |n| == 1 && N.Enabled(s.net, n[0]) && Step(s, l).net == N.Step(s.net, n[0])
  {
  }

  function Project(s: State, ls: seq<Label>): seq<N.Label>
    requires Run(s, ls)
    decreases |ls|
  {
    if ls == [] then [] else Inside(s, ls[0]) + Project(Step(s, ls[0]), ls[1..])
  }

  /** Every run of the sending protocol contains a run of the nonce protocol, so whatever holds over
      all runs of that protocol holds here too. */
  lemma {:induction false} Projection(s: State, ls: seq<Label>)
    requires Run(s, ls)
    ensures N.Run(s.net, Project(s, ls)) && N.Exec(s.net, Project(s, ls)) == Exec(s, ls).net
    decreases |ls|
  {
    if ls != [] {
      var s' := Step(s, ls[0]);
      Projection(s', ls[1..]);
      InsideStep(s, ls[0]);
      var n, rest := Inside(s, ls[0]), Project(s', ls[1..]);
      if n == [] { assert n + rest == rest; } else { assert (n + rest)[0] == n[0] && (n + rest)[1..] == rest; }
    }
  }

  lemma OthersStay(net: N.State, n: N.Label, u: TaskId)
    requires N.Enabled(net, n) && (n.Advance? || n.task != u)
    ensures N.PcOf(N.Step(net, n), u) == N.PcOf(net, u)
  {
  }

  // ----- Invariant -----

  predicate Covers(ring: Ring, k: CacheKey) { k.account == ring.account && k.publicKey in ring.keys }

  function KeyFor(s: State, sg: SignerId, mark: nat): CacheKey
    requires Usable(s, sg)
  {
    CacheKey(s.rings[sg].account, KeyAt(s.rings[sg].keys, U64, mark))
  }

  /** The flow of a task agrees with where the task is inside the cache, and every key it carries is
      one that its signer has presented. */
  ghost predicate FlowInv(s: State, t: TaskId) {
    var f, pc := FlowOf(s, t), N.PcOf(s.net, t);
    f.Resting? ||
    ( && Usable(s, f.sg)
      && Covers(s.rings[f.sg], f.cacheKey)
      && (f.Fetching? ==> N.InFetch(pc) && pc.key == f.key)
      && (f.Removing? ==> N.InRemove(pc) && pc.key == f.cacheKey)
      && (!f.Fetching? && !f.Removing? ==> pc.Idle?)
      && (f.Begun? ==> f.cacheMark <= SignsOf(s, f.sg))
      && (f.Fetching? || f.Fetched? ==> f.cacheMark <= f.mark <= SignsOf(s, f.sg) && f.key == KeyFor(s, f.sg, f.mark))
      && (f.Begun? || f.Fetching? || f.Fetched? ==> f.cacheKey == KeyFor(s, f.sg, f.cacheMark))
      && (f.Signed? || f.Sent? || f.Checking? || f.Removing? ==> Covers(s.rings[f.sg], f.tx.key)))
  }

  /** The chain has caught up with every transaction it has accepted or refused for its nonce. */
  ghost predicate ChainInv(s: State) {
    forall tx :: tx in s.accepted || tx in s.rejected ==> tx.nonce <= N.ChainOf(s.net, tx.key)
  }

  ghost predicate Base(s: State) {
    I.Inv(s.net) && ChainInv(s) && forall t: TaskId :: FlowInv(s, t)
  }

  lemma InitBase(rings: map<SignerId, Ring>, signs: map<SignerId, nat>)
    ensures Base(Init(rings, signs))
  {
    I.InitInv();
  }

  /** The task whose flow a step moves. */
  predicate Moves(l: Label, t: TaskId) {
    match l
    case Net(n) => !n.Advance? && n.task == t
    case Accept(_) => false
    case Reject(_) => false
    case _ => l.task == t
  }

  lemma FlowOther(s: State, l: Label, t: TaskId)
    requires Enabled(s, l) && !Moves(l, t)
    ensures FlowOf(Step(s, l), t) == FlowOf(s, t) && N.PcOf(Step(s, l).net, t) == N.PcOf(s.net, t)
  {
    InsideStep(s, l);
    if Inside(s, l) != [] { OthersStay(s.net, Inside(s, l)[0], t); }
  }

  lemma SignsGrow(s: State, l: Label, sg: SignerId)
    requires Enabled(s, l)
    ensures Step(s, l).rings == s.rings
    ensures SignsOf(Step(s, l), sg) == SignsOf(s, sg) + (if l.Sign? && l.sg == sg then 1 else 0)
  {
  }

  /** Where a step of the nonce protocol leaves the task that takes it. */
  ghost predicate CallGoesOn(n: N.Label, pc: N.Pc, pc': N.Pc) {
    if n.Return? || n.Fail? || n.Drop? then pc' == N.Idle && pc != N.Idle
    else if n.CallFetch? || n.CallInvalidate? then pc == N.Idle
    else pc' != N.Idle && pc != N.Idle && pc'.key == pc.key && (N.InFetch(pc') <==> N.InFetch(pc))
  }

  lemma CallStep(net: N.State, n: N.Label)
    requires N.Enabled(net, n) && !n.Advance?
    ensures CallGoesOn(n, N.PcOf(net, n.task), N.PcOf(N.Step(net, n), n.task))
    ensures n.Return? ==> N.PcOf(net, n.task).Removed? || N.HasTicket(N.PcOf(net, n.task))
    ensures n.Fail? ==> N.InFetch(N.PcOf(net, n.task))
  {
  }

  lemma FlowNet(s: State, l: Label)
    requires Enabled(s, l) && l.Net? && !l.inner.Advance? && FlowInv(s, l.inner.task) && I.TaskInv(s.net, l.inner.task)
    ensures FlowInv(Step(s, l), l.inner.task)
  {
    var s', t := Step(s, l), l.inner.task;
    CallStep(s.net, l.inner);
    assert s'.net == N.Step(s.net, l.inner) && s'.rings == s.rings && s'.signs == s.signs;
    assert FlowOf(s', t) == FlowAfter(s.net, FlowOf(s, t), l.inner);
  }

  lemma FlowMover(s: State, l: Label, t: TaskId)
    requires Enabled(s, l) && Moves(l, t) && FlowInv(s, t) && !l.Net?
    ensures FlowInv(Step(s, l), t)
  {
  }

  lemma ChainGrows(s: State, l: Label, k: CacheKey)
    requires Enabled(s, l)
    ensures N.ChainOf(s.net, k) <= N.ChainOf(Step(s, l).net, k)
    ensures s.net.log <= Step(s, l).net.log
  {
    InsideStep(s, l);
    if Inside(s, l) != [] { I.Grows(s.net, Inside(s, l)[0], k); }
  }

  lemma ChainStep(s: State, l: Label)
    requires ChainInv(s) && Enabled(s, l)
    ensures ChainInv(Step(s, l))
  {
    forall k { ChainGrows(s, l, k); }
  }

  lemma BaseStep(s: State, l: Label)
    requires Base(s) && Enabled(s, l)
    ensures Base(Step(s, l))
  {
    var s' := Step(s, l);
    InsideStep(s, l);
    if Inside(s, l) != [] { I.InvStep(s.net, Inside(s, l)[0]); }
    forall t: TaskId ensures FlowInv(s', t) {
      assert FlowInv(s, t);
      if !Moves(l, t) {
        FlowOther(s, l, t);
        if !FlowOf(s, t).Resting? { SignsGrow(s, l, FlowOf(s, t).sg); }
      } else if l.Net? {
        assert I.TaskInv(s.net, t);
        FlowNet(s, l);
      } else {
        FlowMover(s, l, t);
      }
    }
    ChainStep(s, l);
  }

  lemma {:induction false} BaseRun(s: State, ls: seq<Label>)
    requires Base(s) && Run(s, ls)
    ensures Base(Exec(s, ls))
    decreases |ls|
  {
    if ls != [] {
      BaseStep(s, ls[0]);
      BaseRun(Step(s, ls[0]), ls[1..]);
    }
  }

  // ----- The embedded key and the signing key -----

  /** The signatures of a signer in a run, by whatever task. */
  function Signatures(ls: seq<Label>, sg: SignerId): nat {
    if ls == [] then 0 else (if ls[0].Sign? && ls[0].sg == sg then 1 else 0) + Signatures(ls[1..], sg)
  }

  lemma {:induction false} SignsCount(s: State, ls: seq<Label>, sg: SignerId)
    requires Run(s, ls)
    ensures SignsOf(Exec(s, ls), sg) == SignsOf(s, sg) + Signatures(ls, sg) && Exec(s, ls).rings == s.rings
    decreases |ls|
  {
    if ls != [] {
      SignsGrow(s, ls[0], sg);
      SignsCount(Step(s, ls[0]), ls[1..], sg);
    }
  }

  predicate Holds(f: Flow, sg: SignerId, k: CacheKey) {
    !f.Begun? && (f.Fetching? || f.Fetched? ==> f.sg == sg && f.key == k)
  }

  /** As long as the task begins no other transaction, the key it has read stays the one it embeds. */
  lemma {:induction false} ReadingKept(s: State, ls: seq<Label>, t: TaskId, sg: SignerId, k: CacheKey)
    requires Run(s, ls) && forall i :: 0 <= i < |ls| ==> !(ls[i].Begin? && ls[i].task == t)
    requires Holds(FlowOf(s, t), sg, k)
    ensures Holds(FlowOf(Exec(s, ls), t), sg, k)
    decreases |ls|
  {
    if ls != [] {
      var s' := Step(s, ls[0]);
      if !Moves(ls[0], t) { FlowOther(s, ls[0], t); }
      assert Holds(FlowOf(s', t), sg, k);
      ReadingKept(s', ls[1..], t, sg, k);
    }
  }

  /** A signing task embeds the key it has read and signs with the key presented now. */
  lemma SignMakes(s: State, t: TaskId, sg: SignerId, k: CacheKey)
    requires Enabled(s, Sign(t, sg)) && Holds(FlowOf(s, t), sg, k)
    ensures FlowOf(Step(s, Sign(t, sg)), t).Signed?
    ensures FlowOf(Step(s, Sign(t, sg)), t).tx == Tx(k, FlowOf(s, t).nonce, Presented(s, sg).publicKey)
  {
  }

  /** A task reads its signer's key, anything may happen, and then it signs, in state `b`. The key
      embedded in its transaction is the key that signs it exactly when the number of signatures that
      other tasks made with the same signer in between is a multiple of the number of its keys
      (distinct keys, no wrap of the counter in between). */
  lemma KeyAgreement(s: State, t: TaskId, sg: SignerId, ls: seq<Label>, b: State)
    requires Enabled(s, ReadKey(t)) && FlowOf(s, t).sg == sg && DistinctKeys(s.rings[sg].keys)
    requires Run(Step(s, ReadKey(t)), ls) && b == Exec(Step(s, ReadKey(t)), ls) && Enabled(b, Sign(t, sg))
    requires forall i :: 0 <= i < |ls| ==> !(ls[i].Begin? && ls[i].task == t)
    requires SignsOf(s, sg) / U64 == (SignsOf(s, sg) + Signatures(ls, sg)) / U64
    ensures var f := FlowOf(Step(b, Sign(t, sg)), t);
      f.Signed? && (f.tx.signedBy == f.tx.key.publicKey <==> Signatures(ls, sg) % |s.rings[sg].keys| == 0)
  {
    var a := Step(s, ReadKey(t));
    SignsGrow(s, ReadKey(t), sg);
    SignsCount(a, ls, sg);
    ReadingKept(a, ls, t, sg, Presented(s, sg));
    SignMakes(b, t, sg, Presented(s, sg));
    AgreesIff(s.rings[sg].keys, U64, SignsOf(s, sg), SignsOf(b, sg));
  }

  /** The same for the key under which the entry would be invalidated, which is read before the
      embedded key: marks count the signatures made when each was read. */
  lemma CacheKeyAgreement(s: State, t: TaskId)
    requires Base(s) && (FlowOf(s, t).Fetching? || FlowOf(s, t).Fetched?)
    requires Usable(s, FlowOf(s, t).sg) && DistinctKeys(s.rings[FlowOf(s, t).sg].keys)
    requires FlowOf(s, t).cacheMark / U64 == FlowOf(s, t).mark / U64
    ensures var f := FlowOf(s, t);
      f.cacheKey == f.key <==> (f.mark - f.cacheMark) % |s.rings[f.sg].keys| == 0
  {
    var f := FlowOf(s, t);
    assert FlowInv(s, t);
    AgreesIff(s.rings[f.sg].keys, U64, f.cacheMark, f.mark);
  }

  // ----- Fairness over runs -----

  /** The step signs a transaction with this key of the signer. */
  predicate SignsWith(s: State, l: Label, sg: SignerId, pk: PublicKey)
    requires Enabled(s, l)
  {
    l.Sign? && l.sg == sg && FlowOf(Step(s, l), l.task).Signed? && FlowOf(Step(s, l), l.task).tx.signedBy == pk
  }

  /** The transactions of a run that a signer signs with the key, whoever sends them. */
  function SignedWith(s: State, ls: seq<Label>, sg: SignerId, pk: PublicKey): nat
    requires Run(s, ls)
    decreases |ls|
  {
    if ls == [] then 0 else (if SignsWith(s, ls[0], sg, pk) then 1 else 0) + SignedWith(Step(s, ls[0]), ls[1..], sg, pk)
  }

  lemma RotatedNext(x: nat, word: nat)
    requires word > 1
    ensures Rotated(x % word, word) == (x + 1) % word
  {
    Small(1, word);
    SumQuotient(x, 1, word);
  }

  lemma SignsAtTurn(s: State, l: Label, sg: SignerId, p: nat)
    requires Enabled(s, l) && Usable(s, sg) && DistinctKeys(s.rings[sg].keys) && p < |s.rings[sg].keys|
    ensures SignsWith(s, l, sg, s.rings[sg].keys[p]) <==>
      l.Sign? && l.sg == sg && SignsOf(s, sg) % U64 % |s.rings[sg].keys| == p
  {
  }

  /** They are those in which the counter picks the key's position. */
  lemma {:induction false} RunUses(s: State, ls: seq<Label>, sg: SignerId, p: nat)
    requires Run(s, ls) && Usable(s, sg) && DistinctKeys(s.rings[sg].keys) && p < |s.rings[sg].keys|
    ensures SignedWith(s, ls, sg, s.rings[sg].keys[p]) ==
      Uses(SignsOf(s, sg) % U64, U64, |s.rings[sg].keys|, Signatures(ls, sg), p)
    decreases |ls|
  {
    if ls != [] {
      SignsGrow(s, ls[0], sg);
      SignsAtTurn(s, ls[0], sg, p);
      RotatedNext(SignsOf(s, sg), U64);
      RunUses(Step(s, ls[0]), ls[1..], sg, p);
    }
  }

  /** Over any run, with whatever tasks sharing the signer: its keys sign floor(m/n) or ceil(m/n) of its m
      transactions each as long as the counter does not wrap, or if n divides the word; and two keys are
      never further apart than one more than the number of wraps. */
  lemma {:induction false} FairOverRuns(s: State, ls: seq<Label>, sg: SignerId, p: nat, q: nat)
    requires Run(s, ls) && Usable(s, sg) && DistinctKeys(s.rings[sg].keys)
    requires p < |s.rings[sg].keys| && q < |s.rings[sg].keys|
    ensures var keys, c, m := s.rings[sg].keys, SignsOf(s, sg) % U64, Signatures(ls, sg); var n := |keys|;
      && (c + m <= U64 || U64 % n == 0 ==> m / n <= SignedWith(s, ls, sg, keys[p]) <= (m + n - 1) / n)
      && SignedWith(s, ls, sg, keys[p]) <= SignedWith(s, ls, sg, keys[q]) + 1 + Wraps(c, U64, m)
  {
    hide Uses, Wraps, SignedWith, Signatures, Run;
    RunUses(s, ls, sg, p);
    RunUses(s, ls, sg, q);
    FairAnyway(SignsOf(s, sg) % U64, U64, |s.rings[sg].keys|, Signatures(ls, sg), p, q);
  }
}
