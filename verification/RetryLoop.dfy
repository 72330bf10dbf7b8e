/** A retryable transaction over the runs of the sending protocol: one task attempts to send, again and
    again while an attempt fails and a retry remains, with whatever signer and whatever interleaving.
    How many retries are enough to get past stale nonces, whichever keys the signer rotates through. */
module RetryLoop {
  import opened Types
  import opened Outcome
  import opened SendProtocol
  import opened SendInvariant
  import opened Monotone
  import opened SelfHealing
  import N = NonceProtocol
  import I = NonceInvariant

  type Verdict = Result<FinalOutcome, Error>

  // ----- The loop -----

  /** Where the loop is; `left` retries remain after the attempt that is due or under way. */
  datatype Loop =
    | Ready(left: nat)
    | Attempting(left: nat)                     // the reply is not here yet
    | Judged(left: nat, verdict: Verdict)       // the reply is here and may still invalidate the entry
    | Over(verdict: Verdict)

  /** An attempt comes to its end: the first success ends the loop, and so does the last failure. */
  function AttemptEnds(left: nat, verdict: Verdict): Loop {
    if verdict.Ok? || left == 0 then Over(verdict) else Ready(left - 1)
  }

  /** How a step moves the loop of task `t`. */
  function Next(s: State, l: Label, t: TaskId, loop: Loop): Loop {
    match l
    case Begin(u, _) => if u == t && loop.Ready? then Attempting(loop.left) else loop
    case Net(n) =>
      if n.Advance? || n.task != t || FlowOf(s, t).Resting? then loop
      else if n.Drop? then Over(Err(Dropped))
      else if n.Fail? && loop.Attempting? then
        AttemptEnds(loop.left, Err(if N.Querying(N.PcOf(s.net, t)) then RpcQueryError else RpcBlockError))
      else loop
    case Answer(u, reply) => if u == t && loop.Attempting? then Judged(loop.left, SendResult(reply)) else loop
    case Finish(u) => if u == t && loop.Judged? then AttemptEnds(loop.left, loop.verdict) else loop
    case Abandon(u) => if u == t then Over(Err(Dropped)) else loop
    case _ => loop
  }

  /** In this run, task `t` begins to send only when its loop makes an attempt, with signer `sg`. */
  predicate Loops(s: State, ls: seq<Label>, t: TaskId, sg: SignerId, loop: Loop)
    requires Run(s, ls)
    decreases |ls|
  {
    ls != [] ==>
      && (ls[0].Begin? && ls[0].task == t ==> loop.Ready? && ls[0].sg == sg)
      && Loops(Step(s, ls[0]), ls[1..], t, sg, Next(s, ls[0], t, loop))
  }

  /** Where the loop is after the run. */
  function After(s: State, ls: seq<Label>, t: TaskId, loop: Loop): Loop
    requires Run(s, ls)
    decreases |ls|
  {
    if ls == [] then loop else After(Step(s, ls[0]), ls[1..], t, Next(s, ls[0], t, loop))
  }

  /** An attempt of `t` fails other than by a refused nonce. */
  predicate FailsOtherwise(s: State, l: Label, t: TaskId) {
    || (l.Answer? && l.task == t && !IsInvalidNonce(l.reply) && SendResult(l.reply).Err?)
    || (l.Net? && l.inner.Fail? && l.inner.task == t && !FlowOf(s, t).Resting?)
  }

  function OtherFailures(s: State, ls: seq<Label>, t: TaskId): nat
    requires Run(s, ls)
    decreases |ls|
  {
    if ls == [] then 0 else (if FailsOtherwise(s, ls[0], t) then 1 else 0) + OtherFailures(Step(s, ls[0]), ls[1..], t)
  }

  // ----- The keys of a signer -----

  function RingKeys(ring: Ring): set<CacheKey> {
    set i | 0 <= i < |ring.keys| :: CacheKey(ring.account, ring.keys[i])
  }

  lemma CoversRing(ring: Ring, k: CacheKey)
    ensures Covers(ring, k) <==> k in RingKeys(ring)
  {
  }

  lemma {:induction false} RingSize(ring: Ring)
    ensures |RingKeys(ring)| <= |ring.keys|
    decreases |ring.keys|
  {
    if ring.keys != [] {
      var n := |ring.keys| - 1;
      var less := Ring(ring.account, ring.keys[..n]);
      RingSize(less);
      assert RingKeys(ring) == RingKeys(less) + {CacheKey(ring.account, ring.keys[n])};
    }
  }

  // ----- Enough retries -----

  /** The flow of the task is where its loop is. */
  ghost predicate LoopInv(s: State, t: TaskId, sg: SignerId, loop: Loop) {
    var f := FlowOf(s, t);
    match loop
    case Ready(_) => f.Resting?
    case Attempting(_) => !f.Resting? && !f.Checking? && !f.Removing? && f.sg == sg
    case Judged(_, _) => (f.Checking? || f.Removing?) && f.sg == sg
    case Over(_) => f.Resting?
  }

  lemma LoopStep(s: State, l: Label, t: TaskId, sg: SignerId, loop: Loop)
    requires Base(s) && Enabled(s, l) && LoopInv(s, t, sg, loop)
    requires l.Begin? && l.task == t ==> loop.Ready? && l.sg == sg
    ensures LoopInv(Step(s, l), t, sg, Next(s, l, t, loop))
  {
    assert FlowInv(s, t);
    if !Moves(l, t) { FlowOther(s, l, t); }
  }

  /** The failures a loop can still afford before it ends in one. */
  function Budget(loop: Loop): nat {
    match loop
    case Ready(left) => left + 1
    case Attempting(left) => left + 1
    case Judged(left, _) => left
    case Over(_) => 0
  }

  /** The loop has succeeded, or its task has been dropped. */
  predicate Settled(loop: Loop) {
    (loop.Judged? && loop.verdict.Ok?) || (loop.Over? && (loop.verdict.Ok? || loop.verdict == Err(Dropped)))
  }

  /** Only a refusal or another failure costs budget, or the end of the task itself. */
  lemma BudgetStep(s: State, l: Label, t: TaskId, sg: SignerId, loop: Loop, ks: set<CacheKey>)
    requires Base(s) && Enabled(s, l) && LoopInv(s, t, sg, loop) && Usable(s, sg) && ks == RingKeys(s.rings[sg])
    requires !Settled(Next(s, l, t, loop))
    ensures Budget(loop) <= Budget(Next(s, l, t, loop))
                            + (if Refuses(s, l, ks) then 1 else 0) + (if FailsOtherwise(s, l, t) then 1 else 0)
  {
    assert FlowInv(s, t);
    if l.Answer? && l.task == t && loop.Attempting? && IsInvalidNonce(l.reply) {
      var k := FlowOf(s, t).tx.key;
      CoversRing(s.rings[sg], k);
      assert Refusal(s, l, k);
    }
  }

  lemma {:induction false} SettledStays(s: State, ls: seq<Label>, t: TaskId, loop: Loop)
    requires Run(s, ls) && Settled(loop)
    ensures Settled(After(s, ls, t, loop))
    decreases |ls|
  {
    if ls != [] { SettledStays(Step(s, ls[0]), ls[1..], t, Next(s, ls[0], t, loop)); }
  }

  lemma {:induction false} BudgetRun(s: State, ls: seq<Label>, t: TaskId, sg: SignerId, loop: Loop, ks: set<CacheKey>)
    requires Base(s) && Run(s, ls) && Loops(s, ls, t, sg, loop) && LoopInv(s, t, sg, loop)
    requires Usable(s, sg) && ks == RingKeys(s.rings[sg]) && !Settled(After(s, ls, t, loop))
    ensures Budget(loop) <= Budget(After(s, ls, t, loop)) + Refusals(s, ls, ks) + OtherFailures(s, ls, t)
    decreases |ls|
  {
    if ls != [] {
      var s', next := Step(s, ls[0]), Next(s, ls[0], t, loop);
      if Settled(next) { SettledStays(s', ls[1..], t, next); }
      BaseStep(s, ls[0]);
      LoopStep(s, ls[0], t, sg, loop);
      SignsGrow(s, ls[0], sg);
      BudgetStep(s, ls[0], t, sg, loop, ks);
      BudgetRun(s', ls[1..], t, sg, next, ks);
    }
  }

  /** A task at rest runs a retry loop with signer `sg`, after any past, however stale the entries are;
      sends with the signer's keys go one at a time. */
  ghost predicate Retrying(rings: map<SignerId, Ring>, signs: map<SignerId, nat>, past: seq<Label>, ls: seq<Label>,
                           t: TaskId, sg: SignerId, retries: nat)
  {
    && sg in rings && rings[sg].keys != []
    && Run(Init(rings, signs), past) && AllOrderly(Init(rings, signs), past, RingKeys(rings[sg]))
    && var s := Exec(Init(rings, signs), past);
      && FlowOf(s, t).Resting?
      && Run(s, ls) && AllOrderly(s, ls, RingKeys(rings[sg])) && Loops(s, ls, t, sg, Ready(retries))
  }

  lemma StartInv(rings: map<SignerId, Ring>, signs: map<SignerId, nat>, past: seq<Label>, ks: set<CacheKey>)
    requires Run(Init(rings, signs), past) && AllOrderly(Init(rings, signs), past, ks)
    ensures var s := Exec(Init(rings, signs), past); Base(s) && s.rings == rings && AllSendsInv(s, ks)
  {
    InitBase(rings, signs);
    BaseRun(Init(rings, signs), past);
    SignsCount(Init(rings, signs), past, 0);
    forall k | k in ks ensures SendsInv(Exec(Init(rings, signs), past), k) {
      assert Orderly(Init(rings, signs), past, k);
      SendsRun(Init(rings, signs), past, k);
    }
  }

  /** With more retries than setbacks, other failures and keys that are unhealthy at the start cost, a
      loop that comes to its end, other than by its task being dropped, has succeeded. */
  lemma Recovers(rings: map<SignerId, Ring>, signs: map<SignerId, nat>, past: seq<Label>, ls: seq<Label>,
                 t: TaskId, sg: SignerId, retries: nat)
    requires Retrying(rings, signs, past, ls, t, sg, retries)
    requires var s, ks := Exec(Init(rings, signs), past), RingKeys(rings[sg]);
      retries >= Setbacks(s, ls, ks) + |Unhealthy(s, ks)| + OtherFailures(s, ls, t)
    ensures var end := After(Exec(Init(rings, signs), past), ls, t, Ready(retries));
      end.Over? && end.verdict != Err(Dropped) ==> end.verdict.Ok?
    ensures |Unhealthy(Exec(Init(rings, signs), past), RingKeys(rings[sg]))| <= |rings[sg].keys|
  {
    var s, ks := Exec(Init(rings, signs), past), RingKeys(rings[sg]);
    StartInv(rings, signs, past, ks);
    RingSize(rings[sg]);
    Smaller(Unhealthy(s, ks), ks);
    RefusalsBound(s, ls, ks);
    if !Settled(After(s, ls, t, Ready(retries))) { BudgetRun(s, ls, t, sg, Ready(retries), ks); }
  }
}
