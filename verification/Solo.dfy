/** What one task does to the nonce cache when nobody else moves: concrete runs, label by label. */
module Solo {
  import opened Types
  import opened NonceProtocol

  /** Unfolds a run by one label. */
  lemma {:induction false} RunOne(s: State, ls: seq<Label>)
    requires ls != [] && Enabled(s, ls[0]) && Run(Step(s, ls[0]), ls[1..])
    ensures Run(s, ls) && Exec(s, ls) == Exec(Step(s, ls[0]), ls[1..])
  {
  }

  /** The task is alone with the lock, and outside a call. */
  predicate Quiet(s: State, t: TaskId) { s.lock == Lock({}, None, []) && PcOf(s, t).Idle? && |s.fates| == |s.log| }

  function HitLabels(t: TaskId): seq<Label> { [Grant(t), Hit(t)] }

  function FillLabels(t: TaskId): seq<Label> {
    [Grant(t), Miss(t), Requeue(t)] + [Grant(t), Vacant(t), Load(t), Fill(t)]
  }

  function RemoveLabels(t: TaskId): seq<Label> { [Grant(t), Remove(t)] }

  lemma {:induction false} Hits(s: State, t: TaskId, k: CacheKey)
    requires s.lock == Lock({}, None, [t]) && PcOf(s, t) == WaitRead(k)
    requires k in s.cache && s.cache[k] + 1 < U64
    ensures Run(s, HitLabels(t))
    ensures var s' := Exec(s, HitLabels(t)); var n := s.cache[k] + 1;
      && s' == s.(lock := Lock({t}, None, []), cache := s.cache[k := n], log := s'.log,
                  fates := s.fates + [Pending], pcs := s.pcs[t := ReadBlock(k, |s.log|)])
      && s'.log == s.log + [Ticket(k, CurrentEpoch(s, k), n, t)]
  {
    var a := Step(s, Grant(t));
    var b := Step(a, Hit(t));
    RunOne(a, HitLabels(t)[1..]);
    RunOne(s, HitLabels(t));
  }

  lemma {:induction false} Misses(s: State, t: TaskId, k: CacheKey, ls: seq<Label>)
    requires s.lock == Lock({}, None, [t]) && PcOf(s, t) == WaitRead(k) && k !in s.cache
    requires ls == [Grant(t), Miss(t), Requeue(t)]
    ensures Run(s, ls) && Exec(s, ls) == s.(pcs := s.pcs[t := WaitWrite(k)])
  {
    var a := Step(s, ls[0]);
    var b := Step(a, ls[1]);
    assert b.lock == Lock({}, None, []);
    var c := Step(b, ls[2]);
    RunOne(b, ls[2..]);
    RunOne(a, ls[1..]);
    RunOne(s, ls);
  }

  lemma {:induction false} Opens(s: State, t: TaskId, k: CacheKey, ls: seq<Label>)
    requires s.lock == Lock({}, None, [t]) && PcOf(s, t) == WaitWrite(k) && k !in s.cache
    requires ls == [Grant(t), Vacant(t), Load(t), Fill(t)] && ChainOf(s, k) + 1 < U64
    ensures Run(s, ls) && Exec(s, ls) == Open(s.(lock := Lock({}, Some(t), [])), t, k, ChainOf(s, k))
  {
    var a := Step(s, ls[0]);
    var b := Step(a, ls[1]);
    var c := Step(b, ls[2]);
    var d := Step(c, ls[3]);
    RunOne(c, ls[3..]);
    RunOne(b, ls[2..]);
    RunOne(a, ls[1..]);
    RunOne(s, ls);
  }

  lemma {:induction false} Fills(s: State, t: TaskId, k: CacheKey)
    requires s.lock == Lock({}, None, [t]) && PcOf(s, t) == WaitRead(k) && k !in s.cache && ChainOf(s, k) + 1 < U64
    ensures Run(s, FillLabels(t))
    ensures Exec(s, FillLabels(t)) == Open(s.(lock := Lock({}, Some(t), [])), t, k, ChainOf(s, k))
  {
    var b := s.(pcs := s.pcs[t := WaitWrite(k)]);
    Misses(s, t, k, [Grant(t), Miss(t), Requeue(t)]);
    Opens(b, t, k, [Grant(t), Vacant(t), Load(t), Fill(t)]);
    RunConcat(s, [Grant(t), Miss(t), Requeue(t)], [Grant(t), Vacant(t), Load(t), Fill(t)]);
  }

  lemma {:induction false} Removes(s: State, t: TaskId, k: CacheKey)
    requires s.lock == Lock({}, None, [t]) && PcOf(s, t) == WaitRemove(k)
    ensures Run(s, RemoveLabels(t))
    ensures Exec(s, RemoveLabels(t)) ==
      s.(lock := Lock({}, Some(t), []), cache := s.cache - {k}, pcs := s.pcs[t := Removed(k)])
  {
    var a := Step(s, Grant(t));
    var b := Step(a, Remove(t));
    RunOne(a, RemoveLabels(t)[1..]);
    RunOne(s, RemoveLabels(t));
  }

  /** The return of a call that has drawn ticket `i`, or of a removal. */
  lemma {:induction false} Returns(s: State, t: TaskId)
    requires HasTicket(PcOf(s, t)) || PcOf(s, t).Removed?
    requires s.lock == Lock({t}, None, []) || s.lock == Lock({}, Some(t), [])
    requires |s.fates| == |s.log|
    ensures Enabled(s, Return(t))
    ensures var s' := Step(s, Return(t));
      s' == s.(lock := Lock({}, None, []), fates := s'.fates, pcs := s.pcs[t := Idle]) && Quiet(s', t)
  {
  }
}
