/** The nonce protocol is linearizable: whatever the interleaving, its calls behave as if each took
    effect at one instant between its start and its return, on a plain sequential ticket counter. */
module TicketCounter {
  import opened Types
  import opened NonceProtocol
  import opened NonceInvariant

  // ----- The sequential ticket counter -----

  datatype Op = Take(key: CacheKey) | Forget(key: CacheKey)

  /** A present counter moves up by one; an absent one starts one above `read`; the new value is the
      ticket. Forgetting removes the counter. */
  function Counted(counter: map<CacheKey, nat>, op: Op, read: Option<nat>): Option<(map<CacheKey, nat>, nat)> {
    match op
    case Take(k) =>
      if k in counter then
        if read.None? then Some((counter[k := counter[k] + 1], counter[k] + 1)) else None
      else
        if read.Some? then Some((counter[k := read.value + 1], read.value + 1)) else None
    case Forget(k) => Some((counter - {k}, 0))
  }

  // ----- What can be seen of a run -----

  datatype Event =
    | Called(task: TaskId, op: Op)
    | Read(task: TaskId, key: CacheKey, nonce: nat)   // the chain nonce is loaded
    | Effect(task: TaskId, op: Op, read: Option<nat>, result: nat)
    | Answered(task: TaskId, result: nat)
    | Abandoned(task: TaskId)                         // failed or dropped
    | Moved(key: CacheKey, nonce: nat)                // the chain moves a key's nonce

  predicate By(ev: Event, t: TaskId) { !ev.Moved? && ev.task == t }

  /** A call of one task: where it is between its start and its end. */
  datatype Phase = Out | Begun(op: Op) | HasRead(op: Op, nonce: nat) | Done(op: Op, result: nat)

  function NextPhase(p: Phase, ev: Event): Option<Phase> {
    match ev
    case Called(_, op) => if p.Out? then Some(Begun(op)) else None
    case Read(_, k, c) => if p == Begun(Take(k)) then Some(HasRead(p.op, c)) else None
    case Effect(_, op, read, r) =>
      if (p == Begun(op) && read.None?) || (p.HasRead? && p.op == op && read == Some(p.nonce)) then Some(Done(op, r))
      else None
    case Answered(_, r) => if p.Done? && p.result == r then Some(Out) else None
    case Abandoned(_) => if p.Out? then None else Some(Out)
    case Moved(_, _) => Some(p)
  }

  /** Follows the events of one task; `None` if they are not a sequence of calls. */
  function PhaseAfter(p: Phase, tr: seq<Event>, t: TaskId): Option<Phase>
    decreases |tr|
  {
    if tr == [] then Some(p)
    else if !By(tr[0], t) then PhaseAfter(p, tr[1..], t)
    else match NextPhase(p, tr[0]) case None => None case Some(q) => PhaseAfter(q, tr[1..], t)
  }

  /** Replays the effects, in their order, on the sequential counter, and the loads on the chain;
      `None` if some effect has another result than the counter gives, or some load another value. */
  function Replay(counter: map<CacheKey, nat>, chain: map<CacheKey, nat>, tr: seq<Event>): Option<map<CacheKey, nat>>
    decreases |tr|
  {
    if tr == [] then Some(counter)
    else match tr[0]
      case Effect(_, op, read, r) =>
        (match Counted(counter, op, read)
         case None => None
         case Some(cr) => if cr.1 == r then Replay(cr.0, chain, tr[1..]) else None)
      case Read(_, k, c) => if c == (if k in chain then chain[k] else 0) then Replay(counter, chain, tr[1..]) else None
      case Moved(k, n) => Replay(counter, chain[k := n], tr[1..])
      case _ => Replay(counter, chain, tr[1..])
  }

  // ----- The protocol's events -----

  function OpOf(pc: Pc): Op
    requires !pc.Idle?
  {
    if InRemove(pc) then Forget(pc.key) else Take(pc.key)
  }

  function NonceOf(s: State, pc: Pc): nat {
    if HasTicket(pc) && pc.i < |s.log| then s.log[pc.i].nonce else 0
  }

  function PhaseOf(s: State, t: TaskId): Phase {
    var pc := PcOf(s, t);
    if pc.Idle? then Out
    else if HasTicket(pc) || pc.Removed? then Done(OpOf(pc), NonceOf(s, pc))
    else if pc.Loaded? then HasRead(OpOf(pc), pc.read)
    else Begun(OpOf(pc))
  }

  /** The linearization points are the fetch_add, the insert and the removal. */
  function EventsOf(s: State, l: Label): seq<Event>
    requires Enabled(s, l)
  {
    match l
    case CallFetch(t, k) => [Called(t, Take(k))]
    case CallInvalidate(t, k) => [Called(t, Forget(k))]
    case Load(t) => [Read(t, PcOf(s, t).key, ChainOf(s, PcOf(s, t).key))]
    case Hit(t) => [Effect(t, Take(PcOf(s, t).key), None, s.cache[PcOf(s, t).key] + 1)]
    case Fill(t) => [Effect(t, Take(PcOf(s, t).key), Some(PcOf(s, t).read), PcOf(s, t).read + 1)]
    case Remove(t) => [Effect(t, Forget(PcOf(s, t).key), None, 0)]
    case Return(t) => [Answered(t, NonceOf(s, PcOf(s, t)))]
    case Fail(t) => [Abandoned(t)]
    case Drop(t) => [Abandoned(t)]
    case Advance(k, n) => [Moved(k, n)]
    case _ => []
  }

  function Trace(s: State, ls: seq<Label>): seq<Event>
    requires Run(s, ls)
    decreases |ls|
  {
    if ls == [] then [] else EventsOf(s, ls[0]) + Trace(Step(s, ls[0]), ls[1..])
  }

  // ----- Linearizability -----

  lemma PhaseOne(p: Phase, ev: Event, t: TaskId)
    ensures PhaseAfter(p, [ev], t) == if By(ev, t) then NextPhase(p, ev) else Some(p)
  {
    assert [ev][1..] == [];
  }

  lemma PhaseNone(p: Phase, t: TaskId)
    ensures PhaseAfter(p, [], t) == Some(p)
  {
  }

  lemma PhaseMover(s: State, l: Label)
    requires !l.Advance? && TaskInv(s, l.task) && Enabled(s, l)
    ensures PhaseAfter(PhaseOf(s, l.task), EventsOf(s, l), l.task) == Some(PhaseOf(Step(s, l), l.task))
  {
    hide PhaseAfter;
    var evs := EventsOf(s, l);
    if evs == [] { PhaseNone(PhaseOf(s, l.task), l.task); } else { PhaseOne(PhaseOf(s, l.task), evs[0], l.task); }
  }

  lemma PhaseStep(s: State, l: Label, t: TaskId)
    requires Inv(s) && Enabled(s, l)
    ensures PhaseAfter(PhaseOf(s, t), EventsOf(s, l), t) == Some(PhaseOf(Step(s, l), t))
  {
    assert TaskInv(s, t);
    if !l.Advance? && l.task == t {
      PhaseMover(s, l);
    } else {
      var evs := EventsOf(s, l);
      assert PcOf(Step(s, l), t) == PcOf(s, t);
      assert |s.log| <= |Step(s, l).log| && Step(s, l).log[..|s.log|] == s.log;
      if evs != [] { PhaseOne(PhaseOf(s, t), evs[0], t); }
    }
  }

  lemma ReplayStep(s: State, l: Label, tr: seq<Event>)
    requires Inv(s) && Enabled(s, l)
    ensures Replay(s.cache, s.chain, EventsOf(s, l) + tr) == Replay(Step(s, l).cache, Step(s, l).chain, tr)
  {
    var evs := EventsOf(s, l);
    if l.Fill? { assert TaskInv(s, l.task); }
    if evs == [] {
      assert evs + tr == tr;
    } else {
      assert (evs + tr)[0] == evs[0] && (evs + tr)[1..] == tr;
    }
  }

  lemma {:induction false} PhaseConcat(p: Phase, a: seq<Event>, b: seq<Event>, t: TaskId)
    ensures PhaseAfter(p, a + b, t) ==
      match PhaseAfter(p, a, t) case None => None case Some(q) => PhaseAfter(q, b, t)
    decreases |a|
  {
    if a == [] {
      assert a + b == b;
    } else {
      assert (a + b)[0] == a[0] && (a + b)[1..] == a[1..] + b;
      PhaseConcat(p, a[1..], b, t);
      if By(a[0], t) && NextPhase(p, a[0]).Some? { PhaseConcat(NextPhase(p, a[0]).value, a[1..], b, t); }
    }
  }

  lemma {:induction false} Simulation(s: State, ls: seq<Label>, t: TaskId)
    requires Inv(s) && Run(s, ls)
    ensures Replay(s.cache, s.chain, Trace(s, ls)) == Some(Exec(s, ls).cache)
    ensures PhaseAfter(PhaseOf(s, t), Trace(s, ls), t) == Some(PhaseOf(Exec(s, ls), t))
    decreases |ls|
  {
    if ls != [] {
      var s' := Step(s, ls[0]);
      InvStep(s, ls[0]);
      Simulation(s', ls[1..], t);
      ReplayStep(s, ls[0], Trace(s', ls[1..]));
      PhaseStep(s, ls[0], t);
      PhaseConcat(PhaseOf(s, t), EventsOf(s, ls[0]), Trace(s', ls[1..]), t);
    }
  }

  /** Every interleaving, with failing RPCs and dropped tasks, is linearizable: the effects in their
      order are a run of the sequential ticket counter that ends in the cache's own contents, and
      every task's events are well-formed calls. */
  lemma Linearizable(ls: seq<Label>, t: TaskId)
    requires Run(Init, ls)
    ensures Replay(map[], map[], Trace(Init, ls)) == Some(Exec(Init, ls).cache)
    ensures PhaseAfter(Out, Trace(Init, ls), t) == Some(PhaseOf(Exec(Init, ls), t))
  {
    InitInv();
    Simulation(Init, ls, t);
  }

  // ----- What well-formed calls mean -----

  /** No event of `t` strictly between the positions. */
  ghost predicate Silent(tr: seq<Event>, t: TaskId, from: int, to: int) {
    forall m :: 0 <= m < |tr| && from < m < to ==> !By(tr[m], t)
  }

  ghost predicate BegunAt(tr: seq<Event>, t: TaskId, op: Op, c: int, to: int) {
    0 <= c < to <= |tr| && tr[c] == Called(t, op) && Silent(tr, t, c, to)
  }

  ghost predicate ReadAt(tr: seq<Event>, t: TaskId, op: Op, n: nat, c: int, r: int, to: int) {
    && BegunAt(tr, t, op, c, r)
    && r < to <= |tr| && op.Take? && tr[r] == Read(t, op.key, n) && Silent(tr, t, r, to)
  }

  /** The call started at `c` and took effect at `e`; in between it did nothing but load the chain
      nonce that the effect then uses, if it uses one. */
  ghost predicate EffectAt(tr: seq<Event>, t: TaskId, op: Op, res: nat, c: int, e: int, to: int) {
    && 0 <= c < e < to <= |tr|
    && tr[c] == Called(t, op)
    && tr[e].Effect? && tr[e].task == t && tr[e].op == op && tr[e].result == res
    && Silent(tr, t, e, to)
    && (tr[e].read.None? ==> Silent(tr, t, c, e))
    && (tr[e].read.Some? ==> exists r :: ReadAt(tr, t, op, tr[e].read.value, c, r, e))
  }

  /** A phase is explained by the events at the positions where the call has passed its stages. */
  ghost predicate Explained(tr: seq<Event>, t: TaskId, p: Phase, to: int) {
    match p
    case Out => true
    case Begun(op) => exists c :: BegunAt(tr, t, op, c, to)
    case HasRead(op, n) => exists c, r :: ReadAt(tr, t, op, n, c, r, to)
    case Done(op, res) => exists c, e :: EffectAt(tr, t, op, res, c, e, to)
  }

  lemma StillExplained(tr: seq<Event>, t: TaskId, p: Phase, to: nat)
    requires to < |tr| && !By(tr[to], t) && Explained(tr, t, p, to)
    ensures Explained(tr, t, p, to + 1)
  {
    match p
    case Out =>
    case Begun(op) =>
      var c :| BegunAt(tr, t, op, c, to);
      assert BegunAt(tr, t, op, c, to + 1);
    case HasRead(op, n) =>
      var c, r :| ReadAt(tr, t, op, n, c, r, to);
      assert ReadAt(tr, t, op, n, c, r, to + 1);
    case Done(op, res) =>
      var c, e :| EffectAt(tr, t, op, res, c, e, to);
      assert EffectAt(tr, t, op, res, c, e, to + 1);
  }

  lemma NewlyExplained(tr: seq<Event>, t: TaskId, p: Phase, to: nat)
    requires to < |tr| && By(tr[to], t) && Explained(tr, t, p, to) && NextPhase(p, tr[to]).Some?
    ensures Explained(tr, t, NextPhase(p, tr[to]).value, to + 1)
  {
    match tr[to]
    case Called(_, op) =>
      assert BegunAt(tr, t, op, to, to + 1);
    case Read(_, k, n) =>
      var c :| BegunAt(tr, t, p.op, c, to);
      assert ReadAt(tr, t, p.op, n, c, to, to + 1);
    case Effect(_, op, read, res) =>
      if read.None? {
        var c :| BegunAt(tr, t, op, c, to);
        assert EffectAt(tr, t, op, res, c, to, to + 1);
      } else {
        var c, r :| ReadAt(tr, t, op, p.nonce, c, r, to);
        assert EffectAt(tr, t, op, res, c, to, to + 1);
      }
    case _ =>
  }

  lemma {:induction false} PhaseExplained(tr: seq<Event>, t: TaskId, to: nat)
    requires to <= |tr| && PhaseAfter(Out, tr[..to], t).Some?
    ensures Explained(tr, t, PhaseAfter(Out, tr[..to], t).value, to)
  {
    if to > 0 {
      var ev := tr[to - 1];
      assert tr[..to] == tr[..to - 1] + [ev];
      PhaseConcat(Out, tr[..to - 1], [ev], t);
      PhaseExplained(tr, t, to - 1);
      var p := PhaseAfter(Out, tr[..to - 1], t).value;
      if !By(ev, t) {
        StillExplained(tr, t, p, to - 1);
      } else {
        NewlyExplained(tr, t, p, to - 1);
      }
    }
  }

  /** Every call that returns took effect between its start and its return, and returns the ticket
      that the sequential counter gave it at that instant; a ticket of an absent entry comes from a
      chain nonce loaded during the same call. */
  lemma EffectInsideCall(ls: seq<Label>, j: nat)
    requires Run(Init, ls) && j < |Trace(Init, ls)| && Trace(Init, ls)[j].Answered?
    ensures var tr := Trace(Init, ls);
      exists op, c, e :: EffectAt(tr, tr[j].task, op, tr[j].result, c, e, j)
  {
    var tr := Trace(Init, ls);
    var t := tr[j].task;
    Linearizable(ls, t);
    assert tr == tr[..j] + ([tr[j]] + tr[j + 1..]);
    PhaseConcat(Out, tr[..j], [tr[j]] + tr[j + 1..], t);
    PhaseExplained(tr, t, j);
    var p := PhaseAfter(Out, tr[..j], t).value;
    assert ([tr[j]] + tr[j + 1..])[0] == tr[j];
    assert p.Done? && p.result == tr[j].result;
    var c, e :| EffectAt(tr, t, p.op, p.result, c, e, j);
  }
}
