/** The nonce protocol cannot get stuck, although guards are held across RPCs: some unfinished call
    can always move, every call is bounded in its steps, and the fair lock bounds how much work of
    others a queued call waits for. */
module Progress {
  import opened Types
  import opened NonceProtocol
  import opened NonceInvariant

  /** Labels that carry a call on; the others start a call or move the chain. */
  predicate Works(l: Label) { !l.CallFetch? && !l.CallInvalidate? && !l.Advance? }

  /** Steps of its own that a task still has to take at most. */
  function Rank(pc: Pc): nat {
    match pc
    case Idle => 0
    case WaitRead(_) => 8
    case ReadHeld(_) => 7
    case Missed(_) => 6
    case WaitWrite(_) => 5
    case WriteHeld(_) => 4
    case Query(_) => 3
    case Loaded(_, _) => 2
    case ReadBlock(_, _) | WriteBlock(_, _) | Filled(_, _) | Removed(_) => 1
    case WaitRemove(_) => 3
    case RemoveHeld(_) => 2
  }

  /** Nonces have room for `n` more tickets below the word size. */
  ghost predicate Room(s: State, n: nat) {
    && (forall k :: k in s.cache ==> s.cache[k] + n < U64)
    && (forall k :: ChainOf(s, k) + n < U64)
    && (forall t: TaskId :: PcOf(s, t).Loaded? ==> PcOf(s, t).read + n < U64)
  }

  // ----- Deadlock freedom -----

  /** What a task past the queue does next when its RPCs succeed. */
  function Onward(s: State, t: TaskId): Label {
    match PcOf(s, t)
    case ReadHeld(k) => if k in s.cache then Hit(t) else Miss(t)
    case WriteHeld(k) => if k in s.cache then Hit(t) else Vacant(t)
    case Missed(_) => Requeue(t)
    case Query(_) => Load(t)
    case Loaded(_, _) => Fill(t)
    case RemoveHeld(_) => Remove(t)
    case _ => Return(t)
  }

  function Ahead(q: seq<TaskId>, t: TaskId): set<TaskId> {
    if q == [] || q[0] == t then {} else {q[0]} + Ahead(q[1..], t)
  }

  /** Those a queued task has to wait for: the holders of the lock and everybody queued before it. */
  ghost function Before(s: State, t: TaskId): set<TaskId> {
    s.lock.readers + (if s.lock.writer.Some? then {s.lock.writer.value} else {}) + Ahead(s.lock.queue, t)
  }

  /** As long as a task is queued, one of those it waits for, or the task itself, can move with its RPCs
      answering: the holder of the lock, or the head of the queue. */
  lemma QueueMoves(s: State, t: TaskId) returns (l: Label)
    requires Inv(s) && Room(s, 1) && t in s.lock.queue
    ensures Works(l) && !l.Fail? && !l.Drop? && Enabled(s, l)
    ensures l == Onward(s, l.task) || (l.Grant? && !Guarded(PcOf(s, l.task)))
    ensures l.task in Before(s, t) || l == Grant(t)
  {
    assert GuardInv(s, t);
    var h := s.lock.queue[0];
    assert GuardInv(s, h);
    if s.lock.writer.Some? {
      assert GuardInv(s, s.lock.writer.value);
      l := Onward(s, s.lock.writer.value);
    } else if s.lock.readers != {} {
      var r :| r in s.lock.readers;
      assert GuardInv(s, r);
      l := Onward(s, r);
    } else {
      l := Grant(h);
    }
  }

  /** In every state that satisfies the invariant and has an unfinished call, some call can move with
      its RPCs answering: the unfinished one itself, or one that it waits for. */
  lemma SomeCallMoves(s: State, t: TaskId) returns (l: Label)
    requires Inv(s) && Room(s, 1) && PcOf(s, t) != Idle
    ensures Works(l) && !l.Fail? && !l.Drop? && Enabled(s, l)
    ensures l == Onward(s, l.task) || (l.Grant? && !Guarded(PcOf(s, l.task)))
  {
    if Waiting(PcOf(s, t)) {
      assert GuardInv(s, t);
      l := QueueMoves(s, t);
    } else {
      l := Onward(s, t);
    }
  }

  lemma DeadlockFree(ls: seq<Label>, t: TaskId) returns (l: Label)
    requires Run(Init, ls) && Room(Exec(Init, ls), 1) && PcOf(Exec(Init, ls), t) != Idle
    ensures Works(l) && !l.Fail? && !l.Drop? && Enabled(Exec(Init, ls), l)
  {
    InitInv();
    InvRun(Init, ls);
    l := SomeCallMoves(Exec(Init, ls), t);
  }

  // ----- Termination -----

  lemma RankFalls(s: State, l: Label)
    requires Enabled(s, l) && Works(l)
    ensures Rank(PcOf(Step(s, l), l.task)) < Rank(PcOf(s, l.task))
    ensures forall u: TaskId :: u != l.task ==> PcOf(Step(s, l), u) == PcOf(s, u)
  {
  }

  /** The work left to a set of tasks. */
  ghost function Work(pcs: map<TaskId, Pc>, ts: set<TaskId>): nat {
    if ts == {} then 0
    else var t :| t in ts; (if t in pcs then Rank(pcs[t]) else 0) + Work(pcs, ts - {t})
  }

  lemma {:induction false} WorkPick(pcs: map<TaskId, Pc>, ts: set<TaskId>, t: TaskId)
    requires t in ts
    ensures Work(pcs, ts) == (if t in pcs then Rank(pcs[t]) else 0) + Work(pcs, ts - {t})
    decreases |ts|
  {
    var u :| u in ts && Work(pcs, ts) == (if u in pcs then Rank(pcs[u]) else 0) + Work(pcs, ts - {u});
    if u != t {
      WorkPick(pcs, ts - {u}, t);
      WorkPick(pcs, ts - {t}, u);
      assert ts - {u} - {t} == ts - {t} - {u};
    }
  }

  lemma {:induction false} WorkFrame(a: map<TaskId, Pc>, b: map<TaskId, Pc>, ts: set<TaskId>)
    requires forall t :: t in ts ==> (if t in a then Rank(a[t]) else 0) == (if t in b then Rank(b[t]) else 0)
    ensures Work(a, ts) == Work(b, ts)
    decreases |ts|
  {
    if ts != {} {
      var t :| t in ts;
      WorkPick(a, ts, t);
      WorkPick(b, ts, t);
      WorkFrame(a, b, ts - {t});
    }
  }

  lemma {:induction false} WorkSubset(pcs: map<TaskId, Pc>, small: set<TaskId>, big: set<TaskId>)
    requires small <= big
    ensures Work(pcs, small) <= Work(pcs, big)
    decreases |small|
  {
    if small != {} {
      var t :| t in small;
      WorkPick(pcs, small, t);
      WorkPick(pcs, big, t);
      WorkSubset(pcs, small - {t}, big - {t});
    }
  }

  /** A working step of a member reduces the work of the set; a step of anybody else leaves it. */
  lemma WorkStep(s: State, l: Label, ts: set<TaskId>)
    requires Enabled(s, l)
    ensures Works(l) && l.task in ts ==> Work(Step(s, l).pcs, ts) < Work(s.pcs, ts)
    ensures l.Advance? || l.task !in ts ==> Work(Step(s, l).pcs, ts) == Work(s.pcs, ts)
  {
    var s' := Step(s, l);
    if l.Advance? || l.task !in ts {
      WorkFrame(s.pcs, s'.pcs, ts);
    } else if Works(l) {
      RankFalls(s, l);
      WorkPick(s.pcs, ts, l.task);
      WorkPick(s'.pcs, ts, l.task);
      WorkFrame(s.pcs, s'.pcs, ts - {l.task});
    }
  }

  /** Once no call is started any more, no run goes on for longer than the work left. */
  lemma {:induction false} Terminates(s: State, ls: seq<Label>)
    requires Run(s, ls) && forall i :: 0 <= i < |ls| ==> Works(ls[i])
    ensures |ls| + Work(Exec(s, ls).pcs, s.pcs.Keys) <= Work(s.pcs, s.pcs.Keys)
    decreases |ls|
  {
    if ls != [] {
      var s' := Step(s, ls[0]);
      assert ls[0].task in s.pcs;
      assert s'.pcs.Keys == s.pcs.Keys;
      WorkStep(s, ls[0], s.pcs.Keys);
      Terminates(s', ls[1..]);
    }
  }

  lemma RoomStep(s: State, l: Label, n: nat)
    requires Room(s, n + 1) && Enabled(s, l) && Works(l)
    ensures Room(Step(s, l), n)
  {
    assert Step(s, l).chain == s.chain;
    assert forall k :: ChainOf(Step(s, l), k) == ChainOf(s, k);
    forall t: TaskId | PcOf(Step(s, l), t).Loaded? ensures PcOf(Step(s, l), t).read + n < U64 {
      if t != l.task { assert PcOf(Step(s, l), t) == PcOf(s, t); }
    }
  }

  /** From every state of the invariant, the calls under way can all be brought to their end. */
  lemma {:induction false} CanFinish(s: State) returns (ls: seq<Label>)
    requires Inv(s) && Room(s, Work(s.pcs, s.pcs.Keys))
    ensures Run(s, ls) && (forall i :: 0 <= i < |ls| ==> Works(ls[i]) && !ls[i].Fail? && !ls[i].Drop?)
    ensures forall t: TaskId :: PcOf(Exec(s, ls), t) == Idle
    decreases Work(s.pcs, s.pcs.Keys)
  {
    if t: TaskId :| PcOf(s, t) != Idle {
      WorkPick(s.pcs, s.pcs.Keys, t);
      var l := SomeCallMoves(s, t);
      var s' := Step(s, l);
      assert l.task in s.pcs;
      assert s'.pcs.Keys == s.pcs.Keys;
      WorkStep(s, l, s.pcs.Keys);
      InvStep(s, l);
      RoomStep(s, l, Work(s'.pcs, s'.pcs.Keys));
      var rest := CanFinish(s');
      ls := [l] + rest;
      assert ls[1..] == rest;
    } else {
      ls := [];
    }
  }

  // ----- Bounded waiting -----

  lemma {:induction false} AheadWithout(q: seq<TaskId>, t: TaskId, u: TaskId)
    requires Distinct(q) && u != t
    ensures Ahead(Without(q, u), t) <= Ahead(q, t)
  {
    if q != [] && q[0] != u && q[0] != t {
      AheadWithout(q[1..], t, u);
      var w := Without(q[1..], u);
      assert ([q[0]] + w)[1..] == w;
    }
  }

  lemma {:induction false} AheadJoin(q: seq<TaskId>, t: TaskId, u: TaskId)
    requires t in q
    ensures Ahead(q + [u], t) == Ahead(q, t)
  {
    if q[0] != t {
      AheadJoin(q[1..], t, u);
      assert (q + [u])[1..] == q[1..] + [u];
    }
  }

  lemma {:induction false} AheadQueued(q: seq<TaskId>, t: TaskId, u: TaskId)
    requires u in Ahead(q, t)
    ensures u in q
  {
    if u != q[0] { AheadQueued(q[1..], t, u); }
  }

  /** Nobody gets ahead of a queued task: whoever it waits for after a step, it waited for before. */
  lemma NoOvertaking(s: State, l: Label, t: TaskId)
    requires Inv(s) && Enabled(s, l) && t in s.lock.queue && t in Step(s, l).lock.queue
    ensures Before(Step(s, l), t) <= Before(s, t)
  {
    var s', q := Step(s, l), s.lock.queue;
    if l.CallFetch? || l.CallInvalidate? || l.Requeue? {
      AheadJoin(q, t, l.task);
    } else if l.Grant? {
      assert q[0] != t by { assert GuardInv(s, t) && q == [q[0]] + q[1..]; }
    } else if l.Miss? || l.Return? || l.Fail? || l.Drop? {
      assert l.task != t by { WithoutMember(q, l.task); }
      AheadWithout(q, t, l.task);
    }
  }

  ghost predicate StaysQueued(s: State, ls: seq<Label>, t: TaskId)
    requires Run(s, ls)
    decreases |ls|
  {
    t in s.lock.queue && (ls != [] ==> StaysQueued(Step(s, ls[0]), ls[1..], t))
  }

  /** How many steps of the run are taken by a task that the queued one is then waiting for. */
  ghost function WaitedFor(s: State, ls: seq<Label>, t: TaskId): nat
    requires Run(s, ls) && StaysQueued(s, ls, t)
    decreases |ls|
  {
    if ls == [] then 0
    else (if !ls[0].Advance? && ls[0].task in Before(s, t) then 1 else 0) + WaitedFor(Step(s, ls[0]), ls[1..], t)
  }

  lemma BusyBefore(s: State, t: TaskId, u: TaskId)
    requires Inv(s) && t in s.lock.queue && u in Before(s, t)
    ensures PcOf(s, u) != Idle
  {
    if u in Ahead(s.lock.queue, t) { AheadQueued(s.lock.queue, t, u); }
    assert GuardInv(s, u);
  }

  /** However many new calls keep arriving, while a task is queued the tasks it waits for take no more
      steps altogether than the work they had left when it was looked at first. */
  lemma {:induction false} BoundedWaiting(s: State, ls: seq<Label>, t: TaskId)
    requires Inv(s) && Run(s, ls) && StaysQueued(s, ls, t)
    ensures WaitedFor(s, ls, t) <= Work(s.pcs, Before(s, t))
    decreases |ls|
  {
    if ls != [] {
      var l := ls[0];
      var s' := Step(s, l);
      InvStep(s, l);
      BoundedWaiting(s', ls[1..], t);
      NoOvertaking(s, l, t);
      WorkSubset(s'.pcs, Before(s', t), Before(s, t));
      if !l.Advance? && l.task in Before(s, t) {
        BusyBefore(s, t, l.task);
        assert Works(l);
      }
      WorkStep(s, l, Before(s, t));
    }
  }

  lemma {:induction false} NotAhead(q: seq<TaskId>, t: TaskId)
    ensures t !in Ahead(q, t)
  {
    if q != [] && q[0] != t { NotAhead(q[1..], t); }
  }

  lemma NotBefore(s: State, t: TaskId)
    requires Inv(s) && t in s.lock.queue
    ensures t !in Before(s, t)
  {
    NotAhead(s.lock.queue, t);
    assert GuardInv(s, t);
  }

  lemma LessRoom(s: State, m: nat, n: nat)
    requires n <= m && Room(s, m)
    ensures Room(s, n)
  {
  }

  lemma MoverStays(s: State, l: Label, t: TaskId)
    requires Inv(s) && Enabled(s, l) && t in s.lock.queue && Works(l) && l.task != t
    ensures t in Step(s, l).lock.queue
  {
    assert GuardInv(s, l.task);
    QueueStep(s, l, t);
  }

  /** A queued task gets its turn: those it waits for, moving one after another with their RPCs
      answering, need no more steps than the work they have left, and then the lock admits it. */
  lemma {:induction false} GetsItsTurn(s: State, t: TaskId) returns (ls: seq<Label>)
    requires Inv(s) && t in s.lock.queue && Room(s, Work(s.pcs, Before(s, t)) + 1)
    ensures Run(s, ls) && |ls| <= Work(s.pcs, Before(s, t)) && Enabled(Exec(s, ls), Grant(t))
    ensures forall i :: 0 <= i < |ls| ==> Works(ls[i]) && !ls[i].Fail? && !ls[i].Drop? && ls[i].task in Before(s, t)
    decreases Work(s.pcs, Before(s, t))
  {
    hide Inv, Room, Work, Enabled, Step, Works;
    LessRoom(s, Work(s.pcs, Before(s, t)) + 1, 1);
    var l := QueueMoves(s, t);
    if l == Grant(t) {
      ls := [];
    } else {
      var s' := Step(s, l);
      InvStep(s, l);
      NotBefore(s, t);
      MoverStays(s, l, t);
      NoOvertaking(s, l, t);
      WorkSubset(s'.pcs, Before(s', t), Before(s, t));
      WorkStep(s, l, Before(s, t));
      LessRoom(s, Work(s.pcs, Before(s, t)) + 1, Work(s'.pcs, Before(s', t)) + 2);
      RoomStep(s, l, Work(s'.pcs, Before(s', t)) + 1);
      var rest := GetsItsTurn(s', t);
      ls := [l] + rest;
      assert ls[1..] == rest;
    }
  }
}
