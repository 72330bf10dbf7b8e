/** What every reachable state of the nonce protocol satisfies, for any number of tasks and any
    interleaving of their steps. */
module NonceInvariant {
  import opened Types
  import opened NonceProtocol

  // ----- The lock -----

  predicate Distinct<T(==)>(q: seq<T>) { forall i, j :: 0 <= i < j < |q| ==> q[i] != q[j] }

  /** The lock's own books agree with where a task is. */
  ghost predicate GuardInv(s: State, t: TaskId) {
    && (t in s.lock.readers <==> ReadGuard(PcOf(s, t)))
    && (s.lock.writer == Some(t) <==> WriteGuard(PcOf(s, t)))
    && (t in s.lock.queue <==> Waiting(PcOf(s, t)))
  }

  /** A writer excludes everybody else, and nobody queues twice. */
  ghost predicate LockInv(s: State) {
    && (forall t: TaskId :: GuardInv(s, t))
    && (s.lock.writer.Some? ==> s.lock.readers == {})
    && Distinct(s.lock.queue)
  }

  lemma {:induction false} WithoutMember(q: seq<TaskId>, t: TaskId)
    requires Distinct(q)
    ensures forall u :: u in Without(q, t) <==> u in q && u != t
    ensures Distinct(Without(q, t))
  {
    if q != [] {
      var rest := Without(q[1..], t);
      WithoutMember(q[1..], t);
      assert q == [q[0]] + q[1..];
      if q[0] != t {
        assert q[0] !in rest;
        assert forall i :: 0 < i <= |rest| ==> ([q[0]] + rest)[i] == rest[i - 1];
      }
    }
  }

  lemma QueueStep(s: State, l: Label, u: TaskId)
    requires Distinct(s.lock.queue) && Enabled(s, l) && !l.Advance? && GuardInv(s, l.task)
    ensures Distinct(Step(s, l).lock.queue)
    ensures u != l.task ==> (u in Step(s, l).lock.queue <==> u in s.lock.queue)
  {
    WithoutMember(s.lock.queue, l.task);
    if l.Grant? {
      assert s.lock.queue == [l.task] + s.lock.queue[1..];
    }
  }

  lemma GuardGranted(s: State, t: TaskId)
    requires GuardInv(s, t) && Distinct(s.lock.queue) && Enabled(s, Grant(t))
    ensures GuardInv(Step(s, Grant(t)), t)
  {
    assert s.lock.queue == [t] + s.lock.queue[1..];
  }

  lemma GuardReleased(s: State, l: Label)
    requires (l.Miss? || l.Return? || l.Fail? || l.Drop?) && Enabled(s, l)
    requires GuardInv(s, l.task) && Distinct(s.lock.queue)
    ensures GuardInv(Step(s, l), l.task)
  {
    WithoutMember(s.lock.queue, l.task);
  }

  lemma GuardMover(s: State, l: Label)
    requires LockInv(s) && Enabled(s, l) && !l.Advance?
    ensures GuardInv(Step(s, l), l.task)
  {
    assert GuardInv(s, l.task);
    if l.Grant? { GuardGranted(s, l.task); }
    else if l.Miss? || l.Return? || l.Fail? || l.Drop? { GuardReleased(s, l); }
  }

  lemma GuardOther(s: State, l: Label, u: TaskId)
    requires LockInv(s) && Enabled(s, l) && !l.Advance? && u != l.task
    ensures GuardInv(Step(s, l), u)
  {
    var s' := Step(s, l);
    assert GuardInv(s, u) && GuardInv(s, l.task);
    QueueStep(s, l, u);
    assert PcOf(s', u) == PcOf(s, u);
    assert u in s'.lock.readers <==> u in s.lock.readers;
    assert s'.lock.writer == Some(u) <==> s.lock.writer == Some(u);
  }

  lemma LockStep(s: State, l: Label)
    requires LockInv(s) && Enabled(s, l)
    ensures LockInv(Step(s, l))
  {
    forall u: TaskId ensures GuardInv(Step(s, l), u) {
      if l.Advance? { assert GuardInv(s, u); } else if u == l.task { GuardMover(s, l); } else { GuardOther(s, l, u); }
    }
    if !l.Advance? {
      assert GuardInv(s, l.task);
      QueueStep(s, l, l.task);
    }
  }

  // ----- Tickets -----

  /** The nonces of one epoch of one key in the order in which they were drawn. */
  function Tickets(log: seq<Ticket>, k: CacheKey, e: nat): seq<nat> {
    if log == [] then []
    else
      var last := log[|log| - 1];
      Tickets(log[..|log| - 1], k, e) + (if last.key == k && last.epoch == e then [last.nonce] else [])
  }

  /** `n` consecutive nonces starting one above `base`. */
  function Consecutive(base: nat, n: nat): seq<nat> { seq(n, i requires 0 <= i < n => base + 1 + i) }

  lemma TicketsSnoc(log: seq<Ticket>, x: Ticket, k: CacheKey, e: nat)
    ensures Tickets(log + [x], k, e) == Tickets(log, k, e) + (if x.key == k && x.epoch == e then [x.nonce] else [])
  {
    assert (log + [x])[..|log|] == log;
  }

  lemma {:induction false} TicketsEmpty(log: seq<Ticket>, k: CacheKey, e: nat)
    requires forall i :: 0 <= i < |log| && log[i].key == k ==> log[i].epoch != e
    ensures Tickets(log, k, e) == []
  {
    if log != [] {
      TicketsEmpty(log[..|log| - 1], k, e);
    }
  }

  /** The chain nonces read never go down and are at most the present one. */
  predicate Ascending(bases: seq<nat>, top: nat) {
    && (forall d, e :: 0 <= d <= e < |bases| ==> bases[d] <= bases[e])
    && (forall e :: 0 <= e < |bases| ==> bases[e] <= top)
  }

  /** A task that has drawn a ticket holds a guard on a present entry whose current epoch the ticket
      belongs to; a task querying an access key does so for an absent entry, as has one that has just
      removed it; and an answer under way is at least what any earlier query of the key has read. */
  ghost predicate TaskInv(s: State, t: TaskId) {
    var pc := PcOf(s, t);
    && (HasTicket(pc) ==>
          && pc.i < |s.log| == |s.fates|
          && s.fates[pc.i] == Pending
          && s.log[pc.i].task == t
          && s.log[pc.i].key == pc.key
          && s.log[pc.i].epoch == CurrentEpoch(s, pc.key)
          && pc.key in s.cache)
    && (Querying(pc) || pc.Removed? ==> pc.key !in s.cache)
    && (pc.Loaded? ==> pc.read <= ChainOf(s, pc.key) && Ascending(BasesOf(s, pc.key), pc.read))
  }

  /** A pending ticket is held by exactly the task that has drawn it. */
  ghost predicate FateInv(s: State, i: nat) {
    i < |s.log| == |s.fates| && s.fates[i] == Pending ==>
      HasTicket(PcOf(s, s.log[i].task)) && PcOf(s, s.log[i].task).i == i
  }

  ghost predicate TicketInv(s: State) {
    && |s.fates| == |s.log|
    && (forall t: TaskId :: TaskInv(s, t))
    && (forall i: nat :: i < |s.log| ==> FateInv(s, i))
  }

  /** An epoch is never empty and its nonces are consecutive from its base. */
  ghost predicate EpochInv(log: seq<Ticket>, k: CacheKey, e: nat, base: nat) {
    && Tickets(log, k, e) != []
    && Tickets(log, k, e) == Consecutive(base, |Tickets(log, k, e)|)
  }

  ghost predicate History(log: seq<Ticket>, k: CacheKey, bases: seq<nat>) {
    forall e :: 0 <= e < |bases| ==> EpochInv(log, k, e, bases[e])
  }

  /** The entry of a key against its history. */
  ghost predicate EntryInv(s: State, k: CacheKey) {
    && (k in s.cache ==>
          && BasesOf(s, k) != []
          && s.cache[k] == BasesOf(s, k)[CurrentEpoch(s, k)] + |Tickets(s.log, k, CurrentEpoch(s, k))|
          && s.cache[k] < U64)
    && History(s.log, k, BasesOf(s, k))
    && Ascending(BasesOf(s, k), ChainOf(s, k))
  }

  ghost predicate LogInv(s: State) {
    && (forall i :: 0 <= i < |s.log| ==> s.log[i].epoch < |BasesOf(s, s.log[i].key)| && s.log[i].nonce < U64)
    && (forall i, j :: 0 <= i < j < |s.log| && s.log[i].key == s.log[j].key ==> s.log[i].epoch <= s.log[j].epoch)
  }

  ghost predicate Inv(s: State) {
    LockInv(s) && TicketInv(s) && LogInv(s) && forall k :: EntryInv(s, k)
  }

  lemma InitInv()
    ensures Inv(Init)
  {
  }

  // ----- Preservation -----

  lemma SoleWriter(s: State, t: TaskId, u: TaskId)
    requires LockInv(s) && WriteGuard(PcOf(s, t)) && Guarded(PcOf(s, u))
    ensures u == t
  {
    assert GuardInv(s, t) && GuardInv(s, u);
  }

  lemma TaskMover(s: State, l: Label)
    requires !l.Advance? && TaskInv(s, l.task) && |s.fates| == |s.log| && Enabled(s, l)
    requires l.Load? ==> EntryInv(s, PcOf(s, l.task).key)
    ensures TaskInv(Step(s, l), l.task)
  {
  }

  lemma TaskOther(s: State, l: Label, u: TaskId)
    requires !l.Advance? && LockInv(s) && TaskInv(s, u) && TaskInv(s, l.task) && |s.fates| == |s.log|
    requires Enabled(s, l) && u != l.task
    ensures TaskInv(Step(s, l), u)
  {
    var s' := Step(s, l);
    assert PcOf(s', u) == PcOf(s, u);
    if (l.Fill? || l.Remove?) && Guarded(PcOf(s, u)) { SoleWriter(s, l.task, u); }
    if l.Hit? && Querying(PcOf(s, u)) { SoleWriter(s, u, l.task); }
    assert HasTicket(PcOf(s, u)) || Querying(PcOf(s, u)) ==> BasesOf(s', PcOf(s, u).key) == BasesOf(s, PcOf(s, u).key);
  }

  lemma TaskStep(s: State, l: Label, u: TaskId)
    requires LockInv(s) && TicketInv(s) && Enabled(s, l)
    requires l.Load? ==> EntryInv(s, PcOf(s, l.task).key)
    ensures TaskInv(Step(s, l), u)
  {
    assert TaskInv(s, u);
    if l.Advance? {
    } else {
      assert TaskInv(s, l.task);
      if u == l.task { TaskMover(s, l); } else { TaskOther(s, l, u); }
    }
  }

  lemma FateStep(s: State, l: Label, i: nat)
    requires LockInv(s) && TicketInv(s) && Enabled(s, l) && i < |Step(s, l).log|
    ensures FateInv(Step(s, l), i)
  {
    if i < |s.log| {
      assert FateInv(s, i);
      if !l.Advance? { assert TaskInv(s, l.task); }
    }
  }

  lemma LogStep(s: State, l: Label)
    requires LockInv(s) && LogInv(s) && Enabled(s, l)
    requires l.Hit? ==> EntryInv(s, PcOf(s, l.task).key)
    ensures LogInv(Step(s, l))
  {
    var s' := Step(s, l);
    if l.Hit? || l.Fill? {
      var k := PcOf(s, l.task).key;
      assert s'.log == s.log + [s'.log[|s.log|]];
      assert forall j: CacheKey :: |BasesOf(s, j)| <= |BasesOf(s', j)|;
    } else {
      assert s'.log == s.log && s'.bases == s.bases;
    }
  }

  lemma EpochDrawn(log: seq<Ticket>, k: CacheKey, e: nat, base: nat, x: Ticket)
    requires EpochInv(log, k, e, base)
    requires x.key == k && x.epoch == e ==> x.nonce == base + |Tickets(log, k, e)| + 1
    ensures EpochInv(log + [x], k, e, base)
  {
    TicketsSnoc(log, x, k, e);
    var n := |Tickets(log, k, e)|;
    assert Consecutive(base, n) + [base + n + 1] == Consecutive(base, n + 1);
  }

  lemma HistoryDrawn(log: seq<Ticket>, k: CacheKey, bases: seq<nat>, x: Ticket)
    requires History(log, k, bases) && bases != []
    requires x.key == k ==> x.epoch == |bases| - 1 && x.nonce == bases[|bases| - 1] + |Tickets(log, k, |bases| - 1)| + 1
    ensures History(log + [x], k, bases)
  {
    forall e | 0 <= e < |bases| ensures EpochInv(log + [x], k, e, bases[e]) {
      EpochDrawn(log, k, e, bases[e], x);
    }
  }

  lemma HistoryOpened(log: seq<Ticket>, k: CacheKey, bases: seq<nat>, c: nat, t: TaskId)
    requires History(log, k, bases)
    requires forall i :: 0 <= i < |log| && log[i].key == k ==> log[i].epoch < |bases|
    ensures History(log + [Ticket(k, |bases|, c + 1, t)], k, bases + [c])
    ensures |Tickets(log + [Ticket(k, |bases|, c + 1, t)], k, |bases|)| == 1
  {
    var x := Ticket(k, |bases|, c + 1, t);
    TicketsEmpty(log, k, |bases|);
    TicketsSnoc(log, x, k, |bases|);
    forall e | 0 <= e < |bases + [c]| ensures EpochInv(log + [x], k, e, (bases + [c])[e]) {
      TicketsSnoc(log, x, k, e);
      if e < |bases| { assert EpochInv(log, k, e, bases[e]); }
    }
  }

  lemma HistoryForeign(log: seq<Ticket>, k: CacheKey, bases: seq<nat>, x: Ticket)
    requires History(log, k, bases) && x.key != k
    ensures History(log + [x], k, bases)
  {
    forall e | 0 <= e < |bases| ensures EpochInv(log + [x], k, e, bases[e]) {
      assert EpochInv(log, k, e, bases[e]);
      TicketsSnoc(log, x, k, e);
    }
  }

  lemma EntryDrawn(s: State, t: TaskId, k: CacheKey)
    requires EntryInv(s, k) && k in s.cache && s.cache[k] + 1 < U64
    ensures EntryInv(Draw(s, t, k), k)
  {
    var s', b, e := Draw(s, t, k), BasesOf(s, k), CurrentEpoch(s, k);
    var x := Ticket(k, e, s.cache[k] + 1, t);
    assert s'.log == s.log + [x] && BasesOf(s', k) == b && CurrentEpoch(s', k) == e;
    TicketsSnoc(s.log, x, k, e);
    assert |Tickets(s'.log, k, e)| == |Tickets(s.log, k, e)| + 1;
    HistoryDrawn(s.log, k, b, x);
  }

  lemma EntryElsewhere(s: State, t: TaskId, j: CacheKey, k: CacheKey)
    requires EntryInv(s, k) && j in s.cache && j != k
    ensures EntryInv(Draw(s, t, j), k)
  {
    var s', b, e := Draw(s, t, j), BasesOf(s, k), CurrentEpoch(s, k);
    var x := Ticket(j, CurrentEpoch(s, j), s.cache[j] + 1, t);
    assert s'.log == s.log + [x] && BasesOf(s', k) == b && CurrentEpoch(s', k) == e;
    TicketsSnoc(s.log, x, k, e);
    HistoryForeign(s.log, k, b, x);
  }

  lemma EntryHit(s: State, l: Label, k: CacheKey)
    requires EntryInv(s, k) && Enabled(s, l) && l.Hit?
    ensures EntryInv(Step(s, l), k)
  {
    var j := PcOf(s, l.task).key;
    if j == k { EntryDrawn(s, l.task, k); } else { EntryElsewhere(s, l.task, j, k); }
  }

  lemma EntryOpened(s: State, t: TaskId, k: CacheKey, c: nat)
    requires EntryInv(s, k) && LogInv(s) && c + 1 < U64 && c <= ChainOf(s, k) && Ascending(BasesOf(s, k), c)
    ensures EntryInv(Open(s, t, k, c), k)
  {
    var s' := Open(s, t, k, c);
    var b := BasesOf(s, k);
    HistoryOpened(s.log, k, b, c, t);
    assert BasesOf(s', k) == b + [c] && ChainOf(s', k) == ChainOf(s, k);
    assert s'.log == s.log + [Ticket(k, |b|, c + 1, t)];
    assert CurrentEpoch(s', k) == |b|;
  }

  lemma EntryFill(s: State, l: Label, k: CacheKey)
    requires EntryInv(s, k) && LogInv(s) && Enabled(s, l) && l.Fill? && TaskInv(s, l.task)
    ensures EntryInv(Step(s, l), k)
  {
    var s', j := Step(s, l), PcOf(s, l.task).key;
    if j == k {
      EntryOpened(s, l.task, k, PcOf(s, l.task).read);
    } else {
      var x := s'.log[|s.log|];
      assert s'.log == s.log + [x] && BasesOf(s', k) == BasesOf(s, k);
      TicketsSnoc(s.log, x, k, CurrentEpoch(s, k));
      HistoryForeign(s.log, k, BasesOf(s, k), x);
    }
  }

  lemma EntryOther(s: State, l: Label, k: CacheKey)
    requires EntryInv(s, k) && Enabled(s, l) && !l.Hit? && !l.Fill?
    ensures EntryInv(Step(s, l), k)
  {
    var s' := Step(s, l);
    assert s'.log == s.log && s'.bases == s.bases && ChainOf(s, k) <= ChainOf(s', k);
    assert k in s'.cache ==> k in s.cache && s'.cache[k] == s.cache[k];
  }

  lemma InvStep(s: State, l: Label)
    requires Inv(s) && Enabled(s, l)
    ensures Inv(Step(s, l))
  {
    LockStep(s, l);
    if l.Load? { assert EntryInv(s, PcOf(s, l.task).key); }
    forall u: TaskId ensures TaskInv(Step(s, l), u) { TaskStep(s, l, u); }
    forall i: nat | i < |Step(s, l).log| ensures FateInv(Step(s, l), i) { FateStep(s, l, i); }
    if l.Hit? { assert EntryInv(s, PcOf(s, l.task).key); }
    LogStep(s, l);
    if l.Fill? { assert TaskInv(s, l.task); }
    forall k ensures EntryInv(Step(s, l), k) {
      assert EntryInv(s, k);
      if l.Hit? { EntryHit(s, l, k); } else if l.Fill? { EntryFill(s, l, k); } else { EntryOther(s, l, k); }
    }
  }

  lemma {:induction false} InvRun(s: State, ls: seq<Label>)
    requires Inv(s) && Run(s, ls)
    ensures Inv(Exec(s, ls))
    decreases |ls|
  {
    if ls != [] {
      InvStep(s, ls[0]);
      InvRun(Step(s, ls[0]), ls[1..]);
    }
  }

  /** History is only ever added to, and chain nonces never go down. */
  lemma Grows(s: State, l: Label, k: CacheKey)
    requires Enabled(s, l)
    ensures s.log <= Step(s, l).log && ChainOf(s, k) <= ChainOf(Step(s, l), k)
    ensures !l.Hit? && !l.Fill? ==> Step(s, l).log == s.log
    ensures !l.Hit? && !l.Fill? && !l.Remove? ==> Step(s, l).cache == s.cache
  {
  }
}
