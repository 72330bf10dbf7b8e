/** Which nonces are handed out, over every run of the nonce protocol: contiguity and uniqueness
    inside an epoch, the exact condition for uniqueness across epochs, and the soundness of the
    double-checked locking. */
module Epochs {
  import opened Types
  import opened NonceProtocol
  import opened NonceInvariant
  import opened Solo

  // ----- From lists of tickets to single tickets -----

  /** Ticket `i` of the log belongs to epoch `e` of `k`. */
  predicate Belongs(log: seq<Ticket>, i: nat, k: CacheKey, e: nat) {
    i < |log| && log[i].key == k && log[i].epoch == e
  }

  /** A ticket is found in its epoch at the position given by the tickets drawn before it. */
  lemma {:induction false} TicketAt(log: seq<Ticket>, i: nat, k: CacheKey, e: nat)
    requires Belongs(log, i, k, e)
    ensures |Tickets(log[..i], k, e)| < |Tickets(log, k, e)|
    ensures Tickets(log, k, e)[|Tickets(log[..i], k, e)|] == log[i].nonce
  {
    var init := log[..|log| - 1];
    if i < |log| - 1 {
      TicketAt(init, i, k, e);
      assert init[..i] == log[..i];
    }
  }

  lemma {:induction false} TicketsGrow(log: seq<Ticket>, i: nat, j: nat, k: CacheKey, e: nat)
    requires i <= j <= |log|
    ensures |Tickets(log[..i], k, e)| <= |Tickets(log[..j], k, e)|
    decreases j
  {
    if i < j {
      TicketsGrow(log, i, j - 1, k, e);
      assert log[..j][..j - 1] == log[..j - 1];
    }
  }

  lemma {:induction false} TicketFrom(log: seq<Ticket>, p: nat, k: CacheKey, e: nat) returns (i: nat)
    requires p < |Tickets(log, k, e)|
    ensures Belongs(log, i, k, e) && log[i].nonce == Tickets(log, k, e)[p]
  {
    var init := log[..|log| - 1];
    if p < |Tickets(init, k, e)| {
      i := TicketFrom(init, p, k, e);
    } else {
      i := |log| - 1;
    }
  }

  /** The highest nonce an epoch has reached. */
  function Top(s: State, k: CacheKey, e: nat): nat
    requires e < |BasesOf(s, k)|
  {
    BasesOf(s, k)[e] + |Tickets(s.log, k, e)|
  }

  /** The nonces of an epoch grow with the order in which they are drawn. */
  lemma OrderInEpoch(s: State, i: nat, j: nat)
    requires Inv(s) && i < j < |s.log| && s.log[i].key == s.log[j].key && s.log[i].epoch == s.log[j].epoch
    ensures s.log[i].nonce < s.log[j].nonce
  {
    var k, e := s.log[i].key, s.log[i].epoch;
    assert EntryInv(s, k);
    assert EpochInv(s.log, k, e, BasesOf(s, k)[e]);
    TicketAt(s.log, i, k, e);
    TicketAt(s.log, j, k, e);
    TicketsGrow(s.log, i + 1, j, k, e);
    assert s.log[..i + 1][..i] == s.log[..i];
  }

  /** The nonces of an epoch are exactly those above its base, up to its top. */
  lemma IntervalOfEpoch(s: State, k: CacheKey, e: nat, n: nat)
    requires Inv(s) && e < |BasesOf(s, k)|
    ensures BasesOf(s, k)[e] < n <= Top(s, k, e) <==> exists i: nat :: Belongs(s.log, i, k, e) && s.log[i].nonce == n
  {
    assert EntryInv(s, k);
    var base := BasesOf(s, k)[e];
    assert EpochInv(s.log, k, e, base);
    if base < n <= Top(s, k, e) {
      var i := TicketFrom(s.log, n - base - 1, k, e);
    }
    forall i: nat | Belongs(s.log, i, k, e) ensures base < s.log[i].nonce <= Top(s, k, e) {
      TicketAt(s.log, i, k, e);
    }
  }

  // ----- Contiguity and uniqueness in one epoch -----

  /** Over every run and for every number of tasks: the nonces drawn in the open epoch of a key are
      exactly the interval from one above the chain nonce its query read up to the cached value, no
      two tickets of an epoch share a nonce, and a ticket still pending is held by one task only. */
  lemma Contiguity(ls: seq<Label>, k: CacheKey, n: nat)
    requires Run(Init, ls) && k in Exec(Init, ls).cache
    ensures var s := Exec(Init, ls); var e := CurrentEpoch(s, k);
      && e < |BasesOf(s, k)|
      && (BasesOf(s, k)[e] < n <= s.cache[k] <==> exists i: nat :: Belongs(s.log, i, k, e) && s.log[i].nonce == n)
  {
    InitInv();
    InvRun(Init, ls);
    var s := Exec(Init, ls);
    assert EntryInv(s, k);
    IntervalOfEpoch(s, k, CurrentEpoch(s, k), n);
  }

  lemma Uniqueness(ls: seq<Label>, i: nat, j: nat)
    requires Run(Init, ls) && i < j < |Exec(Init, ls).log|
    ensures var log := Exec(Init, ls).log;
      log[i].key == log[j].key && log[i].epoch == log[j].epoch ==> log[i].nonce < log[j].nonce
  {
    InitInv();
    InvRun(Init, ls);
    var s := Exec(Init, ls);
    if s.log[i].key == s.log[j].key && s.log[i].epoch == s.log[j].epoch { OrderInEpoch(s, i, j); }
  }

  lemma PendingHasOneHolder(ls: seq<Label>, t: TaskId, u: TaskId)
    requires Run(Init, ls)
    requires var s := Exec(Init, ls); HasTicket(PcOf(s, t)) && HasTicket(PcOf(s, u)) && PcOf(s, t).i == PcOf(s, u).i
    ensures t == u
  {
    InitInv();
    InvRun(Init, ls);
    var s := Exec(Init, ls);
    assert TaskInv(s, t) && TaskInv(s, u);
  }

  // ----- Uniqueness across epochs -----

  predicate NoRepeat(s: State, k: CacheKey) {
    forall i, j :: 0 <= i < j < |s.log| && s.log[i].key == k && s.log[j].key == k ==> s.log[i].nonce != s.log[j].nonce
  }

  /** Every query that opened an epoch read a chain nonce that had caught up with all earlier epochs. */
  predicate CaughtUp(s: State, k: CacheKey) {
    forall d, e :: 0 <= d < e < |BasesOf(s, k)| ==> Top(s, k, d) <= BasesOf(s, k)[e]
  }

  /** A nonce of one epoch is drawn again in a later one exactly when it exceeds the chain nonce which
      the later epoch started from and the later epoch has come that far. */
  lemma RepeatedIff(ls: seq<Label>, i: nat, e: nat)
    requires Run(Init, ls) && i < |Exec(Init, ls).log|
    requires var s := Exec(Init, ls); s.log[i].epoch < e < |BasesOf(s, s.log[i].key)|
    ensures var s := Exec(Init, ls); var x := s.log[i];
      (exists j: nat :: Belongs(s.log, j, x.key, e) && s.log[j].nonce == x.nonce)
      <==> BasesOf(s, x.key)[e] < x.nonce <= Top(s, x.key, e)
  {
    InitInv();
    InvRun(Init, ls);
    var s := Exec(Init, ls);
    IntervalOfEpoch(s, s.log[i].key, e, s.log[i].nonce);
  }

  lemma CaughtUpSuffices(s: State, k: CacheKey)
    requires Inv(s) && CaughtUp(s, k)
    ensures NoRepeat(s, k)
  {
    forall i, j | 0 <= i < j < |s.log| && s.log[i].key == k && s.log[j].key == k
      ensures s.log[i].nonce < s.log[j].nonce
    {
      var d, e := s.log[i].epoch, s.log[j].epoch;
      if d == e {
        OrderInEpoch(s, i, j);
      } else {
        IntervalOfEpoch(s, k, d, s.log[i].nonce);
        IntervalOfEpoch(s, k, e, s.log[j].nonce);
        assert Belongs(s.log, i, k, d) && Belongs(s.log, j, k, e);
      }
    }
  }

  /** The first nonce of an epoch that starts below the top of an earlier one repeats. */
  lemma LaggingRepeats(s: State, k: CacheKey, d: nat, e: nat)
    requires Inv(s) && d < e < |BasesOf(s, k)| && Top(s, k, d) > BasesOf(s, k)[e]
    ensures !NoRepeat(s, k)
  {
    assert EntryInv(s, k);
    assert EpochInv(s.log, k, e, BasesOf(s, k)[e]);
    var n := BasesOf(s, k)[e] + 1;
    IntervalOfEpoch(s, k, d, n);
    IntervalOfEpoch(s, k, e, n);
    var i: nat :| Belongs(s.log, i, k, d) && s.log[i].nonce == n;
    var j: nat :| Belongs(s.log, j, k, e) && s.log[j].nonce == n;
    assert i < j || j < i;
  }

  /** No nonce of a key is ever handed out twice exactly when every refetch had caught up. */
  lemma NoRepeatIffCaughtUp(ls: seq<Label>, k: CacheKey)
    requires Run(Init, ls)
    ensures NoRepeat(Exec(Init, ls), k) <==> CaughtUp(Exec(Init, ls), k)
  {
    InitInv();
    InvRun(Init, ls);
    var s := Exec(Init, ls);
    assert EntryInv(s, k);
    if CaughtUp(s, k) { CaughtUpSuffices(s, k); }
    if NoRepeat(s, k) {
      forall d, e | 0 <= d < e < |BasesOf(s, k)| ensures Top(s, k, d) <= BasesOf(s, k)[e] {
        if Top(s, k, d) > BasesOf(s, k)[e] { LaggingRepeats(s, k, d, e); }
      }
    }
  }

  function FetchAlone(t: TaskId, k: CacheKey): seq<Label> { [CallFetch(t, k)] + FillLabels(t) + [Return(t)] }

  function InvalidateAlone(t: TaskId, k: CacheKey): seq<Label> {
    [CallInvalidate(t, k)] + RemoveLabels(t) + [Return(t)]
  }

  lemma {:induction false} ReturnsLast(s: State, t: TaskId)
    requires Enabled(s, Return(t))
    ensures Run(s, [Return(t)]) && Exec(s, [Return(t)]) == Step(s, Return(t))
  {
    assert [Return(t)][1..] == [];
  }

  lemma {:induction false} FetchesAlone(s: State, t: TaskId, k: CacheKey)
    requires Quiet(s, t) && k !in s.cache && ChainOf(s, k) + 1 < U64
    ensures Run(s, FetchAlone(t, k))
    ensures var s' := Exec(s, FetchAlone(t, k));
      Quiet(s', t) && s'.chain == s.chain && s'.log == s.log + [Ticket(k, |BasesOf(s, k)|, ChainOf(s, k) + 1, t)]
  {
    hide Run, Exec;
    var a := Step(s, CallFetch(t, k));
    Fills(a, t, k);
    var b := Exec(a, FillLabels(t));
    Returns(b, t);
    ReturnsLast(b, t);
    RunConcat(a, FillLabels(t), [Return(t)]);
    assert FetchAlone(t, k)[1..] == FillLabels(t) + [Return(t)];
    RunOne(s, FetchAlone(t, k));
  }

  lemma {:induction false} InvalidatesAlone(s: State, t: TaskId, k: CacheKey)
    requires Quiet(s, t)
    ensures Run(s, InvalidateAlone(t, k))
    ensures var s' := Exec(s, InvalidateAlone(t, k));
      Quiet(s', t) && s'.chain == s.chain && s'.log == s.log && k !in s'.cache
  {
    hide Run, Exec;
    var a := Step(s, CallInvalidate(t, k));
    Removes(a, t, k);
    var b := Exec(a, RemoveLabels(t));
    Returns(b, t);
    ReturnsLast(b, t);
    RunConcat(a, RemoveLabels(t), [Return(t)]);
    assert InvalidateAlone(t, k)[1..] == RemoveLabels(t) + [Return(t)];
    RunOne(s, InvalidateAlone(t, k));
  }

  /** Uniqueness over a whole run does not hold in general: one call fetches a nonce, the entry is
      invalidated before the chain has moved, and the next call is given the same nonce. */
  lemma RepeatExists(t: TaskId, k: CacheKey) returns (ls: seq<Label>)
    ensures Run(Init, ls) && !NoRepeat(Exec(Init, ls), k)
  {
    var fetch, invalidate := FetchAlone(t, k), InvalidateAlone(t, k);
    FetchesAlone(Init, t, k);
    var s1 := Exec(Init, fetch);
    InvalidatesAlone(s1, t, k);
    var s2 := Exec(s1, invalidate);
    FetchesAlone(s2, t, k);
    RunConcat(Init, fetch, invalidate);
    RunConcat(Init, fetch + invalidate, fetch);
    ls := fetch + invalidate + fetch;
    var s3 := Exec(s2, fetch);
    assert s3.log[0].key == s3.log[1].key == k && s3.log[0].nonce == s3.log[1].nonce;
  }

  // ----- Double-checked locking -----

  /** A task with a write guard shares the lock with nobody, in every reachable state. */
  lemma MutualExclusion(ls: seq<Label>, t: TaskId, u: TaskId)
    requires Run(Init, ls) && WriteGuard(PcOf(Exec(Init, ls), t)) && Guarded(PcOf(Exec(Init, ls), u))
    ensures t == u
  {
    InitInv();
    InvRun(Init, ls);
    SoleWriter(Exec(Init, ls), t, u);
  }

  /** No insert ever overwrites an entry; and while any task is between its fetch_add or insert and
      its return, its entry is present, still in the ticket's epoch, and no removal can happen. */
  lemma DoubleCheckSound(ls: seq<Label>, l: Label, u: TaskId)
    requires Run(Init, ls) && Enabled(Exec(Init, ls), l)
    ensures var s := Exec(Init, ls);
      && (l.Fill? ==> PcOf(s, l.task).key !in s.cache)
      && (HasTicket(PcOf(s, u)) ==>
            && PcOf(s, u).i < |s.log|
            && PcOf(s, u).key in s.cache
            && s.log[PcOf(s, u).i].epoch == CurrentEpoch(s, PcOf(s, u).key)
            && !l.Remove? && !l.Fill?)
  {
    InitInv();
    InvRun(Init, ls);
    var s := Exec(Init, ls);
    assert TaskInv(s, u);
    if l.Fill? { assert TaskInv(s, l.task); }
    if (l.Remove? || l.Fill?) && HasTicket(PcOf(s, u)) { SoleWriter(s, l.task, u); }
  }

  /** How many successful access-key queries for `k` a run contains. */
  function Queries(s: State, ls: seq<Label>, k: CacheKey): nat
    requires Run(s, ls)
    decreases |ls|
  {
    if ls == [] then 0
    else (if ls[0].Fill? && PcOf(s, ls[0].task).key == k then 1 else 0) + Queries(Step(s, ls[0]), ls[1..], k)
  }

  /** Each epoch is opened by exactly one successful access-key query, and nothing else inserts. */
  lemma {:induction false} OneQueryPerEpoch(s: State, ls: seq<Label>, k: CacheKey)
    requires Run(s, ls)
    ensures |BasesOf(Exec(s, ls), k)| == |BasesOf(s, k)| + Queries(s, ls, k)
    ensures k in Exec(s, ls).cache && k !in s.cache ==> Queries(s, ls, k) > 0
    decreases |ls|
  {
    if ls != [] {
      var s' := Step(s, ls[0]);
      OneQueryPerEpoch(s', ls[1..], k);
      assert |BasesOf(s', k)| == |BasesOf(s, k)| + (if ls[0].Fill? && PcOf(s, ls[0].task).key == k then 1 else 0);
    }
  }

  /** Labels of other tasks that stay outside the cache: they call, queue up, or are dropped from the
      queue; and moves of the chain. */
  predicate Outside(l: Label, t: TaskId) {
    l.Advance? || (l.task != t && (l.CallFetch? || l.CallInvalidate? || l.Requeue? || l.Drop?))
  }

  lemma OnlyOutside(s: State, l: Label, t: TaskId)
    requires Inv(s) && Enabled(s, l) && Querying(PcOf(s, t)) && (l.Advance? || l.task != t)
    ensures Outside(l, t) && PcOf(Step(s, l), t) == PcOf(s, t)
    ensures Step(s, l).cache == s.cache && Step(s, l).log == s.log && Step(s, l).bases == s.bases
  {
    if !l.Advance? {
      assert GuardInv(s, l.task) && GuardInv(s, t);
      if Guarded(PcOf(s, l.task)) { SoleWriter(s, t, l.task); }
    }
  }

  /** While a task's access-key query is under way, no other task gets to look at the cache. */
  lemma {:induction false} FrozenWhileQuerying(s: State, ls: seq<Label>, t: TaskId)
    requires Inv(s) && Run(s, ls) && Querying(PcOf(s, t))
    requires forall i :: 0 <= i < |ls| ==> ls[i].Advance? || ls[i].task != t
    ensures forall i :: 0 <= i < |ls| ==> Outside(ls[i], t)
    ensures var s' := Exec(s, ls);
      && PcOf(s', t) == PcOf(s, t) && s'.cache == s.cache && s'.log == s.log && s'.bases == s.bases
    decreases |ls|
  {
    if ls != [] {
      OnlyOutside(s, ls[0], t);
      InvStep(s, ls[0]);
      FrozenWhileQuerying(Step(s, ls[0]), ls[1..], t);
    }
  }

  lemma QueriesVacant(s: State, t: TaskId)
    requires Inv(s) && Querying(PcOf(s, t))
    ensures PcOf(s, t).key !in s.cache
  {
    assert TaskInv(s, t);
  }

  lemma LoadsAndFills(s: State, t: TaskId, k: CacheKey)
    requires PcOf(s, t) == Query(k)
    ensures var a := Step(s, Load(t));
      && PcOf(a, t) == Loaded(k, ChainOf(s, k))
      && a.cache == s.cache && a.bases == s.bases
  {
  }

  lemma FillsNext(s: State, t: TaskId, k: CacheKey)
    requires PcOf(s, t).Loaded? && PcOf(s, t).key == k && PcOf(s, t).read + 1 < U64
    ensures Enabled(s, Fill(t))
    ensures var b := Step(s, Fill(t)); var read := PcOf(s, t).read;
      BasesOf(b, k) == BasesOf(s, k) + [read] && b.cache == s.cache[k := read + 1]
  {
  }

  /** Over every run: from the node's reading of a key's nonce to the insert of the answer, no other task
      loads or inserts anything, and the insert opens the next epoch of the key with the nonce read. */
  lemma QueryOpensEpoch(ls: seq<Label>, t: TaskId, k: CacheKey, meanwhile: seq<Label>)
    requires Run(Init, ls) && PcOf(Exec(Init, ls), t) == Query(k)
    requires Run(Step(Exec(Init, ls), Load(t)), meanwhile)
    requires forall i :: 0 <= i < |meanwhile| ==> meanwhile[i].Advance? || meanwhile[i].task != t
    requires ChainOf(Exec(Init, ls), k) + 1 < U64
    ensures forall i :: 0 <= i < |meanwhile| ==> Outside(meanwhile[i], t)
    ensures var s := Exec(Init, ls); var read := ChainOf(s, k); var b := Exec(Step(s, Load(t)), meanwhile);
      && k !in s.cache && Enabled(b, Fill(t))
      && BasesOf(Step(b, Fill(t)), k) == BasesOf(s, k) + [read]
      && Step(b, Fill(t)).cache == s.cache[k := read + 1]
  {
    InitInv();
    InvRun(Init, ls);
    hide Inv, Run, Exec;
    var s := Exec(Init, ls);
    QueriesVacant(s, t);
    InvStep(s, Load(t));
    LoadsAndFills(s, t, k);
    FrozenWhileQuerying(Step(s, Load(t)), meanwhile, t);
    FillsNext(Exec(Step(s, Load(t)), meanwhile), t, k);
  }
}
