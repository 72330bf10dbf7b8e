/** What a call to the cache comes to when the moves of the others at its awaits are given: where the
    lock admits the task, what it finds there, what it answers, and the state it leaves.

    The functions follow a call through the steps of the nonce protocol; what they mean is said by the
    lemmas below and by the contracts of the methods that are proved against them. */
module Waits {
  import opened Types
  import opened NonceProtocol

  // ----- The environment -----

  /** Nonces have room for `n` more below the word size; the environment is assumed to keep it. */
  predicate Spacious(s: State, n: nat) {
    && n < U64
    && (forall k :: k in s.cache ==> s.cache[k] + n < U64)
    && (forall k :: k in s.chain ==> s.chain[k] + n < U64)
    && (forall t :: t in s.pcs && s.pcs[t].Loaded? ==> s.pcs[t].read + n < U64)
  }

  lemma LessRoom(s: State, n: nat)
    requires Spacious(s, n + 1)
    ensures Spacious(s, n)
  {
  }

  /** A step of a task takes up room for one nonce at most. */
  lemma KeepsRoom(s: State, l: Label, n: nat)
    requires Enabled(s, l) && !l.Advance?
    ensures Spacious(s, n + 1) ==> Spacious(Step(s, l), n)
    ensures Spacious(s, n) && !l.Hit? && !l.Fill? ==> Spacious(Step(s, l), n)
  {
    var s' := Step(s, l);
    assert forall t :: t in s'.pcs && t != l.task ==> t in s.pcs && s'.pcs[t] == s.pcs[t];
  }

  predicate Foreign(l: Label, me: TaskId) { l.Advance? || l.task != me }

  /** Those of the given moves take place that can, are not the task's own, and keep the room for nonces. */
  predicate Allowed(s: State, l: Label, me: TaskId, room: nat) {
    Foreign(l, me) && Enabled(s, l) && Spacious(Step(s, l), room)
  }

  /** Where an interleaving point leads. */
  function Moved(s: State, moves: seq<Label>, me: TaskId, room: nat): State {
    if moves == [] then s
    else
      var before, l := Moved(s, moves[..|moves| - 1], me, room), moves[|moves| - 1];
      if Allowed(before, l, me, room) then Step(before, l) else before
  }

  // ----- Waiting for the lock -----

  /** A step that is taken if it can be. */
  function Then(s: State, l: Label): State { if Enabled(s, l) then Step(s, l) else s }

  /** Whether the lock admits a waiting task, the state in which it does so or in which the rounds are
      used up, and the rounds that are left. */
  datatype Waited = Waited(granted: bool, at: State, rest: seq<seq<Label>>)

  /** A wait ends as soon as the lock can admit the task, at once or after some of the rounds. */
  function WaitEnds(s: State, rounds: seq<seq<Label>>, me: TaskId, room: nat): Waited
    decreases |rounds|
  {
    if Enabled(s, Grant(me)) then Waited(true, s, rounds)
    else if rounds == [] then Waited(false, s, [])
    else WaitEnds(Moved(s, rounds[0], me, room), rounds[1..], me, room)
  }

  /** All of the rounds, one after another. */
  function AfterRounds(s: State, rounds: seq<seq<Label>>, me: TaskId, room: nat): State
    decreases |rounds|
  {
    if rounds == [] then s else AfterRounds(Moved(s, rounds[0], me, room), rounds[1..], me, room)
  }

  /** After this many rounds the lock can admit the task. */
  predicate Admits(s: State, rounds: seq<seq<Label>>, i: int, me: TaskId, room: nat) {
    0 <= i <= |rounds| && Enabled(AfterRounds(s, rounds[..i], me, room), Grant(me))
  }

  lemma AdmitsLater(s: State, rounds: seq<seq<Label>>, i: int, me: TaskId, room: nat)
    requires rounds != []
    ensures Admits(s, rounds, 0, me, room) <==> Enabled(s, Grant(me))
    ensures i >= 1 ==>
      (Admits(s, rounds, i, me, room) <==> Admits(Moved(s, rounds[0], me, room), rounds[1..], i - 1, me, room))
  {
    hide Enabled, Moved;
    assert rounds[..0] == [];
    if 1 <= i <= |rounds| { assert rounds[..i][0] == rounds[0] && rounds[..i][1..] == rounds[1..][..i - 1]; }
  }

  lemma AdmitsNow(s: State, me: TaskId, room: nat)
    ensures forall i :: Admits(s, [], i, me, room) <==> i == 0 && Enabled(s, Grant(me))
  {
  }

  lemma AdmitsNatural(s: State, rounds: seq<seq<Label>>, i: int, me: TaskId, room: nat)
    requires i < 0
    ensures !Admits(s, rounds, i, me, room)
  {
  }

  /** A task is admitted exactly when some number of rounds leads to a state in which the lock can admit
      it; the wait ends in the first such state, and the other rounds are left. */
  lemma {:induction false} WaitMeans(s: State, rounds: seq<seq<Label>>, me: TaskId, room: nat)
    ensures var w := WaitEnds(s, rounds, me, room);
      && (w.granted <==> exists i :: Admits(s, rounds, i, me, room))
      && |w.rest| <= |rounds|
      && var n := |rounds| - |w.rest|;
        && w.rest == rounds[n..] && w.at == AfterRounds(s, rounds[..n], me, room)
        && (w.granted ==> Admits(s, rounds, n, me, room) && forall i :: i < n ==> !Admits(s, rounds, i, me, room))
        && (!w.granted ==> w.rest == [])
    decreases |rounds|
  {
    hide Enabled, Moved, Admits;
    assert rounds[..0] == [] && rounds[|rounds|..] == [] && rounds[..|rounds|] == rounds;
    if rounds == [] {
      AdmitsNow(s, me, room);
      assert Admits(s, rounds, 0, me, room) <==> Enabled(s, Grant(me));
    } else {
      var s', tail := Moved(s, rounds[0], me, room), rounds[1..];
      AdmitsLater(s, rounds, 0, me, room);
      if !Enabled(s, Grant(me)) {
        WaitMeans(s', tail, me, room);
        var n := |tail| - |WaitEnds(s', tail, me, room).rest|;
        assert rounds[n + 1..] == tail[n..] && rounds[..n + 1][0] == rounds[0] && rounds[..n + 1][1..] == tail[..n];
        forall i ensures Admits(s, rounds, i, me, room) <==> Admits(s', tail, i - 1, me, room) {
          AdmitsLater(s, rounds, i, me, room);
          if i < 1 { AdmitsNatural(s', tail, i - 1, me, room); }
          if i < 0 { AdmitsNatural(s, rounds, i, me, room); }
        }
        if k :| Admits(s', tail, k, me, room) { assert Admits(s, rounds, k + 1, me, room); }
      } else {
        forall i | i < 0 ensures !Admits(s, rounds, i, me, room) { AdmitsNatural(s, rounds, i, me, room); }
      }
    }
  }

  // ----- A fetch -----

  /** How an RPC goes: the node answers, the call fails, the answer is not the one asked for, or the
      task is dropped while it waits. */
  datatype Rpc = Answered | Failed | Malformed | Cancelled

  function First(rounds: seq<seq<Label>>): seq<Label> { if rounds == [] then [] else rounds[0] }

  function Second(rounds: seq<seq<Label>>): seq<Label> { if |rounds| < 2 then [] else rounds[1] }

  /** How the call leaves the cache. */
  function Exit(rpc: Rpc, me: TaskId): Label {
    if rpc.Answered? then Return(me) else if rpc.Cancelled? then Drop(me) else Fail(me)
  }

  /** From a guard on a present entry: draw, query a block, leave. */
  function HitEnds(s: State, rounds: seq<seq<Label>>, me: TaskId, rpc: Rpc, room: nat): State {
    Then(Moved(Then(s, Hit(me)), First(rounds), me, room), Exit(rpc, me))
  }

  /** From a guard on a vacant entry: the query is out. */
  function Asked(s: State, rounds: seq<seq<Label>>, me: TaskId, room: nat): State {
    Moved(Then(s, Vacant(me)), First(rounds), me, room)
  }

  /** The node has read the nonce and its answer is here. */
  function Learnt(s: State, rounds: seq<seq<Label>>, me: TaskId, room: nat): State {
    Moved(Then(s, Load(me)), Second(rounds), me, room)
  }

  /** From a guard on a vacant entry to the end of the call. */
  function FillEnds(s: State, rounds: seq<seq<Label>>, me: TaskId, rpc: Rpc, room: nat): State {
    var asked := Asked(s, rounds, me, room);
    if rpc.Answered? then Then(Then(Learnt(asked, rounds, me, room), Fill(me)), Return(me))
    else Then(asked, Exit(rpc, me))
  }

  function EntryEnds(s: State, key: CacheKey, rounds: seq<seq<Label>>, me: TaskId, rpc: Rpc, room: nat): State {
    if key in s.cache then HitEnds(s, rounds, me, rpc, room) else FillEnds(s, rounds, me, rpc, room + 1)
  }

  /** The miss: the read guard is dropped and the write guard asked for. */
  function Requeued(s: State, me: TaskId): State { Then(Then(s, Miss(me)), Requeue(me)) }

  /** The wait after which a fetch looks at the entry for the last time: that for the read guard if the
      entry is present then, else that for the write guard. */
  function LastLook(s: State, me: TaskId, key: CacheKey, rounds: seq<seq<Label>>, room: nat): Waited {
    var w := WaitEnds(Then(s, CallFetch(me, key)), rounds, me, room);
    if !w.granted || key in w.at.cache then w
    else WaitEnds(Requeued(Then(w.at, Grant(me)), me), w.rest, me, room)
  }

  function LookEnds(look: Waited, me: TaskId, key: CacheKey, rpc: Rpc, room: nat): State {
    if look.granted then EntryEnds(Then(look.at, Grant(me)), key, look.rest, me, rpc, room)
    else Then(look.at, Drop(me))
  }

  function FetchEnds(s: State, me: TaskId, key: CacheKey, rounds: seq<seq<Label>>, rpc: Rpc, room: nat): State {
    LookEnds(LastLook(s, me, key, rounds, room + 1), me, key, rpc, room)
  }

  /** What a fetch answers by the entry that its last look finds, if nobody moves the chain meanwhile. */
  function Quoted(s: State, key: CacheKey, rpc: Rpc): Result<nat, Error> {
    match rpc
    case Answered => Ok((if key in s.cache then s.cache[key] else ChainOf(s, key)) + 1)
    case Failed => Err(if key in s.cache then RpcBlockError else RpcQueryError)
    case Malformed => Err(if key in s.cache then RpcBlockError else RpcReturnedInvalidData)
    case Cancelled => Err(Dropped)
  }

  /** The answer of a fetch: it is dropped if the lock does not admit it; else its RPC decides whether it
      gets a nonce, which is above the cached one, or above the chain's for a vacant entry. */
  ghost predicate Answers(look: Waited, key: CacheKey, rpc: Rpc, r: Result<nat, Error>) {
    if !look.granted then r == Err(Dropped)
    else
      && (r.Ok? <==> rpc.Answered?)
      && (r.Err? || key in look.at.cache || look.rest == [] ==> r == Quoted(look.at, key, rpc))
      && (r.Ok? && key !in look.at.cache ==> ChainOf(look.at, key) < r.value)
  }

  /** Unless its RPC is cut off, a fetch is dropped if and only if one of its two waits is in vain. */
  lemma DroppedIff(s: State, me: TaskId, key: CacheKey, rounds: seq<seq<Label>>, rpc: Rpc, room: nat,
                  r: Result<nat, Error>)
    requires Answers(LastLook(s, me, key, rounds, room), key, rpc, r) && !rpc.Cancelled?
    ensures var first := WaitEnds(Then(s, CallFetch(me, key)), rounds, me, room);
      r == Err(Dropped) <==>
        || !first.granted
        || (key !in first.at.cache && !WaitEnds(Requeued(Then(first.at, Grant(me)), me), first.rest, me, room).granted)
  {
  }

  // ----- A removal -----

  function RemovalEnds(w: Waited, me: TaskId): State {
    if w.granted then Then(Then(Then(w.at, Grant(me)), Remove(me)), Return(me)) else Then(w.at, Drop(me))
  }

  function RemovalWait(s: State, me: TaskId, key: CacheKey, rounds: seq<seq<Label>>, room: nat): Waited {
    WaitEnds(Then(s, CallInvalidate(me, key)), rounds, me, room)
  }

  /** How many of `n` removals in a row take place: they go on until one is not admitted. */
  function Removals(s: State, me: TaskId, key: CacheKey, n: nat, rounds: seq<seq<Label>>, room: nat): nat
    decreases n
  {
    var w := RemovalWait(s, me, key, rounds, room);
    if n == 0 || !w.granted then 0 else 1 + Removals(RemovalEnds(w, me), me, key, n - 1, w.rest, room)
  }

  function RemovalsEnd(s: State, me: TaskId, key: CacheKey, n: nat, rounds: seq<seq<Label>>, room: nat): State
    decreases n
  {
    var w := RemovalWait(s, me, key, rounds, room);
    if n == 0 then s
    else if !w.granted then RemovalEnds(w, me)
    else RemovalsEnd(RemovalEnds(w, me), me, key, n - 1, w.rest, room)
  }

  /** One removal more. */
  lemma RemovalsNext(s: State, me: TaskId, key: CacheKey, n: nat, rounds: seq<seq<Label>>, room: nat)
    requires n > 0
    ensures var w := RemovalWait(s, me, key, rounds, room); var s' := RemovalEnds(w, me);
      if w.granted then
        && Removals(s, me, key, n, rounds, room) == 1 + Removals(s', me, key, n - 1, w.rest, room)
        && RemovalsEnd(s, me, key, n, rounds, room) == RemovalsEnd(s', me, key, n - 1, w.rest, room)
      else Removals(s, me, key, n, rounds, room) == 0 && RemovalsEnd(s, me, key, n, rounds, room) == s'
  {
  }

  lemma NoRemovals(s: State, me: TaskId, key: CacheKey, rounds: seq<seq<Label>>, room: nat)
    ensures Removals(s, me, key, 0, rounds, room) == 0 && RemovalsEnd(s, me, key, 0, rounds, room) == s
  {
  }

  // ----- A free lock -----

  predicate Free(lock: Lock) { lock == Lock({}, None, []) }

  /** A task that queues for a free lock is admitted at once, and leaves the lock free again. */
  lemma Uncontended(s: State, me: TaskId, rounds: seq<seq<Label>>, room: nat)
    requires s.lock == Lock({}, None, [me]) && Waiting(PcOf(s, me))
    ensures WaitEnds(s, rounds, me, room) == Waited(true, s, rounds)
    ensures var s' := Then(s, Grant(me));
      && s'.lock == (if PcOf(s, me).WaitRead? then Lock({me}, None, []) else Lock({}, Some(me), []))
      && PcOf(s', me) == Admitted(PcOf(s, me))
      && s'.cache == s.cache && s'.chain == s.chain
      && Free(Release(s'.lock, me))
  {
  }

  lemma RequeuedAlone(s: State, me: TaskId, key: CacheKey)
    requires s.lock == Lock({me}, None, []) && PcOf(s, me) == ReadHeld(key) && key !in s.cache
    ensures var s' := Requeued(s, me);
      && s'.lock == Lock({}, None, [me]) && PcOf(s', me) == WaitWrite(key)
      && s'.cache == s.cache && s'.chain == s.chain
  {
  }

  /** From a free lock a fetch is served, with the cache as it is. */
  lemma LooksFree(s: State, me: TaskId, key: CacheKey, rounds: seq<seq<Label>>, room: nat)
    requires Free(s.lock) && PcOf(s, me).Idle?
    ensures var look := LastLook(s, me, key, rounds, room);
      && look.granted && look.rest == rounds && look.at.cache == s.cache && look.at.chain == s.chain
      && look.at.lock == Lock({}, None, [me])
      && PcOf(look.at, me) == if key in s.cache then WaitRead(key) else WaitWrite(key)
  {
    hide WaitEnds, Requeued;
    var a := Then(s, CallFetch(me, key));
    Uncontended(a, me, rounds, room);
    if key !in s.cache {
      var b := Then(a, Grant(me));
      RequeuedAlone(b, me, key);
      Uncontended(Requeued(b, me), me, rounds, room);
    }
  }

  /** The cache that an undisturbed fetch leaves: a nonce is burned when the block query goes wrong, and
      a vacant entry stays vacant when the access-key query does. */
  function CacheAfter(s: State, key: CacheKey, rpc: Rpc): map<CacheKey, nat> {
    if rpc.Answered? || key in s.cache then s.cache[key := Quoted(s, key, Answered).value] else s.cache
  }

  lemma HitAlone(s: State, me: TaskId, key: CacheKey, rpc: Rpc, room: nat)
    requires (s.lock == Lock({me}, None, []) && PcOf(s, me) == ReadHeld(key))
          || (s.lock == Lock({}, Some(me), []) && PcOf(s, me) == WriteHeld(key))
    requires key in s.cache && s.cache[key] + 1 < U64
    ensures var s' := HitEnds(s, [], me, rpc, room);
      Free(s'.lock) && s'.chain == s.chain && s'.cache == s.cache[key := s.cache[key] + 1]
  {
    var a := Then(s, Hit(me));
    assert a.lock == s.lock && HasTicket(PcOf(a, me)) && AtAwait(PcOf(a, me));
  }

  lemma QueryAlone(s: State, me: TaskId, key: CacheKey)
    requires PcOf(s, me) == WriteHeld(key) && key !in s.cache
    ensures Then(s, Vacant(me)) == s.(pcs := s.pcs[me := Query(key)])
    ensures Then(Then(s, Vacant(me)), Load(me)) ==
      s.(pcs := s.pcs[me := Query(key)][me := Loaded(key, ChainOf(s, key))])
  {
  }

  lemma InsertAlone(s: State, me: TaskId, key: CacheKey, read: nat)
    requires s.lock == Lock({}, Some(me), []) && PcOf(s, me) == Loaded(key, read) && read + 1 < U64
    ensures var s' := Then(Then(s, Fill(me)), Return(me));
      Free(s'.lock) && s'.chain == s.chain && s'.cache == s.cache[key := read + 1]
  {
    var a := Then(s, Fill(me));
    assert a.lock == s.lock && PcOf(a, me).Filled?;
  }

  lemma FillAlone(s: State, me: TaskId, key: CacheKey, rpc: Rpc, room: nat)
    requires s.lock == Lock({}, Some(me), []) && PcOf(s, me) == WriteHeld(key) && key !in s.cache
    requires ChainOf(s, key) + 1 < U64
    ensures var s' := FillEnds(s, [], me, rpc, room);
      && Free(s'.lock) && s'.chain == s.chain
      && s'.cache == if rpc.Answered? then s.cache[key := ChainOf(s, key) + 1] else s.cache
  {
    QueryAlone(s, me, key);
    if rpc.Answered? {
      InsertAlone(s.(pcs := s.pcs[me := Query(key)][me := Loaded(key, ChainOf(s, key))]), me, key, ChainOf(s, key));
    }
  }

  /** And if nobody moves, it leaves the lock free and the cache as it should be. */
  lemma FetchAlone(s: State, me: TaskId, key: CacheKey, rpc: Rpc, room: nat)
    requires Free(s.lock) && PcOf(s, me).Idle? && Spacious(s, room + 1)
    ensures var s' := FetchEnds(s, me, key, [], rpc, room);
      Free(s'.lock) && s'.chain == s.chain && s'.cache == CacheAfter(s, key, rpc)
  {
    hide WaitEnds, LastLook, HitEnds, FillEnds;
    var look := LastLook(s, me, key, [], room + 1);
    LooksFree(s, me, key, [], room + 1);
    Uncontended(look.at, me, [], room + 1);
    var g := Then(look.at, Grant(me));
    if key in s.cache { HitAlone(g, me, key, rpc, room); } else { FillAlone(g, me, key, rpc, room + 1); }
  }

  /** From a free lock a removal takes place, and nothing else happens. */
  lemma RemovalAlone(s: State, me: TaskId, key: CacheKey, rounds: seq<seq<Label>>, room: nat)
    requires Free(s.lock) && PcOf(s, me).Idle?
    ensures var w := RemovalWait(s, me, key, rounds, room); var s' := RemovalEnds(w, me);
      w.granted && w.rest == rounds && Free(s'.lock) && s'.chain == s.chain && s'.cache == s.cache - {key}
      && PcOf(s', me).Idle?
  {
    hide WaitEnds;
    var a := Then(s, CallInvalidate(me, key));
    Uncontended(a, me, rounds, room);
    var b := Then(a, Grant(me));
    var c := Then(b, Remove(me));
    assert c.lock == Lock({}, Some(me), []) && PcOf(c, me) == Removed(key);
  }

  /** From a free lock all removals take place, with the effect of one. */
  lemma {:induction false} RemovalsAlone(s: State, me: TaskId, key: CacheKey, n: nat, rounds: seq<seq<Label>>,
                                         room: nat)
    requires Free(s.lock) && PcOf(s, me).Idle?
    ensures Removals(s, me, key, n, rounds, room) == n
    ensures var s' := RemovalsEnd(s, me, key, n, rounds, room);
      && Free(s'.lock) && s'.chain == s.chain && PcOf(s', me).Idle?
      && s'.cache == if n > 0 then s.cache - {key} else s.cache
    decreases n
  {
    hide RemovalWait, RemovalEnds;
    if n > 0 {
      var w := RemovalWait(s, me, key, rounds, room);
      RemovalAlone(s, me, key, rounds, room);
      RemovalsAlone(RemovalEnds(w, me), me, key, n - 1, w.rest, room);
      assert s.cache - {key} - {key} == s.cache - {key};
    }
  }
}
