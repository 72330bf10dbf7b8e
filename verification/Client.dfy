/** The client's own methods, written with the awaits of the source as the points at which other tasks
    move, and proved to be runs of the nonce protocol.

    What the environment does is a parameter: `rounds[i]` lists the moves of other tasks and of the
    chain at the `i`-th wait, and a task still waiting for the lock when they run out is dropped. Each
    method is also proved to leave exactly the state, and give exactly the answer, that `Waits` says. */
module Client {
  import opened Types
  import opened Outcome
  import opened Signer
  import opened N = NonceProtocol
  import opened Waits
  import I = NonceInvariant

  /** A run of labels leads from one state to the other. */
  ghost predicate Follows(a: State, trace: seq<Label>, b: State) { Run(a, trace) && Exec(a, trace) == b }

  /** The keys whose entries the task removes in a run, in order. */
  ghost function RemovedKeys(a: State, trace: seq<Label>, me: TaskId): seq<CacheKey>
    requires Run(a, trace)
    decreases |trace|
  {
    if trace == [] then []
    else (if trace[0] == Remove(me) then [PcOf(a, me).key] else []) + RemovedKeys(Step(a, trace[0]), trace[1..], me)
  }

  lemma {:induction false} RemovedConcat(a: State, t1: seq<Label>, t2: seq<Label>, me: TaskId)
    requires Run(a, t1) && Run(Exec(a, t1), t2) && Run(a, t1 + t2)
    ensures RemovedKeys(a, t1 + t2, me) == RemovedKeys(a, t1, me) + RemovedKeys(Exec(a, t1), t2, me)
    decreases |t1|
  {
    hide Step, Enabled;
    if t1 == [] {
      assert t1 + t2 == t2;
    } else {
      assert (t1 + t2)[0] == t1[0] && (t1 + t2)[1..] == t1[1..] + t2;
      RemovedConcat(Step(a, t1[0]), t1[1..], t2, me);
    }
  }

  lemma Extend(a: State, t1: seq<Label>, b: State, t2: seq<Label>, c: State, me: TaskId)
    requires Follows(a, t1, b) && Follows(b, t2, c)
    ensures Follows(a, t1 + t2, c)
    ensures RemovedKeys(a, t1 + t2, me) == RemovedKeys(a, t1, me) + RemovedKeys(b, t2, me)
  {
    RunConcat(a, t1, t2);
    RemovedConcat(a, t1, t2, me);
  }

  ghost predicate AllForeign(trace: seq<Label>, me: TaskId) { forall i :: 0 <= i < |trace| ==> Foreign(trace[i], me) }

  /** What the moves of others leave alone. */
  lemma {:induction false} ForeignMoves(a: State, trace: seq<Label>, me: TaskId)
    requires Run(a, trace) && AllForeign(trace, me)
    ensures PcOf(Exec(a, trace), me) == PcOf(a, me) && RemovedKeys(a, trace, me) == []
    decreases |trace|
  {
    if trace != [] { ForeignMoves(Step(a, trace[0]), trace[1..], me); }
  }

  lemma {:induction false} OnlyGrows(a: State, trace: seq<Label>, k: CacheKey)
    requires Run(a, trace)
    ensures a.log <= Exec(a, trace).log && ChainOf(a, k) <= ChainOf(Exec(a, trace), k)
    decreases |trace|
  {
    if trace != [] {
      I.Grows(a, trace[0], k);
      OnlyGrows(Step(a, trace[0]), trace[1..], k);
    }
  }

  /** The guard changes nothing about the entry. */
  lemma AnswersAfterGrant(look: Waited, held: State, key: CacheKey, rpc: Rpc, r: Result<nat, Error>)
    requires look.granted && held.cache == look.at.cache && held.chain == look.at.chain
    requires Answers(Waited(true, held, look.rest), key, rpc, r)
    ensures Answers(look, key, rpc, r)
  {
  }

  lemma HitAnswers(look: Waited, held: State, key: CacheKey, rpc: Rpc, r: Result<nat, Error>,
                   rounds: seq<seq<Label>>, me: TaskId, room: nat)
    requires look.granted && held.cache == look.at.cache && key in held.cache
    requires match rpc
      case Answered => r == Ok(held.cache[key] + 1)
      case Cancelled => r == Err(Dropped)
      case _ => r == Err(RpcBlockError)
    ensures Answers(look, key, rpc, r)
    ensures EntryEnds(held, key, rounds, me, rpc, room) == HitEnds(held, rounds, me, rpc, room)
  {
  }

  lemma FreeFetch(s: State, me: TaskId, key: CacheKey, rounds: seq<seq<Label>>, rpc: Rpc, room: nat)
    requires PcOf(s, me).Idle? && Spacious(s, room + 1)
    ensures Free(s.lock) ==> var look := LastLook(s, me, key, rounds, room + 1);
      && look.granted && look.rest == rounds && (key in look.at.cache <==> key in s.cache)
      && ChainOf(look.at, key) == ChainOf(s, key) && Quoted(look.at, key, rpc) == Quoted(s, key, rpc)
    ensures Free(s.lock) && rounds == [] ==> var s' := FetchEnds(s, me, key, rounds, rpc, room);
      Free(s'.lock) && s'.chain == s.chain && s'.cache == CacheAfter(s, key, rpc)
  {
    hide LastLook, FetchEnds, CacheAfter, Spacious;
    if Free(s.lock) {
      LooksFree(s, me, key, rounds, room + 1);
      if rounds == [] { FetchAlone(s, me, key, rpc, room); }
    }
  }

  lemma HoldsTicket(s: State, me: TaskId)
    requires I.Inv(s) && HasTicket(PcOf(s, me))
    ensures var pc := PcOf(s, me);
      pc.i < |s.log| == |s.fates| && s.log[pc.i].task == me && s.log[pc.i].key == pc.key
  {
    assert I.TaskInv(s, me);
  }

  /** A ticket of the task drawn since the log had length `from`. */
  ghost predicate Drew(s: State, from: nat, me: TaskId, key: CacheKey, nonce: nat, fate: Fate) {
    exists i :: from <= i < |s.log| == |s.fates| && s.log[i].key == key && s.log[i].nonce == nonce
      && s.log[i].task == me && s.fates[i] == fate
  }

  lemma ReturnedStep(a: State, l: Label, i: nat)
    requires I.Inv(a) && Enabled(a, l) && i < |a.log| == |a.fates| && a.fates[i] == Returned
    ensures var b := Step(a, l);
      |b.log| == |b.fates| && i < |b.log| && b.log[i] == a.log[i] && b.fates[i] == Returned
  {
    if !l.Advance? { assert I.TaskInv(a, l.task); }
  }

  /** A ticket once returned stays so. */
  lemma {:induction false} ReturnedStays(a: State, trace: seq<Label>, i: nat)
    requires I.Inv(a) && Run(a, trace) && i < |a.log| == |a.fates| && a.fates[i] == Returned
    ensures var b := Exec(a, trace);
      |b.log| == |b.fates| && i < |b.log| && b.log[i] == a.log[i] && b.fates[i] == Returned
    decreases |trace|
  {
    if trace != [] {
      ReturnedStep(a, trace[0], i);
      I.InvStep(a, trace[0]);
      ReturnedStays(Step(a, trace[0]), trace[1..], i);
    } else {
      assert I.TicketInv(a);
    }
  }

  lemma DrewStays(a: State, trace: seq<Label>, b: State, from: nat, me: TaskId, key: CacheKey, nonce: nat)
    requires I.Inv(a) && Follows(a, trace, b) && Drew(a, from, me, key, nonce, Returned)
    ensures Drew(b, from, me, key, nonce, Returned)
  {
    var i :| from <= i < |a.log| == |a.fates| && a.log[i].key == key && a.log[i].nonce == nonce
      && a.log[i].task == me && a.fates[i] == Returned;
    ReturnedStays(a, trace, i);
  }

  lemma DrewSince(s: State, from: nat, later: nat, me: TaskId, key: CacheKey, nonce: nat, fate: Fate)
    requires from <= later && Drew(s, later, me, key, nonce, fate)
    ensures Drew(s, from, me, key, nonce, fate)
  {
  }

  /** A step taken by hand is a step of the protocol when it leads to the same state. */
  lemma Took(before: State, l: Label, after: State, me: TaskId, room: nat, start: State, sofar: seq<Label>)
    requires I.Inv(before) && Enabled(before, l) && after == Step(before, l) && Follows(start, sofar, before)
    ensures I.Inv(after) && Follows(start, sofar + [l], after)
    ensures RemovedKeys(start, sofar + [l], me) ==
      RemovedKeys(start, sofar, me) + (if l == Remove(me) then [PcOf(before, me).key] else [])
    ensures Spacious(before, room + 1) && !l.Advance? ==> Spacious(after, room)
    ensures Spacious(before, room) && !l.Advance? && !l.Hit? && !l.Fill? ==> Spacious(after, room)
  {
    I.InvStep(before, l);
    if !l.Advance? { KeepsRoom(before, l, room); }
    assert [l][1..] == [];
    Extend(start, sofar, before, [l], after, me);
  }

  // ----- Dropped tasks -----

  /** The run ends with the task dropped where it waits for a guard that it cannot be given yet. */
  ghost predicate GaveUp(a: State, trace: seq<Label>, me: TaskId) {
    && trace != [] && trace[|trace| - 1] == Drop(me)
    && exists b :: Follows(a, trace[..|trace| - 1], b) && Waiting(PcOf(b, me)) && !Enabled(b, Grant(me))
  }

  /** The run ends with the task dropped in the middle of an RPC. */
  ghost predicate CutOff(a: State, trace: seq<Label>, me: TaskId) {
    && trace != [] && trace[|trace| - 1] == Drop(me)
    && exists b :: Follows(a, trace[..|trace| - 1], b) && AtAwait(PcOf(b, me)) && !Waiting(PcOf(b, me))
  }

  lemma DroppedThere(a: State, trace: seq<Label>, b: State, me: TaskId)
    requires Follows(a, trace, b) && AtAwait(PcOf(b, me))
    ensures Waiting(PcOf(b, me)) && !Enabled(b, Grant(me)) ==> GaveUp(a, trace + [Drop(me)], me)
    ensures !Waiting(PcOf(b, me)) ==> CutOff(a, trace + [Drop(me)], me)
  {
    assert (trace + [Drop(me)])[..|trace|] == trace;
  }

  lemma GaveUpLater(a: State, t1: seq<Label>, b: State, t2: seq<Label>, me: TaskId)
    requires Follows(a, t1, b) && GaveUp(b, t2, me)
    ensures GaveUp(a, t1 + t2, me)
  {
    var before := t2[..|t2| - 1];
    var c :| Follows(b, before, c) && Waiting(PcOf(c, me)) && !Enabled(c, Grant(me));
    RunConcat(a, t1, before);
    assert (t1 + t2)[..|t1 + t2| - 1] == t1 + before;
    assert Follows(a, t1 + before, c);
  }

  class Client {
    var lock: Lock
    var nonces: map<CacheKey, nat>
    // The node and the other tasks.
    var chain: map<CacheKey, nat>
    var pcs: map<TaskId, Pc>
    // History.
    var log: seq<Ticket>
    var fates: seq<Fate>
    var bases: map<CacheKey, seq<nat>>

    function World(): State
      reads this
    {
      State(lock, nonces, chain, pcs, log, fates, bases)
    }

    ghost predicate Valid()
      reads this
    {
      I.Inv(World())
    }

    constructor ()
      ensures Valid() && World() == Init
    {
      lock, nonces, chain, pcs := Lock({}, None, []), map[], map[], map[];
      log, fates, bases := [], [], map[];
      new;
      I.InitInv();
    }

    /** A move of the environment, whatever it is. */
    method Take(l: Label, ghost me: TaskId, room: nat, ghost start: State, ghost sofar: seq<Label>)
      returns (ghost trace: seq<Label>)
      requires Valid() && Enabled(World(), l) && Follows(start, sofar, World())
      modifies this
      ensures Valid() && World() == Step(old(World()), l)
      ensures trace == sofar + [l] && Follows(start, trace, World())
    {
      Took(World(), l, Step(World(), l), me, room, start, sofar);
      var s := Step(World(), l);
      trace := sofar + [l];
      lock, nonces, chain, pcs := s.lock, s.cache, s.chain, s.pcs;
      log, fates, bases := s.log, s.fates, s.bases;
    }

    /** An interleaving point. */
    method Others(me: TaskId, moves: seq<Label>, room: nat, ghost start: State, ghost sofar: seq<Label>)
      returns (ghost trace: seq<Label>)
      requires Valid() && Follows(start, sofar, World())
      modifies this
      ensures Valid() && Follows(start, trace, World()) && World() == Moved(old(World()), moves, me, room)
      ensures old(log) <= log && forall k :: ChainOf(old(World()), k) <= ChainOf(World(), k)
      ensures PcOf(World(), me) == PcOf(old(World()), me)
      ensures RemovedKeys(start, trace, me) == RemovedKeys(start, sofar, me)
      ensures old(Spacious(World(), room)) ==> Spacious(World(), room)
    {
      ghost var moved := [];
      for i := 0 to |moves|
        invariant Valid() && Follows(old(World()), moved, World()) && AllForeign(moved, me)
        invariant World() == Moved(old(World()), moves[..i], me, room)
        invariant old(Spacious(World(), room)) ==> Spacious(World(), room)
      {
        var l := moves[i];
        assert moves[..i + 1][..i] == moves[..i];
        if Foreign(l, me) && Enabled(World(), l) && Spacious(Step(World(), l), room) {
          moved := Take(l, me, room, old(World()), moved);
        }
      }
      assert moves[..|moves|] == moves;
      ForeignMoves(old(World()), moved, me);
      forall k: CacheKey ensures old(log) <= log && ChainOf(old(World()), k) <= ChainOf(World(), k) {
        OnlyGrows(old(World()), moved, k);
      }
      assert ChainOf(old(World()), CacheKey("", PublicKey([]))) <= ChainOf(World(), CacheKey("", PublicKey([])));
      Extend(start, sofar, old(World()), moved, World(), me);
      trace := sofar + moved;
    }

    /** The wait itself: round after round until the lock can admit the task. */
    method Rounds(me: TaskId, rounds: seq<seq<Label>>, room: nat, ghost start: State, ghost sofar: seq<Label>)
      returns (ghost trace: seq<Label>, rest: seq<seq<Label>>)
      requires Valid() && Follows(start, sofar, World())
      modifies this
      ensures Valid() && Follows(start, trace, World()) && |old(log)| <= |log|
      ensures WaitEnds(old(World()), rounds, me, room) == Waited(Enabled(World(), Grant(me)), World(), rest)
      ensures !Enabled(World(), Grant(me)) ==> rest == []
      ensures PcOf(World(), me) == PcOf(old(World()), me)
      ensures forall k :: ChainOf(old(World()), k) <= ChainOf(World(), k)
      ensures RemovedKeys(start, trace, me) == RemovedKeys(start, sofar, me)
      ensures old(Spacious(World(), room)) ==> Spacious(World(), room)
    {
      hide I.Inv, Spacious, Enabled, Moved;
      trace, rest := sofar, rounds;
      while !Enabled(World(), Grant(me)) && rest != []
        invariant Valid() && Follows(start, trace, World()) && PcOf(World(), me) == old(PcOf(World(), me))
        invariant WaitEnds(World(), rest, me, room) == WaitEnds(old(World()), rounds, me, room)
        invariant |old(log)| <= |log| && forall k :: ChainOf(old(World()), k) <= ChainOf(World(), k)
        invariant RemovedKeys(start, trace, me) == RemovedKeys(start, sofar, me)
        invariant old(Spacious(World(), room)) ==> Spacious(World(), room)
        decreases |rest|
      {
        trace := Others(me, rest[0], room, start, trace);
        rest := rest[1..];
      }
    }

    method TakeGuard(me: TaskId, room: nat, ghost start: State, ghost sofar: seq<Label>)
      returns (ghost trace: seq<Label>)
      requires Valid() && Enabled(World(), Grant(me)) && Waiting(PcOf(World(), me)) && Follows(start, sofar, World())
      modifies this
      ensures Valid() && Follows(start, trace, World()) && World() == Then(old(World()), Grant(me))
      ensures PcOf(World(), me) == Admitted(old(PcOf(World(), me)))
      ensures log == old(log) && chain == old(chain) && nonces == old(nonces)
      ensures RemovedKeys(start, trace, me) == RemovedKeys(start, sofar, me)
      ensures old(Spacious(World(), room)) ==> Spacious(World(), room)
    {
      hide I.Inv, Spacious, Follows;
      ghost var before := World();
      lock, pcs := Admit(lock, me, pcs[me]), pcs[me := Admitted(pcs[me])];
      Took(before, Grant(me), World(), me, room, start, sofar);
      trace := sofar + [Grant(me)];
    }

    /** The task is dropped while it waits. */
    method LeaveQueue(me: TaskId, room: nat, ghost start: State, ghost sofar: seq<Label>)
      returns (ghost trace: seq<Label>)
      requires Valid() && !Enabled(World(), Grant(me)) && Waiting(PcOf(World(), me)) && Follows(start, sofar, World())
      modifies this
      ensures Valid() && Follows(start, trace, World()) && World() == Then(old(World()), Drop(me))
      ensures GaveUp(start, trace, me) && PcOf(World(), me) == Idle
      ensures log == old(log) && chain == old(chain) && RemovedKeys(start, trace, me) == RemovedKeys(start, sofar, me)
      ensures old(Spacious(World(), room)) ==> Spacious(World(), room)
    {
      hide I.Inv, Spacious, Follows;
      ghost var before := World();
      DroppedThere(start, sofar, before, me);
      lock, pcs := Release(lock, me), pcs[me := Idle];
      Took(before, Drop(me), World(), me, room, start, sofar);
      trace := sofar + [Drop(me)];
    }

    /** `lock.read().await` and `lock.write().await`: the queued task gets its guard in its turn. */
    method AwaitGuard(me: TaskId, rounds: seq<seq<Label>>, room: nat, ghost start: State, ghost sofar: seq<Label>)
      returns (granted: bool, rest: seq<seq<Label>>, ghost trace: seq<Label>)
      requires Valid() && Waiting(PcOf(World(), me)) && Follows(start, sofar, World())
      modifies this
      ensures Valid() && Follows(start, trace, World()) && |old(log)| <= |log|
      ensures var w := WaitEnds(old(World()), rounds, me, room);
        && granted == w.granted && rest == w.rest
        && World() == Then(w.at, if granted then Grant(me) else Drop(me))
        && (granted ==> nonces == w.at.cache && chain == w.at.chain)
      ensures !granted ==> rest == [] && GaveUp(start, trace, me)
      ensures PcOf(World(), me) == if granted then Admitted(old(PcOf(World(), me))) else Idle
      ensures forall k :: ChainOf(old(World()), k) <= ChainOf(World(), k)
      ensures RemovedKeys(start, trace, me) == RemovedKeys(start, sofar, me)
      ensures old(Spacious(World(), room)) ==> Spacious(World(), room)
    {
      hide I.Inv, Spacious, Follows, RemovedKeys, GaveUp, WaitEnds, Then, Enabled;
      trace, rest := Rounds(me, rounds, room, start, sofar);
      granted := Enabled(World(), Grant(me));
      if granted {
        trace := TakeGuard(me, room, start, trace);
      } else {
        trace := LeaveQueue(me, room, start, trace);
      }
    }

    /** The `fetch_add`. */
    method FetchAdd(me: TaskId, key: CacheKey, ghost n: nat, room: nat, ghost start: State, ghost sofar: seq<Label>)
      returns (ghost trace: seq<Label>)
      requires Valid() && (PcOf(World(), me) == ReadHeld(key) || PcOf(World(), me) == WriteHeld(key)) && key in nonces
      requires Spacious(World(), room + 1) && Follows(start, sofar, World())
      requires n == nonces[key] + 1
      modifies this
      ensures Valid() && Follows(start, trace, World()) && Spacious(World(), room)
      ensures World() == Then(old(World()), Hit(me))
      ensures RemovedKeys(start, trace, me) == RemovedKeys(start, sofar, me)
      ensures PcOf(World(), me) == ReadBlock(key, |old(log)|) || PcOf(World(), me) == WriteBlock(key, |old(log)|)
      ensures log == old(log) + [Ticket(key, CurrentEpoch(old(World()), key), n, me)]
      ensures nonces == old(nonces)[key := n]
    {
      ghost var before := World();
      var i := |log|;
      nonces := nonces[key := nonces[key] + 1];
      log := log + [Ticket(key, CurrentEpoch(World(), key), nonces[key], me)];
      fates := fates + [Pending];
      pcs := pcs[me := if pcs[me].ReadHeld? then ReadBlock(key, i) else WriteBlock(key, i)];
      Took(before, Hit(me), World(), me, room, start, sofar);
      trace := sofar + [Hit(me)];
    }

    /** The block query is over: the guard is released and the call returns, fails or is dropped. */
    method LeaveBlock(me: TaskId, key: CacheKey, ghost n: nat, ghost i: nat, room: nat, rpc: Rpc,
                      ghost start: State, ghost sofar: seq<Label>)
      returns (ghost trace: seq<Label>)
      requires Valid() && (PcOf(World(), me) == ReadBlock(key, i) || PcOf(World(), me) == WriteBlock(key, i))
      requires i < |log| && log[i].nonce == n
      requires Spacious(World(), room) && Follows(start, sofar, World())
      modifies this
      ensures Valid() && Follows(start, trace, World()) && World() == Then(old(World()), Exit(rpc, me))
      ensures PcOf(World(), me) == Idle && Spacious(World(), room) && log == old(log)
      ensures RemovedKeys(start, trace, me) == RemovedKeys(start, sofar, me)
      ensures Drew(World(), i, me, key, n, if rpc.Answered? then Returned else Burned)
      ensures rpc.Cancelled? ==> CutOff(start, trace, me)
    {
      hide I.Inv, Spacious, Follows, RemovedKeys, GaveUp, CutOff;
      HoldsTicket(World(), me);
      ghost var before := World();
      DroppedThere(start, sofar, before, me);
      fates := fates[pcs[me].i := if rpc.Answered? then Returned else Burned];
      lock, pcs := Release(lock, me), pcs[me := Idle];
      Took(before, Exit(rpc, me), World(), me, room, start, sofar);
      trace := sofar + [Exit(rpc, me)];
    }

    /** view_block under the guard; the nonce is lost if it is not answered. */
    method ViewBlock(me: TaskId, key: CacheKey, ghost n: nat, ghost i: nat, rounds: seq<seq<Label>>, room: nat,
                     rpc: Rpc, ghost start: State, ghost sofar: seq<Label>)
      returns (ghost trace: seq<Label>)
      requires Valid() && (PcOf(World(), me) == ReadBlock(key, i) || PcOf(World(), me) == WriteBlock(key, i))
      requires i < |log| && log[i].nonce == n
      requires Spacious(World(), room) && Follows(start, sofar, World())
      modifies this
      ensures Valid() && Follows(start, trace, World())
      ensures World() == Then(Moved(old(World()), First(rounds), me, room), Exit(rpc, me))
      ensures PcOf(World(), me) == Idle && Spacious(World(), room) && |old(log)| <= |log|
      ensures RemovedKeys(start, trace, me) == RemovedKeys(start, sofar, me)
      ensures Drew(World(), i, me, key, n, if rpc.Answered? then Returned else Burned)
      ensures rpc.Cancelled? ==> CutOff(start, trace, me)
    {
      hide I.Inv, Spacious, Follows, RemovedKeys, Drew, CutOff, Then, Moved;
      trace := Others(me, if rounds == [] then [] else rounds[0], room, start, sofar);
      assert log[i] == old(log)[i];
      trace := LeaveBlock(me, key, n, i, room, rpc, start, trace);
    }

    /** cached_nonce: draw the next nonce, then query a block while the guard is held. */
    method CachedNonce(me: TaskId, key: CacheKey, rounds: seq<seq<Label>>, room: nat, rpc: Rpc,
                       ghost start: State, ghost sofar: seq<Label>)
      returns (r: Result<nat, Error>, ghost trace: seq<Label>)
      requires Valid() && (PcOf(World(), me) == ReadHeld(key) || PcOf(World(), me) == WriteHeld(key)) && key in nonces
      requires Spacious(World(), room + 1) && Follows(start, sofar, World())
      modifies this
      ensures Valid() && Follows(start, trace, World()) && World() == HitEnds(old(World()), rounds, me, rpc, room)
      ensures PcOf(World(), me) == Idle && Spacious(World(), room) && |old(log)| <= |log|
      ensures RemovedKeys(start, trace, me) == RemovedKeys(start, sofar, me)
      ensures match rpc
        case Answered => r == Ok(old(nonces)[key] + 1)
        case Cancelled => r == Err(Dropped)
        case _ => r == Err(RpcBlockError)
      ensures Drew(World(), |old(log)|, me, key, old(nonces)[key] + 1, if rpc.Answered? then Returned else Burned)
      ensures rpc.Cancelled? ==> CutOff(start, trace, me)
    {
      hide I.Inv, Spacious, Follows, RemovedKeys, Drew, CutOff, Then, Moved;
      var nonce := nonces[key];
      trace := FetchAdd(me, key, nonce + 1, room, start, sofar);
      trace := ViewBlock(me, key, nonce + 1, |old(log)|, rounds, room, rpc, start, trace);
      r := match rpc
        case Answered => Ok(nonce + 1)
        case Cancelled => Err(Dropped)
        case _ => Err(RpcBlockError);
    }

    /** The query goes out. */
    method Ask(me: TaskId, key: CacheKey, rounds: seq<seq<Label>>, room: nat,
               ghost start: State, ghost sofar: seq<Label>)
      returns (ghost trace: seq<Label>)
      requires Valid() && PcOf(World(), me) == WriteHeld(key) && key !in nonces
      requires Spacious(World(), room) && Follows(start, sofar, World())
      modifies this
      ensures Valid() && Follows(start, trace, World()) && World() == Asked(old(World()), rounds, me, room)
      ensures PcOf(World(), me) == Query(key) && ChainOf(old(World()), key) <= ChainOf(World(), key)
      ensures |old(log)| <= |log| && RemovedKeys(start, trace, me) == RemovedKeys(start, sofar, me)
      ensures Spacious(World(), room) && (rounds == [] ==> chain == old(chain))
    {
      hide I.Inv, Spacious, Follows, RemovedKeys;
      ghost var before := World();
      pcs := pcs[me := Query(key)];
      Took(before, Vacant(me), World(), me, room, start, sofar);
      trace := Others(me, if rounds == [] then [] else rounds[0], room, start, sofar + [Vacant(me)]);
    }

    /** The node reads the nonce, and its answer arrives. */
    method Learn(me: TaskId, key: CacheKey, rounds: seq<seq<Label>>, room: nat,
                 ghost start: State, ghost sofar: seq<Label>)
      returns (r: Result<nat, Error>, ghost trace: seq<Label>)
      requires Valid() && PcOf(World(), me) == Query(key)
      requires Spacious(World(), room) && Follows(start, sofar, World())
      modifies this
      ensures Valid() && Follows(start, trace, World()) && World() == Learnt(old(World()), rounds, me, room)
      ensures r == Ok(ChainOf(old(World()), key)) && PcOf(World(), me) == Loaded(key, r.value)
      ensures |old(log)| <= |log| && RemovedKeys(start, trace, me) == RemovedKeys(start, sofar, me)
      ensures Spacious(World(), room)
    {
      hide I.Inv, Spacious, Follows, RemovedKeys;
      ghost var before := World();
      r := Ok(ChainOf(World(), key));
      pcs := pcs[me := Loaded(key, r.value)];
      Took(before, Load(me), World(), me, room, start, sofar);
      trace := Others(me, if |rounds| < 2 then [] else rounds[1], room, start, sofar + [Load(me)]);
    }

    /** access_key: the node is asked for the key's nonce; others move before it reads the nonce and
        while its answer is on the way. Without its answer the call is over. */
    method AccessKey(me: TaskId, key: CacheKey, rounds: seq<seq<Label>>, room: nat, rpc: Rpc,
                     ghost start: State, ghost sofar: seq<Label>)
      returns (r: Result<nat, Error>, ghost trace: seq<Label>)
      requires Valid() && PcOf(World(), me) == WriteHeld(key) && key !in nonces
      requires Spacious(World(), room) && Follows(start, sofar, World())
      modifies this
      ensures Valid() && Follows(start, trace, World()) && Spacious(World(), room)
      ensures var asked := Asked(old(World()), rounds, me, room);
        && World() == (if rpc.Answered? then Learnt(asked, rounds, me, room) else Then(asked, Exit(rpc, me)))
        && (rpc.Answered? ==> r == Ok(ChainOf(asked, key)))
      ensures |old(log)| <= |log| && RemovedKeys(start, trace, me) == RemovedKeys(start, sofar, me)
      ensures match rpc
        case Answered => r.Ok?
        case Failed => r == Err(RpcQueryError)
        case Malformed => r == Err(RpcReturnedInvalidData)
        case Cancelled => r == Err(Dropped)
      ensures r.Ok? ==> ChainOf(old(World()), key) <= r.value
      ensures r.Ok? && rounds == [] ==> r.value == ChainOf(old(World()), key)
      ensures PcOf(World(), me) == if r.Ok? then Loaded(key, r.value) else Idle
      ensures rpc.Cancelled? ==> CutOff(start, trace, me)
    {
      hide I.Inv, Spacious, Follows, RemovedKeys, GaveUp, CutOff, Release, Asked, Learnt;
      trace := Ask(me, key, rounds, room, start, sofar);
      if rpc.Answered? {
        r, trace := Learn(me, key, rounds, room, start, trace);
      } else {
        r := match rpc
          case Cancelled => Err(Dropped)
          case Malformed => Err(RpcReturnedInvalidData)
          case _ => Err(RpcQueryError);
        ghost var before := World();
        DroppedThere(start, trace, before, me);
        lock, pcs := Release(lock, me), pcs[me := Idle];
        Took(before, Exit(rpc, me), World(), me, room, start, trace);
        trace := trace + [Exit(rpc, me)];
      }
    }

    /** The insert. */
    method Put(me: TaskId, key: CacheKey, nonce: nat, room: nat, ghost start: State, ghost sofar: seq<Label>)
      returns (ghost trace: seq<Label>)
      requires Valid() && PcOf(World(), me) == Loaded(key, nonce)
      requires Spacious(World(), room + 1) && Follows(start, sofar, World())
      modifies this
      ensures Valid() && Follows(start, trace, World()) && World() == Then(old(World()), Fill(me))
      ensures PcOf(World(), me) == Filled(key, |old(log)|) && Spacious(World(), room)
      ensures log == old(log) + [Ticket(key, |BasesOf(old(World()), key)|, nonce + 1, me)]
      ensures nonces == old(nonces)[key := nonce + 1]
      ensures RemovedKeys(start, trace, me) == RemovedKeys(start, sofar, me)
    {
      ghost var before := World();
      nonces := nonces[key := nonce + 1];
      pcs := pcs[me := Filled(key, |log|)];
      log, fates := log + [Ticket(key, |BasesOf(World(), key)|, nonce + 1, me)], fates + [Pending];
      bases := bases[key := BasesOf(World(), key) + [nonce]];
      Took(before, Fill(me), World(), me, room, start, sofar);
      trace := sofar + [Fill(me)];
    }

    /** The return after an insert. */
    method Deliver(me: TaskId, key: CacheKey, ghost n: nat, ghost i: nat, room: nat,
                   ghost start: State, ghost sofar: seq<Label>)
      returns (ghost trace: seq<Label>)
      requires Valid() && PcOf(World(), me) == Filled(key, i) && i < |log| && log[i].nonce == n
      requires Spacious(World(), room) && Follows(start, sofar, World())
      modifies this
      ensures Valid() && Follows(start, trace, World()) && World() == Then(old(World()), Return(me))
      ensures PcOf(World(), me) == Idle && log == old(log) && nonces == old(nonces) && Spacious(World(), room)
      ensures RemovedKeys(start, trace, me) == RemovedKeys(start, sofar, me)
      ensures Drew(World(), i, me, key, n, Returned)
    {
      hide I.Inv, Spacious, Follows, RemovedKeys;
      HoldsTicket(World(), me);
      ghost var before := World();
      fates := fates[pcs[me].i := Returned];
      lock, pcs := Release(lock, me), pcs[me := Idle];
      Took(before, Return(me), World(), me, room, start, sofar);
      trace := sofar + [Return(me)];
    }

    method Insert(me: TaskId, key: CacheKey, nonce: nat, room: nat, ghost start: State, ghost sofar: seq<Label>)
      returns (r: Result<nat, Error>, ghost trace: seq<Label>)
      requires Valid() && PcOf(World(), me) == Loaded(key, nonce)
      requires Spacious(World(), room + 1) && Follows(start, sofar, World())
      modifies this
      ensures Valid() && Follows(start, trace, World())
      ensures World() == Then(Then(old(World()), Fill(me)), Return(me))
      ensures PcOf(World(), me) == Idle && r == Ok(nonce + 1) && |old(log)| <= |log| && Spacious(World(), room)
      ensures RemovedKeys(start, trace, me) == RemovedKeys(start, sofar, me)
      ensures nonces == old(nonces)[key := nonce + 1]
      ensures Drew(World(), |old(log)|, me, key, r.value, Returned)
    {
      hide I.Inv, Spacious, Follows, RemovedKeys, Drew, Then;
      trace := Put(me, key, nonce, room, start, sofar);
      trace := Deliver(me, key, nonce + 1, |old(log)|, room, start, trace);
      r := Ok(nonce + 1);
    }

    /** The vacant entry: query the access key under the write guard and insert. */
    method FillEntry(me: TaskId, key: CacheKey, rounds: seq<seq<Label>>, room: nat, rpc: Rpc,
                     ghost start: State, ghost sofar: seq<Label>)
      returns (r: Result<nat, Error>, ghost trace: seq<Label>)
      requires Valid() && PcOf(World(), me) == WriteHeld(key) && key !in nonces
      requires Spacious(World(), room + 1) && Follows(start, sofar, World())
      modifies this
      ensures Valid() && Follows(start, trace, World()) && World() == FillEnds(old(World()), rounds, me, rpc, room + 1)
      ensures PcOf(World(), me) == Idle && Spacious(World(), room) && |old(log)| <= |log|
      ensures RemovedKeys(start, trace, me) == RemovedKeys(start, sofar, me)
      ensures match rpc
        case Answered => r.Ok?
        case Failed => r == Err(RpcQueryError)
        case Malformed => r == Err(RpcReturnedInvalidData)
        case Cancelled => r == Err(Dropped)
      ensures r.Ok? ==>
        && Drew(World(), |old(log)|, me, key, r.value, Returned) && key in nonces && nonces[key] == r.value
        && r.value == ChainOf(Asked(old(World()), rounds, me, room + 1), key) + 1 > ChainOf(old(World()), key)
      ensures r.Ok? && rounds == [] ==> r.value == ChainOf(old(World()), key) + 1
      ensures rpc.Cancelled? ==> CutOff(start, trace, me)
    {
      hide I.Inv, Spacious, Follows, RemovedKeys, CutOff, Drew, Then, Asked, Learnt, Exit;
      r, trace := AccessKey(me, key, rounds, room + 1, rpc, start, sofar);
      if r.Ok? {
        ghost var from := |log|;
        r, trace := Insert(me, key, r.value, room, start, trace);
        DrewSince(World(), |old(log)|, from, me, key, r.value, Returned);
      } else {
        LessRoom(World(), room);
      }
    }

    /** The second look, under the write guard: another task may have filled the entry in between. */
    method MatchEntry(me: TaskId, key: CacheKey, rounds: seq<seq<Label>>, room: nat, rpc: Rpc,
                      ghost start: State, ghost sofar: seq<Label>)
      returns (r: Result<nat, Error>, ghost trace: seq<Label>)
      requires Valid() && PcOf(World(), me) == WriteHeld(key)
      requires Spacious(World(), room + 1) && Follows(start, sofar, World())
      modifies this
      ensures Valid() && Follows(start, trace, World())
      ensures World() == EntryEnds(old(World()), key, rounds, me, rpc, room)
      ensures PcOf(World(), me) == Idle && Spacious(World(), room) && |old(log)| <= |log|
      ensures RemovedKeys(start, trace, me) == RemovedKeys(start, sofar, me)
      ensures Answers(Waited(true, old(World()), rounds), key, rpc, r)
      ensures r.Ok? ==> Drew(World(), |old(log)|, me, key, r.value, Returned)
      ensures rpc.Cancelled? ==> CutOff(start, trace, me)
    {
      hide I.Inv, Spacious, Follows, RemovedKeys, Drew, CutOff, HitEnds, FillEnds, Asked;
      if key in nonces {
        r, trace := CachedNonce(me, key, rounds, room, rpc, start, sofar);
      } else {
        r, trace := FillEntry(me, key, rounds, room, rpc, start, sofar);
      }
    }

    /** The read guard is dropped before the write guard is asked for. */
    method DropAndQueue(me: TaskId, key: CacheKey, room: nat, ghost start: State, ghost sofar: seq<Label>)
      returns (ghost trace: seq<Label>)
      requires Valid() && PcOf(World(), me) == ReadHeld(key) && key !in nonces && Follows(start, sofar, World())
      modifies this
      ensures Valid() && Follows(start, trace, World()) && World() == Requeued(old(World()), me)
      ensures PcOf(World(), me) == WaitWrite(key) && log == old(log)
      ensures RemovedKeys(start, trace, me) == RemovedKeys(start, sofar, me)
      ensures old(Spacious(World(), room)) ==> Spacious(World(), room)
    {
      ghost var before := World();
      lock, pcs := Release(lock, me), pcs[me := Missed(key)];
      Took(before, Miss(me), World(), me, room, start, sofar);
      ghost var missed := World();
      lock, pcs := Join(lock, me), pcs[me := WaitWrite(key)];
      Took(missed, Requeue(me), World(), me, room, start, sofar + [Miss(me)]);
      trace := sofar + [Miss(me)] + [Requeue(me)];
    }

    /** The miss. */
    method FetchUnderWrite(me: TaskId, key: CacheKey, rounds: seq<seq<Label>>, room: nat, rpc: Rpc,
                           ghost start: State, ghost sofar: seq<Label>)
      returns (r: Result<nat, Error>, ghost trace: seq<Label>)
      requires Valid() && PcOf(World(), me) == ReadHeld(key) && key !in nonces
      requires Spacious(World(), room + 1) && Follows(start, sofar, World())
      modifies this
      ensures Valid() && Follows(start, trace, World())
      ensures var look := WaitEnds(Requeued(old(World()), me), rounds, me, room + 1);
        World() == LookEnds(look, me, key, rpc, room) && Answers(look, key, rpc, r)
      ensures PcOf(World(), me) == Idle && Spacious(World(), room) && |old(log)| <= |log|
      ensures RemovedKeys(start, trace, me) == RemovedKeys(start, sofar, me)
      ensures r == Err(Dropped) ==> GaveUp(start, trace, me) || (rpc.Cancelled? && CutOff(start, trace, me))
      ensures r.Ok? ==> Drew(World(), |old(log)|, me, key, r.value, Returned)
    {
      hide I.Inv, Spacious, Follows, RemovedKeys, GaveUp, CutOff, Drew, WaitEnds, Requeued, EntryEnds, Then;
      var granted, rest;
      trace := DropAndQueue(me, key, room + 1, start, sofar);
      ghost var look := WaitEnds(World(), rounds, me, room + 1);
      granted, rest, trace := AwaitGuard(me, rounds, room + 1, start, trace);
      if granted {
        ghost var from, held := |log|, World();
        r, trace := MatchEntry(me, key, rest, room, rpc, start, trace);
        AnswersAfterGrant(look, held, key, rpc, r);
        if r.Ok? { DrewSince(World(), |old(log)|, from, me, key, r.value, Returned); }
      } else {
        r := Err(Dropped);
        LessRoom(World(), room);
      }
    }

    /** The read guard is asked for. */
    method BeginFetch(me: TaskId, key: CacheKey, room: nat, ghost start: State, ghost sofar: seq<Label>)
      returns (ghost trace: seq<Label>)
      requires Valid() && PcOf(World(), me).Idle? && Spacious(World(), room) && Follows(start, sofar, World())
      modifies this
      ensures Valid() && Follows(start, trace, World()) && World() == Then(old(World()), CallFetch(me, key))
      ensures PcOf(World(), me) == WaitRead(key) && log == old(log)
      ensures Spacious(World(), room) && RemovedKeys(start, trace, me) == RemovedKeys(start, sofar, me)
    {
      ghost var before := World();
      lock, pcs := Join(lock, me), pcs[me := WaitRead(key)];
      Took(before, CallFetch(me, key), World(), me, room, start, sofar);
      trace := sofar + [CallFetch(me, key)];
    }

    /** fetch_nonce: look up under the read guard and, if the entry is absent, under the write guard. */
    method FetchNonce(me: TaskId, key: CacheKey, rounds: seq<seq<Label>>, room: nat, rpc: Rpc,
                      ghost start: State, ghost sofar: seq<Label>)
      returns (r: Result<nat, Error>, ghost trace: seq<Label>)
      requires Valid() && PcOf(World(), me).Idle? && Spacious(World(), room + 1) && Follows(start, sofar, World())
      modifies this
      // A run of the protocol, with whatever moves of others, which ends in a settled state.
      ensures Valid() && Follows(start, trace, World())
      ensures World() == FetchEnds(old(World()), me, key, rounds, rpc, room)
      ensures PcOf(World(), me) == Idle && Spacious(World(), room) && |old(log)| <= |log|
      ensures RemovedKeys(start, trace, me) == RemovedKeys(start, sofar, me)
      // It is served if and only if the lock admits it each time it asks and its RPC is answered.
      ensures Answers(LastLook(old(World()), me, key, rounds, room + 1), key, rpc, r)
      ensures r == Err(Dropped) ==> GaveUp(start, trace, me) || (rpc.Cancelled? && CutOff(start, trace, me))
      ensures r.Ok? ==> Drew(World(), |old(log)|, me, key, r.value, Returned)
      // From a free lock the call is served, whatever others do meanwhile.
      ensures Free(old(lock)) ==>
        && (r.Ok? <==> rpc.Answered?)
        && (if r.Err? || key in old(nonces) || rounds == [] then r == Quoted(old(World()), key, rpc)
            else ChainOf(old(World()), key) < r.value)
      ensures Free(old(lock)) && rounds == [] ==>
        nonces == CacheAfter(old(World()), key, rpc) && chain == old(chain) && Free(lock)
    {
      hide I.Inv, Spacious, Follows, RemovedKeys, GaveUp, CutOff, Drew, WaitEnds, Requeued, Then, EntryEnds, Quoted,
        CacheAfter;
      FreeFetch(World(), me, key, rounds, rpc, room);
      var granted, rest;
      trace := BeginFetch(me, key, room + 1, start, sofar);
      ghost var look := WaitEnds(World(), rounds, me, room + 1);
      granted, rest, trace := AwaitGuard(me, rounds, room + 1, start, trace);
      if !granted {
        r := Err(Dropped);
        LessRoom(World(), room);
      } else if key in nonces {
        ghost var from, held := |log|, World();
        r, trace := CachedNonce(me, key, rest, room, rpc, start, trace);
        HitAnswers(look, held, key, rpc, r, rest, me, room);
        if r.Ok? { DrewSince(World(), |old(log)|, from, me, key, r.value, Returned); }
      } else {
        ghost var from := |log|;
        r, trace := FetchUnderWrite(me, key, rest, room, rpc, start, trace);
        if r.Ok? { DrewSince(World(), |old(log)|, from, me, key, r.value, Returned); }
      }
    }

    /** The write guard is asked for. */
    method BeginRemoval(me: TaskId, key: CacheKey, room: nat, ghost start: State, ghost sofar: seq<Label>)
      returns (ghost trace: seq<Label>)
      requires Valid() && PcOf(World(), me).Idle? && Follows(start, sofar, World())
      modifies this
      ensures Valid() && Follows(start, trace, World()) && PcOf(World(), me) == WaitRemove(key)
      ensures World() == Then(old(World()), CallInvalidate(me, key)) && log == old(log)
      ensures RemovedKeys(start, trace, me) == RemovedKeys(start, sofar, me)
      ensures old(Spacious(World(), room)) ==> Spacious(World(), room)
    {
      ghost var before := World();
      lock, pcs := Join(lock, me), pcs[me := WaitRemove(key)];
      Took(before, CallInvalidate(me, key), World(), me, room, start, sofar);
      trace := sofar + [CallInvalidate(me, key)];
    }

    /** The removal under the write guard, and the return. */
    method RemoveEntry(me: TaskId, key: CacheKey, room: nat, ghost start: State, ghost sofar: seq<Label>)
      returns (ghost trace: seq<Label>)
      requires Valid() && PcOf(World(), me) == RemoveHeld(key) && Follows(start, sofar, World())
      modifies this
      ensures Valid() && Follows(start, trace, World())
      ensures World() == Then(Then(old(World()), Remove(me)), Return(me))
      ensures PcOf(World(), me) == Idle && log == old(log) && nonces == old(nonces) - {key}
      ensures RemovedKeys(start, trace, me) == RemovedKeys(start, sofar, me) + [key]
      ensures old(Spacious(World(), room)) ==> Spacious(World(), room)
    {
      hide I.Inv, Spacious, Follows;
      ghost var before := World();
      nonces, pcs := nonces - {key}, pcs[me := Removed(key)];
      Took(before, Remove(me), World(), me, room, start, sofar);
      ghost var removed := World();
      lock, pcs := Release(lock, me), pcs[me := Idle];
      Took(removed, Return(me), World(), me, room, start, sofar + [Remove(me)]);
      trace := sofar + [Remove(me)] + [Return(me)];
    }

    /** invalidate_cache: remove the entry under the write guard, once the lock admits the task. */
    method InvalidateCache(me: TaskId, key: CacheKey, rounds: seq<seq<Label>>, room: nat,
                           ghost start: State, ghost sofar: seq<Label>)
      returns (done: bool, rest: seq<seq<Label>>, ghost trace: seq<Label>)
      requires Valid() && PcOf(World(), me).Idle? && Follows(start, sofar, World())
      modifies this
      ensures Valid() && Follows(start, trace, World()) && PcOf(World(), me) == Idle && |old(log)| <= |log|
      ensures var w := RemovalWait(old(World()), me, key, rounds, room);
        done == w.granted && rest == w.rest && World() == RemovalEnds(w, me)
      ensures !done ==> GaveUp(start, trace, me)
      ensures RemovedKeys(start, trace, me) == RemovedKeys(start, sofar, me) + (if done then [key] else [])
      ensures done ==> key !in nonces
      // From a free lock nothing but the removal happens.
      ensures Free(old(lock)) ==>
        done && rest == rounds && nonces == old(nonces) - {key} && chain == old(chain) && Free(lock)
      ensures old(Spacious(World(), room)) ==> Spacious(World(), room)
    {
      hide I.Inv, Spacious, Follows, RemovedKeys, GaveUp, WaitEnds, Then;
      if Free(lock) { RemovalAlone(World(), me, key, rounds, room); }
      trace := BeginRemoval(me, key, room, start, sofar);
      done, rest, trace := AwaitGuard(me, rounds, room, start, trace);
      if done {
        trace := RemoveEntry(me, key, room, start, trace);
      }
    }
  }
}
