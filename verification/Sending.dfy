/** Signing, sending once and retrying, for one sending flow at a time on a signer, with the other
    tasks of the client interleaved at every wait. */
module Sending {
  import opened Types
  import opened Outcome
  import opened Signer
  import opened Builder
  import opened Client
  import opened Waits
  import N = NonceProtocol
  import I = NonceInvariant
  import S = SendProtocol

  datatype SignedTransaction = SignedTransaction(tx: S.Tx, receiver: AccountId, actions: seq<Action>)

  /** What the environment does during one attempt. */
  datatype Env = Env(
    fetch: seq<seq<N.Label>>,   // moves of others while fetch_nonce waits
    rpc: Rpc,                   // how its RPC goes
    sent: seq<N.Label>,         // moves of others while the reply is awaited
    reply: Reply,
    purge: seq<seq<N.Label>>)   // moves of others while the entry is invalidated

  /** Nobody moves until the reply is here. */
  predicate Calm(env: Env) { env.fetch == [] && env.sent == [] }

  /** The key a signer presents. */
  function Presents(signer: KeyRotatingSigner): CacheKey
    requires signer.Valid()
    reads signer
  {
    CacheKey(signer.Account(), signer.PublicKey())
  }

  /** The transaction embeds the key, is signed by it, and carries the actions to the receiver. */
  predicate Made(x: SignedTransaction, key: CacheKey, receiver: AccountId, actions: seq<Action>) {
    x.tx.key == key && x.tx.signedBy == key.publicKey && x.receiver == receiver && x.actions == actions
  }

  /** The error of a fetch that gets no nonce. */
  function FetchError(look: Waited, key: CacheKey, rpc: Rpc): Error {
    if !look.granted then Dropped
    else match Quoted(look.at, key, rpc) case Ok(_) => Dropped case Err(e) => e
  }

  /** sign_tx: read the key, fetch a nonce for it, and sign, which rotates the signer. */
  method SignTx(c: Client, me: TaskId, signer: KeyRotatingSigner, receiver: AccountId, actions: seq<Action>,
                env: Env, room: nat, ghost start: N.State, ghost sofar: seq<N.Label>)
    returns (r: Result<SignedTransaction, Error>, ghost trace: seq<N.Label>)
    requires c.Valid() && signer.Valid() && N.PcOf(c.World(), me).Idle?
    requires Spacious(c.World(), room + 1) && Follows(start, sofar, c.World())
    modifies c, signer
    ensures c.Valid() && signer.Valid() && N.PcOf(c.World(), me).Idle?
    ensures Spacious(c.World(), room) && Follows(start, trace, c.World())
    ensures |old(c.log)| <= |c.log| && RemovedKeys(start, trace, me) == RemovedKeys(start, sofar, me)
    ensures signer.counter == if r.Ok? then Rotated(old(signer.counter), signer.word) else old(signer.counter)
    // It is served if and only if the lock admits it each time it asks and its RPC is answered.
    ensures c.World() == FetchEnds(old(c.World()), me, old(Presents(signer)), env.fetch, env.rpc, room)
    ensures var key := old(Presents(signer)); var look := LastLook(old(c.World()), me, key, env.fetch, room + 1);
      && (r.Ok? <==> look.granted && env.rpc.Answered?)
      && (r.Err? ==> r.error == FetchError(look, key, env.rpc))
      && (r.Ok? && (key in look.at.cache || look.rest == []) ==>
            r.value.tx.nonce == Quoted(look.at, key, env.rpc).value)
    ensures r == Err(Dropped) ==> GaveUp(start, trace, me) || (env.rpc.Cancelled? && CutOff(start, trace, me))
    ensures r.Ok? ==> Made(r.value, old(Presents(signer)), receiver, actions)
    ensures r.Ok? ==> Drew(c.World(), |old(c.log)|, me, r.value.tx.key, r.value.tx.nonce, N.Returned)
    // From a free lock that is when its RPC is answered, whatever others do meanwhile.
    ensures Free(old(c.lock)) ==>
      && (r.Ok? <==> env.rpc.Answered?)
      && (r.Err? ==> r.error == Quoted(old(c.World()), old(Presents(signer)), env.rpc).error)
    ensures Free(old(c.lock)) && env.fetch == [] ==>
      && Free(c.lock) && c.chain == old(c.chain)
      && c.nonces == CacheAfter(old(c.World()), old(Presents(signer)), env.rpc)
      && (r.Ok? ==> r.value.tx.nonce == Quoted(old(c.World()), old(Presents(signer)), env.rpc).value)
  {
    hide I.Inv, Spacious, Follows, RemovedKeys, GaveUp, CutOff, Drew, LastLook, FetchEnds, CacheAfter;
    var key := CacheKey(signer.Account(), signer.PublicKey());
    var nonce;
    nonce, trace := c.FetchNonce(me, key, env.fetch, room, env.rpc, start, sofar);
    if nonce.Err? {
      return Err(nonce.error), trace;
    }
    var signature := signer.Sign([]);
    r := Ok(SignedTransaction(S.Tx(key, nonce.value, signature.madeBy), receiver, actions));
  }

  function Times(k: CacheKey, n: nat): seq<CacheKey> {
    if n == 0 then [] else Times(k, n - 1) + [k]
  }

  lemma {:induction false} OnceMore(ks: seq<CacheKey>, k: CacheKey, n: nat)
    ensures ks + Times(k, n) + [k] == ks + Times(k, n + 1)
  {
  }

  lemma {:induction false} NonceErrorsGrow(es: seq<TxExecutionError>, i: nat)
    requires i <= |es|
    ensures NonceErrors(es[..i]) <= NonceErrors(es)
  {
    if i == |es| {
      assert es[..i] == es;
    } else {
      NonceErrorsGrow(es[..|es| - 1], i);
      assert es[..|es| - 1][..i] == es[..i];
    }
  }

  lemma {:induction false} NonceErrorsNext(es: seq<TxExecutionError>, i: nat)
    requires i < |es|
    ensures NonceErrors(es[..i + 1]) == NonceErrors(es[..i]) + (if IsNonceError(es[i]) then 1 else 0) <= NonceErrors(es)
  {
    assert es[..i + 1][..i] == es[..i];
    NonceErrorsGrow(es, i + 1);
  }

  /** The cache after so many removals of the key. */
  function Purged(nonces: map<CacheKey, nat>, key: CacheKey, purged: nat): map<CacheKey, nat> {
    if purged > 0 then nonces - {key} else nonces
  }

  lemma {:induction false} NothingYet(key: CacheKey)
    ensures NonceErrors([]) == 0 && Times(key, 0) == []
  {
  }

  /** Of `n` removals that began in `a`, `purged` are done, and `b` is where the others go on. */
  ghost predicate RemovalsLeft(a: N.State, n: nat, rounds: seq<seq<N.Label>>, b: N.State, purged: nat,
                               rest: seq<seq<N.Label>>, me: TaskId, key: CacheKey, room: nat)
  {
    && purged <= n
    && Removals(a, me, key, n, rounds, room) == purged + Removals(b, me, key, n - purged, rest, room)
    && RemovalsEnd(a, me, key, n, rounds, room) == RemovalsEnd(b, me, key, n - purged, rest, room)
  }

  /** The loop over the errors of an executed outcome. */
  method InvalidateForErrors(c: Client, me: TaskId, cacheKey: CacheKey, errs: seq<TxExecutionError>,
                             rounds: seq<seq<N.Label>>, room: nat, ghost start: N.State, ghost sofar: seq<N.Label>)
    returns (done: bool, ghost purged: nat, ghost trace: seq<N.Label>)
    requires c.Valid() && N.PcOf(c.World(), me).Idle? && Follows(start, sofar, c.World())
    modifies c
    ensures c.Valid() && N.PcOf(c.World(), me).Idle? && Follows(start, trace, c.World())
    ensures old(Spacious(c.World(), room)) ==> Spacious(c.World(), room)
    ensures |old(c.log)| <= |c.log|
    ensures purged == Removals(old(c.World()), me, cacheKey, NonceErrors(errs), rounds, room) <= NonceErrors(errs)
    ensures c.World() == RemovalsEnd(old(c.World()), me, cacheKey, NonceErrors(errs), rounds, room)
    ensures RemovedKeys(start, trace, me) == RemovedKeys(start, sofar, me) + Times(cacheKey, purged)
    ensures done <==> purged == NonceErrors(errs)
    ensures done && purged > 0 ==> cacheKey !in c.nonces
    ensures !done ==> GaveUp(start, trace, me)
  {
    hide I.Inv, Spacious, N.Run, N.Exec, RemovedKeys, GaveUp, NonceErrors, Times, Removals, RemovalsEnd, RemovalWait,
      RemovalEnds;
    ghost var a, n := c.World(), NonceErrors(errs);
    trace, purged, done := sofar, 0, true;
    var rest := rounds;
    assert errs[..0] == [];
    NothingYet(cacheKey);
    for i := 0 to |errs|
      invariant c.Valid() && N.PcOf(c.World(), me).Idle? && Follows(start, trace, c.World())
      invariant done && (old(Spacious(c.World(), room)) ==> Spacious(c.World(), room))
      invariant |old(c.log)| <= |c.log| && purged == NonceErrors(errs[..i]) <= n
      invariant RemovedKeys(start, trace, me) == RemovedKeys(start, sofar, me) + Times(cacheKey, purged)
      invariant purged > 0 ==> cacheKey !in c.nonces
      invariant RemovalsLeft(a, n, rounds, c.World(), purged, rest, me, cacheKey, room)
    {
      NonceErrorsNext(errs, i);
      if IsNonceError(errs[i]) {
        RemovalsNext(c.World(), me, cacheKey, n - purged, rest, room);
        done, rest, trace := c.InvalidateCache(me, cacheKey, rest, room, start, trace);
        if !done { return; }
        OnceMore(RemovedKeys(start, sofar, me), cacheKey, purged);
        purged := purged + 1;
      }
    }
    assert errs[..|errs|] == errs;
    NoRemovals(c.World(), me, cacheKey, rest, room);
  }

  /** check_and_invalidate_cache: the given entry is removed once for the InvalidNonce refusal, or once
      for each nonce error in an executed outcome, as long as the lock admits the task; no other entry is
      removed, and any other reply changes nothing at all. */
  method CheckAndInvalidate(c: Client, me: TaskId, cacheKey: CacheKey, reply: Reply, rounds: seq<seq<N.Label>>,
                            room: nat, ghost start: N.State, ghost sofar: seq<N.Label>)
    returns (done: bool, ghost purged: nat, ghost trace: seq<N.Label>)
    requires c.Valid() && N.PcOf(c.World(), me).Idle? && Follows(start, sofar, c.World())
    modifies c
    ensures c.Valid() && N.PcOf(c.World(), me).Idle? && Follows(start, trace, c.World())
    ensures old(Spacious(c.World(), room)) ==> Spacious(c.World(), room)
    ensures |old(c.log)| <= |c.log|
    // As many removals as the reply demands, up to the first that the lock does not admit.
    ensures purged == Removals(old(c.World()), me, cacheKey, Invalidations(reply), rounds, room) <= Invalidations(reply)
    ensures c.World() == RemovalsEnd(old(c.World()), me, cacheKey, Invalidations(reply), rounds, room)
    ensures RemovedKeys(start, trace, me) == RemovedKeys(start, sofar, me) + Times(cacheKey, purged)
    ensures done <==> purged == Invalidations(reply)
    ensures done && Invalidations(reply) > 0 ==> cacheKey !in c.nonces
    ensures Invalidations(reply) == 0 ==> c.World() == old(c.World())
    ensures !done ==> GaveUp(start, trace, me)
    // From a free lock: the entry is removed if and only if the reply says so, several matches have the
    // effect of one, and every other entry is untouched.
    ensures Free(old(c.lock)) ==>
      && done && Free(c.lock) && c.chain == old(c.chain)
      && c.nonces == Purged(old(c.nonces), cacheKey, Invalidations(reply))
      && c.nonces == (if DemandsRemoval(reply) then old(c.nonces) - {cacheKey} else old(c.nonces))
  {
    InvalidatesIff(reply);
    hide I.Inv, Spacious, Follows, RemovedKeys, GaveUp, NonceErrors, Removals, RemovalsEnd, RemovalWait, RemovalEnds;
    ghost var a := c.World();
    if Free(c.lock) { RemovalsAlone(a, me, cacheKey, Invalidations(reply), rounds, room); }
    NoRemovals(a, me, cacheKey, rounds, room);
    trace, purged, done := sofar, 0, true;
    if IsInvalidNonce(reply) {
      var rest;
      RemovalsNext(a, me, cacheKey, 1, rounds, room);
      done, rest, trace := c.InvalidateCache(me, cacheKey, rounds, room, start, trace);
      NoRemovals(c.World(), me, cacheKey, rest, room);
      purged := if done then 1 else 0;
    }
    if reply.Err? {
      return;
    }
    var errs := FetchTxErrs(reply.value);
    done, purged, trace := InvalidateForErrors(c, me, cacheKey, errs, rounds, room, start, trace);
  }

  /** The transaction is sent, and the reply checked when it is here. */
  method SendAndCheck(c: Client, me: TaskId, cacheKey: CacheKey, env: Env, room: nat,
                      ghost start: N.State, ghost sofar: seq<N.Label>)
    returns (done: bool, ghost purged: nat, ghost trace: seq<N.Label>)
    requires c.Valid() && N.PcOf(c.World(), me).Idle? && Follows(start, sofar, c.World())
    modifies c
    ensures c.Valid() && N.PcOf(c.World(), me).Idle? && Follows(start, trace, c.World())
    ensures old(Spacious(c.World(), room)) ==> Spacious(c.World(), room)
    ensures |old(c.log)| <= |c.log|
    ensures var answered := Moved(old(c.World()), env.sent, me, room); var n := Invalidations(env.reply);
      && purged == Removals(answered, me, cacheKey, n, env.purge, room) <= n && (done <==> purged == n)
      && c.World() == RemovalsEnd(answered, me, cacheKey, n, env.purge, room)
    ensures RemovedKeys(start, trace, me) == RemovedKeys(start, sofar, me) + Times(cacheKey, purged)
    ensures done && purged > 0 ==> cacheKey !in c.nonces
    ensures !done ==> GaveUp(start, trace, me)
    ensures Free(old(c.lock)) && env.sent == [] ==>
      && done && Free(c.lock) && c.chain == old(c.chain)
      && c.nonces == Purged(old(c.nonces), cacheKey, Invalidations(env.reply))
  {
    hide I.Inv, Spacious, Follows, RemovedKeys, GaveUp, Invalidations, Removals, RemovalsEnd;
    trace := c.Others(me, env.sent, room, start, sofar);
    done, purged, trace := CheckAndInvalidate(c, me, cacheKey, env.reply, env.purge, room, start, trace);
  }

  // ----- One attempt -----

  /** The history of one attempt: the run of the nonce protocol it contains, the transaction if it came
      to one, how often it removed the entry, and its result. */
  datatype Attempt = Attempt(
    before: N.State,
    trace: seq<N.Label>,
    after: N.State,
    tx: Option<SignedTransaction>,
    purged: nat,
    result: Result<FinalOutcome, Error>)

  /** The state that an attempt leaves. */
  function AttemptEnds(s: N.State, me: TaskId, key: CacheKey, env: Env, room: nat): N.State {
    var fetched := FetchEnds(s, me, key, env.fetch, env.rpc, room);
    if LastLook(s, me, key, env.fetch, room + 1).granted && env.rpc.Answered? then
      RemovalsEnd(Moved(fetched, env.sent, me, room), me, key, Invalidations(env.reply), env.purge, room)
    else fetched
  }

  /** How many of the removals that the reply demands the lock admits. */
  function AttemptPurges(s: N.State, me: TaskId, key: CacheKey, env: Env, room: nat): nat {
    var fetched := FetchEnds(s, me, key, env.fetch, env.rpc, room);
    Removals(Moved(fetched, env.sent, me, room), me, key, Invalidations(env.reply), env.purge, room)
  }

  /** An attempt that starts from a free lock gets its nonce if the node answers; and if nobody moves
      before the reply is here, everything about it is settled. */
  ghost predicate Served(a: Attempt, key: CacheKey, env: Env) {
    && (a.tx.Some? <==> env.rpc.Answered?)
    && (a.tx.None? ==> a.result == Err(Quoted(a.before, key, env.rpc).error))
    && (Calm(env) ==> Free(a.after.lock) && a.after.chain == a.before.chain)
    && (Calm(env) && a.tx.None? ==> a.after.cache == CacheAfter(a.before, key, env.rpc))
    && (Calm(env) && a.tx.Some? ==>
          && a.tx.value.tx.nonce == Quoted(a.before, key, Answered).value
          && Means(env.reply, a.result)
          && a.after.cache ==
             Purged(a.before.cache[key := a.tx.value.tx.nonce], key, Invalidations(env.reply)))
  }

  /** An attempt with the given key and environment that has gone as `send_tx_once` promises. */
  ghost predicate Ran(a: Attempt, me: TaskId, key: CacheKey, receiver: AccountId, actions: seq<Action>, env: Env,
                      room: nat)
  {
    var look := LastLook(a.before, me, key, env.fetch, room + 1);
    && Follows(a.before, a.trace, a.after) && |a.before.log| <= |a.after.log|
    && RemovedKeys(a.before, a.trace, me) == Times(key, a.purged)
    && a.after == AttemptEnds(a.before, me, key, env, room)
    // It comes to a transaction if and only if the lock admits it each time it asks for its nonce, and its
    // RPC is answered.
    && (a.tx.Some? <==> look.granted && env.rpc.Answered?)
    && (match a.tx
        case None => a.purged == 0 && a.result == Err(FetchError(look, key, env.rpc))
        // The transaction has the key and a fresh nonce; the reply decides the result, and how often the
        // entry that issued the nonce is removed.
        case Some(x) =>
          && Made(x, key, receiver, actions)
          && Drew(a.after, |a.before.log|, me, key, x.tx.nonce, N.Returned)
          && a.purged == AttemptPurges(a.before, me, key, env, room) <= Invalidations(env.reply)
          && (if a.purged == Invalidations(env.reply) then Means(env.reply, a.result) else a.result == Err(Dropped))
          && (0 < a.purged == Invalidations(env.reply) ==> key !in a.after.cache))
    // It is dropped only where it waits.
    && (a.result == Err(Dropped) ==>
          GaveUp(a.before, a.trace, me) || (env.rpc.Cancelled? && CutOff(a.before, a.trace, me)))
    && (Free(a.before.lock) ==> Served(a, key, env))
  }

  lemma {:induction false} NoSteps(s: N.State, me: TaskId)
    ensures Follows(s, [], s) && RemovedKeys(s, [], me) == []
  {
  }

  lemma CacheIfAnswered(s: N.State, key: CacheKey)
    ensures Quoted(s, key, Answered).Ok?
    ensures CacheAfter(s, key, Answered) == s.cache[key := Quoted(s, key, Answered).value]
  {
  }

  lemma {:induction false} ReplyReadsBack(reply: Reply, r: Result<FinalOutcome, Error>, o: FinalOutcome, v: Bytes)
    requires Means(reply, r) && Carries(reply, o) && o.status == FinalSuccess(v)
    ensures r == Ok(o) && ReadsBack(o, v)
  {
    ValueRoundTrip(o);
  }

  lemma {:induction false} NeverDropped(reply: Reply)
    ensures SendResult(reply) != Err(Dropped)
  {
  }

  /** send_tx_once: the cache key is read first and used for the invalidation, when the signer has
      already rotated. */
  method SendTxOnce(c: Client, me: TaskId, signer: KeyRotatingSigner, receiver: AccountId, actions: seq<Action>,
                    env: Env, room: nat)
    returns (r: Result<FinalOutcome, Error>, ghost a: Attempt)
    requires c.Valid() && signer.Valid() && N.PcOf(c.World(), me).Idle? && Spacious(c.World(), room + 1)
    modifies c, signer
    ensures c.Valid() && signer.Valid() && N.PcOf(c.World(), me).Idle? && Spacious(c.World(), room)
    ensures a.before == old(c.World()) && a.after == c.World() && a.result == r
    ensures Ran(a, me, old(Presents(signer)), receiver, actions, env, room)
    ensures signer.counter == if a.tx.Some? then Rotated(old(signer.counter), signer.word) else old(signer.counter)
    // Undisturbed, what a contract has returned is what the user reads.
    ensures Free(old(c.lock)) && Calm(env) && env.rpc.Answered? ==>
      forall o, v :: Carries(env.reply, o) && o.status == FinalSuccess(v) ==> r == Ok(o) && ReadsBack(r.value, v)
  {
    hide I.Inv, Spacious, Follows, RemovedKeys, GaveUp, CutOff, Drew, Invalidations, Quoted, CacheAfter,
      LastLook, FetchEnds, Moved, Removals, RemovalsEnd, Means, ReadsBack, Carries;
    var cacheKey := CacheKey(signer.Account(), signer.PublicKey());
    ghost var start := c.World();
    NoSteps(start, me);
    CacheIfAnswered(start, cacheKey);
    SendResultMeans(env.reply, SendResult(env.reply));
    NeverDropped(env.reply);
    var signed;
    ghost var trace;
    signed, trace := SignTx(c, me, signer, receiver, actions, env, room, start, []);
    if signed.Err? {
      r := Err(signed.error);
      a := Attempt(start, trace, c.World(), None, 0, r);
      return;
    }
    ghost var mid := c.World();
    NoSteps(mid, me);
    var done;
    ghost var purged, rest;
    done, purged, rest := SendAndCheck(c, me, cacheKey, env, room, mid, []);
    r := if done then SendResult(env.reply) else Err(Dropped);
    a := Attempt(start, trace + rest, c.World(), Some(signed.value), purged, r);
    Extend(start, trace, mid, rest, c.World(), me);
    DrewStays(mid, rest, c.World(), |start.log|, me, cacheKey, signed.value.tx.nonce);
    if !done { GaveUpLater(start, trace, mid, rest, me); }
    forall o, v | Carries(env.reply, o) && o.status == FinalSuccess(v) && done ensures r == Ok(o) && ReadsBack(o, v) {
      ReplyReadsBack(env.reply, r, o, v);
    }
  }

  // ----- Sending without waiting for the outcome -----

  /** The node reports an error of its handler. */
  ghost predicate Handled(reply: Reply) { exists h :: reply == Err(ServerError(HandlerError(h))) }

  /** What is left after the reply: an entry is removed exactly for a handler error, if the lock admits it. */
  ghost predicate AsyncEnds(answered: N.State, after: N.State, me: TaskId, key: CacheKey, env: Env, room: nat,
                            removed: bool, r: Result<SignedTransaction, Error>)
  {
    if Handled(env.reply) then
      var w := RemovalWait(answered, me, key, env.purge, room);
      && after == RemovalEnds(w, me) && removed == w.granted
      && (w.granted ==> forall e :: env.reply == Err(e) ==> r == Err(RpcTransactionFailure(e)))
      && (!w.granted ==> r == Err(Dropped))
    else
      && after == answered && !removed && (env.reply.Ok? ==> r.Ok?)
      && forall e :: env.reply == Err(e) ==> r == Err(RpcTransactionFailure(e))
  }

  lemma {:induction false} HandlerErrors(reply: Reply)
    ensures Handled(reply) <==> reply.Err? && reply.error.ServerError? && reply.error.server.HandlerError?
  {
    if reply.Err? && reply.error.ServerError? && reply.error.server.HandlerError? {
      assert reply == Err(ServerError(HandlerError(reply.error.server.handler)));
    }
  }

  /** send_tx_async: the entry is invalidated on any handler error, and only the hash is returned. */
  method SendTxAsync(c: Client, me: TaskId, signer: KeyRotatingSigner, receiver: AccountId, actions: seq<Action>,
                     env: Env, room: nat, ghost start: N.State, ghost sofar: seq<N.Label>)
    returns (r: Result<SignedTransaction, Error>, ghost removed: bool, ghost trace: seq<N.Label>)
    requires c.Valid() && signer.Valid() && N.PcOf(c.World(), me).Idle?
    requires Spacious(c.World(), room + 1) && Follows(start, sofar, c.World())
    modifies c, signer
    ensures c.Valid() && signer.Valid() && N.PcOf(c.World(), me).Idle?
    ensures Spacious(c.World(), room) && Follows(start, trace, c.World())
    ensures RemovedKeys(start, trace, me) ==
      RemovedKeys(start, sofar, me) + (if removed then [old(Presents(signer))] else [])
    ensures r.Ok? ==> Made(r.value, old(Presents(signer)), receiver, actions)
    // Without a nonce nothing is sent; else the reply decides.
    ensures var key := old(Presents(signer)); var look := LastLook(old(c.World()), me, key, env.fetch, room + 1);
      var fetched := FetchEnds(old(c.World()), me, key, env.fetch, env.rpc, room);
      if look.granted && env.rpc.Answered? then
        AsyncEnds(Moved(fetched, env.sent, me, room), c.World(), me, key, env, room, removed, r)
      else c.World() == fetched && !removed && r == Err(FetchError(look, key, env.rpc))
    ensures r == Err(Dropped) ==> GaveUp(start, trace, me) || (env.rpc.Cancelled? && CutOff(start, trace, me))
    // Undisturbed: the entry goes if and only if the reply is a handler error, the others stay as they are,
    // and the result is what the reply says.
    ensures Free(old(c.lock)) && env.rpc.Answered? && Calm(env) ==>
      var key := old(Presents(signer));
      && (key !in c.nonces <==> exists h :: env.reply == Err(ServerError(HandlerError(h))))
      && (removed <==> exists h :: env.reply == Err(ServerError(HandlerError(h))))
      && (forall k :: k != key ==>
            (k in c.nonces <==> k in old(c.nonces)) && (k in c.nonces ==> c.nonces[k] == old(c.nonces)[k]))
      && (env.reply.Ok? <==> r.Ok?) && (forall e :: env.reply == Err(e) ==> r == Err(RpcTransactionFailure(e)))
      && Free(c.lock)
  {
    hide I.Inv, Spacious, Follows, RemovedKeys, GaveUp, CutOff, Drew, LastLook, FetchEnds, RemovalWait, RemovalEnds,
      Quoted;
    var cacheKey := CacheKey(signer.Account(), signer.PublicKey());
    CacheIfAnswered(c.World(), cacheKey);
    removed := false;
    r, trace := SignTx(c, me, signer, receiver, actions, env, room, start, sofar);
    if r.Err? {
      return;
    }
    trace := c.Others(me, env.sent, room, start, trace);
    HandlerErrors(env.reply);
    if env.reply.Err? && env.reply.error.ServerError? && env.reply.error.server.HandlerError? {
      var done, rest;
      done, rest, trace := c.InvalidateCache(me, cacheKey, env.purge, room, start, trace);
      removed := done;
      if !done { return Err(Dropped), removed, trace; }
    }
    if env.reply.Err? {
      r := Err(RpcTransactionFailure(env.reply.error));
    }
  }

  // ----- Retrying -----

  function KeysOf(signers: seq<InMemorySigner>): (keys: seq<PublicKey>)
    ensures |keys| == |signers|
  {
    seq(|signers|, i requires 0 <= i < |signers| => PublicOf(signers[i].secret))
  }

  /** What a signer presents after `n` signatures in all. */
  function PresentedAt(signers: seq<InMemorySigner>, word: nat, n: nat): CacheKey
    requires signers != [] && word > 0
  {
    CacheKey(signers[n % word % |signers|].account, KeyAt(KeysOf(signers), word, n))
  }

  /** How many of the attempts came to a transaction. */
  function SentCount(attempts: seq<Attempt>): nat {
    if attempts == [] then 0
    else SentCount(attempts[..|attempts| - 1]) + (if attempts[|attempts| - 1].tx.Some? then 1 else 0)
  }

  /** A retry loop: its task, its signer with the counter it starts from, what it sends, its environment
      attempt by attempt, and the room for nonces during its first attempt. */
  datatype Plan = Plan(me: TaskId, signers: seq<InMemorySigner>, word: nat, first: nat, receiver: AccountId,
                       actions: seq<Action>, env: nat -> Env, room: nat)

  predicate HasKeys(p: Plan) { p.signers != [] && p.word > 0 }

  /** Every attempt may take up room for one nonce. */
  function RoomFor(p: Plan, j: nat): nat { if j <= p.room then p.room - j else 0 }

  /** The key of an attempt before which so many have come to a transaction. */
  function KeyAfter(p: Plan, sent: nat): CacheKey
    requires HasKeys(p)
  {
    PresentedAt(p.signers, p.word, p.first + sent)
  }

  /** Attempt `j` has gone as promised, with the key that the signer presents after the signatures of the
      attempts before it. */
  ghost predicate RanAt(attempts: seq<Attempt>, j: nat, p: Plan)
    requires j < |attempts| && HasKeys(p)
  {
    Ran(attempts[j], p.me, KeyAfter(p, SentCount(attempts[..j])), p.receiver, p.actions, p.env(j), RoomFor(p, j))
  }

  ghost predicate AllRan(attempts: seq<Attempt>, p: Plan)
    requires HasKeys(p)
  {
    forall j :: 0 <= j < |attempts| ==> RanAt(attempts, j, p)
  }

  /** The attempts follow one another without a gap, from one state to the other. */
  predicate Linked(attempts: seq<Attempt>, a: N.State, b: N.State) {
    if attempts == [] then a == b
    else
      && attempts[0].before == a && attempts[|attempts| - 1].after == b
      && forall j :: 0 <= j < |attempts| - 1 ==> attempts[j].after == attempts[j + 1].before
  }

  function TraceOf(attempts: seq<Attempt>): seq<N.Label> {
    if attempts == [] then [] else TraceOf(attempts[..|attempts| - 1]) + attempts[|attempts| - 1].trace
  }

  /** The keys whose entries the attempts have removed, in order. */
  function PurgedKeys(attempts: seq<Attempt>): seq<CacheKey> {
    if attempts == [] then []
    else
      var last := attempts[|attempts| - 1];
      PurgedKeys(attempts[..|attempts| - 1]) + (if last.tx.Some? then Times(last.tx.value.tx.key, last.purged) else [])
  }

  /** The attempts are all that happens between the two states: they follow one another, each goes as
      `send_tx_once` promises, and together they are a run of the nonce protocol. */
  ghost predicate Looped(attempts: seq<Attempt>, a: N.State, b: N.State, p: Plan)
    requires HasKeys(p)
  {
    && AllRan(attempts, p)
    && Linked(attempts, a, b)
    && Follows(a, TraceOf(attempts), b) && RemovedKeys(a, TraceOf(attempts), p.me) == PurgedKeys(attempts)
  }

  lemma {:induction false} TurnKey(signer: KeyRotatingSigner, c0: nat, m: nat)
    requires signer.Valid() && c0 < signer.word && signer.counter == Rotations(c0, signer.word, m)
    ensures Presents(signer) == PresentedAt(signer.signers, signer.word, c0 + m)
  {
    RotationsClosed(c0, signer.word, m);
  }

  lemma {:induction false} RotationsNext(counter: nat, word: nat, m: nat)
    requires counter < word
    ensures Rotations(counter, word, m + 1) == Rotated(Rotations(counter, word, m), word)
    decreases m
  {
    if m > 0 { RotationsNext(Rotated(counter, word), word, m - 1); }
  }

  lemma {:induction false} AttemptRuns(a: Attempt, me: TaskId, key: CacheKey, receiver: AccountId,
      actions: seq<Action>, env: Env, room: nat)
    requires Ran(a, me, key, receiver, actions, env, room)
    ensures Follows(a.before, a.trace, a.after)
    ensures RemovedKeys(a.before, a.trace, me) == if a.tx.Some? then Times(a.tx.value.tx.key, a.purged) else []
  {
  }

  lemma {:induction false} OneMoreRan(attempts: seq<Attempt>, a: Attempt, p: Plan)
    requires HasKeys(p) && AllRan(attempts, p)
    requires var n := |attempts|;
      Ran(a, p.me, KeyAfter(p, SentCount(attempts)), p.receiver, p.actions, p.env(n), RoomFor(p, n))
    ensures AllRan(attempts + [a], p)
  {
    hide Ran, KeyAfter, SentCount;
    var more, n := attempts + [a], |attempts|;
    assert more[..n] == attempts;
    forall j | 0 <= j < |more| ensures RanAt(more, j, p) {
      if j < n {
        assert RanAt(attempts, j, p);
        assert more[..j] == attempts[..j];
      }
    }
  }

  lemma {:induction false} OneMoreSent(attempts: seq<Attempt>, a: Attempt)
    ensures SentCount(attempts + [a]) == SentCount(attempts) + (if a.tx.Some? then 1 else 0)
  {
    assert (attempts + [a])[..|attempts|] == attempts;
  }

  lemma {:induction false} OneMoreTrace(attempts: seq<Attempt>, a: Attempt, start: N.State, me: TaskId)
    requires Follows(start, TraceOf(attempts), a.before)
    requires RemovedKeys(start, TraceOf(attempts), me) == PurgedKeys(attempts)
    requires Follows(a.before, a.trace, a.after)
    requires RemovedKeys(a.before, a.trace, me) == if a.tx.Some? then Times(a.tx.value.tx.key, a.purged) else []
    ensures var more := attempts + [a];
      Follows(start, TraceOf(more), a.after) && RemovedKeys(start, TraceOf(more), me) == PurgedKeys(more)
  {
    hide Follows, RemovedKeys;
    assert (attempts + [a])[..|attempts|] == attempts;
    Extend(start, TraceOf(attempts), a.before, a.trace, a.after, me);
  }

  lemma {:induction false} OneMoreAttempt(attempts: seq<Attempt>, a: Attempt, start: N.State, p: Plan)
    requires HasKeys(p) && Looped(attempts, start, a.before, p)
    requires var n := |attempts|;
      Ran(a, p.me, KeyAfter(p, SentCount(attempts)), p.receiver, p.actions, p.env(n), RoomFor(p, n))
    ensures Looped(attempts + [a], start, a.after, p)
    ensures SentCount(attempts + [a]) == SentCount(attempts) + (if a.tx.Some? then 1 else 0)
  {
    hide Ran, KeyAfter, AllRan, Follows, RemovedKeys, TraceOf, PurgedKeys, SentCount;
    var n := |attempts|;
    OneMoreSent(attempts, a);
    OneMoreRan(attempts, a, p);
    AttemptRuns(a, p.me, KeyAfter(p, SentCount(attempts)), p.receiver, p.actions, p.env(n), RoomFor(p, n));
    OneMoreTrace(attempts, a, start, p.me);
  }

  /** One more attempt of a loop. */
  method Again(c: Client, me: TaskId, signer: KeyRotatingSigner, receiver: AccountId, actions: seq<Action>,
               env: Env, room: nat, ghost start: N.State, ghost p: Plan, ghost attempts: seq<Attempt>)
    returns (r: Result<FinalOutcome, Error>, ghost a: Attempt)
    requires c.Valid() && signer.Valid() && N.PcOf(c.World(), me).Idle? && Spacious(c.World(), room + 1)
    requires p.me == me && p.receiver == receiver && p.actions == actions && p.env(|attempts|) == env
    requires p.signers == signer.signers && p.word == signer.word && RoomFor(p, |attempts|) == room
    requires p.first < signer.word && signer.counter == Rotations(p.first, signer.word, SentCount(attempts))
    requires Looped(attempts, start, c.World(), p)
    modifies c, signer
    ensures c.Valid() && signer.Valid() && N.PcOf(c.World(), me).Idle? && Spacious(c.World(), room)
    ensures r == a.result && signer.counter == Rotations(p.first, signer.word, SentCount(attempts + [a]))
    ensures Looped(attempts + [a], start, c.World(), p)
  {
    hide I.Inv, Spacious, Ran, Looped, Presents, PresentedAt, SentCount, Rotations, RoomFor;
    TurnKey(signer, p.first, SentCount(attempts));
    RotationsNext(p.first, signer.word, SentCount(attempts));
    r, a := SendTxOnce(c, me, signer, receiver, actions, env, room);
    OneMoreAttempt(attempts, a, start, p);
  }

  /** A retryable transaction: it is attempted again while an attempt fails and a retry remains. A
      missing strategy is one without retries; a dropped task makes no further attempt. */
  method Retry(c: Client, me: TaskId, signer: KeyRotatingSigner, receiver: AccountId,
               actions: Result<seq<Action>, Error>, retries: nat, env: nat -> Env, room: nat)
    returns (r: Result<FinalOutcome, Error>, ghost attempts: seq<Attempt>)
    requires c.Valid() && signer.Valid() && N.PcOf(c.World(), me).Idle? && Spacious(c.World(), room + retries + 1)
    modifies c, signer
    ensures c.Valid() && signer.Valid()
    // Errors met while building come back at once, without an attempt.
    ensures actions.Err? ==> r == Err(actions.error) && attempts == [] && c.World() == old(c.World())
    // Attempt after attempt goes as `send_tx_once` promises, with the same actions, and each that gets a
    // nonce is signed by the next key.
    ensures actions.Ok? ==>
      Looped(attempts, old(c.World()), c.World(),
             Plan(me, signer.signers, signer.word, old(signer.counter), receiver, actions.value, env, room + retries))
    ensures signer.counter == Rotations(old(signer.counter), signer.word, SentCount(attempts))
    // The first success, or the last error once every attempt is used up.
    ensures actions.Ok? ==> 0 < |attempts| <= retries + 1 && r == attempts[|attempts| - 1].result
    ensures forall j :: 0 <= j < |attempts| - 1 ==> attempts[j].result.Err? && attempts[j].result != Err(Dropped)
    ensures actions.Ok? && r.Err? && r != Err(Dropped) ==> |attempts| == retries + 1
  {
    attempts := [];
    if actions.Err? {
      return Err(actions.error), attempts;
    }
    ghost var start, first := c.World(), signer.counter;
    ghost var p := Plan(me, signer.signers, signer.word, first, receiver, actions.value, env, room + retries);
    assert Looped(attempts, start, start, p);
    hide I.Inv, Spacious, Ran, Looped, Rotations, SentCount;
    var i := 0;
    while true
      invariant i <= retries && |attempts| == i
      invariant c.Valid() && signer.Valid() && N.PcOf(c.World(), me).Idle?
      invariant Spacious(c.World(), room + (retries - i) + 1) && Looped(attempts, start, c.World(), p)
      invariant signer.counter == Rotations(first, signer.word, SentCount(attempts))
      invariant forall j :: 0 <= j < i ==> attempts[j].result.Err? && attempts[j].result != Err(Dropped)
      decreases retries - i
    {
      ghost var a;
      r, a := Again(c, me, signer, receiver, actions.value, env(i), room + (retries - i), start, p, attempts);
      attempts := attempts + [a];
      if r.Ok? || r == Err(Dropped) || i == retries {
        return;
      }
      i := i + 1;
    }
  }

  /** With nobody moving while replies are awaited and all RPCs answered, a retry loop that starts from a
      free lock sends in every attempt, each time with the next key, and its results are what the
      replies say: what a contract has returned is what the user reads. */
  lemma {:induction false} RetryUndisturbed(attempts: seq<Attempt>, b: N.State, j: nat, p: Plan)
    requires HasKeys(p) && AllRan(attempts, p)
    requires j < |attempts| && Linked(attempts, attempts[0].before, b) && Free(attempts[0].before.lock)
    requires forall i :: 0 <= i < |attempts| ==> Calm(p.env(i)) && p.env(i).rpc.Answered?
    ensures attempts[j].tx.Some? && Means(p.env(j).reply, attempts[j].result)
    ensures forall o, v :: Carries(p.env(j).reply, o) && o.status == FinalSuccess(v) ==>
      attempts[j].result == Ok(o) && ReadsBack(o, v)
    ensures Made(attempts[j].tx.value, KeyAfter(p, j), p.receiver, p.actions)
    ensures SentCount(attempts[..j]) == j && Free(attempts[j].after.lock)
    decreases j
  {
    hide Follows, RemovedKeys, GaveUp, CutOff, Drew, Quoted, CacheAfter, KeyAfter, Invalidations, Means, Carries,
      ReadsBack, LastLook, AttemptEnds, AttemptPurges;
    if j > 0 {
      RetryUndisturbed(attempts, b, j - 1, p);
      assert attempts[..j][..j - 1] == attempts[..j - 1];
    }
    assert RanAt(attempts, j, p);
    forall o, v | Carries(p.env(j).reply, o) && o.status == FinalSuccess(v)
      ensures attempts[j].result == Ok(o) && ReadsBack(o, v)
    {
      ReplyReadsBack(p.env(j).reply, attempts[j].result, o, v);
    }
  }
}
