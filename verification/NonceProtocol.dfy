/** The nonce cache as a labelled transition system.

    Any number of tasks share one cache behind one reader/writer lock, and run `fetch_nonce` and
    `invalidate_cache` on it. A task can be interleaved with the others at every step, an RPC can
    fail, and a task can be dropped at every await. A label names the task that moves and what it
    does; a run is the sequence of its labels. */
module NonceProtocol {
  import opened Types

  /** tokio's lock is fair: tasks are admitted strictly in the order in which they asked. */
  datatype Lock = Lock(readers: set<TaskId>, writer: Option<TaskId>, queue: seq<TaskId>)

  /** Where a task is inside a call. `i` is the position in the log of the ticket it has drawn. */
  datatype Pc =
    | Idle
    | WaitRead(key: CacheKey)             // queued for the read guard
    | ReadHeld(key: CacheKey)             // read guard held, about to look the key up
    | ReadBlock(key: CacheKey, i: nat)    // nonce drawn, block queried under the read guard
    | Missed(key: CacheKey)               // read guard dropped, write guard not yet asked for
    | WaitWrite(key: CacheKey)            // queued for the write guard
    | WriteHeld(key: CacheKey)            // write guard held, about to look the key up again
    | WriteBlock(key: CacheKey, i: nat)   // nonce drawn, block queried under the write guard
    | Query(key: CacheKey)                // still vacant: access key queried under the write guard
    | Loaded(key: CacheKey, read: nat)    // the node has answered `read`, which is on its way back
    | Filled(key: CacheKey, i: nat)       // entry inserted, about to return
    | WaitRemove(key: CacheKey)           // invalidate_cache: queued for the write guard
    | RemoveHeld(key: CacheKey)           // invalidate_cache: write guard held
    | Removed(key: CacheKey)              // invalidate_cache: entry gone, about to return

  /** A nonce handed out. Epoch `e` of a key runs from its `e`-th insert to the next removal. */
  datatype Ticket = Ticket(key: CacheKey, epoch: nat, nonce: nat, task: TaskId)

  /** What became of a ticket: still held inside the call, returned to the caller, or lost to a
      failed block query or a dropped task. */
  datatype Fate = Pending | Returned | Burned

  /** `cache` is the map behind the lock and `chain` the access key nonces on chain (0 where absent).
      The rest is history: `log[i]` is the `i`-th ticket with fate `fates[i]`, and `bases[k][e]` is
      the chain nonce that the query opening epoch `e` of `k` has read. */
  datatype State = State(
    lock: Lock,
    cache: map<CacheKey, nat>,
    chain: map<CacheKey, nat>,
    pcs: map<TaskId, Pc>,
    log: seq<Ticket>,
    fates: seq<Fate>,
    bases: map<CacheKey, seq<nat>>)

  const Init: State := State(Lock({}, None, []), map[], map[], map[], [], [], map[])

  datatype Label =
    | CallFetch(task: TaskId, key: CacheKey)
    | CallInvalidate(task: TaskId, key: CacheKey)
    | Grant(task: TaskId)     // the head of the queue gets its guard
    | Hit(task: TaskId)       // entry present: fetch_add
    | Miss(task: TaskId)      // entry absent under the read guard: drop the guard
    | Requeue(task: TaskId)   // ask for the write guard
    | Vacant(task: TaskId)    // entry absent under the write guard: query the access key
    | Load(task: TaskId)      // the node reads the access key's nonce
    | Fill(task: TaskId)      // its answer arrives: insert
    | Remove(task: TaskId)
    | Return(task: TaskId)    // the call returns Ok
    | Fail(task: TaskId)      // an RPC fails and the call returns Err
    | Drop(task: TaskId)      // the future is dropped at an await
    | Advance(key: CacheKey, nonce: nat)  // the chain moves a key's nonce

  // ----- Reading a state -----

  function PcOf(s: State, t: TaskId): Pc {
    if t in s.pcs then s.pcs[t] else Idle
  }

  function ChainOf(s: State, k: CacheKey): nat {
    if k in s.chain then s.chain[k] else 0
  }

  function BasesOf(s: State, k: CacheKey): seq<nat> {
    if k in s.bases then s.bases[k] else []
  }

  /** The epoch of a present entry: the one its last insert has opened. */
  function CurrentEpoch(s: State, k: CacheKey): nat {
    if BasesOf(s, k) == [] then 0 else |BasesOf(s, k)| - 1
  }

  predicate Querying(pc: Pc) { pc.Query? || pc.Loaded? }

  predicate ReadGuard(pc: Pc) { pc.ReadHeld? || pc.ReadBlock? }

  predicate WriteGuard(pc: Pc) {
    pc.WriteHeld? || pc.WriteBlock? || Querying(pc) || pc.Filled? || pc.RemoveHeld? || pc.Removed?
  }

  predicate Guarded(pc: Pc) { ReadGuard(pc) || WriteGuard(pc) }

  predicate Waiting(pc: Pc) { pc.WaitRead? || pc.WaitWrite? || pc.WaitRemove? }

  predicate HasTicket(pc: Pc) { pc.ReadBlock? || pc.WriteBlock? || pc.Filled? }

  /** The points at which the source awaits, so a future can be dropped there. */
  predicate AtAwait(pc: Pc) { Waiting(pc) || pc.ReadBlock? || pc.WriteBlock? || Querying(pc) }

  predicate InRemove(pc: Pc) { pc.WaitRemove? || pc.RemoveHeld? || pc.Removed? }

  predicate InFetch(pc: Pc) { !pc.Idle? && !InRemove(pc) }

  // ----- The lock -----

  function Without(queue: seq<TaskId>, t: TaskId): seq<TaskId> {
    if queue == [] then [] else if queue[0] == t then queue[1..] else [queue[0]] + Without(queue[1..], t)
  }

  function Join(lock: Lock, t: TaskId): Lock { lock.(queue := lock.queue + [t]) }

  /** Whatever the task holds or waits for is given up. */
  function Release(lock: Lock, t: TaskId): Lock {
    Lock(lock.readers - {t}, if lock.writer == Some(t) then None else lock.writer, Without(lock.queue, t))
  }

  function Admit(lock: Lock, t: TaskId, pc: Pc): Lock
    requires lock.queue != []
  {
    if pc.WaitRead? then lock.(readers := lock.readers + {t}, queue := lock.queue[1..])
    else lock.(writer := Some(t), queue := lock.queue[1..])
  }

  function Admitted(pc: Pc): Pc
    requires Waiting(pc)
  {
    match pc
    case WaitRead(k) => ReadHeld(k)
    case WaitWrite(k) => WriteHeld(k)
    case WaitRemove(k) => RemoveHeld(k)
  }

  // ----- Steps -----

  predicate Enabled(s: State, l: Label) {
    match l
    case CallFetch(t, k) => PcOf(s, t).Idle?
    case CallInvalidate(t, k) => PcOf(s, t).Idle?
    case Grant(t) =>
      && s.lock.queue != [] && s.lock.queue[0] == t
      && Waiting(PcOf(s, t))
      && s.lock.writer.None?
      && (PcOf(s, t).WaitRead? || s.lock.readers == {})
    case Hit(t) =>
      && (PcOf(s, t).ReadHeld? || PcOf(s, t).WriteHeld?)
      && PcOf(s, t).key in s.cache
      && s.cache[PcOf(s, t).key] + 1 < U64
    case Miss(t) => PcOf(s, t).ReadHeld? && PcOf(s, t).key !in s.cache
    case Requeue(t) => PcOf(s, t).Missed?
    case Vacant(t) => PcOf(s, t).WriteHeld? && PcOf(s, t).key !in s.cache
    case Load(t) => PcOf(s, t).Query?
    case Fill(t) => PcOf(s, t).Loaded? && PcOf(s, t).read + 1 < U64
    case Remove(t) => PcOf(s, t).RemoveHeld?
    case Return(t) => HasTicket(PcOf(s, t)) || PcOf(s, t).Removed?
    case Fail(t) => Querying(PcOf(s, t)) || PcOf(s, t).ReadBlock? || PcOf(s, t).WriteBlock?
    case Drop(t) => AtAwait(PcOf(s, t))
    case Advance(k, n) => ChainOf(s, k) <= n < U64
  }

  /** A present entry: the stored nonce moves up by one and the new value is the caller's. */
  function Draw(s: State, t: TaskId, k: CacheKey): State
    requires k in s.cache
  {
    var n := s.cache[k] + 1;
    s.(cache := s.cache[k := n],
       log := s.log + [Ticket(k, CurrentEpoch(s, k), n, t)],
       fates := s.fates + [Pending],
       pcs := s.pcs[t := if PcOf(s, t).ReadHeld? then ReadBlock(k, |s.log|) else WriteBlock(k, |s.log|)])
  }

  /** A vacant entry: it starts one above the nonce `c` read on chain, and that value is the caller's. */
  function Open(s: State, t: TaskId, k: CacheKey, c: nat): State {
    s.(cache := s.cache[k := c + 1],
       log := s.log + [Ticket(k, |BasesOf(s, k)|, c + 1, t)],
       fates := s.fates + [Pending],
       bases := s.bases[k := BasesOf(s, k) + [c]],
       pcs := s.pcs[t := Filled(k, |s.log|)])
  }

  /** The call ends: its guard is released and its ticket, if any, gets the given fate. */
  function Leave(s: State, t: TaskId, fate: Fate): State
  {
    var pc := PcOf(s, t);
    s.(lock := Release(s.lock, t),
       fates := if HasTicket(pc) && pc.i < |s.fates| then s.fates[pc.i := fate] else s.fates,
       pcs := s.pcs[t := Idle])
  }

  function Step(s: State, l: Label): State
    requires Enabled(s, l)
  {
    match l
    case CallFetch(t, k) => s.(lock := Join(s.lock, t), pcs := s.pcs[t := WaitRead(k)])
    case CallInvalidate(t, k) => s.(lock := Join(s.lock, t), pcs := s.pcs[t := WaitRemove(k)])
    case Grant(t) => s.(lock := Admit(s.lock, t, PcOf(s, t)), pcs := s.pcs[t := Admitted(PcOf(s, t))])
    case Hit(t) => Draw(s, t, PcOf(s, t).key)
    case Miss(t) => s.(lock := Release(s.lock, t), pcs := s.pcs[t := Missed(PcOf(s, t).key)])
    case Requeue(t) => s.(lock := Join(s.lock, t), pcs := s.pcs[t := WaitWrite(PcOf(s, t).key)])
    case Vacant(t) => s.(pcs := s.pcs[t := Query(PcOf(s, t).key)])
    case Load(t) => s.(pcs := s.pcs[t := Loaded(PcOf(s, t).key, ChainOf(s, PcOf(s, t).key))])
    case Fill(t) => Open(s, t, PcOf(s, t).key, PcOf(s, t).read)
    case Remove(t) => s.(cache := s.cache - {PcOf(s, t).key}, pcs := s.pcs[t := Removed(PcOf(s, t).key)])
    case Return(t) => Leave(s, t, Returned)
    case Fail(t) => Leave(s, t, Burned)
    case Drop(t) => Leave(s, t, Burned)
    case Advance(k, n) => s.(chain := s.chain[k := n])
  }

  // ----- Runs -----

  /** Every label is enabled where the previous ones lead. */
  predicate Run(s: State, ls: seq<Label>)
    decreases |ls|
  {
    ls != [] ==> Enabled(s, ls[0]) && Run(Step(s, ls[0]), ls[1..])
  }

  function Exec(s: State, ls: seq<Label>): State
    requires Run(s, ls)
    decreases |ls|
  {
    if ls == [] then s else Exec(Step(s, ls[0]), ls[1..])
  }

  lemma {:induction false} RunConcat(s: State, a: seq<Label>, b: seq<Label>)
    requires Run(s, a) && Run(Exec(s, a), b)
    ensures Run(s, a + b) && Exec(s, a + b) == Exec(Exec(s, a), b)
    decreases |a|
  {
    if a == [] {
      assert a + b == b;
    } else {
      assert (a + b)[0] == a[0] && (a + b)[1..] == a[1..] + b;
      RunConcat(Step(s, a[0]), a[1..], b);
    }
  }

  lemma {:induction false} RunSplit(s: State, a: seq<Label>, b: seq<Label>)
    requires Run(s, a + b)
    ensures Run(s, a) && Run(Exec(s, a), b) && Exec(s, a + b) == Exec(Exec(s, a), b)
    decreases |a|
  {
    if a == [] {
      assert a + b == b;
    } else {
      assert (a + b)[0] == a[0] && (a + b)[1..] == a[1..] + b;
      RunSplit(Step(s, a[0]), a[1..], b);
    }
  }
}
