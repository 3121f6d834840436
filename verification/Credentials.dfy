/**
 Credential caches shared by the workers: a check under the read lock, the same
 check again under the write lock, and one fetch at a time for the whole program,
 kept apart by a throttle. Each lock operation, check, sleep and request is a step
 of its own; the log records what happened.
 */
module Credentials {
  import opened Wrappers

  type ThreadId = int
  type CacheId = int
  type Millis = int

  const LIFETIME: Millis := 10 * 60 * 1000 - 60 * 1000
  const MIN_INTERVAL: Millis := 3000
  const JITTER: Millis := 3000

  datatype Grant = Grant(user: string, password: string, addrs: seq<string>)

  datatype Creds = Creds(link: string, grant: Grant, expiresAt: Millis)

  datatype Call = Call(cache: CacheId, link: string)

  /** Where a thread is in getting credentials. */
  datatype Pc =
    | Idle
    | Peeking(call: Call)                    // about to check under the read lock
    | WantLock(call: Call)                   // waits for the write lock of the cache
    | Checking(call: Call)                   // about to check again under the write lock
    | WantGlobal(call: Call)                 // waits for the lock that serialises requests
    | Throttling(call: Call)                 // about to look at the time of the last request
    | Waiting(call: Call, until: Millis)     // sleeps
    | Fetching(call: Call, start: nat)       // the request is out; its start is that entry of the log
    | Storing(call: Call, start: nat, grant: Grant)

  datatype Event =
    | FetchStarted(cache: CacheId, link: string, at: Millis)
    | FetchEnded(cache: CacheId, link: string, result: Option<Grant>, at: Millis)
    | Stored(cache: CacheId, link: string, grant: Grant, at: Millis)
    | Served(cache: CacheId, link: string, grant: Grant, at: Millis)
    | Invalidated(cache: CacheId, at: Millis)

  datatype State = State(
    now: Millis,
    threads: map<ThreadId, Pc>,
    caches: map<CacheId, Creds>,      // a cache not in the map is empty
    locks: map<CacheId, ThreadId>,    // holders of write locks
    global: Option<ThreadId>,         // who may send requests
    last: Option<Millis>,             // when the last request ended
    log: seq<Event>)

  ghost predicate Init(s: State) {
    && (forall t <- s.threads :: s.threads[t].Idle?)
    && s == State(s.now, s.threads, map[], map[], None, None, [])
  }

  /** What a thread can do next. */
  datatype Action =
    | Start(call: Call)
    | Peek
    | Lock
    | Check
    | LockGlobal
    | Throttle(jitter: nat)
    | Wake
    | Cancel
    | Finish(result: Option<Grant>)
    | Store

  datatype Step = Tick(delta: nat) | Invalidate(cache: CacheId) | By(t: ThreadId, action: Action)

  /** The cache has credentials for this link that are still good. */
  predicate Hit(s: State, call: Call) {
    && call.cache in s.caches
    && s.caches[call.cache].link == call.link
    && s.now < s.caches[call.cache].expiresAt
    && |s.caches[call.cache].grant.addrs| > 0
  }

  predicate Ready(s: State, pc: Pc, a: Action) {
    match a
    case Start(_) => pc.Idle?
    case Peek => pc.Peeking? && pc.call.cache !in s.locks
    case Lock => pc.WantLock? && pc.call.cache !in s.locks
    case Check => pc.Checking?
    case LockGlobal => pc.WantGlobal? && s.global.None?
    case Throttle(jitter) => pc.Throttling? && jitter < JITTER
    case Wake => pc.Waiting? && s.now >= pc.until
    case Cancel => pc.Waiting?
    case Finish(_) => pc.Fetching?
    case Store => pc.Storing?
  }

  predicate Enabled(s: State, st: Step) {
    match st
    case Tick(_) => true
    case Invalidate(cache) => cache !in s.locks
    case By(t, action) => t in s.threads && Ready(s, s.threads[t], action)
  }

  function Goto(s: State, t: ThreadId, pc: Pc): State {
    s.(threads := s.threads[t := pc])
  }

  function Log(s: State, e: Event): State {
    s.(log := s.log + [e])
  }

  /** Returns from the call: the write lock is released. */
  function Leave(s: State, t: ThreadId, call: Call): State {
    Goto(s, t, Idle).(locks := s.locks - {call.cache})
  }

  function Serve(s: State, call: Call): State
    requires call.cache in s.caches
  {
    Log(s, Served(call.cache, call.link, s.caches[call.cache].grant, s.now))
  }

  function Request(s: State, t: ThreadId, call: Call): State {
    Goto(Log(s, FetchStarted(call.cache, call.link, s.now)), t, Fetching(call, |s.log|))
  }

  function ThrottleAt(s: State, t: ThreadId, call: Call, interval: Millis): State {
    if s.last.Some? && s.now - s.last.value < interval then
      Goto(s, t, Waiting(call, s.now + (interval - (s.now - s.last.value))))
    else
      Request(s, t, call)
  }

  /** The request is over: its time is noted and the next thread may send one. */
  function Finished(s: State, t: ThreadId, call: Call, start: nat, result: Option<Grant>): State {
    var s1 := Log(s, FetchEnded(call.cache, call.link, result, s.now)).(last := Some(s.now), global := None);
    if result.Some? then Goto(s1, t, Storing(call, start, result.value)) else Leave(s1, t, call)
  }

  function Kept(s: State, t: ThreadId, call: Call, grant: Grant): State {
    var s1 := Log(s, Stored(call.cache, call.link, grant, s.now))
              .(caches := s.caches[call.cache := Creds(call.link, grant, s.now + LIFETIME)]);
    Leave(Serve(s1, call), t, call)
  }

  function Act(s: State, t: ThreadId, a: Action): State
    requires t in s.threads && Ready(s, s.threads[t], a)
  {
    var pc := s.threads[t];
    match a
    case Start(call) => Goto(s, t, Peeking(call))
    case Peek => if Hit(s, pc.call) then Goto(Serve(s, pc.call), t, Idle) else Goto(s, t, WantLock(pc.call))
    case Lock => Goto(s, t, Checking(pc.call)).(locks := s.locks[pc.call.cache := t])
    case Check => if Hit(s, pc.call) then Leave(Serve(s, pc.call), t, pc.call) else Goto(s, t, WantGlobal(pc.call))
    case LockGlobal => Goto(s, t, Throttling(pc.call)).(global := Some(t))
    case Throttle(jitter) => ThrottleAt(s, t, pc.call, MIN_INTERVAL + jitter)
    case Wake => Request(s, t, pc.call)
    case Cancel => Leave(s, t, pc.call).(global := None)
    case Finish(result) => Finished(s, t, pc.call, pc.start, result)
    case Store => Kept(s, t, pc.call, pc.grant)
  }

  function Apply(s: State, st: Step): State
    requires Enabled(s, st)
  {
    match st
    case Tick(delta) => s.(now := s.now + delta)
    case Invalidate(cache) => Log(s.(caches := s.caches - {cache}), Invalidated(cache, s.now))
    case By(t, action) => Act(s, t, action)
  }

  ghost predicate Legal(s: State, steps: seq<Step>)
    decreases |steps|
  {
    steps == [] || (Enabled(s, steps[0]) && Legal(Apply(s, steps[0]), steps[1..]))
  }

  ghost function After(s: State, steps: seq<Step>): State
    requires Legal(s, steps)
    decreases |steps|
  {
    if steps == [] then s else After(Apply(s, steps[0]), steps[1..])
  }

  // ---------------------------------------------------------------------
  // Locks
  // ---------------------------------------------------------------------

  /** The thread holds the write lock of its cache. */
  predicate Inside(pc: Pc) {
    pc.Checking? || pc.WantGlobal? || pc.Throttling? || pc.Waiting? || pc.Fetching? || pc.Storing?
  }

  /** The thread holds the lock that serialises requests. */
  predicate Requesting(pc: Pc) {
    pc.Throttling? || pc.Waiting? || pc.Fetching?
  }

  ghost predicate LocksInv(s: State) {
    && (forall t <- s.threads :: Inside(s.threads[t]) ==>
         s.threads[t].call.cache in s.locks && s.locks[s.threads[t].call.cache] == t)
    && (forall c <- s.locks :: s.locks[c] in s.threads && Inside(s.threads[s.locks[c]])
         && s.threads[s.locks[c]].call.cache == c)
    && (forall t <- s.threads :: Requesting(s.threads[t]) <==> s.global == Some(t))
    && (s.global.Some? ==> s.global.value in s.threads)
  }

  /** What taking and releasing locks along with a change of pc keeps. */
  lemma MoveKeepsLocks(s: State, s': State, t: ThreadId, pc: Pc)
    requires LocksInv(s) && t in s.threads && s'.threads == s.threads[t := pc]
    requires Inside(pc) ==> s'.locks == s.locks[pc.call.cache := t]
    requires Inside(pc) ==> if Inside(s.threads[t]) then pc.call == s.threads[t].call else pc.call.cache !in s.locks
    requires !Inside(pc) ==> s'.locks == if Inside(s.threads[t]) then s.locks - {s.threads[t].call.cache} else s.locks
    requires s'.global == if Requesting(pc) then Some(t) else if Requesting(s.threads[t]) then None else s.global
    requires Requesting(pc) ==> Requesting(s.threads[t]) || s.global.None?
    ensures LocksInv(s')
  {
    assert forall u :: u in s'.threads <==> u in s.threads;
  }

  lemma ActKeepsLocks(s: State, t: ThreadId, a: Action)
    requires LocksInv(s) && t in s.threads && Ready(s, s.threads[t], a)
    ensures LocksInv(Act(s, t, a))
  {
    var s' := Act(s, t, a);
    if Inside(s.threads[t]) {
      assert s.locks == s.locks[s.threads[t].call.cache := t];
    }
    MoveKeepsLocks(s, s', t, s'.threads[t]);
  }

  lemma LocksInvHolds(s: State, st: Step)
    requires LocksInv(s) && Enabled(s, st)
    ensures LocksInv(Apply(s, st))
  {
    if st.By? {
      ActKeepsLocks(s, st.t, st.action);
    }
  }
}
