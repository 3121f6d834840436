/**
 What the credential protocol guarantees over every run: requests never overlap
 and keep their distance, and what is served was fetched for that link into that
 cache, is young enough and was not invalidated.
 */
module CredentialSafety {
  import opened Credentials
  import opened Wrappers

  // ---------------------------------------------------------------------
  // Requests keep their distance
  // ---------------------------------------------------------------------

  function Starts(log: seq<Event>): nat {
    if log == [] then 0 else Starts(log[..|log| - 1]) + if log[|log| - 1].FetchStarted? then 1 else 0
  }

  function Ends(log: seq<Event>): nat {
    if log == [] then 0 else Ends(log[..|log| - 1]) + if log[|log| - 1].FetchEnded? then 1 else 0
  }

  /** A request starts when all earlier ones are over, the last of them at least three seconds ago. */
  ghost predicate KeepsDistance(before: seq<Event>, e: Event) {
    e.FetchStarted? ==>
      && Starts(before) == Ends(before)
      && forall i :: 0 <= i < |before| && before[i].FetchEnded? ==> e.at >= before[i].at + MIN_INTERVAL
  }

  ghost predicate Spaced(log: seq<Event>) {
    log == [] || (Spaced(log[..|log| - 1]) && KeepsDistance(log[..|log| - 1], log[|log| - 1]))
  }

  ghost predicate Sending(s: State) {
    s.global.Some? && s.global.value in s.threads && s.threads[s.global.value].Fetching?
  }

  /** The time of the last request is known, and those who wait for it wait long enough. */
  ghost predicate ThrottleInv(s: State) {
    && (s.last.Some? ==> s.last.value <= s.now)
    && (forall i :: 0 <= i < |s.log| && s.log[i].FetchEnded? ==> s.last.Some? && s.log[i].at <= s.last.value)
    && (forall t <- s.threads :: s.threads[t].Waiting? ==>
         s.last.Some? && s.last.value + MIN_INTERVAL <= s.threads[t].until < s.last.value + MIN_INTERVAL + JITTER)
  }

  ghost predicate SpacingInv(s: State) {
    && ThrottleInv(s)
    && Starts(s.log) == Ends(s.log) + (if Sending(s) then 1 else 0)
    && Spaced(s.log)
  }

  lemma Appended(log: seq<Event>, e: Event)
    ensures Starts(log + [e]) == Starts(log) + if e.FetchStarted? then 1 else 0
    ensures Ends(log + [e]) == Ends(log) + if e.FetchEnded? then 1 else 0
    ensures Spaced(log + [e]) <==> Spaced(log) && KeepsDistance(log, e)
  {
    assert (log + [e])[..|log|] == log;
  }

  predicate AboutRequests(e: Event) {
    e.FetchStarted? || e.FetchEnded?
  }

  /** Everything that has nothing to do with requests leaves the spacing alone. */
  lemma OtherKeepsSpacing(s: State, s': State, e: Event)
    requires SpacingInv(s) && !AboutRequests(e) && s'.now >= s.now && s'.last == s.last
    requires s'.log == s.log || s'.log == s.log + [e]
    requires forall t :: t in s'.threads && s'.threads[t].Waiting? ==> t in s.threads && s.threads[t] == s'.threads[t]
    requires Sending(s) <==> Sending(s')
    ensures SpacingInv(s')
  {
    Appended(s.log, e);
  }

  lemma RequestKeepsSpacing(s: State, t: ThreadId, call: Call)
    requires LocksInv(s) && SpacingInv(s) && t in s.threads && s.global == Some(t) && !s.threads[t].Fetching?
    requires s.last.Some? ==> s.now >= s.last.value + MIN_INTERVAL
    ensures SpacingInv(Request(s, t, call))
  {
    Appended(s.log, FetchStarted(call.cache, call.link, s.now));
  }

  lemma FinishKeepsSpacing(s: State, t: ThreadId, call: Call, start: nat, result: Option<Grant>)
    requires LocksInv(s) && SpacingInv(s) && t in s.threads && s.threads[t].Fetching?
    ensures SpacingInv(Finished(s, t, call, start, result))
  {
    Appended(s.log, FetchEnded(call.cache, call.link, result, s.now));
    assert s.global == Some(t);
    forall u | u in s.threads && s.threads[u].Waiting? ensures u == t {
      assert Requesting(s.threads[u]);
    }
  }

  /** Looking at the time of the last request leads to the request or to a long enough sleep. */
  lemma ThrottleKeepsSpacing(s: State, t: ThreadId, call: Call, jitter: nat)
    requires LocksInv(s) && SpacingInv(s) && t in s.threads && s.threads[t].Throttling? && jitter < JITTER
    ensures SpacingInv(ThrottleAt(s, t, call, MIN_INTERVAL + jitter))
  {
    assert s.global == Some(t);
    if !(s.last.Some? && s.now - s.last.value < MIN_INTERVAL + jitter) {
      RequestKeepsSpacing(s, t, call);
    }
  }

  lemma KeptKeepsSpacing(s: State, t: ThreadId, call: Call, grant: Grant)
    requires LocksInv(s) && SpacingInv(s) && t in s.threads && s.threads[t].Storing?
    ensures SpacingInv(Kept(s, t, call, grant))
  {
    var stored, served := Stored(call.cache, call.link, grant, s.now), Served(call.cache, call.link, grant, s.now);
    assert s.global != Some(t);
    var s1 := Log(s, stored);
    OtherKeepsSpacing(s, s1, stored);
    OtherKeepsSpacing(s1, Kept(s, t, call, grant), served);
  }

  lemma ActKeepsSpacing(s: State, t: ThreadId, a: Action)
    requires LocksInv(s) && SpacingInv(s) && t in s.threads && Ready(s, s.threads[t], a)
    ensures SpacingInv(Act(s, t, a))
  {
    var pc := s.threads[t];
    var s' := Act(s, t, a);
    match a
    case Throttle(jitter) => ThrottleKeepsSpacing(s, t, pc.call, jitter);
    case Wake => RequestKeepsSpacing(s, t, pc.call);
    case Finish(result) => FinishKeepsSpacing(s, t, pc.call, pc.start, result);
    case Store => KeptKeepsSpacing(s, t, pc.call, pc.grant);
    case _ => QuietActKeepsSpacing(s, t, a);
  }

  /** One thread moves, and it neither sends nor waits before or after. */
  lemma MoveKeepsSpacing(s: State, s': State, t: ThreadId, pc: Pc, e: Event)
    requires LocksInv(s) && SpacingInv(s) && t in s.threads && s'.threads == s.threads[t := pc]
    requires !pc.Waiting? && !pc.Fetching? && !s.threads[t].Fetching? && !AboutRequests(e)
    requires s'.now == s.now && s'.last == s.last && (s'.log == s.log || s'.log == s.log + [e])
    requires s'.global == s.global || (s'.global == Some(t) && s.global.None?)
             || (s'.global.None? && s.global == Some(t))
    ensures SpacingInv(s')
  {
    OtherKeepsSpacing(s, s', e);
  }

  /** The steps that neither look at the throttle nor send a request. */
  lemma QuietActKeepsSpacing(s: State, t: ThreadId, a: Action)
    requires LocksInv(s) && SpacingInv(s) && t in s.threads && Ready(s, s.threads[t], a)
    requires a.Start? || a.Peek? || a.Lock? || a.Check? || a.LockGlobal? || a.Cancel?
    ensures SpacingInv(Act(s, t, a))
  {
    var pc, s', none := s.threads[t], Act(s, t, a), Invalidated(0, 0);
    match a
    case Start(call) => MoveKeepsSpacing(s, s', t, Peeking(call), none);
    case Lock => MoveKeepsSpacing(s, s', t, Checking(pc.call), none);
    case LockGlobal => MoveKeepsSpacing(s, s', t, Throttling(pc.call), none);
    case Cancel => MoveKeepsSpacing(s, s', t, Idle, none);
    case _ => LookKeepsSpacing(s, t, a);
  }

  lemma LookKeepsSpacing(s: State, t: ThreadId, a: Action)
    requires LocksInv(s) && SpacingInv(s) && t in s.threads && Ready(s, s.threads[t], a) && (a.Peek? || a.Check?)
    ensures SpacingInv(Act(s, t, a))
  {
    var call := s.threads[t].call;
    if Hit(s, call) {
      MoveKeepsSpacing(s, Act(s, t, a), t, Idle, Served(call.cache, call.link, s.caches[call.cache].grant, s.now));
    } else {
      MoveKeepsSpacing(s, Act(s, t, a), t, if a.Peek? then WantLock(call) else WantGlobal(call), Invalidated(0, 0));
    }
  }

  lemma SpacingInvHolds(s: State, st: Step)
    requires LocksInv(s) && SpacingInv(s) && Enabled(s, st)
    ensures SpacingInv(Apply(s, st))
  {
    match st
    case Tick(_) => OtherKeepsSpacing(s, Apply(s, st), Invalidated(0, 0));
    case Invalidate(cache) => OtherKeepsSpacing(s, Apply(s, st), Invalidated(cache, s.now));
    case By(t, action) => ActKeepsSpacing(s, t, action);
  }

  // ---------------------------------------------------------------------
  // Where served credentials come from
  // ---------------------------------------------------------------------

  /** The event changes what is in the cache. */
  predicate Touches(e: Event, cache: CacheId) {
    (e.Stored? || e.Invalidated?) && e.cache == cache
  }

  /** The cache is not changed after that entry of the log. */
  ghost predicate Quiet(log: seq<Event>, cache: CacheId, from: nat) {
    forall k :: from < k < |log| ==> !Touches(log[k], cache)
  }

  /** A request for this link and cache was started there, and the cache is as it was then. */
  ghost predicate InFlight(log: seq<Event>, call: Call, start: nat) {
    && start < |log| && log[start].FetchStarted? && log[start].cache == call.cache && log[start].link == call.link
    && Quiet(log, call.cache, start)
  }

  /** The request that was started there was answered with this grant. */
  ghost predicate Answered(log: seq<Event>, call: Call, start: nat, grant: Grant) {
    && InFlight(log, call, start)
    && exists k :: start < k < |log| && log[k].FetchEnded? && log[k].cache == call.cache && log[k].link == call.link
                   && log[k].result == Some(grant)
  }

  /** The cache holds what was fetched for this link, stored at that time, and it was not changed since. */
  ghost predicate StoredAt(log: seq<Event>, call: Call, grant: Grant, at: Millis, start: nat, j: nat) {
    && start < j < |log| && Answered(log[..j], call, start, grant)
    && log[j] == Stored(call.cache, call.link, grant, at) && Quiet(log, call.cache, j)
  }

  ghost predicate HasSource(log: seq<Event>, call: Call, grant: Grant, at: Millis) {
    exists start: nat, j: nat :: StoredAt(log, call, grant, at, start, j)
  }

  /** What is served has a source, and was stored less than nine minutes ago. */
  ghost predicate HonestlyServed(before: seq<Event>, e: Event) {
    e.Served? ==> exists at :: at <= e.at < at + LIFETIME && HasSource(before, Call(e.cache, e.link), e.grant, at)
  }

  ghost predicate Honest(log: seq<Event>) {
    log == [] || (Honest(log[..|log| - 1]) && HonestlyServed(log[..|log| - 1], log[|log| - 1]))
  }

  ghost predicate ThreadSource(log: seq<Event>, pc: Pc) {
    && (pc.Fetching? ==> InFlight(log, pc.call, pc.start))
    && (pc.Storing? ==> Answered(log, pc.call, pc.start, pc.grant))
  }

  ghost predicate CacheSource(log: seq<Event>, cache: CacheId, creds: Creds, now: Millis) {
    && HasSource(log, Call(cache, creds.link), creds.grant, creds.expiresAt - LIFETIME)
    && creds.expiresAt - LIFETIME <= now
  }

  ghost predicate SourceInv(s: State) {
    && (forall t <- s.threads :: ThreadSource(s.log, s.threads[t]))
    && (forall c <- s.caches :: CacheSource(s.log, c, s.caches[c], s.now))
    && Honest(s.log)
  }

  lemma HonestGrows(log: seq<Event>, e: Event)
    ensures Honest(log + [e]) <==> Honest(log) && HonestlyServed(log, e)
  {
    assert (log + [e])[..|log|] == log;
  }

  lemma ThreadSourceGrows(log: seq<Event>, e: Event, pc: Pc)
    requires ThreadSource(log, pc) && (pc.Fetching? || pc.Storing? ==> !Touches(e, pc.call.cache))
    ensures ThreadSource(log + [e], pc)
  {
    var log' := log + [e];
    assert forall k :: 0 <= k < |log| ==> log'[k] == log[k];
    if pc.Storing? {
      var k :| pc.start < k < |log| && log[k].FetchEnded? && log[k].cache == pc.call.cache
               && log[k].link == pc.call.link && log[k].result == Some(pc.grant);
      assert log'[k].FetchEnded?;
    }
  }

  lemma CacheSourceGrows(log: seq<Event>, e: Event, cache: CacheId, creds: Creds, now: Millis, later: Millis)
    requires CacheSource(log, cache, creds, now) && !Touches(e, cache) && now <= later
    ensures CacheSource(log + [e], cache, creds, later)
  {
    var log' := log + [e];
    var call, at := Call(cache, creds.link), creds.expiresAt - LIFETIME;
    var start: nat, j: nat :| StoredAt(log, call, creds.grant, at, start, j);
    assert log'[..j] == log[..j];
    assert StoredAt(log', call, creds.grant, at, start, j);
  }

  /** An event that only changes a cache nobody is fetching for. */
  lemma EventKeepsSource(s: State, e: Event)
    requires SourceInv(s) && HonestlyServed(s.log, e)
    requires forall c <- s.caches :: !Touches(e, c)
    requires forall t <- s.threads :: s.threads[t].Fetching? || s.threads[t].Storing? ==>
               !Touches(e, s.threads[t].call.cache)
    ensures SourceInv(Log(s, e))
  {
    HonestGrows(s.log, e);
    forall t <- s.threads ensures ThreadSource(s.log + [e], s.threads[t]) {
      ThreadSourceGrows(s.log, e, s.threads[t]);
    }
    forall c <- s.caches ensures CacheSource(s.log + [e], c, s.caches[c], s.now) {
      CacheSourceGrows(s.log, e, c, s.caches[c], s.now, s.now);
    }
  }

  /** An event that changes no cache. */
  lemma PlainEventKeepsSource(s: State, e: Event)
    requires SourceInv(s) && HonestlyServed(s.log, e) && !e.Stored? && !e.Invalidated?
    ensures SourceInv(Log(s, e))
  {
    EventKeepsSource(s, e);
  }

  /** Moving a thread needs a source only for a thread with a request. */
  lemma MoveKeepsSource(s: State, s': State, t: ThreadId, pc: Pc)
    requires SourceInv(s) && s'.threads == s.threads[t := pc] && s'.log == s.log
             && s'.caches == s.caches && s'.now == s.now
    requires ThreadSource(s.log, pc)
    ensures SourceInv(s')
  {}

  lemma HitIsHonest(s: State, call: Call)
    requires SourceInv(s) && Hit(s, call)
    ensures HonestlyServed(s.log, Served(call.cache, call.link, s.caches[call.cache].grant, s.now))
  {
    assert CacheSource(s.log, call.cache, s.caches[call.cache], s.now);
  }

  lemma RequestKeepsSource(s: State, t: ThreadId, call: Call)
    requires SourceInv(s)
    ensures SourceInv(Request(s, t, call))
  {
    var e := FetchStarted(call.cache, call.link, s.now);
    PlainEventKeepsSource(s, e);
    assert InFlight(s.log + [e], call, |s.log|);
    MoveKeepsSource(Log(s, e), Request(s, t, call), t, Fetching(call, |s.log|));
  }

  lemma FinishKeepsSource(s: State, t: ThreadId, result: Option<Grant>)
    requires SourceInv(s) && t in s.threads && s.threads[t].Fetching?
    ensures SourceInv(Finished(s, t, s.threads[t].call, s.threads[t].start, result))
  {
    var call, start := s.threads[t].call, s.threads[t].start;
    var e := FetchEnded(call.cache, call.link, result, s.now);
    var s' := Finished(s, t, call, start, result);
    PlainEventKeepsSource(s, e);
    assert InFlight(s.log + [e], call, start);
    assert (s.log + [e])[|s.log|] == e;
    MoveKeepsSource(Log(s, e), s', t, s'.threads[t]);
  }

  /** Nobody else fetches for the cache while a thread holds its lock. */
  lemma OthersFetchElsewhere(s: State, t: ThreadId, u: ThreadId)
    requires LocksInv(s) && t in s.threads && u in s.threads && u != t && Inside(s.threads[t]) && Inside(s.threads[u])
    ensures s.threads[u].call.cache != s.threads[t].call.cache
  {}

  /** Storing an answer makes it the content of the cache, with the request as its source. */
  lemma StoredHasSource(log: seq<Event>, call: Call, start: nat, grant: Grant, at: Millis)
    requires Answered(log, call, start, grant)
    ensures HasSource(log + [Stored(call.cache, call.link, grant, at)], call, grant, at)
  {
    var log' := log + [Stored(call.cache, call.link, grant, at)];
    assert log'[..|log|] == log;
    assert StoredAt(log', call, grant, at, start, |log|);
  }

  /** The first half of a store: the thread has left, the cache has the answer. */
  function Filled(s: State, t: ThreadId, call: Call, grant: Grant): State {
    Log(Goto(s, t, Idle), Stored(call.cache, call.link, grant, s.now))
    .(caches := s.caches[call.cache := Creds(call.link, grant, s.now + LIFETIME)])
  }

  /** A cache may be filled with anything that has a source. */
  lemma PutKeepsSource(s: State, s': State, cache: CacheId, creds: Creds)
    requires SourceInv(s) && CacheSource(s.log, cache, creds, s.now)
    requires s'.caches == s.caches[cache := creds] && s'.threads == s.threads && s'.log == s.log && s'.now == s.now
    ensures SourceInv(s')
  {}

  /** While the thread leaves, the old content of its cache goes. */
  function Emptied(s: State, t: ThreadId, call: Call): State {
    Goto(s, t, Idle).(caches := s.caches - {call.cache})
  }

  lemma EmptiedKeepsSource(s: State, t: ThreadId)
    requires LocksInv(s) && SourceInv(s) && t in s.threads && s.threads[t].Storing?
    ensures var call := s.threads[t].call;
            SourceInv(Log(Emptied(s, t, call), Stored(call.cache, call.link, s.threads[t].grant, s.now)))
  {
    var call := s.threads[t].call;
    var e := Stored(call.cache, call.link, s.threads[t].grant, s.now);
    var s1 := Emptied(s, t, call);
    forall u <- s1.threads | s1.threads[u].Fetching? || s1.threads[u].Storing?
      ensures !Touches(e, s1.threads[u].call.cache)
    {
      OthersFetchElsewhere(s, t, u);
    }
    EventKeepsSource(s1, e);
  }

  lemma FilledHasSource(s: State, t: ThreadId)
    requires SourceInv(s) && t in s.threads && s.threads[t].Storing?
    ensures var call, grant := s.threads[t].call, s.threads[t].grant;
            HasSource(Filled(s, t, call, grant).log, call, grant, s.now)
  {
    assert ThreadSource(s.log, s.threads[t]);
    StoredHasSource(s.log, s.threads[t].call, s.threads[t].start, s.threads[t].grant, s.now);
  }

  /** Emptying a cache and filling it is filling it. */
  lemma EmptiedThenFilled(s: State, t: ThreadId, call: Call, grant: Grant)
    ensures var s1 := Log(Emptied(s, t, call), Stored(call.cache, call.link, grant, s.now));
            var s' := Filled(s, t, call, grant);
            && s'.caches == s1.caches[call.cache := Creds(call.link, grant, s.now + LIFETIME)]
            && s'.threads == s1.threads && s'.log == s1.log && s'.now == s1.now
  {}

  lemma FilledKeepsSource(s: State, t: ThreadId)
    requires LocksInv(s) && SourceInv(s) && t in s.threads && s.threads[t].Storing?
    ensures var call, grant := s.threads[t].call, s.threads[t].grant;
            SourceInv(Filled(s, t, call, grant)) && HasSource(Filled(s, t, call, grant).log, call, grant, s.now)
  {
    var call, grant := s.threads[t].call, s.threads[t].grant;
    var s1 := Log(Emptied(s, t, call), Stored(call.cache, call.link, grant, s.now));
    EmptiedKeepsSource(s, t);
    FilledHasSource(s, t);
    EmptiedThenFilled(s, t, call, grant);
    PutKeepsSource(s1, Filled(s, t, call, grant), call.cache, Creds(call.link, grant, s.now + LIFETIME));
  }

  lemma KeptKeepsSource(s: State, t: ThreadId)
    requires LocksInv(s) && SourceInv(s) && t in s.threads && s.threads[t].Storing?
    ensures SourceInv(Kept(s, t, s.threads[t].call, s.threads[t].grant))
  {
    var call, grant := s.threads[t].call, s.threads[t].grant;
    FilledKeepsSource(s, t);
    ServedAfterFill(Filled(s, t, call, grant), Kept(s, t, call, grant), call, grant);
  }

  lemma ServedAfterFill(s: State, s': State, call: Call, grant: Grant)
    requires SourceInv(s) && HasSource(s.log, call, grant, s.now)
    requires s'.log == s.log + [Served(call.cache, call.link, grant, s.now)]
    requires s'.threads == s.threads && s'.caches == s.caches && s'.now == s.now
    ensures SourceInv(s')
  {
    PlainEventKeepsSource(s, Served(call.cache, call.link, grant, s.now));
  }

  lemma ServeKeepsSource(s: State, s': State, t: ThreadId, call: Call)
    requires SourceInv(s) && Hit(s, call)
    requires s'.threads == s.threads[t := Idle] && s'.log == Serve(s, call).log
             && s'.caches == s.caches && s'.now == s.now
    ensures SourceInv(s')
  {
    HitIsHonest(s, call);
    PlainEventKeepsSource(s, Served(call.cache, call.link, s.caches[call.cache].grant, s.now));
    MoveKeepsSource(Serve(s, call), s', t, Idle);
  }

  lemma ActKeepsSource(s: State, t: ThreadId, a: Action)
    requires LocksInv(s) && SourceInv(s) && t in s.threads && Ready(s, s.threads[t], a)
    ensures SourceInv(Act(s, t, a))
  {
    var pc := s.threads[t];
    match a
    case Throttle(jitter) =>
      RequestKeepsSource(s, t, pc.call);
    case Wake => RequestKeepsSource(s, t, pc.call);
    case Finish(result) => FinishKeepsSource(s, t, result);
    case Store => KeptKeepsSource(s, t);
    case Peek => if Hit(s, pc.call) { ServeKeepsSource(s, Act(s, t, a), t, pc.call); }
    case Check => if Hit(s, pc.call) { ServeKeepsSource(s, Act(s, t, a), t, pc.call); }
    case _ =>
  }

  lemma SourceInvHolds(s: State, st: Step)
    requires LocksInv(s) && SourceInv(s) && Enabled(s, st)
    ensures SourceInv(Apply(s, st))
  {
    match st
    case Tick(_) =>
    case Invalidate(cache) =>
      var s1 := s.(caches := s.caches - {cache});
      EventKeepsSource(s1, Invalidated(cache, s.now));
    case By(t, action) => ActKeepsSource(s, t, action);
  }

  // ---------------------------------------------------------------------
  // Every run
  // ---------------------------------------------------------------------

  ghost predicate Inv(s: State) {
    LocksInv(s) && SpacingInv(s) && SourceInv(s)
  }

  lemma {:induction false} InvHolds(s: State, steps: seq<Step>)
    requires Inv(s) && Legal(s, steps)
    ensures Inv(After(s, steps))
    decreases |steps|
  {
    if steps != [] {
      LocksInvHolds(s, steps[0]);
      SpacingInvHolds(s, steps[0]);
      SourceInvHolds(s, steps[0]);
      InvHolds(Apply(s, steps[0]), steps[1..]);
    }
  }

  lemma {:induction false} EveryEventFits(log: seq<Event>, i: nat)
    requires i < |log| && Spaced(log) && Honest(log)
    ensures KeepsDistance(log[..i], log[i]) && HonestlyServed(log[..i], log[i])
  {
    if i < |log| - 1 {
      EveryEventFits(log[..|log| - 1], i);
      assert log[..|log| - 1][..i] == log[..i];
    }
  }

  /**
   In every run, a request starts only when all earlier ones have ended, at least
   three seconds after each of them.
   */
  lemma RequestsKeepTheirDistance(s: State, steps: seq<Step>, i: nat)
    requires Init(s) && Legal(s, steps) && i < |After(s, steps).log|
    ensures KeepsDistance(After(s, steps).log[..i], After(s, steps).log[i])
  {
    InvHolds(s, steps);
    EveryEventFits(After(s, steps).log, i);
  }

  /**
   In every run, whatever is served was fetched for that link into that cache, was
   stored less than nine minutes before, and the cache was not changed or
   invalidated from the start of that request on.
   */
  lemma ServedCredentialsAreGood(s: State, steps: seq<Step>, i: nat)
    requires Init(s) && Legal(s, steps) && i < |After(s, steps).log|
    ensures HonestlyServed(After(s, steps).log[..i], After(s, steps).log[i])
  {
    InvHolds(s, steps);
    EveryEventFits(After(s, steps).log, i);
  }

  /** In every reachable state, at most one thread is fetching, and it has its cache to itself. */
  lemma OneFetchAtATime(s: State, steps: seq<Step>, t: ThreadId, u: ThreadId)
    requires Init(s) && Legal(s, steps)
    requires var s' := After(s, steps);
                 t in s'.threads && u in s'.threads && s'.threads[t].Fetching? && Inside(s'.threads[u])
    ensures var s' := After(s, steps);
            && (s'.threads[u].Fetching? ==> t == u)
            && (s'.threads[t].call.cache == s'.threads[u].call.cache ==> t == u)
  {
    InvHolds(s, steps);
  }

  /** A thread that sleeps wakes up at the latest six seconds after the last request ended. */
  lemma WaitsAreShort(s: State, steps: seq<Step>, t: ThreadId)
    requires Init(s) && Legal(s, steps) && t in After(s, steps).threads && After(s, steps).threads[t].Waiting?
    ensures var s' := After(s, steps);
            && s'.last.Some? && s'.threads[t].until - s'.last.value < MIN_INTERVAL + JITTER
            && Enabled(Apply(s', Tick(MIN_INTERVAL + JITTER)), By(t, Wake))
  {
    InvHolds(s, steps);
  }
}
