/**
 What the two looks at the cache are for: no request is sent while the cache has good
 credentials for the link, and no call returns without a reason.
 */
module CredentialThrift {
  import opened Credentials
  import opened CredentialSafety
  import opened Wrappers

  // ---------------------------------------------------------------------
  // The log tells what a cache holds
  // ---------------------------------------------------------------------

  /** Credentials with a server were put in the cache there, and nothing happened to it since. */
  ghost predicate LastStore(log: seq<Event>, cache: CacheId, j: nat) {
    j < |log| && log[j].Stored? && log[j].cache == cache && Quiet(log, cache, j)
  }

  /** By the log, that cache holds good credentials for that link at that time. */
  ghost predicate GoodAt(log: seq<Event>, cache: CacheId, link: string, at: Millis) {
    exists j: nat :: LastStore(log, cache, j) && log[j].link == link && log[j].grant.addrs != []
                     && at < log[j].at + LIFETIME
  }

  /** A request is sent only when the cache has nothing good for its link. */
  ghost predicate Needed(before: seq<Event>, e: Event) {
    e.FetchStarted? ==> !GoodAt(before, e.cache, e.link, e.at)
  }

  ghost predicate Thrifty(log: seq<Event>) {
    log == [] || (Thrifty(log[..|log| - 1]) && Needed(log[..|log| - 1], log[|log| - 1]))
  }

  /** The cache holds what the log says was stored last. */
  ghost predicate Holds(s: State, cache: CacheId, j: nat) {
    LastStore(s.log, cache, j) ==>
      cache in s.caches && s.caches[cache] == Creds(s.log[j].link, s.log[j].grant, s.log[j].at + LIFETIME)
  }

  /** The thread has looked in its cache, under the lock that it still holds, and found nothing good. */
  predicate Missed(pc: Pc) {
    pc.WantGlobal? || pc.Throttling? || pc.Waiting?
  }

  ghost predicate MissesStand(s: State) {
    forall t <- s.threads :: Missed(s.threads[t]) ==> !Hit(s, s.threads[t].call)
  }

  ghost predicate CachesMatch(s: State) {
    forall cache: CacheId, j: nat :: Holds(s, cache, j)
  }

  ghost predicate ThriftInv(s: State) {
    CachesMatch(s) && MissesStand(s) && Thrifty(s.log)
  }

  lemma ThriftyGrows(log: seq<Event>, e: Event)
    ensures Thrifty(log + [e]) <==> Thrifty(log) && Needed(log, e)
  {
    assert (log + [e])[..|log|] == log;
  }

  /** An event that does not touch the cache leaves the last store what it was. */
  lemma LastStoreShrinks(log: seq<Event>, e: Event, cache: CacheId, j: nat)
    requires LastStore(log + [e], cache, j) && !Touches(e, cache)
    ensures LastStore(log, cache, j)
  {
    assert (log + [e])[|log|] == e;
    forall k | j < k < |log| ensures !Touches(log[k], cache) {
      assert (log + [e])[k] == log[k];
    }
  }

  /** After an event that touches the cache nothing earlier is the last store. */
  lemma TouchEndsStore(log: seq<Event>, e: Event, cache: CacheId, j: nat)
    requires LastStore(log + [e], cache, j) && Touches(e, cache)
    ensures j == |log|
  {
    assert (log + [e])[|log|] == e;
  }

  lemma GoodIsHit(s: State, call: Call)
    requires CachesMatch(s) && GoodAt(s.log, call.cache, call.link, s.now)
    ensures Hit(s, call)
  {
    var j: nat :| LastStore(s.log, call.cache, j) && s.log[j].link == call.link && s.log[j].grant.addrs != []
                  && s.now < s.log[j].at + LIFETIME;
    assert Holds(s, call.cache, j);
  }

  // ---------------------------------------------------------------------
  // The steps
  // ---------------------------------------------------------------------

  /** An event that touches no cache. */
  lemma PlainEventKeepsCaches(s: State, s': State, e: Event)
    requires CachesMatch(s) && !e.Stored? && !e.Invalidated? && s'.caches == s.caches && s'.log == s.log + [e]
    ensures CachesMatch(s')
  {
    assert s'.log[|s.log|] == e;
    forall cache: CacheId, j: nat ensures Holds(s', cache, j) {
      if LastStore(s'.log, cache, j) {
        LastStoreShrinks(s.log, e, cache, j);
        assert Holds(s, cache, j);
      }
    }
  }

  lemma StoreKeepsCaches(s: State, s': State, call: Call, grant: Grant)
    requires CachesMatch(s) && s'.caches == s.caches[call.cache := Creds(call.link, grant, s.now + LIFETIME)]
    requires s'.log == s.log + [Stored(call.cache, call.link, grant, s.now)]
    ensures CachesMatch(s')
  {
    var e := Stored(call.cache, call.link, grant, s.now);
    forall cache: CacheId, j: nat ensures Holds(s', cache, j) {
      if LastStore(s'.log, cache, j) {
        if cache == call.cache {
          TouchEndsStore(s.log, e, cache, j);
        } else {
          LastStoreShrinks(s.log, e, cache, j);
          assert Holds(s, cache, j);
        }
      }
    }
  }

  lemma InvalidateKeepsCaches(s: State, cache: CacheId)
    requires CachesMatch(s)
    ensures CachesMatch(Log(s.(caches := s.caches - {cache}), Invalidated(cache, s.now)))
  {
    var e := Invalidated(cache, s.now);
    var s' := Log(s.(caches := s.caches - {cache}), e);
    forall other: CacheId, j: nat ensures Holds(s', other, j) {
      if LastStore(s'.log, other, j) {
        if other == cache {
          TouchEndsStore(s.log, e, other, j);
        } else {
          LastStoreShrinks(s.log, e, other, j);
          assert Holds(s, other, j);
        }
      }
    }
  }

  /** One thread moves, the caches stay; if it missed now it misses still. */
  lemma MoveKeepsMisses(s: State, s': State, t: ThreadId, pc: Pc)
    requires MissesStand(s) && s'.threads == s.threads[t := pc] && s'.caches == s.caches && s'.now == s.now
    requires Missed(pc) ==> !Hit(s, pc.call)
    ensures MissesStand(s')
  {
    forall u <- s'.threads | Missed(s'.threads[u]) ensures !Hit(s', s'.threads[u].call) {
      assert u == t || u in s.threads;
    }
  }

  /** Filling one cache does not help those who wait with the lock of another. */
  lemma StoreKeepsMisses(s: State, s': State, t: ThreadId, creds: Creds)
    requires LocksInv(s) && MissesStand(s) && t in s.threads && s.threads[t].Storing? && s'.now == s.now
    requires s'.threads == s.threads[t := Idle] && s'.caches == s.caches[s.threads[t].call.cache := creds]
    ensures MissesStand(s')
  {
    forall u <- s'.threads | Missed(s'.threads[u]) ensures !Hit(s', s'.threads[u].call) {
      assert u != t && u in s.threads;
      OthersFetchElsewhere(s, t, u);
    }
  }

  lemma RequestKeepsThrift(s: State, t: ThreadId, call: Call)
    requires ThriftInv(s) && t in s.threads && Missed(s.threads[t]) && s.threads[t].call == call
    ensures ThriftInv(Request(s, t, call))
  {
    var e := FetchStarted(call.cache, call.link, s.now);
    if GoodAt(s.log, call.cache, call.link, s.now) {
      GoodIsHit(s, call);
    }
    ThriftyGrows(s.log, e);
    PlainEventKeepsCaches(s, Request(s, t, call), e);
    MoveKeepsMisses(s, Request(s, t, call), t, Fetching(call, |s.log|));
  }

  lemma ServeKeepsThrift(s: State, s': State, t: ThreadId, e: Event)
    requires ThriftInv(s) && t in s.threads && !e.FetchStarted? && !e.Stored? && !e.Invalidated?
    requires t in s'.threads && s'.threads == s.threads[t := s'.threads[t]] && s'.caches == s.caches && s'.now == s.now
    requires !Missed(s'.threads[t]) && s'.log == s.log + [e]
    ensures ThriftInv(s')
  {
    ThriftyGrows(s.log, e);
    PlainEventKeepsCaches(s, s', e);
    MoveKeepsMisses(s, s', t, s'.threads[t]);
  }

  lemma KeptKeepsThrift(s: State, t: ThreadId)
    requires LocksInv(s) && ThriftInv(s) && t in s.threads && s.threads[t].Storing?
    ensures ThriftInv(Kept(s, t, s.threads[t].call, s.threads[t].grant))
  {
    var call, grant := s.threads[t].call, s.threads[t].grant;
    var s1 := Filled(s, t, call, grant);
    var s' := Kept(s, t, call, grant);
    var stored, served := Stored(call.cache, call.link, grant, s.now), Served(call.cache, call.link, grant, s.now);
    StoreKeepsCaches(s, s1, call, grant);
    StoreKeepsMisses(s, s1, t, Creds(call.link, grant, s.now + LIFETIME));
    ThriftyGrows(s.log, stored);
    ServeKeepsThrift(s1, s', t, served);
  }

  /** The thread moves on without an event. */
  lemma QuietMoveKeepsThrift(s: State, s': State, t: ThreadId, pc: Pc)
    requires ThriftInv(s) && s'.threads == s.threads[t := pc] && s'.caches == s.caches && s'.now == s.now
    requires s'.log == s.log && (Missed(pc) ==> !Hit(s, pc.call))
    ensures ThriftInv(s')
  {
    MoveKeepsMisses(s, s', t, pc);
    forall cache: CacheId, j: nat ensures Holds(s', cache, j) {
      assert Holds(s, cache, j);
    }
  }

  lemma ActKeepsThrift(s: State, t: ThreadId, a: Action)
    requires LocksInv(s) && ThriftInv(s) && t in s.threads && Ready(s, s.threads[t], a)
    ensures ThriftInv(Act(s, t, a))
  {
    var pc, s' := s.threads[t], Act(s, t, a);
    if a.Store? {
      KeptKeepsThrift(s, t);
    } else if s'.log == s.log {
      QuietMoveKeepsThrift(s, s', t, s'.threads[t]);
    } else if a.Throttle? || a.Wake? {
      RequestKeepsThrift(s, t, pc.call);
    } else {
      ServeKeepsThrift(s, s', t, s'.log[|s.log|]);
    }
  }

  lemma ThriftInvHolds(s: State, st: Step)
    requires LocksInv(s) && ThriftInv(s) && Enabled(s, st)
    ensures ThriftInv(Apply(s, st))
  {
    match st
    case Tick(delta) =>
      forall cache: CacheId, j: nat ensures Holds(Apply(s, st), cache, j) {
        assert Holds(s, cache, j);
      }
    case Invalidate(cache) =>
      InvalidateKeepsCaches(s, cache);
      ThriftyGrows(s.log, Invalidated(cache, s.now));
    case By(t, action) => ActKeepsThrift(s, t, action);
  }

  lemma {:induction false} ThriftHolds(s: State, steps: seq<Step>)
    requires LocksInv(s) && ThriftInv(s) && Legal(s, steps)
    ensures ThriftInv(After(s, steps))
    decreases |steps|
  {
    if steps != [] {
      LocksInvHolds(s, steps[0]);
      ThriftInvHolds(s, steps[0]);
      ThriftHolds(Apply(s, steps[0]), steps[1..]);
    }
  }

  lemma {:induction false} EveryRequestNeeded(log: seq<Event>, i: nat)
    requires i < |log| && Thrifty(log)
    ensures Needed(log[..i], log[i])
  {
    if i < |log| - 1 {
      EveryRequestNeeded(log[..|log| - 1], i);
      assert log[..|log| - 1][..i] == log[..i];
    }
  }

  /**
   In every run no request starts while its cache holds good credentials for its link,
   stored by whomever: what another thread fetched while this one waited for the lock is used.
   */
  lemma NoNeedlessRequest(s: State, steps: seq<Step>, i: nat)
    requires Init(s) && Legal(s, steps) && i < |After(s, steps).log|
    ensures Needed(After(s, steps).log[..i], After(s, steps).log[i])
  {
    ThriftHolds(s, steps);
    EveryRequestNeeded(After(s, steps).log, i);
  }

  // ---------------------------------------------------------------------
  // Usable credentials
  // ---------------------------------------------------------------------

  /** This is what was just stored. */
  ghost predicate JustStored(before: seq<Event>, e: Event) {
    before != [] && e.Served? && before[|before| - 1] == Stored(e.cache, e.link, e.grant, e.at)
  }

  /** An answer without a server is served once, to the call that fetched it; what is stored is served at once. */
  ghost predicate Usable(before: seq<Event>, e: Event) {
    && (e.Served? && e.grant.addrs == [] ==> JustStored(before, e))
    && (before != [] && before[|before| - 1].Stored? ==> JustStored(before, e))
  }

  ghost predicate AllUsable(log: seq<Event>) {
    log == [] || (AllUsable(log[..|log| - 1]) && Usable(log[..|log| - 1], log[|log| - 1]))
  }

  ghost predicate UsableInv(log: seq<Event>) {
    AllUsable(log) && (log != [] ==> !log[|log| - 1].Stored?)
  }

  lemma UsableGrows(log: seq<Event>, e: Event)
    ensures AllUsable(log + [e]) <==> AllUsable(log) && Usable(log, e)
  {
    assert (log + [e])[..|log|] == log;
  }

  lemma KeptIsUsable(s: State, t: ThreadId, call: Call, grant: Grant)
    requires UsableInv(s.log)
    ensures UsableInv(Kept(s, t, call, grant).log)
  {
    var stored, served := Stored(call.cache, call.link, grant, s.now), Served(call.cache, call.link, grant, s.now);
    UsableGrows(s.log, stored);
    UsableGrows(s.log + [stored], served);
    assert Kept(s, t, call, grant).log == s.log + [stored] + [served];
  }

  /** Every other step logs one event at most, and serves from a cache only what has a server. */
  lemma OneEventAtMost(s: State, st: Step)
    requires Enabled(s, st) && !(st.By? && st.action.Store?)
    ensures var s' := Apply(s, st);
            s'.log == s.log ||
            (|s'.log| == |s.log| + 1 && s'.log[..|s.log|] == s.log && !s'.log[|s.log|].Stored?
             && (s'.log[|s.log|].Served? ==> s'.log[|s.log|].grant.addrs != []))
  {}

  lemma StepKeepsUsable(s: State, st: Step)
    requires UsableInv(s.log) && Enabled(s, st)
    ensures UsableInv(Apply(s, st).log)
  {
    if st.By? && st.action.Store? {
      var pc := s.threads[st.t];
      KeptIsUsable(s, st.t, pc.call, pc.grant);
    } else {
      OneEventAtMost(s, st);
      OneEventIsUsable(s.log, Apply(s, st).log);
    }
  }

  lemma OneEventIsUsable(log: seq<Event>, log': seq<Event>)
    requires UsableInv(log)
    requires log' == log ||
             (|log'| == |log| + 1 && log'[..|log|] == log && !log'[|log|].Stored?
              && (log'[|log|].Served? ==> log'[|log|].grant.addrs != []))
    ensures UsableInv(log')
  {
    if log' != log {
      UsableGrows(log, log'[|log|]);
      assert log' == log + [log'[|log|]];
    }
  }

  lemma {:induction false} UsableHolds(s: State, steps: seq<Step>)
    requires UsableInv(s.log) && Legal(s, steps)
    ensures UsableInv(After(s, steps).log)
    decreases |steps|
  {
    if steps != [] {
      StepKeepsUsable(s, steps[0]);
      UsableHolds(Apply(s, steps[0]), steps[1..]);
    }
  }

  lemma {:induction false} EveryEventUsable(log: seq<Event>, i: nat)
    requires i < |log| && AllUsable(log)
    ensures Usable(log[..i], log[i])
  {
    if i < |log| - 1 {
      EveryEventUsable(log[..|log| - 1], i);
      assert log[..|log| - 1][..i] == log[..i];
    }
  }

  /**
   In every run, credentials without a server are never served from a cache, and whatever is
   stored is served at once to the call that fetched it.
   */
  lemma ServedCredentialsAreUsable(s: State, steps: seq<Step>, i: nat)
    requires Init(s) && Legal(s, steps) && i < |After(s, steps).log|
    ensures Usable(After(s, steps).log[..i], After(s, steps).log[i])
    ensures i == |After(s, steps).log| - 1 ==> !After(s, steps).log[i].Stored?
  {
    UsableHolds(s, steps);
    EveryEventUsable(After(s, steps).log, i);
  }

  // ---------------------------------------------------------------------
  // Returns
  // ---------------------------------------------------------------------

  /** What the call returned with: credentials for its link, or the failure of its own request. */
  ghost predicate Answers(e: Event, call: Call, now: Millis) {
    || (e.Served? && e.cache == call.cache && e.link == call.link && e.at == now)
    || e == FetchEnded(call.cache, call.link, None, now)
  }

  /** A thread returns only with credentials, with the failure of its request, or cancelled in its sleep. */
  lemma ReturnsWithReason(s: State, t: ThreadId, a: Action)
    requires t in s.threads && Ready(s, s.threads[t], a) && !s.threads[t].Idle? && Act(s, t, a).threads[t].Idle?
    ensures var s' := Act(s, t, a);
            || (a.Cancel? && s.threads[t].Waiting? && s'.log == s.log)
            || (|s'.log| > |s.log| && Answers(s'.log[|s'.log| - 1], s.threads[t].call, s.now))
  {}

  /**
   After an earlier request a thread goes on at once, or else sleeps, exactly until the random
   interval of three to six seconds since the end of that request is over.
   */
  lemma ThrottledExactly(s: State, t: ThreadId, jitter: nat)
    requires t in s.threads && Ready(s, s.threads[t], Throttle(jitter)) && s.last.Some?
    ensures var pc := Act(s, t, Throttle(jitter)).threads[t];
            var free := s.last.value + 3000 + jitter;
            && (pc.Fetching? <==> s.now >= free) && (pc.Waiting? <==> s.now < free)
            && (pc.Waiting? ==> pc.until == free) && 3000 <= free - s.last.value < 6000
  {}

  /** A cache with good credentials answers a call with two steps of the caller, under no lock but the read lock. */
  lemma GoodCacheServesAtOnce(s: State, t: ThreadId, call: Call)
    requires t in s.threads && s.threads[t].Idle? && Hit(s, call) && call.cache !in s.locks
    ensures var s1 := Apply(s, By(t, Start(call)));
            && Enabled(s1, By(t, Peek))
            && var s2 := Apply(s1, By(t, Peek));
               && s2.threads == s.threads[t := Idle] && s2.caches == s.caches && s2.last == s.last
               && s2.locks == s.locks && s2.global == s.global
               && s2.log == s.log + [Served(call.cache, call.link, s.caches[call.cache].grant, s.now)]
  {
    assert Hit(Apply(s, By(t, Start(call))), call);
  }
}
