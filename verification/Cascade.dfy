/**
 Start-up: how many workers run, how they are split into groups, and how the
 groups hand a baton on so that they request credentials one after another.
 */
module Cascade {
  import opened Arithmetic
  import opened Wrappers

  const WORKERS_PER_GROUP := 9
  const MAX_WORKERS := 108
  const ACCOUNT_MAX_WORKERS := 4

  type ChanId = nat

  datatype Group = Group(
    id: int,
    first: bool,
    hashIndex: nat,
    workerIds: seq<int>,
    waitReady: Option<ChanId>,
    signalReady: Option<ChanId>)

  /** Clamps the requested number of workers to what the mode allows. */
  method ClampWorkers(requested: int, account: bool) returns (numW: int)
    ensures account ==> 1 <= numW <= ACCOUNT_MAX_WORKERS
    ensures account && 1 <= requested <= ACCOUNT_MAX_WORKERS ==> numW == requested
    ensures account && requested > ACCOUNT_MAX_WORKERS ==> numW == ACCOUNT_MAX_WORKERS
    ensures account && requested < 1 ==> numW == 1
    ensures !account ==> WORKERS_PER_GROUP <= numW <= MAX_WORKERS && numW % WORKERS_PER_GROUP == 0
    ensures !account && WORKERS_PER_GROUP <= requested <= MAX_WORKERS ==> numW <= requested < numW + WORKERS_PER_GROUP
    ensures !account && requested > MAX_WORKERS ==> numW == MAX_WORKERS
    ensures !account && requested < WORKERS_PER_GROUP ==> numW == WORKERS_PER_GROUP
  {
    numW := requested;
    if numW > MAX_WORKERS {
      numW := MAX_WORKERS;
    }
    if account {
      if numW > ACCOUNT_MAX_WORKERS {
        numW := ACCOUNT_MAX_WORKERS;
      }
      if numW < 1 {
        numW := 1;
      }
    } else {
      if numW < WORKERS_PER_GROUP {
        numW := WORKERS_PER_GROUP;
      }
      numW := numW / WORKERS_PER_GROUP * WORKERS_PER_GROUP;
    }
  }

  function NumGroups(numW: nat): nat {
    (numW + WORKERS_PER_GROUP - 1) / WORKERS_PER_GROUP
  }

  /** The worker IDs of group g, counting groups from 0 and workers from 1. */
  ghost predicate Block(ids: seq<int>, g: nat, numW: nat) {
    && 1 <= |ids| <= WORKERS_PER_GROUP
    && (forall i :: 0 <= i < |ids| ==> ids[i] == g * WORKERS_PER_GROUP + 1 + i)
    && (g + 1 < NumGroups(numW) ==> |ids| == WORKERS_PER_GROUP)
    && (g + 1 == NumGroups(numW) ==> g * WORKERS_PER_GROUP + |ids| == numW)
  }

  /** Group g waits for the channel that group g - 1 signals on; the ends of the chain are open. */
  ghost predicate Wired(groups: seq<Group>, n: nat) {
    && (forall g :: 0 <= g < |groups| ==> (groups[g].waitReady.None? <==> g == 0))
    && (forall g :: 0 <= g < |groups| ==> (groups[g].signalReady.None? <==> g == n - 1))
    && (forall f, g :: 0 <= f < g < |groups| && g == f + 1 ==> groups[g].waitReady == groups[f].signalReady)
    && (forall f, g :: 0 <= f < g < |groups| && groups[f].signalReady.Some? ==>
          groups[f].signalReady != groups[g].signalReady)
  }

  ghost predicate Planned(groups: seq<Group>, numW: nat, n: nat) {
    && (forall g :: 0 <= g < |groups| ==>
          && Block(groups[g].workerIds, g, numW)
          && groups[g].id == g + 1 && groups[g].hashIndex == g && (groups[g].first <==> g == 0))
    && Wired(groups, n)
  }

  lemma GroupBounds(numW: nat, g: nat)
    requires g < NumGroups(numW)
    ensures g * WORKERS_PER_GROUP < numW
    ensures g + 1 < NumGroups(numW) ==> (g + 1) * WORKERS_PER_GROUP < numW
    ensures g + 1 == NumGroups(numW) ==> numW <= (g + 1) * WORKERS_PER_GROUP
  {}

  ghost predicate SignalsBelow(groups: seq<Group>, bound: ChanId) {
    forall f :: 0 <= f < |groups| && groups[f].signalReady.Some? ==> groups[f].signalReady.value < bound
  }

  /** One more group, wired to the one before it and with a channel of its own. */
  lemma PlanGrows(groups: seq<Group>, numW: nat, n: nat, last: Group, chan: ChanId)
    requires Planned(groups, numW, n) && SignalsBelow(groups, chan) && |groups| < n
    requires var g := |groups|;
             && Block(last.workerIds, g, numW)
             && last.id == g + 1 && last.hashIndex == g && (last.first <==> g == 0)
             && last.waitReady == (if g == 0 then None else groups[g - 1].signalReady)
             && last.signalReady == (if g == n - 1 then None else Some(chan))
    ensures Planned(groups + [last], numW, n) && SignalsBelow(groups + [last], chan + 1)
  {}

  /** The loop that starts the groups. */
  method PlanGroups(numW: nat) returns (groups: seq<Group>)
    ensures |groups| == NumGroups(numW) && Planned(groups, numW, NumGroups(numW))
  {
    var numGroups := NumGroups(numW);
    var workerIdCounter := 1;
    var prevWaitReady: Option<ChanId> := None;
    var nextChan: ChanId := 0;
    groups := [];
    for g := 0 to numGroups
      invariant |groups| == g && Planned(groups, numW, numGroups)
      invariant g < numGroups ==> workerIdCounter == g * WORKERS_PER_GROUP + 1
      invariant 0 < g < numGroups ==> prevWaitReady == groups[g - 1].signalReady
      invariant SignalsBelow(groups, nextChan)
    {
      GroupBounds(numW, g);
      var myWaitReady, mySignalReady := None, None;
      if g > 0 {
        myWaitReady := prevWaitReady;
      }
      if g < numGroups - 1 {
        mySignalReady := Some(nextChan);
        prevWaitReady := Some(nextChan);
        nextChan := nextChan + 1;
      }
      var startIdx := g * WORKERS_PER_GROUP;
      var endIdx := startIdx + WORKERS_PER_GROUP;
      if endIdx > numW {
        endIdx := numW;
      }
      var groupSize := endIdx - startIdx;
      var ids, next := NumberWorkers(workerIdCounter, groupSize);
      workerIdCounter := next;
      var group := Group(g + 1, g == 0, g, ids, myWaitReady, mySignalReady);
      PlanGrows(groups, numW, numGroups, group, if mySignalReady.Some? then mySignalReady.value else nextChan);
      groups := groups + [group];
    }
  }

  method NumberWorkers(start: int, size: nat) returns (ids: seq<int>, next: int)
    ensures |ids| == size && next == start + size
    ensures forall i :: 0 <= i < size ==> ids[i] == start + i
  {
    ids, next := [], start;
    for i := 0 to size
      invariant |ids| == i && next == start + i
      invariant forall j :: 0 <= j < i ==> ids[j] == start + j
    {
      ids := ids + [next];
      next := next + 1;
    }
  }

  /** Every worker from 1 to numW is in exactly one group, and nobody else is in any. */
  lemma WorkersArePartitioned(groups: seq<Group>, numW: nat, g: nat, w: int)
    requires |groups| == NumGroups(numW) && Planned(groups, numW, NumGroups(numW)) && g < |groups|
    ensures w in groups[g].workerIds <==> 1 <= w <= numW && g == (w - 1) / WORKERS_PER_GROUP
  {
    var ids := groups[g].workerIds;
    GroupBounds(numW, g);
    if w in ids {
      var i :| 0 <= i < |ids| && ids[i] == w;
      DivModUnique(w - 1, WORKERS_PER_GROUP, g, i);
    }
    if 1 <= w <= numW && g == (w - 1) / WORKERS_PER_GROUP {
      DivModEquation(w - 1, WORKERS_PER_GROUP);
      assert ids[(w - 1) % WORKERS_PER_GROUP] == w;
    }
  }

  // ---------------------------------------------------------------------
  // The cascade
  // ---------------------------------------------------------------------

  datatype Pc =
    | Waiting      // for the previous group's signal
    | Started      // its turn has come
    | Requesting   // asked for credentials
    | Failed       // did not get them
    | Succeeded    // got them
    | Signalled    // and told the next group
    | Aborted      // gave up before asking

  datatype State = State(pcs: seq<Pc>, closed: set<ChanId>)

  datatype Step = Start(g: nat) | Request(g: nat) | Reply(g: nat, ok: bool) | Signal(g: nat) | Abort(g: nat)

  predicate Enabled(groups: seq<Group>, s: State, st: Step) {
    && |s.pcs| == |groups| && st.g < |groups|
    && match st
       case Start(g) => s.pcs[g].Waiting? && (groups[g].waitReady.Some? ==> groups[g].waitReady.value in s.closed)
       case Request(g) => s.pcs[g].Started?
       case Reply(g, _) => s.pcs[g].Requesting?
       case Signal(g) => s.pcs[g].Succeeded? && groups[g].signalReady.Some?
       case Abort(g) => s.pcs[g].Waiting? || s.pcs[g].Started?
  }

  function Apply(groups: seq<Group>, s: State, st: Step): State
    requires Enabled(groups, s, st)
  {
    match st
    case Start(g) => s.(pcs := s.pcs[g := Started])
    case Request(g) => s.(pcs := s.pcs[g := Requesting])
    case Reply(g, ok) => s.(pcs := s.pcs[g := if ok then Succeeded else Failed])
    case Signal(g) => State(s.pcs[g := Signalled], s.closed + {groups[g].signalReady.value})
    case Abort(g) => s.(pcs := s.pcs[g := Aborted])
  }

  predicate Legal(groups: seq<Group>, run: seq<Step>)
    decreases |run|, 0
  {
    run == [] || (Legal(groups, run[..|run| - 1]) && Enabled(groups, After(groups, run[..|run| - 1]), run[|run| - 1]))
  }

  function After(groups: seq<Group>, run: seq<Step>): State
    requires Legal(groups, run)
    decreases |run|, 1
  {
    if run == [] then State(seq(|groups|, _ => Waiting), {})
    else Apply(groups, After(groups, run[..|run| - 1]), run[|run| - 1])
  }

  /** The group's turn came. */
  predicate Begun(pc: Pc) {
    pc.Started? || pc.Requesting? || pc.Failed? || pc.Succeeded? || pc.Signalled?
  }

  predicate HasRequested(pc: Pc) {
    pc.Requesting? || pc.Failed? || pc.Succeeded? || pc.Signalled?
  }

  predicate HasSucceeded(pc: Pc) {
    pc.Succeeded? || pc.Signalled?
  }

  ghost predicate Inv(groups: seq<Group>, s: State) {
    && |s.pcs| == |groups|
    && (forall g :: 0 <= g < |groups| && groups[g].signalReady.Some? ==>
          (groups[g].signalReady.value in s.closed <==> s.pcs[g].Signalled?))
    && (forall f, g :: 0 <= f < g < |groups| && g == f + 1 && Begun(s.pcs[g]) ==> s.pcs[f].Signalled?)
  }

  lemma StepKeeps(groups: seq<Group>, s: State, st: Step, numW: nat)
    requires |groups| == NumGroups(numW) && Planned(groups, numW, NumGroups(numW))
    requires Inv(groups, s) && Enabled(groups, s, st)
    ensures Inv(groups, Apply(groups, s, st))
  {
    var s' := Apply(groups, s, st);
    forall f, g | 0 <= f < g < |groups| && g == f + 1 && Begun(s'.pcs[g]) ensures s'.pcs[f].Signalled? {
      if st == Start(g) {
        assert groups[g].waitReady == groups[f].signalReady;
      }
    }
  }

  lemma {:induction false} InvHolds(groups: seq<Group>, run: seq<Step>, numW: nat)
    requires |groups| == NumGroups(numW) && Planned(groups, numW, NumGroups(numW)) && Legal(groups, run)
    ensures Inv(groups, After(groups, run))
  {
    if run != [] {
      InvHolds(groups, run[..|run| - 1], numW);
      StepKeeps(groups, After(groups, run[..|run| - 1]), run[|run| - 1], numW);
    }
  }

  /** A group that has begun has only successful predecessors. */
  lemma {:induction false} PredecessorsSucceeded(groups: seq<Group>, s: State, f: nat, g: nat)
    requires Inv(groups, s) && f < g < |groups| && Begun(s.pcs[g])
    ensures s.pcs[f].Signalled?
    decreases g - f
  {
    assert s.pcs[g - 1].Signalled? by {
      assert g == (g - 1) + 1;
    }
    if f < g - 1 {
      PredecessorsSucceeded(groups, s, f, g - 1);
    }
  }

  /**
   In every reachable state, for every group that has requested credentials, all
   earlier groups have requested them too and have got them: the groups that
   asked form a prefix, and only the last of them may still lack credentials.
   */
  lemma CascadeIsOrdered(groups: seq<Group>, run: seq<Step>, numW: nat, f: nat, g: nat)
    requires |groups| == NumGroups(numW) && Planned(groups, numW, NumGroups(numW)) && Legal(groups, run)
    requires f < g < |groups| && HasRequested(After(groups, run).pcs[g])
    ensures HasRequested(After(groups, run).pcs[f]) && HasSucceeded(After(groups, run).pcs[f])
  {
    InvHolds(groups, run, numW);
    PredecessorsSucceeded(groups, After(groups, run), f, g);
  }

  /** No group closes a channel that is already closed. */
  lemma SignalsOnce(groups: seq<Group>, run: seq<Step>, numW: nat, g: nat)
    requires |groups| == NumGroups(numW) && Planned(groups, numW, NumGroups(numW)) && Legal(groups, run)
    requires Enabled(groups, After(groups, run), Signal(g))
    ensures groups[g].signalReady.value !in After(groups, run).closed
  {
    InvHolds(groups, run, numW);
  }

  /** A group that fails stops everyone after it. */
  lemma FailureStopsTheRest(groups: seq<Group>, run: seq<Step>, numW: nat, f: nat, g: nat)
    requires |groups| == NumGroups(numW) && Planned(groups, numW, NumGroups(numW)) && Legal(groups, run)
    requires f < g < |groups| && (After(groups, run).pcs[f].Failed? || After(groups, run).pcs[f].Aborted?)
    ensures !HasRequested(After(groups, run).pcs[g])
  {
    InvHolds(groups, run, numW);
    if Begun(After(groups, run).pcs[g]) {
      PredecessorsSucceeded(groups, After(groups, run), f, g);
    }
  }

  /** Where a group stands tells what it did and how it was answered. */
  lemma {:induction false} StandingIsHistory(groups: seq<Group>, run: seq<Step>, g: nat)
    requires Legal(groups, run) && g < |groups|
    ensures |After(groups, run).pcs| == |groups|
    ensures var pc := After(groups, run).pcs[g];
            && (HasRequested(pc) <==> Request(g) in run)
            && (HasSucceeded(pc) <==> Reply(g, true) in run)
            && (pc.Failed? <==> Reply(g, false) in run)
            && (pc.Signalled? <==> Signal(g) in run)
            && (pc.Aborted? <==> Abort(g) in run)
  {
    if run != [] {
      var prefix, st := run[..|run| - 1], run[|run| - 1];
      StandingIsHistory(groups, prefix, g);
      assert forall x :: x in run <==> x in prefix || x == st;
    }
  }

  /** The first group can start at once, and each group that got credentials can let the next one start. */
  lemma BatonIsPassed(groups: seq<Group>, run: seq<Step>, numW: nat, g: nat)
    requires |groups| == NumGroups(numW) && Planned(groups, numW, NumGroups(numW)) && Legal(groups, run)
    requires g < |groups| && |After(groups, run).pcs| == |groups| && After(groups, run).pcs[g].Waiting?
    ensures var s := After(groups, run);
            && (g == 0 ==> Enabled(groups, s, Start(g)))
            && (g > 0 && s.pcs[g - 1].Signalled? ==> Enabled(groups, s, Start(g)))
            && (g > 0 && s.pcs[g - 1].Succeeded? ==>
                  && Enabled(groups, s, Signal(g - 1))
                  && Enabled(groups, Apply(groups, s, Signal(g - 1)), Start(g)))
  {
    InvHolds(groups, run, numW);
    if g > 0 {
      assert groups[g].waitReady == groups[g - 1].signalReady by {
        assert g == (g - 1) + 1;
      }
    }
  }

  /** Groups cache their credentials under different keys. */
  const STREAMS_PER_CACHE := 10

  function CredStream(groupId: nat): nat {
    groupId * 100
  }

  function CacheId(streamId: nat): nat {
    streamId / STREAMS_PER_CACHE
  }

  const PING_STREAM := 999

  lemma GroupsDoNotShareCaches(f: nat, g: nat)
    ensures CacheId(CredStream(f)) == CacheId(CredStream(g)) <==> f == g
    ensures CacheId(CredStream(g)) != CacheId(PING_STREAM)
  {}
}
