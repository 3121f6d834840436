/**
 The dispatcher of the packet plane, which probes one queue per step while
 everyone else goes on, still does nothing but whole dispatches: its log is a run
 of the cursor, so the chunk limits hold for it, and it drops a packet only after
 finding every queue full.
 */
module PlaneDispatch {
  import opened Arithmetic
  import opened ChunkSizes
  import opened Cursors
  import opened Dispatching
  import opened PacketPlane
  import opened PlaneOvertaking
  import PlaneOrder

  /** The first i stops of the ring scan are among the slots in full. */
  ghost predicate Scanned(members: seq<SlotId>, idx: nat, i: nat, full: set<SlotId>)
    requires idx < |members| && i <= |members|
  {
    forall j :: 0 <= j < i ==> members[RingStop(idx, j, |members|)] in full
  }

  ghost predicate AllIn(members: seq<SlotId>, full: set<SlotId>) {
    forall x :: 0 <= x < |members| ==> members[x] in full
  }

  /** Every step of an unfinished dispatch is accounted for by the cursor it started from. */
  ghost predicate DispatchInv(s: Plane) {
    && AllIn(s.workers, s.slots.Keys)
    && match s.disp
       case Waiting => Recorded(s.log, s.cur, |s.workers|)
       case Fetched(_) => Recorded(s.log, s.cur, |s.workers|)
       case ProbePrio(pkt, now, entry, i, full) =>
         && i < |s.workers| && pkt.size <= PRIO_THRESHOLD
         && Recorded(s.log, entry, |s.workers|)
         && s.cur == AfterPause(entry, |s.workers|, now)
         && Scanned(s.workers, Target(s.cur, |s.workers|), i, full)
       case ProbeSend(pkt, now, entry, i, prioFull, full) =>
         && i < |s.workers|
         && Recorded(s.log, entry, |s.workers|)
         && s.cur == Aimed(entry, |s.workers|, now)
         && (pkt.size <= PRIO_THRESHOLD ==> AllIn(s.workers, prioFull))
         && Scanned(s.workers, Target(s.cur, |s.workers|), i, full)
  }

  /** Nobody was dropped without all its queues having been found full. */
  ghost predicate Justified(d: Drop) {
    AllIn(d.members, d.sendFull) && (d.size <= PRIO_THRESHOLD ==> AllIn(d.members, d.prioFull))
  }

  ghost predicate DropsJustified(s: Plane) {
    forall i :: 0 <= i < |s.drops| ==> Justified(s.drops[i])
  }

  /** One more stop, and possibly the last one. */
  lemma ScanOneMore(members: seq<SlotId>, idx: nat, i: nat, full: set<SlotId>)
    requires idx < |members| && i < |members| && Scanned(members, idx, i, full)
    ensures var full' := full + {members[RingStop(idx, i, |members|)]};
            Scanned(members, idx, i + 1, full') && (i + 1 == |members| ==> AllIn(members, full'))
  {
    var full' := full + {members[RingStop(idx, i, |members|)]};
    if i + 1 == |members| {
      forall x | 0 <= x < |members| ensures members[x] in full' {
        assert RingStop(idx, RingDistance(idx, x, |members|), |members|) == x;
      }
    }
  }

  lemma LockKeepsDispatch(s: Plane, now: int)
    requires DispatchInv(s) && Enabled(s, Lock(now))
    ensures DispatchInv(Apply(s, Lock(now)))
  {}

  lemma PushKeepsMembers(s: Plane, w: SlotId, slot: Slot)
    requires AllIn(s.workers, s.slots.Keys)
    ensures AllIn(s.workers, s.slots[w := slot].Keys)
  {}

  /** A priority queue took the packet. */
  lemma PrioTaken(s: Plane)
    requires DispatchInv(s) && Enabled(s, Probe) && s.disp.ProbePrio?
    requires |s.slots[s.workers[Probed(s)]].prioCh| < PRIO_CAP
    ensures DispatchInv(ApplyProbePrio(s))
  {
    var w, nw := s.workers[Probed(s)], |s.workers|;
    RecordedDispatch(s.log, s.disp.entry, nw, s.disp.pkt.size, s.disp.now, Prio(Probed(s)));
    PushKeepsMembers(s, w, PushPrio(s.slots[w], s.disp.pkt));
  }

  /** A data queue took the packet. */
  lemma DataTaken(s: Plane)
    requires DispatchInv(s) && Enabled(s, Probe) && s.disp.ProbeSend?
    requires |s.slots[s.workers[Probed(s)]].sendCh| < SEND_CAP
    ensures DispatchInv(ApplyProbeSend(s))
  {
    var w, nw := s.workers[Probed(s)], |s.workers|;
    RecordedDispatch(s.log, s.disp.entry, nw, s.disp.pkt.size, s.disp.now, Data(Probed(s)));
    PushKeepsMembers(s, w, PushSend(s.slots[w], s.disp.pkt));
  }

  lemma PrioFull(s: Plane)
    requires DispatchInv(s) && Enabled(s, Probe) && s.disp.ProbePrio?
    requires |s.slots[s.workers[Probed(s)]].prioCh| >= PRIO_CAP
    ensures DispatchInv(ApplyProbePrio(s)) && ApplyProbePrio(s).drops == s.drops
  {
    ScanOneMore(s.workers, Target(s.cur, |s.workers|), s.disp.i, s.disp.prioFull);
  }

  lemma DataFull(s: Plane)
    requires DispatchInv(s) && DropsJustified(s) && Enabled(s, Probe) && s.disp.ProbeSend?
    requires |s.slots[s.workers[Probed(s)]].sendCh| >= SEND_CAP
    ensures DispatchInv(ApplyProbeSend(s)) && DropsJustified(ApplyProbeSend(s))
  {
    ScanOneMore(s.workers, Target(s.cur, |s.workers|), s.disp.i, s.disp.sendFull);
    if s.disp.i + 1 == |s.workers| {
      RecordedDispatch(s.log, s.disp.entry, |s.workers|, s.disp.pkt.size, s.disp.now, Dropped);
    }
  }

  lemma JoinKeepsDispatch(s: Plane, w: SlotId)
    requires DispatchInv(s) && Enabled(s, Join(w))
    ensures DispatchInv(Apply(s, Join(w)))
  {
    RecordedStep(s.log, s.cur, |s.workers|, Event.Register);
  }

  lemma LeaveKeepsDispatch(s: Plane, w: SlotId)
    requires DispatchInv(s) && Enabled(s, Leave(w))
    ensures DispatchInv(Apply(s, Leave(w)))
  {
    RecordedStep(s.log, s.cur, |s.workers|, Event.Unregister(true));
    var rest := Without(s.workers, w);
    forall x | 0 <= x < |rest| ensures rest[x] in s.slots.Keys {
      assert rest[x] in multiset(rest);
      assert rest[x] in multiset(s.workers);
    }
  }

  /** The others leave the dispatcher alone. */
  ghost predicate DispatcherUntouched(s: Plane, s': Plane) {
    && s'.disp == s.disp && s'.workers == s.workers && s'.cur == s.cur && s'.log == s.log && s'.drops == s.drops
    && s.slots.Keys <= s'.slots.Keys
  }

  lemma UntouchedKeepsDispatch(s: Plane, s': Plane)
    requires DispatchInv(s) && DropsJustified(s) && DispatcherUntouched(s, s')
    ensures DispatchInv(s') && DropsJustified(s')
  {
    assert AllIn(s'.workers, s'.slots.Keys);
  }

  lemma ProbeKeepsDispatch(s: Plane)
    requires DispatchInv(s) && DropsJustified(s) && Enabled(s, Probe)
    ensures DispatchInv(Apply(s, Probe)) && DropsJustified(Apply(s, Probe))
  {
    var slot := s.slots[s.workers[Probed(s)]];
    if s.disp.ProbePrio? {
      if |slot.prioCh| < PRIO_CAP {
        PrioTaken(s);
      } else {
        PrioFull(s);
      }
    } else {
      if |slot.sendCh| < SEND_CAP {
        DataTaken(s);
      } else {
        DataFull(s);
      }
    }
  }

  lemma StepKeepsDispatch(s: Plane, st: Step)
    requires DispatchInv(s) && DropsJustified(s) && Enabled(s, st)
    ensures DispatchInv(Apply(s, st)) && DropsJustified(Apply(s, st))
  {
    match st
    case Read(_, _) =>
    case Lock(now) => LockKeepsDispatch(s, now);
    case Probe => ProbeKeepsDispatch(s);
    case Join(w) => JoinKeepsDispatch(s, w);
    case Leave(w) => LeaveKeepsDispatch(s, w);
    case _ => UntouchedKeepsDispatch(s, Apply(s, st));
  }

  lemma {:induction false} DispatchInvHolds(run: seq<Step>)
    requires Legal(run)
    ensures DispatchInv(After(run)) && DropsJustified(After(run))
  {
    if run != [] {
      DispatchInvHolds(run[..|run| - 1]);
      StepKeepsDispatch(After(run[..|run| - 1]), run[|run| - 1]);
    }
  }

  /**
   Whatever happens between the probes, the dispatcher's log is a run of the
   cursor that accounts for its cursor whenever the mutex is free; so as long as
   the clock does not go back, every chunk is within its limits.
   */
  lemma InterleavedChunksAreBounded(run: seq<Step>)
    requires Legal(run) && ClockForward(After(run).log)
    ensures var s := After(run);
            && Admitted(s.log)
            && (forall c :: c in Run(s.log).closed + [Run(s.log).open] ==> Bounded(c))
            && (!s.disp.Locked() ==>
                Run(s.log).cur == s.cur && InRing(s.cur, |s.workers|)
                && s.cur.rrCount == Sent(Run(s.log).open) < MAX_CHUNK)
  {
    DispatchInvHolds(run);
    ChunkLimits(After(run).log);
  }

  /** The limits on the number of packets and the worker of a chunk need no clock. */
  lemma InterleavedChunksAreSmall(run: seq<Step>)
    requires Legal(run)
    ensures var s := After(run);
            && Admitted(s.log) && AllSmall(Run(s.log).closed + [Run(s.log).open])
            && (!s.disp.Locked() ==> InRing(s.cur, |s.workers|) && s.cur.rrCount == Sent(Run(s.log).open) < MAX_CHUNK)
  {
    DispatchInvHolds(run);
    ChunkSizesAnyClock(After(run).log);
  }

  /** A slot is only noted as full at a step that finds its queue at capacity. */
  lemma FullMeansFull(run: seq<Step>, w: SlotId)
    requires Legal(run) && Enabled(After(run), Probe) && w in After(run).slots
    ensures var s, s' := After(run), Apply(After(run), Probe);
            && (s.disp.ProbeSend? && s'.disp.ProbeSend? && w in s'.disp.sendFull - s.disp.sendFull ==>
                |s.slots[w].sendCh| == SEND_CAP)
            && (s.disp.ProbePrio? && s'.disp.Locked() && w in s'.disp.prioFull - s.disp.prioFull ==>
                |s.slots[w].prioCh| == PRIO_CAP)
            && (s'.drops != s.drops ==> w in s'.drops[|s.drops|].sendFull - s.disp.sendFull ==>
                |s.slots[w].sendCh| == SEND_CAP)
  {
    QueuesWithinCapacity(run, w);
  }

  // ---------------------------------------------------------------------
  // Refusals
  // ---------------------------------------------------------------------

  /** The dispatcher, with that packet in hand, is about to probe that queue of w. */
  ghost predicate Probing(s: Plane, num: int, w: SlotId, prio: bool) {
    && s.disp.Locked() && s.disp.pkt.num == num && ProbeDefined(s) && s.workers[Probed(s)] == w
    && s.disp.ProbePrio? == prio
  }

  /**
   At that moment of the run, with those workers registered, the packet was refused:
   the queue of w that was probed was at capacity.
   */
  ghost predicate RefusedAt(run: seq<Step>, k: nat, members: seq<SlotId>, num: int, w: SlotId, prio: bool) {
    && k <= |run| && Legal(run[..k]) && After(run[..k]).workers == members && Probing(After(run[..k]), num, w, prio)
    && if prio then |After(run[..k]).slots[w].prioCh| == PRIO_CAP else |After(run[..k]).slots[w].sendCh| == SEND_CAP
  }

  ghost predicate Refused(run: seq<Step>, members: seq<SlotId>, num: int, w: SlotId, prio: bool) {
    exists k: nat :: RefusedAt(run, k, members, num, w, prio)
  }

  ghost predicate AllRefused(run: seq<Step>, members: seq<SlotId>, num: int, full: set<SlotId>, prio: bool) {
    forall w <- full :: Refused(run, members, num, w, prio)
  }

  /** The queues that the packet in hand found full so far. */
  ghost predicate RefusalsSoFar(run: seq<Step>, members: seq<SlotId>, disp: DispatcherPc) {
    match disp
    case ProbePrio(pkt, _, _, _, full) => AllRefused(run, members, pkt.num, full, true)
    case ProbeSend(pkt, _, _, _, prioFull, full) =>
      AllRefused(run, members, pkt.num, prioFull, true) && AllRefused(run, members, pkt.num, full, false)
    case _ => true
  }

  ghost predicate DropRefused(run: seq<Step>, d: Drop) {
    && d.members != []
    && AllRefused(run, d.members, d.num, d.prioFull, true) && AllRefused(run, d.members, d.num, d.sendFull, false)
  }

  ghost predicate DropsRefused(run: seq<Step>, drops: seq<Drop>) {
    forall d :: 0 <= d < |drops| ==> DropRefused(run, drops[d])
  }

  /** What was refused stays refused as the run goes on. */
  lemma RefusedLater(run: seq<Step>, n: nat, members: seq<SlotId>, num: int, full: set<SlotId>, prio: bool)
    requires n <= |run| && AllRefused(run[..n], members, num, full, prio)
    ensures AllRefused(run, members, num, full, prio)
  {
    forall w <- full ensures Refused(run, members, num, w, prio) {
      var k: nat :| RefusedAt(run[..n], k, members, num, w, prio);
      assert run[..n][..k] == run[..k];
      assert RefusedAt(run, k, members, num, w, prio);
    }
  }

  lemma AllLater(run: seq<Step>, n: nat, members: seq<SlotId>, disp: DispatcherPc, drops: seq<Drop>)
    requires n <= |run| && RefusalsSoFar(run[..n], members, disp) && DropsRefused(run[..n], drops)
    ensures RefusalsSoFar(run, members, disp) && DropsRefused(run, drops)
  {
    match disp {
      case ProbePrio(pkt, _, _, _, full) => RefusedLater(run, n, members, pkt.num, full, true);
      case ProbeSend(pkt, _, _, _, prioFull, full) =>
        RefusedLater(run, n, members, pkt.num, prioFull, true);
        RefusedLater(run, n, members, pkt.num, full, false);
      case _ =>
    }
    forall d | 0 <= d < |drops| ensures DropRefused(run, drops[d]) {
      assert DropRefused(run[..n], drops[d]);
      RefusedLater(run, n, drops[d].members, drops[d].num, drops[d].prioFull, true);
      RefusedLater(run, n, drops[d].members, drops[d].num, drops[d].sendFull, false);
    }
  }

  /** A probe that finds its queue full is a refusal of the packet in hand. */
  lemma ProbeRefuses(run: seq<Step>, n: nat, w: SlotId, prio: bool)
    requires n <= |run| && Legal(run[..n]) && Enabled(After(run[..n]), Probe)
    requires var s := After(run[..n]); w == s.workers[Probed(s)] && prio == s.disp.ProbePrio?
    requires var slot := After(run[..n]).slots[w]; if prio then |slot.prioCh| >= PRIO_CAP else |slot.sendCh| >= SEND_CAP
    ensures Refused(run, After(run[..n]).workers, After(run[..n]).disp.pkt.num, w, prio)
  {
    QueuesWithinCapacity(run[..n], w);
    assert RefusedAt(run, n, After(run[..n]).workers, After(run[..n]).disp.pkt.num, w, prio);
  }

  /** What one probe makes of the refusals, whatever the run was. */
  lemma ProbeKeepsRefusals(run: seq<Step>, s: Plane)
    requires Enabled(s, Probe) && RefusalsSoFar(run, s.workers, s.disp) && DropsRefused(run, s.drops)
    requires var w := s.workers[Probed(s)];
             && (s.disp.ProbePrio? && |s.slots[w].prioCh| >= PRIO_CAP ==>
                 Refused(run, s.workers, s.disp.pkt.num, w, true))
             && (s.disp.ProbeSend? && |s.slots[w].sendCh| >= SEND_CAP ==>
                 Refused(run, s.workers, s.disp.pkt.num, w, false))
    ensures RefusalsSoFar(run, Apply(s, Probe).workers, Apply(s, Probe).disp)
    ensures DropsRefused(run, Apply(s, Probe).drops)
  {
    var s' := Apply(s, Probe);
    if s'.drops != s.drops {
      assert s'.drops == s.drops + [s'.drops[|s.drops|]];
      assert DropRefused(run, s'.drops[|s.drops|]);
    }
  }

  /** Nobody but a probe adds a refusal or a drop. */
  lemma OthersRefuseNothing(run: seq<Step>, s: Plane, st: Step)
    requires Enabled(s, st) && !st.Probe? && RefusalsSoFar(run, s.workers, s.disp)
    ensures RefusalsSoFar(run, Apply(s, st).workers, Apply(s, st).disp) && Apply(s, st).drops == s.drops
  {}

  lemma {:induction false} RefusalsHold(run: seq<Step>)
    requires Legal(run)
    ensures RefusalsSoFar(run, After(run).workers, After(run).disp) && DropsRefused(run, After(run).drops)
  {
    if run != [] {
      var n, st := |run| - 1, run[|run| - 1];
      var s := After(run[..n]);
      RefusalsHold(run[..n]);
      AllLater(run, n, s.workers, s.disp, s.drops);
      if st.Probe? {
        ProbeAddsRefusal(run, n);
        ProbeKeepsRefusals(run, s);
      } else {
        OthersRefuseNothing(run, s, st);
      }
    }
  }

  lemma ProbeAddsRefusal(run: seq<Step>, n: nat)
    requires n <= |run| && Legal(run[..n]) && Enabled(After(run[..n]), Probe)
    ensures var s := After(run[..n]);
            var w := s.workers[Probed(s)];
            && (s.disp.ProbePrio? && |s.slots[w].prioCh| >= PRIO_CAP ==>
                 Refused(run, s.workers, s.disp.pkt.num, w, true))
            && (s.disp.ProbeSend? && |s.slots[w].sendCh| >= SEND_CAP ==>
                 Refused(run, s.workers, s.disp.pkt.num, w, false))
  {
    var s := After(run[..n]);
    var w := s.workers[Probed(s)];
    if s.disp.ProbePrio? && |s.slots[w].prioCh| >= PRIO_CAP {
      ProbeRefuses(run, n, w, true);
    } else if s.disp.ProbeSend? && |s.slots[w].sendCh| >= SEND_CAP {
      ProbeRefuses(run, n, w, false);
    }
  }

  /**
   Every packet ever dropped had been refused by every member's data queue, and a
   small one by every member's priority queue too: for each there is a moment of the
   run at which these members were all the workers registered, and the dispatcher
   probed that queue for that packet and it was at capacity.
   */
  lemma DropOnlyOnOverload(run: seq<Step>, d: nat, x: nat)
    requires Legal(run) && d < |After(run).drops| && x < |After(run).drops[d].members|
    ensures var drop := After(run).drops[d];
            && Refused(run, drop.members, drop.num, drop.members[x], false)
            && (drop.size <= PRIO_THRESHOLD ==> Refused(run, drop.members, drop.num, drop.members[x], true))
  {
    DispatchInvHolds(run);
    RefusalsHold(run);
    assert Justified(After(run).drops[d]) && DropRefused(run, After(run).drops[d]);
  }

  /** Every member that a scan from idx reaches before stop x refused the packet. */
  ghost predicate NearerRefused(run: seq<Step>, members: seq<SlotId>, num: int, idx: nat, x: nat, prio: bool) {
    idx < |members| && x < |members| &&
    forall y :: 0 <= y < |members| && RingDistance(idx, y, |members|) < RingDistance(idx, x, |members|) ==>
      Refused(run, members, num, members[y], prio)
  }

  lemma StopBefore(idx: nat, y: nat, i: nat, nw: nat)
    requires idx < nw && y < nw && i < nw && RingDistance(idx, y, nw) < RingDistance(idx, RingStop(idx, i, nw), nw)
    ensures RingDistance(idx, y, nw) < i && RingStop(idx, RingDistance(idx, y, nw), nw) == y
  {
    RingScanIsBijection(idx, nw, RingDistance(idx, y, nw), y);
    RingScanIsBijection(idx, nw, i, RingStop(idx, i, nw));
  }

  lemma ScannedAreRefused(
    run: seq<Step>, members: seq<SlotId>, num: int, idx: nat, i: nat, full: set<SlotId>, prio: bool)
    requires idx < |members| && i < |members| && Scanned(members, idx, i, full)
    requires AllRefused(run, members, num, full, prio)
    ensures NearerRefused(run, members, num, idx, RingStop(idx, i, |members|), prio)
  {
    var nw := |members|;
    forall y | 0 <= y < nw && RingDistance(idx, y, nw) < RingDistance(idx, RingStop(idx, i, nw), nw)
      ensures Refused(run, members, num, members[y], prio)
    {
      StopBefore(idx, y, i, nw);
      assert members[RingStop(idx, RingDistance(idx, y, nw), nw)] in full;
    }
  }

  /** Worker x got the packet of that number by its priority or its data queue, and the log says so. */
  ghost predicate Settled(s: Plane, num: int, size: nat, now: int, x: nat, prio: bool) {
    && x < |s.workers| && s.log != [] && 0 <= num < |s.fates|
    && s.fates[num] == (if prio then ToPrio(s.workers[x]) else ToSend(s.workers[x]))
    && s.log[|s.log| - 1] == Dispatch(size, now, if prio then Prio(x) else Data(x))
  }

  /** The probe that finds room settles the packet with the worker it probed. */
  lemma ProbeSettles(s: Plane)
    requires Enabled(s, Probe) && 0 <= s.disp.pkt.num < |s.fates| && !Apply(s, Probe).disp.Locked()
    requires Apply(s, Probe).drops == s.drops
    ensures Settled(Apply(s, Probe), s.disp.pkt.num, s.disp.pkt.size, s.disp.now, Probed(s), s.disp.ProbePrio?)
  {}

  /**
   A packet goes to the first worker on the ring, counted from the target, whose queue had
   room when it was probed: the queues of the workers before it had all refused the packet.
   The priority queue is for small packets alone, and a small packet gets into a data
   queue only after every priority queue refused it.
   */
  lemma FirstFreeGetsThePacket(run: seq<Step>)
    requires Legal(run) && Enabled(After(run), Probe)
    requires !Apply(After(run), Probe).disp.Locked() && Apply(After(run), Probe).drops == After(run).drops
    ensures var s, s' := After(run), Apply(After(run), Probe);
            var num, size, x := s.disp.pkt.num, s.disp.pkt.size, Probed(s);
            && Settled(s', num, size, s.disp.now, x, s.disp.ProbePrio?)
            && NearerRefused(run, s.workers, num, Target(s.cur, |s.workers|), x, s.disp.ProbePrio?)
            && (s.disp.ProbePrio? ==> size <= PRIO_THRESHOLD)
            && (s.disp.ProbeSend? && size <= PRIO_THRESHOLD ==>
                forall w <- s.workers :: Refused(run, s.workers, num, w, true))
  {
    var s := After(run);
    DispatchInvHolds(run);
    RefusalsHold(run);
    PlaneOrder.OrderInvHolds(run);
    ProbeSettles(s);
    if s.disp.ProbePrio? {
      ScannedAreRefused(run, s.workers, s.disp.pkt.num, Target(s.cur, |s.workers|), s.disp.i, s.disp.prioFull, true);
    } else {
      ScannedAreRefused(run, s.workers, s.disp.pkt.num, Target(s.cur, |s.workers|), s.disp.i, s.disp.sendFull, false);
    }
  }

  lemma DropHasMembers(run: seq<Step>, d: nat)
    requires Legal(run) && d < |After(run).drops|
    ensures After(run).drops[d].members != []
  {
    RefusalsHold(run);
    assert DropRefused(run, After(run).drops[d]);
  }

  /** Some drop is that of packet n. */
  ghost predicate HasDrop(drops: seq<Drop>, n: int) {
    exists d :: 0 <= d < |drops| && drops[d].num == n
  }

  ghost predicate LossesRecorded(s: Plane) {
    forall n :: 0 <= n < |s.fates| && s.fates[n].Lost? ==> HasDrop(s.drops, n)
  }

  lemma ProbeRecordsLosses(s: Plane)
    requires LossesRecorded(s) && Enabled(s, Probe)
    ensures LossesRecorded(Apply(s, Probe))
  {
    var s' := Apply(s, Probe);
    forall n | 0 <= n < |s'.fates| && s'.fates[n].Lost? ensures HasDrop(s'.drops, n) {
      if s.fates[n].Lost? {
        var d :| 0 <= d < |s.drops| && s.drops[d].num == n;
        assert s'.drops[d].num == n;
      } else {
        assert s'.drops[|s.drops|].num == n;
      }
    }
  }

  lemma OthersLoseNothing(s: Plane, st: Step)
    requires LossesRecorded(s) && Enabled(s, st) && !st.Probe?
    ensures LossesRecorded(Apply(s, st))
  {
    var s' := Apply(s, st);
    assert s'.drops == s.drops;
    assert forall n :: 0 <= n < |s'.fates| && s'.fates[n].Lost? ==> n < |s.fates| && s.fates[n].Lost?;
  }

  lemma {:induction false} EveryLossIsRecorded(run: seq<Step>)
    requires Legal(run)
    ensures LossesRecorded(After(run))
  {
    if run != [] {
      var s, st := After(run[..|run| - 1]), run[|run| - 1];
      EveryLossIsRecorded(run[..|run| - 1]);
      if st.Probe? {
        ProbeRecordsLosses(s);
      } else {
        OthersLoseNothing(s, st);
      }
    }
  }

  /**
   There were workers, and while just these were registered the packet was refused by
   every queue of theirs that it was entitled to.
   */
  ghost predicate Overloaded(run: seq<Step>, drop: Drop) {
    && drop.members != []
    && forall w <- drop.members ::
         && Refused(run, drop.members, drop.num, w, false)
         && (drop.size <= PRIO_THRESHOLD ==> Refused(run, drop.members, drop.num, w, true))
  }

  /** A packet that was read is lost only when all workers are overloaded. */
  lemma LostOnlyOnOverload(run: seq<Step>, n: nat)
    requires Legal(run) && n < |After(run).fates| && After(run).fates[n].Lost?
    ensures exists drop :: drop in After(run).drops && drop.num == n && Overloaded(run, drop)
  {
    EveryLossIsRecorded(run);
    assert HasDrop(After(run).drops, n);
    var d: nat :| d < |After(run).drops| && After(run).drops[d].num == n;
    var drop := After(run).drops[d];
    forall w <- drop.members
      ensures Refused(run, drop.members, n, w, false)
      ensures drop.size <= PRIO_THRESHOLD ==> Refused(run, drop.members, n, w, true)
    {
      var x: nat :| x < |drop.members| && drop.members[x] == w;
      DropOnlyOnOverload(run, d, x);
    }
    DropHasMembers(run, d);
    assert Overloaded(run, drop);
  }

  /** At that step the dispatcher locked its mutex with packet n in hand, and there was no worker. */
  ghost predicate NobodyAt(run: seq<Step>, k: nat, n: int) {
    && k < |run| && Legal(run[..k]) && run[k].Lock?
    && After(run[..k]).disp.Fetched? && After(run[..k]).disp.pkt.num == n && After(run[..k]).workers == []
  }

  /** Packet n is one that met no worker. */
  ghost predicate MetNobody(s: Plane, n: nat) {
    n < |s.fates| && s.fates[n].Unserved?
  }

  lemma UnservedAtLock(s: Plane, now: int, n: nat)
    requires Enabled(s, Lock(now)) && MetNobody(Apply(s, Lock(now)), n)
    ensures MetNobody(s, n) || (s.disp.pkt.num == n && s.workers == [])
  {}

  lemma OthersServe(s: Plane, st: Step, n: nat)
    requires Enabled(s, st) && !st.Lock? && MetNobody(Apply(s, st), n)
    ensures MetNobody(s, n)
  {
    if !st.Probe? {
      OthersLeaveFates(s, st);
    }
  }

  lemma OthersLeaveFates(s: Plane, st: Step)
    requires Enabled(s, st) && !st.Lock? && !st.Probe?
    ensures Apply(s, st).fates == if st.Read? then s.fates + [InFlight] else s.fates
  {}

  lemma NobodyLater(prefix: seq<Step>, run: seq<Step>, k: nat, n: nat)
    requires prefix <= run && NobodyAt(prefix, k, n)
    ensures NobodyAt(run, k, n)
  {
    assert run[..k] == prefix[..k];
  }

  /** A packet goes unserved only because nobody was registered when its turn came. */
  lemma {:induction false} UnservedOnlyWithoutWorkers(run: seq<Step>, n: nat) returns (k: nat)
    requires Legal(run) && MetNobody(After(run), n)
    ensures NobodyAt(run, k, n)
  {
    var prefix, st := run[..|run| - 1], run[|run| - 1];
    if MetNobody(After(prefix), n) {
      k := UnservedOnlyWithoutWorkers(prefix, n);
      NobodyLater(prefix, run, k, n);
    } else if st.Lock? {
      UnservedAtLock(After(prefix), st.now, n);
      k := |run| - 1;
    } else {
      OthersServe(After(prefix), st, n);
    }
  }

  /** A dispatcher that holds the mutex can always take its next step, so it never blocks on a queue. */
  lemma DispatcherNeverBlocks(run: seq<Step>)
    requires Legal(run) && After(run).disp.Locked()
    ensures Enabled(After(run), Probe)
  {
    DispatchInvHolds(run);
  }
}
