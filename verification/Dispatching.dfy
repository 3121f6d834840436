/**
 The dispatcher as the object the read loop works on: workers joining and
 leaving, and the dispatch of one packet under the mutex. Every method is proved
 against the cursor rules and against a route that is stated without the scan.
 */
module Dispatching {
  import opened Arithmetic
  import opened Cursors

  type Packet = seq<int>

  const SEND_CAP := 128
  const PRIO_CAP := 32

  datatype Verdict = NoWorker | Routed(out: Outcome)

  /** Some queue is free. */
  predicate AnyFree(free: seq<bool>) {
    exists i :: 0 <= i < |free| && free[i]
  }

  /** w is free, and everything met before it on a ring scan from idx is not. */
  predicate FirstFree(free: seq<bool>, idx: nat, w: nat)
    requires idx < |free|
  {
    && w < |free| && free[w]
    && forall i :: 0 <= i < RingDistance(idx, w, |free|) ==> !free[RingStop(idx, i, |free|)]
  }

  /**
   The route of a packet, given which queues are free: the priority queues are
   only for small packets and come first, then the data queues; within either
   kind the nearest free queue on the ring wins, and only a packet that finds
   all of them full is dropped.
   */
  predicate Route(c: Cursor, now: int, size: nat, prioFree: seq<bool>, sendFree: seq<bool>, out: Outcome)
    requires 0 < |prioFree| == |sendFree|
  {
    var nw := |sendFree|;
    var prioTried := size <= PRIO_THRESHOLD;
    match out
    case Prio(w) => prioTried && FirstFree(prioFree, Target(AfterPause(c, nw, now), nw), w)
    case Data(w) => !(prioTried && AnyFree(prioFree)) && FirstFree(sendFree, Target(Aimed(c, nw, now), nw), w)
    case Dropped => !(prioTried && AnyFree(prioFree)) && !AnyFree(sendFree)
  }

  /**
   The first free queue from idx on: those between are full, going up from idx, past the
   last worker and on from the first if need be.
   */
  lemma FirstFreeMeans(free: seq<bool>, idx: nat, w: nat)
    requires idx < |free| && w < |free|
    ensures FirstFree(free, idx, w)
       <==> free[w] && forall v :: (if idx <= w then idx <= v < w else idx <= v < |free| || 0 <= v < w) ==> !free[v]
  {
    var n := |free|;
    if FirstFree(free, idx, w) {
      forall v | if idx <= w then idx <= v < w else idx <= v < n || 0 <= v < w ensures !free[v] {
        assert !free[RingStop(idx, RingDistance(idx, v, n), n)];
      }
    } else if free[w] {
      var i :| 0 <= i < RingDistance(idx, w, n) && free[RingStop(idx, i, n)];
      var v := RingStop(idx, i, n);
      RingScanIsBijection(idx, n, i, v);
      assert free[v];
    }
  }

  lemma FirstFreeIsNearest(free: seq<bool>, idx: nat, v: nat, w: nat)
    requires idx < |free| && w < |free| && free[w] && FirstFree(free, idx, v)
    ensures RingDistance(idx, v, |free|) <= RingDistance(idx, w, |free|)
  {
    assert free[RingStop(idx, RingDistance(idx, w, |free|), |free|)];
  }

  lemma FirstFreeUnique(free: seq<bool>, idx: nat, v: nat, w: nat)
    requires idx < |free| && FirstFree(free, idx, v) && FirstFree(free, idx, w)
    ensures v == w
  {
    var n := |free|;
    FirstFreeIsNearest(free, idx, v, w);
    FirstFreeIsNearest(free, idx, w, v);
    RingScanIsBijection(idx, n, RingDistance(idx, v, n), w);
  }

  /** The route leaves no choice, and drops exactly on total overload. */
  lemma RouteIsDetermined(c: Cursor, now: int, size: nat, prioFree: seq<bool>, sendFree: seq<bool>,
                          a: Outcome, b: Outcome)
    requires 0 < |prioFree| == |sendFree|
    requires Route(c, now, size, prioFree, sendFree, a) && Route(c, now, size, prioFree, sendFree, b)
    ensures a == b
    ensures a == Dropped <==> !AnyFree(sendFree) && (size <= PRIO_THRESHOLD ==> !AnyFree(prioFree))
  {
    var nw := |sendFree|;
    if a.Prio? && b.Prio? {
      FirstFreeUnique(prioFree, Target(AfterPause(c, nw, now), nw), a.worker, b.worker);
    } else if a.Data? && b.Data? {
      FirstFreeUnique(sendFree, Target(Aimed(c, nw, now), nw), a.worker, b.worker);
    }
  }

  /** A scan of all n stops that found nothing free has ruled out every queue. */
  lemma ScanRulesOutAll(free: seq<bool>, idx: nat)
    requires idx < |free|
    requires forall i :: 0 <= i < |free| ==> !free[RingStop(idx, i, |free|)]
    ensures !AnyFree(free)
  {
    forall w | 0 <= w < |free| ensures !free[w] {
      assert RingStop(idx, RingDistance(idx, w, |free|), |free|) == w;
    }
  }

  /** A scan that stopped at stop i found the first free queue. */
  lemma ScanFindsFirst(free: seq<bool>, idx: nat, i: nat)
    requires idx < |free| && i < |free| && free[RingStop(idx, i, |free|)]
    requires forall j :: 0 <= j < i ==> !free[RingStop(idx, j, |free|)]
    ensures FirstFree(free, idx, RingStop(idx, i, |free|))
  {
    RingScanIsBijection(idx, |free|, i, RingStop(idx, i, |free|));
  }

  /** The slice without the first occurrence of x. */
  function Without<T(==)>(s: seq<T>, x: T): (r: seq<T>)
    ensures x in s ==> |r| == |s| - 1 && multiset(r) == multiset(s) - multiset{x}
    ensures x !in s ==> r == s
  {
    if s == [] then []
    else
      assert s == [s[0]] + s[1..];
      if s[0] == x then s[1..] else [s[0]] + Without(s[1..], x)
  }

  lemma CutBehindFirst<T>(s: seq<T>, i: nat)
    requires 0 < i < |s|
    ensures [s[0]] + (s[1..][..i - 1] + s[1..][i..]) == s[..i] + s[i + 1..]
  {}

  lemma {:induction false} WithoutAt<T>(s: seq<T>, x: T, i: nat)
    requires i < |s| && s[i] == x && x !in s[..i]
    ensures Without(s, x) == s[..i] + s[i + 1..]
  {
    if i > 0 {
      assert s[0] in s[..i];
      assert s[1..][..i - 1] == s[..i][1..];
      WithoutAt(s[1..], x, i - 1);
      CutBehindFirst(s, i);
    }
  }

  class WorkerSlot {
    const id: int
    var sendCh: seq<Packet>
    var prioCh: seq<Packet>

    constructor (id: int)
      ensures this.id == id && sendCh == [] && prioCh == []
    {
      this.id, sendCh, prioCh := id, [], [];
    }

    predicate SendFree()
      reads this
    {
      |sendCh| < SEND_CAP
    }

    predicate PrioFree()
      reads this
    {
      |prioCh| < PRIO_CAP
    }

    /** A send on the data channel that does not block. */
    method TrySend(p: Packet) returns (ok: bool)
      modifies this`sendCh
      ensures ok == old(SendFree())
      ensures sendCh == old(sendCh) + if ok then [p] else []
    {
      ok := |sendCh| < SEND_CAP;
      if ok {
        sendCh := sendCh + [p];
      }
    }

    /** A send on the priority channel that does not block. */
    method TryPrio(p: Packet) returns (ok: bool)
      modifies this`prioCh
      ensures ok == old(PrioFree())
      ensures prioCh == old(prioCh) + if ok then [p] else []
    {
      ok := |prioCh| < PRIO_CAP;
      if ok {
        prioCh := prioCh + [p];
      }
    }
  }

  class Dispatcher {
    const tun: bool
    var workers: seq<WorkerSlot>
    var rrIndex: nat
    var rrCount: nat
    var lastPktTime: int
    var chunkStartTs: int
    var tunReadCount: nat
    var tunSentCount: nat
    var tunDroppedCount: nat
    /** Packets read while nobody was registered. */
    ghost var unserved: nat
    /** Everything the mutex has serialised so far. */
    ghost var log: seq<Event>

    function Cur(): Cursor
      reads this
    {
      Cursor(rrIndex, rrCount, lastPktTime, chunkStartTs)
    }

    function PrioFree(): seq<bool>
      reads this, workers
    {
      seq(|workers|, i requires 0 <= i < |workers| reads this, workers => workers[i].PrioFree())
    }

    function SendFree(): seq<bool>
      reads this, workers
    {
      seq(|workers|, i requires 0 <= i < |workers| reads this, workers => workers[i].SendFree())
    }

    /** The object's cursor is the one its history leads to, and every packet read is accounted for. */
    ghost predicate Valid()
      reads this
    {
      && Recorded(log, Cur(), |workers|)
      && (tun ==> tunReadCount == tunSentCount + tunDroppedCount + unserved)
    }

    constructor (tun: bool)
      ensures Valid() && workers == [] && log == [] && this.tun == tun && tunReadCount == 0
    {
      this.tun, workers := tun, [];
      rrIndex, rrCount, lastPktTime, chunkStartTs := 0, 0, 0, 0;
      tunReadCount, tunSentCount, tunDroppedCount := 0, 0, 0;
      unserved, log := 0, [];
    }

    method Register(w: WorkerSlot)
      requires Valid()
      modifies this
      ensures Valid()
      ensures workers == old(workers) + [w] && Cur() == old(Cur())
      ensures log == old(log) + [Event.Register]
    {
      RecordedStep(log, Cur(), |workers|, Event.Register);
      workers := workers + [w];
      log := log + [Event.Register];
    }

    /** Takes the slot off the list, leaving the order of the others alone. */
    method RemoveSlot(slot: WorkerSlot) returns (found: bool)
      modifies this`workers
      ensures found == (slot in old(workers)) && workers == Without(old(workers), slot)
    {
      found := false;
      for i := 0 to |workers|
        invariant !found && workers == old(workers) && slot !in workers[..i]
      {
        if workers[i] == slot {
          WithoutAt(workers, slot, i);
          workers := workers[..i] + workers[i + 1..];
          found := true;
          break;
        }
      }
    }

    /** Brings the cursor back onto the ring and ends the running chunk. */
    method Unregister(slot: WorkerSlot)
      requires Valid()
      modifies this
      ensures Valid()
      ensures workers == Without(old(workers), slot)
      ensures Cur() == AfterUnregister(old(Cur()), |workers|)
      ensures log == old(log) + [Event.Unregister(slot in old(workers))]
    {
      RecordedStep(log, Cur(), |workers|, Event.Unregister(slot in workers));
      log := log + [Event.Unregister(slot in workers)];
      var found := RemoveSlot(slot);
      ResetChunk(|workers|);
    }

    method ResetChunk(remaining: nat)
      modifies this`rrIndex, this`rrCount
      ensures Cur() == AfterUnregister(old(Cur()), remaining)
    {
      if rrIndex >= remaining && remaining > 0 {
        rrIndex := rrIndex % remaining;
      }
      rrCount := 0;
    }

    /** The ring scan over the priority channels. */
    method ScanPrio(pkt: Packet, idx: nat) returns (sent: bool, w: nat)
      requires idx < |workers|
      modifies workers`prioCh
      ensures sent ==> FirstFree(old(PrioFree()), idx, w)
      ensures !sent ==> !AnyFree(old(PrioFree()))
      ensures forall s <- workers :: s.prioCh == old(s.prioCh) + if sent && s == workers[w] then [pkt] else []
    {
      ghost var free := PrioFree();
      var nw := |workers|;
      w := idx;
      sent := workers[w].TryPrio(pkt);
      var i := 1;
      while i < nw && !sent
        invariant 1 <= i <= nw
        invariant sent ==> w < nw && FirstFree(free, idx, w)
        invariant !sent ==> forall j :: 0 <= j < i ==> !free[RingStop(idx, j, nw)]
        invariant forall s <- workers :: s.prioCh == old(s.prioCh) + if sent && s == workers[w] then [pkt] else []
        decreases nw - i, !sent
      {
        w := RingStop(idx, i, nw);
        sent := workers[w].TryPrio(pkt);
        if sent {
          ScanFindsFirst(free, idx, i);
        }
        i := i + 1;
      }
      if !sent {
        ScanRulesOutAll(free, idx);
      }
    }

    /** The ring scan over the data channels. */
    method ScanSend(pkt: Packet, idx: nat) returns (sent: bool, w: nat)
      requires idx < |workers|
      modifies workers`sendCh
      ensures sent ==> FirstFree(old(SendFree()), idx, w)
      ensures !sent ==> !AnyFree(old(SendFree()))
      ensures forall s <- workers :: s.sendCh == old(s.sendCh) + if sent && s == workers[w] then [pkt] else []
    {
      ghost var free := SendFree();
      var nw := |workers|;
      w := idx;
      sent := workers[w].TrySend(pkt);
      var i := 1;
      while i < nw && !sent
        invariant 1 <= i <= nw
        invariant sent ==> w < nw && FirstFree(free, idx, w)
        invariant !sent ==> forall j :: 0 <= j < i ==> !free[RingStop(idx, j, nw)]
        invariant forall s <- workers :: s.sendCh == old(s.sendCh) + if sent && s == workers[w] then [pkt] else []
        decreases nw - i, !sent
      {
        w := RingStop(idx, i, nw);
        sent := workers[w].TrySend(pkt);
        if sent {
          ScanFindsFirst(free, idx, i);
        }
        i := i + 1;
      }
      if !sent {
        ScanRulesOutAll(free, idx);
      }
    }

    /** The pause rule. */
    method NoteArrival(now: int)
      requires workers != []
      modifies this`rrIndex, this`rrCount, this`lastPktTime, this`chunkStartTs
      ensures Cur() == AfterPause(old(Cur()), |workers|, now)
    {
      var lastTime := lastPktTime;
      lastPktTime := now;
      if lastTime > 0 && now - lastTime > PAUSE_MS {
        rrIndex := Next(rrIndex, |workers|);
        rrCount := 0;
        chunkStartTs := now;
      }
    }

    /** The dwell rule. */
    method NoteDwell(now: int)
      requires workers != []
      modifies this`rrIndex, this`rrCount, this`chunkStartTs
      ensures Cur() == AfterDwell(old(Cur()), |workers|, now)
    {
      if chunkStartTs == 0 {
        chunkStartTs := now;
      } else if now - chunkStartTs >= MAX_DWELL_MS {
        rrIndex := Next(rrIndex, |workers|);
        rrCount := 0;
        chunkStartTs := now;
      }
    }

    /** Tries the data channels and moves the cursor accordingly. */
    method SendData(pkt: Packet, now: int) returns (out: Outcome)
      requires workers != []
      modifies this`rrIndex, this`rrCount, this`chunkStartTs, workers`sendCh
      ensures match out
              case Prio(_) => false
              case Data(w) => FirstFree(old(SendFree()), Target(old(Cur()), |workers|), w)
                           && Cur() == AfterSend(old(Cur()), |workers|, now, |pkt|, w)
              case Dropped => !AnyFree(old(SendFree())) && Cur() == AfterDrop(old(Cur()), |workers|)
      ensures forall s <- workers ::
                s.sendCh == old(s.sendCh) + if out.Data? && s == workers[out.worker] then [pkt] else []
    {
      var nw := |workers|;
      var idx := Target(Cur(), nw);
      var sent, w := ScanSend(pkt, idx);
      if !sent {
        rrIndex := Next(idx, nw);
        rrCount := 0;
        out := Dropped;
      } else {
        if w != idx {
          rrIndex := w;
          rrCount := 1;
          chunkStartTs := now;
        } else {
          rrCount := rrCount + 1;
          if rrCount >= ChunkSizeFor(|pkt|) {
            rrIndex := Next(idx, nw);
            rrCount := 0;
            chunkStartTs := now;
          }
        }
        out := Data(w);
      }
    }

    /** Finds a queue for the packet and moves the cursor. */
    method Place(pkt: Packet, now: int) returns (out: Outcome)
      requires workers != [] && Recorded(log, Cur(), |workers|)
      modifies this`rrIndex, this`rrCount, this`lastPktTime, this`chunkStartTs, this`log, workers
      ensures Route(old(Cur()), now, |pkt|, old(PrioFree()), old(SendFree()), out)
      ensures Cur() == Settle(old(Cur()), |workers|, now, |pkt|, out)
      ensures log == old(log) + [Event.Dispatch(|pkt|, now, out)] && Recorded(log, Cur(), |workers|)
      ensures forall s <- workers ::
                && s.prioCh == old(s.prioCh) + (if out.Prio? && s == workers[out.worker] then [pkt] else [])
                && s.sendCh == old(s.sendCh) + (if out.Data? && s == workers[out.worker] then [pkt] else [])
    {
      NoteArrival(now);
      assert PrioFree() == old(PrioFree()) && SendFree() == old(SendFree());
      var sentPrio, w := false, 0;
      if |pkt| <= PRIO_THRESHOLD {
        sentPrio, w := ScanPrio(pkt, Target(Cur(), |workers|));
      }
      if sentPrio {
        out := Prio(w);
      } else {
        NoteDwell(now);
        assert SendFree() == old(SendFree());
        out := SendData(pkt, now);
      }
      RecordedDispatch(log, old(Cur()), |workers|, |pkt|, now, out);
      log := log + [Event.Dispatch(|pkt|, now, out)];
    }

    method CountResult(out: Outcome)
      modifies this`tunSentCount, this`tunDroppedCount
      ensures tunSentCount == old(tunSentCount) + if tun && out != Dropped then 1 else 0
      ensures tunDroppedCount == old(tunDroppedCount) + if tun && out == Dropped then 1 else 0
    {
      if tun {
        if out == Dropped {
          tunDroppedCount := tunDroppedCount + 1;
        } else {
          tunSentCount := tunSentCount + 1;
        }
      }
    }

    /**
     One packet read at now, dispatched under the mutex. The verdict is the only
     one the queues allow, exactly one queue gains the packet unless it is
     dropped, and the cursor and the counters move as the verdict says.
     */
    method Dispatch(pkt: Packet, now: int) returns (v: Verdict)
      requires Valid()
      modifies this, workers
      ensures Valid() && workers == old(workers)
      ensures v.NoWorker? <==> workers == []
      ensures v.NoWorker? ==> Cur() == old(Cur()) && log == old(log)
      ensures v.Routed? ==>
                && Route(old(Cur()), now, |pkt|, old(PrioFree()), old(SendFree()), v.out)
                && Cur() == Settle(old(Cur()), |workers|, now, |pkt|, v.out)
                && log == old(log) + [Event.Dispatch(|pkt|, now, v.out)]
      ensures forall s <- workers ::
                && s.prioCh == old(s.prioCh) +
                     (if v.Routed? && v.out.Prio? && s == workers[v.out.worker] then [pkt] else [])
                && s.sendCh == old(s.sendCh) +
                     (if v.Routed? && v.out.Data? && s == workers[v.out.worker] then [pkt] else [])
      ensures tunReadCount == old(tunReadCount) + if tun then 1 else 0
      ensures tunSentCount == old(tunSentCount) + if tun && v.Routed? && v.out != Dropped then 1 else 0
      ensures tunDroppedCount == old(tunDroppedCount) + if tun && v == Routed(Dropped) then 1 else 0
      ensures unserved == old(unserved) + if v.NoWorker? then 1 else 0
    {
      if tun {
        tunReadCount := tunReadCount + 1;
      }
      if |workers| == 0 {
        unserved := unserved + 1;
        v := NoWorker;
      } else {
        assert PrioFree() == old(PrioFree()) && SendFree() == old(SendFree());
        var out := Place(pkt, now);
        CountResult(out);
        v := Routed(out);
      }
    }

    /** However the object was used: as long as the clock did not go back, no chunk exceeded its limits. */
    lemma ChunksStayBounded()
      requires Valid() && ClockForward(log)
      ensures var t := Run(log);
              && rrCount == Sent(t.open) < MAX_CHUNK
              && forall c :: c in t.closed + [t.open] ==> Bounded(c)
    {
      ChunkLimits(log);
    }
  }
}
