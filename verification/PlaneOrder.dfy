/**
 What happens to the packets: each queue takes its share of the read order in
 that order and gives it up in that order, every packet read has exactly one
 fate, and the counters add up.
 */
module PlaneOrder {
  import opened Dispatching
  import opened PacketPlane
  import opened PlaneOvertaking

  ghost predicate Increasing(s: seq<int>) {
    forall i, j :: 0 <= i < j < |s| ==> s[i] < s[j]
  }

  ghost predicate Below(s: seq<int>, bound: int) {
    forall i :: 0 <= i < |s| ==> 0 <= s[i] < bound
  }

  lemma {:induction false} NumsAppend(p: seq<Item>, q: seq<Item>)
    ensures Nums(p + q) == Nums(p) + Nums(q)
  {
    if p == [] {
      assert p + q == q;
    } else {
      assert (p + q)[1..] == p[1..] + q;
      NumsAppend(p[1..], q);
    }
  }

  /** What went in, what came out and what is still inside a first-in first-out queue. */
  ghost predicate Fifo(ins: seq<int>, outs: seq<int>, q: seq<Item>) {
    ins == outs + Nums(q)
  }

  lemma PushFifo(ins: seq<int>, outs: seq<int>, q: seq<Item>, it: Item)
    requires Fifo(ins, outs, q)
    ensures Fifo(ins + Nums([it]), outs, q + [it])
  {
    NumsAppend(q, [it]);
  }

  lemma PopFifo(ins: seq<int>, outs: seq<int>, q: seq<Item>)
    requires Fifo(ins, outs, q) && q != []
    ensures Fifo(ins, outs + Nums([q[0]]), q[1..])
  {
    assert q == [q[0]] + q[1..];
    NumsAppend([q[0]], q[1..]);
  }

  ghost predicate FirstInFirstOut(slot: Slot) {
    Fifo(slot.sendIn, slot.sendOut, slot.sendCh) && Fifo(slot.prioIn, slot.prioOut, slot.prioCh)
  }

  lemma PushKeepsOrder(a: Slot, it: Item)
    requires FirstInFirstOut(a)
    ensures FirstInFirstOut(PushPrio(a, it)) && FirstInFirstOut(PushSend(a, it))
  {
    var stamped := it.(stamp := a.sendDeqs);
    PushFifo(a.prioIn, a.prioOut, a.prioCh, stamped);
    PushFifo(a.sendIn, a.sendOut, a.sendCh, it);
    assert Nums([stamped]) == Nums([it]);
  }

  lemma WriterKeepsFifo(a: Slot, ws: WriterStep)
    requires FirstInFirstOut(a) && WriterCan(a, ws)
    ensures FirstInFirstOut(WriterNext(a, ws))
  {
    if a.prioCh != [] {
      PopFifo(a.prioIn, a.prioOut, a.prioCh);
    }
    if a.sendCh != [] {
      PopFifo(a.sendIn, a.sendOut, a.sendCh);
    }
  }

  lemma EvolutionKeepsOrder(s: Plane, st: Step, w: SlotId, a: Slot, b: Slot)
    requires FirstInFirstOut(a) && Evolves(s, st, w, a, b)
    ensures FirstInFirstOut(b)
  {
    if b != a {
      match st
      case Writer(_, ws) => WriterKeepsFifo(a, ws);
      case Helper(_, hs) =>
        if hs.KeepaliveSend? {
          PushKeepsOrder(a, Item(a.keepalive.buf, NOT_READ, 0, 0));
        }
      case Probe => PushKeepsOrder(a, s.disp.pkt);
      case _ =>
    }
  }

  lemma {:induction false} SlotsKeepOrder(run: seq<Step>, w: SlotId)
    requires Legal(run) && w in After(run).slots
    ensures FirstInFirstOut(After(run).slots[w])
  {
    if run != [] {
      var prefix, st := run[..|run| - 1], run[|run| - 1];
      StepEvolves(After(prefix), st, w);
      if w in After(prefix).slots {
        SlotsKeepOrder(prefix, w);
        EvolutionKeepsOrder(After(prefix), st, w, After(prefix).slots[w], After(run).slots[w]);
      }
    }
  }

  // ---------------------------------------------------------------------
  // Fates
  // ---------------------------------------------------------------------

  /** How many packets have been dealt with: all that were read, except the one the dispatcher holds. */
  function Settled(s: Plane): int {
    if s.disp.Waiting? then |s.fates| else |s.fates| - 1
  }

  /** The dispatcher's packet is the last one read, and the only one without a fate. */
  ghost predicate InHand(s: Plane) {
    && (!s.disp.Waiting? ==> s.fates != [] && s.disp.pkt.num == |s.fates| - 1)
    && (forall n :: 0 <= n < |s.fates| ==> (s.fates[n].InFlight? <==> n == Settled(s)))
    && s.sent + s.dropped + s.unserved == Settled(s)
  }

  /** The queue histories of w list, in the order of reads, the packets whose fate was that queue. */
  ghost predicate Records(s: Plane, w: SlotId)
    requires w in s.slots
  {
    var slot := s.slots[w];
    && Increasing(slot.sendIn) && Below(slot.sendIn, Settled(s))
    && Increasing(slot.prioIn) && Below(slot.prioIn, Settled(s))
    && (forall n :: 0 <= n < |s.fates| ==> (s.fates[n] == ToSend(w) <==> n in slot.sendIn))
    && (forall n :: 0 <= n < |s.fates| ==> (s.fates[n] == ToPrio(w) <==> n in slot.prioIn))
  }

  /** Packets only go to slots that exist. */
  ghost predicate FatesKnown(s: Plane) {
    forall n :: 0 <= n < |s.fates| ==>
      (s.fates[n].ToSend? || s.fates[n].ToPrio? ==> s.fates[n].w in s.slots)
  }

  datatype Counter = SentCounter | DroppedCounter | UnservedCounter

  /** The packets that the counter is there to count. */
  predicate Counts(c: Counter, fate: Fate) {
    match c
    case SentCounter => fate.ToSend? || fate.ToPrio?
    case DroppedCounter => fate.Lost?
    case UnservedCounter => fate.Unserved?
  }

  function Tally(fates: seq<Fate>, c: Counter): nat {
    if fates == [] then 0 else Tally(fates[..|fates| - 1], c) + if Counts(c, fates[|fates| - 1]) then 1 else 0
  }

  function Reading(s: Plane, c: Counter): nat {
    match c
    case SentCounter => s.sent
    case DroppedCounter => s.dropped
    case UnservedCounter => s.unserved
  }

  /** Every counter has counted what it is there for. */
  ghost predicate Tallied(s: Plane) {
    forall c :: Reading(s, c) == Tally(s.fates, c)
  }

  /** The counters after one more packet got its fate. */
  ghost predicate CountedOnce(s: Plane, s': Plane, fate: Fate) {
    forall c :: Reading(s', c) == Reading(s, c) + if Counts(c, fate) then 1 else 0
  }

  lemma TallyOfRead(fates: seq<Fate>, c: Counter)
    ensures Tally(fates + [InFlight], c) == Tally(fates, c)
  {
    assert (fates + [InFlight])[..|fates|] == fates;
  }

  lemma TallyOfSettled(fates: seq<Fate>, fate: Fate, c: Counter)
    requires fates != [] && fates[|fates| - 1].InFlight?
    ensures Tally(fates[|fates| - 1 := fate], c) == Tally(fates, c) + if Counts(c, fate) then 1 else 0
  {
    assert fates[|fates| - 1 := fate][..|fates| - 1] == fates[..|fates| - 1];
  }

  /** Settling the packet in hand keeps the counters right. */
  lemma SettledIsTallied(s: Plane, s': Plane, fate: Fate)
    requires InHand(s) && Tallied(s) && !s.disp.Waiting? && s'.disp.Waiting?
    requires s'.fates == s.fates[s.disp.pkt.num := fate] && CountedOnce(s, s', fate)
    ensures Tallied(s')
  {
    forall c ensures Reading(s', c) == Tally(s'.fates, c) {
      TallyOfSettled(s.fates, fate, c);
    }
  }

  ghost predicate OrderInv(s: Plane) {
    InHand(s) && Tallied(s) && FatesKnown(s) && forall w <- s.slots :: Records(s, w)
  }

  /** Steps of writers, keepalives, readers and the return loop do not touch what the dispatcher recorded. */
  ghost predicate SameRecords(s: Plane, s': Plane) {
    && s'.fates == s.fates && s'.sent == s.sent && s'.dropped == s.dropped && s'.unserved == s.unserved
    && (s'.disp == s.disp || (!s.disp.Waiting? && !s'.disp.Waiting? && s'.disp.pkt == s.disp.pkt))
    && s'.slots.Keys == s.slots.Keys
    && forall w <- s.slots :: s'.slots[w].sendIn == s.slots[w].sendIn && s'.slots[w].prioIn == s.slots[w].prioIn
  }

  lemma SameRecordsKeep(s: Plane, s': Plane)
    requires OrderInv(s) && SameRecords(s, s')
    ensures OrderInv(s')
  {
    forall w | w in s'.slots ensures Records(s', w) {
      assert Records(s, w);
    }
  }

  lemma OneCounterMoves(s: Plane, s': Plane, fate: Fate)
    requires CountedOnce(s, s', fate) && !fate.InFlight?
    ensures s'.sent + s'.dropped + s'.unserved == s.sent + s.dropped + s.unserved + 1
  {
    assert Reading(s', SentCounter) == s'.sent && Reading(s', DroppedCounter) == s'.dropped
        && Reading(s', UnservedCounter) == s'.unserved;
  }

  /** The packet in hand is settled without entering a queue. */
  lemma SettleElsewhere(s: Plane, s': Plane, fate: Fate)
    requires OrderInv(s) && !s.disp.Waiting? && s'.disp.Waiting? && s'.slots == s.slots
    requires (fate.Lost? || fate.Unserved?) && s'.fates == s.fates[s.disp.pkt.num := fate]
    requires CountedOnce(s, s', fate)
    ensures OrderInv(s')
  {
    SettledIsTallied(s, s', fate);
    OneCounterMoves(s, s', fate);
    forall w | w in s'.slots ensures Records(s', w) {
      assert Records(s, w);
    }
  }

  lemma AppendRecords(ns: seq<int>, bound: int)
    requires Increasing(ns) && Below(ns, bound) && bound >= 0
    ensures Increasing(ns + [bound]) && Below(ns + [bound], bound + 1)
    ensures forall n :: n in ns + [bound] <==> n in ns || n == bound
  {
    assert (ns + [bound])[|ns|] == bound;
  }

  /** The packet in hand enters the priority or the data queue of w. */
  lemma SettleInQueue(s: Plane, s': Plane, w: SlotId, prio: bool)
    requires OrderInv(s) && !s.disp.Waiting? && s'.disp.Waiting? && w in s.slots
    requires s'.slots ==
                 s.slots[w := if prio then PushPrio(s.slots[w], s.disp.pkt) else PushSend(s.slots[w], s.disp.pkt)]
    requires s'.fates == s.fates[s.disp.pkt.num := if prio then ToPrio(w) else ToSend(w)]
    requires CountedOnce(s, s', if prio then ToPrio(w) else ToSend(w))
    ensures OrderInv(s')
  {
    SettledIsTallied(s, s', if prio then ToPrio(w) else ToSend(w));
    OneCounterMoves(s, s', if prio then ToPrio(w) else ToSend(w));
    var slot, n := s.slots[w], s.disp.pkt.num;
    assert Records(s, w);
    AppendRecords(if prio then slot.prioIn else slot.sendIn, n);
    assert Nums([s.disp.pkt]) == [n];
    forall v | v in s'.slots ensures Records(s', v) {
      assert Records(s, v);
    }
  }

  lemma ReadKeepsOrder(s: Plane, size: nat, from: BufId)
    requires OrderInv(s) && Enabled(s, Step.Read(size, from))
    ensures OrderInv(Apply(s, Step.Read(size, from)))
  {
    var s' := Apply(s, Step.Read(size, from));
    forall c ensures Reading(s', c) == Tally(s'.fates, c) {
      TallyOfRead(s.fates, c);
    }
    forall w | w in s'.slots ensures Records(s', w) {
      assert Records(s, w);
    }
  }

  lemma LockKeepsOrder(s: Plane, now: int)
    requires OrderInv(s) && Enabled(s, Lock(now))
    ensures OrderInv(Apply(s, Lock(now)))
  {
    if s.workers == [] {
      SettleElsewhere(s, Apply(s, Lock(now)), Unserved);
    } else {
      SameRecordsKeep(s, Apply(s, Lock(now)));
    }
  }

  lemma ProbeKeepsOrder(s: Plane)
    requires OrderInv(s) && Enabled(s, Probe)
    ensures OrderInv(Apply(s, Probe))
  {
    var w, s' := s.workers[Probed(s)], Apply(s, Probe);
    if s.disp.ProbePrio? && |s.slots[w].prioCh| < PRIO_CAP {
      SettleInQueue(s, s', w, true);
    } else if s.disp.ProbeSend? && |s.slots[w].sendCh| < SEND_CAP {
      SettleInQueue(s, s', w, false);
    } else if s'.disp.Waiting? {
      SettleElsewhere(s, s', Lost);
    } else {
      SameRecordsKeep(s, s');
    }
  }

  lemma JoinKeepsOrder(s: Plane, w: SlotId)
    requires OrderInv(s) && Enabled(s, Join(w))
    ensures OrderInv(Apply(s, Join(w)))
  {
    var s' := Apply(s, Join(w));
    forall v | v in s'.slots ensures Records(s', v) {
      if v != w {
        assert Records(s, v);
      }
    }
  }

  lemma WriterKeepsRecords(slot: Slot, ws: WriterStep)
    requires WriterCan(slot, ws)
    ensures WriterNext(slot, ws).sendIn == slot.sendIn && WriterNext(slot, ws).prioIn == slot.prioIn
  {}

  lemma HelperKeepsRecords(slot: Slot, hs: HelperStep, b: BufId)
    requires hs.KeepaliveSend? ==> slot.keepalive.Holding?
    ensures HelperNext(slot, hs, b).sendIn == slot.sendIn && HelperNext(slot, hs, b).prioIn == slot.prioIn
  {
    if hs.KeepaliveSend? {
      assert Nums([Item(slot.keepalive.buf, NOT_READ, 0, 0)]) == [];
    }
  }

  lemma StepKeepsOrder(s: Plane, st: Step)
    requires OrderInv(s) && Enabled(s, st)
    ensures OrderInv(Apply(s, st))
  {
    match st
    case Read(size, from) => ReadKeepsOrder(s, size, from);
    case Lock(now) => LockKeepsOrder(s, now);
    case Probe => ProbeKeepsOrder(s);
    case Join(w) => JoinKeepsOrder(s, w);
    case Writer(w, ws) =>
      WriterKeepsRecords(s.slots[w], ws);
      SameRecordsKeep(s, Apply(s, st));
    case Helper(w, hs) =>
      HelperKeepsRecords(s.slots[w], hs, HelperEffect(s, s.slots[w], hs).1);
      SameRecordsKeep(s, Apply(s, st));
    case _ => SameRecordsKeep(s, Apply(s, st));
  }

  lemma {:induction false} OrderInvHolds(run: seq<Step>)
    requires Legal(run)
    ensures OrderInv(After(run))
  {
    if run != [] {
      OrderInvHolds(run[..|run| - 1]);
      StepKeepsOrder(After(run[..|run| - 1]), run[|run| - 1]);
    }
  }

  /**
   For every slot in every reachable state: the packets ever put in its data
   queue are those whose fate that was, in the order they were read, and the
   ones taken out so far are the first of them. Likewise for its priority queue,
   keepalives aside.
   */
  lemma QueuesFollowTheReadOrder(run: seq<Step>, w: SlotId)
    requires Legal(run) && w in After(run).slots
    ensures var s := After(run);
            var slot := s.slots[w];
            && Increasing(slot.sendIn) && slot.sendOut <= slot.sendIn
            && Increasing(slot.prioIn) && slot.prioOut <= slot.prioIn
            && (forall n :: 0 <= n < |s.fates| ==> (n in slot.sendIn <==> s.fates[n] == ToSend(w)))
            && (forall n :: 0 <= n < |s.fates| ==> (n in slot.prioIn <==> s.fates[n] == ToPrio(w)))
  {
    OrderInvHolds(run);
    SlotsKeepOrder(run, w);
  }

  ghost predicate Conserved(s: Plane) {
    && |s.fates| == s.sent + s.dropped + s.unserved
    && s.sent == Tally(s.fates, SentCounter) && s.dropped == Tally(s.fates, DroppedCounter)
    && s.unserved == Tally(s.fates, UnservedCounter)
    && forall n :: 0 <= n < |s.fates| ==> !s.fates[n].InFlight?
  }

  lemma InHandIsConserved(s: Plane)
    requires InHand(s) && Tallied(s) && s.disp.Waiting?
    ensures Conserved(s)
  {
    assert Reading(s, SentCounter) == s.sent && Reading(s, DroppedCounter) == s.dropped
        && Reading(s, UnservedCounter) == s.unserved;
  }

  /**
   When the dispatcher is between packets, every packet read was queued, dropped, or
   met no worker, and each counter says how many of them had that fate.
   */
  lemma PacketsAreConserved(run: seq<Step>)
    requires Legal(run) && After(run).disp.Waiting?
    ensures Conserved(After(run))
  {
    OrderInvHolds(run);
    InHandIsConserved(After(run));
  }
}
