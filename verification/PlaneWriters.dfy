/**
 The way out: what a session's writer makes of its two queues. As on the way back an
 observer watches the steps of a run, here those that concern one slot. It notes what
 entered the queues, what was taken from them, and how each write ended.
 */
module PlaneWriters {
  import opened Dispatching
  import opened PacketPlane
  import opened PlaneOvertaking

  /** A packet taken from the priority queue, or from the data queue. */
  datatype Popped = Popped(prio: bool, it: Item)

  /** The lengths of the two queues. */
  datatype Rest = Rest(small: nat, large: nat)

  datatype Outgoing = Outgoing(
    prioIns: seq<Item>, sendIns: seq<Item>,  // what entered the queues, in order
    popped: seq<Popped>,                     // what was taken from them, in order
    writes: seq<bool>,                       // how each write ended
    rests: seq<Rest>,                        // what the drain still saw when it found its queue empty
    ticks: nat,                              // keepalives made
    entered: nat,                            // of these, put in the queue
    refusals: seq<nat>)                      // for the others, how long the queue was

  const NOTHING_SENT := Outgoing([], [], [], [], [], 0, 0, [])

  function Plain(it: Item): Item {
    it.(stamp := 0)
  }

  /** Of the packets taken, those from the priority queue or those from the data queue. */
  function From(popped: seq<Popped>, prio: bool): seq<Item> {
    if popped == [] then []
    else
      var last := popped[|popped| - 1];
      From(popped[..|popped| - 1], prio) + if last.prio == prio then [Plain(last.it)] else []
  }

  function PlainAll(q: seq<Item>): seq<Item> {
    if q == [] then [] else [Plain(q[0])] + PlainAll(q[1..])
  }

  /** What left the queues between a and b, at most one packet a step. */
  function Gone(a: Slot, b: Slot): seq<Popped> {
    if |b.prioCh| < |a.prioCh| then [Popped(true, a.prioCh[0])]
    else if |b.sendCh| < |a.sendCh| then [Popped(false, a.sendCh[0])]
    else []
  }

  /** What the dispatcher or the keepalive had in hand. */
  function Offered(s: Plane, a: Slot, st: Step): Item {
    if st.Probe? && s.disp.Locked() then Plain(s.disp.pkt)
    else Item(if a.keepalive.Holding? then a.keepalive.buf else 0, NOT_READ, 0, 0)
  }

  function NoteQueues(t: Outgoing, s: Plane, a: Slot, b: Slot, st: Step): Outgoing {
    t.(prioIns := t.prioIns + (if |b.prioCh| > |a.prioCh| then [Offered(s, a, st)] else []),
       sendIns := t.sendIns + (if |b.sendCh| > |a.sendCh| then [Offered(s, a, st)] else []),
       popped := t.popped + Gone(a, b))
  }

  function NoteStep(t: Outgoing, a: Slot, b: Slot, st: Step): Outgoing {
    if st.Writer? && st.ws.Written? then t.(writes := t.writes + [st.ws.ok])
    else if st.Writer? && st.ws.Drain? && Gone(a, b) == [] then t.(rests := t.rests + [Rest(|a.prioCh|, |a.sendCh|)])
    else if st.Helper? && st.hs.KeepaliveTick? then t.(ticks := t.ticks + 1)
    else if st.Helper? && st.hs.KeepaliveSend? then
      if |b.prioCh| > |a.prioCh| then t.(entered := t.entered + 1)
      else t.(refusals := t.refusals + [|a.prioCh|])
    else t
  }

  /** What the observer makes of a step that finds the slot of w as a and leaves it as b. */
  function Observe(t: Outgoing, s: Plane, w: SlotId, a: Slot, st: Step, b: Slot): Outgoing {
    var own := (st.Writer? && st.w == w) || (st.Helper? && st.w == w);
    NoteQueues(if own then NoteStep(t, a, b, st) else t, s, a, b, st)
  }

  /** What was seen of slot w in the course of the run. */
  function Watch(run: seq<Step>, w: SlotId): Outgoing
    requires Legal(run)
  {
    if run == [] then NOTHING_SENT
    else
      var s, s' := After(run[..|run| - 1]), After(run);
      var t := Watch(run[..|run| - 1], w);
      if w in s.slots && w in s'.slots then Observe(t, s, w, s.slots[w], run[|run| - 1], s'.slots[w]) else t
  }

  // ---------------------------------------------------------------------
  // The laws
  // ---------------------------------------------------------------------

  /** Each queue gives up what entered it in that order, and holds the rest. */
  ghost predicate InOrder(a: Slot, t: Outgoing) {
    && t.prioIns == From(t.popped, true) + PlainAll(a.prioCh)
    && t.sendIns == From(t.popped, false) + PlainAll(a.sendCh)
  }

  ghost predicate AllWell(writes: seq<bool>) {
    forall i :: 0 <= i < |writes| ==> writes[i]
  }

  /**
   As long as the writer is at work it writes each packet that it takes before it takes
   the next; it stops only for a failed write or with its session.
   */
  ghost predicate EachIsWritten(a: Slot, t: Outgoing) {
    && (a.Live() ==> |t.popped| == |t.writes| + (if a.writer.Writing? then 1 else 0) && AllWell(t.writes))
    && (a.writer.Writing? ==> t.popped[|t.popped| - 1].it.buf == a.writer.buf)
    && (!a.Live() ==> |t.writes| <= |t.popped| && (AllWell(t.writes) ==> a.cancelled))
    && (!a.Live() ==> t.writes == [] || AllWell(t.writes[..|t.writes| - 1]))
  }

  /** A writer that stopped found its queues empty, the priority queue first. */
  ghost predicate Emptied(a: Slot, t: Outgoing) {
    && (a.Live() || a.writer.DrainPrio? ==> t.rests == [])
    && (a.writer.DrainSend? ==> |t.rests| == 1 && t.rests[0].small == 0)
    && (a.writer.Done? ==> |t.rests| == 2 && t.rests[0].small == 0 && t.rests[1].large == 0)
  }

  /** Every keepalive made enters the priority queue, unless that is full. */
  ghost predicate KeepalivesEnter(a: Slot, t: Outgoing) {
    && t.ticks == t.entered + |t.refusals| + (if a.keepalive.Holding? then 1 else 0)
    && forall i :: 0 <= i < |t.refusals| ==> t.refusals[i] == PRIO_CAP
  }

  /** Whoever of a session's goroutines ends, the session ends with it. */
  predicate EndsTogether(a: Slot) {
    a.writer.Done? || a.keepalive.Exited? || a.reader.Exited? ==> a.cancelled
  }

  ghost predicate Lawful(a: Slot, t: Outgoing) {
    InOrder(a, t) && EachIsWritten(a, t) && Emptied(a, t) && KeepalivesEnter(a, t) && EndsTogether(a)
  }

  // ---------------------------------------------------------------------
  // The steps
  // ---------------------------------------------------------------------

  lemma FromAppend(popped: seq<Popped>, p: Popped, prio: bool)
    ensures From(popped + [p], prio) == From(popped, prio) + if p.prio == prio then [Plain(p.it)] else []
  {
    assert (popped + [p])[..|popped|] == popped;
  }

  lemma {:induction false} PlainAppend(q: seq<Item>, it: Item)
    ensures PlainAll(q + [it]) == PlainAll(q) + [Plain(it)]
  {
    if q == [] {
      assert q + [it] == [it];
    } else {
      assert (q + [it])[1..] == q[1..] + [it];
      PlainAppend(q[1..], it);
    }
  }

  /** The ways in which a step can change the two queues. */
  ghost predicate QueuesMove(s: Plane, st: Step, a: Slot, b: Slot) {
    || (b.prioCh == a.prioCh && b.sendCh == a.sendCh)
    || (a.prioCh != [] && b.prioCh == a.prioCh[1..] && b.sendCh == a.sendCh)
    || (a.sendCh != [] && b.sendCh == a.sendCh[1..] && b.prioCh == a.prioCh)
    || (b.sendCh == a.sendCh && exists it :: Plain(it) == Offered(s, a, st) && b.prioCh == a.prioCh + [it])
    || (b.prioCh == a.prioCh && exists it :: Plain(it) == Offered(s, a, st) && b.sendCh == a.sendCh + [it])
  }

  lemma Regroup(a: seq<Item>, b: seq<Item>, c: seq<Item>)
    ensures a + (b + c) == a + b + c
  {}

  lemma QueueTake(ins: seq<Item>, popped: seq<Popped>, prio: bool, q: seq<Item>)
    requires ins == From(popped, prio) + PlainAll(q) && q != []
    ensures ins == From(popped + [Popped(prio, q[0])], prio) + PlainAll(q[1..])
  {
    FromAppend(popped, Popped(prio, q[0]), prio);
    Regroup(From(popped, prio), [Plain(q[0])], PlainAll(q[1..]));
  }

  lemma PrioTaken(t: Outgoing, s: Plane, a: Slot, st: Step, b: Slot)
    requires InOrder(a, t) && |b.prioCh| < |a.prioCh| && QueuesMove(s, st, a, b)
    ensures InOrder(b, NoteQueues(t, s, a, b, st))
  {
    QueueTake(t.prioIns, t.popped, true, a.prioCh);
    FromAppend(t.popped, Popped(true, a.prioCh[0]), false);
  }

  lemma SendTaken(t: Outgoing, s: Plane, a: Slot, st: Step, b: Slot)
    requires InOrder(a, t) && |b.sendCh| < |a.sendCh| && QueuesMove(s, st, a, b)
    ensures InOrder(b, NoteQueues(t, s, a, b, st))
  {
    QueueTake(t.sendIns, t.popped, false, a.sendCh);
    FromAppend(t.popped, Popped(false, a.sendCh[0]), true);
  }

  lemma QueuePut(ins: seq<Item>, popped: seq<Popped>, prio: bool, q: seq<Item>, it: Item)
    requires ins == From(popped, prio) + PlainAll(q)
    ensures ins + [Plain(it)] == From(popped, prio) + PlainAll(q + [it])
  {
    PlainAppend(q, it);
    Regroup(From(popped, prio), PlainAll(q), [Plain(it)]);
  }

  lemma PutKeepsOrder(t: Outgoing, s: Plane, a: Slot, st: Step, b: Slot)
    requires InOrder(a, t) && (|b.prioCh| > |a.prioCh| || |b.sendCh| > |a.sendCh|) && QueuesMove(s, st, a, b)
    ensures InOrder(b, NoteQueues(t, s, a, b, st))
  {
    assert t.popped + [] == t.popped;
    if |b.prioCh| > |a.prioCh| {
      var it := b.prioCh[|a.prioCh|];
      assert b.prioCh == a.prioCh + [it] && b.sendCh == a.sendCh && Plain(it) == Offered(s, a, st);
      QueuePut(t.prioIns, t.popped, true, a.prioCh, it);
      assert t.sendIns + [] == t.sendIns;
    } else {
      var it := b.sendCh[|a.sendCh|];
      assert b.sendCh == a.sendCh + [it] && b.prioCh == a.prioCh && Plain(it) == Offered(s, a, st);
      QueuePut(t.sendIns, t.popped, false, a.sendCh, it);
      assert t.prioIns + [] == t.prioIns;
    }
  }

  lemma MoveKeepsOrder(t: Outgoing, s: Plane, a: Slot, st: Step, b: Slot)
    requires InOrder(a, t) && QueuesMove(s, st, a, b)
    ensures InOrder(b, NoteQueues(t, s, a, b, st))
  {
    if |b.prioCh| < |a.prioCh| {
      PrioTaken(t, s, a, st, b);
    } else if |b.sendCh| < |a.sendCh| {
      SendTaken(t, s, a, st, b);
    } else if |b.prioCh| > |a.prioCh| || |b.sendCh| > |a.sendCh| {
      PutKeepsOrder(t, s, a, st, b);
    } else {
      assert t.popped + [] == t.popped && t.prioIns + [] == t.prioIns && t.sendIns + [] == t.sendIns;
    }
  }

  /** The step of w is just what its writer, its keepalive or its reader does. */
  lemma OwnStep(s: Plane, st: Step, w: SlotId)
    requires Enabled(s, st) && w in s.slots
    ensures st.Writer? && st.w == w ==> Apply(s, st).slots[w] == WriterNext(s.slots[w], st.ws)
    ensures st.Helper? && st.w == w ==>
              Apply(s, st).slots[w] == HelperNext(s.slots[w], st.hs, HelperEffect(s, s.slots[w], st.hs).1)
  {}

  lemma WriterEachWritten(t: Outgoing, s: Plane, w: SlotId, a: Slot, ws: WriterStep)
    requires EachIsWritten(a, t) && WriterCan(a, ws)
    ensures EachIsWritten(WriterNext(a, ws), Observe(t, s, w, a, Writer(w, ws), WriterNext(a, ws)))
  {
    var b, st := WriterNext(a, ws), Writer(w, ws);
    if ws.Written? {
      assert (t.writes + [ws.ok])[..|t.writes|] == t.writes && (t.writes + [ws.ok])[|t.writes|] == ws.ok;
    }
  }

  lemma WriterMovesQueues(s: Plane, w: SlotId, a: Slot, ws: WriterStep)
    requires WriterCan(a, ws)
    ensures QueuesMove(s, Writer(w, ws), a, WriterNext(a, ws))
  {}

  lemma WriterEmpties(t: Outgoing, w: SlotId, a: Slot, ws: WriterStep)
    requires Emptied(a, t) && WriterCan(a, ws)
    ensures Emptied(WriterNext(a, ws), NoteStep(t, a, WriterNext(a, ws), Writer(w, ws)))
  {}

  lemma NoteQueuesKeeps(t: Outgoing, s: Plane, a: Slot, b: Slot, st: Step)
    ensures var u := NoteQueues(t, s, a, b, st);
            u.writes == t.writes && u.rests == t.rests && u.ticks == t.ticks && u.entered == t.entered
            && u.refusals == t.refusals
  {}

  lemma WriterKeepsHelpers(t: Outgoing, w: SlotId, a: Slot, ws: WriterStep)
    requires WriterCan(a, ws)
    ensures WriterNext(a, ws).keepalive == a.keepalive && (EndsTogether(a) ==> EndsTogether(WriterNext(a, ws)))
    ensures var u := NoteStep(t, a, WriterNext(a, ws), Writer(w, ws));
            u.ticks == t.ticks && u.entered == t.entered && u.refusals == t.refusals
            && u.prioIns == t.prioIns && u.sendIns == t.sendIns && u.popped == t.popped
  {}

  lemma WriterIsLawful(t: Outgoing, s: Plane, w: SlotId, a: Slot, ws: WriterStep)
    requires Lawful(a, t) && WriterCan(a, ws)
    ensures Lawful(WriterNext(a, ws), Observe(t, s, w, a, Writer(w, ws), WriterNext(a, ws)))
  {
    var b, st := WriterNext(a, ws), Writer(w, ws);
    var u := NoteStep(t, a, b, st);
    NoteQueuesKeeps(u, s, a, b, st);
    WriterKeepsHelpers(t, w, a, ws);
    WriterMovesQueues(s, w, a, ws);
    MoveKeepsOrder(u, s, a, st, b);
    WriterEmpties(t, w, a, ws);
    WriterEachWritten(t, s, w, a, ws);
  }

  lemma HelperMovesQueues(s: Plane, w: SlotId, a: Slot, hs: HelperStep, b: BufId)
    requires HelperCan(s, a, hs)
    ensures QueuesMove(s, Helper(w, hs), a, HelperNext(a, hs, b))
  {
    var it := Item(if a.keepalive.Holding? then a.keepalive.buf else 0, NOT_READ, 0, a.sendDeqs);
    assert Plain(it) == Offered(s, a, Helper(w, hs));
  }

  lemma KeepaliveEnters(t: Outgoing, s: Plane, w: SlotId, a: Slot, hs: HelperStep, b: BufId)
    requires KeepalivesEnter(a, t) && HelperCan(s, a, hs) && |a.prioCh| <= PRIO_CAP
    ensures KeepalivesEnter(HelperNext(a, hs, b), NoteStep(t, a, HelperNext(a, hs, b), Helper(w, hs)))
  {}

  lemma HelperKeepsWriter(t: Outgoing, s: Plane, w: SlotId, a: Slot, hs: HelperStep, b: BufId)
    requires hs.KeepaliveSend? ==> a.keepalive.Holding?
    ensures HelperNext(a, hs, b).writer == a.writer && (a.cancelled ==> HelperNext(a, hs, b).cancelled)
    ensures HelperCan(s, a, hs) && EndsTogether(a) ==> EndsTogether(HelperNext(a, hs, b))
    ensures |HelperNext(a, hs, b).prioCh| >= |a.prioCh| && HelperNext(a, hs, b).sendCh == a.sendCh
    ensures var u := NoteStep(t, a, HelperNext(a, hs, b), Helper(w, hs));
            u.writes == t.writes && u.rests == t.rests && u.prioIns == t.prioIns && u.sendIns == t.sendIns
            && u.popped == t.popped
  {}

  lemma HelperIsLawful(t: Outgoing, s: Plane, w: SlotId, a: Slot, hs: HelperStep, b: BufId)
    requires Lawful(a, t) && HelperCan(s, a, hs) && |a.prioCh| <= PRIO_CAP
    ensures Lawful(HelperNext(a, hs, b), Observe(t, s, w, a, Helper(w, hs), HelperNext(a, hs, b)))
  {
    var c, st := HelperNext(a, hs, b), Helper(w, hs);
    NoteQueuesKeeps(NoteStep(t, a, c, st), s, a, c, st);
    HelperKeepsOrder(t, s, w, a, hs, b);
    HelperKeepsWriter(t, s, w, a, hs, b);
    KeepaliveEnters(t, s, w, a, hs, b);
    var u := Observe(t, s, w, a, st, c);
    assert u.popped == t.popped && u.writes == t.writes && u.rests == t.rests;
  }

  lemma HelperKeepsOrder(t: Outgoing, s: Plane, w: SlotId, a: Slot, hs: HelperStep, b: BufId)
    requires InOrder(a, t) && HelperCan(s, a, hs)
    ensures var c := HelperNext(a, hs, b);
            var u := Observe(t, s, w, a, Helper(w, hs), c);
            InOrder(c, u) && u.popped == t.popped
  {
    var c, st := HelperNext(a, hs, b), Helper(w, hs);
    HelperKeepsWriter(t, s, w, a, hs, b);
    HelperMovesQueues(s, w, a, hs, b);
    MoveKeepsOrder(NoteStep(t, a, c, st), s, a, st, c);
  }

  lemma OthersAreLawful(t: Outgoing, s: Plane, w: SlotId, a: Slot, st: Step, b: Slot)
    requires Lawful(a, t) && Evolves(s, st, w, a, b) && !(st.Writer? && st.w == w) && !(st.Helper? && st.w == w)
    ensures Lawful(b, Observe(t, s, w, a, st, b))
  {
    MoveKeepsOrder(t, s, a, st, b);
  }

  /**
   In every reachable state, for every slot: the queues gave up what entered them, in that
   order; each packet taken was written, one at a time, until a write failed or the session
   ended; the rest was drained; each keepalive was queued unless the queue was full; and no
   goroutine of a session outlives the session.
   */
  lemma {:induction false} EachPacketIsWritten(run: seq<Step>, w: SlotId)
    requires Legal(run)
    ensures if w in After(run).slots then Lawful(After(run).slots[w], Watch(run, w)) else Watch(run, w) == NOTHING_SENT
  {
    if run != [] {
      var prefix, st := run[..|run| - 1], run[|run| - 1];
      var s := After(prefix);
      EachPacketIsWritten(prefix, w);
      StepEvolves(s, st, w);
      if w in s.slots {
        var t, a, b := Watch(prefix, w), s.slots[w], After(run).slots[w];
        OwnStep(s, st, w);
        SlotsKeepFewOvertakes(prefix, w);
        if st.Writer? && st.w == w {
          WriterIsLawful(t, s, w, a, st.ws);
        } else if st.Helper? && st.w == w {
          HelperIsLawful(t, s, w, a, st.hs, HelperEffect(s, a, st.hs).1);
        } else {
          OthersAreLawful(t, s, w, a, st, b);
        }
      }
    }
  }
}
