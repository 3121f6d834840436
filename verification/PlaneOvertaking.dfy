/**
 What the writer's two-stage select is for: a small packet that has entered a
 live slot's priority queue is overtaken by at most one data packet, whatever
 the dispatcher, the keepalive and the writer do in between.
 */
module PlaneOvertaking {
  import opened Dispatching
  import opened PacketPlane

  /** How a step of the plane can change the slot of w. */
  ghost predicate Evolves(s: Plane, st: Step, w: SlotId, a: Slot, b: Slot) {
    || b == a
    || (st.Writer? && st.w == w && WriterCan(a, st.ws) && b == WriterNext(a, st.ws))
    || (st.Helper? && st.w == w && HelperCan(s, a, st.hs) && b == HelperNext(a, st.hs, HelperEffect(s, a, st.hs).1))
    || (st.Probe? && s.disp.ProbePrio? && |a.prioCh| < PRIO_CAP && b == PushPrio(a, s.disp.pkt))
    || (st.Probe? && s.disp.ProbeSend? && |a.sendCh| < SEND_CAP && b == PushSend(a, s.disp.pkt))
  }

  /** Slots never disappear, new ones start empty, and the others change only in these ways. */
  lemma StepEvolves(s: Plane, st: Step, w: SlotId)
    requires Enabled(s, st)
    ensures w in s.slots ==> w in Apply(s, st).slots && Evolves(s, st, w, s.slots[w], Apply(s, st).slots[w])
    ensures w !in s.slots && w in Apply(s, st).slots ==> st == Join(w) && Apply(s, st).slots[w] == NEW_SLOT
  {
    if st.Probe? {
      ProbeEvolves(s, w);
    }
  }

  lemma ProbeEvolves(s: Plane, w: SlotId)
    requires Enabled(s, Probe)
    ensures w in s.slots <==> w in Apply(s, Probe).slots
    ensures w in s.slots ==> Evolves(s, Probe, w, s.slots[w], Apply(s, Probe).slots[w])
  {
    var v := s.workers[Probed(s)];
    if s.disp.ProbePrio? {
      assert Apply(s, Probe).slots ==
        if |s.slots[v].prioCh| < PRIO_CAP then s.slots[v := PushPrio(s.slots[v], s.disp.pkt)] else s.slots;
    } else {
      assert Apply(s, Probe).slots ==
        if |s.slots[v].sendCh| < SEND_CAP then s.slots[v := PushSend(s.slots[v], s.disp.pkt)] else s.slots;
    }
  }

  /**
   At most one data packet left since any waiting small packet arrived, and none
   at all while the writer is between its selects: it got there because the
   priority queue was empty, so everything in it arrived since.
   */
  ghost predicate FewOvertakes(slot: Slot) {
    && |slot.sendCh| <= SEND_CAP && |slot.prioCh| <= PRIO_CAP
    && (slot.Live() ==> Led(slot.prioCh, slot.sendDeqs, if slot.writer.Between? then 0 else 1))
  }

  /** Since each of these packets arrived, the count went up by `lead` at most, to deqs. */
  ghost predicate Led(q: seq<Item>, deqs: nat, lead: nat) {
    forall i :: 0 <= i < |q| ==> q[i].stamp <= deqs <= q[i].stamp + lead
  }

  lemma PushKeepsFewOvertakes(a: Slot, it: Item)
    requires FewOvertakes(a)
    ensures |a.prioCh| < PRIO_CAP ==> FewOvertakes(PushPrio(a, it))
    ensures |a.sendCh| < SEND_CAP ==> FewOvertakes(PushSend(a, it))
  {}

  lemma SelectKeepsFewOvertakes(a: Slot, ws: WriterStep)
    requires FewOvertakes(a) && WriterCan(a, ws) && (ws.Select1? || ws.Select2Prio? || ws.Select2Send?)
    ensures FewOvertakes(WriterNext(a, ws))
  {}

  lemma WriterKeepsFewOvertakes(a: Slot, ws: WriterStep)
    requires FewOvertakes(a) && WriterCan(a, ws)
    ensures FewOvertakes(WriterNext(a, ws))
  {
    if ws.Select1? || ws.Select2Prio? || ws.Select2Send? {
      SelectKeepsFewOvertakes(a, ws);
    }
  }

  lemma EvolutionKeepsFewOvertakes(s: Plane, st: Step, w: SlotId, a: Slot, b: Slot)
    requires FewOvertakes(a) && Evolves(s, st, w, a, b)
    ensures FewOvertakes(b)
  {
    if b != a {
      match st
      case Writer(_, ws) => WriterKeepsFewOvertakes(a, ws);
      case Helper(_, hs) =>
        if hs.KeepaliveSend? {
          PushKeepsFewOvertakes(a, Item(a.keepalive.buf, NOT_READ, 0, 0));
        }
      case Probe => PushKeepsFewOvertakes(a, s.disp.pkt);
      case _ =>
    }
  }

  lemma {:induction false} SlotsKeepFewOvertakes(run: seq<Step>, w: SlotId)
    requires Legal(run) && w in After(run).slots
    ensures FewOvertakes(After(run).slots[w])
  {
    if run != [] {
      var prefix, st := run[..|run| - 1], run[|run| - 1];
      StepEvolves(After(prefix), st, w);
      if w in After(prefix).slots {
        SlotsKeepFewOvertakes(prefix, w);
        EvolutionKeepsFewOvertakes(After(prefix), st, w, After(prefix).slots[w], After(run).slots[w]);
      }
    }
  }

  /**
   In every reachable state, from the moment a packet entered a live slot's
   priority queue at most one packet has been taken from that slot's data queue.
   */
  lemma BoundedOvertaking(run: seq<Step>, w: SlotId, i: nat)
    requires Legal(run) && w in After(run).slots
    requires After(run).slots[w].Live() && i < |After(run).slots[w].prioCh|
    ensures var slot := After(run).slots[w];
            slot.prioCh[i].stamp <= slot.sendDeqs <= slot.prioCh[i].stamp + 1
  {
    SlotsKeepFewOvertakes(run, w);
  }

  /** No queue is ever longer than its channel. */
  lemma QueuesWithinCapacity(run: seq<Step>, w: SlotId)
    requires Legal(run) && w in After(run).slots
    ensures |After(run).slots[w].sendCh| <= SEND_CAP && |After(run).slots[w].prioCh| <= PRIO_CAP
  {
    SlotsKeepFewOvertakes(run, w);
  }

  lemma Extend(run: seq<Step>, st: Step)
    requires Legal(run) && Enabled(After(run), st)
    ensures Legal(run + [st]) && After(run + [st]) == Apply(After(run), st)
  {
    assert (run + [st])[..|run|] == run;
  }

  /** A data packet is queued and the writer is between its selects. */
  lemma CaughtBetween() returns (run: seq<Step>)
    ensures Legal(run) && 7 in After(run).slots && After(run).next == 1
    ensures var slot := After(run).slots[7];
            slot.writer.Between? && |slot.sendCh| == 1 && slot.prioCh == []
            && slot.sendDeqs == 0 && slot.keepalive.Idle?
  {
    run := [];
    Extend(run, Join(7));
    run := run + [Join(7)];
    Extend(run, Writer(7, Select1));
    run := run + [Writer(7, Select1)];
    Extend(run, Step.Read(500, 0));
    run := run + [Step.Read(500, 0)];
    Extend(run, Lock(1));
    run := run + [Lock(1)];
    var s := After(run);
    assert s.workers == [7] && s.disp.ProbeSend? && s.disp.i == 0;
    assert Probed(s) == 0;
    Extend(run, Probe);
    run := run + [Probe];
  }

  /** One is really possible: the data packet wins the second select against a small packet that came in between. */
  lemma OneOvertakeHappens() returns (run: seq<Step>)
    ensures Legal(run) && 7 in After(run).slots
    ensures var slot := After(run).slots[7];
            slot.Live() && |slot.prioCh| == 1 && slot.sendDeqs == slot.prioCh[0].stamp + 1
  {
    run := CaughtBetween();
    Extend(run, Helper(7, KeepaliveTick(25, 1)));
    run := run + [Helper(7, KeepaliveTick(25, 1))];
    Extend(run, Helper(7, KeepaliveSend));
    run := run + [Helper(7, KeepaliveSend)];
    Extend(run, Writer(7, Select2Send));
    run := run + [Writer(7, Select2Send)];
  }
}
