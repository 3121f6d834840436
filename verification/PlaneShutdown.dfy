/**
 How a session ends: once it is cancelled its goroutines can all finish by their own steps,
 whatever the queues hold and whatever the rest of the plane does not do.
 */
module PlaneShutdown {
  import opened PacketPlane
  import opened PlaneOvertaking

  /** The session is cancelled, its helpers may or may not be done. */
  ghost predicate Cancelled(run: seq<Step>, w: SlotId) {
    Legal(run) && w in After(run).slots && After(run).slots[w].cancelled
  }

  /** The two runs differ by steps of the session of w alone. */
  ghost predicate Continues(run: seq<Step>, longer: seq<Step>, w: SlotId) {
    && Legal(run) && Legal(longer) && run <= longer
    && (forall i :: |run| <= i < |longer| ==>
         (longer[i].Writer? && longer[i].w == w) || (longer[i].Helper? && longer[i].w == w))
    && After(longer).disp == After(run).disp && After(longer).workers == After(run).workers
  }

  lemma ContinuesOn(run: seq<Step>, longer: seq<Step>, longest: seq<Step>, w: SlotId)
    requires Continues(run, longer, w) && Continues(longer, longest, w)
    ensures Continues(run, longest, w)
  {}

  lemma OwnStepLeavesDispatcher(s: Plane, st: Step)
    requires Enabled(s, st) && (st.Writer? || st.Helper?)
    ensures Apply(s, st).disp == s.disp && Apply(s, st).workers == s.workers
  {}

  lemma OneWriterStep(run: seq<Step>, w: SlotId, ws: WriterStep) returns (longer: seq<Step>)
    requires Cancelled(run, w) && WriterCan(After(run).slots[w], ws)
    ensures Cancelled(longer, w) && Continues(run, longer, w)
    ensures After(longer).slots[w] == WriterNext(After(run).slots[w], ws)
  {
    longer := run + [Writer(w, ws)];
    Extend(run, Writer(w, ws));
    OwnStepLeavesDispatcher(After(run), Writer(w, ws));
  }

  lemma OneHelperStep(run: seq<Step>, w: SlotId, hs: HelperStep) returns (longer: seq<Step>)
    requires Cancelled(run, w) && HelperCan(After(run), After(run).slots[w], hs)
    ensures Cancelled(longer, w) && Continues(run, longer, w)
    ensures After(longer).slots[w]
         == HelperNext(After(run).slots[w], hs, HelperEffect(After(run), After(run).slots[w], hs).1)
  {
    longer := run + [Helper(w, hs)];
    Extend(run, Helper(w, hs));
    OwnStepLeavesDispatcher(After(run), Helper(w, hs));
  }

  /** How far the writer has still to go: the stage, and the work left in it. */
  function Stage(slot: Slot): nat {
    if slot.Live() then 3 else if slot.writer.DrainPrio? then 2 else if slot.writer.DrainSend? then 1 else 0
  }

  function Work(slot: Slot): nat {
    match slot.writer
    case Top => 3 * |slot.prioCh| + 1
    case Writing(_) => 3 * |slot.prioCh| + 2
    case DrainPrio => |slot.prioCh|
    case DrainSend => |slot.sendCh|
    case _ => 0
  }

  /** What the writer of a cancelled session does next on its way out. */
  function NextOnWayOut(slot: Slot): WriterStep
    requires !slot.writer.Done?
  {
    match slot.writer
    case Top => Select1
    case Between => Select2Done
    case Writing(_) => Written(true)
    case _ => Drain
  }

  lemma WayOutShortens(slot: Slot)
    requires slot.cancelled && !slot.writer.Done?
    ensures WriterCan(slot, NextOnWayOut(slot))
    ensures var next := WriterNext(slot, NextOnWayOut(slot));
            && (Stage(next) < Stage(slot) || (Stage(next) == Stage(slot) && Work(next) < Work(slot)))
            && next.keepalive == slot.keepalive && next.reader == slot.reader && next.cancelled
  {}

  lemma {:induction false} WriterEnds(run: seq<Step>, w: SlotId) returns (longer: seq<Step>)
    requires Cancelled(run, w)
    ensures Cancelled(longer, w) && Continues(run, longer, w) && After(longer).slots[w].writer.Done?
    ensures After(longer).slots[w].keepalive == After(run).slots[w].keepalive
    ensures After(longer).slots[w].reader == After(run).slots[w].reader
    decreases Stage(After(run).slots[w]), Work(After(run).slots[w])
  {
    longer := run;
    var slot := After(run).slots[w];
    if !slot.writer.Done? {
      WayOutShortens(slot);
      var one := OneWriterStep(run, w, NextOnWayOut(slot));
      longer := WriterEnds(one, w);
      ContinuesOn(run, one, longer, w);
    }
  }

  lemma KeepaliveEnds(run: seq<Step>, w: SlotId) returns (longer: seq<Step>)
    requires Cancelled(run, w)
    ensures Cancelled(longer, w) && Continues(run, longer, w) && After(longer).slots[w].keepalive.Exited?
  {
    longer := run;
    if After(longer).slots[w].keepalive.Holding? {
      longer := OneHelperStep(run, w, KeepaliveSend);
    }
    if After(longer).slots[w].keepalive.Idle? {
      var last := OneHelperStep(longer, w, KeepaliveExit);
      ContinuesOn(run, longer, last, w);
      longer := last;
    }
  }

  lemma ReaderEnds(run: seq<Step>, w: SlotId) returns (longer: seq<Step>)
    requires Cancelled(run, w)
    ensures Cancelled(longer, w) && Continues(run, longer, w) && After(longer).slots[w].reader.Exited?
    ensures After(longer).slots[w].keepalive == After(run).slots[w].keepalive
  {
    longer := run;
    match After(run).slots[w].reader
    case Idle => longer := OneHelperStep(run, w, ReceiveExit);
    case Holding(_) => longer := OneHelperStep(run, w, ReceiveCancelled);
    case Exited =>
  }

  /**
   In every reachable state a cancelled session can end, without anyone else taking a step:
   its keepalive, its reader and its writer get to their ends, and unless the dispatcher holds
   the mutex the worker can be unregistered.
   */
  lemma CancelledSessionCanEnd(run: seq<Step>, w: SlotId) returns (longer: seq<Step>)
    requires Cancelled(run, w)
    ensures Continues(run, longer, w) && w in After(longer).slots
    ensures var slot := After(longer).slots[w];
            slot.writer.Done? && slot.keepalive.Exited? && slot.reader.Exited?
    ensures w in After(run).workers && !After(run).disp.Locked() ==> Enabled(After(longer), Leave(w))
  {
    var first := KeepaliveEnds(run, w);
    var second := ReaderEnds(first, w);
    longer := WriterEnds(second, w);
    ContinuesOn(run, first, second, w);
    ContinuesOn(run, second, longer, w);
  }
}
