/**
 Buffers are used again: nobody but the garbage collector, which may empty the pool, ever
 takes one out of circulation.
 */
module PlaneRecycling {
  import opened PacketPlane
  import opened PlaneOwnership

  /** A buffer that somebody holds goes back to the pool. */
  lemma PutRecycles(s: Plane, b: BufId, p: Place)
    requires OwnershipInv(s) && At(s, b, p)
    ensures Put(s, b) == s.(pool := s.pool + multiset{b})
  {}

  /** The buffer that the writer frees is one that it held or that was queued for it. */
  lemma WriterRecycles(s: Plane, w: SlotId, ws: WriterStep)
    requires OwnershipInv(s) && Enabled(s, Writer(w, ws))
    ensures Apply(s, Writer(w, ws)).evicted == s.evicted
  {
    var slot := s.slots[w];
    match ws
    case Written(_) => PutRecycles(s, slot.writer.buf, WithWriter(w));
    case Drain =>
      if slot.writer.DrainPrio? && slot.prioCh != [] {
        assert HasBuf(slot.prioCh, slot.prioCh[0].buf);
        PutRecycles(s, slot.prioCh[0].buf, InPrio(w));
      } else if slot.writer.DrainSend? && slot.sendCh != [] {
        assert HasBuf(slot.sendCh, slot.sendCh[0].buf);
        PutRecycles(s, slot.sendCh[0].buf, InSend(w));
      }
    case _ =>
  }

  lemma HelperRecycles(s: Plane, w: SlotId, hs: HelperStep)
    requires OwnershipInv(s) && Enabled(s, Helper(w, hs))
    ensures Apply(s, Helper(w, hs)).evicted == s.evicted
  {
    var slot := s.slots[w];
    match hs
    case KeepaliveTick(size, from) => GetMoves(s, from, size);
    case Receive(size, from) => GetMoves(s, from, size);
    case KeepaliveSend => PutRecycles(s, slot.keepalive.buf, WithKeepalive(w));
    case ReceiveSend => PutRecycles(s, slot.reader.buf, WithReader(w));
    case ReceiveCancelled => PutRecycles(s, slot.reader.buf, WithReader(w));
    case _ =>
  }

  lemma DispatcherRecycles(s: Plane, st: Step)
    requires OwnershipInv(s) && Enabled(s, st) && (st.Lock? || st.Probe?)
    ensures Apply(s, st).evicted == s.evicted
  {
    PutRecycles(s, s.disp.pkt.buf, WithDispatcher);
  }

  lemma StepRecycles(s: Plane, st: Step)
    requires OwnershipInv(s) && Enabled(s, st) && !st.Evict?
    ensures Apply(s, st).evicted == s.evicted
  {
    match st
    case Read(size, from) => GetMoves(s, from, size);
    case Lock(_) => DispatcherRecycles(s, st);
    case Probe => DispatcherRecycles(s, st);
    case Writer(w, ws) => WriterRecycles(s, w, ws);
    case Helper(w, hs) => HelperRecycles(s, w, hs);
    case ReturnDone => PutRecycles(s, s.writeLoop.buf, WithWriteLoop);
    case _ =>
  }

  /** As long as the pool forgets nothing, every buffer ever allocated is in use or in the pool. */
  lemma {:induction false} BuffersAreRecycled(run: seq<Step>)
    requires Legal(run) && forall i :: 0 <= i < |run| ==> !run[i].Evict?
    ensures After(run).evicted == {}
  {
    if run != [] {
      var prefix := run[..|run| - 1];
      BuffersAreRecycled(prefix);
      EveryBufferHasOnePlace(prefix);
      StepRecycles(After(prefix), run[|run| - 1]);
    }
  }
}
