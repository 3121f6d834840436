/**
 Every packet buffer is in exactly one place, over every run of the packet
 plane: pooled, in one queue, in one goroutine's hands, or given to the garbage
 collector. So nothing is returned to the pool twice, and nothing that sits in
 the pool is still queued somewhere.
 */
module PlaneOwnership {
  import opened PacketPlane
  import opened Dispatching

  /** The places a buffer can be in. */
  datatype Place =
    | InPool
    | Evicted
    | WithDispatcher
    | WithWriteLoop
    | InReturn
    | InSend(w: SlotId)
    | InPrio(w: SlotId)
    | WithWriter(w: SlotId)
    | WithKeepalive(w: SlotId)
    | WithReader(w: SlotId)

  ghost predicate HasBuf(q: seq<Item>, b: BufId) {
    exists i :: 0 <= i < |q| && q[i].buf == b
  }

  ghost predicate NoRepeats(q: seq<Item>) {
    forall i, j :: 0 <= i < j < |q| ==> q[i].buf != q[j].buf
  }

  predicate DispatcherHolds(d: DispatcherPc, b: BufId) {
    !d.Waiting? && d.pkt.buf == b
  }

  ghost predicate SlotAt(slot: Slot, b: BufId, p: Place) {
    match p
    case InSend(_) => HasBuf(slot.sendCh, b)
    case InPrio(_) => HasBuf(slot.prioCh, b)
    case WithWriter(_) => slot.writer == Writing(b)
    case WithKeepalive(_) => slot.keepalive == Holding(b)
    case WithReader(_) => slot.reader == Holding(b)
    case _ => false
  }

  predicate Global(p: Place) {
    p.InPool? || p.Evicted? || p.WithDispatcher? || p.WithWriteLoop? || p.InReturn?
  }

  ghost predicate At(s: Plane, b: BufId, p: Place) {
    match p
    case InPool => b in s.pool
    case Evicted => b in s.evicted
    case WithDispatcher => DispatcherHolds(s.disp, b)
    case WithWriteLoop => s.writeLoop == Holding(b)
    case InReturn => HasBuf(s.returnCh, b)
    case _ => p.w in s.slots && SlotAt(s.slots[p.w], b, p)
  }

  ghost predicate Somewhere(s: Plane, b: BufId) {
    exists p :: At(s, b, p)
  }

  /** No buffer is in two places. */
  ghost predicate Sole(s: Plane) {
    forall b: BufId, p, q :: At(s, b, p) && At(s, b, q) ==> p == q
  }

  /** The buffers that are somewhere are those that were ever allocated. */
  ghost predicate Complete(s: Plane) {
    && (forall b: BufId, p :: At(s, b, p) ==> b < s.next)
    && (forall b: BufId :: b < s.next ==> Somewhere(s, b))
  }

  /** No place holds the same buffer twice. */
  ghost predicate Distinct(s: Plane) {
    && NoRepeats(s.returnCh)
    && (forall b :: s.pool[b] <= 1)
    && (forall w <- s.slots :: NoRepeats(s.slots[w].sendCh) && NoRepeats(s.slots[w].prioCh))
  }

  /** All buffers are long enough to be pooled again. */
  ghost predicate Roomy(s: Plane) {
    forall b: BufId :: b < s.next ==> b in s.caps && s.caps[b] >= POOL_BUF
  }

  ghost predicate OwnershipInv(s: Plane) {
    Sole(s) && Complete(s) && Distinct(s) && Roomy(s)
  }

  // ---------------------------------------------------------------------
  // Moving one buffer
  // ---------------------------------------------------------------------

  /** From s to s', buffer x went to place `dst` and no other buffer moved. */
  ghost predicate Moved(s: Plane, s': Plane, x: BufId, dst: Place) {
    forall b: BufId, p :: At(s', b, p) <==> if b == x then p == dst else At(s, b, p)
  }

  /** From s to s', no buffer moved. */
  ghost predicate Unmoved(s: Plane, s': Plane) {
    s'.next == s.next && forall b: BufId, p :: At(s', b, p) <==> At(s, b, p)
  }

  lemma MovedKeeps(s: Plane, s': Plane, x: BufId, dst: Place)
    requires Sole(s) && Complete(s) && Moved(s, s', x, dst)
    requires (s'.next == s.next && x < s.next) || (x == s.next && s'.next == s.next + 1)
    ensures Sole(s') && Complete(s')
  {
    assert At(s', x, dst);
    forall b: BufId | b < s'.next && b != x ensures Somewhere(s', b) {
      assert Somewhere(s, b);
      var p :| At(s, b, p);
      assert At(s', b, p);
    }
  }

  lemma UnmovedKeeps(s: Plane, s': Plane)
    requires Sole(s) && Complete(s) && Unmoved(s, s')
    ensures Sole(s') && Complete(s')
  {
    forall b: BufId | b < s'.next ensures Somewhere(s', b) {
      assert Somewhere(s, b);
      var p :| At(s, b, p);
      assert At(s', b, p);
    }
  }

  lemma PushHas(q: seq<Item>, it: Item)
    ensures forall b :: HasBuf(q + [it], b) <==> HasBuf(q, b) || b == it.buf
    ensures NoRepeats(q) && !HasBuf(q, it.buf) ==> NoRepeats(q + [it])
  {
    var r := q + [it];
    assert r[|q|] == it;
    forall b | HasBuf(q, b) ensures HasBuf(r, b) {
      var i :| 0 <= i < |q| && q[i].buf == b;
      assert r[i].buf == b;
    }
    if NoRepeats(q) && !HasBuf(q, it.buf) {
      forall i, j | 0 <= i < j < |r| ensures r[i].buf != r[j].buf {
        assert r[i] == q[i];
      }
    }
  }

  lemma PopHas(q: seq<Item>)
    requires q != [] && NoRepeats(q)
    ensures forall b :: HasBuf(q[1..], b) <==> HasBuf(q, b) && b != q[0].buf
    ensures NoRepeats(q[1..]) && HasBuf(q, q[0].buf)
  {
    var r := q[1..];
    assert q[0].buf == q[0].buf;
    forall b | HasBuf(q, b) && b != q[0].buf ensures HasBuf(r, b) {
      var i :| 0 <= i < |q| && q[i].buf == b;
      assert r[i - 1].buf == b;
    }
    forall b | HasBuf(r, b) ensures HasBuf(q, b) && b != q[0].buf {
      var i :| 0 <= i < |r| && r[i].buf == b;
      assert q[i + 1].buf == b;
    }
  }

  /** The pool's answer moves one buffer out of the pool, or brings in a new one; it is always long enough. */
  lemma GetMoves(s: Plane, from: BufId, size: nat)
    requires OwnershipInv(s) && CanGet(s, from) && size <= POOL_BUF
    ensures !TooShort(s, from, size)
    ensures var (t, b) := Get(s, from, size);
            && b == from && Roomy(t) && (forall c :: t.pool[c] <= 1)
            && t == s.(pool := t.pool, next := t.next, caps := t.caps)
            && (forall c :: c in t.pool <==> c in s.pool && c != b)
            && ((t.next == s.next && At(s, b, InPool) && b < s.next) || (b == s.next && t.next == s.next + 1))
  {
    if from in s.pool {
      assert At(s, from, InPool);
    }
  }

  /** A buffer that nobody pooled goes back to the pool whole. */
  lemma PutMoves(s: Plane, b: BufId)
    requires Roomy(s) && b < s.next && b !in s.pool && forall c :: s.pool[c] <= 1
    ensures Put(s, b) == s.(pool := s.pool + multiset{b})
    ensures forall c :: Put(s, b).pool[c] <= 1
    ensures forall c :: c in Put(s, b).pool <==> c in s.pool || c == b
  {}

  // ---------------------------------------------------------------------
  // The steps
  // ---------------------------------------------------------------------

  /** Whether b is at p after x went from src to dst. */
  predicate Shifted(b: BufId, p: Place, x: BufId, src: Place, dst: Place, before: bool) {
    if b == x then p == dst || (before && p != src) else before
  }

  lemma OnlyAt(s: Plane, x: BufId, src: Place)
    requires Sole(s) && (At(s, x, src) || (x >= s.next && Complete(s)))
    ensures forall p :: At(s, x, p) ==> p == src
  {}

  lemma SlotShiftedAt(s: Plane, s': Plane, w: SlotId, slot': Slot, x: BufId, src: Place, dst: Place, b: BufId, p: Place)
    requires w in s.slots && s'.slots == s.slots[w := slot']
    requires (Global(src) || src.w == w) && (Global(dst) || dst.w == w)
    requires Global(p) ==> (At(s', b, p) <==> Shifted(b, p, x, src, dst, At(s, b, p)))
    requires !Global(p) && p.w == w ==> (SlotAt(slot', b, p) <==> Shifted(b, p, x, src, dst, SlotAt(s.slots[w], b, p)))
    ensures At(s', b, p) <==> Shifted(b, p, x, src, dst, At(s, b, p))
  {
    if !Global(p) && p.w != w {
      assert p.w in s'.slots <==> p.w in s.slots;
    }
  }

  /** Lifts a move that involves one slot and the places outside all slots to the whole plane. */
  lemma SlotMoved(s: Plane, s': Plane, w: SlotId, slot': Slot, x: BufId, src: Place, dst: Place)
    requires Sole(s) && w in s.slots && s'.slots == s.slots[w := slot']
    requires (Global(src) || src.w == w) && (Global(dst) || dst.w == w)
    requires At(s, x, src) || (x >= s.next && Complete(s))
    requires forall b: BufId, p :: Global(p) ==> (At(s', b, p) <==> Shifted(b, p, x, src, dst, At(s, b, p)))
    requires forall b: BufId, p :: !Global(p) && p.w == w ==>
               (SlotAt(slot', b, p) <==> Shifted(b, p, x, src, dst, SlotAt(s.slots[w], b, p)))
    ensures Moved(s, s', x, dst)
  {
    OnlyAt(s, x, src);
    forall b: BufId, p ensures At(s', b, p) <==> if b == x then p == dst else At(s, b, p) {
      SlotShiftedAt(s, s', w, slot', x, src, dst, b, p);
    }
  }

  /** One slot changed without any buffer moving. */
  lemma SlotUnmoved(s: Plane, w: SlotId, slot': Slot)
    requires OwnershipInv(s) && w in s.slots
    requires slot'.sendCh == s.slots[w].sendCh && slot'.prioCh == s.slots[w].prioCh
    requires forall b: BufId, p :: SlotAt(slot', b, p) <==> SlotAt(s.slots[w], b, p)
    ensures OwnershipInv(WithSlot(s, w, slot'))
  {
    var s' := WithSlot(s, w, slot');
    assert Unmoved(s, s');
    UnmovedKeeps(s, s');
  }

  /** A move that involves one slot keeps the invariant if it leaves no repetition behind. */
  lemma SlotShiftKeeps(s: Plane, s': Plane, w: SlotId, slot': Slot, x: BufId, src: Place, dst: Place)
    requires OwnershipInv(s) && w in s.slots && s'.slots == s.slots[w := slot']
    requires (Global(src) || src.w == w) && (Global(dst) || dst.w == w)
    requires (s'.next == s.next && At(s, x, src)) || (x == s.next && s'.next == s.next + 1)
    requires forall b: BufId, p :: Global(p) ==> (At(s', b, p) <==> Shifted(b, p, x, src, dst, At(s, b, p)))
    requires forall b: BufId, p :: !Global(p) && p.w == w ==>
               (SlotAt(slot', b, p) <==> Shifted(b, p, x, src, dst, SlotAt(s.slots[w], b, p)))
    requires NoRepeats(slot'.sendCh) && NoRepeats(slot'.prioCh) && NoRepeats(s'.returnCh)
    requires Roomy(s') && forall b :: s'.pool[b] <= 1
    ensures OwnershipInv(s')
  {
    SlotMoved(s, s', w, slot', x, src, dst);
    MovedKeeps(s, s', x, dst);
  }

  /** Only the pool and one slot changed. */
  ghost predicate PooledFromSlot(s: Plane, s': Plane, w: SlotId, slot': Slot, x: BufId) {
    && s'.slots == s.slots[w := slot'] && s'.pool == s.pool + multiset{x}
    && s'.evicted == s.evicted && s'.caps == s.caps && s'.next == s.next
    && s'.disp == s.disp && s'.returnCh == s.returnCh && s'.writeLoop == s.writeLoop
  }

  /** A slot gives a buffer to the pool. */
  lemma SlotPoolsKeeps(s: Plane, s': Plane, w: SlotId, slot': Slot, x: BufId, src: Place)
    requires OwnershipInv(s) && w in s.slots && PooledFromSlot(s, s', w, slot', x)
    requires !Global(src) && src.w == w && At(s, x, src)
    requires forall b: BufId, p :: !Global(p) && p.w == w ==>
               (SlotAt(slot', b, p) <==> SlotAt(s.slots[w], b, p) && !(b == x && p == src))
    requires NoRepeats(slot'.sendCh) && NoRepeats(slot'.prioCh)
    ensures OwnershipInv(s')
  {
    NotPooled(s, x, src);
    OnlyAt(s, x, src);
    SlotShiftKeeps(s, s', w, slot', x, src, InPool);
  }

  /** Giving back a buffer that a slot holds pools it. */
  lemma SlotPutPools(s: Plane, t: Plane, x: BufId, src: Place)
    requires OwnershipInv(s) && At(s, x, src) && !Global(src)
    requires t == s.(slots := t.slots)
    ensures Put(t, x) == t.(pool := s.pool + multiset{x})
  {
    NotPooled(s, x, src);
    PutMoves(t, x);
  }

  /** A move between places outside all slots. */
  lemma ShiftKeeps(s: Plane, s': Plane, x: BufId, src: Place, dst: Place)
    requires OwnershipInv(s) && s'.slots == s.slots && Global(src) && Global(dst)
    requires (s'.next == s.next && At(s, x, src)) || (x == s.next && s'.next == s.next + 1)
    requires forall b: BufId, p :: Global(p) ==> (At(s', b, p) <==> Shifted(b, p, x, src, dst, At(s, b, p)))
    requires NoRepeats(s'.returnCh) && Roomy(s') && forall b :: s'.pool[b] <= 1
    ensures OwnershipInv(s')
  {
    OnlyAt(s, x, src);
    forall b: BufId, p ensures At(s', b, p) <==> if b == x then p == dst else At(s, b, p) {
      if !Global(p) {
        assert At(s', b, p) == At(s, b, p);
      }
    }
    MovedKeeps(s, s', x, dst);
  }

  lemma NotPooled(s: Plane, b: BufId, p: Place)
    requires OwnershipInv(s) && At(s, b, p) && !p.InPool?
    ensures b !in s.pool && b < s.next
  {
    assert At(s, b, InPool) <==> b in s.pool;
  }

  // The writer

  lemma PrioTakeKeeps(s: Plane, w: SlotId)
    requires OwnershipInv(s) && w in s.slots && s.slots[w].prioCh != []
    requires s.slots[w].writer.Top? || s.slots[w].writer.Between?
    ensures OwnershipInv(WithSlot(s, w, PopPrio(s.slots[w]).(writer := Writing(s.slots[w].prioCh[0].buf))))
  {
    var slot := s.slots[w];
    var x := slot.prioCh[0].buf;
    var slot' := PopPrio(slot).(writer := Writing(x));
    PopHas(slot.prioCh);
    assert At(s, x, InPrio(w));
    SlotShiftKeeps(s, WithSlot(s, w, slot'), w, slot', x, InPrio(w), WithWriter(w));
  }

  lemma SendTakeKeeps(s: Plane, w: SlotId)
    requires OwnershipInv(s) && Enabled(s, Writer(w, Select2Send))
    ensures OwnershipInv(Apply(s, Writer(w, Select2Send)))
  {
    var slot := s.slots[w];
    var x := slot.sendCh[0].buf;
    var slot' := PopSend(slot).(writer := Writing(x));
    PopHas(slot.sendCh);
    assert At(s, x, InSend(w));
    SlotShiftKeeps(s, WithSlot(s, w, slot'), w, slot', x, InSend(w), WithWriter(w));
  }

  lemma Select1Keeps(s: Plane, w: SlotId)
    requires OwnershipInv(s) && Enabled(s, Writer(w, Select1))
    ensures OwnershipInv(Apply(s, Writer(w, Select1)))
  {
    if s.slots[w].prioCh == [] {
      SlotUnmoved(s, w, s.slots[w].(writer := Between));
    } else {
      PrioTakeKeeps(s, w);
    }
  }

  lemma WrittenKeeps(s: Plane, w: SlotId, ok: bool)
    requires OwnershipInv(s) && Enabled(s, Writer(w, Written(ok)))
    ensures OwnershipInv(Apply(s, Writer(w, Written(ok))))
  {
    var slot := s.slots[w];
    var x := slot.writer.buf;
    var slot' := slot.(writer := if ok then Top else WriterPc.DrainPrio);
    assert At(s, x, WithWriter(w));
    SlotPutPools(s, WithSlot(s, w, slot'), x, WithWriter(w));
    SlotPoolsKeeps(s, Apply(s, Writer(w, Written(ok))), w, slot', x, WithWriter(w));
  }

  /** The first packet of the priority queue is thrown away. */
  lemma DrainedPrioKeeps(s: Plane, w: SlotId)
    requires OwnershipInv(s) && w in s.slots && s.slots[w].prioCh != []
    ensures OwnershipInv(Put(WithSlot(s, w, PopPrio(s.slots[w])), s.slots[w].prioCh[0].buf))
  {
    var slot := s.slots[w];
    var x, slot' := slot.prioCh[0].buf, PopPrio(slot);
    PopHas(slot.prioCh);
    assert At(s, x, InPrio(w));
    SlotPutPools(s, WithSlot(s, w, slot'), x, InPrio(w));
    SlotPoolsKeeps(s, Put(WithSlot(s, w, slot'), x), w, slot', x, InPrio(w));
  }

  /** The first packet of the data queue is thrown away. */
  lemma DrainedSendKeeps(s: Plane, w: SlotId)
    requires OwnershipInv(s) && w in s.slots && s.slots[w].sendCh != []
    ensures OwnershipInv(Put(WithSlot(s, w, PopSend(s.slots[w])), s.slots[w].sendCh[0].buf))
  {
    var slot := s.slots[w];
    var x, slot' := slot.sendCh[0].buf, PopSend(slot);
    PopHas(slot.sendCh);
    assert At(s, x, InSend(w));
    SlotPutPools(s, WithSlot(s, w, slot'), x, InSend(w));
    SlotPoolsKeeps(s, Put(WithSlot(s, w, slot'), x), w, slot', x, InSend(w));
  }

  lemma DrainPrioKeeps(s: Plane, w: SlotId)
    requires OwnershipInv(s) && Enabled(s, Writer(w, Drain)) && s.slots[w].writer.DrainPrio?
    ensures OwnershipInv(Apply(s, Writer(w, Drain)))
  {
    if s.slots[w].prioCh == [] {
      SlotUnmoved(s, w, s.slots[w].(writer := DrainSend));
    } else {
      DrainedPrioKeeps(s, w);
    }
  }

  lemma DrainSendKeeps(s: Plane, w: SlotId)
    requires OwnershipInv(s) && Enabled(s, Writer(w, Drain)) && s.slots[w].writer.DrainSend?
    ensures OwnershipInv(Apply(s, Writer(w, Drain)))
  {
    if s.slots[w].sendCh == [] {
      SlotUnmoved(s, w, s.slots[w].(writer := Done, cancelled := true));
    } else {
      DrainedSendKeeps(s, w);
    }
  }

  lemma WriterKeeps(s: Plane, w: SlotId, ws: WriterStep)
    requires OwnershipInv(s) && Enabled(s, Writer(w, ws))
    ensures OwnershipInv(Apply(s, Writer(w, ws)))
  {
    match ws
    case Select1 => Select1Keeps(s, w);
    case Select2Prio => PrioTakeKeeps(s, w);
    case Select2Send => SendTakeKeeps(s, w);
    case Select2Done => SlotUnmoved(s, w, s.slots[w].(writer := WriterPc.DrainPrio));
    case Written(ok) => WrittenKeeps(s, w, ok);
    case Drain =>
      if s.slots[w].writer.DrainPrio? {
        DrainPrioKeeps(s, w);
      } else {
        DrainSendKeeps(s, w);
      }
  }

  // The keepalive and the reader

  lemma KeepaliveTickKeeps(s: Plane, w: SlotId, size: nat, from: BufId)
    requires OwnershipInv(s) && Enabled(s, Helper(w, KeepaliveTick(size, from)))
    ensures OwnershipInv(Apply(s, Helper(w, KeepaliveTick(size, from))))
  {
    var slot' := s.slots[w].(keepalive := Holding(from));
    GetMoves(s, from, size);
    SlotShiftKeeps(s, Apply(s, Helper(w, KeepaliveTick(size, from))), w, slot', from, InPool, WithKeepalive(w));
  }

  /** The keepalive enters the priority queue. */
  lemma KeepaliveQueued(s: Plane, w: SlotId)
    requires OwnershipInv(s) && w in s.slots && s.slots[w].keepalive.Holding?
    ensures var slot := s.slots[w];
            OwnershipInv(WithSlot(s, w, PushPrio(slot, Item(slot.keepalive.buf, NOT_READ, 0, 0)).(keepalive := Idle)))
  {
    var slot := s.slots[w];
    var x := slot.keepalive.buf;
    var slot' := PushPrio(slot, Item(x, NOT_READ, 0, 0)).(keepalive := Idle);
    assert At(s, x, WithKeepalive(w));
    assert !At(s, x, InPrio(w));
    PushHas(slot.prioCh, Item(x, NOT_READ, 0, slot.sendDeqs));
    SlotShiftKeeps(s, WithSlot(s, w, slot'), w, slot', x, WithKeepalive(w), InPrio(w));
  }

  /** The keepalive finds the priority queue full. */
  lemma KeepaliveDropped(s: Plane, w: SlotId)
    requires OwnershipInv(s) && w in s.slots && s.slots[w].keepalive.Holding?
    ensures var slot := s.slots[w];
            OwnershipInv(WithSlot(Put(s, slot.keepalive.buf), w, slot.(keepalive := Idle)))
  {
    var slot := s.slots[w];
    var x, slot' := slot.keepalive.buf, slot.(keepalive := Idle);
    assert At(s, x, WithKeepalive(w));
    SlotPutPools(s, s, x, WithKeepalive(w));
    SlotPoolsKeeps(s, WithSlot(Put(s, x), w, slot'), w, slot', x, WithKeepalive(w));
  }

  lemma KeepaliveSendKeeps(s: Plane, w: SlotId)
    requires OwnershipInv(s) && Enabled(s, Helper(w, KeepaliveSend))
    ensures OwnershipInv(Apply(s, Helper(w, KeepaliveSend)))
  {
    if |s.slots[w].prioCh| < PRIO_CAP {
      KeepaliveQueued(s, w);
    } else {
      KeepaliveDropped(s, w);
    }
  }

  lemma ReceiveKeeps(s: Plane, w: SlotId, size: nat, from: BufId)
    requires OwnershipInv(s) && Enabled(s, Helper(w, Receive(size, from)))
    ensures OwnershipInv(Apply(s, Helper(w, Receive(size, from))))
  {
    var slot' := s.slots[w].(reader := Holding(from));
    GetMoves(s, from, size);
    SlotShiftKeeps(s, Apply(s, Helper(w, Receive(size, from))), w, slot', from, InPool, WithReader(w));
  }

  lemma ReceiveSendKeeps(s: Plane, w: SlotId)
    requires OwnershipInv(s) && Enabled(s, Helper(w, ReceiveSend))
    ensures OwnershipInv(Apply(s, Helper(w, ReceiveSend)))
  {
    var slot := s.slots[w];
    var x, slot' := slot.reader.buf, slot.(reader := Idle);
    var s' := Apply(s, Helper(w, ReceiveSend));
    assert At(s, x, WithReader(w));
    if |s.returnCh| < RETURN_CAP {
      assert !At(s, x, InReturn);
      PushHas(s.returnCh, Item(x, NOT_READ, 0, 0));
      SlotShiftKeeps(s, s', w, slot', x, WithReader(w), InReturn);
    } else {
      NotPooled(s, x, WithReader(w));
      PutMoves(s, x);
      SlotShiftKeeps(s, s', w, slot', x, WithReader(w), InPool);
    }
  }

  lemma ReceiveCancelledKeeps(s: Plane, w: SlotId)
    requires OwnershipInv(s) && Enabled(s, Helper(w, ReceiveCancelled))
    ensures OwnershipInv(Apply(s, Helper(w, ReceiveCancelled)))
  {
    var slot := s.slots[w];
    var x, slot' := slot.reader.buf, slot.(reader := Exited, cancelled := true);
    assert At(s, x, WithReader(w));
    NotPooled(s, x, WithReader(w));
    PutMoves(s, x);
    SlotShiftKeeps(s, Apply(s, Helper(w, ReceiveCancelled)), w, slot', x, WithReader(w), InPool);
  }

  lemma HelperKeeps(s: Plane, w: SlotId, hs: HelperStep)
    requires OwnershipInv(s) && Enabled(s, Helper(w, hs))
    ensures OwnershipInv(Apply(s, Helper(w, hs)))
  {
    match hs
    case KeepaliveTick(size, from) => KeepaliveTickKeeps(s, w, size, from);
    case KeepaliveSend => KeepaliveSendKeeps(s, w);
    case KeepaliveExit => SlotUnmoved(s, w, s.slots[w].(keepalive := Exited));
    case Receive(size, from) => ReceiveKeeps(s, w, size, from);
    case ReceiveSend => ReceiveSendKeeps(s, w);
    case ReceiveCancelled => ReceiveCancelledKeeps(s, w);
    case ReceiveExit => SlotUnmoved(s, w, s.slots[w].(reader := Exited, cancelled := true));
    case Cancel => SlotUnmoved(s, w, s.slots[w].(cancelled := true));
  }

  // The dispatcher

  lemma ReadKeeps(s: Plane, size: nat, from: BufId)
    requires OwnershipInv(s) && Enabled(s, Read(size, from))
    ensures OwnershipInv(Apply(s, Read(size, from)))
  {
    GetMoves(s, from, size);
    ShiftKeeps(s, Apply(s, Read(size, from)), from, InPool, WithDispatcher);
  }

  /** The dispatcher's packet goes back to the pool. */
  lemma GiveUpKeeps(s: Plane, s': Plane)
    requires OwnershipInv(s) && !s.disp.Waiting? && s'.disp.Waiting?
    requires var t := Put(s, s.disp.pkt.buf);
             && s'.slots == s.slots && s'.next == t.next && s'.returnCh == t.returnCh && s'.pool == t.pool
             && s'.caps == t.caps && s'.evicted == t.evicted && s'.writeLoop == t.writeLoop
    ensures OwnershipInv(s')
  {
    var x := s.disp.pkt.buf;
    assert At(s, x, WithDispatcher);
    NotPooled(s, x, WithDispatcher);
    PutMoves(s, x);
    ShiftKeeps(s, s', x, WithDispatcher, InPool);
  }

  /** The dispatcher keeps its packet, or has none; only its own bookkeeping changed. */
  lemma BookkeepingKeeps(s: Plane, s': Plane)
    requires OwnershipInv(s) && s'.slots == s.slots && s'.pool == s.pool && s'.caps == s.caps && s'.next == s.next
    requires s'.evicted == s.evicted && s'.returnCh == s.returnCh && s'.writeLoop == s.writeLoop
    requires s'.disp == s.disp || (!s.disp.Waiting? && !s'.disp.Waiting? && s'.disp.pkt == s.disp.pkt)
    ensures OwnershipInv(s')
  {
    assert Unmoved(s, s');
    UnmovedKeeps(s, s');
  }

  lemma LockKeeps(s: Plane, now: int)
    requires OwnershipInv(s) && Enabled(s, Lock(now))
    ensures OwnershipInv(Apply(s, Lock(now)))
  {
    if s.workers == [] {
      GiveUpKeeps(s, Apply(s, Lock(now)));
    } else {
      BookkeepingKeeps(s, Apply(s, Lock(now)));
    }
  }

  lemma ProbePrioKeeps(s: Plane)
    requires OwnershipInv(s) && Enabled(s, Probe) && s.disp.ProbePrio?
    ensures OwnershipInv(Apply(s, Probe))
  {
    var x, w := s.disp.pkt.buf, s.workers[Probed(s)];
    var slot := s.slots[w];
    if |slot.prioCh| < PRIO_CAP {
      assert At(s, x, WithDispatcher);
      assert !At(s, x, InPrio(w));
      PushHas(slot.prioCh, s.disp.pkt.(stamp := slot.sendDeqs));
      SlotShiftKeeps(s, Apply(s, Probe), w, PushPrio(slot, s.disp.pkt), x, WithDispatcher, InPrio(w));
    } else {
      BookkeepingKeeps(s, Apply(s, Probe));
    }
  }

  lemma ProbeSendKeeps(s: Plane)
    requires OwnershipInv(s) && Enabled(s, Probe) && s.disp.ProbeSend?
    ensures OwnershipInv(Apply(s, Probe))
  {
    var x, w := s.disp.pkt.buf, s.workers[Probed(s)];
    var slot := s.slots[w];
    if |slot.sendCh| < SEND_CAP {
      assert At(s, x, WithDispatcher);
      assert !At(s, x, InSend(w));
      PushHas(slot.sendCh, s.disp.pkt);
      SlotShiftKeeps(s, Apply(s, Probe), w, PushSend(slot, s.disp.pkt), x, WithDispatcher, InSend(w));
    } else if s.disp.i + 1 < |s.workers| {
      BookkeepingKeeps(s, Apply(s, Probe));
    } else {
      GiveUpKeeps(s, Apply(s, Probe));
    }
  }

  // The rest

  lemma JoinKeeps(s: Plane, w: SlotId)
    requires OwnershipInv(s) && Enabled(s, Join(w))
    ensures OwnershipInv(Apply(s, Join(w)))
  {
    var s' := Apply(s, Join(w));
    assert Unmoved(s, s');
    UnmovedKeeps(s, s');
  }

  lemma ReturnTakeKeeps(s: Plane)
    requires OwnershipInv(s) && Enabled(s, ReturnTake)
    ensures OwnershipInv(Apply(s, ReturnTake))
  {
    var x := s.returnCh[0].buf;
    PopHas(s.returnCh);
    assert At(s, x, InReturn);
    ShiftKeeps(s, Apply(s, ReturnTake), x, InReturn, WithWriteLoop);
  }

  lemma ReturnDoneKeeps(s: Plane)
    requires OwnershipInv(s) && Enabled(s, ReturnDone)
    ensures OwnershipInv(Apply(s, ReturnDone))
  {
    var x := s.writeLoop.buf;
    assert At(s, x, WithWriteLoop);
    NotPooled(s, x, WithWriteLoop);
    PutMoves(s.(writeLoop := Idle), x);
    ShiftKeeps(s, Apply(s, ReturnDone), x, WithWriteLoop, InPool);
  }

  lemma EvictKeeps(s: Plane, b: BufId)
    requires OwnershipInv(s) && Enabled(s, Evict(b))
    ensures OwnershipInv(Apply(s, Evict(b)))
  {
    assert At(s, b, InPool);
    ShiftKeeps(s, Apply(s, Evict(b)), b, InPool, Evicted);
  }

  lemma StepKeepsOwnership(s: Plane, st: Step)
    requires OwnershipInv(s) && Enabled(s, st)
    ensures OwnershipInv(Apply(s, st))
  {
    match st
    case Read(size, from) => ReadKeeps(s, size, from);
    case Lock(now) => LockKeeps(s, now);
    case Probe =>
      if s.disp.ProbePrio? {
        ProbePrioKeeps(s);
      } else {
        ProbeSendKeeps(s);
      }
    case Join(w) => JoinKeeps(s, w);
    case Leave(w) => BookkeepingKeeps(s, Apply(s, st));
    case Writer(w, ws) => WriterKeeps(s, w, ws);
    case Helper(w, hs) => HelperKeeps(s, w, hs);
    case ReturnTake => ReturnTakeKeeps(s);
    case ReturnDone => ReturnDoneKeeps(s);
    case Evict(b) => EvictKeeps(s, b);
  }

  /**
   Over every interleaving: each buffer ever allocated is in exactly one place,
   no place holds it twice, and every buffer is long enough for any packet.
   */
  lemma {:induction false} EveryBufferHasOnePlace(run: seq<Step>)
    requires Legal(run)
    ensures var s := After(run);
            && (forall b: BufId :: b < s.next <==> Somewhere(s, b))
            && (forall b: BufId, p, q :: At(s, b, p) && At(s, b, q) ==> p == q)
            && Distinct(s) && Roomy(s)
            && OwnershipInv(s)
  {
    if run != [] {
      EveryBufferHasOnePlace(run[..|run| - 1]);
      StepKeepsOwnership(After(run[..|run| - 1]), run[|run| - 1]);
    }
  }

  /** The pool never hands out a buffer that is too short, so getPktBuf never allocates a replacement. */
  lemma PoolIsAlwaysLongEnough(run: seq<Step>, from: BufId, size: nat)
    requires Legal(run) && CanGet(After(run), from) && size <= POOL_BUF
    ensures !TooShort(After(run), from, size)
  {
    EveryBufferHasOnePlace(run);
    GetMoves(After(run), from, size);
  }

  /** From slot to slot', nothing was taken from the queues, and only members of the dispatcher got anything. */
  ghost predicate Abandoned(slot: Slot, slot': Slot, member: bool) {
    && slot'.writer.Done?
    && slot.sendCh <= slot'.sendCh && slot.prioCh <= slot'.prioCh
    && (!member && slot.keepalive.Exited? ==>
        slot'.sendCh == slot.sendCh && slot'.prioCh == slot.prioCh && slot'.keepalive.Exited?)
  }

  lemma ProbeAbandons(s: Plane, w: SlotId)
    requires Enabled(s, Probe) && w in s.slots && s.slots[w].writer.Done?
    ensures w in Apply(s, Probe).slots && Abandoned(s.slots[w], Apply(s, Probe).slots[w], w in s.workers)
  {
    var v, s' := s.workers[Probed(s)], Apply(s, Probe);
    assert s'.slots == s.slots
        || s'.slots == s.slots[v := PushPrio(s.slots[v], s.disp.pkt)]
        || s'.slots == s.slots[v := PushSend(s.slots[v], s.disp.pkt)];
  }

  lemma HelperSlotAbandons(s: Plane, slot: Slot, hs: HelperStep, b: BufId, member: bool)
    requires HelperCan(s, slot, hs) && slot.writer.Done?
    ensures Abandoned(slot, HelperNext(slot, hs, b), member)
  {}

  lemma HelperAbandons(s: Plane, v: SlotId, hs: HelperStep, w: SlotId)
    requires Enabled(s, Helper(v, hs)) && w in s.slots && s.slots[w].writer.Done?
    ensures w in ApplyHelper(s, v, hs).slots
    ensures Abandoned(s.slots[w], ApplyHelper(s, v, hs).slots[w], w in s.workers)
  {
    var (t, b) := HelperEffect(s, s.slots[v], hs);
    assert t.slots == s.slots;
    if v == w {
      HelperSlotAbandons(s, s.slots[v], hs, b, w in s.workers);
    }
  }

  /** One step after a slot's writer has drained. */
  lemma StepAbandons(s: Plane, st: Step, w: SlotId)
    requires Enabled(s, st) && w in s.slots && s.slots[w].writer.Done?
    ensures w in Apply(s, st).slots && Abandoned(s.slots[w], Apply(s, st).slots[w], w in s.workers)
  {
    match st
    case Probe => ProbeAbandons(s, w);
    case Helper(v, hs) => HelperAbandons(s, v, hs, w);
    case _ =>
  }

  /** A slot that has left the dispatcher does not come back: only new slots join. */
  lemma StepKeepsOut(s: Plane, st: Step, w: SlotId)
    requires Enabled(s, st) && w in s.slots && w !in s.workers
    ensures w !in Apply(s, st).workers
  {
    if st.Leave? {
      var rest := Without(s.workers, st.w);
      assert w in rest ==> w in multiset(rest);
      assert w in multiset(s.workers) ==> w in s.workers;
    }
  }

  lemma AbandonedChain(a: Slot, b: Slot, c: Slot, first: bool, second: bool)
    requires Abandoned(a, b, first) && Abandoned(b, c, second) && (second ==> first)
    ensures Abandoned(a, c, first)
  {}

  /** Between two states, nothing was taken from the queues of w, and nothing entered them if it was out already. */
  ghost predicate AbandonedSince(s: Plane, t: Plane, w: SlotId) {
    && w in s.slots && w in t.slots && (w in t.workers ==> w in s.workers)
    && Abandoned(s.slots[w], t.slots[w], w in s.workers)
  }

  lemma OneMoreStepAbandons(s: Plane, t: Plane, st: Step, w: SlotId)
    requires AbandonedSince(s, t, w) && Enabled(t, st)
    ensures AbandonedSince(s, Apply(t, st), w)
  {
    StepAbandons(t, st, w);
    AbandonedChain(s.slots[w], t.slots[w], Apply(t, st).slots[w], w in s.workers, w in t.workers);
    if w !in t.workers {
      StepKeepsOut(t, st, w);
    }
  }

  /**
   Once a slot's writer has drained, nothing ever leaves its queues any more, and
   once the slot has left the dispatcher and its keepalive is gone too, nothing ever
   enters them: what is in them is abandoned for good.
   */
  lemma {:induction false} DrainedSlotIsAbandoned(run: seq<Step>, n: nat, w: SlotId)
    requires n <= |run| && Legal(run) && Legal(run[..n])
    requires w in After(run[..n]).slots && After(run[..n]).slots[w].writer.Done?
    ensures AbandonedSince(After(run[..n]), After(run), w)
    decreases |run|
  {
    if |run| == n {
      assert run[..n] == run;
    } else {
      var front := run[..|run| - 1];
      assert front[..n] == run[..n];
      DrainedSlotIsAbandoned(front, n, w);
      OneMoreStepAbandons(After(run[..n]), After(front), run[|run| - 1], w);
    }
  }
}
