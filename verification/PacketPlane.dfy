/**
 The packet plane as a transition system. The dispatcher, each session's
 writer, keepalive and reader, and the return loop each take their own steps,
 so the state between any two of them can be observed and disturbed. In
 particular the dispatcher holds its mutex over many steps, one for every queue
 it probes, and the writer can be caught between its two selects.
 */
module PacketPlane {
  import opened Arithmetic
  import opened Cursors
  import opened Dispatching

  type BufId = nat
  type SlotId = nat

  const POOL_BUF := 2048
  const RETURN_CAP := 512
  const TUN_READ_BUF := 1600
  const SESSION_READ_BUF := 2000
  const KEEPALIVE_MIN := 25
  const KEEPALIVE_SPREAD := 20

  /**
   A packet in a queue. num is its place in the order of reads, or NOT_READ
   for a keepalive; stamp is how many packets had left the slot's data queue when this
   one entered the priority queue.
   */
  datatype Item = Item(buf: BufId, num: int, size: nat, stamp: nat)

  const NOT_READ := -1

  datatype WriterPc =
    | Top                  // before the first select
    | Between              // found the priority queue empty, before the second select
    | Writing(buf: BufId)  // holds a packet
    | DrainPrio
    | DrainSend
    | Done

  datatype HelperPc = Idle | Holding(buf: BufId) | Exited

  datatype Slot = Slot(
    sendCh: seq<Item>,
    prioCh: seq<Item>,
    writer: WriterPc,
    keepalive: HelperPc,
    reader: HelperPc,
    cancelled: bool,
    sendDeqs: nat,
    sendIn: seq<int>, sendOut: seq<int>,
    prioIn: seq<int>, prioOut: seq<int>)
  {
    predicate Live() {
      writer.Top? || writer.Between? || writer.Writing?
    }
  }

  const NEW_SLOT := Slot([], [], Top, Idle, Idle, false, 0, [], [], [], [])

  datatype DispatcherPc =
    | Waiting
    | Fetched(pkt: Item)
    | ProbePrio(pkt: Item, now: int, entry: Cursor, i: nat, prioFull: set<SlotId>)
    | ProbeSend(pkt: Item, now: int, entry: Cursor, i: nat, prioFull: set<SlotId>, sendFull: set<SlotId>)
  {
    /** The dispatcher has its mutex. */
    predicate Locked() {
      ProbePrio? || ProbeSend?
    }
  }

  /** What became of a packet that was read. */
  datatype Fate = InFlight | Unserved | Lost | ToSend(w: SlotId) | ToPrio(w: SlotId)

  /** The queues that a dropped packet had found full. */
  datatype Drop = Drop(num: int, size: nat, members: seq<SlotId>, prioFull: set<SlotId>, sendFull: set<SlotId>)

  datatype Plane = Plane(
    pool: multiset<BufId>,
    evicted: set<BufId>,
    caps: map<BufId, nat>,
    next: nat,
    disp: DispatcherPc,
    workers: seq<SlotId>,
    cur: Cursor,
    slots: map<SlotId, Slot>,
    returnCh: seq<Item>,
    writeLoop: HelperPc,
    log: seq<Event>,
    fates: seq<Fate>,
    sent: nat,
    dropped: nat,
    unserved: nat,
    drops: seq<Drop>)

  const INITIAL := Plane(multiset{}, {}, map[], 0, Waiting, [], START, map[], [], Idle, [], [], 0, 0, 0, [])

  // ---------------------------------------------------------------------
  // The buffer pool
  // ---------------------------------------------------------------------

  /** A buffer that nobody has used before. */
  function Allocate(s: Plane, cap: nat): Plane {
    s.(next := s.next + 1, caps := s.caps[s.next := cap])
  }

  predicate CanGet(s: Plane, from: BufId) {
    from in s.pool || from == s.next
  }

  /** Nothing but the pool and the set of allocated buffers changed. */
  predicate OnlyPool(s: Plane, t: Plane) {
    && t.disp == s.disp && t.workers == s.workers && t.cur == s.cur && t.slots == s.slots
    && t.returnCh == s.returnCh && t.writeLoop == s.writeLoop && t.log == s.log && t.fates == s.fates
    && t.sent == s.sent && t.dropped == s.dropped && t.unserved == s.unserved && t.drops == s.drops
  }

  /** The pool hands out `from`, or allocates when from is the next unused buffer. */
  function Take(s: Plane, from: BufId): Plane
    requires CanGet(s, from)
  {
    if from in s.pool then s.(pool := s.pool - multiset{from}) else Allocate(s, POOL_BUF)
  }

  /** The pool's answer is too short for the packet. */
  predicate TooShort(s: Plane, from: BufId, size: nat)
    requires CanGet(s, from)
  {
    var t := Take(s, from);
    from in t.caps && t.caps[from] < size
  }

  /** getPktBuf: the state after the pool answered, and the buffer that was obtained. */
  function Get(s: Plane, from: BufId, size: nat): (r: (Plane, BufId))
    requires CanGet(s, from)
    ensures OnlyPool(s, r.0)
  {
    var t := Take(s, from);
    if TooShort(s, from, size) then (Allocate(t.(evicted := t.evicted + {from}), size), t.next)
    else (t, from)
  }

  /** putPktBuf. */
  function Put(s: Plane, b: BufId): (t: Plane)
    ensures OnlyPool(s, t) && t.next == s.next && t.caps == s.caps
  {
    if b in s.caps && s.caps[b] < POOL_BUF then s.(evicted := s.evicted + {b})
    else s.(pool := s.pool + multiset{b})
  }

  // ---------------------------------------------------------------------
  // Steps
  // ---------------------------------------------------------------------

  datatype WriterStep = Select1 | Select2Prio | Select2Send | Select2Done | Written(ok: bool) | Drain

  datatype HelperStep =
    | KeepaliveTick(size: nat, from: BufId)
    | KeepaliveSend
    | KeepaliveExit
    | Receive(size: nat, from: BufId)
    | ReceiveSend
    | ReceiveCancelled
    | ReceiveExit
    | Cancel

  datatype Step =
    | Read(size: nat, from: BufId)
    | Lock(now: int)
    | Probe
    | Join(w: SlotId)
    | Leave(w: SlotId)
    | Writer(w: SlotId, ws: WriterStep)
    | Helper(w: SlotId, hs: HelperStep)
    | ReturnTake
    | ReturnDone
    | Evict(b: BufId)

  predicate WriterCan(slot: Slot, ws: WriterStep) {
    match ws
    case Select1 => slot.writer.Top?
    case Select2Prio => slot.writer.Between? && slot.prioCh != []
    case Select2Send => slot.writer.Between? && slot.sendCh != []
    case Select2Done => slot.writer.Between? && slot.cancelled
    case Written(_) => slot.writer.Writing?
    case Drain => slot.writer.DrainPrio? || slot.writer.DrainSend?
  }

  predicate HelperCan(s: Plane, slot: Slot, hs: HelperStep) {
    match hs
    case KeepaliveTick(size, from) =>
      slot.keepalive.Idle? && CanGet(s, from) && KEEPALIVE_MIN <= size < KEEPALIVE_MIN + KEEPALIVE_SPREAD
    case KeepaliveSend => slot.keepalive.Holding?
    case KeepaliveExit => slot.keepalive.Idle? && slot.cancelled
    case Receive(size, from) => slot.reader.Idle? && CanGet(s, from) && size <= SESSION_READ_BUF
    case ReceiveSend => slot.reader.Holding? && (|s.returnCh| < RETURN_CAP || !slot.cancelled)
    case ReceiveCancelled => slot.reader.Holding? && slot.cancelled
    case ReceiveExit => slot.reader.Idle?
    case Cancel => true
  }

  predicate Enabled(s: Plane, st: Step) {
    match st
    case Read(size, from) => s.disp.Waiting? && size <= TUN_READ_BUF && CanGet(s, from)
    case Lock(_) => s.disp.Fetched?
    case Probe => s.disp.Locked() && ProbeDefined(s)
    case Join(w) => !s.disp.Locked() && w !in s.slots
    case Leave(w) =>
      && !s.disp.Locked() && w in s.workers && w in s.slots
      && s.slots[w].writer.Done? && s.slots[w].keepalive.Exited? && s.slots[w].reader.Exited?
    case Writer(w, ws) => w in s.slots && WriterCan(s.slots[w], ws)
    case Helper(w, hs) => w in s.slots && HelperCan(s, s.slots[w], hs)
    case ReturnTake => s.writeLoop.Idle? && s.returnCh != []
    case ReturnDone => s.writeLoop.Holding?
    case Evict(b) => b in s.pool
  }

  /** The queue about to be probed exists. */
  predicate ProbeDefined(s: Plane)
    requires s.disp.Locked()
  {
    s.disp.i < |s.workers| && s.workers[RingStop(Target(s.cur, |s.workers|), s.disp.i, |s.workers|)] in s.slots
  }

  function Probed(s: Plane): nat
    requires s.disp.Locked() && s.disp.i < |s.workers|
  {
    RingStop(Target(s.cur, |s.workers|), s.disp.i, |s.workers|)
  }

  function WithSlot(s: Plane, w: SlotId, slot: Slot): Plane {
    s.(slots := s.slots[w := slot])
  }

  function Nums(q: seq<Item>): seq<int> {
    if q == [] then [] else (if q[0].num == NOT_READ then [] else [q[0].num]) + Nums(q[1..])
  }

  function PushPrio(slot: Slot, it: Item): Slot {
    slot.(prioCh := slot.prioCh + [it.(stamp := slot.sendDeqs)], prioIn := slot.prioIn + Nums([it]))
  }

  function PushSend(slot: Slot, it: Item): Slot {
    slot.(sendCh := slot.sendCh + [it], sendIn := slot.sendIn + Nums([it]))
  }

  function PopPrio(slot: Slot): Slot
    requires slot.prioCh != []
  {
    slot.(prioCh := slot.prioCh[1..], prioOut := slot.prioOut + Nums([slot.prioCh[0]]))
  }

  function PopSend(slot: Slot): Slot
    requires slot.sendCh != []
  {
    slot.(sendCh := slot.sendCh[1..], sendOut := slot.sendOut + Nums([slot.sendCh[0]]), sendDeqs := slot.sendDeqs + 1)
  }

  /** The dispatcher gives up the mutex with the packet's fate settled. */
  function Finish(s: Plane, pkt: Item, fate: Fate): Plane {
    s.(disp := Waiting, fates := if 0 <= pkt.num < |s.fates| then s.fates[pkt.num := fate] else s.fates)
  }

  function ApplyLock(s: Plane, now: int): Plane
    requires s.disp.Fetched?
  {
    var pkt, nw := s.disp.pkt, |s.workers|;
    if nw == 0 then
      Finish(Put(s, pkt.buf), pkt, Unserved).(unserved := s.unserved + 1)
    else if pkt.size <= PRIO_THRESHOLD then
      s.(cur := AfterPause(s.cur, nw, now), disp := ProbePrio(pkt, now, s.cur, 0, {}))
    else
      s.(cur := Aimed(s.cur, nw, now), disp := ProbeSend(pkt, now, s.cur, 0, {}, {}))
  }

  function ApplyProbePrio(s: Plane): Plane
    requires s.disp.ProbePrio? && ProbeDefined(s)
  {
    var ProbePrio(pkt, now, entry, i, full) := s.disp;
    var nw, x := |s.workers|, Probed(s);
    var w := s.workers[x];
    if |s.slots[w].prioCh| < PRIO_CAP then
      Finish(WithSlot(s, w, PushPrio(s.slots[w], pkt)), pkt, ToPrio(w))
      .(sent := s.sent + 1, log := s.log + [Dispatch(pkt.size, now, Prio(x))])
    else if i + 1 < nw then
      s.(disp := ProbePrio(pkt, now, entry, i + 1, full + {w}))
    else
      s.(cur := AfterDwell(s.cur, nw, now), disp := ProbeSend(pkt, now, entry, 0, full + {w}, {}))
  }

  function ApplyProbeSend(s: Plane): Plane
    requires s.disp.ProbeSend? && ProbeDefined(s)
  {
    var ProbeSend(pkt, now, entry, i, prioFull, full) := s.disp;
    var nw, x := |s.workers|, Probed(s);
    var w := s.workers[x];
    if |s.slots[w].sendCh| < SEND_CAP then
      Finish(WithSlot(s, w, PushSend(s.slots[w], pkt)), pkt, ToSend(w))
      .(sent := s.sent + 1, cur := AfterSend(s.cur, nw, now, pkt.size, x),
        log := s.log + [Dispatch(pkt.size, now, Data(x))])
    else if i + 1 < nw then
      s.(disp := ProbeSend(pkt, now, entry, i + 1, prioFull, full + {w}))
    else
      Finish(Put(s, pkt.buf), pkt, Lost)
      .(dropped := s.dropped + 1, cur := AfterDrop(s.cur, nw), log := s.log + [Dispatch(pkt.size, now, Dropped)],
        drops := s.drops + [Drop(pkt.num, pkt.size, s.workers, prioFull, full + {w})])
  }

  /** What a step of the writer makes of its slot. */
  function WriterNext(slot: Slot, ws: WriterStep): Slot
    requires WriterCan(slot, ws)
  {
    match ws
    case Select1 =>
      if slot.prioCh == [] then slot.(writer := Between) else PopPrio(slot).(writer := Writing(slot.prioCh[0].buf))
    case Select2Prio => PopPrio(slot).(writer := Writing(slot.prioCh[0].buf))
    case Select2Send => PopSend(slot).(writer := Writing(slot.sendCh[0].buf))
    case Select2Done => slot.(writer := DrainPrio)
    case Written(ok) => slot.(writer := if ok then Top else DrainPrio)
    case Drain =>
      if slot.writer.DrainPrio? then
        if slot.prioCh == [] then slot.(writer := DrainSend) else PopPrio(slot)
      else
        if slot.sendCh == [] then slot.(writer := Done, cancelled := true) else PopSend(slot)
  }

  /** The buffers that the writer gives back to the pool with that step. */
  function WriterFrees(slot: Slot, ws: WriterStep): seq<BufId>
    requires WriterCan(slot, ws)
  {
    match ws
    case Written(_) => [slot.writer.buf]
    case Drain =>
      if slot.writer.DrainPrio? then
        if slot.prioCh == [] then [] else [slot.prioCh[0].buf]
      else
        if slot.sendCh == [] then [] else [slot.sendCh[0].buf]
    case _ => []
  }

  function PutAll(s: Plane, bs: seq<BufId>): (t: Plane)
    ensures OnlyPool(s, t)
  {
    if bs == [] then s else Put(s, bs[0])
  }

  /** What a step of the keepalive or the reader makes of its slot; b is the buffer a tick or a receive obtained. */
  function HelperNext(slot: Slot, hs: HelperStep, b: BufId): Slot
    requires hs.KeepaliveSend? ==> slot.keepalive.Holding?
  {
    match hs
    case KeepaliveTick(_, _) => slot.(keepalive := Holding(b))
    case KeepaliveSend =>
      if |slot.prioCh| < PRIO_CAP then PushPrio(slot, Item(slot.keepalive.buf, NOT_READ, 0, 0)).(keepalive := Idle)
      else slot.(keepalive := Idle)
    case KeepaliveExit => slot.(keepalive := Exited)
    case Receive(_, _) => slot.(reader := Holding(b))
    case ReceiveSend => slot.(reader := Idle)
    case ReceiveCancelled => slot.(reader := Exited, cancelled := true)
    case ReceiveExit => slot.(reader := Exited, cancelled := true)
    case Cancel => slot.(cancelled := true)
  }

  /** What the step does outside the slot. */
  function HelperEffect(s: Plane, slot: Slot, hs: HelperStep): (r: (Plane, BufId))
    requires HelperCan(s, slot, hs)
    ensures OnlyPool(s, r.0.(returnCh := s.returnCh))
  {
    match hs
    case KeepaliveTick(size, from) => Get(s, from, size)
    case KeepaliveSend => (if |slot.prioCh| < PRIO_CAP then s else Put(s, slot.keepalive.buf), slot.keepalive.buf)
    case Receive(size, from) => Get(s, from, size)
    case ReceiveSend =>
      (if |s.returnCh| < RETURN_CAP then s.(returnCh := s.returnCh + [Item(slot.reader.buf, NOT_READ, 0, 0)])
       else Put(s, slot.reader.buf), slot.reader.buf)
    case ReceiveCancelled => (Put(s, slot.reader.buf), slot.reader.buf)
    case _ => (s, 0)
  }

  function ApplyHelper(s: Plane, w: SlotId, hs: HelperStep): Plane
    requires w in s.slots && HelperCan(s, s.slots[w], hs)
  {
    var (t, b) := HelperEffect(s, s.slots[w], hs);
    WithSlot(t, w, HelperNext(s.slots[w], hs, b))
  }

  function Apply(s: Plane, st: Step): Plane
    requires Enabled(s, st)
  {
    match st
    case Read(size, from) =>
      var (t, b) := Get(s, from, size);
      t.(disp := Fetched(Item(b, |s.fates|, size, 0)), fates := s.fates + [InFlight])
    case Lock(now) => ApplyLock(s, now)
    case Probe => if s.disp.ProbePrio? then ApplyProbePrio(s) else ApplyProbeSend(s)
    case Join(w) => WithSlot(s, w, NEW_SLOT).(workers := s.workers + [w], log := s.log + [Event.Register])
    case Leave(w) =>
      s.(workers := Without(s.workers, w), cur := AfterUnregister(s.cur, |Without(s.workers, w)|),
         log := s.log + [Event.Unregister(true)])
    case Writer(w, ws) => PutAll(WithSlot(s, w, WriterNext(s.slots[w], ws)), WriterFrees(s.slots[w], ws))
    case Helper(w, hs) => ApplyHelper(s, w, hs)
    case ReturnTake => s.(returnCh := s.returnCh[1..], writeLoop := Holding(s.returnCh[0].buf))
    case ReturnDone => Put(s.(writeLoop := Idle), s.writeLoop.buf)
    case Evict(b) => s.(pool := s.pool - multiset{b}, evicted := s.evicted + {b})
  }

  // ---------------------------------------------------------------------
  // Runs
  // ---------------------------------------------------------------------

  predicate Legal(run: seq<Step>)
    decreases |run|, 0
  {
    run == [] || (Legal(run[..|run| - 1]) && Enabled(After(run[..|run| - 1]), run[|run| - 1]))
  }

  /** The state that a run of steps leads to. */
  function After(run: seq<Step>): Plane
    requires Legal(run)
    decreases |run|, 1
  {
    if run == [] then INITIAL
    else Apply(After(run[..|run| - 1]), run[|run| - 1])
  }
}
