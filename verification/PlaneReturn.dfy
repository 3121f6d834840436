/**
 The way back: what becomes of the packets that the sessions' readers receive. An
 observer watches the steps of a run from outside and numbers the packets; the laws
 say that no packet is lost on the way but for the two reasons there are.
 */
module PlaneReturn {
  import opened PacketPlane
  import opened PlaneOvertaking

  /** A packet as its reader received it. */
  datatype Arrival = Arrival(session: SlotId, buf: BufId)

  /** A packet thrown away, with what the reader saw then. */
  datatype Discard = Discard(num: nat, queueLen: nat, cancelled: bool)

  /** What was seen so far; packets are numbered in the order in which they were received. */
  datatype Downlink = Downlink(
    arrivals: seq<Arrival>,
    inHand: map<SlotId, nat>,  // the packet that each reader holds
    queued: seq<nat>,          // in the return channel, oldest first
    taken: seq<nat>,           // taken by the return loop, in order
    written: nat,              // how many of these were given back after the write
    discards: seq<Discard>)
  {
    /** All packets that ever entered the return channel, in that order. */
    function Flow(): seq<nat> {
      taken + queued
    }
  }

  const NOTHING_SEEN := Downlink([], map[], [], [], 0, [])

  function HeldBuf(pc: HelperPc): BufId {
    if pc.Holding? then pc.buf else 0
  }

  /** The observer's record after the reader of w received a packet into b. */
  function Received(d: Downlink, w: SlotId, b: BufId): Downlink {
    d.(arrivals := d.arrivals + [Arrival(w, b)], inHand := d.inHand[w := |d.arrivals|])
  }

  /** A reader parts with its packet: into the channel if that grew, else away. */
  function Parted(d: Downlink, s: Plane, w: SlotId, s': Plane): Downlink {
    if w in d.inHand && w in s.slots then
      var n, rest := d.inHand[w], d.(inHand := d.inHand - {w});
      if |s'.returnCh| > |s.returnCh| then rest.(queued := d.queued + [n])
      else rest.(discards := d.discards + [Discard(n, |s.returnCh|, s.slots[w].cancelled)])
    else
      d
  }

  /** What the observer makes of one step from s to s'. */
  function Observe(d: Downlink, s: Plane, st: Step, s': Plane): Downlink {
    match st
    case Helper(w, hs) =>
      if hs.Receive? && w in s'.slots then
        Received(d, w, HeldBuf(s'.slots[w].reader))
      else if hs.ReceiveSend? || hs.ReceiveCancelled? then Parted(d, s, w, s')
      else d
    case ReturnTake =>
      if d.queued == [] then d else d.(queued := d.queued[1..], taken := d.taken + [d.queued[0]])
    case ReturnDone => d.(written := d.written + 1)
    case _ => d
  }

  function Watch(run: seq<Step>): Downlink
    requires Legal(run)
  {
    if run == [] then NOTHING_SEEN
    else Observe(Watch(run[..|run| - 1]), After(run[..|run| - 1]), run[|run| - 1], After(run))
  }

  // ---------------------------------------------------------------------
  // The laws
  // ---------------------------------------------------------------------

  predicate InHand(d: Downlink, n: nat)
    requires n < |d.arrivals|
  {
    d.arrivals[n].session in d.inHand && d.inHand[d.arrivals[n].session] == n
  }

  predicate Discarded(d: Downlink, n: nat) {
    exists i :: 0 <= i < |d.discards| && d.discards[i].num == n
  }

  predicate ExactlyOne(a: bool, b: bool, c: bool) {
    (a || b || c) && !(a && b) && !(a && c) && !(b && c)
  }

  /** Every packet is in exactly one place: in a reader's hands, on its way or through, or thrown away. */
  ghost predicate Accounted(d: Downlink) {
    && (forall n: nat :: n < |d.arrivals| ==> ExactlyOne(InHand(d, n), n in d.Flow(), Discarded(d, n)))
    && (forall i :: 0 <= i < |d.Flow()| ==> d.Flow()[i] < |d.arrivals|)
    && (forall i :: 0 <= i < |d.discards| ==> d.discards[i].num < |d.arrivals|)
  }

  /** No packet enters the channel twice, and those of one session enter it in the order of reception. */
  ghost predicate InSessionOrder(d: Downlink) {
    forall i, j :: 0 <= i < j < |d.Flow()| && d.Flow()[j] < |d.arrivals| && d.Flow()[i] < |d.arrivals| ==>
      && d.Flow()[i] != d.Flow()[j]
      && (d.arrivals[d.Flow()[i]].session == d.arrivals[d.Flow()[j]].session ==> d.Flow()[i] < d.Flow()[j])
  }

  /** A packet is thrown away only when the channel is full or its session is over. */
  ghost predicate DiscardsJustified(d: Downlink) {
    forall i :: 0 <= i < |d.discards| ==> d.discards[i].queueLen == RETURN_CAP || d.discards[i].cancelled
  }

  /** The channel holds the packets that are queued, in that order. */
  ghost predicate ChannelMatches(s: Plane, d: Downlink) {
    && |s.returnCh| == |d.queued| <= RETURN_CAP
    && forall i :: 0 <= i < |d.queued| ==>
         d.queued[i] < |d.arrivals| && s.returnCh[i].buf == d.arrivals[d.queued[i]].buf
  }

  /** The return loop writes each packet that it takes before it takes the next. */
  ghost predicate LoopMatches(s: Plane, d: Downlink) {
    && |d.taken| == d.written + (if s.writeLoop.Holding? then 1 else 0)
    && (s.writeLoop.Holding? ==>
         d.taken[|d.taken| - 1] < |d.arrivals| && s.writeLoop.buf == d.arrivals[d.taken[|d.taken| - 1]].buf)
  }

  /** A reader holds the packet it received last, and nothing of it that came later is anywhere. */
  ghost predicate ReaderMatches(s: Plane, d: Downlink, w: SlotId) {
    && (w in d.inHand <==> w in s.slots && s.slots[w].reader.Holding?)
    && (w in d.inHand ==>
         && d.inHand[w] < |d.arrivals| && d.arrivals[d.inHand[w]] == Arrival(w, s.slots[w].reader.buf)
         && forall n: nat :: n < |d.arrivals| && d.arrivals[n].session == w ==> n <= d.inHand[w])
  }

  ghost predicate ReturnInv(s: Plane, d: Downlink) {
    && Accounted(d) && InSessionOrder(d) && DiscardsJustified(d)
    && ChannelMatches(s, d) && LoopMatches(s, d) && forall w: SlotId :: ReaderMatches(s, d, w)
  }

  // ---------------------------------------------------------------------
  // The steps
  // ---------------------------------------------------------------------

  /** Where packet m is after the reader of w received a packet. */
  lemma ReceivedPlaces(d: Downlink, w: SlotId, b: BufId, m: nat)
    requires Accounted(d) && w !in d.inHand && m <= |d.arrivals|
    ensures var d' := Received(d, w, b); ExactlyOne(InHand(d', m), m in d'.Flow(), Discarded(d', m))
  {
    var d' := Received(d, w, b);
    assert d'.Flow() == d.Flow() && d'.discards == d.discards;
    if m < |d.arrivals| {
      assert ExactlyOne(InHand(d, m), m in d.Flow(), Discarded(d, m));
      assert d'.arrivals[m] == d.arrivals[m];
      assert InHand(d', m) <==> InHand(d, m);
      assert Discarded(d', m) <==> Discarded(d, m);
    } else {
      assert InHand(d', m) && m !in d.Flow() && !Discarded(d', m);
    }
  }

  lemma ReceivedIsAccounted(d: Downlink, w: SlotId, b: BufId)
    requires Accounted(d) && InSessionOrder(d) && w !in d.inHand
    ensures Accounted(Received(d, w, b)) && InSessionOrder(Received(d, w, b))
  {
    var d' := Received(d, w, b);
    assert d'.Flow() == d.Flow();
    forall m: nat | m < |d'.arrivals| ensures ExactlyOne(InHand(d', m), m in d'.Flow(), Discarded(d', m)) {
      ReceivedPlaces(d, w, b, m);
    }
    assert InSessionOrder(d') by {
      forall i, j | 0 <= i < j < |d.Flow()|
        ensures d.Flow()[i] != d.Flow()[j]
        ensures d'.arrivals[d.Flow()[i]].session == d'.arrivals[d.Flow()[j]].session ==> d.Flow()[i] < d.Flow()[j]
      {
        assert d'.arrivals[d.Flow()[i]] == d.arrivals[d.Flow()[i]];
        assert d'.arrivals[d.Flow()[j]] == d.arrivals[d.Flow()[j]];
      }
    }
  }

  lemma ReceiveObserved(s: Plane, s': Plane, d: Downlink, w: SlotId, b: BufId)
    requires ReturnInv(s, d) && w in s.slots && s.slots[w].reader.Idle?
    requires s'.returnCh == s.returnCh && s'.writeLoop == s.writeLoop
    requires s'.slots == s.slots[w := s.slots[w].(reader := Holding(b))]
    ensures ReturnInv(s', Received(d, w, b))
  {
    var d' := Received(d, w, b);
    assert ReaderMatches(s, d, w);
    ReceivedIsAccounted(d, w, b);
    forall v: SlotId ensures ReaderMatches(s', d', v) {
      assert ReaderMatches(s, d, v);
    }
  }

  lemma PartedObserved(s: Plane, s': Plane, d: Downlink, w: SlotId)
    requires ReturnInv(s, d) && w in s.slots && s.slots[w].reader.Holding?
    requires s'.writeLoop == s.writeLoop && w in s'.slots && !s'.slots[w].reader.Holding?
    requires s'.slots == s.slots[w := s'.slots[w]]
    requires || (|s.returnCh| < RETURN_CAP
                 && exists it: Item :: it.buf == s.slots[w].reader.buf && s'.returnCh == s.returnCh + [it])
             || (s'.returnCh == s.returnCh && (|s.returnCh| == RETURN_CAP || s.slots[w].cancelled))
    ensures ReturnInv(s', Parted(d, s, w, s'))
  {
    assert ReaderMatches(s, d, w);
    var d', n := Parted(d, s, w, s'), d.inHand[w];
    FlowGrows(d, d', n);
    PartedIsAccounted(s, s', d, w);
    forall v: SlotId ensures ReaderMatches(s', d', v) {
      assert ReaderMatches(s, d, v);
    }
  }

  lemma FlowGrows(d: Downlink, d': Downlink, n: nat)
    ensures d'.taken == d.taken && d'.queued == d.queued + [n] ==> d'.Flow() == d.Flow() + [n]
    ensures d'.taken == d.taken && d'.queued == d.queued ==> d'.Flow() == d.Flow()
  {
    assert d.taken + (d.queued + [n]) == d.taken + d.queued + [n];
  }

  lemma PartedIsAccounted(s: Plane, s': Plane, d: Downlink, w: SlotId)
    requires ReturnInv(s, d) && w in s.slots && w in d.inHand
    ensures var d' := Parted(d, s, w, s'); Accounted(d') && InSessionOrder(d')
  {
    assert ReaderMatches(s, d, w);
    var d', n := Parted(d, s, w, s'), d.inHand[w];
    FlowGrows(d, d', n);
    assert ExactlyOne(InHand(d, n), n in d.Flow(), Discarded(d, n));
    forall m: nat | m < |d'.arrivals| ensures ExactlyOne(InHand(d', m), m in d'.Flow(), Discarded(d', m)) {
      assert ExactlyOne(InHand(d, m), m in d.Flow(), Discarded(d, m));
      PartedPlaces(d, d', s, w, s', m);
    }
  }

  /** Where packet m is after the reader of w parted with its packet. */
  lemma PartedPlaces(d: Downlink, d': Downlink, s: Plane, w: SlotId, s': Plane, m: nat)
    requires w in d.inHand && w in s.slots && d' == Parted(d, s, w, s') && m < |d.arrivals|
    requires d.inHand[w] < |d.arrivals| && d.arrivals[d.inHand[w]].session == w
    ensures var n := d.inHand[w];
            && (InHand(d', m) <==> InHand(d, m) && m != n)
            && (m in d'.Flow() <==> m in d.Flow() || (m == n && |s'.returnCh| > |s.returnCh|))
            && (Discarded(d', m) <==> Discarded(d, m) || (m == n && |s'.returnCh| <= |s.returnCh|))
  {
    var n := d.inHand[w];
    FlowGrows(d, d', n);
    if |s'.returnCh| <= |s.returnCh| {
      assert d'.discards[|d.discards|].num == n;
      if Discarded(d, m) {
        var i :| 0 <= i < |d.discards| && d.discards[i].num == m;
        assert d'.discards[i].num == m;
      }
    }
  }

  /** The packets on their way or through stay the same ones when the loop takes the oldest. */
  lemma TakeObserved(s: Plane, d: Downlink)
    requires ReturnInv(s, d) && Enabled(s, ReturnTake)
    ensures ReturnInv(Apply(s, ReturnTake), Observe(d, s, ReturnTake, Apply(s, ReturnTake)))
  {
    var s' := Apply(s, ReturnTake);
    var d' := Observe(d, s, ReturnTake, s');
    assert d.queued == [d.queued[0]] + d.queued[1..];
    assert d'.Flow() == d.Flow();
    forall m: nat | m < |d.arrivals| ensures ExactlyOne(InHand(d', m), m in d'.Flow(), Discarded(d', m)) {
      assert ExactlyOne(InHand(d, m), m in d.Flow(), Discarded(d, m));
    }
    forall v: SlotId ensures ReaderMatches(s', d', v) {
      assert ReaderMatches(s, d, v);
    }
  }

  lemma DoneObserved(s: Plane, d: Downlink)
    requires ReturnInv(s, d) && Enabled(s, ReturnDone)
    ensures ReturnInv(Apply(s, ReturnDone), Observe(d, s, ReturnDone, Apply(s, ReturnDone)))
  {
    var s' := Apply(s, ReturnDone);
    var d' := Observe(d, s, ReturnDone, s');
    assert d'.Flow() == d.Flow();
    forall m: nat | m < |d.arrivals| ensures ExactlyOne(InHand(d', m), m in d'.Flow(), Discarded(d', m)) {
      assert ExactlyOne(InHand(d, m), m in d.Flow(), Discarded(d, m));
    }
    forall v: SlotId ensures ReaderMatches(s', d', v) {
      assert ReaderMatches(s, d, v);
    }
  }

  /** The steps that the return path does not notice. */
  lemma UnnoticedObserved(s: Plane, s': Plane, d: Downlink)
    requires ReturnInv(s, d) && s'.returnCh == s.returnCh && s'.writeLoop == s.writeLoop
    requires forall w: SlotId :: Reading(s, w) == Reading(s', w)
    ensures ReturnInv(s', d)
  {
    forall v: SlotId ensures ReaderMatches(s', d, v) {
      assert ReaderMatches(s, d, v) && Reading(s, v) == Reading(s', v);
    }
  }

  /** What the reader of w holds, if anything. */
  function Reading(s: Plane, w: SlotId): HelperPc {
    if w in s.slots && s.slots[w].reader.Holding? then s.slots[w].reader else Idle
  }

  predicate Noticed(st: Step) {
    || st.ReturnTake? || st.ReturnDone?
    || (st.Helper? && (st.hs.Receive? || st.hs.ReceiveSend? || st.hs.ReceiveCancelled?))
  }

  lemma OthersGoUnnoticed(s: Plane, st: Step, w: SlotId)
    requires Enabled(s, st) && !Noticed(st)
    ensures Apply(s, st).returnCh == s.returnCh && Apply(s, st).writeLoop == s.writeLoop
    ensures Reading(s, w) == Reading(Apply(s, st), w)
  {
    StepEvolves(s, st, w);
  }

  lemma StepObserved(s: Plane, st: Step, d: Downlink)
    requires ReturnInv(s, d) && Enabled(s, st)
    ensures ReturnInv(Apply(s, st), Observe(d, s, st, Apply(s, st)))
  {
    var s' := Apply(s, st);
    if !Noticed(st) {
      forall w: SlotId ensures Reading(s, w) == Reading(s', w) {
        OthersGoUnnoticed(s, st, w);
      }
      OthersGoUnnoticed(s, st, 0);
      UnnoticedObserved(s, s', d);
    } else {
      match st
      case ReturnTake => TakeObserved(s, d);
      case ReturnDone => DoneObserved(s, d);
      case Helper(w, hs) => ReaderObserved(s, w, hs, d);
    }
  }

  lemma ReaderObserved(s: Plane, w: SlotId, hs: HelperStep, d: Downlink)
    requires ReturnInv(s, d) && Enabled(s, Helper(w, hs)) && Noticed(Helper(w, hs))
    ensures ReturnInv(Apply(s, Helper(w, hs)), Observe(d, s, Helper(w, hs), Apply(s, Helper(w, hs))))
  {
    var s' := Apply(s, Helper(w, hs));
    if hs.Receive? {
      ReceiveObserved(s, s', d, w, HelperEffect(s, s.slots[w], hs).1);
    } else {
      PartedObserved(s, s', d, w);
    }
  }

  lemma LastStepObserved(run: seq<Step>, d: Downlink)
    requires Legal(run) && run != [] && ReturnInv(After(run[..|run| - 1]), d)
    ensures ReturnInv(After(run), Observe(d, After(run[..|run| - 1]), run[|run| - 1], After(run)))
  {
    StepObserved(After(run[..|run| - 1]), run[|run| - 1], d);
  }

  /**
   In every reachable state each packet that any reader received is in exactly one place:
   in that reader's hands, queued or taken for the device, or thrown away with the
   channel full or the session over. Those of one session go through in their order.
   */
  lemma {:induction false} NothingIsLostOnTheWayBack(run: seq<Step>)
    requires Legal(run)
    ensures ReturnInv(After(run), Watch(run))
  {
    if run != [] {
      NothingIsLostOnTheWayBack(run[..|run| - 1]);
      LastStepObserved(run, Watch(run[..|run| - 1]));
    }
  }
}
