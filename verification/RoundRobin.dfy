/**
 Chunked round robin has a closed form. When nothing forces the cursor to move
 early, packet j of a stream of same-class packets goes to a worker that can be
 written down without running the dispatcher, and every window of nw chunks
 serves each worker equally.
 */
module RoundRobin {
  import opened Arithmetic
  import opened Cursors
  import opened Dispatching

  /** One dispatch: the packet, the queues it found free, and where it went. */
  datatype Call = Call(size: nat, now: int, prioFree: seq<bool>, sendFree: seq<bool>, out: Outcome)

  /**
   What successive dispatches among nw workers are: each takes the route that the
   free queues leave and moves the cursor accordingly, whoever filled or drained the
   queues in between. trail[j] is the cursor that call j starts from.
   */
  ghost predicate Stream(c: Cursor, nw: nat, calls: seq<Call>, trail: seq<Cursor>) {
    && nw > 0 && |trail| == |calls| + 1 && trail[0] == c
    && (forall j :: 0 <= j < |calls| ==> |calls[j].prioFree| == |calls[j].sendFree| == nw)
    && (forall j :: 0 <= j < |calls| ==> Routed(trail[j], calls[j]))
    && (forall j, n :: 0 <= j < |calls| && n == j + 1 ==>
          trail[n] == Settle(trail[j], nw, calls[j].now, calls[j].size, calls[j].out))
  }

  ghost predicate Routed(c: Cursor, call: Call)
    requires 0 < |call.prioFree| == |call.sendFree|
  {
    Route(c, call.now, call.size, call.prioFree, call.sendFree, call.out)
  }

  lemma StreamGrows(c: Cursor, nw: nat, calls: seq<Call>, trail: seq<Cursor>, call: Call)
    requires Stream(c, nw, calls, trail) && |call.prioFree| == |call.sendFree| == nw
    requires Routed(trail[|calls|], call)
    ensures Stream(c, nw, calls + [call], trail + [Settle(trail[|calls|], nw, call.now, call.size, call.out)])
  {}

  /** Each dispatch of the object carries the stream on, as long as only the queues change between calls. */
  method DispatchNext(d: Dispatcher, pkt: Packet, now: int, ghost c: Cursor, ghost calls: seq<Call>,
                      ghost trail: seq<Cursor>)
    returns (v: Verdict, ghost call: Call)
    requires d.Valid() && Stream(c, |d.workers|, calls, trail) && trail[|calls|] == d.Cur()
    modifies d, d.workers
    ensures d.Valid() && d.workers == old(d.workers)
    ensures v == Verdict.Routed(call.out)
    ensures call.size == |pkt| && call.now == now
    ensures call.prioFree == old(d.PrioFree()) && call.sendFree == old(d.SendFree())
    ensures Stream(c, |d.workers|, calls + [call], trail + [d.Cur()])
  {
    ghost var prioFree, sendFree := d.PrioFree(), d.SendFree();
    v := d.Dispatch(pkt, now);
    call := Call(|pkt|, now, prioFree, sendFree, v.out);
    StreamGrows(c, |d.workers|, calls, trail, call);
  }

  /** The packet is not for a priority queue, and w has room for it. */
  predicate HasRoom(call: Call, w: nat) {
    w < |call.sendFree| && call.sendFree[w] && !(call.size <= PRIO_THRESHOLD && AnyFree(call.prioFree))
  }

  /** A packet whose worker has room goes there. */
  lemma RoomMeansTarget(c: Cursor, nw: nat, call: Call)
    requires 0 < nw == |call.prioFree| == |call.sendFree| && Routed(c, call)
    requires HasRoom(call, Target(Aimed(c, nw, call.now), nw))
    ensures call.out == Data(Target(Aimed(c, nw, call.now), nw))
  {
    var w := Target(Aimed(c, nw, call.now), nw);
    assert AnyFree(call.sendFree);
    RingScanIsBijection(w, nw, 0, w);
    if call.out.Data? {
      FirstFreeUnique(call.sendFree, w, call.out.worker, w);
    }
  }

  function Times(calls: seq<Call>): (times: seq<int>)
    ensures |times| == |calls| && forall j :: 0 <= j < |calls| ==> times[j] == calls[j].now
  {
    seq(|calls|, j requires 0 <= j < |calls| => calls[j].now)
  }

  /** Index of the packet that completed the q-th chunk of length k, counting from c0 packets already sent. */
  function Closer(c0: nat, k: nat, q: nat): int {
    q * k - c0 - 1
  }

  lemma CloserInRange(c0: nat, k: nat, j: nat)
    requires c0 < k
    ensures (c0 + j) / k > 0 ==> 0 <= Closer(c0, k, (c0 + j) / k) < j
    ensures j < k - c0 ==> (c0 + j) / k == 0
  {
    var q := (c0 + j) / k;
    assert c0 + j == q * k + (c0 + j) % k;
    assert q > 0 ==> q * k >= k;
    if j < k - c0 {
      DivModUnique(c0 + j, k, 0, c0 + j);
    }
  }

  /** The start time of the chunk that packet j belongs to. */
  function ChunkStart(c: Cursor, times: seq<int>, k: nat, j: nat): int
    requires c.rrCount < k && j < |times|
  {
    CloserInRange(c.rrCount, k, j);
    var q := (c.rrCount + j) / k;
    if q > 0 then times[Closer(c.rrCount, k, q)]
    else if c.chunkStartTs == 0 then times[0]
    else c.chunkStartTs
  }

  /** Neither the pause rule nor the dwell rule fires; all of it is a condition on the arrival times. */
  ghost predicate Steady(c: Cursor, times: seq<int>, k: nat)
    requires c.rrCount < k
  {
    && (forall j :: 0 <= j < |times| ==> 0 < times[j])
    && (|times| > 0 ==> !Paused(c, times[0]))
    && (forall i, j :: 0 <= i < j < |times| && j == i + 1 ==> times[j] - times[i] <= PAUSE_MS)
    && (forall j :: 0 <= j < |times| ==> times[j] - ChunkStart(c, times, k, j) < MAX_DWELL_MS)
  }

  /** The chunk start that is stored once n packets have gone out. */
  function StoredStart(c: Cursor, times: seq<int>, k: nat, n: nat): int
    requires c.rrCount < k && n <= |times|
  {
    CloserInRange(c.rrCount, k, n);
    var q := (c.rrCount + n) / k;
    if q > 0 then times[Closer(c.rrCount, k, q)]
    else if n > 0 && c.chunkStartTs == 0 then times[0]
    else c.chunkStartTs
  }

  /** The worker that the closed form gives packet x, counting from a chunk start at worker r0. */
  function Place(r0: nat, nw: nat, k: nat, x: nat): (w: nat)
    requires nw > 0 && k > 0
    ensures w < nw
  {
    (r0 + x / k) % nw
  }

  /** Every field of the cursor after n packets of a steady stream. */
  ghost predicate OnTrack(t: Cursor, c: Cursor, nw: nat, times: seq<int>, k: nat, n: nat)
    requires nw > 0 && c.rrCount < k && n <= |times|
  {
    && t.rrIndex == Place(c.rrIndex, nw, k, c.rrCount + n)
    && t.rrCount == (c.rrCount + n) % k
    && t.lastPktTime == (if n == 0 then c.lastPktTime else times[n - 1])
    && t.chunkStartTs == StoredStart(c, times, k, n)
  }

  /** The rules leave a cursor that is on track where it is. */
  lemma SteadyAim(t: Cursor, c: Cursor, nw: nat, times: seq<int>, k: nat, n: nat)
    requires nw > 0 && c.rrCount < k && n < |times|
    requires Steady(c, times, k) && OnTrack(t, c, nw, times, k, n)
    ensures Aimed(t, nw, times[n]) == Cursor(t.rrIndex, t.rrCount, times[n], ChunkStart(c, times, k, n))
    ensures t.rrIndex < nw && Target(Aimed(t, nw, times[n]), nw) == t.rrIndex
  {
    CloserInRange(c.rrCount, k, n);
    assert times[n] - ChunkStart(c, times, k, n) < MAX_DWELL_MS;
    assert n > 0 ==> times[n] - times[n - 1] <= PAUSE_MS;
  }

  /** What a send to the aimed worker does to the cursor. */
  lemma SendStep(t: Cursor, nw: nat, now: int, size: nat, a: Cursor)
    requires nw > 0 && a == Aimed(t, nw, now) && a.rrIndex < nw
    ensures Settle(t, nw, now, size, Data(Target(a, nw)))
         == if a.rrCount + 1 >= ChunkSizeFor(size) then Cursor(Next(a.rrIndex, nw), 0, now, now)
            else a.(rrCount := a.rrCount + 1)
  {}

  lemma StoredStartStep(c: Cursor, times: seq<int>, k: nat, n: nat)
    requires c.rrCount < k && n < |times|
    ensures StoredStart(c, times, k, n + 1)
         == if (c.rrCount + n) % k == k - 1 then times[n] else ChunkStart(c, times, k, n)
  {
    CloserInRange(c.rrCount, k, n);
    CloserInRange(c.rrCount, k, n + 1);
    DivModStep(c.rrCount + n, k);
    CloserStep(c.rrCount, k, n);
    assert c.rrCount + (n + 1) == c.rrCount + n + 1;
  }

  /** Sending one packet moves the closed form one packet on. */
  lemma SteadySend(t: Cursor, c: Cursor, nw: nat, times: seq<int>, k: nat, n: nat, size: nat)
    requires nw > 0 && c.rrCount < k && n < |times| && ChunkSizeFor(size) == k
    requires OnTrack(t, c, nw, times, k, n)
    requires Aimed(t, nw, times[n]) == Cursor(t.rrIndex, t.rrCount, times[n], ChunkStart(c, times, k, n))
    ensures OnTrack(Settle(t, nw, times[n], size, Data(Target(Aimed(t, nw, times[n]), nw))), c, nw, times, k, n + 1)
  {
    SendStep(t, nw, times[n], size, Aimed(t, nw, times[n]));
    StoredStartStep(c, times, k, n);
    PlaceStep(c.rrIndex, nw, k, c.rrCount + n);
    DivModStep(c.rrCount + n, k);
    assert c.rrCount + (n + 1) == c.rrCount + n + 1;
  }

  lemma PlaceStep(r0: nat, nw: nat, k: nat, x: nat)
    requires nw > 0 && k > 0
    ensures Place(r0, nw, k, x + 1) == if x % k == k - 1 then Next(Place(r0, nw, k, x), nw) else Place(r0, nw, k, x)
  {
    DivModStep(x, k);
    if x % k == k - 1 {
      ModAdd(r0 + x / k, 1, nw);
      assert r0 + (x + 1) / k == (r0 + x / k) + 1;
    }
  }

  lemma CloserStep(c0: nat, k: nat, n: nat)
    requires c0 < k
    ensures (c0 + n) % k == k - 1 ==> Closer(c0, k, (c0 + n) / k + 1) == n
  {
    var q := (c0 + n) / k;
    DivModEquation(c0 + n, k);
    assert (q + 1) * k == q * k + k;
  }

  /** All packets are of one class, nothing forces the cursor, and the worker in turn has room. */
  ghost predicate Undisturbed(c: Cursor, nw: nat, calls: seq<Call>, k: nat) {
    && c.rrIndex < nw && c.rrCount < k
    && (forall j :: 0 <= j < |calls| ==> ChunkSizeFor(calls[j].size) == k)
    && (forall j :: 0 <= j < |calls| ==> HasRoom(calls[j], Place(c.rrIndex, nw, k, c.rrCount + j)))
    && Steady(c, Times(calls), k)
  }

  lemma {:induction false} StaysOnTrack(c: Cursor, nw: nat, calls: seq<Call>, trail: seq<Cursor>, k: nat, n: nat)
    requires Stream(c, nw, calls, trail) && Undisturbed(c, nw, calls, k) && n <= |calls|
    ensures OnTrack(trail[n], c, nw, Times(calls), k, n)
  {
    if n == 0 {
      DivModUnique(c.rrCount, k, 0, c.rrCount);
      DivModUnique(c.rrIndex, nw, 0, c.rrIndex);
    } else {
      StaysOnTrack(c, nw, calls, trail, k, n - 1);
      GoesToPlace(c, nw, calls, trail, k, n - 1);
      SteadySend(trail[n - 1], c, nw, Times(calls), k, n - 1, calls[n - 1].size);
      assert trail[n] == Settle(trail[n - 1], nw, calls[n - 1].now, calls[n - 1].size, calls[n - 1].out);
    }
  }

  /** From a cursor on track, the packet goes where the closed form says. */
  lemma GoesToPlace(c: Cursor, nw: nat, calls: seq<Call>, trail: seq<Cursor>, k: nat, j: nat)
    requires Stream(c, nw, calls, trail) && Undisturbed(c, nw, calls, k) && j < |calls|
    requires OnTrack(trail[j], c, nw, Times(calls), k, j)
    ensures Aimed(trail[j], nw, calls[j].now)
         == Cursor(trail[j].rrIndex, trail[j].rrCount, calls[j].now, ChunkStart(c, Times(calls), k, j))
    ensures Target(Aimed(trail[j], nw, calls[j].now), nw) == Place(c.rrIndex, nw, k, c.rrCount + j)
    ensures calls[j].out == Data(Target(Aimed(trail[j], nw, calls[j].now), nw))
  {
    SteadyAim(trail[j], c, nw, Times(calls), k, j);
    RoomMeansTarget(trail[j], nw, calls[j]);
  }

  /** Packet j of an undisturbed stream goes to worker (r0 + (c0 + j) / k) mod nw. */
  lemma ClosedForm(c: Cursor, nw: nat, calls: seq<Call>, trail: seq<Cursor>, k: nat, j: nat)
    requires Stream(c, nw, calls, trail) && Undisturbed(c, nw, calls, k) && j < |calls|
    ensures calls[j].out == Data(Place(c.rrIndex, nw, k, c.rrCount + j))
  {
    StaysOnTrack(c, nw, calls, trail, k, j);
    GoesToPlace(c, nw, calls, trail, k, j);
  }

  // ---------------------------------------------------------------------
  // Fairness
  // ---------------------------------------------------------------------

  /** How many of the packets a, ..., a + len - 1 go to w. */
  function Hitting(r0: nat, nw: nat, k: nat, a: nat, len: nat, w: nat): nat
    requires nw > 0 && k > 0
  {
    if len == 0 then 0
    else Hitting(r0, nw, k, a, len - 1, w) + if Place(r0, nw, k, a + len - 1) == w then 1 else 0
  }

  lemma {:induction false} HittingSplits(r0: nat, nw: nat, k: nat, a: nat, m: nat, n: nat, w: nat)
    requires nw > 0 && k > 0
    ensures Hitting(r0, nw, k, a, m + n, w) == Hitting(r0, nw, k, a, m, w) + Hitting(r0, nw, k, a + m, n, w)
  {
    if n > 0 {
      HittingSplits(r0, nw, k, a, m, n - 1, w);
      assert a + (m + n) - 1 == a + m + n - 1;
    }
  }

  /** A part of the b-th chunk goes to one worker as a whole. */
  lemma {:induction false} HittingInChunk(r0: nat, nw: nat, k: nat, b: nat, n: nat, w: nat)
    requires nw > 0 && n <= k && k > 0
    ensures Hitting(r0, nw, k, b * k, n, w) == if (r0 + b) % nw == w then n else 0
  {
    if n > 0 {
      HittingInChunk(r0, nw, k, b, n - 1, w);
      DivModUnique(b * k + n - 1, k, b, n - 1);
    }
  }

  /** Of the first m chunks, m at most the number of workers, w gets k packets if its chunk is among them. */
  lemma {:induction false} HittingChunks(r0: nat, nw: nat, k: nat, m: nat, w: nat)
    requires r0 < nw && k > 0 && m <= nw && w < nw
    ensures m * k >= 0 && Hitting(r0, nw, k, 0, m * k, w) == if RingDistance(r0, w, nw) < m then k else 0
  {
    if m > 0 {
      HittingChunks(r0, nw, k, m - 1, w);
      assert m * k == (m - 1) * k + k;
      HittingSplits(r0, nw, k, 0, (m - 1) * k, k, w);
      HittingInChunk(r0, nw, k, m - 1, k, w);
      RingScanIsBijection(r0, nw, m - 1, w);
    }
  }

  /** Sliding a window of nw * k packets by one changes nobody's share. */
  lemma {:induction false} HittingSlides(r0: nat, nw: nat, k: nat, a: nat, w: nat)
    requires r0 < nw && k > 0 && w < nw
    ensures Hitting(r0, nw, k, a, nw * k, w) == Hitting(r0, nw, k, 0, nw * k, w)
  {
    if a > 0 {
      HittingSlides(r0, nw, k, a - 1, w);
      var len := nw * k;
      ProductAtLeast(nw, k);
      HittingSplits(r0, nw, k, a - 1, 1, len, w);
      HittingSplits(r0, nw, k, a - 1, len, 1, w);
      assert 1 + len == len + 1;
      HittingOne(r0, nw, k, a - 1, w);
      HittingOne(r0, nw, k, a - 1 + len, w);
      PlacePeriod(r0, nw, k, a - 1);
    }
  }

  lemma PlacePeriod(r0: nat, nw: nat, k: nat, x: nat)
    requires nw > 0 && k > 0
    ensures nw * k >= 0 && Place(r0, nw, k, x + nw * k) == Place(r0, nw, k, x)
  {
    ModMultiple(x, nw, k);
    ModMultiple(r0 + x / k, 1, nw);
    assert r0 + (x + nw * k) / k == r0 + x / k + 1 * nw;
  }

  lemma HittingOne(r0: nat, nw: nat, k: nat, x: nat, w: nat)
    requires nw > 0 && k > 0
    ensures Hitting(r0, nw, k, x, 1, w) == if Place(r0, nw, k, x) == w then 1 else 0
  {
    assert Hitting(r0, nw, k, x, 0, w) == 0;
  }

  /** How many of calls[a], ..., calls[a + len - 1] sent their packet to w. */
  function Received(calls: seq<Call>, a: nat, len: nat, w: nat): nat
    requires a + len <= |calls|
  {
    if len == 0 then 0
    else Received(calls, a, len - 1, w) + if calls[a + len - 1].out == Data(w) then 1 else 0
  }

  lemma {:induction false} ReceivedIsHitting(
    calls: seq<Call>, r0: nat, nw: nat, k: nat, c0: nat, a: nat, len: nat, w: nat)
    requires nw > 0 && k > 0 && a + len <= |calls|
    requires forall j :: 0 <= j < |calls| ==> calls[j].out == Data(Place(r0, nw, k, c0 + j))
    ensures Received(calls, a, len, w) == Hitting(r0, nw, k, c0 + a, len, w)
  {
    if len > 0 {
      ReceivedIsHitting(calls, r0, nw, k, c0, a, len - 1, w);
      assert c0 + (a + len - 1) == c0 + a + len - 1;
    }
  }

  lemma AllGoToPlace(c: Cursor, nw: nat, calls: seq<Call>, trail: seq<Cursor>, k: nat)
    requires Stream(c, nw, calls, trail) && Undisturbed(c, nw, calls, k)
    ensures forall j :: 0 <= j < |calls| ==> calls[j].out == Data(Place(c.rrIndex, nw, k, c.rrCount + j))
  {
    forall j | 0 <= j < |calls| ensures calls[j].out == Data(Place(c.rrIndex, nw, k, c.rrCount + j)) {
      ClosedForm(c, nw, calls, trail, k, j);
    }
  }

  lemma ShareOfPlaces(calls: seq<Call>, r0: nat, nw: nat, k: nat, c0: nat, a: nat, w: nat)
    requires r0 < nw && k > 0 && w < nw && a + nw * k <= |calls|
    requires forall j :: 0 <= j < |calls| ==> calls[j].out == Data(Place(r0, nw, k, c0 + j))
    ensures nw * k >= 0 && Received(calls, a, nw * k, w) == k
  {
    ProductAtLeast(nw, k);
    ReceivedIsHitting(calls, r0, nw, k, c0, a, nw * k, w);
    HittingSlides(r0, nw, k, c0 + a, w);
    HittingChunks(r0, nw, k, nw, w);
  }

  /** Any nw * k consecutive packets of an undisturbed stream give every worker exactly k of them. */
  lemma FairShare(c: Cursor, nw: nat, calls: seq<Call>, trail: seq<Cursor>, k: nat, a: nat, w: nat)
    requires Stream(c, nw, calls, trail) && Undisturbed(c, nw, calls, k) && w < nw && a + nw * k <= |calls|
    ensures Received(calls, a, nw * k, w) == k
  {
    AllGoToPlace(c, nw, calls, trail, k);
    ShareOfPlaces(calls, c.rrIndex, nw, k, c.rrCount, a, w);
  }
}
