/**
 The cursor walks round the ring: it moves on by one worker for every chunk that ends,
 whatever ended it, and only a packet that had to go to another worker takes it elsewhere.
 */
module RingWalk {
  import opened Arithmetic
  import opened Cursors
  import opened PlaneDispatch
  import opened PacketPlane

  function One(b: bool): nat {
    if b then 1 else 0
  }

  /** More than 10 ms have passed since the packet before. */
  predicate LongSilence(c: Cursor, now: int) {
    c.lastPktTime > 0 && now > c.lastPktTime + 10
  }

  /** The running chunk began 15 ms ago or earlier. */
  predicate LongChunk(c: Cursor, now: int) {
    c.chunkStartTs != 0 && now >= c.chunkStartTs + 15
  }

  /** The running chunk ends before the packet is queued; a priority queue does not care for its age. */
  predicate Interrupted(c: Cursor, now: int, out: Outcome) {
    LongSilence(c, now) || (!out.Prio? && LongChunk(c, now))
  }

  /** The worker whose turn it is for a packet read at now. */
  function Due(c: Cursor, nw: nat, now: int, out: Outcome): nat
    requires nw > 0
  {
    (c.rrIndex + One(Interrupted(c, now, out))) % nw
  }

  /** The packet was queued with a worker whose turn it was not. */
  predicate Fallback(c: Cursor, nw: nat, e: Event)
    requires e.Dispatch? && nw > 0
  {
    e.out.Data? && e.out.worker != Due(c, nw, e.now, e.out)
  }

  /** How many data packets the chunk has once this one has been dealt with, if it goes on. */
  function Carried(c: Cursor, now: int, out: Outcome): nat {
    (if Interrupted(c, now, out) then 0 else c.rrCount) + One(out.Data?)
  }

  /** With this packet its chunk has all that it may have, or the packet was dropped. */
  predicate Complete(c: Cursor, nw: nat, e: Event)
    requires e.Dispatch? && nw > 0
  {
    || e.out.Dropped?
    || (e.out.Data? && !Fallback(c, nw, e) && Carried(c, e.now, e.out) >= ChunkSizeFor(e.size))
  }

  /** How many chunks the packet ends. */
  function Ended(c: Cursor, nw: nat, e: Event): nat
    requires e.Dispatch? && nw > 0
  {
    One(Interrupted(c, e.now, e.out)) + One(Fallback(c, nw, e) || Complete(c, nw, e))
  }

  /** What one packet does to the cursor. */
  ghost predicate Walks(c: Cursor, c': Cursor, nw: nat, e: Event)
    requires e.Dispatch? && nw > 0
  {
    && c'.rrIndex == (if Fallback(c, nw, e) then e.out.worker else (c.rrIndex + Ended(c, nw, e)) % nw)
    && c'.rrCount == (if Fallback(c, nw, e) then 1 else if Complete(c, nw, e) then 0 else Carried(c, e.now, e.out))
    && c'.lastPktTime == e.now
    && c'.chunkStartTs ==
       if || Interrupted(c, e.now, e.out)
          || (e.out.Data? && (Fallback(c, nw, e) || Complete(c, nw, e)))
          || (!e.out.Prio? && c.chunkStartTs == 0)
       then e.now else c.chunkStartTs
  }

  /** One step after k steps is k + 1 steps. */
  lemma NextAfter(i: nat, k: nat, n: nat)
    requires 0 < n
    ensures Next((i + k) % n, n) == (i + k + 1) % n
  {
    ModAdd(i + k, 1, n);
    assert (i + k) % n < n;
  }

  lemma NoSteps(i: nat, n: nat)
    requires i < n
    ensures (i + 0) % n == i
  {
    DivModUnique(i, n, 0, i);
  }

  /** The cursor when the packet is about to be queued. */
  lemma AimedAt(c: Cursor, nw: nat, now: int, out: Outcome)
    requires nw > 0 && c.rrIndex < nw
    ensures var a := if out.Prio? then AfterPause(c, nw, now) else Aimed(c, nw, now);
            && a.rrIndex == Due(c, nw, now, out) < nw
            && a.rrCount + One(out.Data?) == Carried(c, now, out)
            && a.lastPktTime == now
            && a.chunkStartTs ==
               if Interrupted(c, now, out) || (!out.Prio? && c.chunkStartTs == 0) then now else c.chunkStartTs
  {
    NoSteps(c.rrIndex, nw);
    NextAfter(c.rrIndex, 0, nw);
  }

  lemma TrackAimed(t: Track, now: int, out: Outcome)
    requires t.nw > 0
    ensures |(if out.Prio? then PauseTrack(t, now) else AimTrack(t, now)).closed|
         == |t.closed| + One(Interrupted(t.cur, now, out))
  {}

  lemma AfterSendMoves(a: Cursor, nw: nat, now: int, size: nat, w: nat)
    requires a.rrIndex < nw && w < nw
    ensures var s, full := AfterSend(a, nw, now, size, w), a.rrCount + 1 >= ChunkSizeFor(size);
            && s.rrIndex == (if w != a.rrIndex then w else if full then Next(a.rrIndex, nw) else a.rrIndex)
            && s.rrCount == (if w != a.rrIndex then 1 else if full then 0 else a.rrCount + 1)
            && s.lastPktTime == a.lastPktTime
            && s.chunkStartTs == if w != a.rrIndex || full then now else a.chunkStartTs
  {}

  lemma PrioMoves(t: Track, e: Event)
    requires e.Dispatch? && e.out.Prio? && Admissible(t, e) && InRing(t.cur, t.nw)
    ensures |Advance(t, e).closed| == |t.closed| + Ended(t.cur, t.nw, e)
    ensures Walks(t.cur, Advance(t, e).cur, t.nw, e)
  {
    AimedAt(t.cur, t.nw, e.now, e.out);
    TrackAimed(t, e.now, e.out);
  }

  lemma DropMoves(t: Track, e: Event)
    requires e.Dispatch? && e.out.Dropped? && Admissible(t, e) && InRing(t.cur, t.nw)
    ensures |Advance(t, e).closed| == |t.closed| + Ended(t.cur, t.nw, e)
    ensures Walks(t.cur, Advance(t, e).cur, t.nw, e)
  {
    AimedAt(t.cur, t.nw, e.now, e.out);
    TrackAimed(t, e.now, e.out);
    NextAfter(t.cur.rrIndex, One(Interrupted(t.cur, e.now, e.out)), t.nw);
  }

  lemma DataEnds(t: Track, e: Event)
    requires e.Dispatch? && e.out.Data? && Admissible(t, e) && InRing(t.cur, t.nw)
    ensures |Advance(t, e).closed| == |t.closed| + Ended(t.cur, t.nw, e)
  {
    AimedAt(t.cur, t.nw, e.now, e.out);
    TrackAimed(t, e.now, e.out);
  }

  lemma DataMoves(t: Track, e: Event)
    requires e.Dispatch? && e.out.Data? && Admissible(t, e) && InRing(t.cur, t.nw)
    ensures Walks(t.cur, Advance(t, e).cur, t.nw, e)
  {
    AimedAt(t.cur, t.nw, e.now, e.out);
    AfterSendMoves(Aimed(t.cur, t.nw, e.now), t.nw, e.now, e.size, e.out.worker);
    NextAfter(t.cur.rrIndex, One(Interrupted(t.cur, e.now, e.out)), t.nw);
  }

  /**
   One packet moves the cursor forward by as many workers as it ends chunks, unless it was
   queued with another worker: then the cursor goes to that one.
   */
  lemma PacketMovesCursor(t: Track, e: Event)
    requires e.Dispatch? && Admissible(t, e) && InRing(t.cur, t.nw)
    ensures |Advance(t, e).closed| == |t.closed| + Ended(t.cur, t.nw, e)
    ensures Walks(t.cur, Advance(t, e).cur, t.nw, e)
  {
    match e.out
    case Prio(_) => PrioMoves(t, e);
    case Dropped => DropMoves(t, e);
    case Data(_) =>
      DataEnds(t, e);
      DataMoves(t, e);
  }

  /** The events from n on are packets, each queued with the worker whose turn it was, or dropped. */
  ghost predicate InTurn(log: seq<Event>, n: nat)
    requires Admitted(log)
  {
    n == |log| || (n < |log|
      && InTurn(log[..|log| - 1], n)
      && log[|log| - 1].Dispatch?
      && !Fallback(Run(log[..|log| - 1]).cur, Run(log[..|log| - 1]).nw, log[|log| - 1]))
  }

  lemma {:induction false} RunStaysInRing(log: seq<Event>)
    requires Admitted(log)
    ensures InRing(Run(log).cur, Run(log).nw)
  {
    if log != [] {
      RunStaysInRing(log[..|log| - 1]);
      AdvanceCursor(Run(log[..|log| - 1]), log[|log| - 1]);
    }
  }

  lemma MoreSteps(i: nat, k: nat, l: nat, n: nat)
    requires 0 < n
    ensures ((i + k) % n + l) % n == (i + (k + l)) % n
  {
    ModAdd(i + k, l, n);
  }

  /** The cursor has moved on from t to t' by as many workers as chunks have ended. */
  ghost predicate InStep(t: Track, t': Track) {
    && t.nw > 0 && t'.nw == t.nw && |t'.closed| >= |t.closed|
    && t'.cur.rrIndex == (t.cur.rrIndex + (|t'.closed| - |t.closed|)) % t.nw
  }

  lemma OneMoreInStep(t: Track, p: Track, e: Event)
    requires InStep(t, p) && e.Dispatch? && Admissible(p, e) && InRing(p.cur, p.nw) && !Fallback(p.cur, p.nw, e)
    ensures InStep(t, Advance(p, e))
  {
    PacketMovesCursor(p, e);
    MoreSteps(t.cur.rrIndex, |p.closed| - |t.closed|, Ended(p.cur, p.nw, e), t.nw);
  }

  /**
   As long as every packet finds room where its turn is, or nowhere, the cursor is at any time as
   many workers on as chunks have ended since, be it by a pause, by age, by their size or by a drop.
   */
  lemma {:induction false} CursorWalksTheRing(log: seq<Event>, n: nat)
    requires Admitted(log) && n <= |log| && InTurn(log, n) && Admitted(log[..n]) && Run(log[..n]).nw > 0
    ensures InStep(Run(log[..n]), Run(log))
  {
    if n == |log| {
      assert log[..n] == log;
      RunStaysInRing(log);
      NoSteps(Run(log).cur.rrIndex, Run(log).nw);
    } else {
      var prefix, e := log[..|log| - 1], log[|log| - 1];
      assert prefix[..n] == log[..n];
      CursorWalksTheRing(prefix, n);
      RunStaysInRing(prefix);
      OneMoreInStep(Run(log[..n]), Run(prefix), e);
    }
  }

  /** The same for the plane, whose dispatcher probes while everyone else goes on. */
  lemma InterleavedCursorWalksTheRing(run: seq<Step>, log: seq<Event>, n: nat)
    requires Legal(run) && !After(run).disp.Locked() && log == After(run).log && n <= |log|
    requires Admitted(log) && InTurn(log, n) && Admitted(log[..n]) && Run(log[..n]).nw > 0
    ensures InStep(Run(log[..n]), Run(log)) && Run(log).cur == After(run).cur && Run(log).nw == |After(run).workers|
  {
    LogAccountsForCursor(run);
    CursorWalksTheRing(log, n);
  }

  lemma LogAccountsForCursor(run: seq<Step>)
    requires Legal(run) && !After(run).disp.Locked()
    ensures Recorded(After(run).log, After(run).cur, |After(run).workers|)
  {
    DispatchInvHolds(run);
  }
}
