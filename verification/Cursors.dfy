/**
 The dispatch cursor: which worker the next data packet goes to, and when the
 cursor moves on. These are the decisions that the dispatcher's read loop takes
 while it holds its mutex, separated from the queues they are taken about. What
 the probed queues answered enters as an Outcome, so everything proved here
 holds whatever consumers and keepalives do to the queues between two probes.
 */
module Cursors {
  import opened Arithmetic

  const PAUSE_MS := 10
  const MAX_DWELL_MS := 15
  const PRIO_THRESHOLD := 128
  const MAX_CHUNK := 64

  /** How many packets of that size go to one worker before the next one's turn. */
  function ChunkSizeFor(size: nat): (k: nat)
    ensures k in {1, 3, 8, 24, MAX_CHUNK}
    ensures size > PRIO_THRESHOLD ==> k > 1
  {
    if size > 1100 then 64
    else if size >= 701 then 24
    else if size >= 301 then 8
    else if size >= 101 then 3
    else 1
  }

  /** A bigger packet never gets a shorter chunk. */
  lemma ChunkSizeMonotone(a: nat, b: nat)
    requires a <= b
    ensures ChunkSizeFor(a) <= ChunkSizeFor(b)
  {}

  /** The lengths change just above 100, 300, 700 and 1100 bytes. */
  lemma ChunkLengths(size: nat)
    ensures ChunkSizeFor(size) == 1 <==> size <= 100
    ensures ChunkSizeFor(size) == 3 <==> 100 < size <= 300
    ensures ChunkSizeFor(size) == 8 <==> 300 < size <= 700
    ensures ChunkSizeFor(size) == 24 <==> 700 < size <= 1100
    ensures ChunkSizeFor(size) == 64 <==> 1100 < size
  {}

  datatype Cursor = Cursor(rrIndex: nat, rrCount: nat, lastPktTime: int, chunkStartTs: int)

  const START := Cursor(0, 0, 0, 0)

  /** Where the packet ended up: which priority or data queue took it, or nowhere. */
  datatype Outcome = Prio(worker: nat) | Data(worker: nat) | Dropped

  /** One step round a ring of n workers. */
  function Next(i: nat, n: nat): (r: nat)
    requires n > 0
    ensures r < n && (i < n ==> r == if i + 1 == n then 0 else i + 1)
  {
    if i < n then DivModUnique(i + 1, n, if i + 1 == n then 1 else 0, if i + 1 == n then 0 else i + 1); (i + 1) % n
    else (i + 1) % n
  }

  predicate Paused(c: Cursor, now: int) {
    c.lastPktTime > 0 && now - c.lastPktTime > PAUSE_MS
  }

  /** The cursor once the pause rule has been applied to a packet read at now. */
  function AfterPause(c: Cursor, nw: nat, now: int): Cursor
    requires nw > 0
  {
    if Paused(c, now) then Cursor(Next(c.rrIndex, nw), 0, now, now)
    else c.(lastPktTime := now)
  }

  predicate Dwelled(c: Cursor, now: int) {
    c.chunkStartTs != 0 && now - c.chunkStartTs >= MAX_DWELL_MS
  }

  /** The cursor once the dwell rule has been applied to a packet bound for a data queue. */
  function AfterDwell(c: Cursor, nw: nat, now: int): Cursor
    requires nw > 0
  {
    if c.chunkStartTs == 0 then c.(chunkStartTs := now)
    else if Dwelled(c, now) then Cursor(Next(c.rrIndex, nw), 0, c.lastPktTime, now)
    else c
  }

  /** The cursor at the moment the data queues are probed. */
  function Aimed(c: Cursor, nw: nat, now: int): Cursor
    requires nw > 0
  {
    AfterDwell(AfterPause(c, nw, now), nw, now)
  }

  /** The worker whose queue is probed first. */
  function Target(c: Cursor, nw: nat): (w: nat)
    requires nw > 0
    ensures w < nw && (c.rrIndex < nw ==> w == c.rrIndex)
  {
    if c.rrIndex < nw then DivModUnique(c.rrIndex, nw, 0, c.rrIndex); c.rrIndex % nw
    else c.rrIndex % nw
  }

  function AfterSend(c: Cursor, nw: nat, now: int, size: nat, w: nat): Cursor
    requires nw > 0
  {
    if w != Target(c, nw) then Cursor(w, 1, c.lastPktTime, now)
    else if c.rrCount + 1 >= ChunkSizeFor(size) then Cursor(Next(w, nw), 0, c.lastPktTime, now)
    else c.(rrCount := c.rrCount + 1)
  }

  function AfterDrop(c: Cursor, nw: nat): Cursor
    requires nw > 0
  {
    c.(rrIndex := Next(Target(c, nw), nw), rrCount := 0)
  }

  /** The cursor after one whole dispatch with the given outcome. */
  function Settle(c: Cursor, nw: nat, now: int, size: nat, out: Outcome): Cursor
    requires nw > 0
  {
    match out
    case Prio(_) => AfterPause(c, nw, now)
    case Data(w) => AfterSend(Aimed(c, nw, now), nw, now, size, w)
    case Dropped => AfterDrop(Aimed(c, nw, now), nw)
  }

  /** The cursor after a worker left and `remaining` are still registered. */
  function AfterUnregister(c: Cursor, remaining: nat): Cursor {
    c.(rrIndex := if c.rrIndex >= remaining && remaining > 0 then c.rrIndex % remaining else c.rrIndex,
       rrCount := 0)
  }

  /** The cursor points at a registered worker, or at 0 when there is none. */
  predicate InRing(c: Cursor, nw: nat) {
    c.rrIndex < if nw == 0 then 1 else nw
  }

  /**
   When one of nw workers leaves the cursor keeps its place on the ring if that is still
   there, and goes back to the start if it was the last; either way the chunk starts afresh.
   */
  lemma UnregisterKeepsPlace(c: Cursor, nw: nat)
    requires nw > 0 && InRing(c, nw)
    ensures var c' := AfterUnregister(c, nw - 1);
            && c'.rrIndex == (if c.rrIndex < nw - 1 then c.rrIndex else 0) && c'.rrCount == 0
            && c'.lastPktTime == c.lastPktTime && c'.chunkStartTs == c.chunkStartTs
    ensures AfterUnregister(c, nw).rrIndex == c.rrIndex
  {
    if c.rrIndex == nw - 1 && nw > 1 {
      DivModUnique(nw - 1, nw - 1, 1, 0);
    }
  }

  // ---------------------------------------------------------------------
  // Chunks: what happens between two rotations of the cursor
  // ---------------------------------------------------------------------

  /** One read that found a worker, and what became of it. */
  datatype Read = Read(time: int, size: nat, sentTo: Outcome)

  type Chunk = seq<Read>

  /** What the dispatcher's mutex serialises: membership changes and dispatches. */
  datatype Event =
    | Register
    | Unregister(found: bool)
    | Dispatch(size: nat, now: int, out: Outcome)

  /** The cursor together with the reads of the running chunk and all finished chunks. */
  datatype Track = Track(cur: Cursor, nw: nat, open: Chunk, closed: seq<Chunk>) {
    function Rotate(): Track {
      this.(open := [], closed := closed + [open])
    }

    function Note(r: Read): Track {
      this.(open := open + [r])
    }
  }

  /** An event can happen: only members leave, only a packet with workers around is dispatched. */
  predicate Admissible(t: Track, e: Event) {
    match e
    case Register => true
    case Unregister(found) => found ==> t.nw > 0
    case Dispatch(size, _, out) =>
      && t.nw > 0
      && (out.Prio? ==> out.worker < t.nw && size <= PRIO_THRESHOLD)
      && (out.Data? ==> out.worker < t.nw)
  }

  /** The chunk ends if the pause rule fires. */
  function PauseTrack(t: Track, now: int): Track {
    if Paused(t.cur, now) then t.Rotate() else t
  }

  /** The chunk ends if the dwell rule fires after the pause rule had its turn. */
  function AimTrack(t: Track, now: int): Track
    requires t.nw > 0
  {
    var t' := PauseTrack(t, now);
    if Dwelled(AfterPause(t.cur, t.nw, now), now) then t'.Rotate() else t'
  }

  function Advance(t: Track, e: Event): Track
    requires Admissible(t, e)
  {
    match e
    case Register => t.(nw := t.nw + 1)
    case Unregister(found) =>
      var remaining := if found then t.nw - 1 else t.nw;
      t.Rotate().(nw := remaining, cur := AfterUnregister(t.cur, remaining))
    case Dispatch(size, now, out) =>
      var a := Aimed(t.cur, t.nw, now);
      var r := Read(now, size, out);
      var t' := match out
        case Prio(_) => PauseTrack(t, now).Note(r)
        case Dropped => AimTrack(t, now).Note(r).Rotate()
        case Data(w) =>
          if w != Target(a, t.nw) then AimTrack(t, now).Rotate().Note(r)
          else if a.rrCount + 1 >= ChunkSizeFor(size) then AimTrack(t, now).Note(r).Rotate()
          else AimTrack(t, now).Note(r);
      t'.(cur := Settle(t.cur, t.nw, now, size, out))
  }

  /** The cursor after an event, without the chunks. */
  function NextCursor(c: Cursor, nw: nat, e: Event): Cursor
    requires e.Dispatch? ==> nw > 0
  {
    match e
    case Register => c
    case Unregister(_) => AfterUnregister(c, NextCount(nw, e))
    case Dispatch(size, now, out) => Settle(c, nw, now, size, out)
  }

  /** The number of workers after an event. */
  function NextCount(nw: nat, e: Event): nat {
    match e
    case Register => nw + 1
    case Unregister(found) => if found && nw > 0 then nw - 1 else nw
    case Dispatch(_, _, _) => nw
  }

  /** Keeping track of chunks does not disturb the cursor, and no event takes it off the ring. */
  lemma AdvanceCursor(t: Track, e: Event)
    requires Admissible(t, e)
    ensures Advance(t, e).cur == NextCursor(t.cur, t.nw, e) && Advance(t, e).nw == NextCount(t.nw, e)
    ensures InRing(t.cur, t.nw) ==> InRing(Advance(t, e).cur, Advance(t, e).nw)
  {}

  predicate Admitted(log: seq<Event>)
    decreases |log|, 0
  {
    log == [] || (Admitted(log[..|log| - 1]) && Admissible(Run(log[..|log| - 1]), log[|log| - 1]))
  }

  function Run(log: seq<Event>): Track
    requires Admitted(log)
    decreases |log|, 1
  {
    if log == [] then Track(START, 0, [], [])
    else Advance(Run(log[..|log| - 1]), log[|log| - 1])
  }

  /** The log accounts for the cursor and for the number of workers. */
  ghost predicate Recorded(log: seq<Event>, c: Cursor, nw: nat) {
    Admitted(log) && Run(log).cur == c && Run(log).nw == nw && InRing(c, nw)
  }

  lemma RecordedStep(log: seq<Event>, c: Cursor, nw: nat, e: Event)
    requires Recorded(log, c, nw) && Admissible(Track(c, nw, [], []), e)
    ensures Recorded(log + [e], NextCursor(c, nw, e), NextCount(nw, e))
  {
    AdvanceCursor(Run(log), e);
    assert (log + [e])[..|log|] == log;
  }

  lemma RecordedDispatch(log: seq<Event>, c: Cursor, nw: nat, size: nat, now: int, out: Outcome)
    requires Recorded(log, c, nw) && nw > 0
    requires out.Prio? ==> out.worker < nw && size <= PRIO_THRESHOLD
    requires out.Data? ==> out.worker < nw
    ensures Recorded(log + [Dispatch(size, now, out)], Settle(c, nw, now, size, out), nw)
  {
    RecordedStep(log, c, nw, Dispatch(size, now, out));
  }

  /** Dispatches carry positive times that never go back. */
  ghost predicate ClockForward(log: seq<Event>) {
    forall i, j :: 0 <= i <= j < |log| && log[i].Dispatch? && log[j].Dispatch? ==> 0 < log[i].now <= log[j].now
  }

  /** How many packets of the chunk went into a data queue. */
  function Sent(c: Chunk): nat {
    if c == [] then 0 else Sent(c[..|c| - 1]) + if c[|c| - 1].sentTo.Data? then 1 else 0
  }

  /** All data packets of the chunk went to one worker. */
  ghost predicate OneWorker(c: Chunk) {
    forall i, j :: 0 <= i < j < |c| && c[i].sentTo.Data? && c[j].sentTo.Data? ==> c[i].sentTo == c[j].sentTo
  }

  /** Less than 15 ms from the first data packet of the chunk to the last. */
  ghost predicate ShortSpan(c: Chunk) {
    forall i, j :: 0 <= i < j < |c| && c[i].sentTo.Data? && c[j].sentTo.Data? ==> c[j].time - c[i].time < MAX_DWELL_MS
  }

  /** No gap of more than 10 ms between two successive reads of the chunk. */
  ghost predicate NoPause(c: Chunk) {
    forall i, j :: 0 <= i < j < |c| && j == i + 1 ==> c[j].time - c[i].time <= PAUSE_MS
  }

  ghost predicate Bounded(c: Chunk) {
    Sent(c) <= MAX_CHUNK && OneWorker(c) && ShortSpan(c) && NoPause(c)
  }

  /** All data packets of the chunk went to w, within 15 ms of start. */
  ghost predicate SentWithin(c: Chunk, w: nat, start: int) {
    forall i :: 0 <= i < |c| && c[i].sentTo.Data? ==>
      c[i].sentTo.worker == w && 0 < start <= c[i].time < start + MAX_DWELL_MS
  }

  /** What holds between the running chunk and the cursor. */
  ghost predicate Tracks(c: Chunk, cur: Cursor) {
    && Sent(c) == cur.rrCount <= MAX_CHUNK
    && SentWithin(c, cur.rrIndex, cur.chunkStartTs)
    && NoPause(c)
    && (c != [] ==> 0 < cur.lastPktTime == c[|c| - 1].time)
    && 0 <= cur.chunkStartTs <= cur.lastPktTime
  }

  ghost predicate TrackInv(t: Track) {
    InRing(t.cur, t.nw) && t.cur.rrCount < MAX_CHUNK && Tracks(t.open, t.cur)
    && forall c :: c in t.closed ==> Bounded(c)
  }

  lemma TracksIsBounded(c: Chunk, cur: Cursor)
    requires Tracks(c, cur)
    ensures Bounded(c)
  {}

  lemma SentOfNote(c: Chunk, r: Read)
    ensures Sent(c + [r]) == Sent(c) + if r.sentTo.Data? then 1 else 0
  {
    assert (c + [r])[..|c|] == c;
  }

  /** The chunk can take a read at now, made with the cursor cur. */
  ghost predicate Ready(c: Chunk, cur: Cursor, now: int) {
    && Sent(c) == cur.rrCount < MAX_CHUNK
    && SentWithin(c, cur.rrIndex, cur.chunkStartTs)
    && NoPause(c)
    && (c != [] ==> now - c[|c| - 1].time <= PAUSE_MS)
    && 0 < cur.lastPktTime == now && 0 <= cur.chunkStartTs <= now
  }

  ghost predicate AllBounded(cs: seq<Chunk>) {
    forall c :: c in cs ==> Bounded(c)
  }

  lemma SentPositive(c: Chunk, i: nat)
    requires i < |c| && c[i].sentTo.Data?
    ensures Sent(c) > 0
  {
    if i < |c| - 1 {
      SentPositive(c[..|c| - 1], i);
    }
  }

  /** A fired rule ends the chunk, and one that did not fire leaves it ready. */
  lemma PauseReady(t: Track, now: int)
    requires TrackInv(t) && t.nw > 0 && 0 < now && t.cur.lastPktTime <= now
    ensures var p := AfterPause(t.cur, t.nw, now);
            && Ready(PauseTrack(t, now).open, p, now) && p.rrIndex < t.nw
            && AllBounded(PauseTrack(t, now).closed)
  {
    TracksIsBounded(t.open, t.cur);
  }

  lemma AimReady(t: Track, now: int)
    requires TrackInv(t) && t.nw > 0 && 0 < now && t.cur.lastPktTime <= now
    ensures var a := Aimed(t.cur, t.nw, now);
            && Ready(AimTrack(t, now).open, a, now) && a.rrIndex < t.nw
            && 0 < a.chunkStartTs && now < a.chunkStartTs + MAX_DWELL_MS
            && AllBounded(AimTrack(t, now).closed)
  {
    var p, c := AfterPause(t.cur, t.nw, now), PauseTrack(t, now).open;
    PauseReady(t, now);
    assert Bounded(c);
    forall i | 0 <= i < |c| && c[i].sentTo.Data? ensures p.chunkStartTs > 0 {
      SentPositive(c, i);
    }
  }

  lemma NoteKeepsWithin(c: Chunk, w: nat, start: int, r: Read)
    requires SentWithin(c, w, start) && SentWithin([r], w, start)
    ensures SentWithin(c + [r], w, start)
  {
    assert [r][0] == r;
  }

  lemma NoteKeepsNoPause(c: Chunk, r: Read)
    requires NoPause(c) && (c != [] ==> r.time - c[|c| - 1].time <= PAUSE_MS)
    ensures NoPause(c + [r])
  {}

  function Counted(cur: Cursor, r: Read): Cursor {
    cur.(rrCount := cur.rrCount + if r.sentTo.Data? then 1 else 0)
  }

  lemma NoteTracks(c: Chunk, cur: Cursor, r: Read)
    requires Ready(c, cur, r.time)
    requires r.sentTo.Data? ==>
      r.sentTo.worker == cur.rrIndex && 0 < cur.chunkStartTs && r.time < cur.chunkStartTs + MAX_DWELL_MS
    ensures Tracks(c + [r], Counted(cur, r))
  {
    SentOfNote(c, r);
    NoteKeepsWithin(c, cur.rrIndex, cur.chunkStartTs, r);
    NoteKeepsNoPause(c, r);
  }

  /** A ready chunk takes the read. */
  lemma NoteKeeps(c: Chunk, cur: Cursor, r: Read)
    requires Ready(c, cur, r.time)
    requires r.sentTo.Data? ==>
      r.sentTo.worker == cur.rrIndex && 0 < cur.chunkStartTs && r.time < cur.chunkStartTs + MAX_DWELL_MS
    ensures Tracks(c + [r], Counted(cur, r)) && Bounded(c + [r])
  {
    NoteTracks(c, cur, r);
    TracksIsBounded(c + [r], Counted(cur, r));
  }

  lemma PrioKeeps(t: Track, size: nat, now: int, w: nat)
    requires TrackInv(t) && Admissible(t, Dispatch(size, now, Prio(w)))
    requires 0 < now && t.cur.lastPktTime <= now
    ensures TrackInv(Advance(t, Dispatch(size, now, Prio(w))))
  {
    PauseReady(t, now);
    var p := AfterPause(t.cur, t.nw, now);
    NoteTracks(PauseTrack(t, now).open, p, Read(now, size, Prio(w)));
    assert Counted(p, Read(now, size, Prio(w))) == p;
  }

  lemma DropKeeps(t: Track, size: nat, now: int)
    requires TrackInv(t) && Admissible(t, Dispatch(size, now, Dropped))
    requires 0 < now && t.cur.lastPktTime <= now
    ensures TrackInv(Advance(t, Dispatch(size, now, Dropped)))
  {
    AimReady(t, now);
    NoteKeeps(AimTrack(t, now).open, Aimed(t.cur, t.nw, now), Read(now, size, Dropped));
  }

  lemma RotatedKeeps(t: Track, closed: seq<Chunk>, c: Chunk)
    requires AllBounded(closed) && Bounded(c) && t.closed == closed + [c] && t.open == []
    requires InRing(t.cur, t.nw) && t.cur.rrCount == 0 && 0 <= t.cur.chunkStartTs <= t.cur.lastPktTime
    ensures TrackInv(t)
  {}

  lemma RunningKeeps(t: Track)
    requires AllBounded(t.closed) && Tracks(t.open, t.cur) && InRing(t.cur, t.nw) && t.cur.rrCount < MAX_CHUNK
    ensures TrackInv(t)
  {}

  /** A packet taken by the worker aimed at, in terms of the track before it. */
  lemma SendHere(t: Track, size: nat, now: int, w: nat)
    requires Admissible(t, Dispatch(size, now, Data(w))) && w == Target(Aimed(t.cur, t.nw, now), t.nw)
    ensures var a, c, r := Aimed(t.cur, t.nw, now), AimTrack(t, now), Read(now, size, Data(w));
            var t' := Advance(t, Dispatch(size, now, Data(w)));
            && a.lastPktTime == now
            && t'.nw == t.nw
            && if a.rrCount + 1 >= ChunkSizeFor(size)
               then t'.cur == Cursor(Next(w, t.nw), 0, now, now) && t'.open == []
                    && t'.closed == c.closed + [c.open + [r]]
               else t'.cur == a.(rrCount := a.rrCount + 1) && t'.open == c.open + [r] && t'.closed == c.closed
  {}

  /** The chunk goes on with the read, or it is full and ends. */
  lemma HereKeeps(t': Track, a: Cursor, c: Track, r: Read, full: bool)
    requires AllBounded(c.closed) && Tracks(c.open + [r], Counted(a, r)) && Bounded(c.open + [r])
    requires r.sentTo.Data? && InRing(t'.cur, t'.nw) && a.lastPktTime == r.time >= 0
    requires !full ==> a.rrCount + 1 < MAX_CHUNK
    requires if full then t'.cur.rrCount == 0 && t'.cur.chunkStartTs == t'.cur.lastPktTime == r.time
                          && t'.open == [] && t'.closed == c.closed + [c.open + [r]]
             else t'.cur == a.(rrCount := a.rrCount + 1) && t'.open == c.open + [r] && t'.closed == c.closed
    ensures TrackInv(t')
  {
    if full {
      RotatedKeeps(t', c.closed, c.open + [r]);
    } else {
      RunningKeeps(t');
    }
  }

  lemma SendHereKeeps(t: Track, size: nat, now: int, w: nat)
    requires TrackInv(t) && Admissible(t, Dispatch(size, now, Data(w)))
    requires 0 < now && t.cur.lastPktTime <= now && w == Target(Aimed(t.cur, t.nw, now), t.nw)
    ensures TrackInv(Advance(t, Dispatch(size, now, Data(w))))
  {
    var a, c, r := Aimed(t.cur, t.nw, now), AimTrack(t, now), Read(now, size, Data(w));
    AimReady(t, now);
    NoteKeeps(c.open, a, r);
    SendHere(t, size, now, w);
    HereKeeps(Advance(t, Dispatch(size, now, Data(w))), a, c, r, a.rrCount + 1 >= ChunkSizeFor(size));
  }

  /** The chunk ends before the read, which begins one with another worker. */
  lemma ElsewhereKeeps(t': Track, c: Track, r: Read)
    requires AllBounded(c.closed) && Bounded(c.open) && r.sentTo.Data? && 0 < r.time && r.sentTo.worker < t'.nw
    requires t' == Track(Cursor(r.sentTo.worker, 1, r.time, r.time), t'.nw, [r], c.closed + [c.open])
    ensures TrackInv(t')
  {
    NoteKeeps([], Cursor(r.sentTo.worker, 0, r.time, r.time), r);
    assert [] + [r] == [r];
  }

  lemma SendElsewhere(t: Track, size: nat, now: int, w: nat)
    requires Admissible(t, Dispatch(size, now, Data(w))) && w != Target(Aimed(t.cur, t.nw, now), t.nw)
    ensures var c, t' := AimTrack(t, now), Advance(t, Dispatch(size, now, Data(w)));
            t' == Track(Cursor(w, 1, now, now), t.nw, [Read(now, size, Data(w))], c.closed + [c.open])
  {}

  lemma SendElsewhereKeeps(t: Track, size: nat, now: int, w: nat)
    requires TrackInv(t) && Admissible(t, Dispatch(size, now, Data(w)))
    requires 0 < now && t.cur.lastPktTime <= now && w != Target(Aimed(t.cur, t.nw, now), t.nw)
    ensures TrackInv(Advance(t, Dispatch(size, now, Data(w))))
  {
    AimReady(t, now);
    SendElsewhere(t, size, now, w);
    assert Bounded(AimTrack(t, now).open);
    ElsewhereKeeps(Advance(t, Dispatch(size, now, Data(w))), AimTrack(t, now), Read(now, size, Data(w)));
  }

  lemma AdvanceKeeps(t: Track, e: Event)
    requires TrackInv(t) && Admissible(t, e)
    requires e.Dispatch? ==> 0 < e.now && t.cur.lastPktTime <= e.now
    ensures TrackInv(Advance(t, e))
  {
    match e
    case Register =>
    case Unregister(_) => TracksIsBounded(t.open, t.cur);
    case Dispatch(size, now, out) =>
      match out
      case Prio(w) => PrioKeeps(t, size, now, w);
      case Data(w) =>
        if w == Target(Aimed(t.cur, t.nw, now), t.nw) {
          SendHereKeeps(t, size, now, w);
        } else {
          SendElsewhereKeeps(t, size, now, w);
        }
      case Dropped => DropKeeps(t, size, now);
  }

  /** The last read time of a run is the time of one of its dispatches. */
  lemma {:induction false} LastTimeIsDispatched(log: seq<Event>)
    requires Admitted(log)
    ensures Run(log).cur.lastPktTime == 0
         || exists i :: 0 <= i < |log| && log[i].Dispatch? && log[i].now == Run(log).cur.lastPktTime
  {
    if log != [] {
      var prefix, e := log[..|log| - 1], log[|log| - 1];
      LastTimeIsDispatched(prefix);
      if e.Dispatch? {
        assert log[|log| - 1].now == Run(log).cur.lastPktTime;
      } else if Run(prefix).cur.lastPktTime != 0 {
        var i :| 0 <= i < |prefix| && prefix[i].Dispatch? && prefix[i].now == Run(prefix).cur.lastPktTime;
        assert log[i] == prefix[i];
      }
    }
  }

  /**
   Over every run whose clock does not go back, with workers joining and leaving
   at any point: each chunk has at most 64 data packets, all for one worker,
   spans less than 15 ms, and contains no gap of more than 10 ms between reads.
   The stored count is the number of data packets of the running chunk, is below
   64 between dispatches, and the cursor never leaves the ring.
   */
  lemma {:induction false} ChunkLimits(log: seq<Event>)
    requires Admitted(log) && ClockForward(log)
    ensures var t := Run(log);
            && (forall c :: c in t.closed + [t.open] ==> Bounded(c))
            && t.cur.rrCount == Sent(t.open) < MAX_CHUNK
            && InRing(t.cur, t.nw)
            && TrackInv(t)
  {
    if log != [] {
      var prefix, e := log[..|log| - 1], log[|log| - 1];
      ChunkLimits(prefix);
      LastTimeIsDispatched(prefix);
      AdvanceKeeps(Run(prefix), e);
    }
    TracksIsBounded(Run(log).open, Run(log).cur);
  }
}
