/**
 Which of the chunk limits rest on the clock: the number of packets and the single
 worker do not, the pauses need a clock that shows positive times, and only the span
 of a chunk needs one that does not go back.
 */
module ChunkSizes {
  import opened Cursors
  import opened Rotation

  /** At most 64 data packets, all for one worker. */
  ghost predicate Small(c: Chunk) {
    Sent(c) <= MAX_CHUNK && OneWorker(c)
  }

  ghost predicate AllSmall(cs: seq<Chunk>) {
    forall c :: c in cs ==> Small(c)
  }

  /** The stored count is that of the running chunk, which is for the cursor's worker. */
  ghost predicate SizeInv(t: Track) {
    && InRing(t.cur, t.nw) && t.cur.rrCount == Sent(t.open) < MAX_CHUNK
    && OnlyTo(t.open, t.cur.rrIndex) && AllSmall(t.closed)
  }

  lemma SmallNote(c: Chunk, w: nat, r: Read)
    requires OnlyTo(c, w) && (r.sentTo.Data? ==> r.sentTo.worker == w)
    ensures OnlyTo(c + [r], w) && Sent(c + [r]) == Sent(c) + if r.sentTo.Data? then 1 else 0
  {
    SentOfNote(c, r);
  }

  lemma OnlyToIsOneWorker(c: Chunk, w: nat)
    requires OnlyTo(c, w)
    ensures OneWorker(c)
  {}

  /** Closing a small chunk. */
  lemma RotateSmall(t: Track, t': Track)
    requires OnlyTo(t.open, t.cur.rrIndex) && Sent(t.open) <= MAX_CHUNK && AllSmall(t.closed)
    requires t'.open == [] && t'.closed == t.closed + [t.open] && t'.cur.rrCount == 0 && InRing(t'.cur, t'.nw)
    ensures SizeInv(t')
  {
    OnlyToIsOneWorker(t.open, t.cur.rrIndex);
  }

  lemma PausingSmall(t: Track, now: int)
    requires SizeInv(t) && t.nw > 0
    ensures SizeInv(Pausing(t, now))
  {
    if Paused(t.cur, now) {
      RotateSmall(t, Pausing(t, now));
    }
  }

  lemma AimingSmall(t: Track, now: int)
    requires SizeInv(t) && t.nw > 0
    ensures SizeInv(Aiming(t, now))
  {
    PausingSmall(t, now);
    if Dwelled(Pausing(t, now).cur, now) {
      RotateSmall(Pausing(t, now), Aiming(t, now));
    }
  }

  lemma DataSmallElsewhere(t: Track, size: nat, now: int, w: nat)
    requires SizeInv(t) && w < t.nw && w != Aiming(t, now).cur.rrIndex
    ensures SizeInv(Advance(t, Dispatch(size, now, Data(w))))
  {
    AimingSmall(t, now);
    SmallNote([], w, Read(now, size, Data(w)));
    OnlyToIsOneWorker(Aiming(t, now).open, Aiming(t, now).cur.rrIndex);
  }

  lemma DataSmallHere(t: Track, size: nat, now: int, w: nat)
    requires SizeInv(t) && w < t.nw && w == Aiming(t, now).cur.rrIndex
    ensures SizeInv(Advance(t, Dispatch(size, now, Data(w))))
  {
    AimingSmall(t, now);
    var a, r := Aiming(t, now), Read(now, size, Data(w));
    SmallNote(a.open, w, r);
    if a.cur.rrCount + 1 >= ChunkSizeFor(size) {
      RotateSmall(Track(a.cur, a.nw, a.open + [r], a.closed), Advance(t, Dispatch(size, now, Data(w))));
    }
  }

  lemma DataSmall(t: Track, size: nat, now: int, w: nat)
    requires SizeInv(t) && w < t.nw
    ensures SizeInv(Advance(t, Dispatch(size, now, Data(w))))
  {
    if w != Aiming(t, now).cur.rrIndex {
      DataSmallElsewhere(t, size, now, w);
    } else {
      DataSmallHere(t, size, now, w);
    }
  }

  lemma DropSmall(t: Track, size: nat, now: int)
    requires SizeInv(t) && t.nw > 0
    ensures SizeInv(Advance(t, Dispatch(size, now, Dropped)))
  {
    AimingSmall(t, now);
    var a, r := Aiming(t, now), Read(now, size, Dropped);
    SmallNote(a.open, a.cur.rrIndex, r);
    RotateSmall(Track(a.cur, a.nw, a.open + [r], a.closed), Advance(t, Dispatch(size, now, Dropped)));
  }

  lemma StepKeepsSmall(t: Track, e: Event)
    requires SizeInv(t) && Admissible(t, e)
    ensures SizeInv(Advance(t, e))
  {
    match e
    case Register =>
    case Unregister(_) =>
      AdvanceCursor(t, e);
      RotateSmall(t, Advance(t, e));
    case Dispatch(size, now, out) =>
      match out
      case Prio(w) =>
        PausingSmall(t, now);
        SmallNote(Pausing(t, now).open, Pausing(t, now).cur.rrIndex, Read(now, size, out));
      case Data(w) => DataSmall(t, size, now, w);
      case Dropped => DropSmall(t, size, now);
  }

  /**
   Over every run, whatever the clock does: each chunk has at most 64 data packets,
   all for one worker; the stored count is the number of data packets of the running
   chunk and below 64, and the cursor is on the ring.
   */
  lemma {:induction false} ChunkSizesAnyClock(log: seq<Event>)
    requires Admitted(log)
    ensures var t := Run(log);
            && AllSmall(t.closed + [t.open])
            && t.cur.rrCount == Sent(t.open) < MAX_CHUNK
            && InRing(t.cur, t.nw) && SizeInv(t)
  {
    if log != [] {
      ChunkSizesAnyClock(log[..|log| - 1]);
      StepKeepsSmall(Run(log[..|log| - 1]), log[|log| - 1]);
    }
    OnlyToIsOneWorker(Run(log).open, Run(log).cur.rrIndex);
  }

  // ---------------------------------------------------------------------
  // Pauses
  // ---------------------------------------------------------------------

  ghost predicate ClockPositive(log: seq<Event>) {
    forall i :: 0 <= i < |log| && log[i].Dispatch? ==> 0 < log[i].now
  }

  ghost predicate NoPauses(cs: seq<Chunk>) {
    forall c :: c in cs ==> NoPause(c)
  }

  /** The time of the last read of the running chunk is known. */
  ghost predicate PauseInv(t: Track) {
    && NoPause(t.open) && NoPauses(t.closed)
    && (t.open != [] ==> 0 < t.cur.lastPktTime == t.open[|t.open| - 1].time)
  }

  /** Whether the pause rule fires or not, a read can follow. */
  lemma PauseTrackKeepsPauses(t: Track, now: int)
    requires PauseInv(t) && 0 < now
    ensures var p := PauseTrack(t, now);
            && NoPause(p.open) && NoPauses(p.closed)
            && (p.open != [] ==> now - p.open[|p.open| - 1].time <= PAUSE_MS)
  {}

  lemma AimTrackKeepsPauses(t: Track, now: int)
    requires PauseInv(t) && 0 < now && t.nw > 0
    ensures var p := AimTrack(t, now);
            && NoPause(p.open) && NoPauses(p.closed)
            && (p.open != [] ==> now - p.open[|p.open| - 1].time <= PAUSE_MS)
  {
    PauseTrackKeepsPauses(t, now);
  }

  lemma DataKeepsPauses(t: Track, size: nat, now: int, w: nat)
    requires PauseInv(t) && w < t.nw && 0 < now
    ensures PauseInv(Advance(t, Dispatch(size, now, Data(w))))
  {
    AimTrackKeepsPauses(t, now);
    NoteKeepsNoPause(AimTrack(t, now).open, Read(now, size, Data(w)));
    NoteKeepsNoPause([], Read(now, size, Data(w)));
  }

  lemma DropKeepsPauses(t: Track, size: nat, now: int)
    requires PauseInv(t) && t.nw > 0 && 0 < now
    ensures PauseInv(Advance(t, Dispatch(size, now, Dropped)))
  {
    AimTrackKeepsPauses(t, now);
    NoteKeepsNoPause(AimTrack(t, now).open, Read(now, size, Dropped));
  }

  lemma PrioKeepsPauses(t: Track, size: nat, now: int, w: nat)
    requires PauseInv(t) && Admissible(t, Dispatch(size, now, Prio(w))) && 0 < now
    ensures PauseInv(Advance(t, Dispatch(size, now, Prio(w))))
  {
    PauseTrackKeepsPauses(t, now);
    NoteKeepsNoPause(PauseTrack(t, now).open, Read(now, size, Prio(w)));
  }

  lemma DispatchKeepsPauses(t: Track, size: nat, now: int, out: Outcome)
    requires PauseInv(t) && Admissible(t, Dispatch(size, now, out)) && 0 < now
    ensures PauseInv(Advance(t, Dispatch(size, now, out)))
  {
    match out
    case Prio(w) => PrioKeepsPauses(t, size, now, w);
    case Data(w) => DataKeepsPauses(t, size, now, w);
    case Dropped => DropKeepsPauses(t, size, now);
  }

  /** As long as the clock shows positive times, no chunk contains a gap of more than 10 ms between reads. */
  lemma {:induction false} PausesEndChunks(log: seq<Event>)
    requires Admitted(log) && ClockPositive(log)
    ensures NoPauses(Run(log).closed + [Run(log).open]) && PauseInv(Run(log))
  {
    if log != [] {
      var prefix, e := log[..|log| - 1], log[|log| - 1];
      PausesEndChunks(prefix);
      if e.Dispatch? {
        DispatchKeepsPauses(Run(prefix), e.size, e.now, e.out);
      }
    }
  }

  // ---------------------------------------------------------------------
  // The span
  // ---------------------------------------------------------------------

  lemma RunGrows(log: seq<Event>, e: Event)
    requires Admitted(log) && Admissible(Run(log), e)
    ensures Admitted(log + [e]) && Run(log + [e]) == Advance(Run(log), e)
  {
    assert (log + [e])[..|log|] == log;
  }

  /** A big packet for the only worker, in a chunk that goes on. */
  lemma OneMore(log: seq<Event>, now: int, n: nat)
    requires Admitted(log) && Run(log).nw == 1 && Run(log).cur.rrIndex == 0
    requires Run(log).cur.rrCount == n < 60 && Run(log).cur.chunkStartTs == 100
    requires 0 < now < 115 && now - Run(log).cur.lastPktTime <= PAUSE_MS
    ensures Admitted(log + [Dispatch(1200, now, Data(0))])
    ensures Run(log + [Dispatch(1200, now, Data(0))])
         == Track(Cursor(0, n + 1, now, 100), 1, Run(log).open + [Read(now, 1200, Data(0))], Run(log).closed)
  {
    RunGrows(log, Dispatch(1200, now, Data(0)));
  }

  /** A clock that goes back from 100 to 85 keeps a chunk going from 85 to 105. */
  lemma BackwardClockStretchesChunk() returns (log: seq<Event>)
    ensures Admitted(log) && ClockPositive(log) && !ShortSpan(Run(log).open)
  {
    log := [];
    RunGrows(log, Register);
    log := log + [Register];
    RunGrows(log, Dispatch(1200, 100, Data(0)));
    log := log + [Dispatch(1200, 100, Data(0))];
    assert Run(log).cur == Cursor(0, 1, 100, 100);
    OneMore(log, 85, 1);
    log := log + [Dispatch(1200, 85, Data(0))];
    OneMore(log, 95, 2);
    log := log + [Dispatch(1200, 95, Data(0))];
    OneMore(log, 105, 3);
    log := log + [Dispatch(1200, 105, Data(0))];
    var c := Run(log).open;
    assert c[1] == Read(85, 1200, Data(0)) && c[3] == Read(105, 1200, Data(0));
  }
}
