/**
 Between chunks the relay changes: two chunks that follow each other are carried
 by different workers, as long as there are two and nobody leaves.
 */
module Rotation {
  import opened Cursors

  /** All data packets of the chunk went to w. */
  ghost predicate OnlyTo(c: Chunk, w: nat) {
    forall i :: 0 <= i < |c| && c[i].sentTo.Data? ==> c[i].sentTo.worker == w
  }

  /** No data packet of the chunk went to w. */
  ghost predicate NoneTo(c: Chunk, w: nat) {
    forall i :: 0 <= i < |c| && c[i].sentTo.Data? ==> c[i].sentTo.worker != w
  }

  /** No worker carried data packets of both chunks. */
  ghost predicate Apart(c: Chunk, d: Chunk) {
    forall i :: 0 <= i < |c| && c[i].sentTo.Data? ==> NoneTo(d, c[i].sentTo.worker)
  }

  ghost predicate Alternating(cs: seq<Chunk>) {
    forall i, j :: 0 <= i < j < |cs| && j == i + 1 ==> Apart(cs[i], cs[j])
  }

  /** The running chunk belongs to the cursor's worker, and the one before it does not. */
  ghost predicate AlternationInv(t: Track) {
    && OnlyTo(t.open, t.cur.rrIndex)
    && (t.closed != [] ==> NoneTo(t.closed[|t.closed| - 1], t.cur.rrIndex))
    && Alternating(t.closed)
  }

  lemma PairIsApart(c: Chunk, d: Chunk, w: nat)
    requires NoneTo(c, w) && OnlyTo(d, w)
    ensures Apart(c, d)
  {}

  /** Closing the running chunk and going on with another worker. */
  lemma RotateKeeps(t: Track, t': Track, w: nat)
    requires AlternationInv(t) && w != t.cur.rrIndex
    requires t'.closed == t.closed + [t.open] && t'.open == [] && t'.cur.rrIndex == w
    ensures AlternationInv(t')
  {
    if t.closed != [] {
      PairIsApart(t.closed[|t.closed| - 1], t.open, t.cur.rrIndex);
    }
    var cs := t'.closed;
    forall i, j | 0 <= i < j < |cs| && j == i + 1 ensures Apart(cs[i], cs[j]) {
      if j < |t.closed| {
        assert Apart(t.closed[i], t.closed[j]);
      }
    }
  }

  /** A read for the cursor's worker, or for no data queue. */
  lemma NoteKeeps(t: Track, t': Track, r: Read)
    requires AlternationInv(t) && (r.sentTo.Data? ==> r.sentTo.worker == t.cur.rrIndex)
    requires t'.closed == t.closed && t'.open == t.open + [r] && t'.cur.rrIndex == t.cur.rrIndex
    ensures AlternationInv(t')
  {}

  /** With two workers, the next one is another one. */
  lemma NextIsAnother(i: nat, n: nat)
    requires i < n && n >= 2
    ensures Next(i, n) != i && Next(i, n) < n
  {}

  /** The track once the pause and dwell rules have had their turn. */
  function Aiming(t: Track, now: int): Track
    requires t.nw > 0
  {
    AimTrack(t, now).(cur := Aimed(t.cur, t.nw, now))
  }

  function Pausing(t: Track, now: int): Track
    requires t.nw > 0
  {
    PauseTrack(t, now).(cur := AfterPause(t.cur, t.nw, now))
  }

  lemma PausingKeeps(t: Track, now: int)
    requires AlternationInv(t) && t.nw >= 2 && t.cur.rrIndex < t.nw
    ensures AlternationInv(Pausing(t, now)) && Pausing(t, now).cur.rrIndex < t.nw
  {
    NextIsAnother(t.cur.rrIndex, t.nw);
    if Paused(t.cur, now) {
      RotateKeeps(t, Pausing(t, now), Next(t.cur.rrIndex, t.nw));
    }
  }

  lemma AimingKeeps(t: Track, now: int)
    requires AlternationInv(t) && t.nw >= 2 && t.cur.rrIndex < t.nw
    ensures AlternationInv(Aiming(t, now)) && Aiming(t, now).cur.rrIndex < t.nw
  {
    PausingKeeps(t, now);
    var p := Pausing(t, now);
    NextIsAnother(p.cur.rrIndex, t.nw);
    if Dwelled(p.cur, now) {
      RotateKeeps(p, Aiming(t, now), Next(p.cur.rrIndex, t.nw));
    }
  }

  /** The packet went to a data queue. */
  lemma DataKeeps(t: Track, size: nat, now: int, w: nat)
    requires AlternationInv(t) && t.nw >= 2 && t.cur.rrIndex < t.nw && w < t.nw
    ensures AlternationInv(Advance(t, Dispatch(size, now, Data(w))))
  {
    AimingKeeps(t, now);
    var a, t' := Aiming(t, now), Advance(t, Dispatch(size, now, Data(w)));
    var r := Read(now, size, Data(w));
    var idx := a.cur.rrIndex;
    NextIsAnother(idx, t.nw);
    if w != idx {
      var m := Track(a.cur.(rrIndex := w), a.nw, [], a.closed + [a.open]);
      RotateKeeps(a, m, w);
      NoteKeeps(m, t', r);
    } else {
      var m := Track(a.cur, a.nw, a.open + [r], a.closed);
      NoteKeeps(a, m, r);
      if a.cur.rrCount + 1 >= ChunkSizeFor(size) {
        RotateKeeps(m, t', Next(idx, t.nw));
      } else {
        assert t'.open == m.open && t'.closed == m.closed;
      }
    }
  }

  lemma DropKeeps(t: Track, size: nat, now: int)
    requires AlternationInv(t) && t.nw >= 2 && t.cur.rrIndex < t.nw
    ensures AlternationInv(Advance(t, Dispatch(size, now, Dropped)))
  {
    AimingKeeps(t, now);
    var a, t' := Aiming(t, now), Advance(t, Dispatch(size, now, Dropped));
    var r := Read(now, size, Dropped);
    var m := Track(a.cur, a.nw, a.open + [r], a.closed);
    NextIsAnother(a.cur.rrIndex, t.nw);
    NoteKeeps(a, m, r);
    RotateKeeps(m, t', Next(a.cur.rrIndex, t.nw));
  }

  lemma PrioKeeps(t: Track, size: nat, now: int, w: nat)
    requires AlternationInv(t) && t.nw >= 2 && t.cur.rrIndex < t.nw && Admissible(t, Dispatch(size, now, Prio(w)))
    ensures AlternationInv(Advance(t, Dispatch(size, now, Prio(w))))
  {
    PausingKeeps(t, now);
    NoteKeeps(Pausing(t, now), Advance(t, Dispatch(size, now, Prio(w))), Read(now, size, Prio(w)));
  }

  /** Nobody leaves, and packets are only dispatched among at least two workers. */
  predicate Crowded(log: seq<Event>)
    requires Admitted(log)
  {
    log == [] ||
    (Crowded(log[..|log| - 1])
     && match log[|log| - 1]
        case Register => true
        case Unregister(_) => false
        case Dispatch(_, _, _) => Run(log[..|log| - 1]).nw >= 2)
  }

  lemma {:induction false} AlternationInvHolds(log: seq<Event>)
    requires Admitted(log) && Crowded(log)
    ensures AlternationInv(Run(log)) && InRing(Run(log).cur, Run(log).nw)
  {
    if log != [] {
      var prefix, e := log[..|log| - 1], log[|log| - 1];
      AlternationInvHolds(prefix);
      AdvanceCursor(Run(prefix), e);
      match e
      case Register =>
      case Dispatch(size, now, out) =>
        match out
        case Prio(w) => PrioKeeps(Run(prefix), size, now, w);
        case Data(w) => DataKeeps(Run(prefix), size, now, w);
        case Dropped => DropKeeps(Run(prefix), size, now);
    }
  }

  /**
   Over every such run, whatever the clock does, no worker carries data packets of
   two chunks that follow each other.
   */
  lemma ConsecutiveChunksChangeWorker(log: seq<Event>)
    requires Admitted(log) && Crowded(log)
    ensures Alternating(Run(log).closed + [Run(log).open])
  {
    AlternationInvHolds(log);
    var t := Run(log);
    var cs := t.closed + [t.open];
    forall i, j | 0 <= i < j < |cs| && j == i + 1 ensures Apart(cs[i], cs[j]) {
      if j == |t.closed| {
        PairIsApart(t.closed[i], t.open, t.cur.rrIndex);
      } else {
        assert Apart(t.closed[i], t.closed[j]);
      }
    }
  }
}
