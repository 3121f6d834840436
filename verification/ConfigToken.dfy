/**
 Who asks the server for the configuration. Workers of the first group race for
 a request token held in two atomics; the one that gets it runs a session that
 may deliver the configuration on a channel with room for one message. Each
 atomic access, channel operation and session outcome is a step of its own.
 */
module ConfigToken {

  type WorkerId = int

  /** Where a worker is in its retry loop. */
  datatype Pc =
    | Top                        // about to look at configSent
    | Looked                     // saw configSent == 0, about to compare-and-swap
    | InSession                  // runs a session without the token
    | Asking                     // runs a session with the token, nothing received yet
    | Received                   // has the configuration, about to offer it to the channel
    | Delivered                  // the session goes on after its configuration was delivered
    | Ended(delivered: bool)     // the session with the token is over, the flags are not yet updated
    | Gone

  datatype State = State(
    workers: map<WorkerId, Pc>,
    asksForConfig: set<WorkerId>,  // the first group
    configSent: bool,
    requestInFlight: bool,
    inChannel: nat,                // messages in configCh
    sends: nat,                    // messages ever sent on configCh
    refused: nat,                  // offers that found the channel full
    asked: nat,                    // sessions started with the token
    closed: bool)

  const CHANNEL_CAP := 1

  predicate Init(s: State) {
    && (forall w <- s.workers :: s.workers[w] == Top)
    && s.asksForConfig <= s.workers.Keys
    && s == State(s.workers, s.asksForConfig, false, false, 0, 0, 0, 0, false)
  }

  datatype Step =
    | Look(w: WorkerId)
    | Swap(w: WorkerId)
    | Answer(w: WorkerId)
    | Offer(w: WorkerId)
    | End(w: WorkerId)
    | Update(w: WorkerId)
    | Quit(w: WorkerId)
    | Consume
    | Close

  predicate Enabled(s: State, st: Step) {
    match st
    case Look(w) => w in s.workers && s.workers[w].Top?
    case Swap(w) => w in s.workers && s.workers[w].Looked?
    case Answer(w) => w in s.workers && s.workers[w].Asking?
    case Offer(w) => w in s.workers && s.workers[w].Received?
    case End(w) => w in s.workers && (s.workers[w].InSession? || s.workers[w].Asking? || s.workers[w].Delivered?)
    case Update(w) => w in s.workers && s.workers[w].Ended?
    case Quit(w) => w in s.workers && s.workers[w].Top?
    case Consume => s.inChannel > 0
    case Close => !s.closed && forall w <- s.workers :: s.workers[w].Gone?
  }

  function Move(s: State, w: WorkerId, pc: Pc): State {
    s.(workers := s.workers[w := pc])
  }

  function Apply(s: State, st: Step): State
    requires Enabled(s, st)
  {
    match st
    case Look(w) => Move(s, w, if w in s.asksForConfig && !s.configSent then Looked else InSession)
    case Swap(w) =>
      if s.requestInFlight then Move(s, w, InSession)
      else Move(s, w, Asking).(requestInFlight := true, asked := s.asked + 1)
    case Answer(w) => Move(s, w, Received)
    case Offer(w) =>
      if s.inChannel < CHANNEL_CAP then Move(s, w, Delivered).(inChannel := s.inChannel + 1, sends := s.sends + 1)
      else Move(s, w, Delivered).(refused := s.refused + 1)
    case End(w) =>
      Move(s, w, if s.workers[w].InSession? then Top else Ended(s.workers[w].Delivered?))
    case Update(w) =>
      if s.workers[w].delivered then Move(s, w, Top).(configSent := true)
      else Move(s, w, Top).(requestInFlight := false)
    case Quit(w) => Move(s, w, Gone)
    case Consume => s.(inChannel := s.inChannel - 1)
    case Close => s.(closed := true)
  }

  // ---------------------------------------------------------------------
  // The invariant
  // ---------------------------------------------------------------------

  /** The worker has the token in its hands. */
  predicate Holds(pc: Pc) {
    pc.Asking? || pc.Received? || pc.Delivered? || pc.Ended?
  }

  /** The worker's session has delivered. */
  predicate HasDelivered(pc: Pc) {
    pc.Delivered? || pc == Ended(true)
  }

  ghost predicate Inv(s: State) {
    && s.asksForConfig <= s.workers.Keys
    // one holder at most, and only while the token is out
    && (forall v, w :: v in s.workers && w in s.workers && Holds(s.workers[v]) && Holds(s.workers[w]) ==> v == w)
    && (forall w <- s.workers :: Holds(s.workers[w]) ==> s.requestInFlight && w in s.asksForConfig && !s.configSent)
    // the token is out for good once the configuration was sent
    && (s.configSent ==> s.requestInFlight)
    && (s.requestInFlight && !s.configSent ==> exists w :: w in s.workers && Holds(s.workers[w]))
    // a message was sent exactly when somebody delivered
    && s.sends == (if s.configSent || exists w :: w in s.workers && HasDelivered(s.workers[w]) then 1 else 0)
    && s.inChannel <= s.sends && s.refused == 0
    // the channel is closed only over finished workers
    && (s.closed ==> forall w <- s.workers :: s.workers[w].Gone?)
  }

  lemma InitInv(s: State)
    requires Init(s)
    ensures Inv(s)
  {}

  /** A worker without the token goes on without it. */
  lemma BystanderKeeps(s: State, w: WorkerId, pc: Pc)
    requires Inv(s) && w in s.workers && !Holds(s.workers[w]) && !Holds(pc) && !s.workers[w].Gone? && !s.closed
    ensures Inv(Move(s, w, pc))
  {
    var s' := Move(s, w, pc);
    assert forall v :: v in s.workers && Holds(s.workers[v]) ==> v in s'.workers && s'.workers[v] == s.workers[v];
    assert forall v :: v in s'.workers && Holds(s'.workers[v]) ==> v in s.workers && s'.workers[v] == s.workers[v];
  }

  /** The holder changes its state and stays the holder. */
  lemma HolderKeeps(s: State, s': State, w: WorkerId, pc: Pc)
    requires Inv(s) && w in s.workers && Holds(s.workers[w]) && Holds(pc)
    requires s' == Move(s, w, pc).(inChannel := s'.inChannel, sends := s'.sends)
    requires s'.sends == (if HasDelivered(pc) then 1 else 0) && s'.inChannel <= s'.sends
    ensures Inv(s')
  {
    assert s'.workers[w] == pc;
    assert forall v :: v in s.workers && v != w ==> s'.workers[v] == s.workers[v] && !Holds(s.workers[v]);
  }

  lemma SwapKeeps(s: State, w: WorkerId)
    requires Inv(s) && Enabled(s, Swap(w)) && w in s.asksForConfig && !s.requestInFlight
    ensures Inv(Apply(s, Swap(w)))
  {
    var s' := Apply(s, Swap(w));
    assert forall v :: v in s.workers && v != w ==> s'.workers[v] == s.workers[v] && !Holds(s.workers[v]);
    assert s'.workers[w] == Asking;
  }

  lemma UpdateKeeps(s: State, w: WorkerId)
    requires Inv(s) && Enabled(s, Update(w))
    ensures Inv(Apply(s, Update(w)))
  {
    var s' := Apply(s, Update(w));
    assert Holds(s.workers[w]);
    assert forall v :: v in s.workers && v != w ==> s'.workers[v] == s.workers[v] && !Holds(s.workers[v]);
    assert s.sends == if s.workers[w].delivered then 1 else 0 by {
      assert HasDelivered(s.workers[w]) <==> s.workers[w].delivered;
    }
  }

  /** Workers that passed the first check belong to the group that asks. */
  ghost predicate LookersAsk(s: State) {
    forall w <- s.workers :: s.workers[w].Looked? ==> w in s.asksForConfig
  }

  lemma StepKeepsLookers(s: State, st: Step)
    requires LookersAsk(s) && Enabled(s, st)
    ensures LookersAsk(Apply(s, st))
  {}

  /** What a holder's message count is. */
  lemma HolderSends(s: State, w: WorkerId)
    requires Inv(s) && w in s.workers && Holds(s.workers[w])
    ensures s.sends == if HasDelivered(s.workers[w]) then 1 else 0
  {}

  lemma HolderStepKeeps(s: State, w: WorkerId, st: Step)
    requires Inv(s) && Enabled(s, st) && w in s.workers && Holds(s.workers[w])
    requires st == Answer(w) || st == Offer(w) || st == End(w)
    ensures Inv(Apply(s, st))
  {
    HolderSends(s, w);
    HolderKeeps(s, Apply(s, st), w, Apply(s, st).workers[w]);
  }

  lemma StepKeeps(s: State, st: Step)
    requires Inv(s) && LookersAsk(s) && Enabled(s, st)
    ensures Inv(Apply(s, st))
  {
    match st
    case Look(w) => BystanderKeeps(s, w, if w in s.asksForConfig && !s.configSent then Looked else InSession);
    case Swap(w) =>
      if s.requestInFlight {
        BystanderKeeps(s, w, InSession);
      } else {
        SwapKeeps(s, w);
      }
    case Answer(w) => HolderStepKeeps(s, w, st);
    case Offer(w) => HolderStepKeeps(s, w, st);
    case End(w) =>
      if s.workers[w].InSession? {
        BystanderKeeps(s, w, Top);
      } else {
        HolderStepKeeps(s, w, st);
      }
    case Update(w) => UpdateKeeps(s, w);
    case Quit(w) => BystanderKeeps(s, w, Gone);
    case Consume =>
    case Close =>
  }

  // ---------------------------------------------------------------------
  // Runs
  // ---------------------------------------------------------------------

  predicate Legal(s: State, run: seq<Step>)
    decreases |run|, 0
  {
    run == [] || (Legal(s, run[..|run| - 1]) && Enabled(After(s, run[..|run| - 1]), run[|run| - 1]))
  }

  function After(s: State, run: seq<Step>): State
    requires Legal(s, run)
    decreases |run|, 1
  {
    if run == [] then s else Apply(After(s, run[..|run| - 1]), run[|run| - 1])
  }

  lemma {:induction false} InvHolds(s: State, run: seq<Step>)
    requires Init(s) && Legal(s, run)
    ensures Inv(After(s, run)) && LookersAsk(After(s, run))
  {
    if run == [] {
      InitInv(s);
    } else {
      InvHolds(s, run[..|run| - 1]);
      StepKeeps(After(s, run[..|run| - 1]), run[|run| - 1]);
      StepKeepsLookers(After(s, run[..|run| - 1]), run[|run| - 1]);
    }
  }

  /**
   In every reachable state at most one worker holds the token, at most one
   message was ever sent, nobody ever found the channel full, and nobody sends
   once the channel is closed.
   */
  lemma ConfigDeliveredAtMostOnce(s: State, run: seq<Step>)
    requires Init(s) && Legal(s, run)
    ensures var t := After(s, run);
            && (forall v, w :: v in t.workers && w in t.workers && Holds(t.workers[v]) && Holds(t.workers[w])
                 ==> v == w)
            && t.sends <= 1 && t.refused == 0
            && (forall w :: Enabled(t, Offer(w)) ==> t.inChannel < CHANNEL_CAP && !t.closed)
  {
    InvHolds(s, run);
  }

  /** Once a message was sent no session is started with the token any more. */
  lemma DeliveryIsFinal(s: State, st: Step)
    requires Inv(s) && LookersAsk(s) && Enabled(s, st) && s.sends > 0
    ensures Apply(s, st).asked == s.asked && Apply(s, st).sends == s.sends
  {
    assert s.requestInFlight;
  }

  lemma {:induction false} NoAskingAfterDelivery(s: State, before: seq<Step>, after: seq<Step>)
    requires Init(s) && Legal(s, before + after) && Legal(s, before) && After(s, before).sends > 0
    ensures After(s, before + after).asked == After(s, before).asked && After(s, before + after).sends == 1
  {
    InvHolds(s, before);
    if after == [] {
      assert before + after == before;
    } else {
      var run := before + after;
      assert run[..|run| - 1] == before + after[..|after| - 1];
      NoAskingAfterDelivery(s, before, after[..|after| - 1]);
      InvHolds(s, run[..|run| - 1]);
      DeliveryIsFinal(After(s, run[..|run| - 1]), run[|run| - 1]);
    }
  }

  /** A session that fails to deliver hands the token back: the next worker to look can have it. */
  lemma FailureFreesTheToken(s: State, run: seq<Step>, w: WorkerId, v: WorkerId)
    requires Init(s) && Legal(s, run)
    requires w in After(s, run).workers && After(s, run).workers[w] == Ended(false)
    requires v in After(s, run).workers && After(s, run).workers[v].Looked?
    ensures var t := Apply(After(s, run), Update(w));
            Enabled(t, Swap(v)) && Apply(t, Swap(v)).workers[v].Asking?
  {
    InvHolds(s, run);
  }

  /** A worker of the first group that looks while the token is free and nothing was sent gets to ask. */
  lemma FreeTokenIsTaken(s: State, run: seq<Step>, w: WorkerId)
    requires Init(s) && Legal(s, run)
    requires var t := After(s, run);
             && w in t.asksForConfig && w in t.workers && t.workers[w].Top?
             && !t.configSent && !t.requestInFlight
    ensures var t := After(s, run);
            && Enabled(t, Look(w)) && Enabled(Apply(t, Look(w)), Swap(w))
            && var u := Apply(Apply(t, Look(w)), Swap(w));
               u.workers == t.workers[w := Asking] && u.asked == t.asked + 1 && u.requestInFlight
  {}

  /**
   In every reachable state the token is free, or somebody has it, or the configuration was
   sent; and one message was sent just when somebody's session delivered it.
   */
  lemma TokenIsNeverLost(s: State, run: seq<Step>)
    requires Init(s) && Legal(s, run)
    ensures var t := After(s, run);
            && (!t.requestInFlight || t.configSent || exists w :: w in t.workers && Holds(t.workers[w]))
            && (t.sends == 1 <==> t.configSent || exists w :: w in t.workers && HasDelivered(t.workers[w]))
  {
    InvHolds(s, run);
  }

  /** The holder's configuration always gets into the channel: it finds it empty. */
  lemma HolderDelivers(s: State, run: seq<Step>, w: WorkerId)
    requires Init(s) && Legal(s, run) && Enabled(After(s, run), Offer(w))
    ensures var t := After(s, run);
            && t.inChannel == 0 && Apply(t, Offer(w)).inChannel == 1
            && Apply(t, Offer(w)).sends == 1 && Apply(t, Offer(w)).workers[w].Delivered?
  {
    InvHolds(s, run);
    HolderSends(After(s, run), w);
  }

  /** Workers of other groups never ask, and after the delivery nobody does. */
  lemma OnlyTheFirstGroupAsks(s: State, run: seq<Step>, w: WorkerId)
    requires Init(s) && Legal(s, run) && w in After(s, run).workers && Holds(After(s, run).workers[w])
    ensures w in s.asksForConfig
  {
    InvHolds(s, run);
    GroupStays(s, run);
  }

  lemma StepKeepsGroup(s: State, st: Step)
    requires Enabled(s, st)
    ensures Apply(s, st).asksForConfig == s.asksForConfig
  {}

  lemma {:induction false} GroupStays(s: State, run: seq<Step>)
    requires Legal(s, run)
    ensures After(s, run).asksForConfig == s.asksForConfig
  {
    if run != [] {
      GroupStays(s, run[..|run| - 1]);
      StepKeepsGroup(After(s, run[..|run| - 1]), run[|run| - 1]);
    }
  }
}
