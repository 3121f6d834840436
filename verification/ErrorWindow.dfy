/**
 The error counter of a credential cache. The counter and the time of the last
 error stand for a condition on the whole history of errors and successes; each
 call is taken as one step.
 */
module ErrorWindow {
  import opened Credentials
  import opened Wrappers

  type Seconds = int

  const MAX_ERRORS := 3
  const WINDOW: Seconds := 10

  datatype Happening = Error(at: Seconds) | Success | Invalidation

  /** The events from position i on are errors, each at most ten seconds after the one before it. */
  ghost predicate CloseErrors(h: seq<Happening>, i: nat) {
    && (forall k :: i <= k < |h| ==> h[k].Error?)
    && (forall j, k :: i <= j < |h| && i <= k < |h| && k == j + 1 ==> h[k].at - h[j].at <= WINDOW)
  }

  /** How many errors at the end follow each other closely. */
  ghost function Streak(h: seq<Happening>): nat {
    if h == [] || !h[|h| - 1].Error? then 0
    else if |h| >= 2 && h[|h| - 2].Error? && h[|h| - 1].at - h[|h| - 2].at <= WINDOW then Streak(h[..|h| - 1]) + 1
    else 1
  }

  /** The streak has k errors exactly when the last k events are errors that are close to each other. */
  lemma {:induction false} StreakMeans(h: seq<Happening>, k: nat)
    ensures Streak(h) >= k <==> k <= |h| && CloseErrors(h, |h| - k)
  {
    if k > 0 && h != [] {
      var front := h[..|h| - 1];
      StreakMeans(front, k - 1);
      if k <= |h| && CloseErrors(h, |h| - k) {
        assert CloseErrors(front, |front| - (k - 1));
        assert k >= 2 ==> h[|h| - 2].Error? && h[|h| - 1].at - h[|h| - 2].at <= WINDOW;
      }
      if Streak(h) >= k >= 2 {
        LastIsClose(h, |h| - k);
      }
    }
  }

  lemma LastIsClose(h: seq<Happening>, i: nat)
    requires i + 2 <= |h| && CloseErrors(h[..|h| - 1], i)
    requires h[|h| - 1].Error? && h[|h| - 1].at - h[|h| - 2].at <= WINDOW
    ensures CloseErrors(h, i)
  {
    var front := h[..|h| - 1];
    forall k | i <= k < |h| ensures h[k].Error? {
      assert k < |front| ==> front[k].Error?;
    }
    forall j, k | i <= j < |h| && i <= k < |h| && k == j + 1 ensures h[k].at - h[j].at <= WINDOW {
      assert k < |front| ==> front[k].at - front[j].at <= WINDOW;
    }
  }

  class CredentialCache {
    var creds: Option<Creds>
    var errorCount: int
    var lastErrorTime: Seconds
    ghost var history: seq<Happening>

    /** The counter is the streak of errors, and never rests at three. */
    ghost predicate Valid()
      reads this
    {
      && errorCount == Streak(history) < MAX_ERRORS
      && (errorCount > 0 ==> history != [] && history[|history| - 1] == Error(lastErrorTime))
    }

    constructor ()
      ensures Valid() && history == [] && creds == None
    {
      creds, errorCount, lastErrorTime, history := None, 0, 0, [];
    }

    method Invalidate()
      modifies this
      ensures Valid() && creds == None && history == old(history) + [Invalidation]
    {
      creds := None;
      errorCount := 0;
      lastErrorTime := 0;
      history := history + [Invalidation];
    }

    /** A session got its relay. */
    method NoteSuccess()
      requires Valid()
      modifies this
      ensures Valid() && creds == old(creds) && history == old(history) + [Success]
    {
      errorCount := 0;
      history := history + [Success];
    }

    /**
     Reports, and invalidates the cache, exactly when the last three events are
     errors and each came at most ten seconds after the one before it.
     */
    method HandleAuthError(now: Seconds) returns (reported: bool)
      requires Valid()
      modifies this
      ensures Valid()
      ensures var h := old(history) + [Error(now)];
              && (reported <==> |h| >= 3 && CloseErrors(h, |h| - 3))
              && history == (if reported then h + [Invalidation] else h)
      ensures creds == if reported then None else old(creds)
    {
      ghost var h := history + [Error(now)];
      StreakGrows(history, now);
      StreakMeans(h, MAX_ERRORS);
      if now - lastErrorTime > WINDOW {
        errorCount := 0;
      }
      errorCount := errorCount + 1;
      lastErrorTime := now;
      history := h;
      var count := errorCount;
      if count >= MAX_ERRORS {
        Invalidate();
        return true;
      }
      return false;
    }
  }

  lemma StreakGrows(h: seq<Happening>, now: Seconds)
    ensures Streak(h + [Error(now)])
         == if Streak(h) > 0 && now - h[|h| - 1].at <= WINDOW then Streak(h) + 1 else 1
  {
    assert (h + [Error(now)])[..|h|] == h;
  }
}
