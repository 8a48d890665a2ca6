/**
  The retry loop of one review round: which session every adapter call uses, and what the round ends with
  (apps/daemon/src/review/review-runner.ts, `run`).
 */
module ReviewRetry {
  import opened Wrappers
  import opened ProjectModel

  datatype AgentResult =
    | AgentCompleted(valid: Option<ReviewResult>)
    | AgentFailed
    | AgentTimedOut
    | AgentCanceled

  // What one attempt meets: whether the round is still active, whether its deadline has passed, what the
  // adapter answers (`None` when it throws), and whether the round is active after a cancellation
  datatype Attempt = Attempt(
    active: bool, expired: bool, answer: Option<AgentResult>, sessionId: Option<SessionId>, activeAfter: bool)

  datatype RoundEnd =
    | RoundGone
    | RoundPaused
    | RoundFinalizes(session: SessionId, result: ReviewResult)

  // The session an adapter call resumes, `None` for a new one
  type Call = Option<SessionId>

  // The session after an answer, and whether the answer may be used at all
  function SessionAfter(session: Option<SessionId>, seen: Option<SessionId>): (Option<SessionId>, bool) {
    if seen.None? then (session, true)
    else if seen.value == "" then (session, false)
    else if session.None? then (seen, true)
    else (session, session == seen)
  }

  // One attempt ends the round, after a call or without one, or leaves it to the next attempt
  datatype Met = Ends(end: RoundEnd, called: bool) | Retries(session: Option<SessionId>)

  function Meet(session: Option<SessionId>, a: Attempt): Met {
    if !a.active then Ends(RoundGone, false)
    else if a.expired then Ends(RoundPaused, false)
    else if a.answer.None? then Retries(session)
    else if a.answer.value.AgentCanceled? && !a.activeAfter then Ends(RoundGone, true)
    else
      var (next, usable) := SessionAfter(session, a.sessionId);
      if usable && a.answer.value.AgentCompleted? && a.answer.value.valid.Some? && next.Some? then
        Ends(RoundFinalizes(next.value, a.answer.value.valid.value), true)
      else Retries(next)
  }

  function Round(session: Option<SessionId>, attempts: seq<Attempt>): (r: (RoundEnd, seq<Call>))
    ensures |r.1| <= |attempts|
    decreases |attempts|
  {
    if attempts == [] then (RoundPaused, [])
    else
      match Meet(session, attempts[0])
      case Ends(end, called) => (end, if called then [session] else [])
      case Retries(next) =>
        var later := Round(next, attempts[1..]);
        (later.0, [session] + later.1)
  }

  method RunRound(resumed: Option<SessionId>, attempts: seq<Attempt>) returns (end: RoundEnd, calls: seq<Call>)
    ensures (end, calls) == Round(resumed, attempts)
  {
    var reviewerSessionId := resumed;
    calls := [];
    var i := 0;
    assert attempts[0..] == attempts && [] + Round(resumed, attempts).1 == Round(resumed, attempts).1;
    while i < |attempts|
      invariant 0 <= i <= |attempts|
      invariant Round(resumed, attempts).0 == Round(reviewerSessionId, attempts[i..]).0
      invariant Round(resumed, attempts).1 == calls + Round(reviewerSessionId, attempts[i..]).1
    {
      assert attempts[i..][0] == attempts[i] && attempts[i..][1..] == attempts[i + 1..];
      assert calls + [] == calls;
      var met := Meet(reviewerSessionId, attempts[i]);
      if met.Ends? {
        return met.end, if met.called then calls + [reviewerSessionId] else calls;
      }
      ghost var later := Round(met.session, attempts[i + 1..]).1;
      assert calls + ([reviewerSessionId] + later) == (calls + [reviewerSessionId]) + later;
      calls := calls + [reviewerSessionId];
      reviewerSessionId := met.session;
      i := i + 1;
    }
    assert attempts[i..] == [] && calls + [] == calls;
    return RoundPaused, calls;
  }

  /**
    Once a session is known every later call of the round resumes it, and a round that finalizes does so in
    that session, with a result some attempt returned.
   */
  lemma {:induction false} RoundKeepsSession(session: Option<SessionId>, attempts: seq<Attempt>)
    ensures var (end, calls) := Round(session, attempts);
            && (calls != [] ==> calls[0] == session)
            && (forall i, j | 0 <= i < j < |calls| :: calls[i].Some? ==> calls[j] == calls[i])
            && (end.RoundFinalizes? ==>
                  && (forall i | 0 <= i < |calls| :: calls[i].Some? ==> calls[i].value == end.session)
                  && (session.Some? ==> session.value == end.session)
                  && exists a :: a in attempts && a.answer == Some(AgentCompleted(Some(end.result))) &&
                       (a.sessionId.None? || a.sessionId == Some(end.session)))
    decreases |attempts|
  {
    if attempts != [] && Round(session, attempts).1 != [] {
      var a := attempts[0];
      if Meet(session, a).Retries? {
        RoundKeepsSession(Meet(session, a).session, attempts[1..]);
      }
      assert a in attempts && forall b | b in attempts[1..] :: b in attempts;
    }
  }

  /** The adapter is called at most once per attempt, and a round that pauses has used them all or met its deadline. */
  lemma {:induction false} PausedRoundIsExhausted(session: Option<SessionId>, attempts: seq<Attempt>)
    ensures var (end, calls) := Round(session, attempts);
            && |calls| <= |attempts|
            && (end.RoundPaused? ==> |calls| == |attempts| || (attempts[|calls|].active && attempts[|calls|].expired))
            && (end.RoundPaused? ==> forall i | 0 <= i < |calls| :: attempts[i].active && !attempts[i].expired)
    decreases |attempts|
  {
    if attempts != [] && Round(session, attempts).1 != [] {
      var a := attempts[0];
      if Meet(session, a).Retries? {
        PausedRoundIsExhausted(Meet(session, a).session, attempts[1..]);
      }
    }
  }

  // How a round ends, attempt by attempt

  // The attempt brings a session of its own, if none is known yet.
  predicate Brings(a: Attempt, id: SessionId) {
    a.answer.Some? && a.sessionId == Some(id) && id != ""
  }

  /** The session known before attempt n: the one the round resumes, else the first that an answer brought. */
  function KnownBefore(resumed: Option<SessionId>, attempts: seq<Attempt>, n: nat): Option<SessionId>
    requires n <= |attempts|
  {
    if n == 0 || resumed.Some? then resumed
    else
      var early := KnownBefore(resumed, attempts, n - 1);
      var a := attempts[n - 1];
      if early.Some? then early else if a.answer.Some? && a.sessionId.Some? && a.sessionId.value != "" then a.sessionId else None
  }

  // A valid result that came in the known session, or brought the first one
  predicate Delivers(known: Option<SessionId>, a: Attempt, session: SessionId, result: ReviewResult) {
    && a.active && !a.expired && a.answer == Some(AgentCompleted(Some(result)))
    && if known.Some? then session == known.value && (a.sessionId.None? || a.sessionId == known) else Brings(a, session)
  }

  predicate IsGone(a: Attempt) {
    !a.active || (!a.expired && a.answer == Some(AgentCanceled) && !a.activeAfter)
  }

  predicate RunsOut(a: Attempt) {
    a.active && a.expired
  }

  ghost predicate EndsRound(known: Option<SessionId>, a: Attempt, end: RoundEnd) {
    match end
    case RoundGone => IsGone(a)
    case RoundPaused => RunsOut(a)
    case RoundFinalizes(session, result) => Delivers(known, a, session, result)
  }

  ghost predicate GoesOn(known: Option<SessionId>, a: Attempt) {
    forall end :: !EndsRound(known, a, end)
  }

  lemma MeetExactly(known: Option<SessionId>, a: Attempt)
    requires known != Some("")
    ensures Meet(known, a).Ends? ==> EndsRound(known, a, Meet(known, a).end)
    ensures Meet(known, a).Ends? ==>
              (Meet(known, a).called <==> a.active && !a.expired)
    ensures Meet(known, a).Retries? ==> GoesOn(known, a) && a.active && !a.expired && Meet(known, a).session == KnownBefore(known, [a], 1)
  {
    assert KnownBefore(known, [a], 0) == known;
  }

  lemma {:induction false} KnownShifts(resumed: Option<SessionId>, attempts: seq<Attempt>, n: nat)
    requires attempts != [] && n < |attempts|
    ensures KnownBefore(KnownBefore(resumed, [attempts[0]], 1), attempts[1..], n) == KnownBefore(resumed, attempts, n + 1)
  {
    assert KnownBefore(resumed, [attempts[0]], 0) == resumed == KnownBefore(resumed, attempts, 0);
    if n > 0 {
      KnownShifts(resumed, attempts, n - 1);
    }
  }

  // The round goes on for n attempts, and then ends so, or has no attempt left.
  ghost predicate EndsAfter(resumed: Option<SessionId>, attempts: seq<Attempt>, n: nat, end: RoundEnd) {
    && n <= |attempts|
    && (forall k | 0 <= k < n :: GoesOn(KnownBefore(resumed, attempts, k), attempts[k]))
    && if n == |attempts| then end == RoundPaused else EndsRound(KnownBefore(resumed, attempts, n), attempts[n], end)
  }

  lemma ShiftedEnd(resumed: Option<SessionId>, attempts: seq<Attempt>, n: nat, end: RoundEnd)
    requires attempts != [] && GoesOn(resumed, attempts[0])
    requires EndsAfter(KnownBefore(resumed, [attempts[0]], 1), attempts[1..], n, end)
    ensures EndsAfter(resumed, attempts, n + 1, end)
  {
    assert KnownBefore(resumed, attempts, 0) == resumed;
    forall k | 0 <= k < n + 1 ensures GoesOn(KnownBefore(resumed, attempts, k), attempts[k]) {
      if k > 0 {
        KnownShifts(resumed, attempts, k - 1);
        assert attempts[1..][k - 1] == attempts[k];
      }
    }
    if n < |attempts| - 1 {
      KnownShifts(resumed, attempts, n);
      assert attempts[1..][n] == attempts[n + 1];
    }
  }

  /**
    A round ends with the first attempt that ends it: gone when it is no longer active, paused when it has run out
    of time, finalized by the first valid result in its session; each call before resumes the session known by then.
   */
  lemma {:induction false} RoundEndsExactly(resumed: Option<SessionId>, attempts: seq<Attempt>) returns (n: nat)
    requires resumed != Some("")
    ensures var (end, calls) := Round(resumed, attempts);
            && EndsAfter(resumed, attempts, n, end)
            && |calls| == (if n < |attempts| && attempts[n].active && !attempts[n].expired then n + 1 else n)
            && forall k | 0 <= k < |calls| :: calls[k] == KnownBefore(resumed, attempts, k)
    decreases |attempts|
  {
    n := 0;
    assert KnownBefore(resumed, attempts, 0) == resumed;
    if attempts != [] {
      var met := Meet(resumed, attempts[0]);
      MeetExactly(resumed, attempts[0]);
      if met.Retries? {
        var later := RoundEndsExactly(met.session, attempts[1..]);
        n := later + 1;
        ShiftedEnd(resumed, attempts, later, Round(resumed, attempts).0);
        var calls := Round(resumed, attempts).1;
        forall k | 0 <= k < |calls| ensures calls[k] == KnownBefore(resumed, attempts, k) {
          if k > 0 {
            KnownShifts(resumed, attempts, k - 1);
          }
        }
      }
    }
  }
}
