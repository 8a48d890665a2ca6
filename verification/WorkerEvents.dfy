/**
  The event loop of one worker attempt, over the run it persists into
  (apps/daemon/src/worker/worker-runner.ts, `run` and `persistEvent`).

  No other builder moves the run while the loop consumes its stream.
 */
module WorkerEvents {
  import opened Wrappers
  import opened ProjectModel
  import opened RunSteps
  import opened LifecycleInvariant

  datatype WorkerEvent =
    | Progress(attemptId: string)
    | Began(attemptId: string, piSessionId: SessionId)
    | Ended(attemptId: string, end: WorkerEnd)

  // persisted, refused by the executor (the loop returns), or thrown by the builder (the loop catches)
  datatype Persisted = Accepted(run: RunRecord) | Rejected | Threw

  function Persist(run: RunRecord, pin: Pin, event: WorkerEvent): Persisted {
    if event.attemptId != pin.attemptId || !Pinned(run, Some(pin)) then Rejected
    else if event.Progress? then Accepted(run)
    else if run.phase != Running then Rejected
    else
      var step := if event.Began? then AttemptStarted(pin, event.piSessionId) else AttemptEnded(pin, event.end);
      match StepWorker(step, run)
      case Ok(next) => Accepted(next)
      case Err(_) => Threw
  }

  // `Stopped`: the executor refused an event; otherwise the event the loop took as terminal
  datatype LoopResult = Stopped(run: RunRecord) | Finished(run: RunRecord, terminal: WorkerEnd)

  function StreamFailed(pin: Pin): WorkerEvent {
    Ended(pin.attemptId, WorkFailed("PI_PROVIDER_FAILED"))
  }

  function StreamClosed(pin: Pin): WorkerEvent {
    Ended(pin.attemptId, WorkFailed("PI_RPC_STREAM_CLOSED"))
  }

  // The failure that is persisted outside the stream; an error thrown here leaves the loop as a refusal does.
  function Close(run: RunRecord, pin: Pin, event: WorkerEvent): LoopResult
    requires event.Ended?
  {
    var persisted := Persist(run, pin, event);
    if persisted.Accepted? then Finished(persisted.run, event.end) else Stopped(run)
  }

  /** What the loop leaves: fold the events up to the first terminal one, then close. */
  function Consumed(run: RunRecord, pin: Pin, events: seq<WorkerEvent>, terminal: Option<WorkerEnd>, throws: bool): LoopResult
    decreases |events|
  {
    if events == [] then
      if throws then Close(run, pin, StreamFailed(pin))
      else if terminal.Some? then Finished(run, terminal.value)
      else Close(run, pin, StreamClosed(pin))
    else if terminal.Some? then Consumed(run, pin, events[1..], terminal, throws)
    else
      match Persist(run, pin, events[0])
      case Rejected => Stopped(run)
      case Threw => Close(run, pin, StreamFailed(pin))
      case Accepted(next) =>
        Consumed(next, pin, events[1..], if events[0].Ended? then Some(events[0].end) else None, throws)
  }

  method ConsumeEvents(start: RunRecord, pin: Pin, events: seq<WorkerEvent>, throws: bool) returns (r: LoopResult)
    ensures r == Consumed(start, pin, events, None, throws)
  {
    var run, terminal := start, None;
    var i, caught := 0, false;
    while i < |events| && !caught
      invariant 0 <= i <= |events|
      invariant Consumed(start, pin, events, None, throws) ==
                  if caught then Close(run, pin, StreamFailed(pin)) else Consumed(run, pin, events[i..], terminal, throws)
      decreases |events| - i, if caught then 0 else 1
    {
      assert events[i..][1..] == events[i + 1..];
      if terminal.None? {
        var persisted := Persist(run, pin, events[i]);
        if persisted.Rejected? {
          return Stopped(run);
        }
        if persisted.Threw? {
          caught := true;
        } else {
          run := persisted.run;
          if events[i].Ended? {
            terminal := Some(events[i].end);
          }
        }
      }
      i := i + 1;
    }
    if caught || throws {
      return Close(run, pin, StreamFailed(pin));
    }
    if terminal.None? {
      return Close(run, pin, StreamClosed(pin));
    }
    return Finished(run, terminal.value);
  }

  function LastStatus(run: RunRecord): Option<AttemptStatus> {
    if LastAttempt(run).Some? then Some(LastAttempt(run).value.status) else None
  }

  // From a run whose last attempt is the pinned, active one

  predicate Listening(run: RunRecord, pin: Pin) {
    AttemptsInv(run) && run.phase == Running && Pinned(run, Some(pin)) && HasActive(run)
  }

  lemma PersistKeepsListening(run: RunRecord, pin: Pin, event: WorkerEvent)
    requires Listening(run, pin) && Persist(run, pin, event).Accepted?
    ensures var next := Persist(run, pin, event).run;
            if event.Ended? then
              && AttemptsInv(next) && Pinned(next, Some(pin)) && LastStatus(next) == Some(StatusAfter(event.end))
              && next.phase == if event.end.WorkCompleted? then Running else Paused
            else Listening(next, pin)
  {
    LastIsFirstMatch(run, pin);
    if !event.Progress? {
      var step := if event.Began? then AttemptStarted(pin, event.piSessionId) else AttemptEnded(pin, event.end);
      WorkerKeepsAttempts(step, run);
    }
  }

  lemma CloseEndsAttempt(run: RunRecord, pin: Pin, event: WorkerEvent)
    requires AttemptsInv(run) && run.phase == Running && Pinned(run, Some(pin))
    requires event.Ended? && event.end.WorkFailed? && event.attemptId == pin.attemptId
    ensures Close(run, pin, event).Finished?
    ensures var next := Close(run, pin, event).run; next.phase == Paused && LastStatus(next) == Some(AttemptFailed)
  {
    LastIsFirstMatch(run, pin);
  }

  lemma {:induction false} AfterTerminal(run: RunRecord, pin: Pin, events: seq<WorkerEvent>, end: WorkerEnd, throws: bool)
    ensures Consumed(run, pin, events, Some(end), throws) ==
              if throws then Close(run, pin, StreamFailed(pin)) else Finished(run, end)
    decreases |events|
  {
    if events != [] {
      AfterTerminal(run, pin, events[1..], end, throws);
    }
  }

  /**
    When the loop finishes, the attempt carries the status of the event it took as terminal, and the run is
    still RUNNING exactly for a completed one. When it is stopped, the attempt still runs, or a stream threw
    after a terminal event that had paused the run.
   */
  lemma {:induction false} LoopEndsAttempt(run: RunRecord, pin: Pin, events: seq<WorkerEvent>, throws: bool)
    requires Listening(run, pin)
    ensures var r := Consumed(run, pin, events, None, throws);
            if r.Finished? then
              && LastStatus(r.run) == Some(StatusAfter(r.terminal))
              && (r.run.phase == Running <==> r.terminal.WorkCompleted?)
              && (throws ==> r.terminal.WorkFailed?)
            else (HasActive(r.run) && r.run.phase == Running) || (throws && !HasActive(r.run) && r.run.phase == Paused)
    decreases |events|
  {
    if events == [] {
      CloseEndsAttempt(run, pin, if throws then StreamFailed(pin) else StreamClosed(pin));
    } else {
      match Persist(run, pin, events[0])
      case Rejected =>
      case Threw => CloseEndsAttempt(run, pin, StreamFailed(pin));
      case Accepted(next) =>
        PersistKeepsListening(run, pin, events[0]);
        if events[0].Ended? {
          AfterTerminal(next, pin, events[1..], events[0].end, throws);
          if events[0].end.WorkCompleted? {
            CloseEndsAttempt(next, pin, StreamFailed(pin));
          }
        } else {
          LoopEndsAttempt(next, pin, events[1..], throws);
        }
    }
  }

  /** The smallest such stream: COMPLETED, then an exception. The attempt had completed and is recorded as FAILED. */
  lemma ThrowAfterCompletedFailsAttempt(run: RunRecord, pin: Pin, piSessionId: SessionId)
    requires Listening(run, pin) && SessionStorable(LastAttempt(run).value, piSessionId)
    ensures var completed := Ended(pin.attemptId, WorkCompleted(piSessionId));
            var kept := Consumed(run, pin, [completed], None, false);
            var lost := Consumed(run, pin, [completed], None, true);
            && kept.Finished? && LastStatus(kept.run) == Some(AttemptCompleted) && kept.run.phase == Running
            && lost.Finished? && LastStatus(lost.run) == Some(AttemptFailed) && lost.run.phase == Paused
  {
    var completed := Ended(pin.attemptId, WorkCompleted(piSessionId));
    LastIsFirstMatch(run, pin);
    assert Persist(run, pin, completed).Accepted?;
    var next := Persist(run, pin, completed).run;
    PersistKeepsListening(run, pin, completed);
    assert [completed][1..] == [];
    AfterTerminal(next, pin, [], WorkCompleted(piSessionId), false);
    AfterTerminal(next, pin, [], WorkCompleted(piSessionId), true);
    CloseEndsAttempt(next, pin, StreamFailed(pin));
    LoopEndsAttempt(run, pin, [completed], false);
    LoopEndsAttempt(run, pin, [completed], true);
  }

  // Which events are taken

  /**
    While the attempt runs an event is refused exactly when it is another attempt's, and cannot be recorded exactly
    when it completes in another session than the attempt runs in, or one was stored before.
   */
  lemma EventsAreTaken(run: RunRecord, pin: Pin, event: WorkerEvent)
    requires Listening(run, pin)
    ensures Persist(run, pin, event).Rejected? <==> event.attemptId != pin.attemptId
    ensures Persist(run, pin, event).Threw? <==>
              && event.attemptId == pin.attemptId && event.Ended? && event.end.WorkCompleted?
              && var a := run.attempts[|run.attempts| - 1];
                 a.sessionStored || (a.piSessionId.Some? && a.piSessionId.value != event.end.piSessionId)
    ensures Persist(run, pin, event).Accepted? && event.Progress? ==> Persist(run, pin, event).run == run
    ensures Persist(run, pin, event).Accepted? && event.Began? ==>
              var next := Persist(run, pin, event).run;
              next.attempts != [] && next.attempts[|next.attempts| - 1].piSessionId == Some(event.piSessionId)
  {
    LastIsFirstMatch(run, pin);
  }

  /** Whatever the run: an event is refused exactly when it is not of the run's last attempt, or would change a run that no longer runs. */
  lemma RefusedExactly(run: RunRecord, pin: Pin, event: WorkerEvent)
    ensures Persist(run, pin, event).Rejected? <==>
              || event.attemptId != pin.attemptId || run.attempts == []
              || run.attempts[|run.attempts| - 1].attemptId != pin.attemptId
              || run.attempts[|run.attempts| - 1].generation != pin.generation
              || (!event.Progress? && run.phase != Running)
  {
  }

  predicate IsPassing(pin: Pin, event: WorkerEvent) {
    !event.Ended? && event.attemptId == pin.attemptId
  }

  // How the loop takes an end: as it is, or, when it cannot be recorded, as a failure of the provider
  predicate TakesEnd(r: LoopResult, end: WorkerEnd) {
    r.Finished? && (r.terminal == end || (end.WorkCompleted? && r.terminal == WorkFailed("PI_PROVIDER_FAILED")))
  }

  /** The first end of the attempt decides, whatever follows it; a stream that closes without one is a failure. */
  lemma {:induction false} FirstEndDecides(run: RunRecord, pin: Pin, events: seq<WorkerEvent>, n: nat)
    requires Listening(run, pin) && n <= |events| && forall i | 0 <= i < n :: IsPassing(pin, events[i])
    requires n < |events| ==> events[n].Ended? && events[n].attemptId == pin.attemptId
    ensures var r := Consumed(run, pin, events, None, false);
            if n == |events| then r.Finished? && r.terminal == WorkFailed("PI_RPC_STREAM_CLOSED") else TakesEnd(r, events[n].end)
    decreases n
  {
    if events == [] {
      CloseEndsAttempt(run, pin, StreamClosed(pin));
    } else {
      EventsAreTaken(run, pin, events[0]);
      if Persist(run, pin, events[0]).Threw? {
        CloseEndsAttempt(run, pin, StreamFailed(pin));
      } else {
        PersistKeepsListening(run, pin, events[0]);
        var next := Persist(run, pin, events[0]).run;
        if n > 0 {
          assert forall i | 0 <= i < n - 1 :: events[1..][i] == events[i + 1];
          FirstEndDecides(next, pin, events[1..], n - 1);
        } else {
          AfterTerminal(next, pin, events[1..], events[0].end, false);
        }
      }
    }
  }
}
