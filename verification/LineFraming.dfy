/**
  Reading the Codex event stream line by line, however its chunks fall
  (packages/review/src/agents/codex/cli/adapter.ts, consumeStdout; events.ts, reduceCodexEventLine).

  What JSON.parse makes of a line is a parameter, `Parse`, that tells the cases apart the reducer tells apart.
 */
module LineFraming {
  import opened Wrappers
  import opened Text

  datatype CodexEvent =
    | ThreadStarted(threadId: Option<string>)
    | TurnCompleted
    | TurnFailed(message: string)
    | ErrorReported(message: string)
    | AgentMessage(text: Option<string>)
    | Irrelevant

  type Parse = string -> CodexEvent

  datatype Failure = Failure(code: string, message: string)
  datatype EventState = EventState(
    sessionId: Option<string>, turnCompleted: bool, agentMessage: Option<string>, failure: Option<Failure>)

  function InitialState(expectedSessionId: Option<string>): EventState {
    EventState(expectedSessionId, false, None, None)
  }

  function WithFailure(state: EventState, code: string, message: string): EventState {
    if state.failure.Some? then state else state.(failure := Some(Failure(code, message)))
  }

  function ReduceEvent(state: EventState, event: CodexEvent): EventState {
    match event
    case ThreadStarted(None) => WithFailure(state, "CODEX_EVENT_INVALID", "thread.started did not include a non-empty thread_id")
    case ThreadStarted(Some(id)) =>
      if state.sessionId.Some? && state.sessionId.value != id then
        WithFailure(state, "CODEX_SESSION_MISMATCH", "Codex changed thread_id from " + state.sessionId.value + " to " + id)
      else state.(sessionId := Some(id))
    case TurnCompleted => state.(turnCompleted := true)
    case TurnFailed(message) => WithFailure(state, "CODEX_TURN_FAILED", message)
    case ErrorReported(message) => WithFailure(state, "CODEX_ERROR", message)
    case AgentMessage(None) => WithFailure(state, "CODEX_EVENT_INVALID", "agent_message item.completed did not include text")
    case AgentMessage(Some(text)) => state.(agentMessage := Some(text))
    case Irrelevant => state
  }

  function ReduceLine(parse: Parse, state: EventState, line: string): EventState {
    var trimmed := Trim(line);
    if trimmed == "" then state else ReduceEvent(state, parse(trimmed))
  }

  // One reading step, so that framing can be told apart from what a line means
  type LineStep = (EventState, string) -> EventState

  function Reducer(parse: Parse): LineStep {
    (state: EventState, line: string) => ReduceLine(parse, state, line)
  }

  function FoldLines(step: LineStep, state: EventState, lines: seq<string>): EventState {
    if lines == [] then state
    else step(FoldLines(step, state, lines[..|lines| - 1]), lines[|lines| - 1])
  }

  /** The state the whole text stands for: its newline split, folded. */
  function StateOf(parse: Parse, start: EventState, text: string): EventState {
    FoldLines(Reducer(parse), start, Split(text, '\n'))
  }

  // The stream object

  class CodexStream {
    const parse: Parse
    const start: EventState
    var stdoutRemainder: string
    var eventState: EventState
    // everything received so far
    ghost var received: string

    constructor (parse: Parse, expectedSessionId: Option<string>)
      ensures this.parse == parse && start == InitialState(expectedSessionId)
      ensures received == "" && Valid()
    {
      this.parse := parse;
      this.start := InitialState(expectedSessionId);
      stdoutRemainder := "";
      eventState := InitialState(expectedSessionId);
      received := "";
    }

    // All lines but the last, unfinished one have been reduced.
    ghost predicate Valid()
      reads this
    {
      (eventState, stdoutRemainder) == SplitState(Reducer(parse), start, received)
    }

    method ConsumeStdout(chunk: string)
      requires Valid()
      modifies this
      ensures received == old(received) + chunk && Valid()
    {
      received := received + chunk;
      stdoutRemainder := stdoutRemainder + chunk;
      ghost var text, state := stdoutRemainder, eventState;
      var newlineIndex := IndexOfNewline(stdoutRemainder);
      while newlineIndex.Some?
        invariant newlineIndex == IndexOfNewline(stdoutRemainder)
        invariant received == old(received) + chunk
        invariant Drain(Reducer(parse), eventState, stdoutRemainder) == Drain(Reducer(parse), state, text)
        decreases |stdoutRemainder|
      {
        var line := stdoutRemainder[..newlineIndex.value];
        stdoutRemainder := stdoutRemainder[newlineIndex.value + 1..];
        eventState := ReduceLine(parse, eventState, line);
        newlineIndex := IndexOfNewline(stdoutRemainder);
      }
      DrainContinues(Reducer(parse), start, old(received), chunk);
    }

    /** The unfinished line is reduced when the process closes; an empty one is not. */
    method Close()
      requires Valid()
      modifies this
      ensures eventState == StateOf(parse, start, old(received))
    {
      if |stdoutRemainder| > 0 {
        eventState := ReduceLine(parse, eventState, stdoutRemainder);
        stdoutRemainder := "";
      }
    }
  }

  function IndexOfNewline(s: string): (r: Option<nat>)
    ensures r.Some? ==> r.value < |s| && s[r.value] == '\n' && '\n' !in s[..r.value]
    ensures r.None? ==> '\n' !in s
  {
    if s == "" then None
    else if s[0] == '\n' then Some(0)
    else
      var rest := IndexOfNewline(s[1..]);
      if rest.Some? then
        assert s[..rest.value + 1] == [s[0]] + s[1..][..rest.value];
        Some(rest.value + 1)
      else None
  }

  /** What the loop over the complete lines of a text leaves: the state, and the line that is not complete. */
  function Drain(step: LineStep, state: EventState, text: string): (EventState, string)
    decreases |text|
  {
    match IndexOfNewline(text)
    case None => (state, text)
    case Some(i) => Drain(step, step(state, text[..i]), text[i + 1..])
  }

  lemma {:induction false} FoldFront(step: LineStep, state: EventState, line: string, more: seq<string>)
    ensures FoldLines(step, state, [line] + more) == FoldLines(step, step(state, line), more)
  {
    var lines := [line] + more;
    if more == [] {
      assert lines[..0] == [];
    } else {
      var n := |more| - 1;
      assert lines[..n + 1] == [line] + more[..n];
      FoldFront(step, state, line, more[..n]);
    }
  }

  // The state after all lines but the last, and the last
  function StateAndLast(step: LineStep, state: EventState, lines: seq<string>): (EventState, string)
    requires lines != []
  {
    (FoldLines(step, state, lines[..|lines| - 1]), lines[|lines| - 1])
  }

  function SplitState(step: LineStep, state: EventState, text: string): (EventState, string) {
    StateAndLast(step, state, Split(text, '\n'))
  }

  lemma {:induction false} DrainSplits(step: LineStep, state: EventState, text: string)
    ensures Drain(step, state, text) == SplitState(step, state, text)
    decreases |text|
  {
    match IndexOfNewline(text)
    case None =>
      SplitPlain(text, '\n');
      assert [text][..0] == [];
    case Some(i) =>
      var line, rest := text[..i], text[i + 1..];
      DrainSplits(step, step(state, line), rest);
      assert text == line + ['\n'] + rest;
      SplitAtSeparator(line, rest, '\n');
      var more := Split(rest, '\n');
      var n := |more| - 1;
      assert ([line] + more)[..n + 1] == [line] + more[..n];
      FoldFront(step, state, line, more[..n]);
  }

  lemma FoldTail(step: LineStep, start: EventState, early: seq<string>, tail: seq<string>)
    requires tail != []
    ensures StateAndLast(step, start, early + tail) == StateAndLast(step, FoldLines(step, start, early), tail)
  {
    var lines := early + tail;
    assert lines[..|lines| - 1] == early + tail[..|tail| - 1];
    FoldAppend(step, start, early, tail[..|tail| - 1]);
  }

  lemma ContinuedState(step: LineStep, start: EventState, lines: seq<string>, chunk: string)
    requires lines != []
    ensures var (state, last) := StateAndLast(step, start, lines);
            Drain(step, state, last + chunk) == StateAndLast(step, start, Continued(lines, chunk, '\n'))
  {
    var n := |lines| - 1;
    DrainSplits(step, FoldLines(step, start, lines[..n]), lines[n] + chunk);
    FoldTail(step, start, lines[..n], Split(lines[n] + chunk, '\n'));
  }

  /** Draining the last line and a chunk continues the text that came before. */
  lemma DrainContinues(step: LineStep, start: EventState, text: string, chunk: string)
    ensures var (state, last) := SplitState(step, start, text);
            Drain(step, state, last + chunk) == SplitState(step, start, text + chunk)
  {
    SplitAppend(text, chunk, '\n');
    ContinuedState(step, start, Split(text, '\n'), chunk);
  }

  lemma {:induction false} FoldAppend(step: LineStep, state: EventState, a: seq<string>, b: seq<string>)
    ensures FoldLines(step, state, a + b) == FoldLines(step, FoldLines(step, state, a), b)
  {
    if b == [] {
      assert a + b == a;
    } else {
      assert (a + b)[..|a + b| - 1] == a + b[..|b| - 1];
      FoldAppend(step, state, a, b[..|b| - 1]);
    }
  }

  // What chunking cannot change

  function Concat(chunks: seq<string>): string {
    if chunks == [] then "" else Concat(chunks[..|chunks| - 1]) + chunks[|chunks| - 1]
  }

  method ReadStream(parse: Parse, expectedSessionId: Option<string>, chunks: seq<string>) returns (final: EventState)
    ensures final == StateOf(parse, InitialState(expectedSessionId), Concat(chunks))
    ensures Says(expectedSessionId, EventsOf(parse, Split(Concat(chunks), '\n')), final)
  {
    var stream := new CodexStream(parse, expectedSessionId);
    for i := 0 to |chunks|
      invariant stream.Valid() && stream.received == Concat(chunks[..i]) && fresh(stream)
      invariant stream.parse == parse && stream.start == InitialState(expectedSessionId)
    {
      assert chunks[..i + 1][..i] == chunks[..i];
      stream.ConsumeStdout(chunks[i]);
    }
    assert chunks[..|chunks|] == chunks;
    stream.Close();
    final := stream.eventState;
    StreamSays(parse, expectedSessionId, Concat(chunks));
  }

  predicate Keeps(state: EventState, after: EventState) {
    && (state.failure.Some? ==> after.failure == state.failure)
    && (state.sessionId.Some? ==> after.sessionId == state.sessionId)
    && (state.turnCompleted ==> after.turnCompleted)
    && (state.agentMessage.Some? ==> after.agentMessage.Some?)
  }

  lemma EventKeepsFirst(state: EventState, event: CodexEvent)
    ensures Keeps(state, ReduceEvent(state, event))
  {
    if Fails(state, event) {
      var next := ReduceEvent(state, event);
      assert next == state || (state.failure.None? && next == state.(failure := next.failure));
    }
  }

  // The events that can only record a failure
  predicate Fails(state: EventState, event: CodexEvent) {
    match event
    case ThreadStarted(id) => id.None? || (state.sessionId.Some? && state.sessionId != id)
    case TurnFailed(_) => true
    case ErrorReported(_) => true
    case AgentMessage(text) => text.None?
    case _ => false
  }

  /** The first failure stays, a session id once set never changes, and a completed turn stays completed. */
  lemma {:induction false} LaterLinesKeepFirst(parse: Parse, state: EventState, lines: seq<string>)
    ensures Keeps(state, FoldLines(Reducer(parse), state, lines))
  {
    if lines != [] {
      var n := |lines| - 1;
      LaterLinesKeepFirst(parse, state, lines[..n]);
      EventKeepsFirst(FoldLines(Reducer(parse), state, lines[..n]), parse(Trim(lines[n])));
    }
  }

  /**
    Whatever was settled by the complete lines of a prefix of the stream is what the whole stream settles:
    its failure, its session.
   */
  lemma PrefixSettlesFailureAndSession(parse: Parse, expected: Option<string>, text: string, more: string)
    ensures var early := StateOf(parse, InitialState(expected), text + "\n");
            var late := StateOf(parse, InitialState(expected), text + "\n" + more);
            && (early.failure.Some? ==> late.failure == early.failure)
            && (early.sessionId.Some? ==> late.sessionId == early.sessionId)
            && (expected.Some? ==> late.sessionId == expected)
  {
    var start := InitialState(expected);
    var lines := Split(text + "\n", '\n');
    SplitAppend(text + "\n", more, '\n');
    EndsInEmptyLine(text);
    assert Split(text + "\n" + more, '\n') == lines[..|lines| - 1] + Split(more, '\n') by {
      assert lines[|lines| - 1] + more == more;
    }
    FoldAppend(Reducer(parse), start, lines[..|lines| - 1], Split(more, '\n'));
    assert FoldLines(Reducer(parse), start, lines) == FoldLines(Reducer(parse), start, lines[..|lines| - 1]);
    LaterLinesKeepFirst(parse, FoldLines(Reducer(parse), start, lines[..|lines| - 1]), Split(more, '\n'));
    LaterLinesKeepFirst(parse, start, Split(text + "\n" + more, '\n'));
  }

  lemma {:induction false} EndsInEmptyLine(text: string)
    ensures var lines := Split(text + "\n", '\n'); lines[|lines| - 1] == ""
  {
    SplitAppend(text, "\n", '\n');
    var lines := Split(text, '\n');
    var last := lines[|lines| - 1];
    SplitAtSeparator(last, "", '\n');
    assert last + ['\n'] + "" == last + "\n";
    assert Split("", '\n') == [""];
  }

  // What a stream says, in terms of its events

  /** The events of the lines that are not blank, in order. */
  function EventsOf(parse: Parse, lines: seq<string>): seq<CodexEvent> {
    if lines == [] then []
    else
      var line := Trim(lines[|lines| - 1]);
      EventsOf(parse, lines[..|lines| - 1]) + if line == "" then [] else [parse(line)]
  }

  predicate NamesThread(event: CodexEvent) {
    event.ThreadStarted? && event.threadId.Some?
  }

  predicate IsFirstThread(events: seq<CodexEvent>, i: nat) {
    i < |events| && NamesThread(events[i]) && forall j | 0 <= j < i :: !NamesThread(events[j])
  }

  function FirstThread(events: seq<CodexEvent>): (r: Option<string>)
    ensures r.None? <==> forall e | e in events :: !NamesThread(e)
    ensures r.Some? ==> exists i: nat :: IsFirstThread(events, i) && events[i].threadId == r
  {
    if events == [] then None
    else
      var n := |events| - 1;
      var early := FirstThread(events[..n]);
      assert events == events[..n] + [events[n]];
      if early.Some? then
        assert exists i: nat :: IsFirstThread(events[..n], i) && events[..n][i].threadId == early;
        assert forall i: nat | IsFirstThread(events[..n], i) :: IsFirstThread(events, i);
        early
      else if NamesThread(events[n]) then
        assert IsFirstThread(events, n);
        events[n].threadId
      else None
  }

  /** The session an event comes in: the expected one, else that of the first thread started before it. */
  function SessionBefore(expected: Option<string>, events: seq<CodexEvent>, n: nat): Option<string>
    requires n <= |events|
  {
    if expected.Some? then expected else FirstThread(events[..n])
  }

  /** What goes wrong with an event that comes in a session. */
  function FailureOf(session: Option<string>, event: CodexEvent): Option<Failure> {
    match event
    case TurnFailed(message) => Some(Failure("CODEX_TURN_FAILED", message))
    case ErrorReported(message) => Some(Failure("CODEX_ERROR", message))
    case AgentMessage(None) => Some(Failure("CODEX_EVENT_INVALID", "agent_message item.completed did not include text"))
    case ThreadStarted(None) => Some(Failure("CODEX_EVENT_INVALID", "thread.started did not include a non-empty thread_id"))
    case ThreadStarted(Some(id)) =>
      if session.None? || session.value == id then None
      else Some(Failure("CODEX_SESSION_MISMATCH", "Codex changed thread_id from " + session.value + " to " + id))
    case _ => None
  }

  function FailureAt(expected: Option<string>, events: seq<CodexEvent>, i: nat): Option<Failure>
    requires i < |events|
  {
    FailureOf(SessionBefore(expected, events, i), events[i])
  }

  predicate IsFirstFailure(expected: Option<string>, events: seq<CodexEvent>, i: nat) {
    && i < |events| && FailureAt(expected, events, i).Some?
    && forall j | 0 <= j < i :: FailureAt(expected, events, j).None?
  }

  predicate IsLastMessage(events: seq<CodexEvent>, i: nat) {
    && i < |events| && events[i].AgentMessage? && events[i].text.Some?
    && forall j | i < j < |events| :: !(events[j].AgentMessage? && events[j].text.Some?)
  }

  // What a state says of the events that led to it

  predicate TurnIs(events: seq<CodexEvent>, state: EventState) {
    state.turnCompleted <==> TurnCompleted in events
  }

  predicate SessionIs(expected: Option<string>, events: seq<CodexEvent>, state: EventState) {
    state.sessionId == SessionBefore(expected, events, |events|)
  }

  ghost predicate MessageIs(events: seq<CodexEvent>, state: EventState) {
    && (state.agentMessage.None? <==> forall e | e in events :: !(e.AgentMessage? && e.text.Some?))
    && (state.agentMessage.Some? ==> exists i: nat :: IsLastMessage(events, i) && events[i].text == state.agentMessage)
  }

  ghost predicate FailureIs(expected: Option<string>, events: seq<CodexEvent>, state: EventState) {
    && (state.failure.None? <==> forall i | 0 <= i < |events| :: FailureAt(expected, events, i).None?)
    && (state.failure.Some? ==>
          exists i: nat :: IsFirstFailure(expected, events, i) && FailureAt(expected, events, i) == state.failure)
  }

  ghost predicate Says(expected: Option<string>, events: seq<CodexEvent>, state: EventState) {
    && TurnIs(events, state) && SessionIs(expected, events, state) && MessageIs(events, state)
    && FailureIs(expected, events, state)
  }

  lemma PrefixSays(expected: Option<string>, events: seq<CodexEvent>, event: CodexEvent, i: nat)
    requires i <= |events|
    ensures SessionBefore(expected, events + [event], i) == SessionBefore(expected, events, i)
    ensures i < |events| ==> FailureAt(expected, events + [event], i) == FailureAt(expected, events, i)
  {
    assert (events + [event])[..i] == events[..i];
  }

  lemma FailureFollows(state: EventState, event: CodexEvent)
    ensures ReduceEvent(state, event).failure == if state.failure.Some? then state.failure else FailureOf(state.sessionId, event)
  {
  }

  lemma TurnFollows(events: seq<CodexEvent>, event: CodexEvent, state: EventState)
    requires TurnIs(events, state)
    ensures TurnIs(events + [event], ReduceEvent(state, event))
  {
  }

  lemma SessionFollows(expected: Option<string>, events: seq<CodexEvent>, event: CodexEvent, state: EventState)
    requires SessionIs(expected, events, state)
    ensures SessionIs(expected, events + [event], ReduceEvent(state, event))
  {
    var all := events + [event];
    assert all[..|events| + 1] == all && events[..|events|] == events && all[..|all| - 1] == events;
  }

  lemma MessageFollows(events: seq<CodexEvent>, event: CodexEvent, state: EventState)
    requires MessageIs(events, state)
    ensures MessageIs(events + [event], ReduceEvent(state, event))
  {
    var all := events + [event];
    assert event in all && forall e | e in events :: e in all;
    if event.AgentMessage? && event.text.Some? {
      assert IsLastMessage(all, |events|);
    } else if state.agentMessage.Some? {
      var i: nat :| IsLastMessage(events, i) && events[i].text == state.agentMessage;
      assert IsLastMessage(all, i);
    }
  }

  lemma FirstFailureFollows(expected: Option<string>, events: seq<CodexEvent>, event: CodexEvent, state: EventState)
    requires SessionIs(expected, events, state) && FailureIs(expected, events, state)
    ensures FailureIs(expected, events + [event], ReduceEvent(state, event))
  {
    var all, n := events + [event], |events|;
    forall i | 0 <= i < n ensures FailureAt(expected, all, i) == FailureAt(expected, events, i) {
      PrefixSays(expected, events, event, i);
    }
    PrefixSays(expected, events, event, n);
    FailureFollows(state, event);
    assert FailureAt(expected, all, n) == FailureOf(state.sessionId, event);
    if state.failure.Some? {
      var i: nat :| IsFirstFailure(expected, events, i) && FailureAt(expected, events, i) == state.failure;
      assert IsFirstFailure(expected, all, i);
    } else if FailureAt(expected, all, n).Some? {
      assert IsFirstFailure(expected, all, n);
    }
  }

  lemma OneMoreEvent(expected: Option<string>, events: seq<CodexEvent>, event: CodexEvent, state: EventState)
    requires Says(expected, events, state)
    ensures Says(expected, events + [event], ReduceEvent(state, event))
  {
    TurnFollows(events, event, state);
    SessionFollows(expected, events, event, state);
    MessageFollows(events, event, state);
    FirstFailureFollows(expected, events, event, state);
  }

  lemma LastLine(parse: Parse, start: EventState, lines: seq<string>)
    requires lines != []
    ensures var n := |lines| - 1;
            var line, early, state := Trim(lines[n]), EventsOf(parse, lines[..n]), FoldLines(Reducer(parse), start, lines[..n]);
            && EventsOf(parse, lines) == (if line == "" then early else early + [parse(line)])
            && FoldLines(Reducer(parse), start, lines) == (if line == "" then state else ReduceEvent(state, parse(line)))
  {
  }

  /** The lines of a stream say what their events say. */
  lemma {:induction false} LinesSay(parse: Parse, expected: Option<string>, lines: seq<string>)
    ensures Says(expected, EventsOf(parse, lines), FoldLines(Reducer(parse), InitialState(expected), lines))
  {
    if lines != [] {
      var n := |lines| - 1;
      LinesSay(parse, expected, lines[..n]);
      LastLine(parse, InitialState(expected), lines);
      if Trim(lines[n]) != "" {
        OneMoreEvent(expected, EventsOf(parse, lines[..n]), parse(Trim(lines[n])),
                     FoldLines(Reducer(parse), InitialState(expected), lines[..n]));
      }
    }
  }

  /**
    The final state of a stream, in terms of its events alone: the turn is completed exactly when some event says so,
    the message is the last that has a text, the session is the expected one or the first that was started, and the
    failure is the first there is.
   */
  lemma StreamSays(parse: Parse, expected: Option<string>, text: string)
    ensures Says(expected, EventsOf(parse, Split(text, '\n')), StateOf(parse, InitialState(expected), text))
  {
    LinesSay(parse, expected, Split(text, '\n'));
  }
}
