/**
  The draft that is offered when a repair leaves the approved scope
  (apps/daemon/src/repair/repair-coordinator.ts, nextTaskNumber and prepare).
 */
module RepairDraft {
  import opened Wrappers
  import opened Text
  import opened ProjectModel
  import opened TasksParser
  import opened RepairTasks

  const MAX_SAFE_INTEGER: nat := 9007199254740991

  /** The number after the largest of the manifest's tasks; numbers a double cannot hold exactly are passed over. */
  function LargestNumber(tasks: seq<ManifestTask>): nat {
    if tasks == [] then 0
    else
      var before, id := LargestNumber(tasks[..|tasks| - 1]), tasks[|tasks| - 1].id;
      if IsTaskId(id) && before < Value(id[1..]) <= MAX_SAFE_INTEGER then Value(id[1..]) else before
  }

  function NextTaskNumber(manifest: TaskManifest): nat {
    LargestNumber(manifest.tasks) + 1
  }

  lemma {:induction false} NumberIsLargest(tasks: seq<ManifestTask>, i: nat)
    requires i < |tasks| && IsTaskId(tasks[i].id) && Value(tasks[i].id[1..]) <= MAX_SAFE_INTEGER
    ensures Value(tasks[i].id[1..]) <= LargestNumber(tasks)
  {
    if i < |tasks| - 1 {
      NumberIsLargest(tasks[..|tasks| - 1], i);
    }
  }

  /** It is the number of some task, or 0 when no number counts. */
  lemma {:induction false} LargestIsReached(tasks: seq<ManifestTask>)
    ensures LargestNumber(tasks) == 0 ||
            exists t :: t in tasks && IsTaskId(t.id) && Value(t.id[1..]) == LargestNumber(tasks) <= MAX_SAFE_INTEGER
  {
    if tasks != [] {
      var n := |tasks| - 1;
      assert tasks == tasks[..n] + [tasks[n]];
      LargestIsReached(tasks[..n]);
    }
  }

  /**
    The ids of added tasks are new among the tasks of the manifest, which are the tasks still open. Nothing
    is said of completed tasks: their ids are not looked at.
   */
  lemma AddedIdsAreNewAmongOpen(manifest: TaskManifest, k: nat, i: nat)
    requires NextTaskNumber(manifest) + k <= MAX_SAFE_INTEGER && i < |manifest.tasks|
    ensures TaskNumberText(NextTaskNumber(manifest) + k) != manifest.tasks[i].id
  {
    TaskNumberReadsBack(NextTaskNumber(manifest) + k);
    NumberIsTaskId(NextTaskNumber(manifest) + k);
    if IsTaskId(manifest.tasks[i].id) && Value(manifest.tasks[i].id[1..]) <= MAX_SAFE_INTEGER {
      NumberIsLargest(manifest.tasks, i);
    }
  }

  // The manifest lists the open tasks of the document it was compiled from.

  function Open(document: seq<ParsedTask>): (open: seq<ParsedTask>)
    ensures forall t :: t in open <==> t in document && !t.completed
  {
    if document == [] then []
    else
      var n := |document| - 1;
      assert document == document[..n] + [document[n]];
      Open(document[..n]) + if document[n].completed then [] else [document[n]]
  }

  predicate IsManifestOf(manifest: TaskManifest, document: seq<ParsedTask>) {
    && |manifest.tasks| == |Open(document)|
    && forall i | 0 <= i < |manifest.tasks| :: manifest.tasks[i].id == Open(document)[i].id
  }

  // The id is one of the k numbers from `first` on, as they are printed.
  predicate UsesNumber(id: string, first: nat, k: nat) {
    first <= NumberOf(id) < first + k && id == TaskNumberText(NumberOf(id))
  }

  lemma AddedId(manifest: TaskManifest, issues: seq<(string, Issue)>, first: nat, i: nat)
    requires manifest.tasks != [] && i < |issues|
    ensures TasksOfIssues(manifest, issues, first)[i].id == TaskNumberText(first + i)
  {
  }

  lemma OpenTaskKeepsItsId(manifest: TaskManifest, document: seq<ParsedTask>, t: ParsedTask, k: nat)
    requires IsManifestOf(manifest, document) && t in document && !t.completed
    requires NextTaskNumber(manifest) + k <= MAX_SAFE_INTEGER
    ensures t.id != TaskNumberText(NextTaskNumber(manifest) + k)
  {
    assert t in Open(document);
    var i :| 0 <= i < |Open(document)| && Open(document)[i] == t;
    AddedIdsAreNewAmongOpen(manifest, k, i);
  }

  lemma UsedNumberRepeats(manifest: TaskManifest, document: seq<ParsedTask>, issues: seq<(string, Issue)>, done: ParsedTask)
    requires manifest.tasks != [] && done in document && UsesNumber(done.id, NextTaskNumber(manifest), |issues|)
    ensures !DistinctIds(document + TasksOfIssues(manifest, issues, NextTaskNumber(manifest)))
  {
    var first := NextTaskNumber(manifest);
    var all := document + TasksOfIssues(manifest, issues, first);
    var p :| 0 <= p < |document| && document[p] == done;
    var q := NumberOf(done.id) - first;
    AddedId(manifest, issues, first, q);
    assert all[p].id == all[|document| + q].id;
  }

  lemma OthersDiffer(manifest: TaskManifest, document: seq<ParsedTask>, issues: seq<(string, Issue)>, t: ParsedTask, i: nat)
    requires manifest.tasks != [] && IsManifestOf(manifest, document) && t in document && i < |issues|
    requires NextTaskNumber(manifest) + |issues| <= MAX_SAFE_INTEGER
    requires t.completed ==> !UsesNumber(t.id, NextTaskNumber(manifest), |issues|)
    ensures t.id != TasksOfIssues(manifest, issues, NextTaskNumber(manifest))[i].id
  {
    var first := NextTaskNumber(manifest);
    AddedId(manifest, issues, first, i);
    NumberOfText(first + i);
    if !t.completed {
      OpenTaskKeepsItsId(manifest, document, t, i);
    }
  }

  /**
    The tasks of a document and the tasks added for a repair have different ids exactly when no completed task
    already has one of the numbers that are given out: only the open tasks are counted.
   */
  lemma AddedIdsAreNewExactly(manifest: TaskManifest, document: seq<ParsedTask>, issues: seq<(string, Issue)>)
    requires manifest.tasks != [] && IsManifestOf(manifest, document) && DistinctIds(document)
    requires NextTaskNumber(manifest) + |issues| <= MAX_SAFE_INTEGER
    ensures DistinctIds(document + TasksOfIssues(manifest, issues, NextTaskNumber(manifest))) <==>
              forall t | t in document && t.completed :: !UsesNumber(t.id, NextTaskNumber(manifest), |issues|)
  {
    var first := NextTaskNumber(manifest);
    var added := TasksOfIssues(manifest, issues, first);
    var all := document + added;
    if forall t | t in document && t.completed :: !UsesNumber(t.id, first, |issues|) {
      NumberedTasksAreDistinct(manifest, issues, first);
      forall i, j | 0 <= i < j < |all| ensures all[i].id != all[j].id {
        if i < |document| <= j {
          assert document[i] in document;
          OthersDiffer(manifest, document, issues, document[i], j - |document|);
        }
      }
    } else {
      var done :| done in document && done.completed && UsesNumber(done.id, first, |issues|);
      UsedNumberRepeats(manifest, document, issues, done);
    }
  }

  // In concrete terms: T001 is open, T002 is done, and the next number is 2.

  const NOTE := Issue("a/b", "", None)
  const PARENT := TaskManifest(["T001"], [ManifestTask("T001", "M01", ["a/b"])], false)

  function TwoLines(moduleName: string, taskId: string, issue: Issue): seq<string> {
    [RepairTaskLine(moduleName, taskId, issue, 1), DoneTask(TaskNumberText(2), moduleName, TaskText(taskId, issue))]
  }

  function TwoTasks(moduleName: string, taskId: string, issue: Issue): seq<ParsedTask> {
    [TaskOfIssue(moduleName, taskId, issue, 1), TaskOfIssue(moduleName, taskId, issue, 2).(completed := true)]
  }

  lemma FirstNumbers()
    ensures TaskNumberText(1) == "T001" && TaskNumberText(2) == "T002"
  {
    assert Decimal(1) == "1" && Decimal(2) == "2";
    assert Padded("1") == Padded("0" + "1") == Padded("0" + ("0" + "1")) == "001";
    assert Padded("2") == Padded("0" + "2") == Padded("0" + ("0" + "2")) == "002";
  }

  lemma {:induction false} NothingCollapses(s: string, p: char -> bool)
    requires forall c | c in s :: !p(c)
    ensures Collapse(s, p) == s
  {
    if s != "" {
      NothingCollapses(s[1..], p);
    }
  }

  lemma InlineStays(s: string)
    requires forall c | c in s :: !BreaksInline(c) && !IsSpace(c) && c != ';'
    ensures SafeInline(s) == s
  {
    NothingCollapses(s, BreaksInline);
    forall i | 0 <= i < |s| ensures Commas(s)[i] == s[i] {
      assert s[i] in s;
    }
    assert Commas(s) == s;
    NothingCollapses(s, IsSpace);
    TrimmedStays(s);
  }

  lemma NoteIsPrintable()
    ensures Printable(NOTE) && IsTaskId("T001") && IsModuleName("M01")
  {
    InlineStays("a/b");
    InlineStays("");
    DashlessIsFree("a/b");
    DashlessIsFree("");
  }

  lemma TwoLinesRead(step: LineReader, heading: Heading, lines: seq<string>, tasks: seq<ParsedTask>)
    requires |lines| == |tasks| == 2
    requires step(Document(heading, []), lines[0]) == Ok(Document(heading, [] + [tasks[0]]))
    requires step(Document(heading, [tasks[0]]), lines[1]) == Ok(Document(heading, [tasks[0]] + [tasks[1]]))
    ensures ReadWith(step, Document(heading, []), lines) == Ok(Document(heading, tasks))
  {
    assert lines == [lines[0], lines[1]] && tasks == [tasks[0]] + [tasks[1]] && [] + [tasks[0]] == [tasks[0]];
    ReadTwo(step, Document(heading, []), lines[0], Document(heading, [tasks[0]]), lines[1], Document(heading, tasks));
  }

  lemma TwoLinesArePlain(moduleName: string, taskId: string, issue: Issue)
    requires IsModuleName(moduleName) && IsTaskId(taskId) && Printable(issue)
    ensures PlainLine(RepairTaskLine(moduleName, taskId, issue, 1))
    ensures PlainLine(DoneTask(TaskNumberText(2), moduleName, TaskText(taskId, issue)))
  {
    RepairLineIsPlain(moduleName, taskId, issue, 1);
    DoneLineRoundTrip(moduleName, taskId, issue, 2);
  }

  lemma TwoTasksParse(moduleName: string, taskId: string, issue: Issue)
    requires IsModuleName(moduleName) && IsTaskId(taskId) && Printable(issue)
    ensures Parse(RepairSection(TwoLines(moduleName, taskId, issue))) == Ok(TwoTasks(moduleName, taskId, issue))
  {
    var lines, tasks := TwoLines(moduleName, taskId, issue), TwoTasks(moduleName, taskId, issue);
    TwoLinesArePlain(moduleName, taskId, issue);
    LineRoundTrip(moduleName, taskId, issue, 1);
    RenderedIsTaskLine(moduleName, taskId, issue, 1);
    DoneLineRoundTrip(moduleName, taskId, issue, 2);
    OneLineReads(UnderReviewRepair, [], lines[0], tasks[0]);
    OneLineReads(UnderReviewRepair, [tasks[0]], lines[1], tasks[1]);
    TwoLinesRead(Reader(), UnderReviewRepair, lines, tasks);
    FirstNumbers();
    SectionParses(lines, tasks);
  }

  /**
    The document reads as one open and one completed task, the manifest lists the open one, and the first task
    that is added for a repair gets the completed one's id.
   */
  lemma CompletedIdRepeats()
    ensures var document := TwoTasks("M01", "T001", NOTE);
            && Parse(RepairSection(TwoLines("M01", "T001", NOTE))) == Ok(document)
            && IsManifestOf(PARENT, document) && NextTaskNumber(PARENT) == 2
            && document[1].completed && document[1].id == "T002"
            && !DistinctIds(document + TasksOfIssues(PARENT, [("T001", NOTE)], NextTaskNumber(PARENT)))
  {
    NoteIsPrintable();
    TwoTasksParse("M01", "T001", NOTE);
    FirstNumbers();
    OpenOfTwo();
    NextAfterFirst();
    NumberOfText(2);
    UsedNumberRepeats(PARENT, TwoTasks("M01", "T001", NOTE), [("T001", NOTE)], TwoTasks("M01", "T001", NOTE)[1]);
  }

  lemma OpenOfTwo()
    ensures Open(TwoTasks("M01", "T001", NOTE)) == TwoTasks("M01", "T001", NOTE)[..1]
  {
    var document := TwoTasks("M01", "T001", NOTE);
    assert document[..1][..0] == [];
    assert Open(document[..1]) == Open(document[..1][..0]) + [document[0]];
  }

  lemma NextAfterFirst()
    ensures NextTaskNumber(PARENT) == 2
  {
    FirstNumbers();
    TaskNumberReadsBack(1);
    NumberIsTaskId(1);
    assert PARENT.tasks[..0] == [];
  }

  // The draft document

  const REVIEW := "Review "
  const FOLLOW := "Follow-up Tasks \U{B7} "
  const FOLLOW_UP := ['#', '#', ' '] + (REVIEW + FOLLOW)

  function AppendText(moduleName: string, lines: seq<string>): string {
    Join(["", "", FOLLOW_UP + moduleName, ""] + lines + [""], '\n')
  }

  function Draft(parentSource: string, moduleName: string, lines: seq<string>): string {
    TrimEnd(parentSource) + AppendText(moduleName, lines)
  }

  lemma NoKnownHeading(line: string, body: string)
    requires HeadingBody(line) == Some(body) && |body| > 7 && body[0] == 'R' && body[7] == 'F'
    ensures HeadingOf(line) == Some(NoHeading)
  {
    assert body[..3][0] == 'R';
    assert REPAIR_HEADING[7] == 'R';
    assert "Phase"[0] == 'P';
  }

  lemma FollowUpIsNoModule(moduleName: string)
    ensures HeadingOf(FOLLOW_UP + moduleName) == Some(NoHeading)
  {
    var body := REVIEW + (FOLLOW + moduleName);
    assert body[7] == (FOLLOW + moduleName)[0] == FOLLOW[0];
    assert FOLLOW_UP + moduleName == ['#', '#', ' '] + body;
    HashedBody(body);
    NoKnownHeading(FOLLOW_UP + moduleName, body);
  }

  lemma SplitFirstLine(first: string, joined: string, parts: seq<string>)
    requires '\n' !in first && Split(joined, '\n') == parts
    ensures Split(first + (['\n'] + joined), '\n') == [first] + parts
  {
    SplitAtSeparator(first, joined, '\n');
    assert first + (['\n'] + joined) == first + ['\n'] + joined;
  }

  lemma ContinuedWithLines(before: seq<string>, parts: seq<string>, b: string)
    requires before != [] && Split(before[|before| - 1] + b, '\n') == [before[|before| - 1]] + parts
    ensures Continued(before, b, '\n') == before + parts
  {
    assert before[..|before| - 1] + ([before[|before| - 1]] + parts) == before + parts;
  }

  lemma SplitAppendJoined(x: string, parts: seq<string>)
    requires parts != [] && forall i | 0 <= i < |parts| :: '\n' !in parts[i]
    ensures Split(x + (['\n'] + Join(parts, '\n')), '\n') == Split(x, '\n') + parts
  {
    SplitAppend(x, ['\n'] + Join(parts, '\n'), '\n');
    var before := Split(x, '\n');
    SplitJoin(parts, '\n');
    SplitFirstLine(before[|before| - 1], Join(parts, '\n'), parts);
    ContinuedWithLines(before, parts, ['\n'] + Join(parts, '\n'));
  }

  lemma SplitDraft(parentSource: string, moduleName: string, lines: seq<string>)
    requires '\n' !in moduleName && forall i | 0 <= i < |lines| :: '\n' !in lines[i]
    ensures Split(Draft(parentSource, moduleName, lines), '\n') ==
              Split(TrimEnd(parentSource), '\n') + (["", FOLLOW_UP + moduleName, ""] + lines + [""])
  {
    var appended := ["", FOLLOW_UP + moduleName, ""] + lines + [""];
    var all := ["", "", FOLLOW_UP + moduleName, ""] + lines + [""];
    assert all == [""] + appended && all[1..] == appended && |all| > 1 && all[0] == "";
    assert Join(all, '\n') == "" + ['\n'] + Join(appended, '\n');
    assert "" + ['\n'] + Join(appended, '\n') == ['\n'] + Join(appended, '\n');
    forall i | 0 <= i < |appended| ensures '\n' !in appended[i] {
    }
    SplitAppendJoined(TrimEnd(parentSource), appended);
  }

  lemma FollowUpReads(now: Document, moduleName: string)
    ensures ReadLines(now, ["", FOLLOW_UP + moduleName, ""]) == Ok(Document(NoHeading, now.tasks))
  {
    var heading := FOLLOW_UP + moduleName;
    FollowUpIsNoModule(moduleName);
    ReadOne(Reader(), now, "");
    ReadOne(Reader(), now, heading);
    ReadAppend(Reader(), now, [""], [heading]);
    ReadOne(Reader(), Document(NoHeading, now.tasks), "");
    ReadAppend(Reader(), now, [""] + [heading], [""]);
    assert [""] + [heading] + [""] == ["", heading, ""];
  }

  /** Under no module heading the first task line is an error. */
  lemma FollowUpIsRefused(start: Document, a: seq<string>, moduleName: string, line: string)
    requires HeadingOf(line).None? && IsTaskLine(line)
    ensures ReadLines(start, a + (["", FOLLOW_UP + moduleName, ""] + [line])).Err?
  {
    ReadAppend(Reader(), start, a, ["", FOLLOW_UP + moduleName, ""] + [line]);
    if ReadLines(start, a).Ok? {
      var now := ReadLines(start, a).value;
      FollowUpReads(now, moduleName);
      ReadAppend(Reader(), now, ["", FOLLOW_UP + moduleName, ""], [line]);
      ReadOne(Reader(), Document(NoHeading, now.tasks), line);
    }
  }

  function WithoutReturns(parts: seq<string>): (lines: seq<string>)
    ensures |lines| == |parts|
  {
    seq(|parts|, i requires 0 <= i < |parts| => WithoutReturn(parts[i]))
  }

  lemma MappedLines(source: string, a: seq<string>, b: seq<string>)
    requires b != [] && Split(source, '\n') == a + b
    requires forall i | 0 <= i < |b| :: WithoutReturn(b[i]) == b[i]
    ensures DocumentLines(source) == WithoutReturns(a) + b
  {
    var lines := DocumentLines(source);
    forall k | 0 <= k < |lines| ensures lines[k] == (WithoutReturns(a) + b)[k] {
      assert k >= |a| ==> (a + b)[k] == b[k - |a|];
    }
  }

  lemma DraftLines(parentSource: string, moduleName: string, lines: seq<string>) returns (parent: seq<string>)
    requires IsModuleName(moduleName) && forall i | 0 <= i < |lines| :: '\n' !in lines[i] && WithoutReturn(lines[i]) == lines[i]
    ensures DocumentLines(Draft(parentSource, moduleName, lines)) ==
              parent + (["", FOLLOW_UP + moduleName, ""] + lines + [""])
  {
    var a := Split(TrimEnd(parentSource), '\n');
    var b := ["", FOLLOW_UP + moduleName, ""] + lines + [""];
    SplitDraft(parentSource, moduleName, lines);
    HeadingKeepsEnd(moduleName);
    forall i | 0 <= i < |b| ensures WithoutReturn(b[i]) == b[i] {
      assert 3 <= i < |b| - 1 ==> b[i] == lines[i - 3];
    }
    MappedLines(Draft(parentSource, moduleName, lines), a, b);
    parent := WithoutReturns(a);
  }

  lemma HeadingKeepsEnd(moduleName: string)
    requires IsModuleName(moduleName)
    ensures WithoutReturn(FOLLOW_UP + moduleName) == FOLLOW_UP + moduleName
  {
    var line := FOLLOW_UP + moduleName;
    assert line[|line| - 1] == moduleName[2];
  }

  /** Whatever the parent document, the draft is one the parser refuses as soon as it holds a task line. */
  lemma DraftIsRefused(parentSource: string, moduleName: string, lines: seq<string>)
    requires IsModuleName(moduleName) && lines != []
    requires forall i | 0 <= i < |lines| :: '\n' !in lines[i] && WithoutReturn(lines[i]) == lines[i]
    requires HeadingOf(lines[0]).None? && IsTaskLine(lines[0])
    ensures Parse(Draft(parentSource, moduleName, lines)).Err?
  {
    var parent := DraftLines(parentSource, moduleName, lines);
    var all := DocumentLines(Draft(parentSource, moduleName, lines));
    FollowUpIsRefused(Document(NoHeading, []), parent, moduleName, lines[0]);
    assert all[..|parent| + 4] == parent + (["", FOLLOW_UP + moduleName, ""] + [lines[0]]);
    ReadsPrefix(Reader(), Document(NoHeading, []), all, |parent| + 4);
  }

  lemma RenderedIsClean(manifest: TaskManifest, tasks: seq<TaskReview>, first: nat, i: nat)
    requires manifest.tasks != [] && ModulesNamed(manifest) && i < |Issues(tasks)| && IsTaskId(Issues(tasks)[i].0)
    ensures RenderRepairTaskLines(manifest, tasks, first).Ok?
    ensures var line := RenderRepairTaskLines(manifest, tasks, first).value[i];
            '\n' !in line && WithoutReturn(line) == line && HeadingOf(line).None? && IsTaskLine(line)
  {
    var id, issue := Issues(tasks)[i].0, Issues(tasks)[i].1;
    RenderedAt(manifest, tasks, first, i);
    ModuleIsNamed(manifest, id);
    RepairLineIsPlain(RepairModule(manifest, id).value, id, issue, first + i);
    PlainLineStaysWhole(RenderRepairTaskLines(manifest, tasks, first).value[i]);
    RenderedIsTaskLine(RepairModule(manifest, id).value, id, issue, first + i);
  }

  /** In particular the draft the coordinator writes for issues outside the scope is refused. */
  lemma RenderedDraftIsRefused(parentSource: string, manifest: TaskManifest, tasks: seq<TaskReview>)
    requires manifest.tasks != [] && ModulesNamed(manifest) && Issues(tasks) != []
    requires forall i | 0 <= i < |Issues(tasks)| :: IsTaskId(Issues(tasks)[i].0)
    ensures var lines := RenderRepairTaskLines(manifest, tasks, NextTaskNumber(manifest));
            lines.Ok? && Parse(Draft(parentSource, manifest.tasks[0].moduleId, lines.value)).Err?
  {
    var first := NextTaskNumber(manifest);
    RenderedAt(manifest, tasks, first, 0);
    var lines := RenderRepairTaskLines(manifest, tasks, first).value;
    forall i | 0 <= i < |lines|
      ensures '\n' !in lines[i] && WithoutReturn(lines[i]) == lines[i] && HeadingOf(lines[i]).None? && IsTaskLine(lines[i])
    {
      RenderedIsClean(manifest, tasks, first, i);
    }
    FirstModuleIsNamed(manifest);
    DraftIsRefused(parentSource, manifest.tasks[0].moduleId, lines);
  }

  lemma FirstModuleIsNamed(manifest: TaskManifest)
    requires manifest.tasks != [] && ModulesNamed(manifest)
    ensures IsModuleName(manifest.tasks[0].moduleId)
  {
    assert manifest.tasks[0] in manifest.tasks;
  }
}
