/**
  Rendering review issues as repair task lines, and what the task parser reads from them
  (packages/review/src/repair-loop.ts, apps/daemon/src/repair/repair-coordinator.ts,
  packages/task-manifest/src/tasks-parser.ts).
 */
module RepairTasks {
  import opened Wrappers
  import opened Text
  import opened ProjectModel
  import opened TasksParser

  // Inline text

  function DropRun(s: string, p: char -> bool): (r: string)
    ensures |r| <= |s|
  {
    if s != "" && p(s[0]) then DropRun(s[1..], p) else s
  }

  /** Every run of characters that satisfy `p` becomes one space. */
  function Collapse(s: string, p: char -> bool): string
    decreases |s|
  {
    if s == "" then ""
    else if p(s[0]) then " " + Collapse(DropRun(s[1..], p), p)
    else [s[0]] + Collapse(s[1..], p)
  }

  function Commas(s: string): (r: string)
    ensures |r| == |s|
  {
    seq(|s|, i requires 0 <= i < |s| => if s[i] == ';' then ',' else s[i])
  }

  predicate BreaksInline(c: char) {
    c in {'\r', '\n', '`'}
  }

  function SafeInline(value: string): string {
    Trim(Collapse(Commas(Collapse(value, BreaksInline)), IsSpace))
  }

  // What safeInline leaves: no backtick, no semicolon, no white space but single spaces inside
  predicate Plain(s: string) {
    && (forall c | c in s :: c != '`' && c != ';' && (IsSpace(c) ==> c == ' '))
    && (s != "" ==> !IsSpace(s[0]) && !IsSpace(s[|s| - 1]))
  }

  lemma {:induction false} DropRunIsSuffix(s: string, p: char -> bool, c: char)
    requires c in DropRun(s, p)
    ensures c in s
  {
    if s != "" && p(s[0]) {
      DropRunIsSuffix(s[1..], p, c);
    }
  }

  lemma {:induction false} CollapsedChars(s: string, p: char -> bool, c: char)
    requires c in Collapse(s, p)
    ensures c == ' ' || (c in s && !p(c))
    decreases |s|
  {
    if p(s[0]) {
      if c != ' ' {
        assert c in Collapse(DropRun(s[1..], p), p);
        CollapsedChars(DropRun(s[1..], p), p, c);
        DropRunIsSuffix(s[1..], p, c);
      }
    } else if c != s[0] {
      CollapsedChars(s[1..], p, c);
    }
  }

  lemma {:induction false} TrimStartIsSuffix(s: string, c: char)
    requires c in TrimStart(s)
    ensures c in s
  {
    if s != "" && IsSpace(s[0]) {
      TrimStartIsSuffix(s[1..], c);
    }
  }

  lemma {:induction false} TrimEndKeepsStart(s: string)
    requires s != "" && !IsSpace(s[0])
    ensures TrimEnd(s) != "" && TrimEnd(s)[0] == s[0]
  {
    if IsSpace(s[|s| - 1]) {
      TrimEndKeepsStart(s[..|s| - 1]);
    }
  }

  lemma SafeInlineIsPlain(value: string)
    ensures Plain(SafeInline(value))
  {
    var broken := Collapse(value, BreaksInline);
    var commas := Commas(broken);
    var spaced := Collapse(commas, IsSpace);
    var r := SafeInline(value);
    forall c | c in r ensures c != '`' && c != ';' && (IsSpace(c) ==> c == ' ') {
      TrimStartIsSuffix(spaced, c);
      CollapsedChars(commas, IsSpace, c);
      if c in commas {
        var i :| 0 <= i < |commas| && commas[i] == c;
        assert broken[i] in broken;
        CollapsedChars(value, BreaksInline, broken[i]);
      }
    }
    if r != "" {
      TrimEndKeepsStart(TrimStart(spaced));
    }
  }

  // Trimming what is already trimmed

  lemma TrimmedStays(s: string)
    requires s == "" || (!IsSpace(s[0]) && !IsSpace(s[|s| - 1]))
    ensures Trim(s) == s && TrimStart(s) == s
  {
  }

  lemma SpaceBefore(s: string)
    requires s != "" && !IsSpace(s[0])
    ensures TrimStart(" " + s) == s
  {
    assert (" " + s)[1..] == s;
  }

  // Separators

  predicate SeparatorFree(s: string) {
    forall p | 0 <= p < |s| :: !SeparatorAt(s, p)
  }

  lemma {:induction false} TrimStartCut(x: string, c: char, y: string, word: string)
    requires word != "" && !IsSpace(c) && c !in word
    ensures word <= TrimStart(x + [c] + y) ==> word <= TrimStart(x)
  {
    var s := x + [c] + y;
    assert s[|x|] == c && forall i | 0 <= i < |word| :: word[i] in word;
    if x != "" && IsSpace(x[0]) {
      assert s[1..] == x[1..] + [c] + y;
      TrimStartCut(x[1..], c, y, word);
    } else if |word| <= |x| {
      assert s[..|word|] == x[..|word|];
    }
  }

  lemma SeparatorStaysBefore(x: string, c: char, y: string, p: nat)
    requires !IsSpace(c) && c !in ACCEPTANCE && p < |x|
    ensures SeparatorAt(x + [c] + y, p) ==> SeparatorAt(x, p)
  {
    var s := x + [c] + y;
    assert s[p + 1..] == x[p + 1..] + [c] + y;
    TrimStartCut(x[p + 1..], c, y, ACCEPTANCE);
  }

  lemma SeparatorStaysAfter(a: string, y: string, p: nat)
    requires a == "" || !IsSpace(a[|a| - 1])
    requires |a| <= p < |a + y|
    ensures SeparatorAt(a + y, p) ==> p > |a| && SeparatorAt(y, p - |a|)
  {
    assert (a + y)[p + 1..] == y[p - |a| + 1..];
  }

  lemma FreeJoin(x: string, c: char, y: string)
    requires SeparatorFree(x) && SeparatorFree(y) && !IsSpace(c) && c !in ACCEPTANCE && c != DASH
    ensures SeparatorFree(x + [c] + y)
  {
    forall p | 0 <= p < |x + [c] + y| ensures !SeparatorAt(x + [c] + y, p) {
      if p < |x| {
        SeparatorStaysBefore(x, c, y, p);
      } else if p > |x| {
        SeparatorStaysAfter(x + [c], y, p);
      }
    }
  }

  lemma FreePrefix(a: string, y: string)
    requires DASH !in a && (a == "" || !IsSpace(a[|a| - 1])) && SeparatorFree(y)
    ensures SeparatorFree(a + y)
  {
    forall p | 0 <= p < |a + y| ensures !SeparatorAt(a + y, p) {
      if p >= |a| {
        SeparatorStaysAfter(a, y, p);
      } else {
        assert a[p] in a;
      }
    }
  }

  lemma DashlessIsFree(s: string)
    requires DASH !in s
    ensures SeparatorFree(s)
  {
    forall p | 0 <= p < |s| ensures !SeparatorAt(s, p) {
      assert s[p] in s;
    }
  }

  // Task numbers

  function Digit(n: nat): (c: char)
    requires n < 10
    ensures IsDigit(c)
  {
    ('0' as int + n) as char
  }

  function Decimal(n: nat): (s: string)
    ensures s != "" && forall c | c in s :: IsDigit(c)
  {
    if n < 10 then [Digit(n)] else Decimal(n / 10) + [Digit(n % 10)]
  }

  /** `padStart(3, "0")` */
  function Padded(s: string): (r: string)
    requires forall c | c in s :: IsDigit(c)
    ensures |r| >= 3 && forall c | c in r :: IsDigit(c)
    decreases 3 - |s|
  {
    if |s| >= 3 then s else Padded("0" + s)
  }

  function TaskNumberText(n: nat): string {
    "T" + Padded(Decimal(n))
  }

  function DigitValue(c: char): nat
    requires IsDigit(c)
  {
    (c as int) - ('0' as int)
  }

  function Value(s: string): nat
    requires forall c | c in s :: IsDigit(c)
  {
    if s == "" then 0
    else
      assert s[|s| - 1] in s;
      10 * Value(s[..|s| - 1]) + DigitValue(s[|s| - 1])
  }

  lemma {:induction false} ValueOfDecimal(n: nat)
    ensures Value(Decimal(n)) == n
  {
    if n >= 10 {
      ValueOfDecimal(n / 10);
      assert Decimal(n)[..|Decimal(n)| - 1] == Decimal(n / 10);
    }
  }

  lemma {:induction false} LeadingZero(s: string)
    requires forall c | c in s :: IsDigit(c)
    ensures Value("0" + s) == Value(s)
  {
    if s == "" {
      assert "0"[..0] == "";
    } else {
      assert ("0" + s)[..|s|] == "0" + s[..|s| - 1];
      LeadingZero(s[..|s| - 1]);
    }
  }

  lemma {:induction false} ValueOfPadded(s: string)
    requires forall c | c in s :: IsDigit(c)
    ensures Value(Padded(s)) == Value(s)
    decreases 3 - |s|
  {
    if |s| < 3 {
      ValueOfPadded("0" + s);
      LeadingZero(s);
    }
  }

  /** A task number can be read back from its text, so different numbers give different ids. */
  lemma TaskNumberReadsBack(n: nat)
    ensures var text := TaskNumberText(n);
            |text| >= 4 && text[0] == 'T' && (forall c | c in text[1..] :: IsDigit(c)) && Value(text[1..]) == n
  {
    ValueOfDecimal(n);
    ValueOfPadded(Decimal(n));
    assert TaskNumberText(n)[1..] == Padded(Decimal(n));
  }

  predicate IsTaskId(id: string) {
    |id| >= 4 && id[0] == 'T' && forall c | c in id[1..] :: IsDigit(c)
  }

  // Rendering

  function ParentOf(tasks: seq<ManifestTask>, id: string): Option<ManifestTask> {
    if tasks == [] then None else if tasks[0].id == id then Some(tasks[0]) else ParentOf(tasks[1..], id)
  }

  function RepairModule(manifest: TaskManifest, taskId: string): Option<string> {
    var parent := ParentOf(manifest.tasks, taskId);
    if parent.Some? then Some(parent.value.moduleId)
    else if manifest.tasks != [] then Some(manifest.tasks[0].moduleId)
    else None
  }

  const BOX := "- [ ]"
  const TICKED := "- [x]"
  const SUGGESTION := " suggestion:"
  const CRITERION := " criterionId="
  const REPAIR_WORD := "Repair "
  const REPAIR := REPAIR_WORD + ['`']

  function Guidance(issue: Issue): string {
    if issue.suggestedFix.None? then SafeInline(issue.message)
    else SafeInline(issue.message) + [';'] + (SUGGESTION + SafeInline(issue.suggestedFix.value))
  }

  function Criterion(taskId: string, issue: Issue): string {
    Guidance(issue) + [';'] + (CRITERION + taskId)
  }

  function Description(issue: Issue): string {
    REPAIR + SafeInline(issue.path) + ['`']
  }

  // `description — Acceptance: criterion`
  function WithAcceptance(description: string, criterion: string): string {
    description + [' '] + [DASH] + ([' '] + (ACCEPTANCE + ([' '] + criterion)))
  }

  function TaskText(taskId: string, issue: Issue): string {
    WithAcceptance(Description(issue), Criterion(taskId, issue))
  }

  function Tagged(moduleName: string, text: string): string {
    ['['] + moduleName + [']'] + ([' '] + text)
  }

  function Numbered(id: string, tagged: string): string {
    id + ([' '] + tagged)
  }

  // `- [ ] T001 [M01] text`
  function OpenTask(id: string, moduleName: string, text: string): string {
    BOX + ([' '] + Numbered(id, Tagged(moduleName, text)))
  }

  function RepairTaskLine(moduleName: string, taskId: string, issue: Issue, number: nat): string {
    OpenTask(TaskNumberText(number), moduleName, TaskText(taskId, issue))
  }

  function IssuesOf(t: TaskReview): (issues: seq<(string, Issue)>)
    ensures |issues| == |t.issues| && forall i | 0 <= i < |issues| :: issues[i] == (t.id, t.issues[i])
  {
    seq(|t.issues|, i requires 0 <= i < |t.issues| => (t.id, t.issues[i]))
  }

  function Issues(tasks: seq<TaskReview>): seq<(string, Issue)> {
    if tasks == [] then [] else Issues(tasks[..|tasks| - 1]) + IssuesOf(tasks[|tasks| - 1])
  }

  /** One line per issue, numbered from `first`; `Err` when the manifest has no task at all. */
  function RenderRepairTaskLines(manifest: TaskManifest, tasks: seq<TaskReview>, first: nat): (r: Result<seq<string>, string>)
    ensures r.Ok? ==> |r.value| == |Issues(tasks)|
  {
    var issues := Issues(tasks);
    if issues != [] && manifest.tasks == [] then Err("REPAIR_PARENT_TASK_MISSING")
    else if issues == [] then Ok([])
    else
      Ok(seq(|issues|, i requires 0 <= i < |issues| =>
        RepairTaskLine(RepairModule(manifest, issues[i].0).value, issues[i].0, issues[i].1, first + i)))
  }

  // Reading a rendered line

  // What the round trip asks of an issue: its path is a target path that safeInline leaves alone, and no
  // text contains the separator
  predicate Printable(issue: Issue) {
    && IsTargetPath(issue.path) && SafeInline(issue.path) == issue.path && SeparatorFree(issue.path)
    && SeparatorFree(SafeInline(issue.message))
    && (issue.suggestedFix.Some? ==> SeparatorFree(SafeInline(issue.suggestedFix.value)))
  }

  lemma TargetPathsAreNotEmpty(path: string)
    requires IsTargetPath(path)
    ensures path != ""
  {
  }

  lemma GuidanceIsFree(issue: Issue)
    requires Printable(issue)
    ensures SeparatorFree(Guidance(issue))
  {
    if issue.suggestedFix.Some? {
      FreePrefix(SUGGESTION, SafeInline(issue.suggestedFix.value));
      FreeJoin(SafeInline(issue.message), ';', SUGGESTION + SafeInline(issue.suggestedFix.value));
    }
  }

  lemma CriterionIsFree(taskId: string, issue: Issue)
    requires Printable(issue) && IsTaskId(taskId)
    ensures SeparatorFree(Criterion(taskId, issue))
  {
    assert forall c | c in taskId :: c == taskId[0] || c in taskId[1..];
    DashlessIsFree(CRITERION + taskId);
    GuidanceIsFree(issue);
    FreeJoin(Guidance(issue), ';', CRITERION + taskId);
  }

  lemma PlainIsOneLine(s: string)
    requires Plain(s)
    ensures OneLine(s)
  {
  }

  lemma OneLineConcat(a: string, b: string)
    ensures OneLine(a + b) <==> OneLine(a) && OneLine(b)
  {
    assert forall c :: c in a + b <==> c in a || c in b;
  }

  lemma TaskIdIsOneLine(id: string)
    requires IsTaskId(id)
    ensures OneLine(id) && !IsSpace(id[|id| - 1])
  {
    assert forall c | c in id :: c == id[0] || c in id[1..];
    assert id[|id| - 1] in id[1..];
  }

  lemma JoinedIsOneLine(a: string, b: string)
    requires OneLine(a) && OneLine(b) && (a != "" ==> !IsSpace(a[0]))
    ensures var joined := a + [';'] + b; OneLine(joined) && joined != "" && !IsSpace(joined[0])
  {
    OneLineConcat(a, [';']);
    OneLineConcat(a + [';'], b);
    assert (a + [';'] + b)[0] == if a == "" then ';' else a[0];
  }

  lemma SafeInlineIsOneLine(value: string)
    ensures var s := SafeInline(value); OneLine(s) && (s != "" ==> !IsSpace(s[0]))
  {
    SafeInlineIsPlain(value);
    PlainIsOneLine(SafeInline(value));
  }

  lemma GuidanceIsOneLine(issue: Issue)
    ensures OneLine(Guidance(issue))
    ensures Guidance(issue) != "" ==> !IsSpace(Guidance(issue)[0])
  {
    SafeInlineIsOneLine(issue.message);
    if issue.suggestedFix.Some? {
      SafeInlineIsOneLine(issue.suggestedFix.value);
      OneLineConcat(SUGGESTION, SafeInline(issue.suggestedFix.value));
      JoinedIsOneLine(SafeInline(issue.message), SUGGESTION + SafeInline(issue.suggestedFix.value));
    }
  }

  lemma CriterionIsTrimmed(taskId: string, issue: Issue)
    requires IsTaskId(taskId)
    ensures var g := Criterion(taskId, issue);
            g != "" && !IsSpace(g[0]) && !IsSpace(g[|g| - 1]) && OneLine(g)
  {
    GuidanceIsOneLine(issue);
    TaskIdIsOneLine(taskId);
    OneLineConcat(CRITERION, taskId);
    JoinedIsOneLine(Guidance(issue), CRITERION + taskId);
    var g := Criterion(taskId, issue);
    assert g[|g| - 1] == taskId[|taskId| - 1];
  }

  lemma FirstSeparatorIs(s: string, p: nat, from: nat)
    requires from <= p < |s| && SeparatorAt(s, p) && forall q | 0 <= q < p :: !SeparatorAt(s, q)
    ensures FirstSeparator(s, from) == Some(p)
  {
  }

  lemma SeparatorHere(d: string, g: string)
    ensures var s := WithAcceptance(d, g);
            && SeparatorAt(s, |d| + 1) && TrimStart(s[|d| + 2..]) == ACCEPTANCE + ([' '] + g)
            && s[..|d| + 1] == d + [' ']
  {
    var s := WithAcceptance(d, g);
    var rest := ACCEPTANCE + ([' '] + g);
    assert s[|d| + 2..] == [' '] + rest && [' '] + rest == " " + rest;
    SpaceBefore(rest);
  }

  lemma NoneEarlier(head: string, g: string, q: nat)
    requires SeparatorFree(head) && q <= |head| + 1
    ensures !SeparatorAt(WithAcceptance(head + ['`'], g), q)
  {
    var rest := [' '] + [DASH] + ([' '] + (ACCEPTANCE + ([' '] + g)));
    assert WithAcceptance(head + ['`'], g) == head + ['`'] + rest;
    if q < |head| {
      SeparatorStaysBefore(head, '`', rest, q);
    }
  }

  lemma AcceptanceSplits(head: string, g: string)
    requires SeparatorFree(head) && SeparatorFree(g) && g != "" && !IsSpace(g[0])
    ensures SplitAcceptance(WithAcceptance(head + ['`'], g)) == [head + ['`'], g]
  {
    var d := head + ['`'];
    var s := WithAcceptance(d, g);
    SeparatorHere(d, g);
    forall q | 0 <= q < |d| + 1 ensures !SeparatorAt(s, q) {
      NoneEarlier(head, g, q);
    }
    FirstSeparatorIs(s, |d| + 1, 0);
    SpaceBefore(g);
    assert (ACCEPTANCE + ([' '] + g))[|ACCEPTANCE|..] == " " + g;
    assert SplitAcceptance(g) == [g];
    TrimEndOnce(d);
  }

  lemma TrimEndOnce(d: string)
    requires d != "" && !IsSpace(d[|d| - 1])
    ensures TrimEnd(d + [' ']) == d
  {
    assert (d + [' '])[..|d|] == d;
  }

  lemma TextSplits(taskId: string, issue: Issue)
    requires Printable(issue) && IsTaskId(taskId)
    ensures SplitAcceptance(TaskText(taskId, issue)) == [Description(issue), Criterion(taskId, issue)]
  {
    FreePrefix(REPAIR, issue.path);
    CriterionIsTrimmed(taskId, issue);
    CriterionIsFree(taskId, issue);
    AcceptanceSplits(REPAIR + issue.path, Criterion(taskId, issue));
  }

  // The path in the description

  lemma QuotedAfter(word: string, path: string)
    requires '`' !in word && path != "" && '`' !in path
    ensures Quoted(word + ['`'] + (path + ['`'])) == [path]
  {
    var rest := path + ['`'];
    var s := word + ['`'] + rest;
    FirstIndex(word, '`', rest);
    QuoteEnds(path);
    assert s[|word| + 1..] == rest;
    var none := rest[|path| + 1..];
    assert Quoted(none) == [];
    assert Quoted(s) == [rest[..|path|]] + Quoted(none);
  }

  lemma QuotedPath(path: string)
    requires path != "" && '`' !in path
    ensures Quoted(REPAIR + path + ['`']) == [path]
  {
    assert REPAIR + path + ['`'] == REPAIR_WORD + ['`'] + (path + ['`']);
    QuotedAfter(REPAIR_WORD, path);
  }

  lemma QuoteEnds(path: string)
    requires '`' !in path
    ensures IndexOf(path + ['`'], '`') == Some(|path|)
    ensures (path + ['`'])[..|path|] == path && (path + ['`'])[|path| + 1..] == ""
  {
    FirstIndex(path, '`', "");
    assert path + ['`'] + "" == path + ['`'];
  }

  lemma {:induction false} FirstIndex(a: string, c: char, b: string)
    requires c !in a
    ensures IndexOf(a + [c] + b, c) == Some(|a|)
  {
    if a != "" {
      assert (a + [c] + b)[1..] == a[1..] + [c] + b;
      FirstIndex(a[1..], c, b);
    }
  }

  lemma OneTarget(path: string)
    requires IsTargetPath(path) && Trim(path) == path
    ensures TargetPaths([path]) == [path]
  {
    assert [path][..0] == [];
  }

  lemma PathIsPlain(issue: Issue)
    requires Printable(issue)
    ensures issue.path != "" && '`' !in issue.path && Trim(issue.path) == issue.path
  {
    SafeInlineIsPlain(issue.path);
    TargetPathsAreNotEmpty(issue.path);
    PlainIsTrimmed(issue.path);
  }

  lemma PlainIsTrimmed(s: string)
    requires Plain(s)
    ensures Trim(s) == s && '`' !in s
  {
    TrimmedStays(s);
  }

  lemma DescriptionReads(issue: Issue)
    requires Printable(issue)
    ensures Trim(Description(issue)) == Description(issue) && Description(issue) != ""
    ensures TargetPaths(Quoted(Description(issue))) == [issue.path]
  {
    PathIsPlain(issue);
    QuotedPath(issue.path);
    OneTarget(issue.path);
    var d := Description(issue);
    assert d[0] == 'R' && d[|d| - 1] == '`';
    TrimmedStays(d);
  }

  // The rest of the line

  lemma {:induction false} DropDigitsOf(digits: string, rest: string)
    requires (forall c | c in digits :: IsDigit(c)) && (rest == "" || !IsDigit(rest[0]))
    ensures DropDigits(digits + rest) == rest
  {
    if digits == "" {
      assert digits + rest == rest;
    } else {
      assert (digits + rest)[1..] == digits[1..] + rest;
      DropDigitsOf(digits[1..], rest);
    }
  }

  lemma TaskIdReads(id: string, text: string)
    requires IsTaskId(id) && text != "" && !IsSpace(text[0])
    ensures TaskId(Numbered(id, text)) == Some((id, text))
  {
    var tail := Numbered(id, text);
    assert tail[1..] == id[1..] + ([' '] + text);
    DropDigitsOf(id[1..], [' '] + text);
    assert [' '] + text == " " + text;
    SpaceBefore(text);
    assert tail[..|id|] == id;
  }

  lemma TagReads(moduleName: string, text: string)
    requires IsModuleName(moduleName) && text != "" && !IsSpace(text[0]) && text[0] != '['
    ensures Tags(Tagged(moduleName, text)) == ([moduleName], text)
  {
    var s := Tagged(moduleName, text);
    assert ']' !in ['['] + moduleName;
    FirstIndex(['['] + moduleName, ']', [' '] + text);
    assert IndexOf(s, ']') == Some(4);
    assert s[1..4] == moduleName;
    assert s[5..] == " " + text;
    SpaceBefore(text);
    assert Tags(text) == ([], text);
    assert [moduleName] + [] == [moduleName];
  }

  lemma CheckboxReads(body: string)
    requires body != "" && !IsSpace(body[0]) && !IsSpace(body[|body| - 1]) && OneLine(body)
    ensures Checkbox(BOX + ([' '] + body)) == Some((false, body))
  {
    var line := BOX + ([' '] + body);
    assert line[5..] == " " + body && line[..3] == "- [";
    SpaceBefore(body);
    TrimmedStays(body);
  }

  // The round trip

  function TaskOfIssue(moduleName: string, taskId: string, issue: Issue, number: nat): ParsedTask {
    ParsedTask(TaskNumberText(number), moduleName, false, Description(issue), [issue.path], Criterion(taskId, issue))
  }

  lemma NumberIsTaskId(number: nat)
    ensures IsTaskId(TaskNumberText(number))
  {
    TaskNumberReadsBack(number);
  }

  lemma AcceptanceIsOneLine(d: string, g: string)
    requires OneLine(d) && OneLine(g) && d != "" && g != ""
    ensures var s := WithAcceptance(d, g); OneLine(s) && s != "" && s[0] == d[0] && s[|s| - 1] == g[|g| - 1]
  {
    OneLineConcat([' '], g);
    OneLineConcat(ACCEPTANCE, [' '] + g);
    OneLineConcat([' '], ACCEPTANCE + ([' '] + g));
    OneLineConcat(d, [' ']);
    OneLineConcat(d + [' '], [DASH]);
    OneLineConcat(d + [' '] + [DASH], [' '] + (ACCEPTANCE + ([' '] + g)));
  }

  lemma DescriptionIsOneLine(issue: Issue)
    ensures OneLine(Description(issue)) && Description(issue) != "" && Description(issue)[0] == 'R'
  {
    SafeInlineIsOneLine(issue.path);
    OneLineConcat(REPAIR, SafeInline(issue.path));
    OneLineConcat(REPAIR + SafeInline(issue.path), ['`']);
  }

  lemma TextIsOneLine(taskId: string, issue: Issue)
    requires IsTaskId(taskId)
    ensures var text := TaskText(taskId, issue);
            OneLine(text) && text != "" && text[0] == 'R' && !IsSpace(text[|text| - 1])
  {
    CriterionIsTrimmed(taskId, issue);
    DescriptionIsOneLine(issue);
    AcceptanceIsOneLine(Description(issue), Criterion(taskId, issue));
  }

  lemma NumberedIsOneLine(id: string, moduleName: string, text: string)
    requires IsTaskId(id) && IsModuleName(moduleName) && OneLine(text) && text != "" && !IsSpace(text[|text| - 1])
    ensures var body := Numbered(id, Tagged(moduleName, text));
            OneLine(body) && body[0] == 'T' && !IsSpace(body[|body| - 1])
  {
    TaskIdIsOneLine(id);
    OneLineConcat([' '], text);
    OneLineConcat(['['] + moduleName + [']'], [' '] + text);
    OneLineConcat([' '], Tagged(moduleName, text));
    OneLineConcat(id, [' '] + Tagged(moduleName, text));
    var body := Numbered(id, Tagged(moduleName, text));
    assert body[|body| - 1] == text[|text| - 1];
  }

  lemma PartsRead(line: string, completed: bool, tail: string, id: string, rest: string, moduleName: string, text: string)
    requires Checkbox(line) == Some((completed, tail)) && TaskId(tail) == Some((id, rest)) && Tags(rest) == ([moduleName], text)
    requires ModuleOf([moduleName], UnderReviewRepair) == Ok(moduleName)
    ensures ParseTaskLine(line, UnderReviewRepair) == TaskOf(id, moduleName, completed, text)
  {
  }

  lemma BoxReads(id: string, moduleName: string, text: string)
    requires IsTaskId(id) && IsModuleName(moduleName) && OneLine(text) && text != "" && !IsSpace(text[|text| - 1])
    ensures Checkbox(OpenTask(id, moduleName, text)) == Some((false, Numbered(id, Tagged(moduleName, text))))
  {
    NumberedIsOneLine(id, moduleName, text);
    CheckboxReads(Numbered(id, Tagged(moduleName, text)));
  }

  lemma NumberReads(id: string, moduleName: string, text: string)
    requires IsTaskId(id)
    ensures TaskId(Numbered(id, Tagged(moduleName, text))) == Some((id, Tagged(moduleName, text)))
  {
    TaskIdReads(id, Tagged(moduleName, text));
  }

  lemma OwnModule(moduleName: string)
    requires IsModuleName(moduleName)
    ensures ModuleOf([moduleName], UnderReviewRepair) == Ok(moduleName)
  {
  }

  lemma OpenTaskReads(id: string, moduleName: string, text: string)
    requires IsTaskId(id) && IsModuleName(moduleName) && OneLine(text)
    requires text != "" && text[0] == 'R' && !IsSpace(text[|text| - 1])
    ensures ParseTaskLine(OpenTask(id, moduleName, text), UnderReviewRepair) == TaskOf(id, moduleName, false, text)
  {
    BoxReads(id, moduleName, text);
    NumberReads(id, moduleName, text);
    TagReads(moduleName, text);
    OwnModule(moduleName);
    PartsRead(OpenTask(id, moduleName, text), false, Numbered(id, Tagged(moduleName, text)), id, Tagged(moduleName, text),
              moduleName, text);
  }

  // A text of two trimmed parts, with one quoted path in the first
  predicate IsTaskText(text: string, d: string, g: string, path: string) {
    && SplitAcceptance(text) == [d, g] && Trim(d) == d && d != "" && Trim(g) == g && g != ""
    && TargetPaths(Quoted(d)) == [path]
  }

  lemma PartsMakeTask(id: string, moduleName: string, completed: bool, text: string, d: string, g: string, path: string)
    requires IsTaskText(text, d, g, path)
    ensures TaskOf(id, moduleName, completed, text) == Ok(ParsedTask(id, moduleName, completed, d, [path], g))
  {
  }

  lemma CriterionStays(taskId: string, issue: Issue)
    requires IsTaskId(taskId)
    ensures Trim(Criterion(taskId, issue)) == Criterion(taskId, issue) && Criterion(taskId, issue) != ""
  {
    CriterionIsTrimmed(taskId, issue);
    TrimmedStays(Criterion(taskId, issue));
  }

  lemma RenderedTextIsTaskText(taskId: string, issue: Issue)
    requires IsTaskId(taskId) && Printable(issue)
    ensures IsTaskText(TaskText(taskId, issue), Description(issue), Criterion(taskId, issue), issue.path)
  {
    TextSplits(taskId, issue);
    CriterionStays(taskId, issue);
    DescriptionReads(issue);
  }

  lemma TextReads(moduleName: string, taskId: string, issue: Issue, number: nat, completed: bool)
    requires IsTaskId(taskId) && Printable(issue)
    ensures TaskOf(TaskNumberText(number), moduleName, completed, TaskText(taskId, issue)) ==
              Ok(TaskOfIssue(moduleName, taskId, issue, number).(completed := completed))
  {
    RenderedTextIsTaskText(taskId, issue);
    PartsMakeTask(TaskNumberText(number), moduleName, completed, TaskText(taskId, issue), Description(issue),
                  Criterion(taskId, issue), issue.path);
  }

  /** One rendered line, under a repair heading, reads back as one open task with exactly its path and text. */
  lemma LineRoundTrip(moduleName: string, taskId: string, issue: Issue, number: nat)
    requires IsModuleName(moduleName) && IsTaskId(taskId) && Printable(issue)
    ensures ParseTaskLine(RepairTaskLine(moduleName, taskId, issue, number), UnderReviewRepair) ==
              Ok(TaskOfIssue(moduleName, taskId, issue, number))
  {
    NumberIsTaskId(number);
    TextIsOneLine(taskId, issue);
    OpenTaskReads(TaskNumberText(number), moduleName, TaskText(taskId, issue));
    TextReads(moduleName, taskId, issue, number, false);
  }

  lemma RenderedIsTaskLine(moduleName: string, taskId: string, issue: Issue, number: nat)
    ensures var line := RepairTaskLine(moduleName, taskId, issue, number); HeadingOf(line).None? && IsTaskLine(line)
  {
    var line := RepairTaskLine(moduleName, taskId, issue, number);
    assert BOX[..3] == "- [" && line[..3] == "- [" && line[0] == '-';
    assert "##"[0] == '#';
  }

  function TasksOfIssues(manifest: TaskManifest, issues: seq<(string, Issue)>, first: nat): (tasks: seq<ParsedTask>)
    requires manifest.tasks != []
    ensures |tasks| == |issues|
  {
    seq(|issues|, i requires 0 <= i < |issues| =>
      TaskOfIssue(RepairModule(manifest, issues[i].0).value, issues[i].0, issues[i].1, first + i))
  }

  predicate AllPrintable(issues: seq<(string, Issue)>) {
    forall i | 0 <= i < |issues| :: IsTaskId(issues[i].0) && Printable(issues[i].1)
  }

  predicate ModulesNamed(manifest: TaskManifest) {
    forall t | t in manifest.tasks :: IsModuleName(t.moduleId)
  }

  lemma {:induction false} ParentIsATask(tasks: seq<ManifestTask>, id: string)
    ensures ParentOf(tasks, id).Some? ==> ParentOf(tasks, id).value in tasks
  {
    if tasks != [] {
      ParentIsATask(tasks[1..], id);
    }
  }

  lemma ModuleIsNamed(manifest: TaskManifest, id: string)
    requires manifest.tasks != [] && ModulesNamed(manifest)
    ensures RepairModule(manifest, id).Some? && IsModuleName(RepairModule(manifest, id).value)
  {
    ParentIsATask(manifest.tasks, id);
    assert manifest.tasks[0] in manifest.tasks;
  }

  // The line reads, under the heading, as the task.
  ghost predicate LineReads(heading: Heading, line: string, task: ParsedTask) {
    !heading.NoHeading? && HeadingOf(line).None? && IsTaskLine(line) && ParseTaskLine(line, heading) == Ok(task)
  }

  lemma OneLineReads(heading: Heading, tasks: seq<ParsedTask>, line: string, task: ParsedTask)
    requires LineReads(heading, line, task)
    ensures Reader()(Document(heading, tasks), line) == Ok(Document(heading, tasks + [task]))
  {
  }

  // Each line adds its task, whatever was read before it.
  ghost predicate AddsTasks(step: LineReader, heading: Heading, lines: seq<string>, tasks: seq<ParsedTask>) {
    && |lines| == |tasks|
    && forall i, before | 0 <= i < |lines| ::
         step(Document(heading, before), lines[i]) == Ok(Document(heading, before + [tasks[i]]))
  }

  lemma {:induction false} LinesRead(step: LineReader, heading: Heading, lines: seq<string>, tasks: seq<ParsedTask>, n: nat)
    requires AddsTasks(step, heading, lines, tasks) && n <= |lines|
    ensures ReadWith(step, Document(heading, []), lines[..n]) == Ok(Document(heading, tasks[..n]))
  {
    if n > 0 {
      LinesRead(step, heading, lines, tasks, n - 1);
      assert lines[..n][..n - 1] == lines[..n - 1];
      assert step(Document(heading, tasks[..n - 1]), lines[n - 1]) == Ok(Document(heading, tasks[..n - 1] + [tasks[n - 1]]));
      assert tasks[..n] == tasks[..n - 1] + [tasks[n - 1]];
    }
  }

  lemma RenderedLineReads(manifest: TaskManifest, taskId: string, issue: Issue, number: nat)
    requires manifest.tasks != [] && ModulesNamed(manifest) && IsTaskId(taskId) && Printable(issue)
    ensures RepairModule(manifest, taskId).Some?
    ensures var moduleName := RepairModule(manifest, taskId).value;
            LineReads(UnderReviewRepair, RepairTaskLine(moduleName, taskId, issue, number),
                      TaskOfIssue(moduleName, taskId, issue, number))
  {
    ModuleIsNamed(manifest, taskId);
    LineRoundTrip(RepairModule(manifest, taskId).value, taskId, issue, number);
    RenderedIsTaskLine(RepairModule(manifest, taskId).value, taskId, issue, number);
  }

  lemma RenderedAt(manifest: TaskManifest, tasks: seq<TaskReview>, first: nat, i: nat)
    requires manifest.tasks != [] && ModulesNamed(manifest) && i < |Issues(tasks)|
    ensures RenderRepairTaskLines(manifest, tasks, first).Ok?
    ensures RepairModule(manifest, Issues(tasks)[i].0).Some?
    ensures var id, issue := Issues(tasks)[i].0, Issues(tasks)[i].1;
            && RenderRepairTaskLines(manifest, tasks, first).value[i] ==
                 RepairTaskLine(RepairModule(manifest, id).value, id, issue, first + i)
            && TasksOfIssues(manifest, Issues(tasks), first)[i] ==
                 TaskOfIssue(RepairModule(manifest, id).value, id, issue, first + i)
  {
  }

  lemma RenderedAdds(manifest: TaskManifest, tasks: seq<TaskReview>, first: nat, i: nat, before: seq<ParsedTask>)
    requires manifest.tasks != [] && ModulesNamed(manifest) && AllPrintable(Issues(tasks)) && i < |Issues(tasks)|
    ensures RenderRepairTaskLines(manifest, tasks, first).Ok?
    ensures Reader()(Document(UnderReviewRepair, before), RenderRepairTaskLines(manifest, tasks, first).value[i]) ==
              Ok(Document(UnderReviewRepair, before + [TasksOfIssues(manifest, Issues(tasks), first)[i]]))
  {
    var id, issue := Issues(tasks)[i].0, Issues(tasks)[i].1;
    RenderedAt(manifest, tasks, first, i);
    RenderedLineAdds(manifest, id, issue, first + i, before);
  }

  lemma RenderedLineAdds(manifest: TaskManifest, taskId: string, issue: Issue, number: nat, before: seq<ParsedTask>)
    requires manifest.tasks != [] && ModulesNamed(manifest) && IsTaskId(taskId) && Printable(issue)
    ensures RepairModule(manifest, taskId).Some?
    ensures var moduleName := RepairModule(manifest, taskId).value;
            Reader()(Document(UnderReviewRepair, before), RepairTaskLine(moduleName, taskId, issue, number)) ==
              Ok(Document(UnderReviewRepair, before + [TaskOfIssue(moduleName, taskId, issue, number)]))
  {
    RenderedLineReads(manifest, taskId, issue, number);
    var moduleName := RepairModule(manifest, taskId).value;
    OneLineReads(UnderReviewRepair, before, RepairTaskLine(moduleName, taskId, issue, number),
                 TaskOfIssue(moduleName, taskId, issue, number));
  }

  lemma RenderedLinesRead(manifest: TaskManifest, tasks: seq<TaskReview>, first: nat)
    requires manifest.tasks != [] && ModulesNamed(manifest) && AllPrintable(Issues(tasks))
    ensures RenderRepairTaskLines(manifest, tasks, first).Ok?
    ensures ReadLines(Document(UnderReviewRepair, []), RenderRepairTaskLines(manifest, tasks, first).value) ==
              Ok(Document(UnderReviewRepair, TasksOfIssues(manifest, Issues(tasks), first)))
  {
    var lines, parsed := RenderRepairTaskLines(manifest, tasks, first).value, TasksOfIssues(manifest, Issues(tasks), first);
    forall i, before | 0 <= i < |lines|
      ensures Reader()(Document(UnderReviewRepair, before), lines[i]) == Ok(Document(UnderReviewRepair, before + [parsed[i]]))
    {
      RenderedAdds(manifest, tasks, first, i, before);
    }
    LinesRead(Reader(), UnderReviewRepair, lines, parsed, |lines|);
    assert lines[..|lines|] == lines && parsed[..|parsed|] == parsed;
  }

  function NumberOf(id: string): int {
    if IsTaskId(id) then Value(id[1..]) else -1
  }

  lemma NumberOfText(n: nat)
    ensures NumberOf(TaskNumberText(n)) == n
  {
    TaskNumberReadsBack(n);
  }

  lemma NumberAt(manifest: TaskManifest, issues: seq<(string, Issue)>, first: nat, i: nat)
    requires manifest.tasks != [] && i < |issues|
    ensures NumberOf(TasksOfIssues(manifest, issues, first)[i].id) == first + i
  {
    NumberOfText(first + i);
  }

  lemma NumberedTasksAreDistinct(manifest: TaskManifest, issues: seq<(string, Issue)>, first: nat)
    requires manifest.tasks != []
    ensures DistinctIds(TasksOfIssues(manifest, issues, first))
  {
    forall i | 0 <= i < |issues| ensures NumberOf(TasksOfIssues(manifest, issues, first)[i].id) == first + i {
      NumberAt(manifest, issues, first, i);
    }
    CountedIdsAreDistinct(TasksOfIssues(manifest, issues, first), first);
  }

  lemma CountedIdsAreDistinct(tasks: seq<ParsedTask>, first: nat)
    requires forall i | 0 <= i < |tasks| :: NumberOf(tasks[i].id) == first + i
    ensures DistinctIds(tasks)
  {
  }

  const REPAIR_SECTION := ['#', '#', ' '] + REPAIR_HEADING

  // The text of the section

  // A line of one line's text that is blank, a heading or a task
  predicate PlainLine(line: string) {
    OneLine(line) && (line == "" || line[0] == '#' || line[0] == '-')
  }

  predicate StartsPlainly(s: string) {
    TrimStart(s) == "" || TrimStart(s)[0] == '#' || TrimStart(s)[0] == '-'
  }

  // The metadata key at the start of a text
  predicate IsMetadataKey(s: string) {
    var key := TrimStart(s);
    StartsWithIgnoringCase(key, "taskManifestMetadata") && TrimStart(key[20..]) != "" && TrimStart(key[20..])[0] == ':'
  }

  lemma PlainStartIsNoMetadata(s: string)
    requires StartsPlainly(s)
    ensures !IsMetadataKey(s)
  {
    assert "taskManifestMetadata"[0] == 't';
  }

  lemma MetadataIsKey(s: string)
    ensures HasMetadata(s) <==> exists i :: 0 <= i < |s| && (i == 0 || EndsLine(s[i - 1])) && IsMetadataKey(s[i..])
  {
  }

  lemma PlainLineStarts(line: string, rest: string)
    requires PlainLine(line) && StartsPlainly(rest)
    ensures StartsPlainly(line) && StartsPlainly(line + ['\n'] + rest)
  {
    var s := line + ['\n'] + rest;
    if line == "" {
      assert s[1..] == rest;
    } else {
      assert s[0] == line[0];
    }
  }

  lemma OneLineHasNoMetadata(line: string)
    requires PlainLine(line)
    ensures !HasMetadata(line)
  {
    PlainLineStarts(line, "");
    PlainStartIsNoMetadata(line);
    MetadataIsKey(line);
    assert line[0..] == line;
  }

  lemma MoreLinesHaveNoMetadata(line: string, rest: string)
    requires PlainLine(line) && StartsPlainly(rest) && !HasMetadata(rest)
    ensures !HasMetadata(line + ['\n'] + rest)
  {
    var s := line + ['\n'] + rest;
    MetadataIsKey(s);
    forall i | 0 <= i < |s| && (i == 0 || EndsLine(s[i - 1])) ensures !IsMetadataKey(s[i..]) {
      NoMetadataAt(line, rest, i);
    }
  }

  lemma NoMetadataAt(line: string, rest: string, i: nat)
    requires PlainLine(line) && StartsPlainly(rest) && !HasMetadata(rest)
    requires i < |line + ['\n'] + rest| && (i == 0 || EndsLine((line + ['\n'] + rest)[i - 1]))
    ensures !IsMetadataKey((line + ['\n'] + rest)[i..])
  {
    var s, n := line + ['\n'] + rest, |line| + 1;
    if i == 0 {
      PlainLineStarts(line, rest);
      PlainStartIsNoMetadata(s);
      assert s[0..] == s;
    } else {
      assert i >= n;
      assert s[i..] == rest[i - n..];
      LaterIsNoMetadata(rest, i - n);
    }
  }

  lemma LaterIsNoMetadata(rest: string, i: nat)
    requires StartsPlainly(rest) && !HasMetadata(rest) && i < |rest| && (i == 0 || EndsLine(rest[i - 1]))
    ensures !IsMetadataKey(rest[i..])
  {
    MetadataIsKey(rest);
  }

  lemma {:induction false} PlainLinesHaveNoMetadata(lines: seq<string>)
    requires lines != [] && forall line | line in lines :: PlainLine(line)
    ensures !HasMetadata(Join(lines, '\n')) && StartsPlainly(Join(lines, '\n'))
  {
    assert lines[0] in lines;
    if |lines| == 1 {
      OneLineHasNoMetadata(lines[0]);
      PlainLineStarts(lines[0], "");
    } else {
      forall line | line in lines[1..] ensures PlainLine(line) {
        assert line in lines;
      }
      PlainLinesHaveNoMetadata(lines[1..]);
      MoreLinesHaveNoMetadata(lines[0], Join(lines[1..], '\n'));
      PlainLineStarts(lines[0], Join(lines[1..], '\n'));
    }
  }

  lemma PlainLineStaysWhole(line: string)
    requires PlainLine(line)
    ensures '\n' !in line && WithoutReturn(line) == line
  {
    assert line != "" ==> line[|line| - 1] in line;
    assert EndsLine('\n') && EndsLine('\r');
  }

  /** A text of plain lines splits into them again. */
  lemma PlainLinesRead(lines: seq<string>)
    requires lines != [] && forall line | line in lines :: PlainLine(line)
    ensures DocumentLines(Join(lines, '\n')) == lines && !HasMetadata(Join(lines, '\n'))
  {
    PlainLinesHaveNoMetadata(lines);
    forall i | 0 <= i < |lines| ensures '\n' !in lines[i] && WithoutReturn(lines[i]) == lines[i] {
      PlainLineStaysWhole(lines[i]);
    }
    SplitJoin(lines, '\n');
  }

  lemma BoxedIsPlain(box: string, id: string, moduleName: string, text: string)
    requires box == BOX || box == TICKED
    requires IsTaskId(id) && IsModuleName(moduleName) && OneLine(text) && text != "" && !IsSpace(text[|text| - 1])
    ensures PlainLine(box + ([' '] + Numbered(id, Tagged(moduleName, text))))
  {
    NumberedIsOneLine(id, moduleName, text);
    OneLineConcat([' '], Numbered(id, Tagged(moduleName, text)));
    assert OneLine(BOX) && OneLine(TICKED);
    OneLineConcat(box, [' '] + Numbered(id, Tagged(moduleName, text)));
  }

  lemma RepairLineIsPlain(moduleName: string, taskId: string, issue: Issue, number: nat)
    requires IsModuleName(moduleName) && IsTaskId(taskId)
    ensures PlainLine(RepairTaskLine(moduleName, taskId, issue, number))
  {
    NumberIsTaskId(number);
    TextIsOneLine(taskId, issue);
    BoxedIsPlain(BOX, TaskNumberText(number), moduleName, TaskText(taskId, issue));
  }

  lemma RenderedIsPlain(manifest: TaskManifest, tasks: seq<TaskReview>, first: nat, line: string)
    requires manifest.tasks != [] && ModulesNamed(manifest)
    requires forall i | 0 <= i < |Issues(tasks)| :: IsTaskId(Issues(tasks)[i].0)
    requires RenderRepairTaskLines(manifest, tasks, first).Ok? && line in RenderRepairTaskLines(manifest, tasks, first).value
    ensures PlainLine(line)
  {
    var lines := RenderRepairTaskLines(manifest, tasks, first).value;
    var i :| 0 <= i < |lines| && lines[i] == line;
    var id, issue := Issues(tasks)[i].0, Issues(tasks)[i].1;
    RenderedAt(manifest, tasks, first, i);
    ModuleIsNamed(manifest, id);
    RepairLineIsPlain(RepairModule(manifest, id).value, id, issue, first + i);
  }

  function RepairSection(lines: seq<string>): string {
    Join([REPAIR_SECTION, ""] + lines, '\n')
  }

  /**
    A document that is the heading `## Review Repair Tasks` with the rendered lines under it parses into, in order,
    one open task per issue: its own number, the parent's module, exactly its path, and the rendered guidance.
   */
  lemma RenderedTasksRoundTrip(manifest: TaskManifest, tasks: seq<TaskReview>, first: nat)
    requires manifest.tasks != [] && ModulesNamed(manifest) && AllPrintable(Issues(tasks))
    ensures RenderRepairTaskLines(manifest, tasks, first).Ok?
    ensures Parse(RepairSection(RenderRepairTaskLines(manifest, tasks, first).value)) ==
              Ok(TasksOfIssues(manifest, Issues(tasks), first))
  {
    RenderedLinesRead(manifest, tasks, first);
    var lines := RenderRepairTaskLines(manifest, tasks, first).value;
    forall line | line in lines ensures PlainLine(line) {
      RenderedIsPlain(manifest, tasks, first, line);
    }
    NumberedTasksAreDistinct(manifest, Issues(tasks), first);
    SectionParses(lines, TasksOfIssues(manifest, Issues(tasks), first));
  }

  lemma SectionParses(lines: seq<string>, tasks: seq<ParsedTask>)
    requires forall line | line in lines :: PlainLine(line)
    requires ReadLines(Document(UnderReviewRepair, []), lines) == Ok(Document(UnderReviewRepair, tasks)) && DistinctIds(tasks)
    ensures Parse(RepairSection(lines)) == Ok(tasks)
  {
    assert OneLine(REPAIR_SECTION);
    PlainLinesRead([REPAIR_SECTION, ""] + lines);
    SectionReads();
    ReadAppend(Reader(), Document(NoHeading, []), [REPAIR_SECTION, ""], lines);
  }

  lemma HashedBody(body: string)
    requires body != "" && !IsSpace(body[0])
    ensures HeadingBody(['#', '#', ' '] + body) == Some(body)
  {
    var line := ['#', '#', ' '] + body;
    assert line[..2] == "##" && line[2..] == " " + body;
    SpaceBefore(body);
  }

  lemma SectionIsHeading()
    ensures HeadingOf(REPAIR_SECTION) == Some(UnderReviewRepair)
  {
    HashedBody(REPAIR_HEADING);
    assert REPAIR_HEADING[..3][0] == 'R' && REPAIR_HEADING[|REPAIR_HEADING|..] == "";
  }

  lemma SectionReads()
    ensures ReadLines(Document(NoHeading, []), [REPAIR_SECTION, ""]) == Ok(Document(UnderReviewRepair, []))
  {
    SectionIsHeading();
    var here := Document(UnderReviewRepair, []);
    ReadTwo(Reader(), Document(NoHeading, []), REPAIR_SECTION, here, "", here);
  }

  // A completed task

  function DoneTask(id: string, moduleName: string, text: string): string {
    TICKED + ([' '] + Numbered(id, Tagged(moduleName, text)))
  }

  lemma TickReads(body: string)
    requires body != "" && !IsSpace(body[0]) && !IsSpace(body[|body| - 1]) && OneLine(body)
    ensures Checkbox(TICKED + ([' '] + body)) == Some((true, body))
  {
    var line := TICKED + ([' '] + body);
    assert line[5..] == " " + body && line[..3] == "- [";
    SpaceBefore(body);
    TrimmedStays(body);
  }

  lemma DoneTaskReads(id: string, moduleName: string, text: string)
    requires IsTaskId(id) && IsModuleName(moduleName) && OneLine(text)
    requires text != "" && text[0] == 'R' && !IsSpace(text[|text| - 1])
    ensures ParseTaskLine(DoneTask(id, moduleName, text), UnderReviewRepair) == TaskOf(id, moduleName, true, text)
  {
    NumberedIsOneLine(id, moduleName, text);
    TickReads(Numbered(id, Tagged(moduleName, text)));
    NumberReads(id, moduleName, text);
    TagReads(moduleName, text);
    OwnModule(moduleName);
    PartsRead(DoneTask(id, moduleName, text), true, Numbered(id, Tagged(moduleName, text)), id, Tagged(moduleName, text),
              moduleName, text);
  }

  /** A line with a ticked box reads back as the completed task. */
  lemma DoneLineRoundTrip(moduleName: string, taskId: string, issue: Issue, number: nat)
    requires IsModuleName(moduleName) && IsTaskId(taskId) && Printable(issue)
    ensures LineReads(UnderReviewRepair, DoneTask(TaskNumberText(number), moduleName, TaskText(taskId, issue)),
                      TaskOfIssue(moduleName, taskId, issue, number).(completed := true))
    ensures PlainLine(DoneTask(TaskNumberText(number), moduleName, TaskText(taskId, issue)))
  {
    var id, text := TaskNumberText(number), TaskText(taskId, issue);
    NumberIsTaskId(number);
    TextIsOneLine(taskId, issue);
    DoneTaskReads(id, moduleName, text);
    TextReads(moduleName, taskId, issue, number, true);
    BoxedIsPlain(TICKED, id, moduleName, text);
    DoneIsTaskLine(id, moduleName, text);
  }

  lemma DoneIsTaskLine(id: string, moduleName: string, text: string)
    ensures var line := DoneTask(id, moduleName, text); HeadingOf(line).None? && IsTaskLine(line)
  {
    var line := DoneTask(id, moduleName, text);
    assert TICKED[..3] == "- [" && line[..3] == "- [" && line[0] == '-';
    assert "##"[0] == '#';
  }

  // Inline text is the words of the text, with single spaces between them

  predicate IsInk(c: char) {
    !IsSpace(c) && c != '`'
  }

  predicate BeginsWithInk(s: string) {
    s != "" && IsInk(s[0])
  }

  function WithoutSemicolon(c: char): char {
    if c == ';' then ',' else c
  }

  // The words of c and what follows it, given the words of what follows it
  function AddedInFront(c: char, s: string, words: seq<string>): seq<string> {
    if !IsInk(c) then words
    else if BeginsWithInk(s) && words != [] then [[WithoutSemicolon(c)] + words[0]] + words[1..]
    else [[WithoutSemicolon(c)]] + words
  }

  /** The longest runs without white space and backticks, semicolons made commas. */
  function Words(s: string): (words: seq<string>)
    ensures BeginsWithInk(s) ==> words != []
  {
    if s == "" then [] else AddedInFront(s[0], s[1..], Words(s[1..]))
  }

  lemma WordsOfFirst(c: char, s: string)
    ensures Words([c] + s) == AddedInFront(c, s, Words(s))
  {
    assert ([c] + s)[1..] == s;
  }

  lemma {:induction false} DropRunKeepsWords(s: string, p: char -> bool)
    requires forall c | p(c) :: !IsInk(c)
    ensures Words(DropRun(s, p)) == Words(s) && (DropRun(s, p) == "" || !p(DropRun(s, p)[0]))
  {
    if s != "" && p(s[0]) {
      DropRunKeepsWords(s[1..], p);
    }
  }

  lemma {:induction false} CollapseKeepsWords(s: string, p: char -> bool)
    requires forall c | p(c) :: !IsInk(c)
    ensures Words(Collapse(s, p)) == Words(s) && (BeginsWithInk(Collapse(s, p)) <==> BeginsWithInk(s))
    decreases |s|
  {
    if s != "" {
      if p(s[0]) {
        DropRunKeepsWords(s[1..], p);
        CollapseKeepsWords(DropRun(s[1..], p), p);
        WordsOfFirst(' ', Collapse(DropRun(s[1..], p), p));
        assert " " + Collapse(DropRun(s[1..], p), p) == [' '] + Collapse(DropRun(s[1..], p), p);
      } else {
        CollapseKeepsWords(s[1..], p);
        WordsOfFirst(s[0], Collapse(s[1..], p));
      }
    }
  }

  lemma {:induction false} CommasKeepWords(s: string)
    ensures Words(Commas(s)) == Words(s) && (BeginsWithInk(Commas(s)) <==> BeginsWithInk(s))
  {
    if s != "" {
      CommasKeepWords(s[1..]);
      assert Commas(s) == [WithoutSemicolon(s[0])] + Commas(s[1..]);
      WordsOfFirst(WithoutSemicolon(s[0]), Commas(s[1..]));
    }
  }

  lemma {:induction false} TrimStartKeepsWords(s: string)
    ensures Words(TrimStart(s)) == Words(s)
  {
    if s != "" && IsSpace(s[0]) {
      TrimStartKeepsWords(s[1..]);
    }
  }

  lemma {:induction false} SpaceAfterKeepsWords(s: string, c: char)
    requires !IsInk(c)
    ensures Words(s + [c]) == Words(s) && (BeginsWithInk(s + [c]) <==> BeginsWithInk(s))
  {
    if s == "" {
      assert s + [c] == [c] + "";
      WordsOfFirst(c, "");
    } else {
      assert (s + [c])[1..] == s[1..] + [c];
      SpaceAfterKeepsWords(s[1..], c);
    }
  }

  lemma {:induction false} TrimEndKeepsWords(s: string)
    ensures Words(TrimEnd(s)) == Words(s)
  {
    if s != "" && IsSpace(s[|s| - 1]) {
      TrimEndKeepsWords(s[..|s| - 1]);
      assert s == s[..|s| - 1] + [s[|s| - 1]];
      SpaceAfterKeepsWords(s[..|s| - 1], s[|s| - 1]);
    }
  }

  // Ink and single spaces, and no space at the end
  predicate IsTidy(s: string) {
    && (forall i | 0 <= i < |s| :: (IsInk(s[i]) && s[i] != ';') || s[i] == ' ')
    && (forall i | 0 <= i < |s| - 1 :: s[i] == ' ' ==> s[i + 1] != ' ')
    && (s != "" ==> s[|s| - 1] != ' ')
  }

  lemma {:induction false} TidyIsJoined(s: string)
    requires IsTidy(s) && (s == "" || IsInk(s[0]))
    ensures Join(Words(s), ' ') == s
    decreases |s|
  {
    if s != "" {
      var rest := s[1..];
      assert s == [s[0]] + rest;
      if rest == "" {
        assert Words(s) == [[s[0]]];
      } else if IsInk(rest[0]) {
        TidyIsJoined(rest);
        InkContinues(s[0], Words(rest));
      } else {
        assert rest[0] == ' ' && rest == [' '] + rest[1..];
        assert |rest| > 1 && IsInk(rest[1]) by {
          assert rest[0] == s[1] && rest[|rest| - 1] == s[|s| - 1];
          assert |rest| > 1 ==> s[1] == ' ' && s[2] == rest[1];
        }
        TidyIsJoined(rest[1..]);
        assert Words(rest) == Words(rest[1..]);
        SpaceContinues(s[0], Words(rest[1..]));
      }
    }
  }

  lemma SpaceContinues(c: char, words: seq<string>)
    requires words != []
    ensures Join([[c]] + words, ' ') == [c] + ([' '] + Join(words, ' '))
  {
    assert ([[c]] + words)[1..] == words;
  }

  lemma InkContinues(c: char, words: seq<string>)
    requires words != []
    ensures Join([[c] + words[0]] + words[1..], ' ') == [c] + Join(words, ' ')
  {
    var longer := [[c] + words[0]] + words[1..];
    assert longer[1..] == words[1..];
    if |words| > 1 {
      assert Join(longer, ' ') == [c] + words[0] + [' '] + Join(words[1..], ' ');
      assert Join(words, ' ') == words[0] + [' '] + Join(words[1..], ' ');
    }
  }

  lemma {:induction false} CollapsedSpaces(s: string)
    ensures var r := Collapse(s, IsSpace);
            && (forall i | 0 <= i < |r| :: IsSpace(r[i]) ==> r[i] == ' ')
            && (forall i | 0 <= i < |r| - 1 :: r[i] == ' ' ==> r[i + 1] != ' ')
            && (r != "" && r[0] == ' ' ==> IsSpace(s[0]))
    decreases |s|
  {
    if s != "" {
      if IsSpace(s[0]) {
        var later := DropRun(s[1..], IsSpace);
        RunIsDropped(s[1..]);
        CollapsedSpaces(later);
        var r := Collapse(s, IsSpace);
        assert r == " " + Collapse(later, IsSpace);
        assert forall i | 1 <= i < |r| :: r[i] == Collapse(later, IsSpace)[i - 1];
      } else {
        CollapsedSpaces(s[1..]);
        var r := Collapse(s, IsSpace);
        assert forall i | 1 <= i < |r| :: r[i] == Collapse(s[1..], IsSpace)[i - 1];
      }
    }
  }

  lemma {:induction false} RunIsDropped(s: string)
    ensures DropRun(s, IsSpace) == "" || !IsSpace(DropRun(s, IsSpace)[0])
  {
    if s != "" && IsSpace(s[0]) {
      RunIsDropped(s[1..]);
    }
  }

  lemma InlineIsTidy(value: string)
    ensures IsTidy(SafeInline(value)) && (SafeInline(value) == "" || IsInk(SafeInline(value)[0]))
  {
    SafeInlineIsPlain(value);
    var spaced, r := Collapse(Commas(Collapse(value, BreaksInline)), IsSpace), SafeInline(value);
    CollapsedSpaces(Commas(Collapse(value, BreaksInline)));
    TrimStartCuts(spaced);
    var n := |spaced| - |TrimStart(spaced)|;
    assert r <= TrimStart(spaced) && TrimStart(spaced) == spaced[n..];
    forall i | 0 <= i < |r| - 1 ensures r[i] == ' ' ==> r[i + 1] != ' ' {
      assert r[i] == spaced[n + i] && r[i + 1] == spaced[n + i + 1];
    }
    forall i | 0 <= i < |r| ensures (IsInk(r[i]) && r[i] != ';') || r[i] == ' ' {
      assert r[i] in r;
    }
    if r != "" {
      assert r[0] in r && IsSpace(' ');
    }
  }

  /** What is written inline is exactly the words of the text, one space between two. */
  lemma InlineIsWords(value: string)
    ensures SafeInline(value) == Join(Words(value), ' ')
  {
    var broken := Collapse(value, BreaksInline);
    CollapseKeepsWords(value, BreaksInline);
    CommasKeepWords(broken);
    CollapseKeepsWords(Commas(broken), IsSpace);
    TrimStartKeepsWords(Collapse(Commas(broken), IsSpace));
    TrimEndKeepsWords(TrimStart(Collapse(Commas(broken), IsSpace)));
    InlineIsTidy(value);
    TidyIsJoined(SafeInline(value));
  }

  // What is rendered for whom

  /** The issues of the tasks, task by task, each with its task's id. */
  lemma {:induction false} IssuesComeInOrder(early: seq<TaskReview>, late: seq<TaskReview>)
    ensures Issues(early + late) == Issues(early) + Issues(late)
  {
    if late == [] {
      assert early + late == early;
    } else {
      var n, all := |late| - 1, early + late;
      assert all[..|all| - 1] == early + late[..n] && all[|all| - 1] == late[n];
      IssuesComeInOrder(early, late[..n]);
      assert Issues(all) == Issues(early + late[..n]) + IssuesOf(late[n]);
      assert Issues(late) == Issues(late[..n]) + IssuesOf(late[n]);
    }
  }

  lemma IssuesOfOne(t: TaskReview)
    ensures |Issues([t])| == |t.issues| && forall i | 0 <= i < |t.issues| :: Issues([t])[i] == (t.id, t.issues[i])
  {
    assert [t][..0] == [] && Issues([t][..0]) == [];
    assert Issues([t]) == [] + IssuesOf(t) == IssuesOf(t);
  }

  /** A repair belongs to the module of the first manifest task with the id, and to the manifest's first module for an unknown one. */
  lemma {:induction false} ModuleOfRepair(manifest: TaskManifest, id: string, i: nat)
    requires i <= |manifest.tasks| && forall j | 0 <= j < i :: manifest.tasks[j].id != id
    ensures i < |manifest.tasks| && manifest.tasks[i].id == id ==> RepairModule(manifest, id) == Some(manifest.tasks[i].moduleId)
    ensures i == |manifest.tasks| ==>
              RepairModule(manifest, id) == if manifest.tasks == [] then None else Some(manifest.tasks[0].moduleId)
  {
    if i < |manifest.tasks| ==> manifest.tasks[i].id == id {
      FirstParent(manifest.tasks, id, i);
    }
  }

  lemma {:induction false} FirstParent(tasks: seq<ManifestTask>, id: string, i: nat)
    requires i <= |tasks| && (forall j | 0 <= j < i :: tasks[j].id != id) && (i < |tasks| ==> tasks[i].id == id)
    ensures ParentOf(tasks, id) == if i < |tasks| then Some(tasks[i]) else None
  {
    if i > 0 {
      FirstParent(tasks[1..], id, i - 1);
    }
  }

  // The words of the message, and of the suggestion if there is one
  function WrittenGuidance(issue: Issue): string {
    if issue.suggestedFix.None? then Join(Words(issue.message), ' ')
    else Join(Words(issue.message), ' ') + ("; suggestion:" + Join(Words(issue.suggestedFix.value), ' '))
  }

  lemma SuggestionMark(s: string)
    ensures [';'] + (SUGGESTION + s) == "; suggestion:" + s
  {
    assert [';'] + SUGGESTION == "; suggestion:";
  }

  lemma CriterionMark(s: string)
    ensures [';'] + (CRITERION + s) == "; criterionId=" + s
  {
    assert [';'] + CRITERION == "; criterionId=";
  }

  lemma GuidanceSays(issue: Issue)
    ensures Guidance(issue) == WrittenGuidance(issue)
  {
    InlineIsWords(issue.message);
    if issue.suggestedFix.Some? {
      InlineIsWords(issue.suggestedFix.value);
      SuggestionMark(SafeInline(issue.suggestedFix.value));
    }
  }

  /** What an issue asks for: its message, its suggestion if it has one, and the task it was found in. */
  lemma CriterionSays(taskId: string, issue: Issue)
    ensures Criterion(taskId, issue) == WrittenGuidance(issue) + ("; criterionId=" + taskId)
  {
    GuidanceSays(issue);
    CriterionMark(taskId);
    WithMark(WrittenGuidance(issue), CRITERION + taskId);
  }

  lemma WithMark(guidance: string, rest: string)
    ensures guidance + [';'] + rest == guidance + ([';'] + rest)
  {
  }
}
