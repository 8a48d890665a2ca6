/**
  Reading a task document (packages/task-manifest/src/tasks-parser.ts). Each regular expression of the
  source is written out as the function it computes on a line.
 */
module TasksParser {
  import opened Wrappers
  import opened Text

  datatype Heading = NoHeading | UnderModule(name: string) | UnderReviewRepair | UnderConvergence

  datatype ParsedTask = ParsedTask(
    id: string, moduleName: string, completed: bool, description: string, filePaths: seq<string>, acceptance: string)

  datatype ParseError =
    | MetadataUnsupported | FormatInvalid | IdMissing | TagInvalid | ModuleMismatch | AcceptanceMissing | IdDuplicate

  predicate IsDigit(c: char) {
    '0' <= c <= '9'
  }

  // What `.` does not match
  predicate EndsLine(c: char) {
    c in {'\n', '\r', '\U{2028}', '\U{2029}'}
  }

  predicate OneLine(s: string) {
    forall c | c in s :: !EndsLine(c)
  }

  // Case folding as far as the letters of the keywords have another: the long s and the Kelvin sign, too
  function Lower(c: char): char {
    if 'A' <= c <= 'Z' then ((c as int) + 32) as char
    else if c == '\U{017F}' then 's'
    else if c == '\U{212A}' then 'k'
    else c
  }

  predicate StartsWithIgnoringCase(s: string, prefix: string) {
    |prefix| <= |s| && forall i | 0 <= i < |prefix| :: Lower(s[i]) == Lower(prefix[i])
  }

  function DropDigits(s: string): (r: string)
    ensures |r| <= |s|
    ensures r == "" || !IsDigit(r[0])
  {
    if s != "" && IsDigit(s[0]) then DropDigits(s[1..]) else s
  }

  // Headings

  function HeadingBody(line: string): Option<string> {
    if |line| > 2 && line[..2] == "##" && IsSpace(line[2]) then Some(TrimStart(line[2..])) else None
  }

  predicate EndsWord(rest: string) {
    rest == "" || IsSpace(rest[0])
  }

  predicate IsModuleName(s: string) {
    |s| == 3 && s[0] == 'M' && IsDigit(s[1]) && IsDigit(s[2])
  }

  const REPAIR_HEADING := "Review Repair Tasks"

  predicate IsConvergenceHeading(body: string) {
    && StartsWithIgnoringCase(body, "Phase")
    && var afterPhase := body[5..];
       var number := TrimStart(afterPhase);
       && number != afterPhase && number != "" && IsDigit(number[0])
       && var colon := TrimStart(DropDigits(number));
          && colon != "" && colon[0] == ':'
          && var word := TrimStart(colon[1..]);
             StartsWithIgnoringCase(word, "Convergence") && EndsWord(word[11..])
  }

  // The heading a line switches to; `None` when it is no heading
  function HeadingOf(line: string): Option<Heading> {
    match HeadingBody(line)
    case None => None
    case Some(body) =>
      if |body| >= 3 && IsModuleName(body[..3]) && EndsWord(body[3..]) then Some(UnderModule(body[..3]))
      else if REPAIR_HEADING <= body && EndsWord(body[|REPAIR_HEADING|..]) then Some(UnderReviewRepair)
      else if IsConvergenceHeading(body) then Some(UnderConvergence)
      else Some(NoHeading)
  }

  // A task line

  /** `/^- \[([ xX])\]\s+(.+)$/`: whether the box is ticked, and what follows it, trimmed. */
  function Checkbox(line: string): Option<(bool, string)> {
    if |line| < 6 || line[..3] != "- [" || line[3] !in {' ', 'x', 'X'} || line[4] != ']' || !IsSpace(line[5]) then None
    else
      var body := TrimStart(line[5..]);
      if body != "" then if OneLine(body) then Some((line[3] != ' ', Trim(body))) else None
      else if |line| > 6 && !EndsLine(line[|line| - 1]) then Some((line[3] != ' ', ""))
      else None
  }

  /** `/^(T\d{3,})\s+(.+)$/`, on a trimmed text of one line. */
  function TaskId(tail: string): Option<(string, string)> {
    if tail == "" || tail[0] != 'T' then None
    else
      var rest := DropDigits(tail[1..]);
      var digits := |tail| - 1 - |rest|;
      if digits < 3 || rest == "" || !IsSpace(rest[0]) || TrimStart(rest) == "" then None
      else Some((tail[..1 + digits], TrimStart(rest)))
  }

  function IndexOf(s: string, c: char): (r: Option<nat>)
    ensures r.Some? ==> r.value < |s| && s[r.value] == c && c !in s[..r.value]
    ensures r.None? ==> c !in s
  {
    if s == "" then None
    else if s[0] == c then Some(0)
    else
      var rest := IndexOf(s[1..], c);
      if rest.Some? then
        assert s[..rest.value + 1] == [s[0]] + s[1..][..rest.value];
        Some(rest.value + 1)
      else None
  }

  lemma TrimStartShortens(s: string)
    ensures |TrimStart(s)| <= |s|
  {
  }

  /** The tags in front of a task's text, and the text. */
  function Tags(remaining: string): (seq<string>, string)
    decreases |remaining|
  {
    if remaining == "" || remaining[0] != '[' then ([], remaining)
    else
      match IndexOf(remaining, ']')
      case None => ([], remaining)
      case Some(close) =>
        if close < 2 then ([], remaining)
        else
          TrimStartShortens(remaining[close + 1..]);
          var rest := Tags(TrimStart(remaining[close + 1..]));
          ([remaining[1..close]] + rest.0, rest.1)
  }

  method ReadTags(text: string) returns (tags: seq<string>, remaining: string)
    ensures (tags, remaining) == Tags(text)
  {
    tags, remaining := [], text;
    assert tags + Tags(remaining).0 == Tags(remaining).0;
    while remaining != "" && remaining[0] == '['
      invariant Tags(text) == (tags + Tags(remaining).0, Tags(remaining).1)
      decreases |remaining|
    {
      var close := IndexOf(remaining, ']');
      if close.None? || close.value < 2 {
        break;
      }
      TrimStartShortens(remaining[close.value + 1..]);
      var tag := remaining[1..close.value];
      remaining := TrimStart(remaining[close.value + 1..]);
      assert tags + ([tag] + Tags(remaining).0) == (tags + [tag]) + Tags(remaining).0;
      tags := tags + [tag];
    }
    assert Tags(remaining) == ([], remaining) && tags + [] == tags;
  }

  function ModuleOf(tags: seq<string>, heading: Heading): Result<string, ParseError>
    requires !heading.NoHeading?
  {
    if (exists tag :: tag in tags && !IsModuleName(tag)) || |tags| > 1 then Err(TagInvalid)
    else if heading.UnderModule? then if tags != [] && tags[0] != heading.name then Err(ModuleMismatch) else Ok(heading.name)
    else if tags == [] then Err(TagInvalid)
    else Ok(tags[0])
  }

  const DASH: char := '\U{2014}'
  const ACCEPTANCE := "Acceptance:"

  // White space, a dash, optional white space and the word match around the dash at p.
  predicate SeparatorAt(s: string, p: nat) {
    0 < p < |s| && s[p] == DASH && IsSpace(s[p - 1]) && ACCEPTANCE <= TrimStart(s[p + 1..])
  }

  function FirstSeparator(s: string, from: nat): (r: Option<nat>)
    requires from <= |s|
    ensures r.Some? ==> from <= r.value && SeparatorAt(s, r.value) && forall p | from <= p < r.value :: !SeparatorAt(s, p)
    ensures r.None? ==> forall p | from <= p < |s| :: !SeparatorAt(s, p)
    decreases |s| - from
  {
    if from == |s| then None
    else if SeparatorAt(s, from) then Some(from)
    else FirstSeparator(s, from + 1)
  }

  // `split` at every match of the separator
  function SplitAcceptance(s: string): (parts: seq<string>)
    ensures parts != []
    decreases |s|
  {
    match FirstSeparator(s, 0)
    case None => [s]
    case Some(p) =>
      TrimStartShortens(s[p + 1..]);
      TrimStartShortens(TrimStart(s[p + 1..])[|ACCEPTANCE|..]);
      [TrimEnd(s[..p])] + SplitAcceptance(TrimStart(TrimStart(s[p + 1..])[|ACCEPTANCE|..]))
  }

  // Target paths

  predicate IsWordChar(c: char) {
    'a' <= c <= 'z' || 'A' <= c <= 'Z' || IsDigit(c) || c == '_'
  }

  predicate IsPathChar(c: char) {
    IsWordChar(c) || c in {'.', '*', '{', '}', '-'}
  }

  const EXTENSIONS := {"cjs", "css", "html", "js", "json", "jsx", "md", "mjs", "sh", "ts", "tsx", "txt", "yaml", "yml"}

  predicate IsTargetPath(value: string) {
    || '/' in value || '\\' in value
    || exists dot :: 0 < dot < |value| && value[dot] == '.' && value[dot + 1..] in EXTENSIONS &&
         forall i | 0 <= i < dot :: IsPathChar(value[i])
  }

  /** The texts between backticks, in order: `/`([^`]+)`/g`. */
  function Quoted(s: string): seq<string>
    decreases |s|
  {
    match IndexOf(s, '`')
    case None => []
    case Some(open) =>
      var rest := s[open + 1..];
      match IndexOf(rest, '`')
      case None => []
      case Some(close) => if close == 0 then Quoted(rest) else [rest[..close]] + Quoted(rest[close + 1..])
  }

  function AddPath(paths: seq<string>, value: string): seq<string> {
    if IsTargetPath(value) && value !in paths then paths + [value] else paths
  }

  function TargetPaths(quoted: seq<string>): seq<string> {
    if quoted == [] then [] else AddPath(TargetPaths(quoted[..|quoted| - 1]), Trim(quoted[|quoted| - 1]))
  }

  method ExtractTargetPaths(description: string) returns (paths: seq<string>)
    ensures paths == TargetPaths(Quoted(description))
  {
    paths := [];
    var quoted := Quoted(description);
    for i := 0 to |quoted|
      invariant paths == TargetPaths(quoted[..i])
    {
      assert quoted[..i + 1][..i] == quoted[..i];
      var value := Trim(quoted[i]);
      if IsTargetPath(value) && value !in paths {
        paths := paths + [value];
      }
    }
    assert quoted[..|quoted|] == quoted;
  }

  function TaskOf(id: string, moduleName: string, completed: bool, text: string): Result<ParsedTask, ParseError> {
    var parts := SplitAcceptance(text);
    if |parts| != 2 || Trim(parts[1]) == "" then Err(AcceptanceMissing)
    else if Trim(parts[0]) == "" then Err(FormatInvalid)
    else Ok(ParsedTask(id, moduleName, completed, Trim(parts[0]), TargetPaths(Quoted(Trim(parts[0]))), Trim(parts[1])))
  }

  function ParseTaskLine(line: string, heading: Heading): Result<ParsedTask, ParseError>
    requires !heading.NoHeading?
  {
    match Checkbox(line)
    case None => Err(FormatInvalid)
    case Some((completed, tail)) =>
      match TaskId(tail)
      case None => Err(IdMissing)
      case Some((id, rest)) =>
        var (tags, text) := Tags(rest);
        match ModuleOf(tags, heading)
        case Err(error) => Err(error)
        case Ok(moduleName) => TaskOf(id, moduleName, completed, text)
  }

  // The document

  function WithoutReturn(line: string): string {
    if line != "" && line[|line| - 1] == '\r' then line[..|line| - 1] else line
  }

  /** `source.split(/\r?\n/)` */
  function DocumentLines(source: string): (lines: seq<string>)
    ensures |lines| >= 1
  {
    var parts := Split(source, '\n');
    var n := |parts| - 1;
    seq(n, i requires 0 <= i < n => WithoutReturn(parts[i])) + [parts[n]]
  }

  // `/^\s*taskManifestMetadata\s*:/im`, at the start of some line
  predicate HasMetadata(source: string) {
    exists i :: 0 <= i < |source| && (i == 0 || EndsLine(source[i - 1])) &&
      var key := TrimStart(source[i..]);
      StartsWithIgnoringCase(key, "taskManifestMetadata") && TrimStart(key[20..]) != "" && TrimStart(key[20..])[0] == ':'
  }

  predicate IsTaskLine(line: string) {
    "- [" <= line
  }

  // The current heading and the tasks read so far
  datatype Document = Document(heading: Heading, tasks: seq<ParsedTask>)

  type DocumentResult = Result<Document, ParseError>
  type LineReader = (Document, string) -> DocumentResult

  function ReadLine(document: Document, line: string): DocumentResult {
    match HeadingOf(line)
    case Some(next) => Ok(Document(next, document.tasks))
    case None =>
      if !IsTaskLine(line) then Ok(document)
      else if document.heading.NoHeading? then Err(FormatInvalid)
      else
        match ParseTaskLine(line, document.heading)
        case Err(error) => Err(error)
        case Ok(task) => Ok(Document(document.heading, document.tasks + [task]))
  }

  function Reader(): LineReader {
    (document: Document, line: string) => ReadLine(document, line)
  }

  // Reading line after line, up to the first error
  function ReadWith(step: LineReader, start: Document, lines: seq<string>): DocumentResult {
    if lines == [] then Ok(start)
    else
      match ReadWith(step, start, lines[..|lines| - 1])
      case Err(error) => Err(error)
      case Ok(now) => step(now, lines[|lines| - 1])
  }

  function ReadLines(start: Document, lines: seq<string>): DocumentResult {
    ReadWith(Reader(), start, lines)
  }

  predicate DistinctIds(tasks: seq<ParsedTask>) {
    forall i, j | 0 <= i < j < |tasks| :: tasks[i].id != tasks[j].id
  }

  function Parse(source: string): Result<seq<ParsedTask>, ParseError> {
    if HasMetadata(source) then Err(MetadataUnsupported)
    else
      match ReadLines(Document(NoHeading, []), DocumentLines(source))
      case Err(error) => Err(error)
      case Ok(document) => if DistinctIds(document.tasks) then Ok(document.tasks) else Err(IdDuplicate)
  }

  method ParseTasksDocument(source: string) returns (r: Result<seq<ParsedTask>, ParseError>)
    ensures r == Parse(source)
  {
    if HasMetadata(source) {
      return Err(MetadataUnsupported);
    }
    var tasks: seq<ParsedTask>, headingModule := [], NoHeading;
    var lines := DocumentLines(source);
    for i := 0 to |lines|
      invariant ReadLines(Document(NoHeading, []), lines[..i]) == Ok(Document(headingModule, tasks))
    {
      assert lines[..i + 1][..i] == lines[..i];
      ReadsPrefix(Reader(), Document(NoHeading, []), lines, i + 1);
      var line := lines[i];
      var heading := HeadingOf(line);
      if heading.Some? {
        headingModule := heading.value;
        continue;
      }
      if !IsTaskLine(line) {
        continue;
      }
      if headingModule.NoHeading? {
        return Err(FormatInvalid);
      }
      var task := ParseTaskLine(line, headingModule);
      if task.Err? {
        return Err(task.error);
      }
      tasks := tasks + [task.value];
    }
    assert lines[..|lines|] == lines;
    var duplicate := HasDuplicateId(tasks);
    return if duplicate then Err(IdDuplicate) else Ok(tasks);
  }

  method HasDuplicateId(tasks: seq<ParsedTask>) returns (duplicate: bool)
    ensures duplicate <==> !DistinctIds(tasks)
  {
    var ids: set<string> := {};
    for i := 0 to |tasks|
      invariant ids == set j | 0 <= j < i :: tasks[j].id
      invariant DistinctIds(tasks[..i])
    {
      if tasks[i].id in ids {
        return true;
      }
      ids := ids + {tasks[i].id};
    }
    assert tasks[..|tasks|] == tasks;
    return false;
  }

  /** The first error in a document decides, whatever follows it. */
  lemma {:induction false} ReadsPrefix(step: LineReader, start: Document, lines: seq<string>, n: nat)
    requires n <= |lines|
    ensures ReadWith(step, start, lines[..n]).Err? ==> ReadWith(step, start, lines) == ReadWith(step, start, lines[..n])
    decreases |lines| - n
  {
    if n == |lines| {
      assert lines[..n] == lines;
    } else {
      ReadsPrefix(step, start, lines, n + 1);
      assert lines[..n + 1][..n] == lines[..n];
    }
  }

  lemma {:induction false} ReadAppend(step: LineReader, start: Document, a: seq<string>, b: seq<string>)
    ensures ReadWith(step, start, a + b) ==
              if ReadWith(step, start, a).Err? then ReadWith(step, start, a) else ReadWith(step, ReadWith(step, start, a).value, b)
  {
    if b == [] {
      assert a + b == a;
    } else {
      var n := |b| - 1;
      assert (a + b)[..|a + b| - 1] == a + b[..n] && (a + b)[|a + b| - 1] == b[n];
      ReadAppend(step, start, a, b[..n]);
    }
  }

  lemma ReadOne(step: LineReader, start: Document, line: string)
    ensures ReadWith(step, start, [line]) == step(start, line)
  {
    assert [line][..0] == [];
  }

  lemma ReadTwo(step: LineReader, start: Document, a: string, middle: Document, b: string, end: Document)
    requires step(start, a) == Ok(middle) && step(middle, b) == Ok(end)
    ensures ReadWith(step, start, [a, b]) == Ok(end)
  {
    ReadOne(step, start, a);
    ReadOne(step, middle, b);
    ReadAppend(step, start, [a], [b]);
    assert [a] + [b] == [a, b];
  }
}
