/**
  The forms of a task document: what the parser accepts, written as the texts it is put together from
  (packages/task-manifest/src/tasks-parser.ts).
 */
module TaskGrammar {
  import opened Wrappers
  import opened Text
  import opened TasksParser

  predicate IsGap(s: string) {
    s != "" && IsBlank(s)
  }

  predicate StartsWithInk(s: string) {
    s != "" && !IsSpace(s[0])
  }

  // Leading white space

  lemma {:induction false} SkipsBlank(blank: string, rest: string)
    requires IsBlank(blank)
    ensures TrimStart(blank + rest) == TrimStart(rest)
  {
    if blank == "" {
      assert blank + rest == rest;
    } else {
      assert (blank + rest)[1..] == blank[1..] + rest;
      SkipsBlank(blank[1..], rest);
    }
  }

  lemma BlankFirst(s: string) returns (blank: string)
    ensures s == blank + TrimStart(s) && IsBlank(blank)
  {
    TrimStartCuts(s);
    blank := s[..|s| - |TrimStart(s)|];
  }

  lemma InkStays(s: string)
    requires s == "" || !IsSpace(s[0])
    ensures TrimStart(s) == s
  {
  }

  lemma GapBefore(s: string)
    requires s != "" && IsSpace(s[0])
    ensures exists gap :: IsGap(gap) && s == gap + TrimStart(s)
  {
    TrimStartCuts(s);
    var n := |s| - |TrimStart(s)|;
    assert s == s[..n] + s[n..];
    assert n > 0;
    assert IsGap(s[..n]);
  }

  // Headings

  predicate IsHeading(line: string, gap: string, body: string) {
    line == "##" + gap + body && IsGap(gap) && (body == "" || !IsSpace(body[0]))
  }

  lemma HeadingBodyExactly(line: string, body: string)
    ensures HeadingBody(line) == Some(body) <==> exists gap :: IsHeading(line, gap, body)
  {
    if HeadingBody(line) == Some(body) {
      GapBefore(line[2..]);
      var gap :| IsGap(gap) && line[2..] == gap + TrimStart(line[2..]);
      assert line == line[..2] + line[2..] == "##" + gap + body;
      assert IsHeading(line, gap, body);
    }
    if gap :| IsHeading(line, gap, body) {
      assert line[..2] == "##" && line[2..] == gap + body && line[2] == gap[0];
      SkipsBlank(gap, body);
      InkStays(body);
    }
  }

  /** A module is named by M and two digits. */
  lemma ModuleNameExactly(s: string)
    ensures IsModuleName(s) <==> exists a, b :: s == ['M', a, b] && a in "0123456789" && b in "0123456789"
  {
    if |s| == 3 {
      DigitExactly(s[1]);
      DigitExactly(s[2]);
      assert s == [s[0], s[1], s[2]];
    }
    forall a, b | s == ['M', a, b] && a in "0123456789" && b in "0123456789" ensures IsModuleName(s) {
      DigitExactly(a);
      DigitExactly(b);
    }
  }

  lemma DigitExactly(c: char)
    ensures IsDigit(c) <==> c in "0123456789"
  {
    var digits := "0123456789";
    if IsDigit(c) {
      var i := c as int - '0' as int;
      assert 0 <= i < 10 && digits[i] == c;
    }
  }

  // The body begins with the word, alone or followed by white space.
  ghost predicate BeginsWithWord(body: string, word: string) {
    exists rest :: body == word + rest && (rest == "" || IsSpace(rest[0]))
  }

  lemma BeginsExactly(body: string, word: string)
    ensures BeginsWithWord(body, word) <==> word <= body && EndsWord(body[|word|..])
  {
    if word <= body && EndsWord(body[|word|..]) {
      assert body == word + body[|word|..];
    }
    if rest :| body == word + rest && (rest == "" || IsSpace(rest[0])) {
      assert body[|word|..] == rest;
    }
  }

  predicate SameIgnoringCase(a: string, word: string) {
    |a| == |word| && forall i | 0 <= i < |word| :: Lower(a[i]) == Lower(word[i])
  }

  predicate IsNumber(s: string) {
    s != "" && forall c | c in s :: IsDigit(c)
  }

  // `Phase 3 : Convergence`, in any case
  predicate IsConvergence(
    body: string, phase: string, gap: string, number: string, before: string, after: string, word: string, rest: string)
  {
    && body == phase + (gap + (number + (before + ([':'] + (after + (word + rest))))))
    && SameIgnoringCase(phase, "Phase") && IsGap(gap) && IsNumber(number) && IsBlank(before) && IsBlank(after)
    && SameIgnoringCase(word, "Convergence") && (rest == "" || IsSpace(rest[0]))
  }

  lemma StartsExactly(s: string, word: string)
    ensures StartsWithIgnoringCase(s, word) <==> |word| <= |s| && SameIgnoringCase(s[..|word|], word)
  {
  }

  lemma ConvergenceIsRead(
    body: string, phase: string, gap: string, number: string, before: string, after: string, word: string, rest: string)
    requires IsConvergence(body, phase, gap, number, before, after, word, rest)
    ensures IsConvergenceHeading(body)
  {
    var tail := word + rest;
    var fromColon := [':'] + (after + tail);
    var fromNumber := number + (before + fromColon);
    assert body[..5] == phase && body[5..] == gap + fromNumber;
    StartsExactly(body, "Phase");
    SkipsBlank(gap, fromNumber);
    assert number[0] in number && fromNumber[0] == number[0];
    DigitIsNoSpace(number[0]);
    InkStays(fromNumber);
    assert body[5..] != fromNumber;
    FirstIsNoDigit(before, after + tail);
    DigitsAreDropped(number, before + fromColon);
    SkipsBlank(before, fromColon);
    InkStays(fromColon);
    assert fromColon[1..] == after + tail;
    SkipsBlank(after, tail);
    assert Lower(word[0]) == Lower('C') == 'c' && !IsSpace(word[0]);
    InkStays(tail);
    assert tail[..11] == word && tail[11..] == rest;
    StartsExactly(tail, "Convergence");
  }

  lemma DigitIsNoSpace(c: char)
    requires IsDigit(c)
    ensures !IsSpace(c)
  {
  }

  lemma FirstIsNoDigit(blank: string, rest: string)
    requires IsBlank(blank)
    ensures var s := blank + ([':'] + rest); !IsDigit(s[0])
  {
    if blank != "" {
      assert blank[0] in blank;
      SpaceIsNoDigit(blank[0]);
    }
  }

  lemma NumberFirst(s: string) returns (number: string)
    requires s != "" && IsDigit(s[0])
    ensures s == number + DropDigits(s) && IsNumber(number)
  {
    DroppedAreDigits(s);
    number := s[..|s| - |DropDigits(s)|];
    assert number != "";
  }

  lemma ReadIsConvergence(body: string)
    returns (phase: string, gap: string, number: string, before: string, after: string, word: string, rest: string)
    requires IsConvergenceHeading(body)
    ensures IsConvergence(body, phase, gap, number, before, after, word, rest)
  {
    StartsExactly(body, "Phase");
    phase := body[..5];
    gap := BlankFirst(body[5..]);
    number := NumberFirst(TrimStart(body[5..]));
    var afterNumber := DropDigits(TrimStart(body[5..]));
    before := BlankFirst(afterNumber);
    var colon := TrimStart(afterNumber);
    after := BlankFirst(colon[1..]);
    var tail := TrimStart(colon[1..]);
    StartsExactly(tail, "Convergence");
    word, rest := tail[..11], tail[11..];
    PiecesMakeHeading(body, gap, number, before, after, colon, tail);
  }

  lemma PiecesMakeHeading(body: string, gap: string, number: string, before: string, after: string, colon: string, tail: string)
    requires |body| >= 5 && body[5..] == gap + (number + (before + colon))
    requires colon != "" && colon[0] == ':' && colon[1..] == after + tail && |tail| >= 11
    ensures body == body[..5] + (gap + (number + (before + ([':'] + (after + (tail[..11] + tail[11..]))))))
  {
    assert tail[..11] + tail[11..] == tail;
    assert [':'] + (after + tail) == colon;
    assert body == body[..5] + body[5..];
  }

  /** The convergence phase is written in exactly that form. */
  lemma ConvergenceExactly(body: string)
    ensures IsConvergenceHeading(body) <==>
              exists phase, gap, number, before, after, word, rest :: IsConvergence(body, phase, gap, number, before, after, word, rest)
  {
    if IsConvergenceHeading(body) {
      var phase, gap, number, before, after, word, rest := ReadIsConvergence(body);
    }
    forall phase, gap, number, before, after, word, rest | IsConvergence(body, phase, gap, number, before, after, word, rest)
      ensures IsConvergenceHeading(body)
    {
      ConvergenceIsRead(body, phase, gap, number, before, after, word, rest);
    }
  }

  /** The heading a line is, by its first word: a module, the repair section, the convergence phase, or another. */
  lemma HeadingExactly(line: string, gap: string, body: string)
    requires IsHeading(line, gap, body)
    ensures HeadingOf(line).Some?
    ensures HeadingOf(line).value.UnderModule? <==> exists name :: IsModuleName(name) && BeginsWithWord(body, name)
    ensures forall name | IsModuleName(name) && BeginsWithWord(body, name) :: HeadingOf(line) == Some(UnderModule(name))
    ensures HeadingOf(line) == Some(UnderReviewRepair) <==> BeginsWithWord(body, REPAIR_HEADING)
    ensures HeadingOf(line) == Some(UnderConvergence) <==> IsConvergenceHeading(body)
  {
    HeadingBodyExactly(line, body);
    ModuleWordExactly(body);
    BeginsExactly(body, REPAIR_HEADING);
    HeadWordsDiffer(body);
  }

  lemma ModuleWordExactly(body: string)
    ensures (|body| >= 3 && IsModuleName(body[..3]) && EndsWord(body[3..])) <==> exists name :: IsModuleName(name) && BeginsWithWord(body, name)
    ensures forall name | IsModuleName(name) && BeginsWithWord(body, name) :: |body| >= 3 && name == body[..3] && EndsWord(body[3..])
  {
    forall name | IsModuleName(name) && BeginsWithWord(body, name) ensures |body| >= 3 && name == body[..3] && EndsWord(body[3..]) {
      BeginsExactly(body, name);
    }
    if |body| >= 3 && IsModuleName(body[..3]) && EndsWord(body[3..]) {
      BeginsExactly(body, body[..3]);
    }
  }

  lemma HeadWordsDiffer(body: string)
    ensures !(|body| >= 3 && IsModuleName(body[..3]) && REPAIR_HEADING <= body)
    ensures !(|body| >= 3 && IsModuleName(body[..3]) && IsConvergenceHeading(body))
    ensures !(REPAIR_HEADING <= body && IsConvergenceHeading(body))
  {
    assert REPAIR_HEADING[0] == 'R';
    assert "Phase"[0] == 'P' && Lower('P') == 'p' && Lower('R') == 'r' && Lower('M') == 'm';
  }

  /** And a line that is none of that form is no heading. */
  lemma OtherLinesAreNoHeading(line: string)
    ensures HeadingOf(line).None? <==> forall gap, body :: !IsHeading(line, gap, body)
  {
    if HeadingBody(line).Some? {
      HeadingBodyExactly(line, HeadingBody(line).value);
    }
    forall gap, body | IsHeading(line, gap, body) ensures HeadingBody(line).Some? {
      HeadingBodyExactly(line, body);
    }
  }

  // The box, the id and the text

  // `- [x] body`
  predicate IsBoxed(line: string, mark: char, gap: string, body: string) {
    && line == "- [" + [mark] + "]" + gap + body
    && mark in {' ', 'x', 'X'} && IsGap(gap) && body != "" && OneLine(body)
  }

  lemma BoxIsRead(line: string, mark: char, gap: string, body: string)
    requires IsBoxed(line, mark, gap, body)
    ensures Checkbox(line) == Some((mark != ' ', Trim(body)))
  {
    assert line[..3] == "- [" && line[3] == mark && line[4] == ']' && line[5..] == gap + body && line[5] == gap[0];
    SkipsBlank(gap, body);
    TrimOfTail(body);
    if TrimStart(body) == "" {
      assert line[|line| - 1] == body[|body| - 1];
    }
  }

  lemma TrimOfTail(body: string)
    ensures Trim(TrimStart(body)) == Trim(body)
    ensures OneLine(body) ==> OneLine(TrimStart(body))
  {
    InkStays(TrimStart(body));
    TrimStartCuts(body);
  }

  lemma ReadIsBoxed(line: string)
    requires Checkbox(line).Some?
    ensures exists mark, gap, body :: IsBoxed(line, mark, gap, body) && Checkbox(line).value == (mark != ' ', Trim(body))
  {
    var rest := line[5..];
    assert line == "- [" + [line[3]] + "]" + rest;
    if TrimStart(rest) != "" {
      GapBefore(rest);
      var gap :| IsGap(gap) && rest == gap + TrimStart(rest);
      assert IsBoxed(line, line[3], gap, TrimStart(rest));
    } else {
      var n := |rest| - 1;
      TrimStartCuts(rest);
      assert rest == rest[..n] + [rest[n]];
      assert IsGap(rest[..n]);
      assert IsBoxed(line, line[3], rest[..n], [rest[n]]);
      assert Trim([rest[n]]) == "";
    }
  }

  /** A line has a box exactly when it is of that form; it is ticked by either x, and what follows is trimmed. */
  lemma CheckboxExactly(line: string, ticked: bool, tail: string)
    ensures Checkbox(line) == Some((ticked, tail)) <==>
              exists mark, gap, body :: IsBoxed(line, mark, gap, body) && ticked == (mark != ' ') && tail == Trim(body)
  {
    if Checkbox(line).Some? {
      ReadIsBoxed(line);
    }
    forall mark, gap, body | IsBoxed(line, mark, gap, body) ensures Checkbox(line) == Some((mark != ' ', Trim(body))) {
      BoxIsRead(line, mark, gap, body);
    }
  }

  // `T` and at least three digits
  predicate IsId(id: string) {
    |id| >= 4 && id[0] == 'T' && forall c | c in id[1..] :: IsDigit(c)
  }

  predicate IsIdentified(tail: string, id: string, gap: string, text: string) {
    tail == id + gap + text && IsId(id) && IsGap(gap) && StartsWithInk(text)
  }

  lemma {:induction false} DigitsAreDropped(digits: string, rest: string)
    requires (forall c | c in digits :: IsDigit(c)) && (rest == "" || !IsDigit(rest[0]))
    ensures DropDigits(digits + rest) == rest
  {
    if digits == "" {
      assert digits + rest == rest;
    } else {
      assert (digits + rest)[1..] == digits[1..] + rest;
      DigitsAreDropped(digits[1..], rest);
    }
  }

  lemma {:induction false} DroppedAreDigits(s: string)
    ensures |DropDigits(s)| <= |s| && s[|s| - |DropDigits(s)|..] == DropDigits(s)
    ensures forall c | c in s[..|s| - |DropDigits(s)|] :: IsDigit(c)
  {
    if s != "" && IsDigit(s[0]) {
      DroppedAreDigits(s[1..]);
      var n := |s| - |DropDigits(s)|;
      assert s[1..][n - 1..] == s[n..] && s[..n] == [s[0]] + s[1..][..n - 1];
    } else {
      assert s[..0] == "" && s[0..] == s;
    }
  }

  lemma SpaceIsNoDigit(c: char)
    requires IsSpace(c)
    ensures !IsDigit(c)
  {
  }

  lemma IdIsRead(tail: string, id: string, gap: string, text: string)
    requires IsIdentified(tail, id, gap, text)
    ensures TaskId(tail) == Some((id, text))
  {
    assert tail[1..] == id[1..] + (gap + text);
    SpaceIsNoDigit(gap[0]);
    DigitsAreDropped(id[1..], gap + text);
    SkipsBlank(gap, text);
    InkStays(text);
    assert tail[..|id|] == id;
  }

  lemma ReadIsIdentified(tail: string) returns (gap: string)
    requires TaskId(tail).Some?
    ensures IsIdentified(tail, TaskId(tail).value.0, gap, TaskId(tail).value.1)
  {
    var rest := DropDigits(tail[1..]);
    DroppedAreDigits(tail[1..]);
    gap := BlankFirst(rest);
    PiecesMakeId(tail, |tail| - 1 - |rest|, rest);
  }

  lemma PiecesMakeId(tail: string, n: nat, rest: string)
    requires 1 + n <= |tail| && tail[1..][n..] == rest
    ensures tail == tail[..1 + n] + rest && tail[..1 + n][1..] == tail[1..][..n]
  {
  }

  /** What follows the box begins with an id exactly when it is of that form. */
  lemma TaskIdExactly(tail: string, id: string, text: string)
    ensures TaskId(tail) == Some((id, text)) <==> exists gap :: IsIdentified(tail, id, gap, text)
  {
    if TaskId(tail).Some? {
      var gap := ReadIsIdentified(tail);
    }
    forall gap | IsIdentified(tail, id, gap, text) ensures TaskId(tail) == Some((id, text)) {
      IdIsRead(tail, id, gap, text);
    }
  }

  // Tags

  // `[tag]`, white space, and what is left
  predicate IsTagged(text: string, tag: string, gap: string, rest: string) {
    && text == "[" + tag + "]" + gap + rest
    && tag != "" && ']' !in tag && IsBlank(gap) && (rest == "" || !IsSpace(rest[0]))
  }

  ghost predicate HasTag(text: string) {
    exists tag, gap, rest :: IsTagged(text, tag, gap, rest)
  }

  lemma {:induction false} IndexAfter(before: string, c: char, after: string)
    requires c !in before
    ensures IndexOf(before + [c] + after, c) == Some(|before|)
  {
    var s := before + [c] + after;
    if before != "" {
      assert s[1..] == before[1..] + [c] + after;
      IndexAfter(before[1..], c, after);
    }
  }

  lemma TagIsRead(text: string, tag: string, gap: string, rest: string)
    requires IsTagged(text, tag, gap, rest)
    ensures Tags(text) == ([tag] + Tags(rest).0, Tags(rest).1)
  {
    assert text == ("[" + tag) + [']'] + (gap + rest);
    IndexAfter("[" + tag, ']', gap + rest);
    SkipsBlank(gap, rest);
    InkStays(rest);
    assert text[1..|tag| + 1] == tag && text[|tag| + 2..] == gap + rest;
  }

  lemma ReadIsTagged(text: string) returns (tag: string, gap: string, rest: string)
    requires Tags(text).0 != []
    ensures IsTagged(text, tag, gap, rest)
  {
    var close := IndexOf(text, ']').value;
    tag, rest := text[1..close], TrimStart(text[close + 1..]);
    gap := BlankFirst(text[close + 1..]);
    assert forall c | c in tag :: c in text[..close];
    PiecesMakeTagged(text, close, gap, rest);
  }

  lemma PiecesMakeTagged(text: string, close: nat, gap: string, rest: string)
    requires 0 < close < |text| && text[0] == '[' && text[close] == ']' && text[close + 1..] == gap + rest
    ensures text == "[" + text[1..close] + "]" + gap + rest
  {
  }

  /** The tags are read off one by one, and what is left begins with none. */
  lemma {:induction false} TagsExactly(text: string)
    ensures !HasTag(text) <==> Tags(text) == ([], text)
    ensures !HasTag(text) <==> Tags(text).0 == []
    ensures forall tag, gap, rest | IsTagged(text, tag, gap, rest) :: Tags(text) == ([tag] + Tags(rest).0, Tags(rest).1)
  {
    forall tag, gap, rest | IsTagged(text, tag, gap, rest) ensures Tags(text) == ([tag] + Tags(rest).0, Tags(rest).1) {
      TagIsRead(text, tag, gap, rest);
    }
    if Tags(text).0 != [] {
      var tag, gap, rest := ReadIsTagged(text);
    }
  }

  /** The module of a task: its own tag, or that of the heading; at most one tag, and under a module no other. */
  lemma ModuleExactly(tags: seq<string>, heading: Heading)
    requires !heading.NoHeading?
    ensures ModuleOf(tags, heading).Ok? <==>
              || (tags == [] && heading.UnderModule?)
              || (|tags| == 1 && IsModuleName(tags[0]) && (heading.UnderModule? ==> tags[0] == heading.name))
    ensures ModuleOf(tags, heading).Ok? && tags != [] ==> ModuleOf(tags, heading).value == tags[0]
    ensures ModuleOf(tags, heading).Ok? && heading.UnderModule? ==> ModuleOf(tags, heading).value == heading.name
    ensures ModuleOf(tags, heading) == Err(ModuleMismatch) <==>
              heading.UnderModule? && |tags| == 1 && IsModuleName(tags[0]) && tags[0] != heading.name
    ensures ModuleOf(tags, heading).Err? ==> ModuleOf(tags, heading).error in {ModuleMismatch, TagInvalid}
  {
    if |tags| == 1 {
      assert tags[0] in tags;
    }
  }

  // Quoted texts

  lemma FirstQuote(before: string, rest: string)
    requires '`' !in before
    ensures IndexOf(before + ['`'] + rest, '`') == Some(|before|) && (before + ['`'] + rest)[|before| + 1..] == rest
  {
    IndexAfter(before, '`', rest);
  }

  lemma UnquotedText(before: string, open: string)
    requires '`' !in before && '`' !in open
    ensures Quoted(before) == [] && Quoted(before + ['`'] + open) == []
  {
    FirstQuote(before, open);
  }

  lemma EmptyQuote(before: string, after: string)
    requires '`' !in before
    ensures Quoted(before + ['`'] + (['`'] + after)) == Quoted(['`'] + after)
  {
    FirstQuote(before, ['`'] + after);
    FirstQuote("", after);
    assert "" + ['`'] + after == ['`'] + after;
  }

  lemma FullQuote(before: string, quoted: string, after: string)
    requires '`' !in before && '`' !in quoted && quoted != ""
    ensures Quoted(before + ['`'] + (quoted + ['`'] + after)) == [quoted] + Quoted(after)
  {
    FirstQuote(before, quoted + ['`'] + after);
    FirstQuote(quoted, after);
    assert (quoted + ['`'] + after)[..|quoted|] == quoted;
  }

  /** The quoted texts one by one; two backticks side by side quote nothing, and the second may open a quote. */
  lemma QuotedPiece(before: string, quoted: string, after: string)
    requires '`' !in before && '`' !in quoted
    ensures quoted != "" ==> Quoted(before + ['`'] + (quoted + ['`'] + after)) == [quoted] + Quoted(after)
    ensures Quoted(before + ['`'] + (['`'] + after)) == Quoted(['`'] + after)
    ensures Quoted(before) == [] && Quoted(before + ['`'] + quoted) == []
  {
    UnquotedText(before, quoted);
    EmptyQuote(before, after);
    if quoted != "" {
      FullQuote(before, quoted, after);
    }
  }

  // Acceptance

  // White space, the dash, the word, white space
  predicate IsSeparator(gap: string, after: string, last: string) {
    IsGap(gap) && IsBlank(after) && IsBlank(last)
  }

  function Separator(gap: string, after: string, last: string): string {
    gap + [DASH] + after + ACCEPTANCE + last
  }

  lemma SeparatorIsFound(a: string, gap: string, after: string, last: string, b: string)
    requires IsSeparator(gap, after, last)
    ensures SeparatorAt(a + Separator(gap, after, last) + b, |a| + |gap|)
  {
    var s, p := a + Separator(gap, after, last) + b, |a| + |gap|;
    assert s[p] == DASH && s[p - 1] == gap[|gap| - 1] && s[p + 1..] == after + (ACCEPTANCE + last + b);
    SkipsBlank(after, ACCEPTANCE + last + b);
    assert ACCEPTANCE[0] == 'A';
    InkStays(ACCEPTANCE + last + b);
  }

  lemma LastGap(s: string) returns (gap: string)
    requires s != "" && IsSpace(s[|s| - 1])
    ensures s == TrimEnd(s) + gap && IsGap(gap)
  {
    TrimEndCuts(s);
    gap := s[|TrimEnd(s)|..];
  }

  lemma FoundIsSeparator(s: string, p: nat) returns (gap: string, after: string, last: string)
    requires SeparatorAt(s, p)
    ensures var a, b := TrimEnd(s[..p]), TrimStart(TrimStart(s[p + 1..])[|ACCEPTANCE|..]);
            IsSeparator(gap, after, last) && |a| + |gap| == p && s == a + Separator(gap, after, last) + b
  {
    gap := LastGap(s[..p]);
    var word := TrimStart(s[p + 1..]);
    after := BlankFirst(s[p + 1..]);
    var more := word[|ACCEPTANCE|..];
    last := BlankFirst(more);
    WordFirst(word);
    PiecesMakeText(s, p, TrimEnd(s[..p]), gap, after, more, last, TrimStart(more));
  }

  lemma WordFirst(word: string)
    requires ACCEPTANCE <= word
    ensures word == ACCEPTANCE + word[|ACCEPTANCE|..]
  {
  }

  lemma PiecesMakeText(s: string, p: nat, a: string, gap: string, after: string, more: string, last: string, b: string)
    requires p < |s| && s[p] == DASH && s[..p] == a + gap && s[p + 1..] == after + (ACCEPTANCE + more) && more == last + b
    ensures s == a + Separator(gap, after, last) + b
  {
    assert s == s[..p] + [s[p]] + s[p + 1..];
  }

  ghost predicate HasSeparator(s: string) {
    exists a, gap, after, last, b :: IsSeparator(gap, after, last) && s == a + Separator(gap, after, last) + b
  }

  // The text is cut at its first separator, with the white space on both sides.
  ghost predicate IsCut(s: string, a: string, b: string) {
    exists gap, after, last ::
      && IsSeparator(gap, after, last) && s == a + Separator(gap, after, last) + b
      && FirstSeparator(s, 0) == Some(|a| + |gap|) && TrimEnd(a) == a && TrimStart(b) == b
  }

  /** A text without a separator stays whole; one with some is cut at the first, and on from there. */
  lemma AcceptanceExactly(s: string)
    ensures !HasSeparator(s) ==> SplitAcceptance(s) == [s]
    ensures HasSeparator(s) ==> exists a, b :: IsCut(s, a, b) && SplitAcceptance(s) == [a] + SplitAcceptance(b)
  {
    if HasSeparator(s) {
      var a, gap, after, last, b :| IsSeparator(gap, after, last) && s == a + Separator(gap, after, last) + b;
      SeparatorIsFound(a, gap, after, last, b);
      var p := FirstSeparator(s, 0).value;
      CutAt(s, p);
    } else if FirstSeparator(s, 0).Some? {
      var gap, after, last := FoundIsSeparator(s, FirstSeparator(s, 0).value);
      assert false;
    }
  }

  lemma {:induction false} TrimEndTwice(s: string)
    ensures TrimEnd(TrimEnd(s)) == TrimEnd(s)
  {
  }

  lemma CutAt(s: string, p: nat)
    requires FirstSeparator(s, 0) == Some(p)
    ensures var a, b := TrimEnd(s[..p]), TrimStart(TrimStart(s[p + 1..])[|ACCEPTANCE|..]);
            IsCut(s, a, b) && SplitAcceptance(s) == [a] + SplitAcceptance(b)
  {
    var gap, after, last := FoundIsSeparator(s, p);
    TrimEndTwice(s[..p]);
    InkStays(TrimStart(TrimStart(s[p + 1..])[|ACCEPTANCE|..]));
  }

  /** A task needs exactly one separator, a description before it and a criterion after it. */
  lemma TaskTextExactly(id: string, moduleName: string, completed: bool, text: string)
    ensures var parts, r := SplitAcceptance(text), TaskOf(id, moduleName, completed, text);
            && (r == Err(AcceptanceMissing) <==> |parts| != 2 || IsBlank(parts[1]))
            && (r == Err(FormatInvalid) <==> |parts| == 2 && !IsBlank(parts[1]) && IsBlank(parts[0]))
            && (r.Ok? <==> |parts| == 2 && !IsBlank(parts[0]) && !IsBlank(parts[1]))
            && (r.Ok? ==>
                  && r.value.id == id && r.value.moduleName == moduleName && r.value.completed == completed
                  && r.value.description == Trim(parts[0]) && r.value.acceptance == Trim(parts[1])
                  && r.value.filePaths == TargetPaths(Quoted(Trim(parts[0]))))
  {
    var parts := SplitAcceptance(text);
    if |parts| == 2 {
      BlankIsTrimmedAway(parts[0]);
      BlankIsTrimmedAway(parts[1]);
    }
  }

  lemma BlankIsTrimmedAway(s: string)
    ensures Trim(s) == "" <==> IsBlank(s)
  {
    TrimLeavesInk(s);
    if !IsBlank(s) {
      var c :| c in s && !IsSpace(c);
      var i :| 0 <= i < |s| && s[i] == c;
    }
  }

  // Lines

  /** A document is cut at every line feed, with the carriage return before it. */
  lemma LinesExactly(first: string, more: string)
    requires '\n' !in first
    ensures DocumentLines(first) == [first]
    ensures DocumentLines(first + ['\n'] + more) == [WithoutReturn(first)] + DocumentLines(more)
  {
    SplitPlain(first, '\n');
    SplitAtSeparator(first, more, '\n');
    LinesOfParts(first + ['\n'] + more, first, more);
  }

  lemma LinesOfParts(source: string, first: string, more: string)
    requires Split(source, '\n') == [first] + Split(more, '\n')
    ensures DocumentLines(source) == [WithoutReturn(first)] + DocumentLines(more)
  {
    var parts, lines := Split(more, '\n'), DocumentLines(source);
    forall i | 0 <= i < |lines| ensures lines[i] == ([WithoutReturn(first)] + DocumentLines(more))[i] {
      if i > 0 {
        assert ([first] + parts)[i] == parts[i - 1];
      }
    }
  }

  lemma ReturnIsDropped(line: string)
    ensures WithoutReturn(line + ['\r']) == line
    ensures line == "" || line[|line| - 1] != '\r' ==> WithoutReturn(line) == line
  {
  }
}
