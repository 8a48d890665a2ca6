/** String operations with the meaning the JavaScript built-ins of the same name have. */
module Text {

  predicate StartsWith(s: string, prefix: string) {
    prefix <= s
  }

  /** `s.split(separator)` for a one-character separator. */
  function Split(s: string, separator: char): (parts: seq<string>)
    ensures |parts| >= 1
    ensures forall i | 0 <= i < |parts| :: separator !in parts[i]
  {
    if s == "" then [""]
    else
      var rest := Split(s[1..], separator);
      if s[0] == separator then [""] + rest
      else [[s[0]] + rest[0]] + rest[1..]
  }

  /** `parts.join(separator)` for a one-character separator. */
  function Join(parts: seq<string>, separator: char): string {
    if parts == [] then ""
    else if |parts| == 1 then parts[0]
    else parts[0] + [separator] + Join(parts[1..], separator)
  }

  lemma {:induction false} SplitPlain(s: string, separator: char)
    requires separator !in s
    ensures Split(s, separator) == [s]
  {
    if s != "" {
      SplitPlain(s[1..], separator);
      assert s == [s[0]] + s[1..];
    }
  }

  lemma {:induction false} SplitAtSeparator(a: string, b: string, separator: char)
    requires separator !in a
    ensures Split(a + [separator] + b, separator) == [a] + Split(b, separator)
  {
    var s := a + [separator] + b;
    if a == "" {
      assert s[1..] == b;
    } else {
      assert s[1..] == a[1..] + [separator] + b;
      SplitAtSeparator(a[1..], b, separator);
      assert a == [a[0]] + a[1..];
    }
  }

  lemma {:induction false} SplitJoin(parts: seq<string>, separator: char)
    requires |parts| >= 1
    requires forall i | 0 <= i < |parts| :: separator !in parts[i]
    ensures Split(Join(parts, separator), separator) == parts
  {
    if |parts| == 1 {
      SplitPlain(parts[0], separator);
    } else {
      SplitAtSeparator(parts[0], Join(parts[1..], separator), separator);
      SplitJoin(parts[1..], separator);
      assert parts == [parts[0]] + parts[1..];
    }
  }

  lemma {:induction false} JoinSplit(s: string, separator: char)
    ensures Join(Split(s, separator), separator) == s
  {
    if s != "" {
      JoinSplit(s[1..], separator);
      var rest := Split(s[1..], separator);
      assert s == [s[0]] + s[1..];
      if s[0] == separator {
        assert ([""] + rest)[1..] == rest;
      } else {
        var parts := [[s[0]] + rest[0]] + rest[1..];
        assert parts[1..] == rest[1..];
      }
    }
  }

  // One more character in front of a text that is already split
  function Glue(c: char, separator: char, parts: seq<string>): (r: seq<string>)
    requires parts != []
    ensures r != []
  {
    if c == separator then [""] + parts else [[c] + parts[0]] + parts[1..]
  }

  lemma GlueAppend(c: char, separator: char, early: seq<string>, tail: seq<string>)
    requires early != [] && tail != []
    ensures Glue(c, separator, early + tail) == Glue(c, separator, early) + tail
  {
    assert (early + tail)[1..] == early[1..] + tail;
  }

  lemma GlueLast(c: char, separator: char, parts: seq<string>)
    requires |parts| > 1
    ensures var glued, n := Glue(c, separator, parts), |parts| - 1;
            glued[..|glued| - 1] == Glue(c, separator, parts[..n]) && glued[|glued| - 1] == parts[n]
  {
    var n := |parts| - 1;
    assert parts == parts[..n] + [parts[n]];
    GlueAppend(c, separator, parts[..n], [parts[n]]);
  }

  lemma SplitCons(c: char, s: string, separator: char)
    ensures Split([c] + s, separator) == Glue(c, separator, Split(s, separator))
  {
    assert ([c] + s)[1..] == s;
  }

  // The last part of a split text, continued by `b`
  function Continued(parts: seq<string>, b: string, separator: char): seq<string>
    requires parts != []
  {
    parts[..|parts| - 1] + Split(parts[|parts| - 1] + b, separator)
  }

  lemma GlueContinued(c: char, separator: char, parts: seq<string>, b: string)
    requires parts != []
    ensures Glue(c, separator, Continued(parts, b, separator)) == Continued(Glue(c, separator, parts), b, separator)
  {
    var n := |parts| - 1;
    var tail := Split(parts[n] + b, separator);
    if n > 0 {
      GlueAppend(c, separator, parts[..n], tail);
      GlueLast(c, separator, parts);
    } else {
      assert parts == [parts[0]] && parts[..0] + tail == tail;
      GlueOne(c, separator, parts[0], b);
    }
  }

  /** Appending to a text only continues its last part. */
  lemma {:induction false} SplitAppend(a: string, b: string, separator: char)
    ensures Split(a + b, separator) == Continued(Split(a, separator), b, separator)
  {
    if a == "" {
      assert a + b == b && Split(a, separator) == [""] && "" + b == b;
    } else {
      var c, rest := a[0], a[1..];
      SplitAppend(rest, b, separator);
      assert a == [c] + rest && a + b == [c] + (rest + b);
      SplitCons(c, rest, separator);
      SplitCons(c, rest + b, separator);
      GlueContinued(c, separator, Split(rest, separator), b);
    }
  }

  lemma GlueOne(c: char, separator: char, part: string, b: string)
    ensures Glue(c, separator, Split(part + b, separator)) == Continued(Glue(c, separator, [part]), b, separator)
  {
    if c == separator {
      GlueEmpty(separator, part, b);
    } else {
      SplitCons(c, part + b, separator);
      ContinuedOne([c] + part, b, separator);
      assert [c] + part + b == [c] + (part + b);
    }
  }

  lemma GlueEmpty(separator: char, part: string, b: string)
    ensures Glue(separator, separator, Split(part + b, separator)) == Continued(Glue(separator, separator, [part]), b, separator)
  {
    var parts := [""] + [part];
    assert parts[..1] == [""] && parts[1] == part && Continued(parts, b, separator) == [""] + Split(part + b, separator);
  }

  lemma ContinuedOne(part: string, b: string, separator: char)
    ensures Continued([part], b, separator) == Split(part + b, separator)
  {
    assert [part][..0] == [];
  }

  // `trim` and `\s`: the white space of ECMAScript

  predicate IsSpace(c: char) {
    || c in {'\t', '\n', '\U{0B}', '\U{0C}', '\r', ' ', '\U{A0}', '\U{1680}', '\U{2028}', '\U{2029}', '\U{202F}', '\U{205F}',
             '\U{3000}', '\U{FEFF}'}
    || '\U{2000}' <= c <= '\U{200A}'
  }

  function TrimStart(s: string): (r: string)
    ensures r == "" || !IsSpace(r[0])
  {
    if s != "" && IsSpace(s[0]) then TrimStart(s[1..]) else s
  }

  function TrimEnd(s: string): (r: string)
    ensures r == "" || !IsSpace(r[|r| - 1])
    ensures r <= s
  {
    if s != "" && IsSpace(s[|s| - 1]) then TrimEnd(s[..|s| - 1]) else s
  }

  function Trim(s: string): string {
    TrimEnd(TrimStart(s))
  }

  // What trimming means: the text without white space around it

  predicate IsBlank(s: string) {
    forall c | c in s :: IsSpace(c)
  }

  lemma {:induction false} TrimStartCuts(s: string)
    ensures |TrimStart(s)| <= |s| && s[|s| - |TrimStart(s)|..] == TrimStart(s) && IsBlank(s[..|s| - |TrimStart(s)|])
  {
    if s != "" && IsSpace(s[0]) {
      TrimStartCuts(s[1..]);
      var n := |s| - |TrimStart(s)|;
      assert s[1..][n - 1..] == s[n..] && s[..n] == [s[0]] + s[1..][..n - 1];
    } else {
      assert s[|s| - |s|..] == s;
    }
  }

  lemma {:induction false} TrimEndCuts(s: string)
    ensures |TrimEnd(s)| <= |s| && IsBlank(s[|TrimEnd(s)|..])
  {
    if s != "" && IsSpace(s[|s| - 1]) {
      var n := |s| - 1;
      TrimEndCuts(s[..n]);
      assert s[|TrimEnd(s)|..] == s[..n][|TrimEnd(s)|..] + [s[n]];
    }
  }

  /** A text is its trimmed form with white space before and after, and the trimmed form has none at its ends. */
  lemma TrimCuts(s: string)
    ensures exists before, after :: s == before + Trim(s) + after && IsBlank(before) && IsBlank(after)
    ensures Trim(s) != "" ==> !IsSpace(Trim(s)[0]) && !IsSpace(Trim(s)[|Trim(s)| - 1])
  {
    TrimStartCuts(s);
    TrimEndCuts(TrimStart(s));
    var n, m := |s| - |TrimStart(s)|, |Trim(s)|;
    assert s == s[..n] + Trim(s) + TrimStart(s)[m..];
    if Trim(s) != "" {
      assert Trim(s)[0] == TrimStart(s)[0];
    }
  }

  /** Nothing is left exactly when everything is white space. */
  lemma TrimLeavesInk(s: string)
    ensures Trim(s) != "" <==> exists i :: 0 <= i < |s| && !IsSpace(s[i])
  {
    TrimCuts(s);
    var before, after :| s == before + Trim(s) + after && IsBlank(before) && IsBlank(after);
    if Trim(s) != "" {
      assert s[|before|] == Trim(s)[0];
    } else {
      forall i | 0 <= i < |s| ensures IsSpace(s[i]) {
        assert s[i] in before || s[i] in after;
      }
    }
  }
}
