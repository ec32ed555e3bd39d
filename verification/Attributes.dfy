/** The `.gitattributes` rewrite that tracks published LFS files. A byte string is a `string`; names are taken in the
    encoding they are written in. */
module Attributes {
  import opened Text
  import opened Pointer

  const FILTERING := " filter=lfs diff=lfs"
  const MERGING := " merge=lfs -text"
  const TRACKING := FILTERING + MERGING + "\n"

  /** A file name validated for staging: no separator and no control character. */
  predicate IsName(name: string)
  {
    name != "" && forall i :: 0 <= i < |name| ==> name[i] as int >= 32 && name[i] != '/'
  }

  /** `str.replace` of one character. */
  function Replace(s: string, c: char, text: string): string
  {
    if s == "" then "" else (if s[0] == c then text else [s[0]]) + Replace(s[1..], c, text)
  }

  /** `_quote_attribute_pattern`. */
  function Quoted(name: string): string
  {
    "\"/" + Replace(Replace(name, '\\', "\\\\"), '"', "\\\"") + "\""
  }

  /** The tracking line of one file name. */
  function TrackingLine(name: string): string { Quoted(name) + TRACKING }

  // ---- lines --------------------------------------------------------------------------

  /** The length of the first line, its terminator included: newline, carriage return or both. */
  function FirstLine(s: string): (n: nat)
    requires s != ""
    ensures 1 <= n <= |s|
  {
    if s[0] == '\n' then 1
    else if s[0] == '\r' then (if |s| > 1 && s[1] == '\n' then 2 else 1)
    else if |s| == 1 then 1
    else 1 + FirstLine(s[1..])
  }

  /** `bytes.splitlines(keepends=True)`. */
  function Lines(s: string): seq<string>
  {
    if s == "" then [] else [s[..FirstLine(s)]] + Lines(s[FirstLine(s)..])
  }

  predicate IsTerminated(s: string) { s == "" || s[|s| - 1] == '\n' }

  /** Existing content, ended by a newline unless it is empty. */
  function Terminated(s: string): (t: string)
    ensures IsTerminated(t) && s <= t
  {
    if IsTerminated(s) then s else s + "\n"
  }

  // ---- the rewrite ------------------------------------------------------------------------

  function WithLine(content: string, line: string): string
  {
    if line in Lines(content) then content else content + line
  }

  /** The attribute file after tracking `names`, in order. */
  function Tracked(existing: string, names: seq<string>): string
  {
    if names == [] then Terminated(existing) else WithLine(Tracked(existing, names[..|names| - 1]), TrackingLine(names[|names| - 1]))
  }

  /** The rewriting loop of `_construct_commit` for one attribute file. */
  method Rewrite(existing: string, names: seq<string>) returns (content: string)
    ensures content == Tracked(existing, names)
  {
    content := existing;
    if content != "" && content[|content| - 1] != '\n' {
      content := content + "\n";
    }
    for n := 0 to |names|
      invariant content == Tracked(existing, names[..n])
    {
      assert names[..n + 1][..n] == names[..n];
      var line := Quoted(names[n]) + TRACKING;
      if line !in Lines(content) {
        content := content + line;
      }
    }
    assert names[..|names|] == names;
  }

  // ---- quoting ------------------------------------------------------------------------------

  /** Escaping in one pass: what the two replacements amount to. */
  function Escaped(name: string): string
  {
    if name == "" then ""
    else (if name[0] == '\\' then "\\\\" else if name[0] == '"' then "\\\"" else [name[0]]) + Escaped(name[1..])
  }

  lemma ReplaceCons(first: char, rest: string, c: char, text: string)
    ensures Replace([first] + rest, c, text) == (if first == c then text else [first]) + Replace(rest, c, text)
  {
    assert ([first] + rest)[1..] == rest;
  }

  lemma {:induction false} ReplaceConcat(a: string, b: string, c: char, text: string)
    ensures Replace(a + b, c, text) == Replace(a, c, text) + Replace(b, c, text)
  {
    if a == "" {
      assert a + b == b;
    } else {
      hide Replace;
      var first, rest := a[0], a[1..];
      assert a == [first] + rest && a + b == [first] + (rest + b);
      ReplaceConcat(rest, b, c, text);
      ReplaceCons(first, rest, c, text);
      ReplaceCons(first, rest + b, c, text);
    }
  }

  lemma {:induction false} EscapedIsReplaced(name: string)
    ensures Replace(Replace(name, '\\', "\\\\"), '"', "\\\"") == Escaped(name)
  {
    if name != "" {
      EscapedIsReplaced(name[1..]);
      var head := if name[0] == '\\' then "\\\\" else [name[0]];
      ReplaceConcat(head, Replace(name[1..], '\\', "\\\\"), '"', "\\\"");
      assert name[0] == '\\' ==> head[1..] == "\\" && head[1..][1..] == "";
      assert name[0] != '\\' ==> head[1..] == "";
    }
  }

  /** How Git reads a pattern in C-style quotes, for the two escapes in use: the pattern and what follows its closing
      quote. */
  function Unquoted(s: string): Option<(string, string)>
  {
    if s == "" then None
    else if s[0] == '"' then Some(("", s[1..]))
    else if s[0] == '\\' then
      if |s| < 2 || (s[1] != '\\' && s[1] != '"') then None
      else
        match Unquoted(s[2..])
        case None => None
        case Some((pattern, rest)) => Some(([s[1]] + pattern, rest))
    else
      match Unquoted(s[1..])
      case None => None
      case Some((pattern, rest)) => Some(([s[0]] + pattern, rest))
  }

  lemma {:induction false} UnquotedEscaped(name: string, rest: string)
    ensures Unquoted(Escaped(name) + "\"" + rest) == Some((name, rest))
  {
    var s := Escaped(name) + "\"" + rest;
    if name == "" {
      assert s == "\"" + rest;
      assert s[1..] == rest;
    } else {
      UnquotedEscaped(name[1..], rest);
      var tail := Escaped(name[1..]) + "\"" + rest;
      assert name == [name[0]] + name[1..];
      if name[0] == '\\' || name[0] == '"' {
        assert s == ['\\', name[0]] + tail;
        assert s[2..] == tail;
      } else {
        assert s == [name[0]] + tail;
        assert s[1..] == tail;
      }
    }
  }

  lemma QuotedShape(escaped: string, rest: string)
    ensures var line := "\"/" + escaped + "\"" + rest; line[0] == '"' && line[1..] == "/" + (escaped + "\"" + rest)
  {
  }

  lemma UnquoteSlash(tail: string)
    requires Unquoted(tail).Some?
    ensures Unquoted("/" + tail) == Some(("/" + Unquoted(tail).value.0, Unquoted(tail).value.1))
  {
    assert ("/" + tail)[1..] == tail;
  }

  /** A tracking line reads back as the rooted name it was written for, so different names have different lines. */
  lemma TrackingLineReadsBack(name: string)
    ensures TrackingLine(name)[0] == '"' && Unquoted(TrackingLine(name)[1..]) == Some(("/" + name, TRACKING))
  {
    hide Escaped, Unquoted, Replace;
    EscapedIsReplaced(name);
    UnquotedEscaped(name, TRACKING);
    QuotedShape(Escaped(name), TRACKING);
    UnquoteSlash(Escaped(name) + "\"" + TRACKING);
  }

  lemma {:induction false} EscapedIsPlain(name: string)
    requires forall i :: 0 <= i < |name| ==> name[i] as int >= 32
    ensures forall i :: 0 <= i < |Escaped(name)| ==> Escaped(name)[i] as int >= 32
  {
    if name != "" {
      EscapedIsPlain(name[1..]);
    }
  }

  /** One line: its only line break is the newline that ends it. */
  predicate IsLine(s: string)
  {
    s != "" && s[|s| - 1] == '\n' && forall i :: 0 <= i < |s| - 1 ==> s[i] != '\n' && s[i] != '\r'
  }

  predicate Printable(s: string) { forall i :: 0 <= i < |s| ==> s[i] as int >= 32 }

  lemma FilteringIsPrintable()
    ensures Printable(FILTERING)
  {
  }

  lemma MergingIsPrintable()
    ensures Printable(MERGING)
  {
  }

  lemma TrackingIsLine()
    ensures TRACKING == TRACKING[..|TRACKING| - 1] + "\n" && Printable(TRACKING[..|TRACKING| - 1])
  {
    FilteringIsPrintable();
    MergingIsPrintable();
    assert Printable(FILTERING + MERGING);
    hide Printable;
    assert TRACKING[..|TRACKING| - 1] == FILTERING + MERGING;
  }

  lemma QuotedIsPrintable(name: string)
    requires IsName(name)
    ensures Printable(Quoted(name)) && Quoted(name) != "" && Quoted(name)[0] == '"'
  {
    EscapedIsReplaced(name);
    EscapedIsPlain(name);
  }

  lemma TrackingLineIsLine(name: string)
    requires IsName(name)
    ensures IsLine(TrackingLine(name)) && TrackingLine(name)[0] == '"'
  {
    hide Quoted;
    QuotedIsPrintable(name);
    TrackingIsLine();
    AppendedNewline(Quoted(name), TRACKING, TRACKING[..|TRACKING| - 1]);
  }

  lemma AppendedNewline(a: string, b: string, body: string)
    requires Printable(a) && Printable(body) && b == body + "\n"
    ensures IsLine(a + b)
  {
  }

  // ---- lines of concatenations -------------------------------------------------------------------

  lemma {:induction false} FirstLineOf(s: string, t: string)
    requires s != "" && IsTerminated(s)
    ensures FirstLine(s + t) == FirstLine(s) && IsTerminated(s[FirstLine(s)..])
  {
    if s[0] != '\n' && s[0] != '\r' {
      assert (s + t)[1..] == s[1..] + t;
      FirstLineOf(s[1..], t);
      assert s[1..][FirstLine(s[1..])..] == s[FirstLine(s)..];
    }
  }

  lemma LinesOfNothing()
    ensures Lines("") == []
  {
  }

  lemma LinesUnfold(s: string)
    requires s != ""
    ensures Lines(s) == [s[..FirstLine(s)]] + Lines(s[FirstLine(s)..])
  {
  }

  lemma {:induction false} LinesConcat(s: string, t: string)
    requires IsTerminated(s)
    ensures Lines(s + t) == Lines(s) + Lines(t)
    decreases |s|
  {
    hide FirstLine, Lines;
    if s == "" {
      assert s + t == t;
      LinesOfNothing();
    } else {
      FirstLineOf(s, t);
      var n := FirstLine(s);
      LinesConcat(s[n..], t);
      assert (s + t)[n..] == s[n..] + t && (s + t)[..n] == s[..n];
      LinesUnfold(s);
      LinesUnfold(s + t);
    }
  }

  lemma {:induction false} FirstLineOfLine(line: string)
    requires IsLine(line)
    ensures FirstLine(line) == |line|
  {
    if |line| > 1 {
      FirstLineOfLine(line[1..]);
    }
  }

  lemma LinesOfLine(line: string)
    requires IsLine(line)
    ensures Lines(line) == [line]
  {
    FirstLineOfLine(line);
    assert line[|line|..] == "" && line[..|line|] == line;
  }

  // ---- what the rewrite achieves --------------------------------------------------------------------

  lemma WithLineKeeps(content: string, line: string)
    requires IsTerminated(content) && IsLine(line)
    ensures IsTerminated(WithLine(content, line)) && content <= WithLine(content, line)
    ensures line in Lines(WithLine(content, line))
    ensures forall other :: other in Lines(content) ==> other in Lines(WithLine(content, line))
    ensures forall other :: other in Lines(WithLine(content, line)) ==> other in Lines(content) || other == line
  {
    hide Lines;
    LinesConcat(content, line);
    LinesOfLine(line);
  }

  /** Prior content stays as a prefix, every name's line is there, and no other line is new. */
  lemma {:induction false} RewriteTracks(existing: string, names: seq<string>)
    requires forall n :: n in names ==> IsName(n)
    ensures existing <= Terminated(existing) <= Tracked(existing, names) && IsTerminated(Tracked(existing, names))
    ensures forall n :: n in names ==> TrackingLine(n) in Lines(Tracked(existing, names))
    ensures forall line ::
              line in Lines(Tracked(existing, names)) ==>
                line in Lines(Terminated(existing)) || IsTrackingLine(line, names)
  {
    hide FirstLine, Lines, TrackingLine, IsLine;
    if names != [] {
      var front, last := names[..|names| - 1], names[|names| - 1];
      RewriteTracks(existing, front);
      TrackingLineIsLine(last);
      WithLineKeeps(Tracked(existing, front), TrackingLine(last));
      assert names == front + [last];
    }
  }

  predicate IsTrackingLine(line: string, names: seq<string>) { exists n :: n in names && line == TrackingLine(n) }

  lemma {:induction false} NothingToAdd(content: string, names: seq<string>)
    requires IsTerminated(content)
    requires forall n :: n in names ==> TrackingLine(n) in Lines(content)
    ensures Tracked(content, names) == content
  {
    hide Lines, TrackingLine;
    if names != [] {
      NothingToAdd(content, names[..|names| - 1]);
      assert names == names[..|names| - 1] + [names[|names| - 1]];
    }
  }

  /** A second rewrite for any of the same names adds nothing. */
  lemma RewriteIsIdempotent(existing: string, names: seq<string>, again: seq<string>)
    requires forall n :: n in names ==> IsName(n)
    requires forall n :: n in again ==> n in names
    ensures Tracked(Tracked(existing, names), again) == Tracked(existing, names)
  {
    RewriteTracks(existing, names);
    NothingToAdd(Tracked(existing, names), again);
  }

  // ---- a rewritten file and the pointer parser ------------------------------------------------------------

  lemma {:induction false} BadLineFails(lines: seq<string>, i: nat)
    requires i < |lines| && ParseLine(lines[i]).None?
    ensures ParseLines(lines).None?
  {
    if i > 0 {
      BadLineFails(lines[1..], i - 1);
    }
  }

  lemma QuotedLineIsNoField(line: string)
    requires line != "" && line[0] == '"'
    ensures ParseLine(line).None?
  {
    var i := IndexOf(line, ' ');
    if i < |line| && i > 0 {
      assert !IsKeyChar(line[..i][0]);
    }
  }

  /** Content that ends with a tracking line is never read as a pointer. */
  lemma AppendedIsNoPointer(content: string, line: string)
    requires IsTerminated(content) && IsLine(line) && line[0] == '"'
    ensures Parse(content + line).None?
  {
    var whole := content + line;
    var body := line[..|line| - 1];
    assert '\n' !in body;
    QuotedLineIsNoField(body);
    SplitPlain(body, '\n');
    if content == "" {
      assert whole[..|whole| - 1] == body;
      BadLineFails(BodyLines(whole), 0);
    } else {
      var front := content[..|content| - 1];
      assert whole[..|whole| - 1] == front + ['\n'] + body;
      SplitConcat(front, body, '\n');
      BadLineFails(BodyLines(whole), |BodyLines(whole)| - 1);
    }
  }

  lemma {:induction false} TrackedCases(existing: string, names: seq<string>)
    requires forall n :: n in names ==> IsName(n)
    ensures Tracked(existing, names) == Terminated(existing) || Parse(Tracked(existing, names)).None?
  {
    if names != [] {
      var front, last := names[..|names| - 1], names[|names| - 1];
      TrackedCases(existing, front);
      RewriteTracks(existing, front);
      TrackingLineIsLine(last);
      AppendedIsNoPointer(Tracked(existing, front), TrackingLine(last));
    }
  }

  /** A rewritten attribute file reads as a pointer exactly when nothing was appended and its terminated prior content
      did. */
  lemma RewrittenIsPointerExactlyWhen(existing: string, names: seq<string>)
    requires forall n :: n in names ==> IsName(n)
    ensures Parse(Tracked(existing, names)).Some? <==>
              Tracked(existing, names) == Terminated(existing) && Parse(Terminated(existing)).Some?
  {
    hide Parse;
    TrackedCases(existing, names);
  }
}
