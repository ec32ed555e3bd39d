/** Git LFS pointer files: the canonical printer, the strict parser of the receive hook and the
    lenient parser of the repository browser.

    A byte string is a `string` whose characters are below 256. */
module Pointer {
  import opened Text

  datatype Pointer = Pointer(oid: string, size: nat)

  datatype Field = Field(key: string, value: string)

  const POINTER_HOST := "https://git-lfs.github.com"
  const POINTER_VERSION := POINTER_HOST + "/spec/v1"
  const MAX_POINTER_SIZE := 1023
  const MAX_LFS_SIZE: nat := 0x7fff_ffff_ffff_ffff

  predicate IsOid(oid: string) { |oid| == 64 && forall i :: 0 <= i < |oid| ==> IsHex(oid[i]) }

  predicate IsPointer(p: Pointer) { IsOid(p.oid) && p.size <= MAX_LFS_SIZE }

  predicate IsAscii(s: string) { forall i :: 0 <= i < |s| ==> s[i] as int < 128 }

  // ---- the canonical form --------------------------------------------------

  function Line(f: Field): string { f.key + " " + f.value }

  function Fields(p: Pointer): seq<Field>
  {
    [Field("version", POINTER_VERSION), Field("oid", "sha256:" + p.oid), Field("size", PrintNat(p.size))]
  }

  /** The pointer blob written for a staged LFS file. */
  function Print(p: Pointer): string
  {
    Compose(POINTER_VERSION, p.oid, PrintNat(p.size))
  }

  function Compose(version: string, oid: string, size: string): string
  {
    "version " + version + "\n" + "oid sha256:" + oid + "\n" + "size " + size + "\n"
  }

  // ---- strict parser ---------------------------------------------------------

  predicate Continuation(s: string, i: nat, low: int, high: int)
  {
    i < |s| && low <= s[i] as int <= high
  }

  /** Well-formed UTF-8: no overlong forms, no surrogates, nothing above U+10FFFF. */
  predicate ValidUtf8(s: string)
  {
    if s == "" then true
    else
      var lead := s[0] as int;
      if lead < 0x80 then ValidUtf8(s[1..])
      else if 0xC2 <= lead <= 0xDF then Continuation(s, 1, 0x80, 0xBF) && ValidUtf8(s[2..])
      else if 0xE0 <= lead <= 0xEF then
        var low := if lead == 0xE0 then 0xA0 else 0x80;
        var high := if lead == 0xED then 0x9F else 0xBF;
        Continuation(s, 1, low, high) && Continuation(s, 2, 0x80, 0xBF) && ValidUtf8(s[3..])
      else if 0xF0 <= lead <= 0xF4 then
        var low := if lead == 0xF0 then 0x90 else 0x80;
        var high := if lead == 0xF4 then 0x8F else 0xBF;
        Continuation(s, 1, low, high) && Continuation(s, 2, 0x80, 0xBF) && Continuation(s, 3, 0x80, 0xBF)
        && ValidUtf8(s[4..])
      else false
  }

  predicate IsKeyChar(c: char) { 'a' <= c <= 'z' || '0' <= c <= '9' || c == '.' || c == '-' }

  predicate IsKey(s: string) { s != "" && forall i :: 0 <= i < |s| ==> IsKeyChar(s[i]) }

  function ParseLine(line: string): Option<Field>
  {
    var i := IndexOf(line, ' ');
    if i < |line| && IsKey(line[..i]) && line[i + 1..] != "" then Some(Field(line[..i], line[i + 1..])) else None
  }

  function ParseLines(lines: seq<string>): (r: Option<seq<Field>>)
    ensures r.Some? ==> |r.value| == |lines| && forall i :: 0 <= i < |lines| ==> ParseLine(lines[i]) == Some(r.value[i])
  {
    if lines == [] then Some([])
    else
      match ParseLine(lines[0])
      case None => None
      case Some(field) =>
        match ParseLines(lines[1..])
        case None => None
        case Some(rest) => Some([field] + rest)
  }

  /** Sorted without duplicates. */
  predicate Increasing(fields: seq<Field>) { forall i :: 0 <= i < |fields| - 1 ==>
    LexLess(fields[i].key, fields[i + 1].key) }

  /** `dict(fields).get(key, '')`. */
  function Lookup(fields: seq<Field>, key: string): (value: string)
    ensures value != "" ==> exists i :: 0 <= i < |fields| && fields[i] == Field(key, value)
  {
    if fields == [] then ""
    else
      var last := fields[|fields| - 1];
      if last.key == key then last.value else Lookup(fields[..|fields| - 1], key)
  }

  function ParseOid(value: string): Option<string>
  {
    if |value| == 71 && value[..7] == "sha256:" && IsOid(value[7..]) then Some(value[7..]) else None
  }

  function ParseSize(value: string): Option<nat>
  {
    if value == "" || !AllDigits(value) then None
    else
      var size := ParseNat(value);
      if PrintNat(size) != value || size > MAX_LFS_SIZE then None else Some(size)
  }

  function ParseFields(fields: seq<Field>): Option<Pointer>
  {
    if fields == [] || fields[0] != Field("version", POINTER_VERSION) then None
    else if (exists i :: 1 <= i < |fields| && fields[i].key == "version") || !Increasing(fields[1..]) then None
    else
      match (ParseOid(Lookup(fields, "oid")), ParseSize(Lookup(fields, "size")))
      case (Some(oid), Some(size)) => Some(Pointer(oid, size))
      case _ => None
  }

  /** `parse_lfs_pointer`: the identifier and size of a canonical pointer. */
  function Parse(content: string): Option<Pointer>
  {
    if content == "" || |content| > MAX_POINTER_SIZE || content[|content| - 1] != '\n' || !ValidUtf8(content) then None
    else
      match ParseLines(BodyLines(content))
      case None => None
      case Some(fields) => ParseFields(fields)
  }

  /** The lines of a newline-terminated content. */
  function BodyLines(content: string): seq<string>
    requires content != ""
  {
    Split(content[..|content| - 1], '\n')
  }

  /** How many lines, and so fields, a newline-terminated content has. */
  function FieldCount(content: string): nat
    requires content != ""
  {
    |BodyLines(content)|
  }

  // ---- the parser inverts the printer ------------------------------------------

  lemma {:induction false} AsciiIsUtf8(s: string)
    requires IsAscii(s)
    ensures ValidUtf8(s)
  {
    if s != "" {
      AsciiIsUtf8(s[1..]);
    }
  }

  lemma ParsePrintedLine(f: Field)
    requires IsKey(f.key) && f.value != ""
    ensures ParseLine(Line(f)) == Some(f)
  {
    assert ' ' !in f.key by {
      assert !IsKeyChar(' ');
    }
    IndexOfFirst(f.key, ' ', f.value);
    assert Line(f) == f.key + [' '] + f.value;
    assert Line(f)[..|f.key|] == f.key && Line(f)[|f.key| + 1..] == f.value;
  }

  lemma JoinThree(a: string, b: string, c: string)
    ensures Join([a, b, c], '\n') == a + "\n" + b + "\n" + c
  {
    assert [a, b, c][1..] == [b, c] && [b, c][1..] == [c];
    assert Join([b, c], '\n') == b + ['\n'] + c;
    assert Join([a, b, c], '\n') == a + ['\n'] + Join([b, c], '\n');
  }

  lemma ComposeIsJoin(version: string, oid: string, size: string)
    ensures Compose(version, oid, size)
         == Join([Line(Field("version", version)), Line(Field("oid", "sha256:" + oid)), Line(Field("size", size))], '\n') + "\n"
  {
    var a, b, c := Line(Field("version", version)), Line(Field("oid", "sha256:" + oid)), Line(Field("size", size));
    JoinThree(a, b, c);
    assert a == "version " + version;
    assert b == "oid sha256:" + oid;
    assert c == "size " + size;
  }

  lemma PrintIsJoinedFields(p: Pointer)
    ensures Print(p) == Join([Line(Fields(p)[0]), Line(Fields(p)[1]), Line(Fields(p)[2])], '\n') + "\n"
  {
    ComposeIsJoin(POINTER_VERSION, p.oid, PrintNat(p.size));
  }

  lemma {:induction false} PrintNatLength(n: nat, digits: nat, bound: nat)
    requires n < bound && bound == Pow10(digits) && digits > 0
    ensures |PrintNat(n)| <= digits
  {
    if n >= 10 {
      PrintNatLength(n / 10, digits - 1, Pow10(digits - 1));
    }
  }

  function Pow10(n: nat): (r: nat)
    ensures r > 0
  {
    if n == 0 then 1 else 10 * Pow10(n - 1)
  }

  lemma SizeNumeralIsShort(size: nat)
    requires size <= MAX_LFS_SIZE
    ensures |PrintNat(size)| <= 19
  {
    assert Pow10(19) == 10_000_000_000_000_000_000 by {
      assert Pow10(4) == 10_000;
      assert Pow10(9) == 1_000_000_000;
      assert Pow10(14) == 100_000_000_000_000;
    }
    PrintNatLength(size, 19, Pow10(19));
  }

  /** Printable ASCII. */
  predicate Plain(s: string) { forall i :: 0 <= i < |s| ==> 32 <= s[i] as int < 127 }

  lemma PlainConcat(a: string, b: string)
    requires Plain(a) && Plain(b)
    ensures Plain(a + b)
  {
  }

  lemma PlainLine(f: Field)
    requires Plain(f.key) && Plain(f.value)
    ensures Plain(Line(f))
  {
    assert Plain(" ");
    PlainConcat(f.key, " ");
    PlainConcat(f.key + " ", f.value);
  }

  lemma HostIsPlain()
    ensures Plain(POINTER_HOST)
  {
  }

  lemma VersionIsPlain()
    ensures Plain("version") && Plain(POINTER_VERSION) && POINTER_VERSION != ""
  {
    HostIsPlain();
    assert Plain("version") && Plain("/spec/v1");
    hide Plain;
    PlainConcat(POINTER_HOST, "/spec/v1");
  }

  lemma KeysAreKeys()
    ensures IsKey("version") && IsKey("oid") && IsKey("size")
    ensures Plain("oid") && Plain("size") && Plain("sha256:")
  {
  }

  lemma PrintedLineIsPlain(p: Pointer, i: nat)
    requires IsPointer(p) && i < 3
    ensures Plain(Line(Fields(p)[i]))
    ensures IsKey(Fields(p)[i].key) && Fields(p)[i].value != ""
  {
    VersionIsPlain();
    KeysAreKeys();
    assert Plain(p.oid) && Plain(PrintNat(p.size));
    PlainConcat("sha256:", p.oid);
    hide Plain, IsKey, Line, IsPointer;
    PlainLine(Fields(p)[i]);
  }

  lemma ParseLinesOf(lines: seq<string>, fields: seq<Field>)
    requires |lines| == |fields|
    requires forall i :: 0 <= i < |lines| ==> ParseLine(lines[i]) == Some(fields[i])
    ensures ParseLines(lines) == Some(fields)
  {
    if lines != [] {
      ParseLinesOf(lines[1..], fields[1..]);
      assert fields == [fields[0]] + fields[1..];
    }
  }

  lemma AsciiConcat(a: string, b: string)
    requires IsAscii(a) && IsAscii(b)
    ensures IsAscii(a + b)
  {
  }

  lemma PlainIsAscii(s: string)
    requires Plain(s)
    ensures IsAscii(s) && '\n' !in s
  {
  }

  lemma ThreeLinesAreAscii(a: string, b: string, c: string)
    requires Plain(a) && Plain(b) && Plain(c)
    ensures IsAscii(Join([a, b, c], '\n') + "\n")
  {
    JoinThree(a, b, c);
    PlainIsAscii(a);
    PlainIsAscii(b);
    PlainIsAscii(c);
    assert IsAscii("\n");
    hide IsAscii, Plain, Join;
    AsciiConcat(a, "\n");
    AsciiConcat(a + "\n", b);
    AsciiConcat(a + "\n" + b, "\n");
    AsciiConcat(a + "\n" + b + "\n", c);
    AsciiConcat(a + "\n" + b + "\n" + c, "\n");
  }

  lemma ThreeBodyLines(a: string, b: string, c: string)
    requires '\n' !in a && '\n' !in b && '\n' !in c
    ensures var text := Join([a, b, c], '\n') + "\n";
            text != "" && text[|text| - 1] == '\n' && BodyLines(text) == [a, b, c]
  {
    var body := Join([a, b, c], '\n');
    assert (body + "\n")[..|body|] == body;
    SplitJoin([a, b, c], '\n');
  }

  lemma PrintedLength(p: Pointer)
    requires IsPointer(p)
    ensures |Print(p)| <= MAX_POINTER_SIZE
  {
    SizeNumeralIsShort(p.size);
  }

  lemma PrintedShape(p: Pointer)
    requires IsPointer(p)
    ensures Print(p) != "" && |Print(p)| <= MAX_POINTER_SIZE && Print(p)[|Print(p)| - 1] == '\n'
    ensures IsAscii(Print(p))
    ensures BodyLines(Print(p)) == [Line(Fields(p)[0]), Line(Fields(p)[1]), Line(Fields(p)[2])]
  {
    hide Print, IsAscii, Plain, Join, BodyLines, Line, IsPointer;
    var a, b, c := Line(Fields(p)[0]), Line(Fields(p)[1]), Line(Fields(p)[2]);
    PrintIsJoinedFields(p);
    PrintedLineIsPlain(p, 0);
    PrintedLineIsPlain(p, 1);
    PrintedLineIsPlain(p, 2);
    PlainIsAscii(a);
    PlainIsAscii(b);
    PlainIsAscii(c);
    ThreeLinesAreAscii(a, b, c);
    ThreeBodyLines(a, b, c);
    PrintedLength(p);
  }

  lemma PrintedFieldsParse(p: Pointer)
    requires IsPointer(p)
    ensures ParseFields(Fields(p)) == Some(p)
  {
    var fields := Fields(p);
    assert fields[1..] == [fields[1], fields[2]];
    assert LexLess("oid", "size");
    assert Lookup(fields, "size") == PrintNat(p.size);
    assert fields[..2] == [fields[0], fields[1]];
    assert Lookup(fields, "oid") == "sha256:" + p.oid by {
      assert Lookup(fields[..2], "oid") == fields[1].value;
    }
    assert ("sha256:" + p.oid)[7..] == p.oid && ("sha256:" + p.oid)[..7] == "sha256:";
    ParsePrintNat(p.size);
  }

  /** The strict parser inverts the printer on every valid identifier and size. */
  lemma ParsePrint(p: Pointer)
    requires IsPointer(p)
    ensures Parse(Print(p)) == Some(p)
  {
    PrintedShape(p);
    AsciiIsUtf8(Print(p));
    var fields := Fields(p);
    forall i | 0 <= i < 3
      ensures ParseLine([Line(fields[0]), Line(fields[1]), Line(fields[2])][i]) == Some(fields[i])
    {
      PrintedLineIsPlain(p, i);
      ParsePrintedLine(fields[i]);
    }
    ParseLinesOf([Line(fields[0]), Line(fields[1]), Line(fields[2])], fields);
    PrintedFieldsParse(p);
  }

  // ---- accepted pointers are canonical -----------------------------------------

  lemma ParsedLineRebuilds(line: string, f: Field)
    requires ParseLine(line) == Some(f)
    ensures Line(f) == line
  {
  }

  lemma LookupHit(fields: seq<Field>, key: string)
    requires Lookup(fields, key) != ""
    ensures exists i :: 0 <= i < |fields| && fields[i] == Field(key, Lookup(fields, key))
  {
  }

  lemma AcceptedFields(fields: seq<Field>)
    requires ParseFields(fields).Some?
    ensures |fields| >= 3 && IsPointer(ParseFields(fields).value)
  {
    LookupHit(fields, "oid");
    LookupHit(fields, "size");
    assert fields[0].key == "version" && "oid" != "size";
    var i :| 0 <= i < |fields| && fields[i].key == "oid";
    var j :| 0 <= j < |fields| && fields[j].key == "size";
  }

  lemma ThreeFields(fields: seq<Field>, p: Pointer)
    requires |fields| == 3 && ParseFields(fields) == Some(p)
    ensures fields == Fields(p)
  {
    var oid, size := Lookup(fields, "oid"), Lookup(fields, "size");
    assert oid == "sha256:" + p.oid by {
      assert oid == oid[..7] + oid[7..];
    }
    LookupHit(fields, "oid");
    LookupHit(fields, "size");
    assert fields[1..][0] == fields[1] && fields[1..][1] == fields[2];
    assert LexLess(fields[1].key, fields[2].key);
    assert !LexLess("size", "oid");
    assert fields[1] == Field("oid", oid) && fields[2] == Field("size", size);
    assert fields == [fields[0], fields[1], fields[2]];
  }

  lemma ThreeLinesRebuild(content: string, fields: seq<Field>)
    requires content != "" && content[|content| - 1] == '\n'
    requires ParseLines(BodyLines(content)) == Some(fields) && |fields| == 3
    ensures content == Join([Line(fields[0]), Line(fields[1]), Line(fields[2])], '\n') + "\n"
  {
    var lines := BodyLines(content);
    JoinSplit(content[..|content| - 1], '\n');
    ParsedLineRebuilds(lines[0], fields[0]);
    ParsedLineRebuilds(lines[1], fields[1]);
    ParsedLineRebuilds(lines[2], fields[2]);
    assert lines == [Line(fields[0]), Line(fields[1]), Line(fields[2])];
  }

  /** An accepted pointer is valid; with just the three standard fields it is byte for byte its printed form. */
  lemma AcceptedPointerIsCanonical(content: string)
    requires Parse(content).Some?
    ensures IsPointer(Parse(content).value) && FieldCount(content) >= 3
    ensures FieldCount(content) == 3 ==> content == Print(Parse(content).value)
  {
    var fields := ParseLines(BodyLines(content)).value;
    AcceptedFields(fields);
    if |fields| == 3 {
      ThreeLinesRebuild(content, fields);
      ThreeFields(fields, Parse(content).value);
      PrintIsJoinedFields(Parse(content).value);
    }
  }

  // ---- the browsing parser -----------------------------------------------------

  predicate IsLineBreak(c: char)
  {
    '\n' <= c <= '\r' || 0x1c <= c as int <= 0x1e || c as int in {0x85, 0x2028, 0x2029}
  }

  function IndexOfBreak(s: string): (i: nat)
    ensures i <= |s|
    ensures forall j :: 0 <= j < i ==> !IsLineBreak(s[j])
    ensures i < |s| ==> IsLineBreak(s[i])
  {
    if s == "" || IsLineBreak(s[0]) then 0 else 1 + IndexOfBreak(s[1..])
  }

  function BreakWidth(s: string, i: nat): (w: nat)
    requires i < |s|
    ensures 1 <= w <= 2 && i + w <= |s|
  {
    if s[i] == '\r' && i + 1 < |s| && s[i + 1] == '\n' then 2 else 1
  }

  /** What follows the first line break. */
  function AfterBreak(s: string): (rest: string)
    requires IndexOfBreak(s) < |s|
    ensures |rest| < |s|
  {
    s[IndexOfBreak(s) + BreakWidth(s, IndexOfBreak(s))..]
  }

  /** `str.splitlines()`. */
  function SplitLines(s: string): seq<string>
    decreases |s|
  {
    if s == "" then []
    else if IndexOfBreak(s) == |s| then [s]
    else [s[..IndexOfBreak(s)]] + SplitLines(AfterBreak(s))
  }

  predicate IsSpace(c: char) { c == ' ' || '\t' <= c <= '\r' || 0x1c <= c as int <= 0x1f }

  function Strip(s: string): string
  {
    if s != "" && IsSpace(s[0]) then Strip(s[1..])
    else if s != "" && IsSpace(s[|s| - 1]) then Strip(s[..|s| - 1])
    else s
  }

  function Concat(parts: seq<string>): string
  {
    if parts == [] then "" else parts[0] + Concat(parts[1..])
  }

  /** `int(text)` on ASCII text: surrounding space, a sign and single underscores are allowed. */
  function PyInt(text: string): Option<int>
  {
    var s := Strip(text);
    var negative := s != "" && s[0] == '-';
    var digits := if s != "" && (s[0] == '-' || s[0] == '+') then s[1..] else s;
    var groups := Split(digits, '_');
    if forall i :: 0 <= i < |groups| ==> groups[i] != "" && AllDigits(groups[i]) then
      GroupsAreDigits(groups);
      var n: int := ParseNat(Concat(groups));
      Some(if negative then -n else n)
    else None
  }

  lemma GroupsAreDigits(groups: seq<string>)
    requires forall i :: 0 <= i < |groups| ==> AllDigits(groups[i])
    ensures AllDigits(Concat(groups))
  {
  }

  /** `_parse_lfs_pointer` of the browser, on decoded text. */
  function Browse(text: string): Option<Pointer>
  {
    var lines := SplitLines(text);
    if |lines| != 3 || lines[0] != "version " + POINTER_VERSION then None
    else if !(|lines[1]| == 75 && lines[1][..11] == "oid sha256:" && IsOid(lines[1][11..])) || !("size " <= lines[2]) then None
    else
      match PyInt(lines[2][5..])
      case None => None
      case Some(size) => if size < 0 then None else Some(Pointer(lines[1][11..], size))
  }

  function Newlines(s: string): nat
  {
    if s == "" then 0 else (if s[0] == '\n' then 1 else 0) + Newlines(s[1..])
  }

  lemma {:induction false} NewlinesConcat(a: string, b: string)
    ensures Newlines(a + b) == Newlines(a) + Newlines(b)
  {
    if a == "" {
      assert a + b == b;
    } else {
      NewlinesConcat(a[1..], b);
      assert (a + b)[1..] == a[1..] + b;
    }
  }

  lemma {:induction false} SplitCountsNewlines(s: string)
    ensures |Split(s, '\n')| == Newlines(s) + 1
  {
    if s != "" {
      SplitCountsNewlines(s[1..]);
    }
  }

  lemma {:induction false} NoBreakNoNewline(s: string)
    requires forall j :: 0 <= j < |s| ==> !IsLineBreak(s[j])
    ensures Newlines(s) == 0
  {
    if s != "" {
      assert !IsLineBreak(s[0]);
      NoBreakNoNewline(s[1..]);
    }
  }

  /** A line break is one newline at most. */
  lemma MarkNewlines(s: string, i: nat)
    requires i < |s|
    ensures Newlines(s[i..i + BreakWidth(s, i)]) <= 1
  {
    var mark := s[i..i + BreakWidth(s, i)];
    if BreakWidth(s, i) == 2 {
      assert mark[0] == '\r' && mark[1..] == "\n";
      NewlineCounts();
    } else {
      assert mark == [s[i]] && mark[1..] == "";
    }
  }

  lemma NewlinesOfThree(s: string, i: nat, w: nat)
    requires i + w <= |s|
    ensures Newlines(s) == Newlines(s[..i]) + Newlines(s[i..i + w]) + Newlines(s[i + w..])
  {
    hide Newlines;
    assert s == s[..i] + s[i..] && s[i..] == s[i..i + w] + s[i + w..];
    NewlinesConcat(s[..i], s[i..]);
    NewlinesConcat(s[i..i + w], s[i + w..]);
  }

  lemma FirstLineHasNone(s: string)
    ensures Newlines(s[..IndexOfBreak(s)]) == 0
  {
    hide IsLineBreak;
    NoBreakNoNewline(s[..IndexOfBreak(s)]);
  }

  lemma NewlinesAfterBreak(s: string)
    requires IndexOfBreak(s) < |s|
    ensures Newlines(s) <= 1 + Newlines(AfterBreak(s))
  {
    hide Newlines, IsLineBreak, BreakWidth, IndexOfBreak;
    var i := IndexOfBreak(s);
    FirstLineHasNone(s);
    MarkNewlines(s, i);
    NewlinesOfThree(s, i, BreakWidth(s, i));
  }

  lemma {:induction false} SplitLinesCoversNewlines(s: string)
    ensures |SplitLines(s)| >= Newlines(s)
    decreases |s|
  {
    if s == "" {
    } else if IndexOfBreak(s) == |s| {
      hide Newlines, IsLineBreak, IndexOfBreak, AfterBreak;
      FirstLineHasNone(s);
      assert s[..|s|] == s;
    } else {
      hide Newlines, IsLineBreak, IndexOfBreak, AfterBreak;
      NewlinesAfterBreak(s);
      SplitLinesCoversNewlines(AfterBreak(s));
    }
  }

  lemma {:induction false} FirstBreak(line: string, rest: string)
    requires Plain(line)
    ensures IndexOfBreak(line + "\n" + rest) == |line|
  {
    var s := line + "\n" + rest;
    if line == "" {
      assert s[0] == '\n';
    } else {
      FirstBreak(line[1..], rest);
      assert s[1..] == line[1..] + "\n" + rest;
      assert s[0] == line[0];
    }
  }

  lemma SplitLinesHead(line: string, rest: string)
    requires Plain(line)
    ensures SplitLines(line + "\n" + rest) == [line] + SplitLines(rest)
  {
    var s := line + "\n" + rest;
    FirstBreak(line, rest);
    assert s[|line|] == '\n';
    assert s[..|line|] == line && s[|line| + 1..] == rest;
  }

  lemma ThreeLinesNested(a: string, b: string, c: string)
    ensures Join([a, b, c], '\n') + "\n" == a + "\n" + (b + "\n" + (c + "\n" + ""))
  {
    hide Join;
    JoinThree(a, b, c);
    var inner := c + "\n" + "";
    assert inner == c + "\n";
    var middle := b + "\n" + inner;
    assert middle == b + "\n" + c + "\n";
  }

  lemma SplitLinesOfThree(a: string, b: string, c: string)
    requires Plain(a) && Plain(b) && Plain(c)
    ensures SplitLines(Join([a, b, c], '\n') + "\n") == [a, b, c]
  {
    ThreeLinesNested(a, b, c);
    assert SplitLines("") == [];
    hide Join, SplitLines, Plain;
    SplitLinesHead(c, "");
    SplitLinesHead(b, c + "\n" + "");
    SplitLinesHead(a, b + "\n" + (c + "\n" + ""));
  }

  lemma PyIntOfNumeral(n: nat)
    ensures PyInt(PrintNat(n)) == Some(n)
  {
    var s := PrintNat(n);
    assert IsDigit(s[0]) && IsDigit(s[|s| - 1]);
    assert Strip(s) == s;
    assert '_' !in s by {
      assert !IsDigit('_');
    }
    SplitPlain(s, '_');
    assert [s][1..] == [];
    assert Concat([s]) == s + "";
    assert s + "" == s;
    ParsePrintNat(n);
  }

  lemma BrowsePrinted(p: Pointer)
    requires IsPointer(p)
    ensures Browse(Print(p)) == Some(p)
  {
    hide Print, Plain, SplitLines, Join, PyInt;
    PrintIsJoinedFields(p);
    PrintedLineIsPlain(p, 0);
    PrintedLineIsPlain(p, 1);
    PrintedLineIsPlain(p, 2);
    var a, b, c := Line(Fields(p)[0]), Line(Fields(p)[1]), Line(Fields(p)[2]);
    SplitLinesOfThree(a, b, c);
    BrowseLines(POINTER_VERSION, p, a, b, c);
  }

  lemma BrowseLines(version: string, p: Pointer, a: string, b: string, c: string)
    requires IsPointer(p)
    requires a == Line(Field("version", version)) && b == Line(Field("oid", "sha256:" + p.oid))
    requires c == Line(Field("size", PrintNat(p.size)))
    ensures a == "version " + version
    ensures |b| == 75 && b[..11] == "oid sha256:" && b[11..] == p.oid
    ensures "size " <= c && PyInt(c[5..]) == Some(p.size)
  {
    assert a == "version " + version;
    assert b == "oid sha256:" + p.oid;
    assert c == "size " + PrintNat(p.size);
    assert c[5..] == PrintNat(p.size);
    PyIntOfNumeral(p.size);
  }

  lemma NewlineCounts()
    ensures Newlines("\n") == 1
  {
  }

  lemma TerminatedCountsNewlines(content: string)
    requires content != "" && content[|content| - 1] == '\n'
    ensures Newlines(content) == FieldCount(content)
  {
    hide Newlines, Split;
    var body := content[..|content| - 1];
    SplitCountsNewlines(body);
    NewlinesConcat(body, "\n");
    NewlineCounts();
    assert content == body + "\n";
  }

  /** A text with more than three newlines is no pointer to the browser. */
  lemma ManyLinesAreNoPointer(text: string)
    requires Newlines(text) > 3
    ensures Browse(text) == None
  {
    hide SplitLines, Newlines, PyInt, IsOid;
    SplitLinesCoversNewlines(text);
  }

  // ---- decoding -------------------------------------------------------------------

  /** The character a two-byte sequence stands for; the two below are for three and four bytes. */
  function CodePoint2(a: int, b: int): (n: int)
    requires 0xC2 <= a <= 0xDF && 0x80 <= b <= 0xBF
    ensures 0x80 <= n < 0x800
  {
    (a - 0xC0) * 64 + (b - 0x80)
  }

  function CodePoint3(a: int, b: int, c: int): (n: int)
    requires 0xE0 <= a <= 0xEF && 0x80 <= b <= 0xBF && 0x80 <= c <= 0xBF
    requires (a == 0xE0 ==> b >= 0xA0) && (a == 0xED ==> b <= 0x9F)
    ensures 0x800 <= n < 0xD800 || 0xE000 <= n < 0x1_0000
  {
    ((a - 0xE0) * 64 + (b - 0x80)) * 64 + (c - 0x80)
  }

  function CodePoint4(a: int, b: int, c: int, d: int): (n: int)
    requires 0xF0 <= a <= 0xF4 && 0x80 <= b <= 0xBF && 0x80 <= c <= 0xBF && 0x80 <= d <= 0xBF
    requires (a == 0xF0 ==> b >= 0x90) && (a == 0xF4 ==> b <= 0x8F)
    ensures 0x1_0000 <= n < 0x11_0000
  {
    (((a - 0xF0) * 64 + (b - 0x80)) * 64 + (c - 0x80)) * 64 + (d - 0x80)
  }

  /** How many bytes the first character of well-formed content takes. */
  function Width(s: string): (n: nat)
    requires s != "" && ValidUtf8(s)
    ensures 1 <= n <= |s| && ValidUtf8(s[n..])
  {
    var lead := s[0] as int;
    if lead < 0x80 then 1 else if lead <= 0xDF then 2 else if lead <= 0xEF then 3 else 4
  }

  function FirstChar(s: string): (c: char)
    requires s != "" && ValidUtf8(s)
    ensures if s[0] as int < 0x80 then c == s[0] else c as int >= 0x80
  {
    match Width(s)
    case 1 => s[0]
    case 2 => CodePoint2(s[0] as int, s[1] as int) as char
    case 3 => CodePoint3(s[0] as int, s[1] as int, s[2] as int) as char
    case _ => CodePoint4(s[0] as int, s[1] as int, s[2] as int, s[3] as int) as char
  }

  /** `content.decode('utf-8')` of well-formed content. */
  function Decoded(s: string): string
    requires ValidUtf8(s)
    decreases |s|
  {
    if s == "" then "" else [FirstChar(s)] + Decoded(s[Width(s)..])
  }

  lemma {:induction false} DecodedAscii(s: string)
    requires ValidUtf8(s) && IsAscii(s)
    ensures Decoded(s) == s
  {
    if s != "" {
      assert Width(s) == 1;
      hide ValidUtf8, Width, FirstChar;
      DecodedAscii(s[1..]);
      assert s == [s[0]] + s[1..];
    }
  }

  /** Bytes of a longer sequence are no newlines, and neither is the character they encode. */
  lemma SequenceHasNoNewline(s: string, n: nat, rest: string, c: char)
    requires 0 < n <= |s| && forall i :: 0 <= i < n ==> s[i] != '\n'
    requires c != '\n'
    ensures Newlines(s) == Newlines(s[n..])
    ensures Newlines([c] + rest) == Newlines(rest)
  {
    assert s == s[..n] + s[n..];
    NewlinesConcat(s[..n], s[n..]);
    NoNewlineCounts(s[..n]);
    assert ([c] + rest)[1..] == rest;
  }

  lemma {:induction false} NoNewlineCounts(s: string)
    requires '\n' !in s
    ensures Newlines(s) == 0
  {
    if s != "" {
      NoNewlineCounts(s[1..]);
    }
  }

  /** Decoding keeps the number of newlines. */
  lemma {:induction false} DecodedNewlines(s: string)
    requires ValidUtf8(s)
    ensures Newlines(Decoded(s)) == Newlines(s)
    decreases |s|
  {
    if s == "" {
    } else {
      var n, c := Width(s), FirstChar(s);
      WidthHasNoNewline(s);
      hide ValidUtf8, Width, FirstChar, Newlines;
      DecodedNewlines(s[n..]);
      var rest := Decoded(s[n..]);
      if s[0] == '\n' {
        NewlineHead(s[1..]);
        NewlineHead(rest);
        assert s == "\n" + s[1..];
      } else {
        SequenceHasNoNewline(s, n, rest, c);
      }
    }
  }

  lemma NewlineHead(rest: string)
    ensures Newlines("\n" + rest) == 1 + Newlines(rest)
  {
    assert ("\n" + rest)[1..] == rest;
  }

  lemma WidthHasNoNewline(s: string)
    requires s != "" && ValidUtf8(s)
    ensures s[0] == '\n' ==> Width(s) == 1 && FirstChar(s) == '\n'
    ensures s[0] != '\n' ==> FirstChar(s) != '\n' && forall i :: 0 <= i < Width(s) ==> s[i] != '\n'
  {
  }

  /** On what the receive hook accepts, the browser sees the same pointer exactly when the content has no
      extension fields; otherwise it treats the file as ordinary content. */
  lemma BrowserAgreesExactlyOnThreeFields(content: string)
    requires Parse(content).Some?
    ensures ValidUtf8(content)
    ensures Browse(Decoded(content)) == if FieldCount(content) == 3 then Parse(content) else None
  {
    AcceptedIsUtf8(content);
    hide ParseFields, ParseLines, BodyLines, FieldCount, Print, Browse, ValidUtf8, Decoded, Parse, Newlines;
    AcceptedPointerIsCanonical(content);
    if FieldCount(content) == 3 {
      PrintedShape(Parse(content).value);
      DecodedAscii(content);
      BrowsePrinted(Parse(content).value);
    } else {
      TerminatedCountsNewlines(content);
      DecodedNewlines(content);
      ManyLinesAreNoPointer(Decoded(content));
    }
  }

  lemma AcceptedIsUtf8(content: string)
    requires Parse(content).Some?
    ensures ValidUtf8(content) && content != "" && content[|content| - 1] == '\n'
  {
  }
}
