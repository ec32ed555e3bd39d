/** The commit of a published draft, as the world of pushes and maintenance assumes it. */
module PublishedCommit {
  import opened Text
  import opened Pointer
  import opened GitObjects
  import LfsWorld
  import opened Attributes
  import opened DraftTree
  import opened PublishedTree

  /** `target` is found under `o` at the path with these components. */
  predicate IsAt(o: GitObject, parts: seq<string>, target: GitObject)
    decreases o
  {
    if parts == [] then o == target
    else o.Tree? && exists i ::
      0 <= i < |o.entries| && i < |o.names| && o.names[i] == parts[0] && IsAt(o.entries[i], parts[1..], target)
  }

  /** A tree object of files and directories; submodules are not objects of the repository. */
  predicate IsFileTree(o: GitObject)
    decreases o
  {
    o.Tree? && |o.names| == |o.entries| && forall i :: 0 <= i < |o.entries| ==>
      o.entries[i].Blob? || IsFileTree(o.entries[i])
  }

  /** `write-tree` and `ls-tree -r`: the tree object holds exactly the files of the index. */
  ghost predicate Records(tree: GitObject, index: Index)
  {
    && IsFileTree(tree)
    && (forall parts, content ::
         IsAt(tree, parts, Blob(content)) ==> Join(parts, '/') in index && index[Join(parts, '/')] == File(content))
    && (forall path :: path in index && index[path].File? ==> IsAt(tree, Split(path, '/'), Blob(index[path].content)))
  }

  lemma {:induction false} ReachedBlobHasPath(tree: GitObject, blob: GitObject) returns (parts: seq<string>)
    requires (tree.Blob? || IsFileTree(tree)) && Reaches(tree, blob) && blob.Blob?
    ensures IsAt(tree, parts, blob)
    decreases tree
  {
    if tree == blob {
      parts := [];
    } else {
      var i :| 0 <= i < |Links(tree)| && Reaches(Links(tree)[i], blob);
      var rest := ReachedBlobHasPath(tree.entries[i], blob);
      parts := [tree.names[i]] + rest;
      assert parts[1..] == rest;
    }
  }

  lemma {:induction false} PathIsReachable(o: GitObject, parts: seq<string>, target: GitObject)
    requires IsAt(o, parts, target)
    ensures Reaches(o, target)
    decreases o
  {
    if parts != [] {
      var i :| 0 <= i < |o.entries| && i < |o.names| && o.names[i] == parts[0] && IsAt(o.entries[i], parts[1..], target);
      PathIsReachable(o.entries[i], parts[1..], target);
      assert Links(o)[i] == o.entries[i];
    }
  }

  /** The base tree a draft was created on. */
  ghost predicate IsBase(commit: Option<GitObject>, base: Index)
  {
    match commit
    case None => base == map[]
    case Some(c) => c.Commit? && Records(c.tree, base)
  }

  /** Ending the prior attribute files with a newline does not turn one into a pointer. */
  ghost predicate AttributesStayText(index: Index, files: set<string>)
  {
    forall file :: file in files && !IsTerminated(Prior(index, file)) ==> Parse(Terminated(Prior(index, file))).None?
  }

  /** A file of the overlaid tree is the base's, a staged ordinary file, or the pointer of a staged LFS file. */
  predicate FromDraft(base: Index, changes: map<string, Change>, content: string)
  {
    || (exists path :: path in base && base[path] == File(content))
    || (exists path :: path in changes && changes[path] == LfsWorld.GitFile(Blob(content)))
    || (exists path ::
         path in changes && changes[path].LfsFile? && content == Print(Pointer(changes[path].oid, changes[path].size)))
  }

  lemma OverlayFromDraft(base: Index, changes: map<string, Change>, path: string)
    requires WellFormed(base, changes) && path in Overlay(base, changes) && Overlay(base, changes)[path].File?
    ensures FromDraft(base, changes, Overlay(base, changes)[path].content)
  {
    hide Print, ValidPath, Normal, Basename;
    if path in changes {
      assert ChangeOk(base, path, changes[path]);
    }
  }

  /** Every pointer file of a published tree comes from the draft or its base: the rewrite makes no new one. */
  lemma PublishedPointersFromDraft(base: Index, changes: map<string, Change>, order: seq<string>, path: string)
    requires WellFormed(base, changes) && Listed(changes, order)
    requires AttributesStayText(Overlay(base, changes), Grouped(LfsPaths(changes, order)).Keys)
    requires path in Published(base, changes, order) && Published(base, changes, order)[path].File?
    requires Parse(Published(base, changes, order)[path].content).Some?
    ensures FromDraft(base, changes, Published(base, changes, order)[path].content)
  {
    hide Overlay, Grouped, LfsPaths, Tracked, Parse, FromDraft, WellFormed;
    var index, updates := Overlay(base, changes), Grouped(LfsPaths(changes, order));
    if path in updates {
      NamesAreValid(base, changes, order, path);
      RewrittenIsPointerExactlyWhen(Prior(index, path), updates[path]);
      assert IsTerminated(Prior(index, path));
      EmptyIsNoPointer();
      assert Prior(index, path) != "";
    }
    OverlayFromDraft(base, changes, path);
  }

  lemma EmptyIsNoPointer()
    ensures Parse("").None?
  {
  }

  /** The commit `publish_browser_draft` creates is one the world's publish step admits: each pointer it reaches is
      reached
      by its base commit, staged as an LFS file, or held by a staged ordinary file. */
  lemma PublishedCommitIsBuiltFrom(draft: LfsWorld.Draft, base: Index, order: seq<string>, tree: GitObject,
                                   message: string)
    requires IsBase(draft.base, base) && WellFormed(base, draft.changes) && Listed(draft.changes, order)
    requires AttributesStayText(Overlay(base, draft.changes), Grouped(LfsPaths(draft.changes, order)).Keys)
    requires Records(tree, Published(base, draft.changes, order))
    ensures LfsWorld.BuiltFrom(draft, Commit(tree, match draft.base { case None => [] case Some(b) => [b] }, message))
  {
    hide Parse, WellFormed, Listed, AttributesStayText, Published, Reaches, FromDraft, Print, IsAt;
    forall o | Reaches(tree, o) && PointerOf(o).Some?
      ensures (draft.base.Some? && Reaches(draft.base.value, o))
              || (exists path :: path in draft.changes && draft.changes[path] == LfsWorld.LfsFile(PointerOf(o).value.oid, PointerOf(o).value.size))
              || (exists path :: path in draft.changes && draft.changes[path] == LfsWorld.GitFile(o))
    {
      var parts := ReachedBlobHasPath(tree, o);
      assert o == Blob(o.content);
      PublishedPointersFromDraft(base, draft.changes, order, Join(parts, '/'));
      FromDraftIsBuilt(draft, base, o);
    }
  }

  lemma FromDraftIsBuilt(draft: LfsWorld.Draft, base: Index, o: GitObject)
    requires IsBase(draft.base, base) && WellFormed(base, draft.changes) && o.Blob?
    requires FromDraft(base, draft.changes, o.content)
    ensures (draft.base.Some? && Reaches(draft.base.value, o))
            || (exists path :: path in draft.changes && PointerOf(o).Some? && draft.changes[path] == LfsWorld.LfsFile(PointerOf(o).value.oid, PointerOf(o).value.size))
            || (exists path :: path in draft.changes && draft.changes[path] == LfsWorld.GitFile(o))
  {
    hide Parse, Reaches, Print, IsAt, Listed, ValidPath, Normal, Beneath, Split;
    if path :| path in base && base[path] == File(o.content) {
      assert o == Blob(o.content);
      PathIsReachable(draft.base.value.tree, Split(path, '/'), o);
      LinkIsReachable(draft.base.value, 0);
      ReachesTransitive(draft.base.value, draft.base.value.tree, o);
    } else if path :| path in draft.changes && draft.changes[path] == LfsWorld.GitFile(Blob(o.content)) {
      assert o == Blob(o.content);
    } else {
      var path :| path in draft.changes && draft.changes[path].LfsFile? && o.content == Print(Pointer(draft.changes[path].oid, draft.changes[path].size));
      assert ChangeOk(base, path, draft.changes[path]);
      ParsePrint(Pointer(draft.changes[path].oid, draft.changes[path].size));
    }
  }

  // ---- why attribute files have to stay text --------------------------------------------------------

  lemma ExtendedFieldsParse(p: Pointer, value: string)
    requires IsPointer(p) && value != ""
    ensures ParseFields(Fields(p) + [Field("x", value)]) == Some(p)
  {
    hide ParseOid, ParseSize;
    var fields := Fields(p) + [Field("x", value)];
    PrintedFieldsParse(p);
    assert fields[..3] == Fields(p);
    assert Lookup(fields, "oid") == Lookup(fields[..3], "oid") && Lookup(fields, "size") == Lookup(fields[..3], "size");
    assert fields[1..] == [fields[1], fields[2], fields[3]];
    assert LexLess("oid", "size") && LexLess("size", "x");
  }

  lemma ExtendedLines(p: Pointer, line: string)
    requires IsPointer(p) && '\n' !in line && line != ""
    ensures BodyLines(Print(p) + line + "\n") == BodyLines(Print(p)) + [line]
  {
    hide Print, Split;
    PrintedShape(p);
    var content := Print(p) + line + "\n";
    var front := Print(p)[..|Print(p)| - 1];
    assert content[..|content| - 1] == front + ['\n'] + line;
    SplitConcat(front, line, '\n');
    SplitPlain(line, '\n');
  }

  lemma PrintIsShort(p: Pointer)
    requires IsPointer(p)
    ensures |Print(p)| <= 200
  {
    SizeNumeralIsShort(p.size);
  }

  lemma ExtendedPointerParses(p: Pointer, value: string)
    requires IsPointer(p) && value != "" && '\n' !in value && IsAscii(value) && |value| <= 800
    ensures Parse(Print(p) + ("x " + value) + "\n") == Some(p)
  {
    hide Print, Split, ParseLine, ParseFields, ValidUtf8, IsKey;
    var line := "x " + value;
    var content := Print(p) + line + "\n";
    PrintedShape(p);
    PrintIsShort(p);
    ExtendedLines(p, line);
    assert IsAscii(content);
    AsciiIsUtf8(content);
    var fields := Fields(p) + [Field("x", value)];
    assert line == Line(Field("x", value));
    assert IsKey("x") by { OneLetterKey(); }
    forall i | 0 <= i < 4
      ensures ParseLine(BodyLines(content)[i]) == Some(fields[i])
    {
      if i < 3 {
        PrintedLineIsPlain(p, i);
      }
      ParsePrintedLine(fields[i]);
    }
    ParseLinesOf(BodyLines(content), fields);
    ExtendedFieldsParse(p, value);
  }

  lemma OneLetterKey()
    ensures IsKey("x")
  {
  }

  /** A `.gitattributes` without a final newline that is no pointer can be rewritten into one, for any object: a
      carriage
      return makes its last field look like a tracking line that is already there, so only the newline is added. */
  lemma AttributeFileCanBecomePointer(p: Pointer) returns (prior: string)
    requires IsPointer(p)
    ensures Parse(prior).None? && Parse(Tracked(prior, ["n"])) == Some(p)
  {
    hide Print, Parse, Lines, FirstLine, TrackingLine, IsAscii;
    TrackingLineIsLine("n");
    TrackingIsAscii();
    var tracking := TrackingLine("n");
    var body := tracking[..|tracking| - 1];
    var value := "a\r" + body;
    prior := Print(p) + ("x " + value);
    PriorIsNoPointer(prior, body);
    assert prior + "\n" == (Print(p) + "x a\r") + tracking;
    CarriageReturnEndsLine(p, tracking);
    TrackedAlready(prior, "n");
    assert IsAscii(value) by { ValueIsAscii(tracking); }
    ExtendedPointerParses(p, value);
  }

  lemma ValueIsAscii(tracking: string)
    requires IsAscii(tracking) && tracking != ""
    ensures IsAscii("a\r" + tracking[..|tracking| - 1])
  {
  }

  lemma TrackedAlready(prior: string, name: string)
    requires !IsTerminated(prior) && TrackingLine(name) in Lines(prior + "\n")
    ensures Tracked(prior, [name]) == prior + "\n"
  {
    hide Lines, TrackingLine;
    assert [name][..0] == [];
    assert Tracked(prior, []) == prior + "\n";
  }

  lemma FilteringIsAscii()
    ensures IsAscii(FILTERING)
  {
  }

  lemma MergingIsAscii()
    ensures IsAscii(MERGING)
  {
  }

  lemma TrackingSuffixIsAscii()
    ensures IsAscii(TRACKING) && IsAscii("\"/n\"")
  {
    FilteringIsAscii();
    MergingIsAscii();
    assert IsAscii("\n") && IsAscii("\"/n\"");
    hide IsAscii;
    AsciiConcat(FILTERING, MERGING);
    AsciiConcat(FILTERING + MERGING, "\n");
  }

  lemma TrackingIsAscii()
    ensures IsAscii(TrackingLine("n")) && |TrackingLine("n")| < 100
  {
    hide IsAscii;
    EscapedIsReplaced("n");
    assert "n"[1..] == "";
    TrackingSuffixIsAscii();
    AsciiConcat("\"/n\"", TRACKING);
    assert TrackingLine("n") == "\"/n\"" + TRACKING;
  }

  lemma PriorIsNoPointer(prior: string, body: string)
    requires body != "" && body[|body| - 1] != '\n' && |prior| >= |body| && prior[|prior| - |body|..] == body
    ensures Parse(prior).None?
  {
    assert prior[|prior| - 1] == body[|body| - 1];
  }

  /** A carriage return ends a line, so what follows it is a line of its own. */
  lemma CarriageReturnEndsLine(p: Pointer, line: string)
    requires IsPointer(p) && IsLine(line) && line[0] != '\n'
    ensures line in Lines((Print(p) + "x a\r") + line)
  {
    hide Lines, FirstLine, Print;
    PrintedShape(p);
    LinesConcat(Print(p), "x a\r" + line);
    assert (Print(p) + "x a\r") + line == Print(p) + ("x a\r" + line);
    ReturnSplits(line);
    LinesOfLine(line);
  }

  lemma ReturnSplits(line: string)
    requires line != "" && line[0] != '\n'
    ensures Lines("x a\r" + line) == ["x a\r"] + Lines(line)
  {
    var s := "x a\r" + line;
    assert s[1..][1..][1..] == "\r" + line;
    assert FirstLine(s[1..][1..][1..]) == 1;
    assert s[1..][1..][0] == 'a' && s[1..][0] == ' ' && s[0] == 'x';
    assert FirstLine(s[1..][1..]) == 2 && FirstLine(s[1..]) == 3;
    assert FirstLine(s) == 4;
    assert s[..4] == "x a\r" && s[4..] == line;
  }
}
