/** Publishing a draft: the temporary index, the attribute files and the tree they leave. */
module PublishedTree {
  import opened Text
  import opened Pointer
  import opened GitObjects
  import LfsWorld
  import opened Attributes
  import opened DraftTree

  type Index = map<string, Entry>

  /** The index entry of a staged file. */
  function Contents(change: Change): Entry
  {
    match change
    case Deletion => Submodule
    case GitFile(blob) => if blob.Blob? then File(blob.content) else Submodule
    case LfsFile(oid, size) => File(Print(Pointer(oid, size)))
  }

  /** The base with the changes laid over it. */
  function Overlay(base: Index, changes: map<string, Change>): Index
  {
    map path | path in Resulting(base.Keys, changes) :: if path in changes then Contents(changes[path]) else base[path]
  }

  /** `update-index --add` without `--replace` refuses a file above or beneath another entry. */
  ghost predicate Blocked(index: Index, path: string)
  {
    exists q :: q in index && (Beneath(path, q) || Beneath(q, path))
  }

  method IsBlocked(index: Index, path: string) returns (blocked: bool)
    ensures blocked <==> Blocked(index, path)
  {
    var todo := index.Keys;
    while todo != {}
      invariant todo <= index.Keys
      invariant forall q :: q in index && q !in todo ==> !Beneath(path, q) && !Beneath(q, path)
      decreases todo
    {
      var q :| q in todo;
      if Beneath(path, q) || Beneath(q, path) {
        return true;
      }
      todo := todo - {q};
    }
    return false;
  }

  // ---- applying the changes -------------------------------------------------------------

  /** The changes in path order: each once, and no path after one that lies beneath it. */
  ghost predicate Listed(changes: map<string, Change>, order: seq<string>)
  {
    && (forall path :: path in changes <==> path in order)
    && (forall i, j :: 0 <= i < j < |order| ==> order[i] != order[j] && !Beneath(order[j], order[i]))
  }

  /** A file is staged where the base has a directory, all of whose files are staged for deletion. */
  ghost predicate ReplacesDirectory(changes: map<string, Change>)
  {
    exists p, q :: p in changes && !changes[p].Deletion? && q in changes && changes[q].Deletion? && Beneath(p, q)
  }

  /** Nothing staged for deletion lies beneath the path. */
  ghost predicate Clear(changes: map<string, Change>, path: string)
  {
    forall q :: q in changes && changes[q].Deletion? ==> !Beneath(path, q)
  }

  function Taken(changes: map<string, Change>, paths: seq<string>): map<string, Change>
  {
    map path | path in changes && path in paths :: changes[path]
  }

  /** The LFS paths among the changes, in order. */
  function LfsPaths(changes: map<string, Change>, order: seq<string>): (paths: seq<string>)
    ensures forall path :: path in paths <==> path in order && path in changes && changes[path].LfsFile?
  {
    if order == [] then []
    else
      var rest, last := LfsPaths(changes, order[..|order| - 1]), order[|order| - 1];
      assert order == order[..|order| - 1] + [last];
      if last in changes && changes[last].LfsFile? then rest + [last] else rest
  }

  lemma OverlayOneMore(base: Index, taken: map<string, Change>, path: string, change: Change)
    ensures Overlay(base, taken[path := change])
         == if change.Deletion? then Overlay(base, taken) - {path} else Overlay(base, taken)[path := Contents(change)]
  {
    hide Contents;
  }

  lemma TakenStep(base: Index, changes: map<string, Change>, order: seq<string>, n: nat)
    requires n < |order| && order[n] in changes
    ensures var before, path := Overlay(base, Taken(changes, order[..n])), order[n];
            Overlay(base, Taken(changes, order[..n + 1])) == if changes[path].Deletion? then before - {path} else before[path := Contents(changes[path])]
  {
    hide Contents, Overlay;
    var path := order[n];
    assert order[..n + 1] == order[..n] + [path];
    assert Taken(changes, order[..n + 1]) == Taken(changes, order[..n])[path := changes[path]];
    OverlayOneMore(base, Taken(changes, order[..n]), path, changes[path]);
  }

  lemma DirectoryBlocks(base: Index, changes: map<string, Change>, order: seq<string>, n: nat)
    requires WellFormed(base, changes) && Listed(changes, order) && n < |order|
    requires !Clear(changes, order[n])
    ensures Blocked(Overlay(base, Taken(changes, order[..n])), order[n])
  {
    hide Contents, Normal, Beneath;
    var q :| q in changes && changes[q].Deletion? && Beneath(order[n], q);
    assert ChangeOk(base, q, changes[q]);
    assert q !in order[..n];
    assert q in Overlay(base, Taken(changes, order[..n]));
  }

  lemma LeftOver(base: Index, changes: map<string, Change>, taken: seq<string>, q: string)
    requires q in Overlay(base, Taken(changes, taken)) && q !in Resulting(base.Keys, changes)
    ensures q in changes && changes[q].Deletion? && q !in taken
  {
    hide Contents;
  }

  lemma LaterIsNotAbove(changes: map<string, Change>, order: seq<string>, n: nat, q: string)
    requires Listed(changes, order) && n < |order| && q in changes && q !in order[..n]
    ensures !Beneath(q, order[n])
  {
    hide Beneath;
    assert !Beneath(q, q) by { SelfIsNotBeneath(q); }
    assert q in order;
    var j :| 0 <= j < |order| && order[j] == q;
    assert n <= j;
  }

  lemma SelfIsNotBeneath(q: string)
    ensures !Beneath(q, q)
  {
  }

  /** Only an entry staged for deletion and still to be removed can block a staged file. */
  lemma BlockedByDirectory(base: Index, changes: map<string, Change>, order: seq<string>, n: nat)
    requires WellFormed(base, changes) && Listed(changes, order) && n < |order|
    requires order[n] in changes && !changes[order[n]].Deletion?
    requires Blocked(Overlay(base, Taken(changes, order[..n])), order[n])
    ensures !Clear(changes, order[n])
  {
    hide Contents, Normal, Beneath, Overlay, ChangeOk, Taken, Listed;
    var path := order[n];
    var index := Overlay(base, Taken(changes, order[..n]));
    assert path in Resulting(base.Keys, changes);
    var q :| q in index && (Beneath(path, q) || Beneath(q, path));
    assert q !in Resulting(base.Keys, changes);
    LeftOver(base, changes, order[..n], q);
    LaterIsNotAbove(changes, order, n, q);
  }

  /** The change loop of `_construct_commit`: it succeeds exactly when no staged file replaces a directory, and then the
      index is the base with the changes laid over it. */
  method ApplyChanges(base: Index, changes: map<string, Change>, order: seq<string>)
    returns (built: Option<Index>, lfsPaths: seq<string>)
    requires WellFormed(base, changes) && Listed(changes, order)
    ensures built.Some? <==> !ReplacesDirectory(changes)
    ensures built.Some? ==> built.value == Overlay(base, changes) && lfsPaths == LfsPaths(changes, order)
  {
    hide Contents, Normal, Beneath, Overlay, Blocked, Taken, Clear, ReplacesDirectory, WellFormed;
    var index := base;
    lfsPaths := [];
    assert index == Overlay(base, Taken(changes, order[..0])) by { NothingTaken(base, changes); }
    for n := 0 to |order|
      invariant index == Overlay(base, Taken(changes, order[..n])) && lfsPaths == LfsPaths(changes, order[..n])
      invariant forall i ::
                  0 <= i < n ==> order[i] in changes && (changes[order[i]].Deletion? || Clear(changes, order[i]))
    {
      var path := order[n];
      assert path in order;
      TakenStep(base, changes, order, n);
      assert order[..n + 1][..n] == order[..n];
      if changes[path].Deletion? {
        index := index - {path};
      } else {
        if changes[path].LfsFile? {
          lfsPaths := lfsPaths + [path];
        }
        var blocked := IsBlocked(index, path);
        if blocked {
          BlockedByDirectory(base, changes, order, n);
          ClearOrReplaced(changes, order);
          return None, lfsPaths;
        }
        if !Clear(changes, path) {
          DirectoryBlocks(base, changes, order, n);
        }
        index := index[path := Contents(changes[path])];
      }
    }
    assert order[..|order|] == order;
    AllTaken(changes, order);
    ClearOrReplaced(changes, order);
    return Some(index), lfsPaths;
  }

  lemma ClearOrReplaced(changes: map<string, Change>, order: seq<string>)
    requires Listed(changes, order)
    ensures ReplacesDirectory(changes) <==> exists i ::
              0 <= i < |order| && order[i] in changes && !changes[order[i]].Deletion? && !Clear(changes, order[i])
  {
    hide Beneath;
    if ReplacesDirectory(changes) {
      var p, q :| p in changes && !changes[p].Deletion? && q in changes && changes[q].Deletion? && Beneath(p, q);
      assert p in order;
    }
  }

  lemma NothingTaken(base: Index, changes: map<string, Change>)
    ensures Overlay(base, Taken(changes, [])) == base
  {
  }

  lemma AllTaken(changes: map<string, Change>, order: seq<string>)
    requires Listed(changes, order)
    ensures Taken(changes, order) == changes
  {
  }

  /** A draft can be staged that replaces a directory by a file, and can never be published: the index refuses the file
      while it still holds the directory. */
  lemma ReplacedDirectoryIsStaged()
    ensures var base: Index := map["a/b" := File("x")];
            var changes := AfterAll(base, map[], [Remove("a/b"), Upsert("a", LfsWorld.GitFile(Blob("y")))]);
            WellFormed(base, map[]) && WellFormed(base, changes) && ReplacesDirectory(changes)
  {
    hide Split;
    var base: Index := map["a/b" := File("x")];
    var ops := [Remove("a/b"), Upsert("a", LfsWorld.GitFile(Blob("y")))];
    var deleted: map<string, Change> := map["a/b" := LfsWorld.Deletion];
    SplitPlain("b", '/');
    SplitPlain("a", '/');
    SplitHead("a", "b", '/');
    assert "a" + ['/'] + "b" == "a/b";
    assert Resulting(base.Keys, map[]) == {"a/b"} && Resulting(base.Keys, deleted) == {};
    assert After(base, map[], ops[0]) == deleted;
    assert After(base, deleted, ops[1]) == deleted["a" := LfsWorld.GitFile(Blob("y"))];
    assert AfterAll(base, map[], ops) == AfterAll(base, deleted, ops[1..]);
    assert AfterAll(base, deleted, ops[1..])
        == AfterAll(base, deleted["a" := LfsWorld.GitFile(Blob("y"))], ops[1..][1..]);
    DraftsStayTrees(base, map[], ops);
    assert Beneath("a", "a/b");
  }

  // ---- attribute files --------------------------------------------------------------------

  /** The attribute file of a path's own directory. */
  function AttributePath(path: string): string
  {
    var parts := Split(path, '/');
    Join(parts[..|parts| - 1] + [".gitattributes"], '/')
  }

  /** `_attribute_updates`: the LFS names of each attribute file, in order. */
  function Grouped(paths: seq<string>): map<string, seq<string>>
  {
    if paths == [] then map[]
    else
      var front, path := Grouped(paths[..|paths| - 1]), paths[|paths| - 1];
      var file := AttributePath(path);
      front[file := (if file in front then front[file] else []) + [Basename(path)]]
  }

  method AttributeUpdates(paths: seq<string>) returns (updates: map<string, seq<string>>)
    ensures updates == Grouped(paths)
  {
    updates := map[];
    for n := 0 to |paths|
      invariant updates == Grouped(paths[..n])
    {
      assert paths[..n + 1][..n] == paths[..n];
      var file := AttributePath(paths[n]);
      if file !in updates {
        updates := updates[file := []];
      }
      updates := updates[file := updates[file] + [Basename(paths[n])]];
    }
    assert paths[..|paths|] == paths;
  }

  lemma {:induction false} GroupedNames(paths: seq<string>, file: string, name: string)
    ensures file in Grouped(paths) && name in Grouped(paths)[file] <==>
              exists p :: p in paths && AttributePath(p) == file && Basename(p) == name
    ensures file in Grouped(paths) ==> Grouped(paths)[file] != []
  {
    hide AttributePath, Basename;
    if paths != [] {
      var front := paths[..|paths| - 1];
      GroupedNames(front, file, name);
      assert paths == front + [paths[|paths| - 1]];
    }
  }

  /** What an attribute file holds before the rewrite. */
  function Prior(index: Index, file: string): string
  {
    if file in index && index[file].File? then index[file].content else ""
  }

  function WithAttributes(index: Index, updates: map<string, seq<string>>): Index
  {
    map path | path in index.Keys + updates.Keys ::
      if path in updates then File(Tracked(Prior(index, path), updates[path])) else index[path]
  }

  /** Every attribute file is or can become a regular file of the index. */
  ghost predicate AttributesFit(index: Index, files: set<string>)
  {
    PrefixFree(index.Keys + files) && forall file :: file in files && file in index ==> index[file].File?
  }

  function Only(updates: map<string, seq<string>>, files: set<string>): map<string, seq<string>>
  {
    map file | file in updates && file in files :: updates[file]
  }

  lemma OneMoreFile(index: Index, updates: map<string, seq<string>>, done: set<string>, file: string)
    requires file in updates && file !in done
    ensures Prior(WithAttributes(index, Only(updates, done)), file) == Prior(index, file)
    ensures WithAttributes(index, Only(updates, done + {file}))
         == WithAttributes(index, Only(updates, done))[file := File(Tracked(Prior(index, file), updates[file]))]
    ensures file in WithAttributes(index, Only(updates, done)) <==> file in index
    ensures file in index ==> WithAttributes(index, Only(updates, done))[file] == index[file]
  {
    hide Tracked;
  }

  lemma FitsOneMore(index: Index, files: set<string>, current: Index, file: string)
    requires AttributesFit(index, files) && current.Keys == index.Keys + files && !Blocked(current, file)
    requires (file in index ==> index[file].File?)
    ensures AttributesFit(index, files + {file})
  {
    assert !Beneath(file, file);
  }

  lemma BlockedDoesNotFit(index: Index, files: set<string>, current: Index, file: string)
    requires current.Keys <= index.Keys + files && file in files && Blocked(current, file)
    ensures !AttributesFit(index, files)
  {
    var q :| q in current && (Beneath(file, q) || Beneath(q, file));
    assert q in index.Keys + files && file in index.Keys + files;
  }

  // ---- reading an index entry by pattern -----------------------------------------------------

  /** `git ls-files -- pattern` reads its path as a pattern; `matches` is what it lists, in path order. The first entry
      listed is the one that is read. */
  ghost predicate IsFirst(index: Index, file: string, matches: (string, string) -> bool, first: Option<string>)
  {
    match first
    case None => forall p :: p in index ==> !matches(file, p)
    case Some(f) => f in index && matches(file, f) && forall p :: p in index && matches(file, p) && p != f ==>
           LexLess(f, p)
  }

  /** What reading the entry a path is taken for gives: nothing for none, and no content for a submodule. */
  function ReadFirst(index: Index, first: Option<string>): Option<string>
    requires first.Some? ==> first.value in index
  {
    match first
    case None => Some("")
    case Some(f) => if index[f].Submodule? then None else Some(index[f].content)
  }

  /** `_read_index_blob`. */
  method ReadIndexBlob(index: Index, file: string, matches: (string, string) -> bool)
    returns (content: Option<string>, ghost first: Option<string>)
    ensures IsFirst(index, file, matches, first) && content == ReadFirst(index, first)
    ensures (forall p :: p in index ==> !matches(file, p)) ==> content == Some("")
    ensures content.None? ==> exists p :: p in index && matches(file, p) && index[p].Submodule?
    ensures content.Some? && content.value != "" ==>
              exists p :: p in index && matches(file, p) && index[p] == File(content.value)
  {
    var least: Option<string> := None;
    var todo := index.Keys;
    while todo != {}
      invariant todo <= index.Keys
      invariant least.None? ==> forall p :: p in index && p !in todo ==> !matches(file, p)
      invariant least.Some? ==> least.value in index && least.value !in todo && matches(file, least.value)
      invariant least.Some? ==>
                  forall p :: p in index && p !in todo && matches(file, p) && p != least.value ==>
                    LexLess(least.value, p)
      decreases todo
    {
      var p :| p in todo;
      if matches(file, p) && (least.None? || LexLess(p, least.value)) {
        if least.Some? {
          LessThanAll(index, file, matches, todo, least.value, p);
        }
        least := Some(p);
      } else if least.Some? {
        LexTotal(p, least.value);
      }
      todo := todo - {p};
    }
    return ReadFirst(index, least), least;
  }

  lemma LessThanAll(index: Index, file: string, matches: (string, string) -> bool, todo: set<string>, least: string,
                    p: string)
    requires LexLess(p, least)
    requires forall q :: q in index && q !in todo && matches(file, q) && q != least ==> LexLess(least, q)
    ensures forall q :: q in index && q !in todo && matches(file, q) ==> LexLess(p, q)
  {
    hide LexLess;
    forall q | q in index && q !in todo && matches(file, q) && q != least
      ensures LexLess(p, q)
    {
      LexTransitive(p, least, q);
    }
  }

  /** An attribute path is taken for its own entry, or for none if it has none, exactly when it matches itself and
      nothing
      it matches comes first; a path without an entry must match nothing. */
  lemma ReadsItselfExactlyWhen(index: Index, file: string, matches: (string, string) -> bool, first: Option<string>)
    requires IsFirst(index, file, matches, first)
    ensures first == (if file in index then Some(file) else None)
       <==> (file in index ==> matches(file, file))
            && forall p :: p in index && matches(file, p) && p != file ==> file in index && LexLess(file, p)
  {
    hide LexLess;
    if first.Some? && first.value != file && file in index && matches(file, file) {
      LexTotal(file, first.value);
      if LexLess(file, first.value) {
        LexTransitive(file, first.value, file);
      }
    }
  }

  /** In a directory whose name is a wildcard, an attribute file that is not there yet starts from another's content. */
  lemma WildcardReadsAnother(content: string, matches: (string, string) -> bool, first: Option<string>)
    requires matches("*/.gitattributes", "a/.gitattributes")
    requires IsFirst(map["a/.gitattributes" := File(content)], "*/.gitattributes", matches, first)
    ensures Prior(map["a/.gitattributes" := File(content)], "*/.gitattributes") == ""
    ensures ReadFirst(map["a/.gitattributes" := File(content)], first) == Some(content)
  {
    assert "*/.gitattributes"[0] != "a/.gitattributes"[0];
  }

  /** As a pattern the path stands for itself and what lies beneath it, as every path without special characters
      does. */
  ghost predicate NamesItself(paths: set<string>, file: string, matches: (string, string) -> bool)
  {
    forall p :: p in paths ==> (matches(file, p) <==> p == file || Beneath(file, p))
  }

  lemma ReadsItsPrior(index: Index, file: string, matches: (string, string) -> bool, first: Option<string>)
    requires PrefixFree(index.Keys) && NamesItself(index.Keys, file, matches) && IsFirst(index, file, matches, first)
    requires !Blocked(index, file)
    ensures ReadFirst(index, first) == if file in index && index[file].Submodule? then None else Some(Prior(index, file))
  {
    hide LexLess, Beneath;
  }

  lemma StillNamesItself(paths: set<string>, current: set<string>, file: string, matches: (string, string) -> bool)
    requires current <= paths && NamesItself(paths, file, matches)
    ensures NamesItself(current, file, matches)
  {
    hide Beneath;
  }

  /** Every attribute file, read as a pattern, stands for itself. */
  ghost predicate AllNameThemselves(index: Index, updates: map<string, seq<string>>, matches: (string, string) -> bool)
  {
    forall file :: file in updates ==> NamesItself(index.Keys + updates.Keys, file, matches)
  }

  /** Where the loop stands after the files `done`. */
  ghost predicate AttributesDone(index: Index, updates: map<string, seq<string>>, done: set<string>, current: Index)
  {
    current == WithAttributes(index, Only(updates, done)) && current.Keys == index.Keys + done
    && AttributesFit(index, done)
  }

  /** The attribute loop of `_construct_commit`, with `matches` for the patterns of `git ls-files`. */
  method AddAttributes(index: Index, updates: map<string, seq<string>>, matches: (string, string) -> bool)
    returns (built: Option<Index>)
    requires PrefixFree(index.Keys)
    ensures AllNameThemselves(index, updates, matches) ==> (built.Some? <==> AttributesFit(index, updates.Keys))
    ensures AllNameThemselves(index, updates, matches) && built.Some? ==> built.value == WithAttributes(index, updates)
    ensures built.Some? ==> built.value.Keys == index.Keys + updates.Keys && forall p :: p in index && p !in updates ==>
              built.value[p] == index[p]
  {
    hide Beneath, Tracked, Prior, Blocked, AttributesDone, IsFirst, ReadFirst, NamesItself, PrefixFree;
    ghost var themselves := AllNameThemselves(index, updates, matches);
    var current := index;
    var todo := updates.Keys;
    ghost var done: set<string> := {};
    NoFiles(index, updates);
    while todo != {}
      invariant todo <= updates.Keys && done == updates.Keys - todo
      invariant current.Keys == index.Keys + done && forall p :: p in index && p !in done ==> current[p] == index[p]
      invariant themselves ==> AttributesDone(index, updates, done, current)
      decreases todo
    {
      var file :| file in todo;
      var read, first := ReadIndexBlob(current, file, matches);
      var blocked := IsBlocked(current, file);
      if themselves {
        OneFile(index, updates, done, current, file, matches, first, blocked);
      }
      if read.None? {
        return None;
      }
      var content := Rewrite(read.value, updates[file]);
      if blocked {
        return None;
      }
      current := current[file := File(content)];
      todo, done := todo - {file}, done + {file};
    }
    assert done == updates.Keys;
    if themselves {
      AllDone(index, updates, current);
    }
    return Some(current);
  }

  lemma OneFile(index: Index, updates: map<string, seq<string>>, done: set<string>, current: Index, file: string,
                matches: (string, string) -> bool, first: Option<string>, blocked: bool)
    requires AttributesDone(index, updates, done, current) && file in updates && file !in done && done <= updates.Keys
    requires NamesItself(index.Keys + updates.Keys, file, matches) && IsFirst(current, file, matches, first)
    requires blocked <==> Blocked(current, file)
    ensures first.Some? ==> first.value in current
    ensures blocked || ReadFirst(current, first).None? ==> !AttributesFit(index, updates.Keys)
    ensures !blocked && ReadFirst(current, first).Some? ==>
              AttributesDone(index, updates, done + {file}, current[file := File(Tracked(ReadFirst(current, first).value, updates[file]))])
  {
    hide Beneath, Tracked, Prior, Blocked, NamesItself, PrefixFree, WithAttributes, Only;
    OneMoreFile(index, updates, done, file);
    StillNamesItself(index.Keys + updates.Keys, current.Keys, file, matches);
    if blocked {
      BlockedDoesNotFit(index, updates.Keys, current, file);
    } else {
      ReadsItsPrior(current, file, matches, first);
      hide IsFirst, ReadFirst;
      if file in index && index[file].Submodule? {
        SubmoduleDoesNotFit(index, updates.Keys, file);
      } else {
        FitsOneMore(index, done, current, file);
      }
    }
  }

  lemma AllDone(index: Index, updates: map<string, seq<string>>, current: Index)
    requires AttributesDone(index, updates, updates.Keys, current)
    ensures current == WithAttributes(index, updates) && AttributesFit(index, updates.Keys)
  {
    hide AttributesFit, WithAttributes;
    AllFiles(updates);
  }

  lemma NoFiles(index: Index, updates: map<string, seq<string>>)
    requires PrefixFree(index.Keys)
    ensures AttributesDone(index, updates, {}, index)
  {
    assert index.Keys + {} == index.Keys;
  }

  lemma AllFiles(updates: map<string, seq<string>>)
    ensures Only(updates, updates.Keys) == updates
  {
  }

  lemma SubmoduleDoesNotFit(index: Index, files: set<string>, file: string)
    requires file in files && file in index && index[file].Submodule?
    ensures !AttributesFit(index, files)
  {
  }

  // ---- the directory of a path ----------------------------------------------------------------

  /** The directory prefix of a path, its slash included. */
  function Directory(path: string): string
  {
    var parts := Split(path, '/');
    if |parts| == 1 then "" else Join(parts[..|parts| - 1], '/') + "/"
  }

  lemma PathInDirectory(path: string)
    ensures path == Directory(path) + Basename(path) && AttributePath(path) == Directory(path) + ".gitattributes"
    ensures '/' !in Basename(path)
  {
    hide Split, Join;
    var parts := Split(path, '/');
    var n := |parts| - 1;
    var renamed := parts[..n] + [".gitattributes"];
    JoinSplit(path, '/');
    JoinOne(parts[n], '/');
    JoinOne(".gitattributes", '/');
    if n > 0 {
      JoinConcat(parts[..n], [parts[n]], '/');
      JoinConcat(parts[..n], [".gitattributes"], '/');
      assert parts == parts[..n] + [parts[n]];
    } else {
      assert parts == [parts[n]] && renamed == [".gitattributes"];
    }
  }

  lemma SlashInDirectory(q: string, directory: string, name: string, other: string)
    requires Beneath(q, directory + name) && '/' !in name
    ensures Beneath(q, directory + other)
  {
    var whole := directory + name;
    assert whole[|q|] == '/';
    assert forall i :: |directory| <= i < |whole| ==> whole[i] == name[i - |directory|];
    assert q + "/" == whole[..|q| + 1] == directory[..|q| + 1];
  }

  /** Whatever an LFS path's attribute file lies beneath, the path itself lies beneath. */
  lemma AttributeFileInDirectory(q: string, path: string)
    requires Beneath(q, AttributePath(path))
    ensures Beneath(q, path)
  {
    PathInDirectory(path);
    assert '/' !in ".gitattributes";
    SlashInDirectory(q, Directory(path), ".gitattributes", Basename(path));
  }

  /** The attribute files can be written exactly when none is a submodule and none is a directory of the tree. */
  lemma FitsExactlyWhen(index: Index, paths: seq<string>)
    requires PrefixFree(index.Keys) && forall p :: p in paths ==> p in index
    ensures AttributesFit(index, Grouped(paths).Keys) <==> forall file :: file in Grouped(paths) ==>
              (file in index ==> index[file].File?) && forall q :: q in index ==> !Beneath(file, q)
  {
    hide Beneath, AttributePath, Basename;
    var files := Grouped(paths).Keys;
    if forall file :: file in files ==> (file in index ==> index[file].File?) && forall q :: q in index ==>
      !Beneath(file, q) {
      forall p, q | p in index.Keys + files && q in index.Keys + files
        ensures !Beneath(p, q)
      {
        if q in files {
          var path := PathOf(paths, q);
          assert Beneath(p, q) ==> Beneath(p, path) by {
            if Beneath(p, q) { AttributeFileInDirectory(p, path); }
          }
        }
      }
    } else {
      var file :| file in files && ((file in index && !index[file].File?) || exists q ::
        q in index && Beneath(file, q));
      assert file in index.Keys + files;
    }
  }

  /** Some LFS path that an attribute file serves. */
  lemma PathOf(paths: seq<string>, file: string) returns (path: string)
    requires file in Grouped(paths)
    ensures path in paths && AttributePath(path) == file && Basename(path) in Grouped(paths)[file]
  {
    hide AttributePath, Basename;
    GroupedNames(paths, file, "");
    var name := Grouped(paths)[file][0];
    GroupedNames(paths, file, name);
    path :| path in paths && AttributePath(path) == file && Basename(path) == name;
  }

  // ---- the published tree ------------------------------------------------------------------------

  /** The tree a published draft leaves. */
  function Published(base: Index, changes: map<string, Change>, order: seq<string>): Index
  {
    WithAttributes(Overlay(base, changes), Grouped(LfsPaths(changes, order)))
  }

  ghost predicate Publishable(base: Index, changes: map<string, Change>, order: seq<string>)
  {
    !ReplacesDirectory(changes) && AttributesFit(Overlay(base, changes), Grouped(LfsPaths(changes, order)).Keys)
  }

  /** Every attribute file of the draft, read as a pattern, stands for itself. */
  ghost predicate PatternsNameThemselves(base: Index, changes: map<string, Change>, order: seq<string>,
                                         matches: (string, string) -> bool)
  {
    AllNameThemselves(Overlay(base, changes), Grouped(LfsPaths(changes, order)), matches)
  }

  /** The index half of `_construct_commit`. */
  method Construct(base: Index, changes: map<string, Change>, order: seq<string>, matches: (string, string) -> bool)
    returns (tree: Option<Index>)
    requires WellFormed(base, changes) && Listed(changes, order)
    ensures PatternsNameThemselves(base, changes, order, matches) ==>
              (tree.Some? <==> Publishable(base, changes, order))
    ensures PatternsNameThemselves(base, changes, order, matches) && tree.Some? ==>
              tree.value == Published(base, changes, order)
    ensures tree.Some? ==> !ReplacesDirectory(changes)
  {
    hide Overlay, Contents, WithAttributes, AttributesFit, Grouped, ReplacesDirectory, Beneath, LfsPaths;
    var built, lfsPaths := ApplyChanges(base, changes, order);
    if built.None? {
      return None;
    }
    var updates := AttributeUpdates(lfsPaths);
    OverlayKeys(base, changes);
    tree := AddAttributes(built.value, updates, matches);
  }

  lemma OverlayKeys(base: Index, changes: map<string, Change>)
    ensures Overlay(base, changes).Keys == Resulting(base.Keys, changes)
  {
  }

  /** Apart from the attribute files of its LFS paths, the published tree is the base with the changes laid over it. */
  lemma PublishedIsOverlay(base: Index, changes: map<string, Change>, order: seq<string>)
    requires WellFormed(base, changes) && Listed(changes, order) && Publishable(base, changes, order)
    ensures PrefixFree(Published(base, changes, order).Keys)
    ensures forall path :: path !in Grouped(LfsPaths(changes, order)) ==>
              (path in Published(base, changes, order) <==> path in Overlay(base, changes))
              && (path in Overlay(base, changes) ==>
                   Published(base, changes, order)[path] == Overlay(base, changes)[path])
    ensures forall path :: path in changes && changes[path].LfsFile? ==> path in Published(base, changes, order) && Published(base, changes, order)[path] == Contents(changes[path])
  {
    hide Beneath, Grouped, Tracked, Contents;
    var index, updates := Overlay(base, changes), Grouped(LfsPaths(changes, order));
    assert Published(base, changes, order).Keys == index.Keys + updates.Keys;
    forall path | path in changes && changes[path].LfsFile?
      ensures path !in updates
    {
      assert ChangeOk(base, path, changes[path]);
      if path in updates {
        var other := PathOf(LfsPaths(changes, order), path);
        AttributeName(other);
      }
    }
  }

  lemma AttributeName(path: string)
    ensures Basename(AttributePath(path)) == ".gitattributes"
  {
    hide Join;
    var parts := Split(path, '/');
    SplitJoin(parts[..|parts| - 1] + [".gitattributes"], '/');
  }

  /** Each published LFS path is tracked by the attribute file of its directory, which keeps what it held before. */
  lemma PublishedIsTracked(base: Index, changes: map<string, Change>, order: seq<string>, path: string)
    requires WellFormed(base, changes) && Listed(changes, order)
    requires path in changes && changes[path].LfsFile?
    ensures var tree, file := Published(base, changes, order), AttributePath(path);
            && file in tree && tree[file].File?
            && Prior(Overlay(base, changes), file) <= tree[file].content
            && TrackingLine(Basename(path)) in Lines(tree[file].content)
  {
    hide Overlay, Tracked, Lines, TrackingLine, AttributePath, Basename, Contents, Grouped, LfsPaths;
    var file := AttributePath(path);
    var paths := LfsPaths(changes, order);
    assert path in paths;
    GroupedNames(paths, file, Basename(path));
    NamesAreValid(base, changes, order, file);
    RewriteTracks(Prior(Overlay(base, changes), file), Grouped(paths)[file]);
  }

  /** Path validation leaves only names that can be written in an attribute line. */
  lemma ValidPathHasName(path: string)
    requires ValidPath(path)
    ensures IsName(Basename(path)) && Normal(path)
  {
    hide Split;
    PathInDirectory(path);
    var name := Basename(path);
    forall i | 0 <= i < |name|
      ensures name[i] as int >= 32 && name[i] != '/'
    {
      assert path[|Directory(path)| + i] == name[i];
    }
  }

  lemma NamesAreValid(base: Index, changes: map<string, Change>, order: seq<string>, file: string)
    requires WellFormed(base, changes) && file in Grouped(LfsPaths(changes, order))
    ensures forall name :: name in Grouped(LfsPaths(changes, order))[file] ==> IsName(name)
  {
    hide AttributePath, Basename, Grouped, LfsPaths, IsName, ValidPath, Normal, Beneath;
    var paths := LfsPaths(changes, order);
    forall name | name in Grouped(paths)[file]
      ensures IsName(name)
    {
      GroupedNames(paths, file, name);
      var p :| p in paths && AttributePath(p) == file && Basename(p) == name;
      assert ChangeOk(base, p, changes[p]);
      ValidPathHasName(p);
    }
  }

  /** Tracking the same LFS paths again changes nothing. */
  lemma PublishingAgainAddsNothing(base: Index, changes: map<string, Change>, order: seq<string>)
    requires WellFormed(base, changes)
    ensures var tree := Published(base, changes, order); WithAttributes(tree, Grouped(LfsPaths(changes, order))) == tree
  {
    hide Overlay, Tracked, AttributePath, Basename, Contents, Grouped, LfsPaths;
    var updates := Grouped(LfsPaths(changes, order));
    var index := Overlay(base, changes);
    forall file | file in updates
      ensures Tracked(Tracked(Prior(index, file), updates[file]), updates[file])
           == Tracked(Prior(index, file), updates[file])
    {
      NamesAreValid(base, changes, order, file);
      RewriteIsIdempotent(Prior(index, file), updates[file], updates[file]);
    }
    var tree := Published(base, changes, order);
    assert WithAttributes(tree, updates).Keys == tree.Keys;
  }
}
