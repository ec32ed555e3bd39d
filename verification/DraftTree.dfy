/** Browser drafts: staged changes over a base tree, and why the result stays a tree. */
module DraftTree {
  import opened Text
  import opened Pointer
  import opened GitObjects
  import LfsWorld

  type Change = LfsWorld.Change

  /** What a base tree records for a path: a file or a submodule. */
  datatype Entry = File(content: string) | Submodule

  const MAX_PATH := 4096
  const MAX_GIT_BLOB_SIZE := 10 * 1024 * 1024

  // ---- paths ----------------------------------------------------------------------------

  function LowerCase(c: char): char { if 'A' <= c <= 'Z' then c + ('a' - 'A') else c }

  predicate IsDotGit(part: string)
  {
    |part| == 4 && part[0] == '.' && LowerCase(part[1]) == 'g' && LowerCase(part[2]) == 'i' && LowerCase(part[3]) == 't'
  }

  /** `validate_repository_path`. */
  predicate ValidPath(path: string)
  {
    && path != "" && |path| <= MAX_PATH
    && (var parts := Split(path, '/'); forall i :: 0 <= i < |parts| ==>
         parts[i] != "" && parts[i] != "." && parts[i] != ".." && !IsDotGit(parts[i]))
    && (forall i :: 0 <= i < |path| ==> path[i] as int >= 32 && path[i] as int != 127)
  }

  /** A path as Git trees record it: no empty and no `.` component. */
  predicate Normal(path: string)
  {
    var parts := Split(path, '/');
    forall i :: 0 <= i < |parts| ==> parts[i] != "" && parts[i] != "."
  }

  /** `PurePosixPath(path).parts` of a relative path. */
  function Parts(path: string): seq<string> { Kept(Split(path, '/')) }

  function Kept(parts: seq<string>): seq<string>
  {
    if parts == [] then [] else (if parts[0] == "" || parts[0] == "." then [] else [parts[0]]) + Kept(parts[1..])
  }

  /** `low` lies inside the directory `high`. */
  predicate Beneath(high: string, low: string) { high + "/" <= low }

  ghost predicate PrefixFree(paths: set<string>)
  {
    forall p, q :: p in paths && q in paths ==> !Beneath(p, q)
  }

  lemma {:induction false} KeptAll(parts: seq<string>)
    requires forall i :: 0 <= i < |parts| ==> parts[i] != "" && parts[i] != "."
    ensures Kept(parts) == parts
  {
    if parts != [] {
      KeptAll(parts[1..]);
    }
  }

  lemma BeneathIsAncestor(high: string, low: string)
    requires Normal(low) && Beneath(high, low)
    ensures exists n :: 0 < n < |Parts(low)| && Join(Parts(low)[..n], '/') == high
  {
    hide Split, Join;
    KeptAll(Split(low, '/'));
    var rest := low[|high| + 1..];
    var head := Split(high, '/');
    JoinSplit(high, '/');
    assert low == high + ['/'] + rest;
    SplitConcat(high, rest, '/');
    assert Parts(low)[..|head|] == head;
  }

  lemma AncestorIsBeneath(low: string, n: nat)
    requires Normal(low) && 0 < n < |Parts(low)|
    ensures Beneath(Join(Parts(low)[..n], '/'), low)
  {
    hide Split, Join;
    var parts := Split(low, '/');
    KeptAll(parts);
    JoinSplit(low, '/');
    JoinConcat(parts[..n], parts[n..], '/');
    assert parts == parts[..n] + parts[n..];
    var high := Join(parts[..n], '/');
    assert low == (high + "/") + Join(parts[n..], '/');
  }

  /** The proper ancestors a path's components spell are exactly the paths it lies beneath. */
  lemma AncestorsAreBeneath(high: string, low: string)
    requires Normal(low)
    ensures Beneath(high, low) <==> exists n :: 0 < n < |Parts(low)| && Join(Parts(low)[..n], '/') == high
  {
    hide Parts, Join, Beneath;
    if Beneath(high, low) {
      BeneathIsAncestor(high, low);
    }
    if n :| 0 < n < |Parts(low)| && Join(Parts(low)[..n], '/') == high {
      AncestorIsBeneath(low, n);
    }
  }

  // ---- staged changes ---------------------------------------------------------------------

  /** The paths of the tree a draft stands for: the base without deleted paths, and the staged files. */
  function Resulting(base: set<string>, changes: map<string, Change>): set<string>
  {
    set path | path in base + changes.Keys && (if path in changes then !changes[path].Deletion? else true)
  }

  datatype Failure = NotOpen | InvalidPath | TooLarge | InvalidIdentity | SizeConflict | Collision | Absent | NotAFile

  /** A draft is well formed: its tree is one, and it deletes only regular files of its base. */
  ghost predicate WellFormed(base: map<string, Entry>, changes: map<string, Change>)
  {
    && (forall path :: path in base ==> Normal(path))
    && (forall path :: path in changes ==> Normal(path) && ChangeOk(base, path, changes[path]))
    && PrefixFree(Resulting(base.Keys, changes))
  }

  predicate ChangeOk(base: map<string, Entry>, path: string, change: Change)
  {
    match change
    case Deletion => path in base && base[path].File?
    case LfsFile(oid, size) => ValidPath(path) && IsPointer(Pointer(oid, size)) && Basename(path) != ".gitattributes"
    case GitFile(blob) => blob.Blob?
  }

  /** `PurePosixPath(path).name` of a normal path. */
  function Basename(path: string): string
  {
    var parts := Split(path, '/');
    parts[|parts| - 1]
  }

  datatype Op = Upsert(path: string, change: Change) | Remove(path: string)

  /** One accepted or refused staging operation: a file may be staged where it collides with nothing, a file of the
      resulting tree may be removed, and removing a staged addition cancels it. */
  ghost function After(base: map<string, Entry>, changes: map<string, Change>, op: Op): map<string, Change>
  {
    match op
    case Upsert(path, change) =>
           if PrefixFree(Resulting(base.Keys, changes) + {path}) then changes[path := change] else changes
    case Remove(path) =>
      if path !in Resulting(base.Keys, changes) || (path in base && !base[path].File?) then changes
      else if path in base then changes[path := LfsWorld.Deletion]
      else changes - {path}
  }

  ghost function AfterAll(base: map<string, Entry>, changes: map<string, Change>, ops: seq<Op>): map<string, Change>
    decreases |ops|
  {
    if ops == [] then changes else AfterAll(base, After(base, changes, ops[0]), ops[1..])
  }

  predicate OpOk(base: map<string, Entry>, op: Op)
  {
    op.Upsert? ==> Normal(op.path) && !op.change.Deletion? && ChangeOk(base, op.path, op.change)
  }

  lemma AfterIsWellFormed(base: map<string, Entry>, changes: map<string, Change>, op: Op)
    requires WellFormed(base, changes) && OpOk(base, op)
    ensures WellFormed(base, After(base, changes, op))
  {
    hide Normal, Beneath;
    match op
    case Upsert(path, change) =>
           assert Resulting(base.Keys, changes[path := change]) == Resulting(base.Keys, changes) + {path};
    case Remove(path) =>
      assert Resulting(base.Keys, After(base, changes, op)) <= Resulting(base.Keys, changes);
  }

  /** Whatever operations are staged, in whatever order, no path of the draft's tree lies beneath another. */
  lemma {:induction false} DraftsStayTrees(base: map<string, Entry>, changes: map<string, Change>, ops: seq<Op>)
    requires WellFormed(base, changes) && forall i :: 0 <= i < |ops| ==> OpOk(base, ops[i])
    ensures WellFormed(base, AfterAll(base, changes, ops))
    ensures PrefixFree(Resulting(base.Keys, AfterAll(base, changes, ops)))
    decreases |ops|
  {
    hide OpOk, After;
    if ops != [] {
      AfterIsWellFormed(base, changes, ops[0]);
      DraftsStayTrees(base, After(base, changes, ops[0]), ops[1..]);
    }
  }

  /** The collision check over the whole tree refuses exactly the files that would lie beneath a file of the tree or
      have
      one beneath them; a path already in the tree is never refused. */
  lemma RefusedExactlyWhen(base: map<string, Entry>, changes: map<string, Change>, path: string)
    requires WellFormed(base, changes)
    ensures PrefixFree(Resulting(base.Keys, changes) + {path}) <==>
              forall q :: q in Resulting(base.Keys, changes) ==> !Beneath(q, path) && !Beneath(path, q)
    ensures path in Resulting(base.Keys, changes) ==> PrefixFree(Resulting(base.Keys, changes) + {path})
  {
    var paths := Resulting(base.Keys, changes);
    if forall q :: q in paths ==> !Beneath(q, path) && !Beneath(path, q) {
      assert !Beneath(path, path);
    } else {
      var q :| q in paths && (Beneath(q, path) || Beneath(path, q));
      assert q in paths + {path} && path in paths + {path};
    }
  }

  /** Staging a path neither in the base nor staged, then removing it, restores the change set. */
  lemma CancelRestores(base: map<string, Entry>, changes: map<string, Change>, path: string, change: Change)
    requires path !in base && path !in changes && !change.Deletion?
    ensures After(base, After(base, changes, Upsert(path, change)), Remove(path)) == changes
  {
  }

  lemma DiscardedIsWellFormed(base: map<string, Entry>, changes: map<string, Change>)
    requires WellFormed(base, changes) && PrefixFree(base.Keys)
    ensures WellFormed(base, map[])
  {
    hide Normal, Beneath;
    assert Resulting(base.Keys, map[]) == base.Keys;
  }

  class Stage {
    const base: map<string, Entry>
    const expiresAt: int
    var open: bool
    var changes: map<string, Change>
    /** The sizes of the dataset's object rows. */
    var sizes: map<string, nat>

    constructor (tree: map<string, Entry>, rows: map<string, nat>, expiry: int)
      requires (forall path :: path in tree ==> Normal(path)) && PrefixFree(tree.Keys)
      ensures base == tree && changes == map[] && sizes == rows && open && expiresAt == expiry && Valid()
    {
      base, changes, sizes, open, expiresAt := tree, map[], rows, true, expiry;
      assert Resulting(tree.Keys, map[]) == tree.Keys;
    }

    ghost predicate Valid()
      reads this
    {
      WellFormed(base, changes) && PrefixFree(base.Keys)
    }

    /** `_require_open_draft`. */
    predicate IsOpen(now: int)
      reads this
    {
      open && now < expiresAt
    }

    /** `discard_browser_draft`: an open draft gives up its changes for good; a closed one is left alone. */
    method Discard(now: int) returns (failure: Option<Failure>)
      requires Valid()
      modifies this`open, this`changes
      ensures Valid() && (failure.None? <==> old(IsOpen(now)))
      ensures failure.None? ==> changes == map[] && forall later :: !IsOpen(later)
      ensures failure.Some? ==> changes == old(changes) && open == old(open)
    {
      if !IsOpen(now) {
        return Some(NotOpen);
      }
      DiscardedIsWellFormed(base, changes);
      open, changes := false, map[];
      return None;
    }

    /** `_resulting_paths`. */
    method ResultingPaths() returns (paths: set<string>)
      ensures paths == Resulting(base.Keys, changes)
    {
      paths := base.Keys;
      var todo := changes.Keys;
      while todo != {}
        invariant todo <= changes.Keys
        invariant paths == Resulting(base.Keys, map path | path in changes && path !in todo :: changes[path])
        decreases todo
      {
        var path :| path in todo;
        if changes[path].Deletion? {
          paths := paths - {path};
        } else {
          paths := paths + {path};
        }
        todo := todo - {path};
      }
      assert changes == map path | path in changes && path !in todo :: changes[path];
    }

    /** `_validate_resulting_paths` for one staged file: every component prefix of every path is looked up. */
    method Collides(path: string) returns (found: bool)
      requires Valid() && Normal(path)
      ensures found <==> !PrefixFree(Resulting(base.Keys, changes) + {path})
    {
      var paths := ResultingPaths();
      paths := paths + {path};
      assert forall p :: p in paths ==> Normal(p);
      var todo := paths;
      while todo != {}
        invariant todo <= paths
        invariant forall p, q :: p in paths && q in paths && q !in todo ==> !Beneath(p, q)
        decreases todo
      {
        var candidate :| candidate in todo;
        var parts := Parts(candidate);
        KeptAll(Split(candidate, '/'));
        for index := 1 to |parts|
          invariant forall n :: 0 < n < index && n < |parts| ==> Join(parts[..n], '/') !in paths
        {
          if Join(parts[..index], '/') in paths {
            AncestorsAreBeneath(Join(parts[..index], '/'), candidate);
            return true;
          }
        }
        forall p | p in paths
          ensures !Beneath(p, candidate)
        {
          AncestorsAreBeneath(p, candidate);
        }
        todo := todo - {candidate};
      }
      return false;
    }

    /** `stage_git_blob`, once its stream is stored as `blob`. */
    method StageGit(path: string, content: string, now: int) returns (failure: Option<Failure>)
      requires Valid()
      modifies this`changes
      ensures Valid()
      ensures failure.None? <==> IsOpen(now) && ValidPath(path) && |content| <= MAX_GIT_BLOB_SIZE
                                 && PrefixFree(Resulting(base.Keys, old(changes)) + {path})
      ensures changes
           == if failure.None? then After(base, old(changes), Upsert(path, LfsWorld.GitFile(Blob(content))))
              else old(changes)
    {
      if !IsOpen(now) {
        return Some(NotOpen);
      }
      if !ValidPath(path) {
        return Some(InvalidPath);
      }
      if |content| > MAX_GIT_BLOB_SIZE {
        return Some(TooLarge);
      }
      var collides := Collides(path);
      if collides {
        return Some(Collision);
      }
      AfterIsWellFormed(base, changes, Upsert(path, LfsWorld.GitFile(Blob(content))));
      changes := changes[path := LfsWorld.GitFile(Blob(content))];
      return None;
    }

    /** `stage_lfs_object`; the object row it creates survives a refused size and any later change of the draft. */
    method StageLfs(path: string, oid: string, size: int, now: int) returns (failure: Option<Failure>)
      requires Valid()
      modifies this`changes, this`sizes
      ensures Valid()
      ensures failure.None? <==> IsOpen(now) && ValidPath(path) && Basename(path) != ".gitattributes" && size >= 0 && IsPointer(Pointer(oid, size))
                                 && PrefixFree(Resulting(base.Keys, old(changes)) + {path})
                                 && (oid in old(sizes) ==> old(sizes)[oid] == size)
      ensures changes
           == if failure.None? then After(base, old(changes), Upsert(path, LfsWorld.LfsFile(oid, size)))
              else old(changes)
      ensures sizes == if failure.None? && oid !in old(sizes) then old(sizes)[oid := size] else old(sizes)
    {
      if !IsOpen(now) {
        return Some(NotOpen);
      }
      if !ValidPath(path) {
        return Some(InvalidPath);
      }
      if Basename(path) == ".gitattributes" {
        return Some(InvalidPath);
      }
      if !IsOid(oid) || size < 0 || size >= 0x8000_0000_0000_0000 {
        return Some(InvalidIdentity);
      }
      var collides := Collides(path);
      if collides {
        return Some(Collision);
      }
      if oid !in sizes {
        sizes := sizes[oid := size];
      }
      if sizes[oid] != size {
        return Some(SizeConflict);
      }
      AfterIsWellFormed(base, changes, Upsert(path, LfsWorld.LfsFile(oid, size)));
      changes := changes[path := LfsWorld.LfsFile(oid, size)];
      return None;
    }

    /** `stage_delete`: a staged addition is cancelled, a base file marked deleted. */
    method StageDelete(path: string, now: int) returns (failure: Option<Failure>)
      requires Valid()
      modifies this`changes
      ensures Valid()
      ensures failure.None? <==> IsOpen(now) && ValidPath(path) && path in Resulting(base.Keys, old(changes)) && (path in base ==> base[path].File?)
      ensures failure.None? ==> Resulting(base.Keys, changes) == Resulting(base.Keys, old(changes)) - {path}
      ensures changes == if IsOpen(now) && ValidPath(path) then After(base, old(changes), Remove(path)) else old(changes)
    {
      if !IsOpen(now) {
        return Some(NotOpen);
      }
      if !ValidPath(path) {
        return Some(InvalidPath);
      }
      var current := ResultingPaths();
      if path !in current {
        return Some(Absent);
      }
      AfterIsWellFormed(base, changes, Remove(path));
      if path !in base {
        changes := changes - {path};
        return None;
      }
      if !base[path].File? {
        return Some(NotAFile);
      }
      changes := changes[path := LfsWorld.Deletion];
      return None;
    }
  }
}
