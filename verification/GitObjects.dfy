/** Git objects as immutable values. An object identifier stands for the object itself, so equal identifiers
    mean equal content and no object can reach itself: the commit graph is acyclic by construction. */
module GitObjects {
  import opened Text
  import opened Pointer

  datatype GitObject =
    | Blob(content: string)
    | Tree(names: seq<string>, entries: seq<GitObject>)
    | Commit(tree: GitObject, parents: seq<GitObject>, message: string)
    | Tag(target: GitObject, message: string)

  /** The objects one object names directly. */
  function Links(o: GitObject): (links: seq<GitObject>)
    ensures forall i :: 0 <= i < |links| ==> links[i] < o
  {
    match o
    case Blob(_) => []
    case Tree(_, entries) => entries
    case Commit(tree, parents, _) => [tree] + parents
    case Tag(target, _) => [target]
  }

  /** `target` is listed by `git rev-list --objects from`. */
  predicate Reaches(from: GitObject, target: GitObject)
    decreases from
  {
    from == target || exists i :: 0 <= i < |Links(from)| && Reaches(Links(from)[i], target)
  }

  /** `git merge-base --is-ancestor ancestor commit`. */
  predicate IsAncestor(ancestor: GitObject, commit: GitObject)
    decreases commit
  {
    ancestor == commit || (commit.Commit? && exists i ::
      0 <= i < |commit.parents| && IsAncestor(ancestor, commit.parents[i]))
  }

  lemma {:induction false} ReachesTransitive(a: GitObject, b: GitObject, c: GitObject)
    requires Reaches(a, b) && Reaches(b, c)
    ensures Reaches(a, c)
    decreases a
  {
    if a != b {
      var i :| 0 <= i < |Links(a)| && Reaches(Links(a)[i], b);
      ReachesTransitive(Links(a)[i], b, c);
    }
  }

  lemma {:induction false} AncestorTransitive(a: GitObject, b: GitObject, c: GitObject)
    requires IsAncestor(a, b) && IsAncestor(b, c)
    ensures IsAncestor(a, c)
    decreases c
  {
    if b != c {
      var i :| 0 <= i < |c.parents| && IsAncestor(b, c.parents[i]);
      AncestorTransitive(a, b, c.parents[i]);
    }
  }

  lemma {:induction false} AncestorIsReachable(ancestor: GitObject, commit: GitObject)
    requires IsAncestor(ancestor, commit)
    ensures Reaches(commit, ancestor)
    decreases commit
  {
    if ancestor != commit {
      var i :| 0 <= i < |commit.parents| && IsAncestor(ancestor, commit.parents[i]);
      AncestorIsReachable(ancestor, commit.parents[i]);
      assert Links(commit)[i + 1] == commit.parents[i];
    }
  }

  lemma LinkIsReachable(o: GitObject, i: nat)
    requires i < |Links(o)|
    ensures Reaches(o, Links(o)[i])
  {
  }

  /** Two commits that are each other's ancestors are the same commit. */
  lemma {:induction false} AncestorAntisymmetric(a: GitObject, b: GitObject)
    requires IsAncestor(a, b) && IsAncestor(b, a)
    ensures a == b
  {
    if a != b {
      AncestorIsSmaller(a, b);
      AncestorIsSmaller(b, a);
    }
  }

  function Height(o: GitObject): nat
  {
    match o
    case Blob(_) => 0
    case Tree(_, entries) => 1 + MaxHeight(entries)
    case Commit(tree, parents, _) => 1 + Height(tree) + MaxHeight(parents)
    case Tag(target, _) => 1 + Height(target)
  }

  function MaxHeight(objects: seq<GitObject>): (h: nat)
    ensures forall i :: 0 <= i < |objects| ==> Height(objects[i]) <= h
  {
    if objects == [] then 0
    else
      var rest := MaxHeight(objects[1..]);
      if Height(objects[0]) > rest then Height(objects[0]) else rest
  }

  lemma {:induction false} AncestorIsSmaller(a: GitObject, b: GitObject)
    requires IsAncestor(a, b) && a != b
    ensures Height(a) < Height(b)
    decreases b
  {
    var i :| 0 <= i < |b.parents| && IsAncestor(a, b.parents[i]);
    if a != b.parents[i] {
      AncestorIsSmaller(a, b.parents[i]);
    }
  }

  /** The pointer a blob holds, if it is small enough and canonical. */
  function PointerOf(o: GitObject): Option<Pointer>
  {
    if o.Blob? then Parse(o.content) else None
  }

  ghost predicate Holds(from: GitObject, p: Pointer)
  {
    exists o :: Reaches(from, o) && PointerOf(o) == Some(p)
  }

  predicate IsBranch(ref: string) { "refs/heads/" <= ref }

  predicate IsTag(ref: string) { "refs/tags/" <= ref }

  lemma BranchIsNotTag(ref: string)
    ensures !(IsBranch(ref) && IsTag(ref))
  {
    assert IsBranch(ref) ==> ref[5] == 'h';
    assert IsTag(ref) ==> ref[5] == 't';
  }

  type Refs = map<string, GitObject>

  /** The value a ref must have for a compare-and-swap with this expectation to succeed. */
  predicate RefIs(refs: Refs, ref: string, expected: Option<GitObject>)
  {
    match expected
    case None => ref !in refs
    case Some(value) => ref in refs && refs[ref] == value
  }

  function WithRef(refs: Refs, ref: string, value: Option<GitObject>): Refs
  {
    match value
    case None => refs - {ref}
    case Some(v) => refs[ref := v]
  }

  /** Some ref reaches `o`. */
  ghost predicate Known(refs: Refs, o: GitObject)
  {
    exists ref :: ref in refs && Reaches(refs[ref], o)
  }

  /** Some ref reaches a blob holding `p`. */
  ghost predicate Reachable(refs: Refs, p: Pointer)
  {
    exists ref :: ref in refs && Holds(refs[ref], p)
  }
}
