/** Resolving human-facing paths: what a path names, and why it names one thing. */
module PathResolution {
  import opened Text
  import opened Namespaces
  import opened DatasetPaths

  // ---- locators -------------------------------------------------------------------------------

  function StripSlashes(s: string): string
  {
    if s != "" && s[0] == '/' then StripSlashes(s[1..])
    else if s != "" && s[|s| - 1] == '/' then StripSlashes(s[..|s| - 1])
    else s
  }

  function NonEmpty(parts: seq<string>): (kept: seq<string>)
    ensures forall i :: 0 <= i < |kept| ==> kept[i] != "" && kept[i] in parts
  {
    if parts == [] then [] else (if parts[0] == "" then [] else [parts[0]]) + NonEmpty(parts[1..])
  }

  /** The components of a locator: slashes at its ends and doubled slashes do not matter. */
  function Pieces(path: string): (parts: seq<string>)
    ensures forall i :: 0 <= i < |parts| ==> parts[i] != "" && '/' !in parts[i]
  {
    NonEmpty(Split(StripSlashes(path), '/'))
  }

  predicate IsComponents(parts: seq<string>) { forall i :: 0 <= i < |parts| ==> parts[i] != "" && '/' !in parts[i] }

  lemma {:induction false} NothingEmpty(parts: seq<string>)
    requires forall i :: 0 <= i < |parts| ==> parts[i] != ""
    ensures NonEmpty(parts) == parts
  {
    if parts != [] {
      NothingEmpty(parts[1..]);
    }
  }

  lemma {:induction false} JoinEnds(parts: seq<string>)
    requires |parts| >= 1 && IsComponents(parts)
    ensures Join(parts, '/') != "" && Join(parts, '/')[0] != '/' && Join(parts, '/')[|Join(parts, '/')| - 1] != '/'
  {
    assert parts[0][0] in parts[0];
    if |parts| > 1 {
      JoinEnds(parts[1..]);
    } else {
      assert parts[0][|parts[0]| - 1] in parts[0];
    }
  }

  /** Joining components and taking them apart again gives them back. */
  lemma PiecesOfJoin(parts: seq<string>)
    requires |parts| >= 1 && IsComponents(parts)
    ensures Pieces(Join(parts, '/')) == parts
  {
    JoinEnds(parts);
    SplitJoin(parts, '/');
    NothingEmpty(parts);
  }

  // ---- what a path names --------------------------------------------------------------------------

  /** The namespace whose slug chain from its root is `parts`. */
  predicate Names(rows: Table, id: nat, parts: seq<string>)
    decreases |parts|
  {
    && parts != [] && id in rows && rows[id].slug == parts[|parts| - 1]
    && (if |parts| == 1 then rows[id].parent.None? else rows[id].parent.Some? && Names(rows, rows[id].parent.value, parts[..|parts| - 1]))
  }

  predicate NamesDataset(rows: Table, datasets: Datasets, d: nat, parts: seq<string>)
  {
    |parts| >= 2 && d in datasets && datasets[d].slug == parts[|parts| - 1]
    && Names(rows, datasets[d].namespace, parts[..|parts| - 1])
  }

  lemma {:induction false} NamesOne(rows: Table, datasets: Datasets, a: nat, b: nat, parts: seq<string>)
    requires Unambiguous(rows, datasets) && Names(rows, a, parts) && Names(rows, b, parts)
    ensures a == b
    decreases |parts|
  {
    if |parts| > 1 {
      NamesOne(rows, datasets, rows[a].parent.value, rows[b].parent.value, parts[..|parts| - 1]);
    }
  }

  lemma {:induction false} DatasetEndsThePath(rows: Table, datasets: Datasets, d: nat, id: nat, parts: seq<string>,
                                              k: nat)
    requires Unambiguous(rows, datasets) && k <= |parts| && NamesDataset(rows, datasets, d, parts[..k])
    ensures !Names(rows, id, parts)
    decreases |parts|
  {
    if Names(rows, id, parts) {
      var front := parts[..|parts| - 1];
      if k == |parts| {
        assert parts[..k] == parts;
        NamesOne(rows, datasets, datasets[d].namespace, rows[id].parent.value, front);
      } else {
        assert front[..k] == parts[..k];
        DatasetEndsThePath(rows, datasets, d, rows[id].parent.value, front, k);
      }
    }
  }

  /** At most one prefix of a path names a dataset, and it names one only. */
  lemma OnePrefixNamesADataset(rows: Table, datasets: Datasets, parts: seq<string>, c: nat, i: nat, d: nat, j: nat)
    requires Unambiguous(rows, datasets) && i <= |parts| && j <= |parts|
    requires NamesDataset(rows, datasets, c, parts[..i]) && NamesDataset(rows, datasets, d, parts[..j])
    ensures i == j && c == d
  {
    var short, long := if i <= j then i else j, if i <= j then j else i;
    var shorter, longer := if i <= j then c else d, if i <= j then d else c;
    var namespacePath := parts[..long][..long - 1];
    if short < long {
      assert namespacePath[..short] == parts[..short];
      DatasetEndsThePath(rows, datasets, shorter, datasets[longer].namespace, namespacePath, short);
    } else {
      NamesOne(rows, datasets, datasets[c].namespace, datasets[d].namespace, namespacePath);
    }
  }

  // ---- a row's own path ----------------------------------------------------------------------------

  /** `Namespace.path`; `depth` bounds the parent chain. */
  function PathOf(rows: Table, id: nat, depth: nat): string
    requires Rooted(rows, id, depth)
    decreases depth
  {
    if rows[id].parent.None? then rows[id].slug else PathOf(rows, rows[id].parent.value, depth - 1) + "/" + rows[id].slug
  }

  lemma {:induction false} PathNames(rows: Table, datasets: Datasets, id: nat, depth: nat) returns (parts: seq<string>)
    requires Slugged(rows, datasets) && Rooted(rows, id, depth)
    ensures Names(rows, id, parts) && IsComponents(parts) && PathOf(rows, id, depth) == Join(parts, '/')
    decreases depth
  {
    SlugIsComponent(rows[id].slug);
    if rows[id].parent.None? {
      parts := [rows[id].slug];
    } else {
      var front := PathNames(rows, datasets, rows[id].parent.value, depth - 1);
      parts := front + [rows[id].slug];
      assert parts[..|parts| - 1] == front;
      JoinConcat(front, [rows[id].slug], '/');
    }
  }

  lemma SlugIsComponent(slug: string)
    requires IsSlug(slug)
    ensures slug != "" && '/' !in slug
  {
    assert '/' !in "._-";
  }

  // ---- resolution --------------------------------------------------------------------------------------

  /** What a reader can be shown: datasets he may read whose deletion has not started. */
  predicate IsVisible(datasets: Datasets, readable: set<nat>, d: nat) { d in datasets && !datasets[d].deleting && d in readable }

  ghost predicate Resolves(rows: Table, datasets: Datasets, readable: set<nat>, path: string, d: nat)
  {
    NamesDataset(rows, datasets, d, Pieces(path)) && IsVisible(datasets, readable, d)
  }

  /** A visible dataset's own path resolves back to it and to nothing else. */
  lemma PathResolvesBack(rows: Table, datasets: Datasets, readable: set<nat>, d: nat, depth: nat)
    requires Sound(rows, datasets) && IsVisible(datasets, readable, d) && Rooted(rows, datasets[d].namespace, depth)
    ensures var path := PathOf(rows, datasets[d].namespace, depth) + "/" + datasets[d].slug;
            forall other :: Resolves(rows, datasets, readable, path, other) <==> other == d
  {
    hide Unambiguous, Forest, Shaped, Pieces, Join;
    var front := PathNames(rows, datasets, datasets[d].namespace, depth);
    SlugIsComponent(datasets[d].slug);
    var parts := front + [datasets[d].slug];
    JoinConcat(front, [datasets[d].slug], '/');
    JoinOne(datasets[d].slug, '/');
    PiecesOfJoin(parts);
    assert parts[..|parts| - 1] == front;
    forall other | Resolves(rows, datasets, readable, Join(parts, '/'), other)
      ensures other == d
    {
      assert parts[..|parts|] == parts;
      OnePrefixNamesADataset(rows, datasets, parts, d, |parts|, other, |parts|);
    }
  }

  /** The namespace with this parent and slug. */
  method FindChild(rows: Table, parent: Option<nat>, slug: string) returns (found: Option<nat>)
    ensures found.Some? ==> found.value in rows && rows[found.value].parent == parent && rows[found.value].slug == slug
    ensures found.None? ==> forall a :: a in rows ==> rows[a].parent != parent || rows[a].slug != slug
  {
    var todo := rows.Keys;
    while todo != {}
      invariant todo <= rows.Keys
      invariant forall a :: a in rows && a !in todo ==> rows[a].parent != parent || rows[a].slug != slug
      decreases todo
    {
      var a :| a in todo;
      if rows[a].parent == parent && rows[a].slug == slug {
        return Some(a);
      }
      todo := todo - {a};
    }
    return None;
  }

  /** The namespace walk shared by both path lookups. */
  method ResolveNamespace(rows: Table, ghost datasets: Datasets, parts: seq<string>) returns (found: Option<nat>)
    requires Unambiguous(rows, datasets) && parts != []
    ensures found.Some? ==> Names(rows, found.value, parts)
    ensures found.None? ==> forall id :: !Names(rows, id, parts)
  {
    found := FindChild(rows, None, parts[0]);
    assert parts[..1] == [parts[0]];
    for n := 1 to |parts|
      invariant found.Some? ==> Names(rows, found.value, parts[..n])
      invariant found.None? ==> forall id :: !Names(rows, id, parts[..n])
    {
      assert parts[..n + 1][..n] == parts[..n];
      if found.None? {
        NamesNone(rows, parts[..n], parts[..n + 1]);
      } else {
        var namespace := found.value;
        found := FindChild(rows, Some(namespace), parts[n]);
        if found.None? {
          NoSuchChild(rows, datasets, namespace, parts[..n], parts[..n + 1]);
        }
      }
    }
    assert parts[..|parts|] == parts;
  }

  lemma NamesNone(rows: Table, front: seq<string>, parts: seq<string>)
    requires |parts| >= 2 && front == parts[..|parts| - 1] && forall id :: !Names(rows, id, front)
    ensures forall id :: !Names(rows, id, parts)
  {
  }

  lemma NoSuchChild(rows: Table, datasets: Datasets, namespace: nat, front: seq<string>, parts: seq<string>)
    requires Unambiguous(rows, datasets) && |parts| >= 2 && front == parts[..|parts| - 1]
    requires Names(rows, namespace, front)
    requires forall a :: a in rows ==> rows[a].parent != Some(namespace) || rows[a].slug != parts[|parts| - 1]
    ensures forall id :: !Names(rows, id, parts)
  {
    forall id: nat
      ensures !Names(rows, id, parts)
    {
      if Names(rows, id, parts) {
        NamesOne(rows, datasets, namespace, rows[id].parent.value, front);
      }
    }
  }

  /** The dataset with this namespace and slug whose deletion has not started. */
  method FindDataset(datasets: Datasets, namespace: nat, slug: string) returns (found: Option<nat>)
    ensures found.Some? ==> found.value in datasets && !datasets[found.value].deleting && datasets[found.value].namespace == namespace && datasets[found.value].slug == slug
    ensures found.None? ==> forall d :: d in datasets && !datasets[d].deleting ==>
              datasets[d].namespace != namespace || datasets[d].slug != slug
  {
    var todo := datasets.Keys;
    while todo != {}
      invariant todo <= datasets.Keys
      invariant forall d ::
                  d in datasets && !datasets[d].deleting && d !in todo ==>
                    datasets[d].namespace != namespace || datasets[d].slug != slug
      decreases todo
    {
      var d :| d in todo;
      if !datasets[d].deleting && datasets[d].namespace == namespace && datasets[d].slug == slug {
        return Some(d);
      }
      todo := todo - {d};
    }
    return None;
  }

  /** `get_visible_dataset_by_path`. */
  method ResolveDataset(rows: Table, datasets: Datasets, readable: set<nat>, path: string) returns (found: Option<nat>)
    requires Unambiguous(rows, datasets)
    ensures forall d: nat :: found == Some(d) <==> Resolves(rows, datasets, readable, path, d)
  {
    hide Unambiguous, Names;
    var parts := Pieces(path);
    if |parts| < 2 {
      return None;
    }
    var namespace := ResolveNamespace(rows, datasets, parts[..|parts| - 1]);
    if namespace.None? {
      return None;
    }
    var dataset := FindDataset(datasets, namespace.value, parts[|parts| - 1]);
    forall d: nat | Resolves(rows, datasets, readable, path, d)
      ensures dataset == Some(d)
    {
      NamesOne(rows, datasets, namespace.value, datasets[d].namespace, parts[..|parts| - 1]);
      if dataset.Some? {
        assert parts[..|parts|] == parts;
        OnePrefixNamesADataset(rows, datasets, parts, d, |parts|, dataset.value, |parts|);
      }
    }
    if dataset.None? || dataset.value !in readable {
      return None;
    }
    return dataset;
  }

  /** A visible dataset that the first `k` components name. */
  ghost predicate Answers(rows: Table, datasets: Datasets, readable: set<nat>, parts: seq<string>, k: nat, d: nat)
  {
    0 < k <= |parts| && NamesDataset(rows, datasets, d, parts[..k]) && IsVisible(datasets, readable, d)
  }

  /** The first `k` components and the rest rebuild the normalized locator. */
  ghost predicate Rebuilds(parts: seq<string>, k: nat, rest: string)
  {
    k <= |parts| && rest == Join(parts[k..], '/')
    && Join(parts, '/') == Join(parts[..k], '/') + if k == |parts| then "" else "/" + rest
  }

  /** `resolve_visible_dataset_path`: it searches the longest prefix first, but there is only one to find. */
  method ResolveLocator(rows: Table, datasets: Datasets, readable: set<nat>, locator: string)
    returns (found: Option<(nat, string)>)
    requires Unambiguous(rows, datasets)
    ensures found.None? ==> forall k: nat, d: nat :: !Answers(rows, datasets, readable, Pieces(locator), k, d)
    ensures found.Some? ==> exists k: nat :: Answers(rows, datasets, readable, Pieces(locator), k, found.value.0) && Rebuilds(Pieces(locator), k, found.value.1)
  {
    hide Unambiguous, Names, Join, IsVisible, Pieces;
    var parts := Pieces(locator);
    var n := |parts|;
    while n > 1
      invariant n <= |parts|
      invariant forall k: nat, d: nat :: n < k ==> !Answers(rows, datasets, readable, parts, k, d)
    {
      var dataset := ResolveDataset(rows, datasets, readable, Join(parts[..n], '/'));
      PiecesOfJoin(parts[..n]);
      if dataset.Some? {
        SplitRebuilds(parts, n);
        assert Answers(rows, datasets, readable, parts, n, dataset.value);
        return Some((dataset.value, Join(parts[n..], '/')));
      }
      forall d: nat
        ensures !Answers(rows, datasets, readable, parts, n, d)
      {
        assert Answers(rows, datasets, readable, parts, n, d) ==>
                 Resolves(rows, datasets, readable, Join(parts[..n], '/'), d);
      }
      n := n - 1;
    }
    return None;
  }

  lemma SplitRebuilds(parts: seq<string>, n: nat)
    requires 1 <= n <= |parts|
    ensures Rebuilds(parts, n, Join(parts[n..], '/'))
  {
    JoinConcat(parts[..n], parts[n..], '/');
    assert parts == parts[..n] + parts[n..];
  }
}
