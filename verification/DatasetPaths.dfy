/** Group and dataset rows: unique path components, direct owners, and the resolution of human-facing paths. */
module DatasetPaths {
  import opened Text
  import Pointer
  import opened Namespaces

  datatype Dataset = Dataset(namespace: nat, slug: string, deleting: bool)

  type Datasets = map<nat, Dataset>

  predicate IsAlphanumeric(c: char) { 'a' <= c <= 'z' || 'A' <= c <= 'Z' || '0' <= c <= '9' }

  /** `path_slug_validator`. */
  predicate IsSlug(slug: string)
  {
    && slug != "" && |slug| <= 100 && IsAlphanumeric(slug[0]) && IsAlphanumeric(slug[|slug| - 1])
    && forall i :: 0 <= i < |slug| ==> IsAlphanumeric(slug[i]) || slug[i] in "._-"
  }

  /** `normalize_path_slug`, on ASCII text. */
  function NormalizeSlug(text: string): string { Lowered(Pointer.Strip(text)) }

  function Lowered(s: string): string
  {
    seq(|s|, i requires 0 <= i < |s| => if 'A' <= s[i] <= 'Z' then s[i] + ('a' - 'A') else s[i])
  }

  // ---- invariants -----------------------------------------------------------------------------

  /** Siblings differ: groups from groups, datasets from datasets, and each from the other. */
  ghost predicate Unambiguous(rows: Table, datasets: Datasets)
  {
    && (forall a, b ::
         a in rows && b in rows && a != b && rows[a].parent == rows[b].parent ==> rows[a].slug != rows[b].slug)
    && (forall a, b ::
         a in datasets && b in datasets && a != b && datasets[a].namespace == datasets[b].namespace ==>
           datasets[a].slug != datasets[b].slug)
    && (forall a, b ::
         a in rows && b in datasets && rows[a].parent == Some(datasets[b].namespace) ==>
           rows[a].slug != datasets[b].slug)
  }

  ghost predicate Slugged(rows: Table, datasets: Datasets)
  {
    && (forall a :: a in rows ==> IsSlug(rows[a].slug))
    && (forall d :: d in datasets ==> IsSlug(datasets[d].slug) && datasets[d].namespace in rows)
  }

  /** Every group has a direct owner. */
  ghost predicate Owned(rows: Table, members: Members)
  {
    && (forall g :: g in rows && rows[g].kind.Group? ==> exists u :: IsOwner(members, g, u))
    && (forall k :: k in members ==> k.0 in rows && rows[k.0].kind.Group?)
  }

  predicate IsOwner(members: Members, group: nat, user: nat) { (group, user) in members && members[(group, user)] == OWNER }

  ghost predicate Sound(rows: Table, datasets: Datasets)
  {
    Shaped(rows) && Forest(rows) && Slugged(rows, datasets) && Unambiguous(rows, datasets)
  }

  /** A membership with its new role or, without one, removed. */
  function Changed(members: Members, group: nat, user: nat, role: Option<nat>): Members
  {
    if role.Some? then members[(group, user) := role.value] else members - {(group, user)}
  }

  /** Somebody else owns the group directly. */
  ghost predicate MayStepDown(members: Members, group: nat, user: nat) { exists u: nat ::
    u != user && IsOwner(members, group, u) }

  /** The check of a role change or removal. */
  ghost predicate MayChange(members: Members, group: nat, user: nat, role: Option<nat>)
  {
    role == Some(OWNER) || !IsOwner(members, group, user) || MayStepDown(members, group, user)
  }

  datatype Failure = NotFound | Denied | Conflict | Invalid | NotEmpty | LastOwner

  /** What a group's slug must not meet under a parent: another group, or a dataset of that parent. */
  ghost predicate GroupSlugFree(rows: Table, datasets: Datasets, self: Option<nat>, parent: Option<nat>, slug: string)
  {
    && (forall a :: a in rows && Some(a) != self && rows[a].parent == parent ==> rows[a].slug != slug)
    && (forall d :: d in datasets && Some(datasets[d].namespace) == parent ==> datasets[d].slug != slug)
  }

  ghost predicate DatasetSlugFree(rows: Table, datasets: Datasets, self: Option<nat>, namespace: nat, slug: string)
  {
    && (forall a :: a in rows && rows[a].parent == Some(namespace) ==> rows[a].slug != slug)
    && (forall d :: d in datasets && Some(d) != self && datasets[d].namespace == namespace ==> datasets[d].slug != slug)
  }

  // ---- operations --------------------------------------------------------------------------------

  class Catalog {
    var rows: Table
    var datasets: Datasets
    var members: Members

    ghost predicate Valid()
      reads this
    {
      Sound(rows, datasets) && Owned(rows, members)
    }

    constructor ()
      ensures Valid() && rows == map[] && datasets == map[] && members == map[]
    {
      rows, datasets, members := map[], map[], map[];
    }

    /** Whether a namespace other than `self` has this parent and slug. */
    method HasChild(parent: Option<nat>, slug: string, self: Option<nat>) returns (found: bool)
      ensures found <==> exists a :: a in rows && Some(a) != self && rows[a].parent == parent && rows[a].slug == slug
    {
      var todo := rows.Keys;
      while todo != {}
        invariant todo <= rows.Keys
        invariant forall a ::
                    a in rows && Some(a) != self && rows[a].parent == parent && rows[a].slug == slug ==> a in todo
        decreases todo
      {
        var a :| a in todo;
        if Some(a) != self && rows[a].parent == parent && rows[a].slug == slug {
          return true;
        }
        todo := todo - {a};
      }
      return false;
    }

    /** Whether a dataset other than `self` has this namespace and slug. */
    method HasDataset(namespace: nat, slug: string, self: Option<nat>) returns (found: bool)
      ensures found <==> exists d ::
                d in datasets && Some(d) != self && datasets[d].namespace == namespace && datasets[d].slug == slug
    {
      var todo := datasets.Keys;
      while todo != {}
        invariant todo <= datasets.Keys
        invariant forall d :: d in datasets && Some(d) != self && datasets[d].namespace == namespace && datasets[d].slug == slug ==> d in todo
        decreases todo
      {
        var d :| d in todo;
        if Some(d) != self && datasets[d].namespace == namespace && datasets[d].slug == slug {
          return true;
        }
        todo := todo - {d};
      }
      return false;
    }

    /** The conflict check for a group's path component. */
    method GroupConflict(self: Option<nat>, parent: Option<nat>, slug: string) returns (conflict: bool)
      ensures conflict <==> !GroupSlugFree(rows, datasets, self, parent, slug)
    {
      var sibling := HasChild(parent, slug, self);
      var dataset := false;
      if parent.Some? {
        dataset := HasDataset(parent.value, slug, None);
      }
      return sibling || dataset;
    }

    /** The conflict check for a dataset's path component. */
    method DatasetConflict(self: Option<nat>, namespace: nat, slug: string) returns (conflict: bool)
      ensures conflict <==> !DatasetSlugFree(rows, datasets, self, namespace, slug)
    {
      var child := HasChild(Some(namespace), slug, None);
      var dataset := HasDataset(namespace, slug, self);
      return child || dataset;
    }

    /** `create_group`; `id` is the fresh primary key. */
    method CreateGroup(id: nat, slug: string, user: nat, parent: Option<nat>, authorized: bool)
      returns (failure: Option<Failure>)
      requires Valid() && id !in rows
      modifies this
      ensures Valid() && datasets == old(datasets)
      ensures failure.None? <==>
                authorized && (parent.Some? ==> parent.value in old(rows) && old(rows)[parent.value].kind.Group?)
                                 && GroupSlugFree(old(rows), old(datasets), None, parent, NormalizeSlug(slug))
                                 && IsSlug(NormalizeSlug(slug))
      ensures rows
           == if failure.None? then old(rows)[id := Namespace(Group, NormalizeSlug(slug), parent, None)] else old(rows)
      ensures members == if failure.None? then old(members)[(id, user) := OWNER] else old(members)
    {
      hide Sound, Owned, GroupSlugFree, DatasetSlugFree, IsSlug, NormalizeSlug;
      var normalized := NormalizeSlug(slug);
      if parent.Some? && parent.value !in rows {
        return Some(NotFound);
      }
      if !authorized {
        return Some(Denied);
      }
      var conflict := GroupConflict(None, parent, normalized);
      if conflict {
        return Some(Conflict);
      }
      if !IsSlug(normalized) || (parent.Some? && rows[parent.value].kind.Personal?) {
        return Some(Invalid);
      }
      var row := Namespace(Group, normalized, parent, None);
      CreatedGroupIsSound(rows, datasets, id, row);
      OwnersKept(rows, members, id, row, user);
      rows := rows[id := row];
      members := members[(id, user) := OWNER];
      return None;
    }

    /** `update_group`, its path component. */
    method UpdateGroup(id: nat, slug: string, authorized: bool) returns (failure: Option<Failure>)
      requires Valid()
      modifies this`rows
      ensures Valid()
      ensures failure.None? <==> id in old(rows) && old(rows)[id].kind.Group? && authorized
                                 && GroupSlugFree(old(rows), datasets, Some(id), old(rows)[id].parent, NormalizeSlug(slug)) && IsSlug(NormalizeSlug(slug))
      ensures rows == if failure.None? then old(rows)[id := old(rows)[id].(slug := NormalizeSlug(slug))] else old(rows)
    {
      hide Sound, Owned, GroupSlugFree, DatasetSlugFree, IsSlug, NormalizeSlug;
      if id !in rows || !rows[id].kind.Group? {
        return Some(NotFound);
      }
      if !authorized {
        return Some(Denied);
      }
      var normalized := NormalizeSlug(slug);
      var conflict := GroupConflict(Some(id), rows[id].parent, normalized);
      if conflict {
        return Some(Conflict);
      }
      if !IsSlug(normalized) {
        return Some(Invalid);
      }
      RenamedGroupIsSound(rows, datasets, id, normalized);
      OwnersRenamed(rows, members, id, normalized);
      rows := rows[id := rows[id].(slug := normalized)];
      return None;
    }

    /** `delete_group`: only without child groups and datasets. */
    method DeleteGroup(id: nat, authorized: bool) returns (failure: Option<Failure>)
      requires Valid()
      modifies this`rows, this`members
      ensures Valid()
      ensures failure.None? <==> id in old(rows) && old(rows)[id].kind.Group? && authorized
                                 && (forall a :: a in old(rows) ==> old(rows)[a].parent != Some(id)) && (forall d ::
                                      d in datasets ==> datasets[d].namespace != id)
      ensures rows == if failure.None? then old(rows) - {id} else old(rows)
      ensures failure.Some? ==> members == old(members)
    {
      hide Sound, Owned, GroupSlugFree, DatasetSlugFree, IsSlug, NormalizeSlug;
      if id !in rows || !rows[id].kind.Group? {
        return Some(NotFound);
      }
      if !authorized {
        return Some(Denied);
      }
      if (exists a :: a in rows && rows[a].parent == Some(id)) || (exists d ::
        d in datasets && datasets[d].namespace == id) {
        return Some(NotEmpty);
      }
      RemovedGroupIsSound(rows, datasets, id);
      OwnersRemoved(rows, members, id);
      rows := rows - {id};
      members := map k | k in members && k.0 != id :: members[k];
      return None;
    }

    /** `create_dataset`, its row. */
    method CreateDataset(id: nat, namespace: nat, slug: string, authorized: bool) returns (failure: Option<Failure>)
      requires Valid() && id !in datasets
      modifies this`datasets
      ensures Valid()
      ensures failure.None? <==> namespace in rows && authorized && DatasetSlugFree(rows, old(datasets), None, namespace, NormalizeSlug(slug)) && IsSlug(NormalizeSlug(slug))
      ensures datasets
           == if failure.None? then old(datasets)[id := Dataset(namespace, NormalizeSlug(slug), false)]
              else old(datasets)
    {
      hide Sound, Owned, GroupSlugFree, DatasetSlugFree, IsSlug, NormalizeSlug;
      var normalized := NormalizeSlug(slug);
      if namespace !in rows {
        return Some(NotFound);
      }
      if !authorized {
        return Some(Denied);
      }
      var conflict := DatasetConflict(None, namespace, normalized);
      if conflict {
        return Some(Conflict);
      }
      if !IsSlug(normalized) {
        return Some(Invalid);
      }
      SavedDatasetIsSound(rows, datasets, id, Dataset(namespace, normalized, false));
      datasets := datasets[id := Dataset(namespace, normalized, false)];
      return None;
    }

    /** `update_dataset`, its path component. */
    method UpdateDataset(id: nat, slug: string, authorized: bool) returns (failure: Option<Failure>)
      requires Valid()
      modifies this`datasets
      ensures Valid()
      ensures failure.None? <==> id in old(datasets) && !old(datasets)[id].deleting && authorized
                                 && DatasetSlugFree(rows, old(datasets), Some(id), old(datasets)[id].namespace, NormalizeSlug(slug)) && IsSlug(NormalizeSlug(slug))
      ensures datasets
           == if failure.None? then old(datasets)[id := old(datasets)[id].(slug := NormalizeSlug(slug))]
              else old(datasets)
    {
      hide Sound, Owned, GroupSlugFree, DatasetSlugFree, IsSlug, NormalizeSlug;
      if id !in datasets {
        return Some(NotFound);
      }
      if datasets[id].deleting || !authorized {
        return Some(Denied);
      }
      var normalized := NormalizeSlug(slug);
      var namespace := datasets[id].namespace;
      var conflict := DatasetConflict(Some(id), namespace, normalized);
      if conflict {
        return Some(Conflict);
      }
      if !IsSlug(normalized) {
        return Some(Invalid);
      }
      NamespaceExists(rows, datasets, id);
      SavedDatasetIsSound(rows, datasets, id, datasets[id].(slug := normalized));
      datasets := datasets[id := datasets[id].(slug := normalized)];
      return None;
    }

    /** Whether somebody else owns the group directly. */
    method HasOtherOwner(group: nat, user: nat) returns (found: bool)
      ensures found <==> exists u :: u != user && IsOwner(members, group, u)
    {
      var todo := members.Keys;
      while todo != {}
        invariant todo <= members.Keys
        invariant forall u :: u != user && IsOwner(members, group, u) ==> (group, u) in todo
        decreases todo
      {
        var k :| k in todo;
        if k.0 == group && k.1 != user && members[k] == OWNER {
          assert IsOwner(members, group, k.1);
          return true;
        }
        todo := todo - {k};
      }
      return false;
    }

    /** `update_group_membership` and, without a role, `delete_group_membership`: refused when no direct owner would
        remain. */
    method ChangeMember(group: nat, user: nat, role: Option<nat>, authorized: bool) returns (failure: Option<Failure>)
      requires Valid()
      modifies this`members
      ensures Valid()
      ensures failure.None? <==>
                (group, user) in old(members) && authorized && MayChange(old(members), group, user, role)
      ensures members == if failure.Some? then old(members) else Changed(old(members), group, user, role)
    {
      hide Sound, Owned;
      if (group, user) !in members {
        return Some(NotFound);
      }
      if !authorized {
        return Some(Denied);
      }
      ghost var owner := SomeOwner(rows, members, group, user);
      if members[(group, user)] == OWNER && role != Some(OWNER) {
        var other := HasOtherOwner(group, user);
        if !other {
          return Some(LastOwner);
        }
        owner :| owner != user && IsOwner(members, group, owner);
      } else if role == Some(OWNER) {
        owner := user;
      }
      ghost var before := members;
      members := if role.Some? then members[(group, user) := role.value] else members - {(group, user)};
      assert IsOwner(members, group, owner);
      OwnersChanged(rows, before, members, group, owner);
      return None;
    }

    /** `create_group_membership`. */
    method AddMember(group: nat, user: nat, role: nat, authorized: bool) returns (failure: Option<Failure>)
      requires Valid()
      modifies this`members
      ensures Valid()
      ensures failure.None? <==>
                group in rows && rows[group].kind.Group? && authorized && (group, user) !in old(members)
      ensures members == if failure.None? then old(members)[(group, user) := role] else old(members)
    {
      hide Sound;
      if group !in rows || !rows[group].kind.Group? {
        return Some(NotFound);
      }
      if !authorized {
        return Some(Denied);
      }
      if (group, user) in members {
        return Some(Conflict);
      }
      OwnersGrow(rows, members, group, user, role);
      members := members[(group, user) := role];
      return None;
    }
  }

  // ---- what each operation keeps ---------------------------------------------------------------------

  lemma SavedGroupIsUnambiguous(rows: Table, datasets: Datasets, id: nat, row: Namespace)
    requires Slugged(rows, datasets) && Unambiguous(rows, datasets) && IsSlug(row.slug)
    requires GroupSlugFree(rows, datasets, Some(id), row.parent, row.slug)
    ensures Slugged(rows[id := row], datasets) && Unambiguous(rows[id := row], datasets)
  {
    hide IsSlug;
  }

  lemma CreatedGroupIsSound(rows: Table, datasets: Datasets, id: nat, row: Namespace)
    requires Sound(rows, datasets) && id !in rows && IsSlug(row.slug) && row.kind.Group? && row.owner.None?
    requires row.parent.Some? ==> row.parent.value in rows && rows[row.parent.value].kind.Group?
    requires GroupSlugFree(rows, datasets, None, row.parent, row.slug)
    ensures Sound(rows[id := row], datasets)
  {
    hide IsSlug, Forest, Slugged, Unambiguous;
    NewRowKeepsForest(rows, id, row);
    SavedGroupIsUnambiguous(rows, datasets, id, row);
  }

  lemma RenamedGroupIsSound(rows: Table, datasets: Datasets, id: nat, slug: string)
    requires Sound(rows, datasets) && id in rows && IsSlug(slug)
    requires GroupSlugFree(rows, datasets, Some(id), rows[id].parent, slug)
    ensures Sound(rows[id := rows[id].(slug := slug)], datasets)
  {
    hide IsSlug, Forest, Slugged, Unambiguous;
    RenameKeepsForest(rows, id, slug);
    SavedGroupIsUnambiguous(rows, datasets, id, rows[id].(slug := slug));
  }

  lemma RemovedGroupIsSound(rows: Table, datasets: Datasets, id: nat)
    requires Sound(rows, datasets) && (forall a :: a in rows ==> rows[a].parent != Some(id)) && forall d ::
               d in datasets ==> datasets[d].namespace != id
    ensures Sound(rows - {id}, datasets)
  {
    hide IsSlug, Forest;
    RemovalKeepsForest(rows, id);
  }

  lemma SavedDatasetIsSound(rows: Table, datasets: Datasets, id: nat, dataset: Dataset)
    requires Sound(rows, datasets) && dataset.namespace in rows && IsSlug(dataset.slug)
    requires DatasetSlugFree(rows, datasets, Some(id), dataset.namespace, dataset.slug) || (id !in datasets && DatasetSlugFree(rows, datasets, None, dataset.namespace, dataset.slug))
    ensures Sound(rows, datasets[id := dataset])
  {
    hide IsSlug, Forest, Shaped;
  }

  lemma NamespaceExists(rows: Table, datasets: Datasets, id: nat)
    requires Sound(rows, datasets) && id in datasets
    ensures datasets[id].namespace in rows
  {
  }

  // ---- keeping the forest and the owners ----------------------------------------------------------

  lemma NewRowKeepsForest(rows: Table, id: nat, row: Namespace)
    requires Forest(rows) && Shaped(rows) && id !in rows && (row.parent.Some? ==> row.parent.value in rows)
    ensures Forest(rows[id := row])
  {
    SavingKeepsForest(rows, id, row);
    if row.parent.Some? {
      if n: nat :| Above(rows, id, row.parent.value, n) {
        var depth: nat :| Rooted(rows, row.parent.value, depth);
        RootedAbove(rows, id, row.parent.value, n, depth);
      }
    }
  }

  lemma RenameKeepsForest(rows: Table, id: nat, slug: string)
    requires Forest(rows) && Shaped(rows) && id in rows
    ensures Forest(rows[id := rows[id].(slug := slug)])
  {
    SavingKeepsForest(rows, id, rows[id].(slug := slug));
    if rows[id].parent.Some? {
      var depth: nat :| Rooted(rows, id, depth);
      if n: nat :| Above(rows, id, rows[id].parent.value, n) {
        NoLoop(rows, id, n + 1, depth);
        assert Above(rows, id, id, n + 1);
      }
    }
  }

  lemma {:induction false} ChainSurvives(rows: Table, gone: nat, id: nat, depth: nat)
    requires Rooted(rows, id, depth) && id != gone && forall a :: a in rows ==> rows[a].parent != Some(gone)
    ensures Rooted(rows - {gone}, id, depth)
    decreases depth
  {
    if rows[id].parent.Some? {
      ChainSurvives(rows, gone, rows[id].parent.value, depth - 1);
    }
  }

  lemma RemovalKeepsForest(rows: Table, id: nat)
    requires Forest(rows) && forall a :: a in rows ==> rows[a].parent != Some(id)
    ensures Forest(rows - {id})
  {
    forall a | a in rows - {id}
      ensures exists n: nat :: Rooted(rows - {id}, a, n)
    {
      var depth: nat :| Rooted(rows, a, depth);
      ChainSurvives(rows, id, a, depth);
    }
  }

  lemma OwnersKept(rows: Table, members: Members, id: nat, row: Namespace, user: nat)
    requires Owned(rows, members) && id !in rows && row.kind.Group?
    ensures Owned(rows[id := row], members[(id, user) := OWNER])
  {
    var after, added := rows[id := row], members[(id, user) := OWNER];
    forall g | g in after && after[g].kind.Group?
      ensures exists u :: IsOwner(added, g, u)
    {
      if g == id {
        assert IsOwner(added, id, user);
      } else {
        var u :| IsOwner(members, g, u);
        assert IsOwner(added, g, u);
      }
    }
  }

  lemma SomeOwner(rows: Table, members: Members, group: nat, user: nat) returns (owner: nat)
    requires Owned(rows, members) && (group, user) in members
    ensures IsOwner(members, group, owner)
  {
    owner :| IsOwner(members, group, owner);
  }

  lemma OwnersGrow(rows: Table, members: Members, group: nat, user: nat, role: nat)
    requires Owned(rows, members) && group in rows && rows[group].kind.Group? && (group, user) !in members
    ensures Owned(rows, members[(group, user) := role])
  {
    var after := members[(group, user) := role];
    forall g | g in rows && rows[g].kind.Group?
      ensures exists u :: IsOwner(after, g, u)
    {
      var u :| IsOwner(members, g, u);
      assert IsOwner(after, g, u);
    }
  }

  lemma OwnersRenamed(rows: Table, members: Members, id: nat, slug: string)
    requires Owned(rows, members) && id in rows
    ensures Owned(rows[id := rows[id].(slug := slug)], members)
  {
  }

  lemma OwnersRemoved(rows: Table, members: Members, id: nat)
    requires Owned(rows, members)
    ensures Owned(rows - {id}, map k | k in members && k.0 != id :: members[k])
  {
    var left := map k | k in members && k.0 != id :: members[k];
    forall g | g in rows - {id} && rows[g].kind.Group?
      ensures exists u :: IsOwner(left, g, u)
    {
      var u :| IsOwner(members, g, u);
      assert IsOwner(left, g, u);
    }
  }

  lemma OwnersChanged(rows: Table, members: Members, after: Members, group: nat, owner: nat)
    requires Owned(rows, members) && IsOwner(after, group, owner) && forall k :: k in after ==> k in members
    requires forall k :: k in members && k.0 != group ==> k in after && after[k] == members[k]
    ensures Owned(rows, after)
  {
    forall g | g in rows && rows[g].kind.Group?
      ensures exists u :: IsOwner(after, g, u)
    {
      if g == group {
        assert IsOwner(after, group, owner);
      } else {
        var u :| IsOwner(members, g, u);
        assert IsOwner(after, g, u);
      }
    }
  }

  // ---- checks that interleave ---------------------------------------------------------------------------

  ghost predicate HasOwner(members: Members, group: nat) { exists u: nat :: IsOwner(members, group, u) }

  ghost predicate OwnedBesides(members: Members, group: nat, u: nat, v: nat)
  {
    exists w: nat :: w != u && w != v && IsOwner(members, group, w)
  }

  /** Two changes, demotions, removals or promotions alike, that both check before either writes: whatever the checks
      said, the group keeps a direct owner if and only if one of the two is made an owner or a third member is one. */
  lemma InterleavedChangesKeepOwnerExactlyWhen(members: Members, group: nat, u: nat, v: nat, a: Option<nat>,
                                               b: Option<nat>)
    requires u != v
    ensures HasOwner(Changed(Changed(members, group, u, a), group, v, b), group)
       <==> a == Some(OWNER) || b == Some(OWNER) || OwnedBesides(members, group, u, v)
  {
    var after := Changed(Changed(members, group, u, a), group, v, b);
    forall w: nat
      ensures IsOwner(after, group, w) <==>
                if w == u then a == Some(OWNER) else if w == v then b == Some(OWNER) else IsOwner(members, group, w)
    {
    }
    if a == Some(OWNER) {
      assert IsOwner(after, group, u);
    }
    if b == Some(OWNER) {
      assert IsOwner(after, group, v);
    }
    if w: nat :| w != u && w != v && IsOwner(members, group, w) {
      assert IsOwner(after, group, w);
    }
  }

  /** Two owners who both pass the check on the same table and step down: an owner is left if and only if a third member
      owned the group, and just when none did, the second check would have refused after the first write. */
  lemma InterleavedStepDownsExactlyWhen(members: Members, group: nat, u: nat, v: nat, a: Option<nat>, b: Option<nat>)
    requires u != v && IsOwner(members, group, u) && IsOwner(members, group, v) && a != Some(OWNER) && b != Some(OWNER)
    ensures MayChange(members, group, u, a) && MayChange(members, group, v, b)
    ensures HasOwner(Changed(Changed(members, group, u, a), group, v, b), group) <==> OwnedBesides(members, group, u, v)
    ensures MayChange(Changed(members, group, u, a), group, v, b) <==> OwnedBesides(members, group, u, v)
  {
    InterleavedChangesKeepOwnerExactlyWhen(members, group, u, v, a, b);
    var first := Changed(members, group, u, a);
    forall w: nat
      ensures IsOwner(first, group, w) <==> w != u && IsOwner(members, group, w)
    {
    }
    if w: nat :| w != u && w != v && IsOwner(members, group, w) {
      assert IsOwner(first, group, w);
    }
  }

  /** A group without a third owner: two demotions or removals leave it without an owner. */
  lemma InterleavedDemotions(a: Option<nat>, b: Option<nat>)
    requires a != Some(OWNER) && b != Some(OWNER)
    ensures var members: Members := map[(0, 1) := OWNER, (0, 2) := OWNER];
            && MayChange(members, 0, 1, a) && MayChange(members, 0, 2, b)
            && !HasOwner(Changed(Changed(members, 0, 1, a), 0, 2, b), 0)
  {
    var members: Members := map[(0, 1) := OWNER, (0, 2) := OWNER];
    assert IsOwner(members, 0, 1) && IsOwner(members, 0, 2);
    InterleavedStepDownsExactlyWhen(members, 0, 1, 2, a, b);
  }

  /** A group created or renamed and a dataset created or renamed in transactions that both check before either writes:
      the path components stay unambiguous if and only if the two do not take the same component of one namespace. */
  lemma InterleavedWritesExactlyWhen(rows: Table, datasets: Datasets, g: nat, row: Namespace, d: nat, dataset: Dataset)
    requires Unambiguous(rows, datasets)
    requires GroupSlugFree(rows, datasets, Some(g), row.parent, row.slug)
    requires DatasetSlugFree(rows, datasets, Some(d), dataset.namespace, dataset.slug)
    ensures Unambiguous(rows[g := row], datasets[d := dataset]) <==>
              row.parent != Some(dataset.namespace) || row.slug != dataset.slug
  {
    var after, renamed := rows[g := row], datasets[d := dataset];
    assert g in after && d in renamed && after[g] == row && renamed[d] == dataset;
  }

  /** A dataset rename beside a group creation. */
  lemma InterleavedRenameAndCreateExactlyWhen(rows: Table, datasets: Datasets, id: nat, slug: string, g: nat,
                                              row: Namespace)
    requires Unambiguous(rows, datasets) && id in datasets && g !in rows
    requires DatasetSlugFree(rows, datasets, Some(id), datasets[id].namespace, slug)
    requires GroupSlugFree(rows, datasets, None, row.parent, row.slug)
    ensures Unambiguous(rows[g := row], datasets[id := datasets[id].(slug := slug)])
       <==> row.parent != Some(datasets[id].namespace) || row.slug != slug
  {
    hide Unambiguous;
    InterleavedWritesExactlyWhen(rows, datasets, g, row, id, datasets[id].(slug := slug));
  }

  /** A dataset rename beside a group rename, which lock neither each other's row nor their namespace. */
  lemma InterleavedRenamesExactlyWhen(rows: Table, datasets: Datasets, id: nat, slug: string, g: nat, component: string)
    requires Unambiguous(rows, datasets) && id in datasets && g in rows
    requires DatasetSlugFree(rows, datasets, Some(id), datasets[id].namespace, slug)
    requires GroupSlugFree(rows, datasets, Some(g), rows[g].parent, component)
    ensures Unambiguous(rows[g := rows[g].(slug := component)], datasets[id := datasets[id].(slug := slug)])
       <==> rows[g].parent != Some(datasets[id].namespace) || component != slug
  {
    hide Unambiguous;
    InterleavedWritesExactlyWhen(rows, datasets, g, rows[g].(slug := component), id, datasets[id].(slug := slug));
  }

  /** A dataset creation beside a group rename: the creation locks the namespace, the rename only its own row. */
  lemma InterleavedCreateAndRenameExactlyWhen(rows: Table, datasets: Datasets, d: nat, dataset: Dataset, g: nat,
                                              component: string)
    requires Unambiguous(rows, datasets) && d !in datasets && g in rows
    requires DatasetSlugFree(rows, datasets, None, dataset.namespace, dataset.slug)
    requires GroupSlugFree(rows, datasets, Some(g), rows[g].parent, component)
    ensures Unambiguous(rows[g := rows[g].(slug := component)], datasets[d := dataset])
       <==> rows[g].parent != Some(dataset.namespace) || component != dataset.slug
  {
    hide Unambiguous;
    InterleavedWritesExactlyWhen(rows, datasets, g, rows[g].(slug := component), d, dataset);
  }

  /** A dataset rename and a group creation whose checks both pass before either writes can take the same path
      component,
      which no database constraint forbids. */
  lemma InterleavedRenameAndCreate(slug: string)
    requires IsSlug(slug) && slug != "d"
    ensures var rows: Table := map[0 := Namespace(Group, "g", None, None)];
            var datasets: Datasets := map[0 := Dataset(0, "d", false)];
            && Sound(rows, datasets)
            && DatasetSlugFree(rows, datasets, Some(0), 0, slug) && GroupSlugFree(rows, datasets, None, Some(0), slug)
            && !Unambiguous(rows[1 := Namespace(Group, slug, Some(0), None)], datasets[0 := Dataset(0, slug, false)])
  {
    var rows: Table := map[0 := Namespace(Group, "g", None, None)];
    var datasets: Datasets := map[0 := Dataset(0, "d", false)];
    assert Rooted(rows, 0, 1);
    var after := rows[1 := Namespace(Group, slug, Some(0), None)];
    var renamed := datasets[0 := Dataset(0, slug, false)];
    assert 1 in after && 0 in renamed && after[1].parent == Some(renamed[0].namespace)
           && after[1].slug == renamed[0].slug;
  }
}
