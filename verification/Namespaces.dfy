/** The namespace forest: ancestor walks, the cycle check, inherited roles and the visibility listing. */
module Namespaces {
  import opened Text

  datatype Kind = Personal | Group

  /** A Namespace row; the map key is its primary key. */
  datatype Namespace = Namespace(kind: Kind, slug: string, parent: Option<nat>, owner: Option<nat>)

  type Table = map<nat, Namespace>

  /** The row's check constraint, and foreign keys that point somewhere. */
  predicate Shaped(rows: Table)
  {
    forall id :: id in rows ==> RowShaped(rows[id]) && (rows[id].parent.Some? ==>
      rows[id].parent.value in rows && rows[rows[id].parent.value].kind.Group?)
  }

  predicate RowShaped(row: Namespace)
  {
    if row.kind.Personal? then row.owner.Some? && row.parent.None? else row.owner.None?
  }

  // ---- ancestors ------------------------------------------------------------------------

  /** `high` is reached from `low` in exactly `n` parent steps. */
  predicate Above(rows: Table, high: nat, low: nat, n: nat)
    decreases n
  {
    if n == 0 then high == low else low in rows && rows[low].parent.Some? && Above(rows, high, rows[low].parent.value, n - 1)
  }

  ghost predicate IsAncestor(rows: Table, high: nat, low: nat) { exists n: nat :: n > 0 && Above(rows, high, low, n) }

  ghost predicate IsAncestorOrSelf(rows: Table, high: nat, low: nat) { exists n: nat :: Above(rows, high, low, n) }

  /** The parent chain of `id` ends at a root within `n` rows. */
  predicate Rooted(rows: Table, id: nat, n: nat)
    decreases n
  {
    n > 0 && id in rows && (rows[id].parent.None? || Rooted(rows, rows[id].parent.value, n - 1))
  }

  /** Every parent chain ends: there is no cycle. */
  ghost predicate Forest(rows: Table)
  {
    forall id :: id in rows ==> exists n: nat :: Rooted(rows, id, n)
  }

  lemma {:induction false} AboveTransitive(rows: Table, a: nat, b: nat, c: nat, m: nat, n: nat)
    requires Above(rows, a, b, m) && Above(rows, b, c, n)
    ensures Above(rows, a, c, m + n)
    decreases n
  {
    if n > 0 {
      AboveTransitive(rows, a, b, rows[c].parent.value, m, n - 1);
    }
  }

  lemma {:induction false} RootedAbove(rows: Table, high: nat, low: nat, n: nat, depth: nat)
    requires Rooted(rows, low, depth) && Above(rows, high, low, n)
    ensures n < depth && Rooted(rows, high, depth - n)
    decreases n
  {
    if n > 0 {
      RootedAbove(rows, high, rows[low].parent.value, n - 1, depth - 1);
    }
  }

  lemma {:induction false} Cycles(rows: Table, id: nat, n: nat, times: nat)
    requires Above(rows, id, id, n)
    ensures Above(rows, id, id, n * times)
  {
    if times > 0 {
      Cycles(rows, id, n, times - 1);
      AboveTransitive(rows, id, id, id, n * (times - 1), n);
      assert n * (times - 1) + n == n * times;
    }
  }

  /** In a forest no namespace is its own ancestor. */
  lemma NoLoop(rows: Table, id: nat, n: nat, depth: nat)
    requires Rooted(rows, id, depth) && n > 0
    ensures !Above(rows, id, id, n)
  {
    if Above(rows, id, id, n) {
      Cycles(rows, id, n, depth);
      assert n * depth >= depth by {
        assert n * depth == (n - 1) * depth + depth;
      }
      RootedAbove(rows, id, id, n * depth, depth);
      assert false;
    }
  }

  // ---- the cycle check ---------------------------------------------------------------------

  lemma {:induction false} ChainKept(rows: Table, id: nat, row: Namespace, from: nat, depth: nat)
    requires Rooted(rows, from, depth) && !IsAncestorOrSelf(rows, id, from)
    ensures Rooted(rows[id := row], from, depth)
    decreases depth
  {
    assert Above(rows, from, from, 0);
    if from == id {
      assert false;
    }
    if rows[from].parent.Some? {
      var parent := rows[from].parent.value;
      forall n: nat
        ensures !Above(rows, id, parent, n)
      {
        assert Above(rows, id, parent, n) ==> Above(rows, id, from, n + 1);
      }
      ChainKept(rows, id, row, parent, depth - 1);
    }
  }

  lemma {:induction false} ChainMoved(rows: Table, id: nat, row: Namespace, parentDepth: nat, from: nat, depth: nat)
    returns (n: nat)
    requires Rooted(rows, from, depth)
    requires row.parent.Some? ==> Rooted(rows[id := row], row.parent.value, parentDepth)
    ensures Rooted(rows[id := row], from, n)
    decreases depth
  {
    if from == id {
      n := parentDepth + 1;
      assert row.parent.None? ==> Rooted(rows[id := row], id, 1);
      if row.parent.None? {
        n := 1;
      }
    } else if rows[from].parent.None? {
      n := 1;
    } else {
      var rest := ChainMoved(rows, id, row, parentDepth, rows[from].parent.value, depth - 1);
      n := rest + 1;
    }
  }

  lemma {:induction false} ChainCycles(rows: Table, id: nat, row: Namespace, from: nat, n: nat, depth: nat)
    requires row.parent.Some? && Above(rows, id, from, n) && IsAncestorOrSelf(rows, id, row.parent.value)
    ensures !Rooted(rows[id := row], from, depth)
    decreases depth, n
  {
    if depth > 0 {
      if from == id {
        var m: nat :| Above(rows, id, row.parent.value, m);
        ChainCycles(rows, id, row, row.parent.value, m, depth - 1);
      } else {
        ChainCycles(rows, id, row, rows[from].parent.value, n - 1, depth - 1);
      }
    }
  }

  /** Saving a row, new or moved, keeps the forest exactly when its parent is neither itself nor one of its
      descendants. */
  lemma SavingKeepsForest(rows: Table, id: nat, row: Namespace)
    requires Forest(rows) && (row.parent.Some? ==> row.parent.value in rows || row.parent.value == id)
    ensures Forest(rows[id := row]) <==> row.parent.None? || !IsAncestorOrSelf(rows, id, row.parent.value)
  {
    var saved := rows[id := row];
    if row.parent.Some? && IsAncestorOrSelf(rows, id, row.parent.value) {
      forall depth: nat
        ensures !Rooted(saved, id, depth)
      {
        assert Above(rows, id, id, 0);
        ChainCycles(rows, id, row, id, 0, depth);
      }
      assert id in saved;
    } else {
      var parentDepth: nat := 0;
      if row.parent.Some? {
        assert Above(rows, id, id, 0);
        parentDepth :| Rooted(rows, row.parent.value, parentDepth);
        ChainKept(rows, id, row, row.parent.value, parentDepth);
      }
      forall from | from in saved
        ensures exists n: nat :: Rooted(saved, from, n)
      {
        if from == id {
          assert Rooted(saved, id, parentDepth + 1);
        } else {
          var depth: nat :| Rooted(rows, from, depth);
          var n := ChainMoved(rows, id, row, parentDepth, from, depth);
        }
      }
    }
  }

  /** The ancestor loop of `Namespace.clean`: it accepts a parent exactly when saving the row keeps the forest. */
  method CheckParent(rows: Table, id: nat, row: Namespace) returns (ok: bool)
    requires Forest(rows) && Shaped(rows) && row.parent.Some? && row.parent.value in rows
    ensures ok <==> Forest(rows[id := row])
  {
    var parent := row.parent.value;
    var ancestor := Some(parent);
    var visited := {id};
    ghost var steps: nat := 0;
    SavingKeepsForest(rows, id, row);
    while ancestor.Some?
      invariant ancestor.Some? ==> Above(rows, ancestor.value, parent, steps) && ancestor.value in rows
      invariant visited <= rows.Keys + {id}
      invariant forall v :: v in visited && v != id && ancestor.Some? ==> IsAncestor(rows, ancestor.value, v)
      invariant forall n: nat :: n < steps ==> !Above(rows, id, parent, n)
      invariant ancestor.None? ==> forall n: nat :: !Above(rows, id, parent, n)
      decreases rows.Keys + {id} - visited, ancestor.Some?
    {
      var current := ancestor.value;
      if current in visited {
        if current != id {
          var n: nat :| n > 0 && Above(rows, current, current, n);
          var depth: nat :| Rooted(rows, current, depth);
          NoLoop(rows, current, n, depth);
        }
        return false;
      }
      StepUp(rows, current, parent, steps, id, visited);
      visited := visited + {current};
      ancestor := rows[current].parent;
      steps := steps + 1;
    }
    return true;
  }

  lemma StepUp(rows: Table, current: nat, from: nat, steps: nat, id: nat, visited: set<nat>)
    requires current in rows && Above(rows, current, from, steps) && current != id
    requires forall v :: v in visited && v != id ==> IsAncestor(rows, current, v)
    requires forall n: nat :: n < steps ==> !Above(rows, id, from, n)
    ensures forall n: nat :: n <= steps ==> !Above(rows, id, from, n)
    ensures rows[current].parent.None? ==> forall n: nat :: !Above(rows, id, from, n)
    ensures rows[current].parent.Some? ==> Above(rows, rows[current].parent.value, from, steps + 1)
    ensures rows[current].parent.Some? ==> forall v :: v in visited + {current} && v != id ==>
              IsAncestor(rows, rows[current].parent.value, v)
  {
    forall n: nat | n <= steps
      ensures !Above(rows, id, from, n)
    {
      if n == steps { SameStep(rows, current, id, from, steps); }
    }
    if rows[current].parent.None? {
      forall n: nat
        ensures !Above(rows, id, from, n)
      {
        if n > steps { PastRoot(rows, current, id, from, steps, n); }
      }
    } else {
      var parent := rows[current].parent.value;
      assert Above(rows, parent, current, 1) by { assert Above(rows, parent, parent, 0); }
      AboveTransitive(rows, parent, current, from, 1, steps);
      forall v | v in visited + {current} && v != id
        ensures IsAncestor(rows, parent, v)
      {
        if v in visited {
          var n: nat :| n > 0 && Above(rows, current, v, n);
          AboveTransitive(rows, parent, current, v, 1, n);
        }
      }
    }
  }

  lemma {:induction false} SameStep(rows: Table, a: nat, b: nat, from: nat, n: nat)
    requires Above(rows, a, from, n) && a != b
    ensures !Above(rows, b, from, n)
    decreases n
  {
    if n > 0 {
      SameStep(rows, a, b, rows[from].parent.value, n - 1);
    }
  }

  lemma {:induction false} PastRoot(rows: Table, root: nat, b: nat, from: nat, n: nat, m: nat)
    requires Above(rows, root, from, n) && root in rows && rows[root].parent.None? && m > n
    ensures !Above(rows, b, from, m)
    decreases n
  {
    if n > 0 {
      PastRoot(rows, root, b, rows[from].parent.value, n - 1, m - 1);
    }
  }

  // ---- visibility ------------------------------------------------------------------------------

  /** `can_view_namespace`: visible in its own right, or because some group nested below it is. `direct` holds the
      namespaces the user may view directly. */
  ghost predicate CanView(rows: Table, direct: set<nat>, id: nat)
  {
    id in direct || exists d :: d in rows && rows[d].kind.Group? && d in direct && IsAncestor(rows, id, d)
  }

  /** `_is_namespace_descendant`. */
  method IsDescendant(rows: Table, low: nat, high: nat) returns (found: bool)
    requires Forest(rows) && Shaped(rows) && low in rows
    ensures found <==> IsAncestor(rows, high, low)
  {
    ghost var depth: nat :| Rooted(rows, low, depth);
    ghost var steps: nat := 0;
    ghost var last := low;
    var current := rows[low].parent;
    while current.Some?
      invariant last in rows && current == rows[last].parent && Above(rows, last, low, steps)
      invariant Rooted(rows, last, depth)
      invariant forall n: nat :: 0 < n <= steps ==> !Above(rows, high, low, n)
      decreases depth
    {
      assert Above(rows, current.value, last, 1) by { assert Above(rows, current.value, current.value, 0); }
      AboveTransitive(rows, current.value, last, low, 1, steps);
      if current.value == high {
        return true;
      }
      SameStep(rows, current.value, high, low, steps + 1);
      last, steps, depth := current.value, steps + 1, depth - 1;
      current := rows[current.value].parent;
    }
    forall n: nat | n > 0
      ensures !Above(rows, high, low, n)
    {
      if n > steps { PastRoot(rows, last, high, low, steps, n); }
    }
    return false;
  }

  /** `can_view_namespace`. */
  method CanViewNamespace(rows: Table, direct: set<nat>, id: nat) returns (visible: bool)
    requires Forest(rows) && Shaped(rows)
    ensures visible <==> CanView(rows, direct, id)
  {
    if id in direct {
      return true;
    }
    var todo := set d | d in rows && rows[d].kind.Group?;
    while todo != {}
      invariant todo <= rows.Keys
      invariant forall d :: d in rows && rows[d].kind.Group? && d !in todo ==> d !in direct || !IsAncestor(rows, id, d)
      decreases todo
    {
      var d :| d in todo;
      var below := IsDescendant(rows, d, id);
      if below && d in direct {
        return true;
      }
      todo := todo - {d};
    }
    return false;
  }

  /** `list_visible_namespaces`: the upward closure of what is directly visible is exactly what the slow predicate
      accepts. */
  method ListVisible(rows: Table, direct: set<nat>) returns (visible: set<nat>)
    requires Forest(rows) && Shaped(rows)
    ensures forall id :: id in visible <==> id in rows && CanView(rows, direct, id)
    ensures forall high, low :: low in visible && IsAncestor(rows, high, low) ==> high in visible
  {
    visible := {};
    var todo := rows.Keys;
    while todo != {}
      invariant todo <= rows.Keys
      invariant forall id ::
                  id in visible <==> exists d :: d in rows && d !in todo && d in direct && IsAncestorOrSelf(rows, id, d)
      decreases todo
    {
      var namespace :| namespace in todo;
      if namespace in direct {
        visible := AddAncestors(rows, namespace, visible);
      }
      todo := todo - {namespace};
    }
    forall id
      ensures id in visible <==> id in rows && CanView(rows, direct, id)
    {
      ClosureIsView(rows, direct, id);
    }
    ClosureIsClosed(rows, direct, visible);
  }

  ghost predicate Within(rows: Table, high: nat, low: nat, steps: nat) { exists n: nat ::
    n < steps && Above(rows, high, low, n) }

  /** The inner walk of the listing. */
  method AddAncestors(rows: Table, start: nat, visible: set<nat>) returns (added: set<nat>)
    requires Forest(rows) && Shaped(rows) && start in rows
    ensures forall id :: id in added <==> id in visible || IsAncestorOrSelf(rows, id, start)
  {
    added := visible;
    ghost var depth: nat :| Rooted(rows, start, depth);
    ghost var steps: nat := 0;
    var current := Some(start);
    while current.Some?
      invariant current.Some? ==> Rooted(rows, current.value, depth) && Above(rows, current.value, start, steps)
      invariant forall id :: id in added <==> id in visible || Within(rows, id, start, steps)
      invariant current.None? ==> forall id, n: nat :: n >= steps ==> !Above(rows, id, start, n)
      decreases depth
    {
      var id := current.value;
      NextAncestor(rows, id, start, steps);
      forall other: nat
        ensures Within(rows, other, start, steps + 1) <==> Within(rows, other, start, steps) || other == id
      {
        OneMoreStep(rows, other, id, start, steps);
      }
      added := added + {id};
      current := rows[id].parent;
      depth := if current.Some? then depth - 1 else 0;
      steps := steps + 1;
    }
  }

  lemma OneMoreStep(rows: Table, other: nat, id: nat, start: nat, steps: nat)
    requires Above(rows, id, start, steps) && (Above(rows, other, start, steps) ==> other == id)
    ensures Within(rows, other, start, steps + 1) <==> Within(rows, other, start, steps) || other == id
  {
    if n: nat :| n < steps + 1 && Above(rows, other, start, n) {
      assert n < steps ==> Within(rows, other, start, steps);
    }
    if n: nat :| n < steps && Above(rows, other, start, n) {
      assert n < steps + 1;
    }
  }

  /** One step of an ancestor walk. */
  lemma NextAncestor(rows: Table, id: nat, start: nat, steps: nat)
    requires id in rows && Above(rows, id, start, steps)
    ensures forall other :: Above(rows, other, start, steps) ==> other == id
    ensures rows[id].parent.Some? ==> Above(rows, rows[id].parent.value, start, steps + 1)
    ensures rows[id].parent.None? ==> forall other, n: nat :: n > steps ==> !Above(rows, other, start, n)
  {
    forall other | Above(rows, other, start, steps)
      ensures other == id
    {
      if other != id { SameStep(rows, id, other, start, steps); }
    }
    if rows[id].parent.Some? {
      var parent := rows[id].parent.value;
      assert Above(rows, parent, id, 1) by { assert Above(rows, parent, parent, 0); }
      AboveTransitive(rows, parent, id, start, 1, steps);
    } else {
      forall other, n: nat | n > steps
        ensures !Above(rows, other, start, n)
      {
        PastRoot(rows, id, other, start, steps, n);
      }
    }
  }

  /** Only groups lie below another namespace, so the closure needs no kind check. */
  lemma ClosureIsView(rows: Table, direct: set<nat>, id: nat)
    requires Forest(rows) && Shaped(rows)
    ensures (exists d :: d in rows && d in direct && IsAncestorOrSelf(rows, id, d)) <==>
              id in rows && CanView(rows, direct, id)
  {
    if d :| d in rows && d in direct && IsAncestorOrSelf(rows, id, d) {
      var n: nat :| Above(rows, id, d, n);
      var depth: nat :| Rooted(rows, d, depth);
      RootedAbove(rows, id, d, n, depth);
      if n > 0 {
        assert rows[d].parent.Some? && rows[d].kind.Group?;
        assert IsAncestor(rows, id, d);
      }
    }
    if id in rows && CanView(rows, direct, id) {
      if id in direct {
        assert Above(rows, id, id, 0);
        assert IsAncestorOrSelf(rows, id, id);
      } else {
        var d :| d in rows && rows[d].kind.Group? && d in direct && IsAncestor(rows, id, d);
        var n: nat :| n > 0 && Above(rows, id, d, n);
        assert IsAncestorOrSelf(rows, id, d);
      }
    }
  }

  lemma ClosureIsClosed(rows: Table, direct: set<nat>, visible: set<nat>)
    requires forall id :: id in visible <==> exists d :: d in rows && d in direct && IsAncestorOrSelf(rows, id, d)
    ensures forall high, low :: low in visible && IsAncestor(rows, high, low) ==> high in visible
  {
    forall high, low | low in visible && IsAncestor(rows, high, low)
      ensures high in visible
    {
      var d :| d in rows && d in direct && IsAncestorOrSelf(rows, low, d);
      var m: nat :| Above(rows, high, low, m);
      var n: nat :| Above(rows, low, d, n);
      AboveTransitive(rows, high, low, d, m, n);
      assert IsAncestorOrSelf(rows, high, d);
    }
  }

  // ---- roles -------------------------------------------------------------------------------------

  /** Direct memberships: the role level of a user in a group. */
  type Members = map<(nat, nat), nat>

  const OWNER: nat := 40

  /** The highest role among a namespace and its ancestors. */
  ghost predicate IsHighest(rows: Table, members: Members, user: nat, id: nat, role: Option<nat>)
  {
    && (role.Some? ==> exists a: nat ::
         IsAncestorOrSelf(rows, a, id) && (a, user) in members && members[(a, user)] == role.value)
    && (forall a: nat ::
         IsAncestorOrSelf(rows, a, id) && (a, user) in members ==> role.Some? && members[(a, user)] <= role.value)
  }

  /** `get_namespace_role` of a group, for a user who is no superuser. */
  method GroupRole(rows: Table, members: Members, user: nat, id: nat) returns (role: Option<nat>)
    requires Forest(rows) && Shaped(rows) && id in rows
    ensures IsHighest(rows, members, user, id, role)
  {
    role := None;
    ghost var depth: nat :| Rooted(rows, id, depth);
    ghost var steps: nat := 0;
    var ancestor := Some(id);
    while ancestor.Some?
      invariant ancestor.Some? ==> Rooted(rows, ancestor.value, depth) && Above(rows, ancestor.value, id, steps)
      invariant role.Some? ==> exists a: nat, n: nat ::
                  Above(rows, a, id, n) && (a, user) in members && members[(a, user)] == role.value
      invariant forall a: nat, n: nat :: n < steps && Above(rows, a, id, n) && (a, user) in members ==>
                  role.Some? && members[(a, user)] <= role.value
      invariant ancestor.None? ==> forall a: nat, n: nat :: n >= steps ==> !Above(rows, a, id, n)
      decreases depth
    {
      var a := ancestor.value;
      if (a, user) in members && (role.None? || role.value < members[(a, user)]) {
        role := Some(members[(a, user)]);
      }
      NextAncestor(rows, a, id, steps);
      ancestor := rows[a].parent;
      depth := if ancestor.Some? then depth - 1 else 0;
      steps := steps + 1;
    }
  }

  /** A user's role never falls on the way down: whoever has a role in a group has at least that role in everything
      below it. */
  lemma RolesAreInherited(rows: Table, members: Members, user: nat, high: nat, low: nat, above: Option<nat>,
                          below: Option<nat>)
    requires IsAncestor(rows, high, low) && IsHighest(rows, members, user, high, above)
    requires IsHighest(rows, members, user, low, below)
    ensures above.Some? ==> below.Some? && above.value <= below.value
  {
    if above.Some? {
      var a: nat :| IsAncestorOrSelf(rows, a, high) && (a, user) in members && members[(a, user)] == above.value;
      var m: nat :| Above(rows, a, high, m);
      var n: nat :| n > 0 && Above(rows, high, low, n);
      AboveTransitive(rows, a, high, low, m, n);
      assert IsAncestorOrSelf(rows, a, low);
    }
  }
}
