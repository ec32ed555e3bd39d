/** What the pre-receive hook decides from the proposal alone: ref policy and the scan for new LFS pointers. */
module PushScan {
  import opened Text
  import opened Pointer
  import opened GitObjects

  /** One proposed ref change; `None` is the all-zero object identifier. */
  datatype Update = Update(ref: string, prior: Option<GitObject>, next: Option<GitObject>)

  datatype Kind = BranchKind | TagKind

  /** A protected-ref rule: `matches` is its shell-style pattern, the roles are levels. */
  datatype Rule = Rule(kind: Kind, matches: string -> bool, minimumRole: nat, deletionMinimumRole: nat)

  datatype Denial =
    | InvalidName
    | DefaultBranch
    | NotCommit
    | NotFastForward
    | TagDeletion
    | TagUpdate
    | OutsideNamespaces
    | RoleTooLow

  const CONTRIBUTOR: nat := 20
  const MAINTAINER: nat := 30
  const MAIN := "refs/heads/main"

  // ---- ref policy ----------------------------------------------------------------

  /** The commit a tag chain ends in, if any. */
  function Peel(o: GitObject): Option<GitObject>
  {
    match o
    case Commit(_, _, _) => Some(o)
    case Tag(target, _) => Peel(target)
    case _ => None
  }

  function RuleRole(rule: Rule, deleting: bool): nat { if deleting then rule.deletionMinimumRole else rule.minimumRole }

  predicate RuleApplies(rule: Rule, kind: Kind, name: string) { rule.kind == kind && rule.matches(name) }

  /** `required_protected_ref_role`: the strictest role any matching rule asks for. */
  function RequiredRole(rules: seq<Rule>, kind: Kind, name: string, deleting: bool): (role: Option<nat>)
    ensures role.None? <==> forall i :: 0 <= i < |rules| ==> !RuleApplies(rules[i], kind, name)
    ensures role.Some? ==> forall i :: 0 <= i < |rules| && RuleApplies(rules[i], kind, name) ==>
              RuleRole(rules[i], deleting) <= role.value
    ensures role.Some? ==> exists i ::
              0 <= i < |rules| && RuleApplies(rules[i], kind, name) && RuleRole(rules[i], deleting) == role.value
  {
    if rules == [] then None
    else
      var rest := RequiredRole(rules[1..], kind, name, deleting);
      if !RuleApplies(rules[0], kind, name) then
        assert rest.Some? ==> exists i :: 0 <= i < |rules| && RuleApplies(rules[i], kind, name) && RuleRole(rules[i], deleting) == rest.value by {
          if rest.Some? {
            var j :| 0 <= j < |rules[1..]| && RuleApplies(rules[1..][j], kind, name) && RuleRole(rules[1..][j], deleting) == rest.value;
            assert rules[j + 1] == rules[1..][j];
          }
        }
        rest
      else
        assert rest.Some? ==> exists i :: 0 <= i < |rules| && RuleApplies(rules[i], kind, name) && RuleRole(rules[i], deleting) == rest.value by {
          if rest.Some? {
            var j :| 0 <= j < |rules[1..]| && RuleApplies(rules[1..][j], kind, name) && RuleRole(rules[1..][j], deleting) == rest.value;
            assert rules[j + 1] == rules[1..][j];
          }
        }
        var first := RuleRole(rules[0], deleting);
        if rest.Some? && rest.value > first then rest else Some(first)
  }

  predicate MeetsRules(rules: seq<Rule>, kind: Kind, name: string, deleting: bool, role: nat)
  {
    forall i :: 0 <= i < |rules| && RuleApplies(rules[i], kind, name) ==> RuleRole(rules[i], deleting) <= role
  }

  /** The role-independent half of the policy: what an accepted proposal looks like. */
  predicate Baseline(u: Update)
  {
    && (IsBranch(u.ref) || IsTag(u.ref))
    && (IsBranch(u.ref) && u.next.None? ==> u.ref != MAIN)
    && (IsBranch(u.ref) && u.next.Some? ==>
         u.next.value.Commit? && (u.prior.Some? ==> IsAncestor(u.prior.value, u.next.value)))
    && (IsTag(u.ref) && u.next.Some? ==> u.prior.None? && Peel(u.next.value).Some?)
  }

  function ShortName(ref: string): string
    requires IsBranch(ref) || IsTag(ref)
  {
    if IsBranch(ref) then ref[11..] else ref[10..]
  }

  predicate Allowed(u: Update, role: nat, rules: seq<Rule>, validName: string -> bool)
  {
    && validName(u.ref)
    && Baseline(u)
    && (IsTag(u.ref) && u.next.None? ==> role >= MAINTAINER)
    && MeetsRules(rules, if IsBranch(u.ref) then BranchKind else TagKind, ShortName(u.ref), u.next.None?, role)
  }

  predicate AllAllowed(updates: seq<Update>, role: nat, rules: seq<Rule>, validName: string -> bool)
  {
    forall i :: 0 <= i < |updates| ==> Allowed(updates[i], role, rules, validName)
  }

  /** `_enforce_protected_ref_rules`. */
  method EnforceRules(rules: seq<Rule>, kind: Kind, name: string, role: nat, deleting: bool) returns (ok: bool)
    ensures ok <==> MeetsRules(rules, kind, name, deleting, role)
  {
    var required := RequiredRole(rules, kind, name, deleting);
    ok := required.None? || role >= required.value;
  }

  /** `_enforce_ref_policy`: a push passes exactly when every one of its updates is allowed. */
  method EnforceRefPolicy(updates: seq<Update>, role: nat, rules: seq<Rule>, validName: string -> bool)
    returns (denied: Option<Denial>)
    ensures denied.None? <==> AllAllowed(updates, role, rules, validName)
    ensures denied == Some(DefaultBranch) ==>
              exists i :: 0 <= i < |updates| && updates[i].ref == MAIN && updates[i].next.None?
    ensures denied == Some(NotFastForward) ==>
              exists i :: 0 <= i < |updates| && updates[i].prior.Some? && updates[i].next.Some? && !IsAncestor(updates[i].prior.value, updates[i].next.value)
  {
    denied := None;
    for n := 0 to |updates|
      invariant denied.None?
      invariant AllAllowed(updates[..n], role, rules, validName)
    {
      var u := updates[n];
      BranchIsNotTag(u.ref);
      if !validName(u.ref) {
        return Some(InvalidName);
      }
      if IsBranch(u.ref) {
        if u.next.None? {
          if u.ref == MAIN {
            return Some(DefaultBranch);
          }
        } else if !u.next.value.Commit? {
          return Some(NotCommit);
        } else if u.prior.Some? && !IsAncestor(u.prior.value, u.next.value) {
          return Some(NotFastForward);
        }
        var ok := EnforceRules(rules, BranchKind, ShortName(u.ref), role, u.next.None?);
        if !ok {
          return Some(RoleTooLow);
        }
      } else if IsTag(u.ref) {
        if u.next.None? {
          if role < MAINTAINER {
            return Some(TagDeletion);
          }
        } else if u.prior.Some? {
          return Some(TagUpdate);
        } else if Peel(u.next.value).None? {
          return Some(NotCommit);
        }
        var ok := EnforceRules(rules, TagKind, ShortName(u.ref), role, u.next.None?);
        if !ok {
          return Some(RoleTooLow);
        }
      } else {
        return Some(OutsideNamespaces);
      }
      assert updates[..n + 1] == updates[..n] + [u];
    }
    assert updates[..|updates|] == updates;
  }

  // ---- the pointer scan ------------------------------------------------------------

  type Listing = seq<GitObject>

  type Pointers = map<Pointer, set<string>>

  /** `git rev-list --objects new --not --all`: all that `new` reaches and no existing ref does. Git marks only the
      trees of boundary commits, so more of what `new` reaches may be listed with it, such as a blob a revert brings back. */
  ghost predicate IsNewObjects(refs: Refs, next: GitObject, listing: Listing)
  {
    && (forall o :: o in listing ==> Reaches(next, o))
    && (forall o :: Reaches(next, o) && !Known(refs, o) ==> o in listing)
  }

  ghost predicate ListingsFor(refs: Refs, updates: seq<Update>, listings: seq<Listing>)
  {
    |listings| == |updates|
    && forall i :: 0 <= i < |updates| && updates[i].next.Some? ==>
         IsNewObjects(refs, updates[i].next.value, listings[i])
  }

  /** Some non-deleting update to `ref` lists a blob holding `p`. */
  ghost predicate Lists(updates: seq<Update>, listings: seq<Listing>, ref: string, p: Pointer)
    requires |listings| == |updates|
  {
    exists i, j :: 0 <= i < |updates| && updates[i].next.Some? && updates[i].ref == ref && 0 <= j < |listings[i]| && PointerOf(listings[i][j]) == Some(p)
  }

  ghost predicate Consistent(updates: seq<Update>, listings: seq<Listing>)
    requires |listings| == |updates|
  {
    forall r1, p1, r2, p2 ::
      Lists(updates, listings, r1, p1) && Lists(updates, listings, r2, p2) && p1.oid == p2.oid ==> p1 == p2
  }

  predicate Leases(pointers: Pointers, p: Pointer, ref: string) { p in pointers && ref in pointers[p] }

  predicate WellFormed(pointers: Pointers)
  {
    && (forall p :: p in pointers ==> pointers[p] != {})
    && (forall p, q :: p in pointers && q in pointers && p.oid == q.oid ==> p == q)
  }

  /** Exactly the listed pairs of the first `n` updates and the first `m` objects of update `n`. */
  ghost predicate CollectedTo(pointers: Pointers, updates: seq<Update>, listings: seq<Listing>, n: nat, m: nat)
    requires |listings| == |updates|
    requires n < |updates| ==> m <= |listings[n]|
  {
    forall p, ref ::
      Leases(pointers, p, ref) <==>
      exists i, j :: 0 <= i < |updates| && updates[i].next.Some? && updates[i].ref == ref && 0 <= j < |listings[i]|
                  && PointerOf(listings[i][j]) == Some(p) && (i < n || (i == n && j < m))
  }

  /** `_find_new_lfs_pointers`: a memoised walk over every listing. It succeeds exactly when no identifier is listed
      with two sizes, and then returns exactly the listed pairs of pointer and ref. */
  method FindNewPointers(updates: seq<Update>, listings: seq<Listing>) returns (r: Result<Pointers, string>)
    requires |listings| == |updates|
    ensures r.Ok? <==> Consistent(updates, listings)
    ensures r.Ok? ==> WellFormed(r.value) && forall p, ref :: Leases(r.value, p, ref) <==>
              Lists(updates, listings, ref, p)
  {
    hide PointerOf;
    var pointers: Pointers := map[];
    var inspected: map<GitObject, Option<Pointer>> := map[];
    for n := 0 to |updates|
      invariant WellFormed(pointers)
      invariant CollectedTo(pointers, updates, listings, n, 0)
      invariant forall o :: o in inspected ==> inspected[o] == PointerOf(o)
    {
      var u := updates[n];
      if u.next.None? {
        assert n + 1 < |updates| ==> CollectedTo(pointers, updates, listings, n + 1, 0);
        continue;
      }
      for m := 0 to |listings[n]|
        invariant WellFormed(pointers)
        invariant CollectedTo(pointers, updates, listings, n, m)
        invariant forall o :: o in inspected ==> inspected[o] == PointerOf(o)
      {
        var o := listings[n][m];
        if o !in inspected {
          inspected := inspected[o := PointerOf(o)];
        }
        var found := inspected[o];
        if found.Some? {
          var p := found.value;
          assert Lists(updates, listings, u.ref, p);
          var clashes := set q | q in pointers && q.oid == p.oid && q.size != p.size;
          if clashes != {} {
            ghost var q :| q in clashes;
            ClashIsInconsistent(pointers, updates, listings, n, m, q, p, u.ref);
            return Err(u.ref);
          }
          assert forall q :: q in pointers && q.oid == p.oid && q.size != p.size ==> q in clashes;
          pointers := Add(pointers, p, u.ref);
        }
        CollectOne(pointers, updates, listings, n, m);
      }
    }
    AllCollected(pointers, updates, listings);
    r := Ok(pointers);
  }

  /** `pointers.setdefault(p, set()).add(ref)`. */
  function Add(pointers: Pointers, p: Pointer, ref: string): (r: Pointers)
    requires WellFormed(pointers)
    requires forall q :: q in pointers && q.oid == p.oid ==> q.size == p.size
    ensures WellFormed(r)
    ensures forall q, other :: Leases(r, q, other) <==> Leases(pointers, q, other) || (q == p && other == ref)
  {
    pointers[p := (if p in pointers then pointers[p] else {}) + {ref}]
  }

  lemma ClashIsInconsistent(pointers: Pointers, updates: seq<Update>, listings: seq<Listing>, n: nat, m: nat,
                            q: Pointer, p: Pointer, ref: string)
    requires |listings| == |updates|
    requires n < |updates| && m <= |listings[n]|
    requires WellFormed(pointers) && CollectedTo(pointers, updates, listings, n, m)
    requires q in pointers && q.oid == p.oid && q.size != p.size
    requires Lists(updates, listings, ref, p)
    ensures !Consistent(updates, listings)
  {
    var other :| other in pointers[q];
    assert Leases(pointers, q, other);
    assert Lists(updates, listings, other, q);
  }

  lemma CollectOne(pointers: Pointers, updates: seq<Update>, listings: seq<Listing>, n: nat, m: nat)
    requires |listings| == |updates|
    requires n < |updates| && m < |listings[n]| && updates[n].next.Some?
    requires forall p, ref ::
      Leases(pointers, p, ref) <==>
      (PointerOf(listings[n][m]) == Some(p) && ref == updates[n].ref)
      || exists i, j :: 0 <= i < |updates| && updates[i].next.Some? && updates[i].ref == ref && 0 <= j < |listings[i]|
                  && PointerOf(listings[i][j]) == Some(p) && (i < n || (i == n && j < m))
    ensures CollectedTo(pointers, updates, listings, n, m + 1)
  {
  }

  lemma AllCollected(pointers: Pointers, updates: seq<Update>, listings: seq<Listing>)
    requires |listings| == |updates|
    requires WellFormed(pointers) && CollectedTo(pointers, updates, listings, |updates|, 0)
    ensures forall p, ref :: Leases(pointers, p, ref) <==> Lists(updates, listings, ref, p)
    ensures Consistent(updates, listings)
  {
    forall r1, p1, r2, p2 | Lists(updates, listings, r1, p1) && Lists(updates, listings, r2, p2) && p1.oid == p2.oid
      ensures p1 == p2
    {
      assert Leases(pointers, p1, r1) && Leases(pointers, p2, r2);
    }
  }

  // ---- one listing at a time -------------------------------------------------------

  /** The pointers among the listed objects. */
  function PointersIn(listing: Listing): (found: set<Pointer>)
    ensures forall p :: p in found <==> exists j :: 0 <= j < |listing| && PointerOf(listing[j]) == Some(p)
  {
    hide PointerOf;
    set j | 0 <= j < |listing| && PointerOf(listing[j]).Some? :: PointerOf(listing[j]).value
  }

  /** What scanning one update finds; a deletion is not scanned. */
  function FoundFor(u: Update, listing: Listing): set<Pointer>
  {
    if u.next.None? then {} else PointersIn(listing)
  }

  /** The pairs collected so far, with `ref` added to each pointer its listing holds. */
  function Merged(pointers: Pointers, found: set<Pointer>, ref: string): (r: Pointers)
    ensures forall p, other :: Leases(r, p, other) <==> Leases(pointers, p, other) || (p in found && other == ref)
  {
    map p | p in pointers.Keys + found ::
      (if p in pointers then pointers[p] else {}) + (if p in found then {ref} else {})
  }

  /** What one listing against these refs may find: all that is newly reachable, and nothing `next` does not hold. */
  ghost predicate ListsNew(refs: Refs, next: Option<GitObject>, found: set<Pointer>)
  {
    match next
    case None => found == {}
    case Some(n) =>
      && (forall p :: p in found ==> Holds(n, p))
      && (forall o, p :: Reaches(n, o) && !Known(refs, o) && PointerOf(o) == Some(p) ==> p in found)
  }

  lemma ListingListsNew(refs: Refs, u: Update, listing: Listing)
    requires u.next.Some? ==> IsNewObjects(refs, u.next.value, listing)
    ensures ListsNew(refs, u.next, FoundFor(u, listing))
  {
    hide PointerOf, Reaches, Known;
    if u.next.Some? {
      forall p | p in PointersIn(listing)
        ensures Holds(u.next.value, p)
      {
        var j :| 0 <= j < |listing| && PointerOf(listing[j]) == Some(p);
        assert listing[j] in listing;
      }
    }
  }

  /** The scan listing by listing: what it has collected after the first `n` updates. */
  function ScannedTo(updates: seq<Update>, listings: seq<Listing>, n: nat): Pointers
    requires |listings| == |updates| && n <= |updates|
  {
    if n == 0 then map[]
    else Merged(ScannedTo(updates, listings, n - 1), FoundFor(updates[n - 1], listings[n - 1]), updates[n - 1].ref)
  }

  /** One of the first `n` updates is to `ref` and its listing holds `p`. */
  predicate FoundBefore(updates: seq<Update>, listings: seq<Listing>, n: nat, p: Pointer, ref: string)
    requires |listings| == |updates| && n <= |updates|
  {
    exists i :: 0 <= i < n && updates[i].ref == ref && p in FoundFor(updates[i], listings[i])
  }

  lemma {:induction false} ScannedToFinds(updates: seq<Update>, listings: seq<Listing>, n: nat)
    requires |listings| == |updates| && n <= |updates|
    ensures forall p, ref ::
              Leases(ScannedTo(updates, listings, n), p, ref) <==> FoundBefore(updates, listings, n, p, ref)
    ensures forall p :: p in ScannedTo(updates, listings, n) ==> ScannedTo(updates, listings, n)[p] != {}
  {
    hide FoundFor;
    if n > 0 {
      ScannedToFinds(updates, listings, n - 1);
      assert forall p, ref :: FoundBefore(updates, listings, n, p, ref) <==>
        FoundBefore(updates, listings, n - 1, p, ref)
        || (p in FoundFor(updates[n - 1], listings[n - 1]) && ref == updates[n - 1].ref);
    }
  }

  lemma FoundIsListed(updates: seq<Update>, listings: seq<Listing>, p: Pointer, ref: string)
    requires |listings| == |updates|
    ensures FoundBefore(updates, listings, |updates|, p, ref) <==> Lists(updates, listings, ref, p)
  {
    hide PointerOf;
    if FoundBefore(updates, listings, |updates|, p, ref) {
      var i :| 0 <= i < |updates| && updates[i].ref == ref && p in FoundFor(updates[i], listings[i]);
    }
    if Lists(updates, listings, ref, p) {
      var i, j :| 0 <= i < |updates| && updates[i].next.Some? && updates[i].ref == ref && 0 <= j < |listings[i]|
                  && PointerOf(listings[i][j]) == Some(p);
      assert p in FoundFor(updates[i], listings[i]);
    }
  }

  lemma {:induction false} ScannedToGrows(updates: seq<Update>, listings: seq<Listing>, n: nat, m: nat)
    requires |listings| == |updates| && n <= m <= |updates|
    ensures ScannedTo(updates, listings, n).Keys <= ScannedTo(updates, listings, m).Keys
    decreases m
  {
    hide FoundFor, Leases;
    if n < m {
      ScannedToGrows(updates, listings, n, m - 1);
    }
  }

  /** No key of such a table is without a ref, so the pairs determine it. */
  lemma SameLeasesSameTable(a: Pointers, b: Pointers)
    requires forall p :: p in a ==> a[p] != {}
    requires forall p :: p in b ==> b[p] != {}
    requires forall p, ref :: Leases(a, p, ref) <==> Leases(b, p, ref)
    ensures a == b
  {
    forall p
      ensures p in a ==> p in b
      ensures p in b ==> p in a
    {
      if p in a {
        var ref :| ref in a[p];
        assert Leases(a, p, ref);
      }
      if p in b {
        var ref :| ref in b[p];
        assert Leases(b, p, ref);
      }
    }
    forall p | p in a
      ensures a[p] == b[p]
    {
      assert forall ref :: ref in a[p] <==> Leases(a, p, ref);
      assert forall ref :: ref in b[p] <==> Leases(b, p, ref);
    }
  }

  /** The memoised walk computes the listing-by-listing scan, and no partial result of that scan gives an identifier two
      sizes. */
  lemma ScanIsStepwise(updates: seq<Update>, listings: seq<Listing>, pointers: Pointers, n: nat)
    requires |listings| == |updates| && n <= |updates|
    requires WellFormed(pointers) && forall p, ref :: Leases(pointers, p, ref) <==> Lists(updates, listings, ref, p)
    ensures ScannedTo(updates, listings, |updates|) == pointers
    ensures WellFormed(ScannedTo(updates, listings, n))
  {
    hide Lists, FoundBefore, ScannedTo;
    ScannedToFinds(updates, listings, |updates|);
    forall p, ref
      ensures Leases(ScannedTo(updates, listings, |updates|), p, ref) <==> Leases(pointers, p, ref)
    {
      FoundIsListed(updates, listings, p, ref);
    }
    SameLeasesSameTable(ScannedTo(updates, listings, |updates|), pointers);
    ScannedToFinds(updates, listings, n);
    ScannedToGrows(updates, listings, n, |updates|);
  }

  // ---- what the scan guarantees ----------------------------------------------------

  /** Every newly reachable pair is reported, and every reported pair is a pointer its ref's proposal holds. */
  ghost predicate ScanCoversNew(refs: Refs, updates: map<string, Update>, pointers: Pointers)
  {
    && WellFormed(pointers)
    && (forall p, ref :: Leases(pointers, p, ref) ==>
          ref in updates && updates[ref].next.Some? && Holds(updates[ref].next.value, p))
    && (forall p, ref, o ::
          ref in updates && updates[ref].next.Some? && Reaches(updates[ref].next.value, o) && !Known(refs, o)
          && PointerOf(o) == Some(p) ==>
          Leases(pointers, p, ref))
  }

  /** The proposal keyed by ref; the hook has refused a repeated ref before. */
  ghost predicate ByRef(updates: seq<Update>, table: map<string, Update>)
  {
    && (forall i :: 0 <= i < |updates| ==> updates[i].ref in table && table[updates[i].ref] == updates[i])
    && (forall ref :: ref in table ==> exists i :: 0 <= i < |updates| && updates[i].ref == ref)
  }

  /** Over listings of the new objects, and whatever more Git lists with them, the scan misses no newly reachable pair
      of
      pointer and ref. */
  lemma ScanMissesNothing(refs: Refs, updates: seq<Update>, listings: seq<Listing>, table: map<string, Update>,
                          pointers: Pointers)
    requires ListingsFor(refs, updates, listings) && ByRef(updates, table)
    requires WellFormed(pointers) && forall p, ref :: Leases(pointers, p, ref) <==> Lists(updates, listings, ref, p)
    ensures ScanCoversNew(refs, table, pointers)
  {
    hide PointerOf, Reaches, Known;
    forall p, ref | Leases(pointers, p, ref)
      ensures ref in table && table[ref].next.Some? && Holds(table[ref].next.value, p)
    {
      var i, j :| 0 <= i < |updates| && updates[i].next.Some? && updates[i].ref == ref && 0 <= j < |listings[i]|
                  && PointerOf(listings[i][j]) == Some(p);
      assert listings[i][j] in listings[i];
    }
    forall p, ref, o | ref in table && table[ref].next.Some? && Reaches(table[ref].next.value, o) && !Known(refs, o)
                       && PointerOf(o) == Some(p)
      ensures Leases(pointers, p, ref)
    {
      var i :| 0 <= i < |updates| && updates[i].ref == ref;
      assert o in listings[i];
      var j :| 0 <= j < |listings[i]| && listings[i][j] == o;
      assert Lists(updates, listings, ref, p);
    }
  }

  /** The refs after Git applied the accepted subset of a proposal. */
  ghost predicate AppliesSubset(refs: Refs, updates: map<string, Update>, accepted: set<string>, after: Refs)
  {
    && accepted <= updates.Keys
    && (forall ref :: ref in after ==>
          if ref in accepted then updates[ref].next == Some(after[ref]) else ref in refs && refs[ref] == after[ref])
  }

  /** Whatever subset of a push Git accepts, the leases of that subset cover every pointer it made reachable. */
  lemma LeasesCoverAnyAcceptedSubset(refs: Refs, updates: map<string, Update>, pointers: Pointers,
                                     accepted: set<string>, after: Refs, p: Pointer)
    requires ScanCoversNew(refs, updates, pointers)
    requires AppliesSubset(refs, updates, accepted, after)
    requires Reachable(after, p)
    ensures Reachable(refs, p) || exists ref :: ref in accepted && Leases(pointers, p, ref)
  {
    hide PointerOf, Reaches;
    var ref :| ref in after && Holds(after[ref], p);
    var o :| Reaches(after[ref], o) && PointerOf(o) == Some(p);
    if ref in accepted {
      if Known(refs, o) {
        var known :| known in refs && Reaches(refs[known], o);
        assert Holds(refs[known], p);
      } else {
        assert Leases(pointers, p, ref);
      }
    } else {
      assert Holds(refs[ref], p);
    }
  }
}
