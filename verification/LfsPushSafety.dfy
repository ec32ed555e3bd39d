/** The receive hooks, Git's ref updates and browser publishing keep the invariant. */
module LfsPushSafety {
  import opened Text
  import opened Pointer
  import opened GitObjects
  import opened PushScan
  import opened LfsWorld
  import opened LfsInvariant

  // ---- accepting and completing a push ---------------------------------------------------

  lemma AcceptKeepsCovered(cfg: Config, s: World, c: nat, refs: set<string>, p: Pointer)
    requires Covered(s, p)
    ensures Covered(Accept(s, c, refs), p)
  {
    if s.lfs.rows[p.oid].state == Available {
      var k :| Witness(s, k) && k.oid == p.oid;
      if k.context != c || k.ref !in refs {
        assert Witness(Accept(s, c, refs), k);
      }
    }
  }

  lemma AcceptKeepsHistory(cfg: Config, s: World, c: nat, refs: set<string>)
    requires ContextsOk(cfg, s) && HooksOk(s) && ProposalsOk(s) && AppliedHeld(s)
    ensures ContextsOk(cfg, Accept(s, c, refs)) && HooksOk(Accept(s, c, refs)) && ProposalsOk(Accept(s, c, refs))
    ensures AppliedHeld(Accept(s, c, refs))
  {
    hide RefContains, Baseline, WellFormed, Leases, LeasedFor;
  }

  lemma AcceptKeepsLeases(cfg: Config, s: World, c: nat, refs: set<string>)
    requires LeasesOk(cfg, s)
    ensures LeasesOk(cfg, Accept(s, c, refs))
  {
    hide LeasedFor;
  }

  lemma AcceptKeepsPasses(cfg: Config, s: World, c: nat, refs: set<string>)
    requires PassesOk(cfg, s)
    ensures PassesOk(cfg, Accept(s, c, refs))
  {
    hide LeasedFor;
  }

  lemma AcceptKeepsRows(cfg: Config, s: World, c: nat, refs: set<string>)
    requires TablesOk(cfg, s)
    ensures AcceptedPromoted(Accept(s, c, refs)) && UnappliedLeased(Accept(s, c, refs)) && DraftsOk(Accept(s, c, refs))
  {
    hide RefContains, Baseline, WellFormed, Leases, PassesOk, AppliedHeld, HooksOk, ContextsOk;
  }

  lemma AcceptSafe(cfg: Config, s: World, c: nat, refs: set<string>)
    requires Safe(cfg, s)
    ensures Safe(cfg, Accept(s, c, refs))
  {
    hide ContextsOk, HooksOk, ProposalsOk, LeasesOk, AppliedHeld, AcceptedPromoted;
    hide UnappliedLeased, PassesOk, DraftsOk, Covered, Holds, Leases;
    AcceptKeepsHistory(cfg, s, c, refs);
    AcceptKeepsLeases(cfg, s, c, refs);
    AcceptKeepsPasses(cfg, s, c, refs);
    AcceptKeepsRows(cfg, s, c, refs);
    forall p | Covered(s, p)
      ensures Covered(Accept(s, c, refs), p)
    {
      AcceptKeepsCovered(cfg, s, c, refs, p);
    }
  }

  /** Every ref update of this push that Git applied has been accepted. */
  ghost predicate AllAccepted(s: World, c: nat)
  {
    forall k :: AppliedUpdate(s, k) && k.context == c ==> s.push.proposals[k].accepted
  }

  function Finishing(s: World, c: nat, finished: set<nat>): World
    requires c in s.push.contexts
  {
    Completed(s, c).(git := s.git.(finished := finished))
  }

  ghost predicate MayFinish(s: World, c: nat, finished: set<nat>)
  {
    && c in s.push.contexts && s.push.contexts[c].validatedAt.Some? && AllAccepted(s, c)
    && s.git.finished <= finished && (s.push.contexts[c].expiresAt <= s.clock || c in finished)
  }

  lemma FinishingKeepsCovered(cfg: Config, s: World, c: nat, finished: set<nat>, p: Pointer)
    requires LeasesOk(cfg, s) && MayFinish(s, c, finished) && Covered(s, p)
    ensures Covered(Finishing(s, c, finished), p)
  {
    if s.lfs.rows[p.oid].state == Available {
      var k :| Witness(s, k) && k.oid == p.oid;
      assert AppliedUpdate(s, RefKey(k.context, k.ref));
      assert Witness(Finishing(s, c, finished), k);
    }
  }

  lemma FinishingKeepsHistory(cfg: Config, s: World, c: nat, finished: set<nat>)
    requires ContextsOk(cfg, s) && HooksOk(s) && ProposalsOk(s) && AppliedHeld(s) && DraftsOk(s)
    requires MayFinish(s, c, finished)
    ensures var t := Finishing(s, c, finished); ContextsOk(cfg, t) && HooksOk(t) && ProposalsOk(t) && AppliedHeld(t) && DraftsOk(t)
  {
    hide RefContains, Baseline, WellFormed, Leases;
  }

  lemma FinishingKeepsLeases(cfg: Config, s: World, c: nat, finished: set<nat>)
    requires LeasesOk(cfg, s) && AcceptedPromoted(s) && UnappliedLeased(s) && MayFinish(s, c, finished)
    ensures var t := Finishing(s, c, finished); LeasesOk(cfg, t) && AcceptedPromoted(t) && UnappliedLeased(t)
  {
    hide Leases;
  }

  lemma FinishingKeepsPasses(cfg: Config, s: World, c: nat, finished: set<nat>)
    requires PassesOk(cfg, s) && MayFinish(s, c, finished)
    ensures PassesOk(cfg, Finishing(s, c, finished))
  {
  }

  lemma MayFinishNames(s: World, c: nat, finished: set<nat>)
    requires MayFinish(s, c, finished)
    ensures c in s.push.contexts
  {
  }

  lemma FinishingSafe(cfg: Config, s: World, c: nat, finished: set<nat>)
    requires Safe(cfg, s) && MayFinish(s, c, finished)
    ensures Safe(cfg, Finishing(s, c, finished))
  {
    hide ContextsOk, HooksOk, ProposalsOk, LeasesOk, AppliedHeld, AcceptedPromoted, UnappliedLeased;
    hide PassesOk, DraftsOk, Covered, Holds, Leases, MayFinish;
    FinishingKeepsHistory(cfg, s, c, finished);
    FinishingKeepsLeases(cfg, s, c, finished);
    FinishingKeepsPasses(cfg, s, c, finished);
    assert c in s.push.contexts by {
      MayFinishNames(s, c, finished);
    }
    forall p | Covered(s, p)
      ensures Covered(Finishing(s, c, finished), p)
    {
      FinishingKeepsCovered(cfg, s, c, finished, p);
    }
  }

  lemma PostReceiveSafe(cfg: Config, s: World, c: nat)
    requires Safe(cfg, s) && PushEnabled(s, PostReceive(c))
    ensures Safe(cfg, Received(s, c))
  {
    hide ContextsOk, HooksOk, ProposalsOk, LeasesOk, AppliedHeld, AcceptedPromoted;
    hide UnappliedLeased, PassesOk, DraftsOk, RefsCovered, HooksCovered, Safe;
    var accepted := Accept(s, c, AppliedRefs(s, c));
    AcceptSafe(cfg, s, c, AppliedRefs(s, c));
    assert AllAccepted(accepted, c) by {
      forall k | AppliedUpdate(accepted, k) && k.context == c
        ensures accepted.push.proposals[k].accepted
      {
        assert k.ref in AppliedRefs(s, c);
      }
    }
    FinishingSafe(cfg, accepted, c, s.git.finished + {c});
  }

  // ---- contexts, scan and validation ----------------------------------------------------

  lemma ContextStepSafe(cfg: Config, s: World, step: PushStep)
    requires Safe(cfg, s) && PushEnabled(s, step) && (step.CreateContext? || step.Consume?)
    ensures Safe(cfg, ApplyPush(cfg, s, step))
  {
    hide HooksOk, ProposalsOk, LeasesOk, AppliedHeld, AcceptedPromoted;
    hide UnappliedLeased, PassesOk, RefsCovered, HooksCovered;
    ExtendsSafe(cfg, s, ApplyPush(cfg, s, step));
  }

  /** What a starting hook, or the running hook of an unvalidated context, may hold. */
  ghost predicate HookReady(s: World, c: nat, value: Hook)
  {
    && c in s.push.contexts && (c in s.push.hooks ==> s.push.contexts[c].validatedAt.None?)
    && WellFormed(value.pointers) && value.scanned <= value.updates.Keys
    && (forall ref :: ref in value.updates ==> value.updates[ref].ref == ref && Baseline(value.updates[ref]))
    && (forall p, ref :: Leases(value.pointers, p, ref) ==> ref in value.updates && value.updates[ref].next.Some?)
  }

  /** What its scanned proposals would make reachable is in its scan result or covered already. */
  ghost predicate HookCovered(s: World, value: Hook)
  {
    forall ref, p ::
      ref in value.scanned && ref in value.updates && value.updates[ref].next.Some?
      && Holds(value.updates[ref].next.value, p) ==>
        Leases(value.pointers, p, ref) || Covered(s, p)
  }

  lemma HookKeepsHistory(cfg: Config, s: World, c: nat, value: Hook)
    requires ContextsOk(cfg, s) && HooksOk(s) && ProposalsOk(s) && AppliedHeld(s) && DraftsOk(s)
    requires HookReady(s, c, value)
    ensures var t := WithHook(s, c, value); ContextsOk(cfg, t) && HooksOk(t) && ProposalsOk(t) && AppliedHeld(t) && DraftsOk(t)
  {
    hide RefContains, Baseline, WellFormed, Leases;
  }

  lemma HookKeepsLeases(cfg: Config, s: World, c: nat, value: Hook)
    requires LeasesOk(cfg, s) && AcceptedPromoted(s) && UnappliedLeased(s) && PassesOk(cfg, s) && ProposalsOk(s)
    requires HookReady(s, c, value)
    ensures var t := WithHook(s, c, value); LeasesOk(cfg, t) && AcceptedPromoted(t) && UnappliedLeased(t) && PassesOk(cfg, t)
  {
    hide Baseline, Leases, WellFormed;
  }

  lemma HookKeepsCoverage(s: World, c: nat, value: Hook)
    requires RefsCovered(s) && HooksCovered(s) && HookCovered(s, value)
    ensures RefsCovered(WithHook(s, c, value)) && HooksCovered(WithHook(s, c, value))
  {
    hide Holds, Leases;
    var t := WithHook(s, c, value);
    forall p | Covered(s, p)
      ensures Covered(t, p)
    {
      assert forall k :: Witness(s, k) ==> Witness(t, k);
    }
    hide Covered;
  }

  lemma HookSafe(cfg: Config, s: World, c: nat, value: Hook)
    requires Safe(cfg, s) && HookReady(s, c, value) && HookCovered(s, value)
    ensures Safe(cfg, WithHook(s, c, value))
  {
    hide ContextsOk, HooksOk, ProposalsOk, LeasesOk, AppliedHeld, AcceptedPromoted, UnappliedLeased, PassesOk, DraftsOk;
    hide RefsCovered, HooksCovered, HookReady, HookCovered;
    HookKeepsHistory(cfg, s, c, value);
    HookKeepsLeases(cfg, s, c, value);
    HookKeepsCoverage(s, c, value);
  }

  lemma ProposeSafe(cfg: Config, s: World, c: nat, updates: map<string, Update>)
    requires Safe(cfg, s) && PushEnabled(s, Propose(c, updates))
    ensures Safe(cfg, WithHook(s, c, Hook(updates, map[], {})))
  {
    hide Safe, Baseline, Holds, Covered;
    HookSafe(cfg, s, c, Hook(updates, map[], {}));
  }

  /** What one listing leaves out because some ref reaches it is covered by the invariant. */
  lemma ScanCovers(s: World, ref: string, next: GitObject, found: set<Pointer>, p: Pointer)
    requires RefsCovered(s) && ListsNew(s.git.refs, Some(next), found) && Holds(next, p)
    ensures p in found || Covered(s, p)
  {
    hide PointerOf, Covered, Reaches;
    var o :| Reaches(next, o) && PointerOf(o) == Some(p);
    if Known(s.git.refs, o) {
      var known :| known in s.git.refs && Reaches(s.git.refs[known], o);
      assert Holds(s.git.refs[known], p);
    }
  }

  lemma ScannedHookReady(s: World, c: nat, ref: string, found: set<Pointer>)
    requires HooksOk(s) && ScanEnabled(s, c, ref, found)
    ensures HookReady(s, c, ScannedHook(s.push.hooks[c], ref, found))
  {
    hide Baseline, WellFormed, Leases, Holds, Reaches, Known, PointerOf;
    var hook := s.push.hooks[c];
    assert found != {} ==> hook.updates[ref].next.Some?;
  }

  lemma ScannedHookCovered(s: World, c: nat, ref: string, found: set<Pointer>)
    requires RefsCovered(s) && HooksCovered(s) && ScanEnabled(s, c, ref, found)
    ensures HookCovered(s, ScannedHook(s.push.hooks[c], ref, found))
  {
    hide WellFormed, Leases, Holds, Covered, ListsNew, RefsCovered;
    var hook := s.push.hooks[c];
    if hook.updates[ref].next.Some? {
      forall p | Holds(hook.updates[ref].next.value, p)
        ensures p in found || Covered(s, p)
      {
        ScanCovers(s, ref, hook.updates[ref].next.value, found, p);
      }
    }
  }

  lemma ScanSafe(cfg: Config, s: World, c: nat, ref: string, found: set<Pointer>)
    requires Safe(cfg, s) && ScanEnabled(s, c, ref, found)
    ensures Safe(cfg, WithHook(s, c, ScannedHook(s.push.hooks[c], ref, found)))
  {
    hide ContextsOk, HooksOk, ProposalsOk, LeasesOk, AppliedHeld, AcceptedPromoted, UnappliedLeased, PassesOk, DraftsOk;
    hide RefsCovered, HooksCovered, HookReady, HookCovered, ListsNew, WellFormed;
    ScannedHookReady(s, c, ref, found);
    ScannedHookCovered(s, c, ref, found);
    HookSafe(cfg, s, c, ScannedHook(s.push.hooks[c], ref, found));
  }

  /** What the validation transaction changes, table by table. */
  ghost predicate Validates(cfg: Config, s: World, t: World, c: nat)
  {
    && c in s.push.contexts && c in s.push.hooks
    && s.push.contexts[c].validatedAt.None? && s.push.contexts[c].consumed
    && s.push.hooks[c].scanned == s.push.hooks[c].updates.Keys
    && t.clock == s.clock && t.lfs == s.lfs && t.git == s.git && t.drafts == s.drafts && t.passes == s.passes
    && t.push.hooks == s.push.hooks
    && t.push.contexts == s.push.contexts[c := s.push.contexts[c].(validatedAt := Some(s.clock))]
    && NewProposalRows(s.push, t.push, c, s.push.hooks[c].updates)
    && NewLeaseRows(s.push, t.push, c, s.push.hooks[c].pointers, s.clock + cfg.leaseLife)
  }

  ghost predicate NewProposalRows(s: Pushes, t: Pushes, c: nat, updates: map<string, Update>)
  {
    && (forall k :: k in t.proposals <==> k in s.proposals || (k.context == c && k.ref in updates))
    && (forall k :: k in t.proposals && k.context != c ==> t.proposals[k] == s.proposals[k])
    && (forall k ::
         k in t.proposals && k.context == c && k.ref in updates ==>
           t.proposals[k] == Proposal(updates[k.ref].prior, updates[k.ref].next, false))
  }

  ghost predicate NewLeaseRows(s: Pushes, t: Pushes, c: nat, pointers: Pointers, expiry: int)
  {
    && (forall k :: k in s.leases && k.context != c ==> k in t.leases)
    && (forall k :: k in t.leases && k.context != c ==> k in s.leases && t.leases[k] == s.leases[k])
    && (forall k ::
         k in t.leases && k.context == c && k !in s.leases ==>
           t.leases[k] == expiry && exists p :: Leases(pointers, p, k.ref) && p.oid == k.oid)
    && (forall p, ref :: Leases(pointers, p, ref) ==> LeaseKey(c, ref, p.oid) in t.leases)
  }

  lemma NewProposalRowsAre(s: Pushes, t: Pushes, c: nat, updates: map<string, Update>)
    requires t.proposals == s.proposals + NewProposals(c, updates)
    ensures NewProposalRows(s, t, c, updates)
  {
    var added := NewProposals(c, updates);
    assert forall ref :: ref in updates ==>
             RefKey(c, ref) in added && added[RefKey(c, ref)] == Proposal(updates[ref].prior, updates[ref].next, false);
    assert forall k: RefKey :: k in added <==> k.context == c && k.ref in updates by {
      forall k: RefKey | k.context == c && k.ref in updates
        ensures k in added
      {
        assert k == RefKey(c, k.ref);
      }
    }
  }

  lemma NewLeaseRowsAre(s: Pushes, t: Pushes, c: nat, pointers: Pointers, expiry: int)
    requires t.leases == s.leases + (map k | k in NewLeaseKeys(c, pointers) :: expiry)
    ensures NewLeaseRows(s, t, c, pointers, expiry)
  {
    forall k | k in NewLeaseKeys(c, pointers)
      ensures k.context == c && exists p :: Leases(pointers, p, k.ref) && p.oid == k.oid
    {
      var p, ref :| p in pointers && ref in pointers[p] && k == LeaseKey(c, ref, p.oid);
      assert Leases(pointers, p, k.ref);
    }
    forall p, ref | Leases(pointers, p, ref)
      ensures LeaseKey(c, ref, p.oid) in NewLeaseKeys(c, pointers)
    {
    }
  }

  lemma ValidationIs(cfg: Config, s: World, c: nat)
    requires PushEnabled(s, Validate(c))
    ensures Validates(cfg, s, Validated(cfg, s, c), c)
  {
    hide NewProposals, NewLeaseKeys, NewProposalRows, NewLeaseRows, HasContent;
    var t := Validated(cfg, s, c);
    NewProposalRowsAre(s.push, t.push, c, s.push.hooks[c].updates);
    NewLeaseRowsAre(s.push, t.push, c, s.push.hooks[c].pointers, s.clock + cfg.leaseLife);
  }

  lemma ValidateKeepsHistory(cfg: Config, s: World, t: World, c: nat)
    requires ContextsOk(cfg, s) && HooksOk(s) && ProposalsOk(s) && AppliedHeld(s) && DraftsOk(s)
    requires Validates(cfg, s, t, c)
    ensures ContextsOk(cfg, t) && HooksOk(t) && ProposalsOk(t) && AppliedHeld(t) && DraftsOk(t)
  {
    hide RefContains, Baseline, WellFormed, Leases, NewLeaseRows;
  }

  lemma ValidateKeepsLeases(cfg: Config, s: World, t: World, c: nat)
    requires HooksOk(s) && ProposalsOk(s) && LeasesOk(cfg, s) && Validates(cfg, s, t, c)
    requires forall p :: p in s.push.hooks[c].pointers ==> HasContent(s, p)
    ensures LeasesOk(cfg, t)
  {
    hide Baseline, WellFormed;
    forall k | k in t.push.leases
      ensures RefKey(k.context, k.ref) in t.push.proposals && t.push.proposals[RefKey(k.context, k.ref)].next.Some?
      ensures k.context in t.push.contexts && t.push.contexts[k.context].validatedAt.Some?
      ensures t.push.leases[k] == t.push.contexts[k.context].validatedAt.value + cfg.leaseLife
      ensures k.oid in t.lfs.rows && IsStored(t.lfs.rows[k.oid].state)
    {
      if k.context == c {
        assert k !in s.push.leases;
        var p :| Leases(s.push.hooks[c].pointers, p, k.ref) && p.oid == k.oid;
        assert HasContent(s, p);
      }
    }
  }

  lemma ValidateKeepsPromotions(cfg: Config, s: World, t: World, c: nat)
    requires ProposalsOk(s) && LeasesOk(cfg, s) && AcceptedPromoted(s) && Validates(cfg, s, t, c)
    ensures AcceptedPromoted(t)
  {
  }

  lemma ValidateLeasesUnapplied(cfg: Config, s: World, t: World, c: nat)
    requires ProposalsOk(s) && UnappliedLeased(s) && Validates(cfg, s, t, c)
    requires forall p :: p in s.push.hooks[c].pointers ==> HasContent(s, p)
    ensures UnappliedLeased(t)
  {
    forall k, p |
      k in t.push.proposals && k !in t.git.applied && k.context in t.push.contexts
      && t.clock < t.push.contexts[k.context].expiresAt && k.context !in t.git.finished
      && k.context in t.push.hooks && Leases(t.push.hooks[k.context].pointers, p, k.ref)
      ensures LeaseKey(k.context, k.ref, p.oid) in t.push.leases && p.oid in t.lfs.rows
      ensures t.lfs.rows[p.oid].size == p.size
    {
      if k.context == c {
        assert HasContent(s, p);
      } else {
        hide Leases;
        assert k in s.push.proposals;
      }
    }
  }

  lemma ValidateKeepsPasses(cfg: Config, s: World, t: World, c: nat)
    requires ValidConfig(cfg) && PassesOk(cfg, s) && ProposalsOk(s) && AppliedHeld(s) && Validates(cfg, s, t, c)
    ensures PassesOk(cfg, t)
  {
    hide Baseline, WellFormed, Leases, HasContent, NewLeaseRows, RefContains;
  }

  lemma ValidateKeepsCovered(cfg: Config, s: World, t: World, c: nat, p: Pointer)
    requires ProposalsOk(s) && LeasesOk(cfg, s) && Validates(cfg, s, t, c) && Covered(s, p)
    ensures Covered(t, p)
  {
    if s.lfs.rows[p.oid].state == Available {
      var k :| Witness(s, k) && k.oid == p.oid;
      assert k.context != c;
      assert Witness(t, k);
    }
  }

  lemma ValidateKeepsCoverage(cfg: Config, s: World, t: World, c: nat)
    requires RefsCovered(s) && HooksCovered(s) && ProposalsOk(s) && LeasesOk(cfg, s) && Validates(cfg, s, t, c)
    ensures RefsCovered(t) && HooksCovered(t)
  {
    hide Holds, Leases, Covered, ProposalsOk, LeasesOk, NewProposalRows, NewLeaseRows;
    forall p | Covered(s, p)
      ensures Covered(t, p)
    {
      ValidateKeepsCovered(cfg, s, t, c, p);
    }
  }

  lemma ValidateSafe(cfg: Config, s: World, c: nat)
    requires ValidConfig(cfg) && Safe(cfg, s) && PushEnabled(s, Validate(c))
    ensures Safe(cfg, Validated(cfg, s, c))
  {
    hide ContextsOk, HooksOk, ProposalsOk, LeasesOk, AppliedHeld, AcceptedPromoted, UnappliedLeased;
    hide PassesOk, DraftsOk, RefsCovered, HooksCovered, HasContent, Validates;
    var t := Validated(cfg, s, c);
    ValidationIs(cfg, s, c);
    ValidateKeepsHistory(cfg, s, t, c);
    ValidateKeepsLeases(cfg, s, t, c);
    ValidateKeepsPromotions(cfg, s, t, c);
    ValidateLeasesUnapplied(cfg, s, t, c);
    ValidateKeepsPasses(cfg, s, t, c);
    ValidateKeepsCoverage(cfg, s, t, c);
  }

  // ---- Git moves a ref ---------------------------------------------------------------------

  ghost predicate UpdateReady(s: World, k: RefKey)
  {
    && k in s.push.proposals && k !in s.git.applied && k.context !in s.git.finished
    && RefIs(s.git.refs, k.ref, s.push.proposals[k].prior)
    && SettledUpdate(s, k.context, k.ref)
  }

  /** What a ref held before a fast-forward it still holds afterwards. */
  lemma FastForwardContains(refs: Refs, ref: string, held: GitObject, next: GitObject)
    requires RefContains(refs, ref, Some(held))
    requires IsBranch(ref) && IsAncestor(refs[ref], next)
    ensures RefContains(refs[ref := next], ref, Some(held))
  {
    if refs[ref] != held {
      AncestorTransitive(held, refs[ref], next);
    }
  }

  lemma UpdateKeepsHeld(cfg: Config, s: World, k: RefKey)
    requires ContextsOk(cfg, s) && HooksOk(s) && ProposalsOk(s) && AppliedHeld(s) && UpdateReady(s, k)
    ensures AppliedHeld(Updated(s, k))
  {
    hide IsAncestor, Peel, WellFormed, Leases, IsBranch, IsTag;
    var t := Updated(s, k);
    var u := s.push.hooks[k.context].updates[k.ref];
    assert Baseline(u) && u.ref == k.ref && u.prior == s.push.proposals[k].prior && u.next == s.push.proposals[k].next;
    forall j | j in t.git.applied && !t.push.proposals[j].accepted && t.push.proposals[j].next.Some?
      ensures RefContains(t.git.refs, j.ref, t.push.proposals[j].next)
      ensures j.context in t.push.contexts && !t.push.contexts[j.context].completed
    {
      if j != k && j.ref == k.ref {
        assert RefContains(s.git.refs, j.ref, s.push.proposals[j].next);
        assert u.prior.Some?;
        if u.next.Some? {
          assert IsBranch(k.ref);
          FastForwardContains(s.git.refs, k.ref, s.push.proposals[j].next.value, u.next.value);
        }
      }
    }
  }

  lemma UpdateKeepsHistory(cfg: Config, s: World, k: RefKey)
    requires ContextsOk(cfg, s) && HooksOk(s) && ProposalsOk(s) && DraftsOk(s) && k in s.push.proposals
    ensures var t := Updated(s, k); ContextsOk(cfg, t) && HooksOk(t) && ProposalsOk(t) && DraftsOk(t)
  {
    hide Baseline, WellFormed, Leases, WithRef;
  }

  lemma UpdateKeepsLeases(cfg: Config, s: World, k: RefKey)
    requires LeasesOk(cfg, s) && AcceptedPromoted(s) && UnappliedLeased(s) && k in s.push.proposals
    ensures var t := Updated(s, k); LeasesOk(cfg, t) && AcceptedPromoted(t) && UnappliedLeased(t)
  {
    hide Leases, WithRef;
  }

  lemma UpdateKeepsPasses(cfg: Config, s: World, k: RefKey)
    requires PassesOk(cfg, s) && UpdateReady(s, k)
    ensures PassesOk(cfg, Updated(s, k))
  {
    hide RefIs, WithRef;
  }

  /** Whatever the updated ref now reaches was covered before or is leased by the push that moved it. */
  lemma UpdateCovers(cfg: Config, s: World, k: RefKey, p: Pointer)
    requires ContextsOk(cfg, s) && HooksOk(s) && ProposalsOk(s) && LeasesOk(cfg, s) && AcceptedPromoted(s)
    requires UnappliedLeased(s) && HooksCovered(s) && UpdateReady(s, k)
    requires s.push.proposals[k].next.Some? && Holds(s.push.proposals[k].next.value, p)
    ensures Covered(Updated(s, k), p)
  {
    hide Holds, Baseline, WellFormed, RefIs, WithRef, RefContains;
    var t := Updated(s, k);
    var lease := LeaseKey(k.context, k.ref, p.oid);
    if Leases(s.push.hooks[k.context].pointers, p, k.ref) {
      assert lease in s.push.leases;
      if !s.push.proposals[k].accepted {
        assert Witness(t, lease);
      }
    } else {
      CoveredThroughUpdate(s, k, p);
    }
  }

  lemma CoveredThroughUpdate(s: World, k: RefKey, p: Pointer)
    requires k in s.push.proposals && Covered(s, p)
    ensures Covered(Updated(s, k), p)
  {
    if s.lfs.rows[p.oid].state == Available {
      var j :| Witness(s, j) && j.oid == p.oid;
      assert Witness(Updated(s, k), j);
    }
  }

  lemma UpdateSafe(cfg: Config, s: World, k: RefKey)
    requires Safe(cfg, s) && UpdateReady(s, k)
    ensures Safe(cfg, Updated(s, k))
  {
    hide ContextsOk, HooksOk, ProposalsOk, LeasesOk, AppliedHeld, AcceptedPromoted, UnappliedLeased;
    hide PassesOk, DraftsOk, Holds, Leases, Covered, SettledUpdate, RefIs;
    var t := Updated(s, k);
    UpdateKeepsHeld(cfg, s, k);
    UpdateKeepsHistory(cfg, s, k);
    UpdateKeepsLeases(cfg, s, k);
    UpdateKeepsPasses(cfg, s, k);
    forall p | Covered(s, p)
      ensures Covered(t, p)
    {
      CoveredThroughUpdate(s, k, p);
    }
    forall ref, p | ref in t.git.refs && Holds(t.git.refs[ref], p)
      ensures Covered(t, p)
    {
      if ref == k.ref {
        UpdateCovers(cfg, s, k, p);
      }
    }
  }

  // ---- a browser draft is published ---------------------------------------------------------

  ghost predicate PublishReady(s: World, d: nat, commit: GitObject)
  {
    d in s.drafts && Publishable(s, d, commit) && CoveredFiles(s, s.drafts[d])
  }

  lemma PublishKeepsCovered(s: World, d: nat, commit: GitObject, p: Pointer)
    requires d in s.drafts && Covered(s, p)
    ensures Covered(Published(s, d, commit), p)
  {
    hide StagedOid;
    if s.lfs.rows[p.oid].state == Available {
      var k :| Witness(s, k) && k.oid == p.oid;
      assert Witness(Published(s, d, commit), k);
    }
  }

  /** A pointer of the published commit comes from the base, a staged LFS file or a covered ordinary file. */
  lemma PublishCovers(s: World, d: nat, commit: GitObject, p: Pointer)
    requires d in s.drafts && RefsCovered(s) && DraftsOk(s) && PublishReady(s, d, commit) && Holds(commit, p)
    ensures Covered(Published(s, d, commit), p)
  {
    hide PointerOf, Covered, Witness, IsBranch;
    var draft := s.drafts[d];
    var o :| Reaches(commit, o) && PointerOf(o) == Some(p);
    BlobOnly(commit);
    var i :| 0 <= i < |Links(commit)| && Reaches(Links(commit)[i], o);
    if draft.base.Some? && Reaches(draft.base.value, o) {
      assert Holds(draft.base.value, p);
      PublishKeepsCovered(s, d, commit, p);
    } else {
      assert i == 0;
      if path :| path in draft.changes && draft.changes[path] == LfsFile(p.oid, p.size) {
        StagedIsCovered(s, d, commit, path, p);
      } else {
        var path :| path in draft.changes && draft.changes[path] == GitFile(o);
        HoldsSelf(o, p);
        PublishKeepsCovered(s, d, commit, p);
      }
    }
  }

  lemma BlobOnly(o: GitObject)
    ensures PointerOf(o).Some? ==> o.Blob?
  {
  }

  lemma HoldsSelf(o: GitObject, p: Pointer)
    requires PointerOf(o) == Some(p)
    ensures Holds(o, p)
  {
    hide PointerOf;
    assert Reaches(o, o);
  }

  lemma StagedIsCovered(s: World, d: nat, commit: GitObject, path: string, p: Pointer)
    requires d in s.drafts && DraftsOk(s) && Publishable(s, d, commit)
    requires path in s.drafts[d].changes && s.drafts[d].changes[path] == LfsFile(p.oid, p.size)
    ensures Covered(Published(s, d, commit), p)
  {
    hide BuiltFrom, RefIs, Witness;
    assert StagedOid(s.drafts[d], p.oid);
  }

  lemma PublishKeepsHeld(s: World, d: nat, commit: GitObject)
    requires d in s.drafts && AppliedHeld(s) && Publishable(s, d, commit)
    ensures AppliedHeld(Published(s, d, commit))
  {
    hide IsBranch, Reaches, PointerOf;
    var t := Published(s, d, commit);
    var target := Ref(s.drafts[d].branch);
    assert IsBranch(target) by {
      BranchRef(s.drafts[d].branch);
    }
    forall j | j in t.git.applied && !t.push.proposals[j].accepted && t.push.proposals[j].next.Some?
      ensures RefContains(t.git.refs, j.ref, t.push.proposals[j].next)
    {
      assert RefContains(s.git.refs, j.ref, s.push.proposals[j].next);
      if j.ref == target {
        var base := s.drafts[d].base.value;
        assert commit.parents[0] == base && IsAncestor(base, commit.parents[0]);
        FastForwardContains(s.git.refs, target, s.push.proposals[j].next.value, commit);
      }
    }
  }

  lemma BranchRef(branch: string)
    ensures IsBranch(Ref(branch))
  {
  }

  lemma PublishKeepsHistory(cfg: Config, s: World, d: nat, commit: GitObject)
    requires ContextsOk(cfg, s) && HooksOk(s) && ProposalsOk(s) && d in s.drafts
    ensures var t := Published(s, d, commit); ContextsOk(cfg, t) && HooksOk(t) && ProposalsOk(t)
  {
    hide Baseline, WellFormed, Leases, StagedOid;
  }

  lemma PublishKeepsLeases(cfg: Config, s: World, d: nat, commit: GitObject)
    requires LeasesOk(cfg, s) && AcceptedPromoted(s) && UnappliedLeased(s) && d in s.drafts
    ensures var t := Published(s, d, commit); LeasesOk(cfg, t) && AcceptedPromoted(t) && UnappliedLeased(t)
  {
    hide Leases, StagedOid;
  }

  lemma PublishKeepsPasses(cfg: Config, s: World, d: nat, commit: GitObject)
    requires PassesOk(cfg, s) && DraftsOk(s) && d in s.drafts
    ensures PassesOk(cfg, Published(s, d, commit)) && DraftsOk(Published(s, d, commit))
  {
    hide StagedOid;
  }

  lemma PublishSafe(cfg: Config, s: World, d: nat, commit: GitObject)
    requires d in s.drafts && Safe(cfg, s) && PublishReady(s, d, commit)
    ensures Safe(cfg, Published(s, d, commit))
  {
    hide ContextsOk, HooksOk, ProposalsOk, LeasesOk, AppliedHeld, AcceptedPromoted, UnappliedLeased, PassesOk;
    hide DraftsOk, Holds, Leases, Covered, BuiltFrom, CoveredFiles, StagedOid;
    var t := Published(s, d, commit);
    PublishKeepsHeld(s, d, commit);
    PublishKeepsHistory(cfg, s, d, commit);
    PublishKeepsLeases(cfg, s, d, commit);
    PublishKeepsPasses(cfg, s, d, commit);
    forall p | Covered(s, p)
      ensures Covered(t, p)
    {
      PublishKeepsCovered(s, d, commit, p);
    }
    forall ref, p | ref in t.git.refs && Holds(t.git.refs[ref], p)
      ensures Covered(t, p)
    {
      if ref == Ref(s.drafts[d].branch) {
        PublishCovers(s, d, commit, p);
      }
    }
  }
}
