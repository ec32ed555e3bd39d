/** What every run keeps so that maintenance never deletes what Git still needs, the side conditions this rests on,
    and the steps outside the push protocol. */
module LfsInvariant {
  import opened Text
  import opened Pointer
  import opened GitObjects
  import opened PushScan
  import opened LfsWorld

  /** A lease that still counts: Git applied its proposal, nobody has accepted it yet and its context is open. */
  ghost predicate Witness(s: World, k: LeaseKey)
  {
    && k in s.push.leases
    && RefKey(k.context, k.ref) in s.git.applied
    && RefKey(k.context, k.ref) in s.push.proposals && !s.push.proposals[RefKey(k.context, k.ref)].accepted
    && k.context in s.push.contexts && s.push.contexts[k.context].validatedAt.Some?
    && !s.push.contexts[k.context].completed
  }

  /** The row a reachable pointer names exists with its size, and is promoted or about to be. */
  ghost predicate Covered(s: World, p: Pointer)
  {
    && p.oid in s.lfs.rows && s.lfs.rows[p.oid].size == p.size
    && (s.lfs.rows[p.oid].state == Referenced
        || (s.lfs.rows[p.oid].state == Available && exists k :: Witness(s, k) && k.oid == p.oid))
  }

  // ---- the invariant ---------------------------------------------------------------

  ghost predicate ContextsOk(cfg: Config, s: World)
  {
    forall c :: c in s.push.contexts ==>
      && s.push.contexts[c].createdAt <= s.clock
      && s.push.contexts[c].expiresAt == s.push.contexts[c].createdAt + cfg.contextLife
      && (s.push.contexts[c].validatedAt.Some? ==>
           s.push.contexts[c].createdAt <= s.push.contexts[c].validatedAt.value <= s.clock)
      && (s.push.contexts[c].completed ==>
           s.push.contexts[c].validatedAt.Some? && (s.push.contexts[c].expiresAt <= s.clock || c in s.git.finished))
  }

  ghost predicate HooksOk(s: World)
  {
    forall c :: c in s.push.hooks ==>
      c in s.push.contexts && WellFormed(s.push.hooks[c].pointers)
      && s.push.hooks[c].scanned <= s.push.hooks[c].updates.Keys
      && (forall ref ::
           ref in s.push.hooks[c].updates ==>
             s.push.hooks[c].updates[ref].ref == ref && Baseline(s.push.hooks[c].updates[ref]))
      && (forall p, ref ::
           Leases(s.push.hooks[c].pointers, p, ref) ==>
             ref in s.push.hooks[c].updates && s.push.hooks[c].updates[ref].next.Some?)
  }

  ghost predicate ProposalsOk(s: World)
  {
    forall k :: k in s.push.proposals ==>
      k.context in s.push.contexts && s.push.contexts[k.context].validatedAt.Some?
      && k.context in s.push.hooks && k.ref in s.push.hooks[k.context].updates
      && k.ref in s.push.hooks[k.context].scanned
      && s.push.proposals[k].prior == s.push.hooks[k.context].updates[k.ref].prior
      && s.push.proposals[k].next == s.push.hooks[k.context].updates[k.ref].next
  }

  ghost predicate LeasesOk(cfg: Config, s: World)
  {
    forall k :: k in s.push.leases ==>
      RefKey(k.context, k.ref) in s.push.proposals && s.push.proposals[RefKey(k.context, k.ref)].next.Some?
      && k.context in s.push.contexts && s.push.contexts[k.context].validatedAt.Some?
      && s.push.leases[k] == s.push.contexts[k.context].validatedAt.value + cfg.leaseLife
      && k.oid in s.lfs.rows && IsStored(s.lfs.rows[k.oid].state)
  }

  /** Of every applied ref update nobody has accepted yet, the ref still contains the proposal and the context is
      open. */
  ghost predicate AppliedHeld(s: World)
  {
    forall k :: k in s.git.applied ==>
      k in s.push.proposals
      && (!s.push.proposals[k].accepted && s.push.proposals[k].next.Some? ==>
            RefContains(s.git.refs, k.ref, s.push.proposals[k].next)
            && k.context in s.push.contexts && !s.push.contexts[k.context].completed)
  }

  ghost predicate AcceptedPromoted(s: World)
  {
    forall k :: k in s.push.leases && RefKey(k.context, k.ref) in s.push.proposals && s.push.proposals[RefKey(k.context, k.ref)].accepted ==>
      k.oid in s.lfs.rows && s.lfs.rows[k.oid].state == Referenced
  }

  /** While Git may still apply a proposal, its leases are all there. */
  ghost predicate UnappliedLeased(s: World)
  {
    forall k, p ::
      k in s.push.proposals && k !in s.git.applied && k.context in s.push.contexts
      && s.clock < s.push.contexts[k.context].expiresAt && k.context !in s.git.finished
      && k.context in s.push.hooks && Leases(s.push.hooks[k.context].pointers, p, k.ref) ==>
        LeaseKey(k.context, k.ref, p.oid) in s.push.leases && p.oid in s.lfs.rows && s.lfs.rows[p.oid].size == p.size
  }

  ghost predicate PassesOk(cfg: Config, s: World)
  {
    forall pass :: pass in s.passes ==> PassOk(cfg, s, s.passes[pass])
  }

  ghost predicate OpenSince(s: World, c: nat)
  {
    c in s.push.contexts && s.push.contexts[c].validatedAt.Some? && !s.push.contexts[c].completed
  }

  ghost predicate AppliedUpdate(s: World, k: RefKey)
  {
    k in s.git.applied && k in s.push.proposals && s.push.proposals[k].next.Some?
  }

  ghost predicate PassOk(cfg: Config, s: World, pass: Pass)
  {
    && pass.now <= s.clock
    && (forall c ::
         c in pass.todo ==>
           c in s.push.contexts && s.push.contexts[c].validatedAt.Some? && s.push.contexts[c].expiresAt <= pass.now)
    // every open context whose leases the pass may see expired is still to be reconciled
    && (forall c ::
         OpenSince(s, c) && s.push.contexts[c].validatedAt.value + cfg.leaseLife <= pass.now ==> c in pass.todo)
    && (forall k ::
         AppliedUpdate(s, k) && k.context in pass.todo && k in pass.looked && !s.push.proposals[k].accepted ==>
           k in pass.seen)
    && (forall k ::
         AppliedUpdate(s, k) && k.context in pass.todo && k.context in pass.accepted ==> s.push.proposals[k].accepted)
  }

  ghost predicate DraftsOk(s: World)
  {
    forall d, path :: d in s.drafts && path in s.drafts[d].changes && s.drafts[d].changes[path].LfsFile? ==>
      s.drafts[d].changes[path].oid in s.lfs.rows
      && s.lfs.rows[s.drafts[d].changes[path].oid].size == s.drafts[d].changes[path].size
  }

  ghost predicate RefsCovered(s: World)
  {
    forall ref, p :: ref in s.git.refs && Holds(s.git.refs[ref], p) ==> Covered(s, p)
  }

  /** What a scanned proposal would make reachable is in its scan result or covered already. */
  ghost predicate HooksCovered(s: World)
  {
    forall c, ref, p ::
      c in s.push.hooks && ref in s.push.hooks[c].scanned && ref in s.push.hooks[c].updates
      && s.push.hooks[c].updates[ref].next.Some? && Holds(s.push.hooks[c].updates[ref].next.value, p) ==>
        Leases(s.push.hooks[c].pointers, p, ref) || Covered(s, p)
  }

  ghost predicate TablesOk(cfg: Config, s: World)
  {
    && ContextsOk(cfg, s)
    && HooksOk(s)
    && ProposalsOk(s)
    && LeasesOk(cfg, s)
    && AppliedHeld(s)
    && AcceptedPromoted(s)
    && UnappliedLeased(s)
    && PassesOk(cfg, s)
    && DraftsOk(s)
  }

  ghost predicate Safe(cfg: Config, s: World)
  {
    TablesOk(cfg, s) && RefsCovered(s) && HooksCovered(s)
  }

  // ---- the side conditions -----------------------------------------------------------

  /** What the arguments assume of the world around the code. The last two concern stored bytes only. */
  datatype Condition =
    | GitInTime
    | AcceptedBeforeDeletion
    | WholeBatch
    | Readable
    | FilesCovered
    | WholePublication
    | NothingStaged
    | WholeCollection

  /** The one step of a run that each condition is about, and what it asks of it. */
  ghost predicate Meets(s: World, step: Step, condition: Condition)
  {
    match condition
    case GitInTime => step.Push? && step.push.GitUpdate? ==> InTime(s, step.push.context)
    case AcceptedBeforeDeletion => step.Push? && step.push.GitUpdate? ==>
           AcceptedFirst(s, RefKey(step.push.context, step.push.ref))
    case WholeBatch => step.Maintain? && step.maintain.StartPass? ==> step.maintain.chosen == ExpiredContexts(s)
    case Readable => !(step.Maintain? && step.maintain.SkipUnreadable?)
    case FilesCovered => step.Browse? && step.browse.Publish? ==>
           step.browse.draft in s.drafts && CoveredFiles(s, s.drafts[step.browse.draft])
    case WholePublication => !(step.Browse? && step.browse.CutPublish?)
    case NothingStaged => step.Maintain? && step.maintain.DeleteOrphan? ==> !Protected(s, step.maintain.oid)
    case WholeCollection => !(step.Maintain? && step.maintain.CutOrphan?)
  }

  /** The conditions under which reachable pointers stay covered. */
  ghost predicate Assumed(s: World, step: Step)
  {
    && Meets(s, step, GitInTime)
    && Meets(s, step, AcceptedBeforeDeletion)
    && Meets(s, step, WholeBatch)
    && Meets(s, step, Readable)
    && Meets(s, step, FilesCovered)
    && Meets(s, step, WholePublication)
  }

  /** Git moves a ref while the context of its push is unexpired. */
  ghost predicate InTime(s: World, c: nat)
  {
    c in s.push.contexts && s.clock < s.push.contexts[c].expiresAt
  }

  /** Git removes a ref only after the pushes applied to it were accepted. */
  ghost predicate AcceptedFirst(s: World, k: RefKey)
  {
    k in s.push.proposals && s.push.proposals[k].next.None? ==>
      forall j :: j in s.git.applied && j.ref == k.ref ==> j in s.push.proposals && s.push.proposals[j].accepted
  }

  ghost predicate SettledUpdate(s: World, c: nat, ref: string)
  {
    InTime(s, c) && AcceptedFirst(s, RefKey(c, ref))
  }

  /** The ordinary files of a draft hold no pointer that is not covered anyway. */
  ghost predicate CoveredFiles(s: World, draft: Draft)
  {
    forall path, p :: path in draft.changes && draft.changes[path].GitFile? && Holds(draft.changes[path].blob, p) ==>
      Covered(s, p)
  }

  lemma InitialSafe(cfg: Config, clock: int)
    ensures Safe(cfg, Initial(clock))
  {
  }

  // ---- steps outside the push protocol -----------------------------------------------

  ghost predicate RowsExtend(s: World, t: World)
  {
    forall oid :: oid in s.lfs.rows ==>
      oid in t.lfs.rows && t.lfs.rows[oid].size == s.lfs.rows[oid].size
      && (t.lfs.rows[oid].state == s.lfs.rows[oid].state || (s.lfs.rows[oid].state == Pending && t.lfs.rows[oid].state == Available))
  }

  ghost predicate ContextsExtend(s: World, t: World)
  {
    && (forall c ::
         c in s.push.contexts ==>
           c in t.push.contexts && t.push.contexts[c] == s.push.contexts[c].(consumed := t.push.contexts[c].consumed))
    && (forall c :: c in t.push.contexts && c !in s.push.contexts ==> t.push.contexts[c].validatedAt.None?)
  }

  /** Nothing of the push protocol moves; rows and contexts may appear, uploads may finish, time may pass. */
  ghost predicate Extends(s: World, t: World)
  {
    && s.clock <= t.clock && s.git.refs == t.git.refs && s.push.hooks == t.push.hooks
    && s.push.proposals == t.push.proposals && s.push.leases == t.push.leases
    && s.git.applied == t.git.applied && s.git.finished == t.git.finished && s.passes == t.passes
    && RowsExtend(s, t) && ContextsExtend(s, t)
  }

  lemma ExtendsKeepsCovered(s: World, t: World, p: Pointer)
    requires Extends(s, t) && Covered(s, p)
    ensures Covered(t, p)
  {
    if s.lfs.rows[p.oid].state == Available {
      var k :| Witness(s, k) && k.oid == p.oid;
      assert Witness(t, k);
    }
  }

  lemma ExtendsKeepsHistory(cfg: Config, s: World, t: World)
    requires TablesOk(cfg, s) && Extends(s, t)
    ensures HooksOk(t) && ProposalsOk(t) && AppliedHeld(t) && AcceptedPromoted(t)
  {
    hide RefContains, Baseline, WellFormed, Leases;
  }

  lemma ExtendsKeepsLeases(cfg: Config, s: World, t: World)
    requires TablesOk(cfg, s) && Extends(s, t)
    ensures LeasesOk(cfg, t) && UnappliedLeased(t)
  {
    hide RefContains, Baseline, WellFormed, Leases, PassOk;
  }

  lemma ExtendsKeepsPasses(cfg: Config, s: World, t: World)
    requires TablesOk(cfg, s) && Extends(s, t)
    ensures PassesOk(cfg, t)
  {
    hide RefContains, Baseline, WellFormed, Leases;
  }

  lemma ExtendsKeepsCoverage(s: World, t: World)
    requires RefsCovered(s) && HooksCovered(s) && Extends(s, t)
    ensures RefsCovered(t) && HooksCovered(t)
  {
    hide Holds, Covered, RowsExtend, ContextsExtend, Leases;
    forall p | Covered(s, p)
      ensures Covered(t, p)
    {
      ExtendsKeepsCovered(s, t, p);
    }
  }

  lemma ExtendsSafe(cfg: Config, s: World, t: World)
    requires Safe(cfg, s) && Extends(s, t) && ContextsOk(cfg, t) && DraftsOk(t)
    ensures Safe(cfg, t)
  {
    hide ContextsOk, HooksOk, ProposalsOk, LeasesOk, AppliedHeld, AcceptedPromoted;
    hide UnappliedLeased, PassesOk, DraftsOk, RefsCovered, HooksCovered, Extends;
    ExtendsKeepsHistory(cfg, s, t);
    ExtendsKeepsLeases(cfg, s, t);
    ExtendsKeepsPasses(cfg, s, t);
    ExtendsKeepsCoverage(s, t);
  }

  lemma UploadExtends(s: World, step: UploadStep)
    requires UploadEnabled(s, step)
    ensures Extends(s, ApplyUpload(s, step))
  {
  }

  lemma UploadKeepsDrafts(cfg: Config, s: World, step: UploadStep)
    requires ContextsOk(cfg, s) && DraftsOk(s) && UploadEnabled(s, step)
    ensures ContextsOk(cfg, ApplyUpload(s, step)) && DraftsOk(ApplyUpload(s, step))
  {
  }

  lemma UploadSafe(cfg: Config, s: World, step: UploadStep)
    requires Safe(cfg, s) && UploadEnabled(s, step)
    ensures Safe(cfg, ApplyUpload(s, step))
  {
    hide ContextsOk, HooksOk, ProposalsOk, LeasesOk, AppliedHeld, AcceptedPromoted, UnappliedLeased, PassesOk, DraftsOk;
    hide RefsCovered, HooksCovered, Extends, ApplyUpload;
    UploadExtends(s, step);
    UploadKeepsDrafts(cfg, s, step);
    ExtendsSafe(cfg, s, ApplyUpload(s, step));
  }

  lemma TickSafe(cfg: Config, s: World, seconds: nat)
    requires Safe(cfg, s)
    ensures Safe(cfg, s.(clock := s.clock + seconds))
  {
    hide HooksOk, ProposalsOk, LeasesOk, AppliedHeld, AcceptedPromoted;
    hide UnappliedLeased, PassesOk, RefsCovered, HooksCovered;
    ExtendsSafe(cfg, s, s.(clock := s.clock + seconds));
  }

  lemma DraftEditExtends(cfg: Config, s: World, step: DraftStep)
    requires DraftEnabled(s, step) && !step.Publish? && !step.CutPublish?
    ensures Extends(s, ApplyDraft(cfg, s, step))
  {
    hide BuiltFrom;
  }

  lemma DraftEditKeepsDrafts(cfg: Config, s: World, step: DraftStep)
    requires ContextsOk(cfg, s) && DraftsOk(s) && DraftEnabled(s, step) && !step.Publish? && !step.CutPublish?
    ensures ContextsOk(cfg, ApplyDraft(cfg, s, step)) && DraftsOk(ApplyDraft(cfg, s, step))
  {
    hide BuiltFrom;
  }

  lemma DraftEditSafe(cfg: Config, s: World, step: DraftStep)
    requires Safe(cfg, s) && DraftEnabled(s, step) && !step.Publish? && !step.CutPublish?
    ensures Safe(cfg, ApplyDraft(cfg, s, step))
  {
    hide ContextsOk, HooksOk, ProposalsOk, LeasesOk, AppliedHeld, AcceptedPromoted, UnappliedLeased, PassesOk, DraftsOk;
    hide RefsCovered, HooksCovered, Extends, ApplyDraft, DraftEnabled;
    DraftEditExtends(cfg, s, step);
    DraftEditKeepsDrafts(cfg, s, step);
    ExtendsSafe(cfg, s, ApplyDraft(cfg, s, step));
  }
}
