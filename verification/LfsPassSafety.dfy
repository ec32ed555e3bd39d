/** Maintenance passes keep the invariant, and so does every run that meets the side conditions. */
module LfsPassSafety {
  import opened Text
  import opened Pointer
  import opened GitObjects
  import opened PushScan
  import opened LfsWorld
  import opened LfsInvariant
  import opened LfsPushSafety

  /** Only pass records differ. */
  ghost predicate SameButPasses(s: World, t: World)
  {
    s.clock == t.clock && s.lfs == t.lfs && s.push == t.push && s.git == t.git && s.drafts == t.drafts
  }

  lemma SameHistory(cfg: Config, s: World, t: World)
    requires ContextsOk(cfg, s) && HooksOk(s) && ProposalsOk(s) && AppliedHeld(s) && DraftsOk(s) && SameButPasses(s, t)
    ensures ContextsOk(cfg, t) && HooksOk(t) && ProposalsOk(t) && AppliedHeld(t) && DraftsOk(t)
  {
    hide Leases, Baseline, WellFormed, RefContains;
  }

  lemma SameLeases(cfg: Config, s: World, t: World)
    requires LeasesOk(cfg, s) && AcceptedPromoted(s) && UnappliedLeased(s) && SameButPasses(s, t)
    ensures LeasesOk(cfg, t) && AcceptedPromoted(t) && UnappliedLeased(t)
  {
    hide Leases;
  }

  lemma SameCoverage(s: World, t: World)
    requires RefsCovered(s) && HooksCovered(s) && SameButPasses(s, t)
    ensures RefsCovered(t) && HooksCovered(t)
  {
    hide Holds, Leases;
    forall p | Covered(s, p)
      ensures Covered(t, p)
    {
      assert forall k :: Witness(s, k) ==> Witness(t, k);
    }
  }

  lemma PassRecordKeepsPasses(cfg: Config, s: World, pass: nat, value: Pass)
    requires PassesOk(cfg, s) && PassOk(cfg, s, value)
    ensures PassesOk(cfg, WithPass(s, pass, value))
  {
  }

  lemma PassRecordSafe(cfg: Config, s: World, pass: nat, value: Pass)
    requires Safe(cfg, s) && PassOk(cfg, s, value)
    ensures Safe(cfg, WithPass(s, pass, value))
  {
    hide ContextsOk, HooksOk, ProposalsOk, LeasesOk, AppliedHeld, AcceptedPromoted;
    hide UnappliedLeased, PassesOk, DraftsOk, RefsCovered, HooksCovered;
    var t := WithPass(s, pass, value);
    SameHistory(cfg, s, t);
    SameLeases(cfg, s, t);
    SameCoverage(s, t);
    PassRecordKeepsPasses(cfg, s, pass, value);
  }

  /** A pass starts with every context whose leases it could see expired: a lease never expires before its context. */
  lemma StartPassSafe(cfg: Config, s: World, pass: nat)
    requires ValidConfig(cfg) && Safe(cfg, s)
    ensures Safe(cfg, WithPass(s, pass, Pass(s.clock, ExpiredContexts(s), {}, {}, {})))
  {
    hide HooksOk, ProposalsOk, LeasesOk, AppliedHeld, AcceptedPromoted;
    hide UnappliedLeased, PassesOk, RefsCovered, HooksCovered, DraftsOk;
    PassRecordSafe(cfg, s, pass, Pass(s.clock, ExpiredContexts(s), {}, {}, {}));
  }

  /** A proposal Git applied and nobody has accepted is still held by its ref, so a look at the ref finds it. */
  lemma ObserveSafe(cfg: Config, s: World, pass: nat, k: RefKey)
    requires Safe(cfg, s) && PassEnabled(cfg, s, Observe(pass, k))
    ensures Safe(cfg, ApplyPass(cfg, s, Observe(pass, k)))
  {
    hide HooksOk, ProposalsOk, LeasesOk, AcceptedPromoted, UnappliedLeased;
    hide RefsCovered, HooksCovered, DraftsOk, RefContains, ContextsOk;
    assert PassOk(cfg, s, s.passes[pass]);
    assert AppliedUpdate(s, k) && !s.push.proposals[k].accepted ==> StillHeld(s, k);
    hide StillHeld, AppliedHeld, PassesOk;
    PassRecordSafe(cfg, s, pass, Observed(s, s.passes[pass], k));
  }

  lemma AcceptSeenKeepsPass(cfg: Config, s: World, pass: Pass, c: nat)
    requires PassOk(cfg, s, pass) && PassOk(cfg, Accept(s, c, SeenBy(pass, c)), pass)
    requires c in pass.todo && LookedAll(s, pass, c)
    ensures PassOk(cfg, Accept(s, c, SeenBy(pass, c)), pass.(accepted := pass.accepted + {c}))
  {
    hide LeasedFor;
    var t := Accept(s, c, SeenBy(pass, c));
    forall k | AppliedUpdate(t, k) && k.context == c
      ensures t.push.proposals[k].accepted
    {
      assert AppliedUpdate(s, k);
      if !s.push.proposals[k].accepted {
        assert k in pass.seen;
        assert k.ref in SeenBy(pass, c);
      }
    }
  }

  lemma AcceptSeenSafe(cfg: Config, s: World, pass: nat, c: nat)
    requires Safe(cfg, s) && PassEnabled(cfg, s, AcceptSeen(pass, c))
    ensures Safe(cfg, ApplyPass(cfg, s, AcceptSeen(pass, c)))
  {
    hide HooksOk, ProposalsOk, LeasesOk, AcceptedPromoted, UnappliedLeased;
    hide RefsCovered, HooksCovered, DraftsOk, AppliedHeld, ContextsOk;
    var before := s.passes[pass];
    var t := Accept(s, c, SeenBy(before, c));
    AcceptSafe(cfg, s, c, SeenBy(before, c));
    assert PassOk(cfg, s, before) && PassOk(cfg, t, before);
    hide PassesOk, PassOk, Accept, SeenBy, LookedAll;
    AcceptSeenKeepsPass(cfg, s, before, c);
    PassRecordSafe(cfg, t, pass, before.(accepted := before.accepted + {c}));
  }

  lemma CloseSafe(cfg: Config, s: World, pass: nat, c: nat)
    requires Safe(cfg, s) && PassEnabled(cfg, s, Close(pass, c))
    ensures Safe(cfg, ApplyPass(cfg, s, Close(pass, c)))
  {
    hide HooksOk, ProposalsOk, LeasesOk, AcceptedPromoted, UnappliedLeased;
    hide RefsCovered, HooksCovered, DraftsOk, AppliedHeld, ContextsOk;
    var before := s.passes[pass];
    assert PassOk(cfg, s, before);
    var t := Completed(s, c);
    FinishingSafe(cfg, s, c, s.git.finished);
    assert Finishing(s, c, s.git.finished) == t;
    assert PassOk(cfg, t, before);
    hide PassesOk;
    assert PassOk(cfg, t, before.(todo := before.todo - {c}));
    PassRecordSafe(cfg, t, pass, before.(todo := before.todo - {c}));
  }

  // ---- deleting an orphan -----------------------------------------------------------------

  /** An object a pass may delete carries no lease of any ref update Git applied. */
  lemma DeletableWasNeverApplied(cfg: Config, s: World, pass: nat, oid: string, k: LeaseKey)
    requires TablesOk(cfg, s) && Deletable(cfg, s, pass, oid)
    requires k in s.push.leases && k.oid == oid
    ensures RefKey(k.context, k.ref) !in s.git.applied
  {
    hide HooksOk, ProposalsOk, ContextsOk, UnappliedLeased, DraftsOk, RefContains;
    var j := RefKey(k.context, k.ref);
    assert PassOk(cfg, s, s.passes[pass]);
    assert s.push.leases[k] <= s.passes[pass].now;
    assert !OpenSince(s, k.context);
  }

  lemma DeletableIsNotCovered(cfg: Config, s: World, pass: nat, oid: string, p: Pointer)
    requires TablesOk(cfg, s) && Deletable(cfg, s, pass, oid) && Covered(s, p)
    ensures p.oid != oid
  {
    hide TablesOk;
    if p.oid == oid {
      var k :| Witness(s, k) && k.oid == oid;
      DeletableWasNeverApplied(cfg, s, pass, oid, k);
    }
  }

  lemma DeletionKeepsCovered(cfg: Config, s: World, pass: nat, oid: string, p: Pointer)
    requires TablesOk(cfg, s) && Deletable(cfg, s, pass, oid) && Covered(s, p)
    ensures Covered(WithoutRow(s, oid), p)
  {
    hide TablesOk, Deletable;
    DeletableIsNotCovered(cfg, s, pass, oid, p);
    CoveredWithoutRow(s, oid, p);
  }

  lemma CoveredWithoutRow(s: World, oid: string, p: Pointer)
    requires Covered(s, p) && p.oid != oid
    ensures Covered(WithoutRow(s, oid), p)
  {
    if s.lfs.rows[p.oid].state == Available {
      var k :| Witness(s, k) && k.oid == p.oid;
      assert Witness(WithoutRow(s, oid), k);
    }
  }

  /** While Git may still apply a proposal its leases are alive, so their objects are not deleted. */
  lemma DeletionKeepsUnapplied(cfg: Config, s: World, pass: nat, oid: string)
    requires ContextsOk(cfg, s) && ValidConfig(cfg) && LeasesOk(cfg, s) && UnappliedLeased(s) && PassesOk(cfg, s)
    requires Deletable(cfg, s, pass, oid)
    ensures UnappliedLeased(WithoutRow(s, oid))
  {
    hide Leases;
    var t := WithoutRow(s, oid);
    forall k, p |
      k in s.push.proposals && k !in s.git.applied && k.context in s.push.contexts
      && s.clock < s.push.contexts[k.context].expiresAt && k.context !in s.git.finished
      && k.context in s.push.hooks && Leases(s.push.hooks[k.context].pointers, p, k.ref)
      ensures p.oid != oid
    {
      var lease := LeaseKey(k.context, k.ref, p.oid);
      assert lease in s.push.leases;
      assert PassOk(cfg, s, s.passes[pass]);
      assert s.push.leases[lease] > s.passes[pass].now;
    }
  }

  lemma DeletionKeepsHistory(cfg: Config, s: World, oid: string)
    requires ContextsOk(cfg, s) && HooksOk(s) && ProposalsOk(s) && AppliedHeld(s)
    ensures var t := WithoutRow(s, oid); ContextsOk(cfg, t) && HooksOk(t) && ProposalsOk(t) && AppliedHeld(t)
  {
    hide Leases, Baseline, WellFormed, RefContains;
  }

  lemma DeletionKeepsRows(cfg: Config, s: World, oid: string)
    requires LeasesOk(cfg, s) && AcceptedPromoted(s) && DraftsOk(s) && !Protected(s, oid)
    ensures var t := WithoutRow(s, oid); LeasesOk(cfg, t) && AcceptedPromoted(t) && DraftsOk(t)
  {
  }

  lemma DeletionKeepsPasses(cfg: Config, s: World, oid: string)
    requires PassesOk(cfg, s)
    ensures PassesOk(cfg, WithoutRow(s, oid))
  {
  }

  lemma DeletionSafe(cfg: Config, s: World, pass: nat, oid: string)
    requires ValidConfig(cfg) && Safe(cfg, s) && Deletable(cfg, s, pass, oid) && !Protected(s, oid)
    ensures Safe(cfg, WithoutRow(s, oid))
  {
    hide ContextsOk, HooksOk, ProposalsOk, LeasesOk, AppliedHeld, AcceptedPromoted, UnappliedLeased;
    hide PassesOk, DraftsOk, Covered, Holds, Leases, Deletable, Protected;
    DeletionKeepsUnapplied(cfg, s, pass, oid);
    DeletionKeepsHistory(cfg, s, oid);
    DeletionKeepsRows(cfg, s, oid);
    DeletionKeepsPasses(cfg, s, oid);
    forall p | Covered(s, p)
      ensures Covered(WithoutRow(s, oid), p)
    {
      DeletionKeepsCovered(cfg, s, pass, oid, p);
    }
  }

  lemma BytesSafe(cfg: Config, s: World, oid: string)
    requires Safe(cfg, s)
    ensures Safe(cfg, WithoutBytes(s, oid))
  {
    hide HooksOk, ProposalsOk, LeasesOk, AppliedHeld, AcceptedPromoted;
    hide UnappliedLeased, PassesOk, RefsCovered, HooksCovered;
    ExtendsSafe(cfg, s, WithoutBytes(s, oid));
  }

  lemma OrphanStepSafe(cfg: Config, s: World, pass: nat, oid: string)
    requires ValidConfig(cfg) && Safe(cfg, s) && Deletable(cfg, s, pass, oid)
    ensures Safe(cfg, if Protected(s, oid) then WithoutBytes(s, oid) else WithoutRow(WithoutBytes(s, oid), oid))
  {
    hide Safe;
    BytesSafe(cfg, s, oid);
    if !Protected(s, oid) {
      DeletionSafe(cfg, WithoutBytes(s, oid), pass, oid);
    }
  }

  // ---- every run -----------------------------------------------------------------------------

  lemma PushStepSafe(cfg: Config, s: World, step: PushStep)
    requires ValidConfig(cfg) && Safe(cfg, s) && PushEnabled(s, step) && Assumed(s, Push(step))
    ensures Safe(cfg, ApplyPush(cfg, s, step))
  {
    hide Safe, InTime, AcceptedFirst;
    match step
    case CreateContext(_) => ContextStepSafe(cfg, s, step);
    case Consume(_) => ContextStepSafe(cfg, s, step);
    case Propose(c, updates) => ProposeSafe(cfg, s, c, updates);
    case Scan(c, ref, found) => ScanSafe(cfg, s, c, ref, found);
    case Validate(c) => ValidateSafe(cfg, s, c);
    case GitUpdate(c, ref) => UpdateSafe(cfg, s, RefKey(c, ref));
    case PostReceive(c) => PostReceiveSafe(cfg, s, c);
  }

  lemma PassStepSafe(cfg: Config, s: World, step: PassStep)
    requires ValidConfig(cfg) && Safe(cfg, s) && PassEnabled(cfg, s, step) && Assumed(s, Maintain(step))
    ensures Safe(cfg, ApplyPass(cfg, s, step))
  {
    hide Safe, Deletable;
    match step
    case StartPass(pass, _) => StartPassSafe(cfg, s, pass);
    case Observe(pass, k) => ObserveSafe(cfg, s, pass, k);
    case AcceptSeen(pass, c) => AcceptSeenSafe(cfg, s, pass, c);
    case Close(pass, c) => CloseSafe(cfg, s, pass, c);
    case DeleteOrphan(pass, oid) => OrphanStepSafe(cfg, s, pass, oid);
    case CutOrphan(_, oid) => BytesSafe(cfg, s, oid);
    case _ =>
  }

  lemma PublishStepSafe(cfg: Config, s: World, d: nat, commit: GitObject)
    requires Safe(cfg, s) && DraftEnabled(s, Publish(d, commit)) && Assumed(s, Browse(Publish(d, commit)))
    ensures Safe(cfg, ApplyDraft(cfg, s, Publish(d, commit)))
  {
    hide Safe, Publishable, CoveredFiles;
    PublishSafe(cfg, s, d, commit);
  }

  lemma DraftStepSafe(cfg: Config, s: World, step: DraftStep)
    requires Safe(cfg, s) && DraftEnabled(s, step) && Assumed(s, Browse(step))
    ensures Safe(cfg, ApplyDraft(cfg, s, step))
  {
    hide Safe, DraftEnabled, ApplyDraft;
    match step
    case Publish(d, commit) => PublishStepSafe(cfg, s, d, commit);
    case CutPublish(_, _) =>
    case _ => DraftEditSafe(cfg, s, step);
  }

  lemma StepSafe(cfg: Config, s: World, step: Step)
    requires ValidConfig(cfg) && Safe(cfg, s) && Enabled(cfg, s, step) && Assumed(s, step)
    ensures Safe(cfg, Apply(cfg, s, step))
  {
    hide Safe, UploadEnabled, PushEnabled, PassEnabled, DraftEnabled;
    hide ApplyUpload, ApplyPush, ApplyPass, ApplyDraft, Assumed;
    match step
    case Tick(seconds) => TickSafe(cfg, s, seconds);
    case Upload(u) => UploadSafe(cfg, s, u);
    case Push(p) => PushStepSafe(cfg, s, p);
    case Maintain(m) => PassStepSafe(cfg, s, m);
    case Browse(b) => DraftStepSafe(cfg, s, b);
  }

  ghost predicate AssumedRun(steps: seq<Step>, states: seq<World>)
  {
    |states| == |steps| + 1 && forall i :: 0 <= i < |steps| ==> Assumed(states[i], steps[i])
  }

  lemma {:induction false} RunSafe(cfg: Config, steps: seq<Step>, states: seq<World>, i: nat)
    requires ValidConfig(cfg) && IsRun(cfg, steps, states) && AssumedRun(steps, states)
    requires Safe(cfg, states[0]) && i < |states|
    ensures Safe(cfg, states[i])
  {
    hide Safe, Enabled, Apply, Assumed;
    if i > 0 {
      RunSafe(cfg, steps, states, i - 1);
      StepSafe(cfg, states[i - 1], steps[i - 1]);
    }
  }

  /** In every run, whatever pointer a ref reaches names an existing row of that size which is promoted, or leased by a
      push that Git applied and whose acceptance is still to come. */
  lemma ReachablePointersAreCovered(cfg: Config, clock: int, steps: seq<Step>, states: seq<World>, i: nat, p: Pointer)
    requires ValidConfig(cfg) && IsRun(cfg, steps, states) && AssumedRun(steps, states)
    requires states[0] == Initial(clock) && i < |states| && Reachable(states[i].git.refs, p)
    ensures Covered(states[i], p)
  {
    hide IsRun, AssumedRun, TablesOk, HooksCovered, Covered, Holds;
    InitialSafe(cfg, clock);
    RunIsRun(cfg, steps, states);
    RunSafe(cfg, steps, states, i);
  }

  lemma RunIsRun(cfg: Config, steps: seq<Step>, states: seq<World>)
    requires IsRun(cfg, steps, states)
    ensures |states| == |steps| + 1
  {
  }

  /** In every run, an object a maintenance pass deletes is named by no pointer any ref reaches, and holds no lease of a
      ref update Git applied. */
  lemma NeededObjectsAreNeverDeleted(cfg: Config, clock: int, steps: seq<Step>, states: seq<World>, i: nat, pass: nat,
                                     oid: string)
    requires ValidConfig(cfg) && IsRun(cfg, steps, states) && AssumedRun(steps, states)
    requires states[0] == Initial(clock) && i < |steps| && steps[i] == Maintain(DeleteOrphan(pass, oid))
    ensures forall p :: Reachable(states[i].git.refs, p) ==> p.oid != oid
    ensures forall k ::
              k in states[i].push.leases && k.oid == oid ==> RefKey(k.context, k.ref) !in states[i].git.applied
  {
    var s := states[i];
    assert Enabled(cfg, s, steps[i]) && Deletable(cfg, s, pass, oid);
    hide IsRun, AssumedRun, Deletable, Covered, Holds, TablesOk, HooksCovered, Enabled;
    InitialSafe(cfg, clock);
    RunIsRun(cfg, steps, states);
    RunSafe(cfg, steps, states, i);
    forall p | Reachable(s.git.refs, p)
      ensures p.oid != oid
    {
      DeletableIsNotCovered(cfg, s, pass, oid, p);
    }
    forall k | k in s.push.leases && k.oid == oid
      ensures RefKey(k.context, k.ref) !in s.git.applied
    {
      DeletableWasNeverApplied(cfg, s, pass, oid, k);
    }
  }
}
