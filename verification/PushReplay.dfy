/** Replay safety of the receive protocol: accepting is idempotent and independent of order, every accepted ref has one
    audit event however often it was replayed, and a context is consumed and validated at most once. */
module PushReplay {
  import opened Text
  import opened GitObjects
  import opened PushScan
  import opened LfsWorld
  import opened LfsPushSafety

  // ---- accepting ---------------------------------------------------------------------------

  lemma LeasedForUnion(push: Pushes, c: nat, a: set<string>, b: set<string>, oid: string)
    ensures LeasedFor(push, c, a + b, oid) <==> LeasedFor(push, c, a, oid) || LeasedFor(push, c, b, oid)
  {
  }

  lemma LeasesUntouched(s: Pushes, t: Pushes, c: nat, refs: set<string>, oid: string)
    requires s.leases == t.leases
    ensures LeasedFor(s, c, refs, oid) <==> LeasedFor(t, c, refs, oid)
  {
  }

  /** Accepting one set of refs and then another is accepting their union. */
  lemma AcceptMerges(s: World, c: nat, a: set<string>, b: set<string>)
    ensures Accept(Accept(s, c, a), c, b) == Accept(s, c, a + b)
  {
    var once, twice, merged := Accept(s, c, a), Accept(Accept(s, c, a), c, b), Accept(s, c, a + b);
    ProposalsMerge(s.push, once.push, c, a, b);
    assert twice.push.audited == merged.push.audited;
    forall oid | oid in s.lfs.rows
      ensures twice.lfs.rows[oid] == merged.lfs.rows[oid]
    {
      LeasedForUnion(s.push, c, a, b, oid);
      LeasesUntouched(s.push, once.push, c, b, oid);
    }
    assert twice.lfs.rows == merged.lfs.rows;
  }

  lemma ProposalsMerge(s: Pushes, once: Pushes, c: nat, a: set<string>, b: set<string>)
    requires once.proposals == AcceptedProposals(s, c, a)
    ensures AcceptedProposals(once, c, b) == AcceptedProposals(s, c, a + b)
    ensures multiset(NewlyAccepted(s, c, a)) + multiset(NewlyAccepted(once, c, b))
         == multiset(NewlyAccepted(s, c, a + b))
  {
    EventsAddUp(NewlyAccepted(s, c, a), NewlyAccepted(once, c, b));
    assert NewlyAccepted(s, c, a) + NewlyAccepted(once, c, b) == NewlyAccepted(s, c, a + b);
  }

  /** Events of disjoint sets of proposals. */
  lemma EventsAddUp(a: set<RefKey>, b: set<RefKey>)
    requires a !! b
    ensures multiset(a) + multiset(b) == multiset(a + b)
  {
  }

  /** Accepting refs that were accepted before changes nothing; in particular no event is written again. */
  lemma ReplayAppendsNothing(s: World, c: nat, a: set<string>, b: set<string>)
    requires b <= a
    ensures Accept(Accept(s, c, a), c, b) == Accept(s, c, a)
  {
    AcceptMerges(s, c, a, b);
    assert a + b == a;
  }

  function AcceptAll(s: World, c: nat, batches: seq<set<string>>): World
    decreases |batches|
  {
    if batches == [] then s else AcceptAll(Accept(s, c, batches[0]), c, batches[1..])
  }

  function Union(batches: seq<set<string>>): set<string>
  {
    if batches == [] then {} else batches[0] + Union(batches[1..])
  }

  lemma AcceptNothing(s: World, c: nat)
    ensures Accept(s, c, {}) == s
  {
    assert AcceptedProposals(s.push, c, {}) == s.push.proposals;
    assert NewlyAccepted(s.push, c, {}) == {};
    assert Accept(s, c, {}).push.audited == s.push.audited;
    assert Accept(s, c, {}).lfs.rows == s.lfs.rows;
  }

  /** However often and in whatever order post-receive and reconciliation accept the refs of a push, the accepted
      proposals, the object states and the audit entries depend only on which refs were named. */
  lemma {:induction false} ReplaysAddUp(s: World, c: nat, batches: seq<set<string>>)
    ensures AcceptAll(s, c, batches) == Accept(s, c, Union(batches))
    decreases |batches|
  {
    hide Accept;
    if batches == [] {
      AcceptNothing(s, c);
    } else {
      ReplaysAddUp(Accept(s, c, batches[0]), c, batches[1..]);
      AcceptMerges(s, c, batches[0], Union(batches[1..]));
    }
  }

  lemma ReplayOrderIsIrrelevant(s: World, c: nat, first: seq<set<string>>, second: seq<set<string>>)
    requires Union(first) == Union(second)
    ensures AcceptAll(s, c, first) == AcceptAll(s, c, second)
  {
    ReplaysAddUp(s, c, first);
    ReplaysAddUp(s, c, second);
  }

  lemma TablesCommute(s: Pushes, x: Pushes, y: Pushes, c: nat, a: set<string>, d: nat, b: set<string>)
    requires c != d
    requires x.proposals == AcceptedProposals(s, c, a) && y.proposals == AcceptedProposals(s, d, b)
    ensures AcceptedProposals(x, d, b) == AcceptedProposals(y, c, a)
    ensures NewlyAccepted(x, d, b) == NewlyAccepted(s, d, b) && NewlyAccepted(y, c, a) == NewlyAccepted(s, c, a)
  {
  }

  lemma RowsCommute(s: World, c: nat, a: set<string>, d: nat, b: set<string>)
    ensures Accept(Accept(s, c, a), d, b).lfs.rows == Accept(Accept(s, d, b), c, a).lfs.rows
  {
    hide LeasedFor, AcceptedProposals, NewlyAccepted;
    var x, y := Accept(s, c, a), Accept(s, d, b);
    forall oid | oid in s.lfs.rows
      ensures Accept(x, d, b).lfs.rows[oid] == Accept(y, c, a).lfs.rows[oid]
    {
      LeasesUntouched(s.push, x.push, d, b, oid);
      LeasesUntouched(s.push, y.push, c, a, oid);
    }
  }

  /** Accepts of two different pushes commute. */
  lemma AcceptsCommute(s: World, c: nat, a: set<string>, d: nat, b: set<string>)
    requires c != d
    ensures Accept(Accept(s, c, a), d, b) == Accept(Accept(s, d, b), c, a)
  {
    hide LeasedFor, PromotedRow, AcceptedProposals, NewlyAccepted;
    TablesCommute(s.push, Accept(s, c, a).push, Accept(s, d, b).push, c, a, d, b);
    RowsCommute(s, c, a, d, b);
  }

  function Events(push: Pushes, k: RefKey): nat
  {
    if k in push.proposals && push.proposals[k].accepted then 1 else 0
  }

  /** One audit event for each accepted proposal and none otherwise; only validated contexts have proposals. */
  ghost predicate AuditMatches(push: Pushes)
  {
    && (forall k :: push.audited[k] == Events(push, k))
    && (forall k :: k in push.proposals ==> k.context in push.contexts && push.contexts[k.context].validatedAt.Some?)
  }

  lemma AcceptKeepsAudit(s: World, c: nat, refs: set<string>)
    requires AuditMatches(s.push)
    ensures AuditMatches(Accept(s, c, refs).push)
  {
    hide LeasedFor;
    var t := Accept(s, c, refs);
    forall k
      ensures t.push.audited[k] == Events(t.push, k)
    {
      assert s.push.audited[k] == Events(s.push, k);
      assert multiset(NewlyAccepted(s.push, c, refs))[k] == if k in NewlyAccepted(s.push, c, refs) then 1 else 0;
    }
  }

  lemma ValidateKeepsAudit(cfg: Config, s: World, c: nat)
    requires AuditMatches(s.push) && c in s.push.contexts && c in s.push.hooks && s.push.contexts[c].validatedAt.None?
    ensures AuditMatches(Validated(cfg, s, c).push)
  {
    hide NewLeaseKeys, NewProposals;
    var t := Validated(cfg, s, c);
    NewProposalRowsAre(s.push, t.push, c, s.push.hooks[c].updates);
    forall k
      ensures t.push.audited[k] == Events(t.push, k)
    {
      assert s.push.audited[k] == Events(s.push, k);
    }
  }

  lemma PushKeepsAudit(cfg: Config, s: World, step: PushStep)
    requires AuditMatches(s.push) && PushEnabled(s, step)
    ensures AuditMatches(ApplyPush(cfg, s, step).push)
  {
    hide ScanEnabled, ScannedHook, HasContent, NewProposals, NewLeaseKeys, RefIs;
    hide WithRef, AcceptedProposals, NewlyAccepted, LeasedFor, AppliedRefs, Baseline;
    match step
    case Validate(c) => ValidateKeepsAudit(cfg, s, c);
    case PostReceive(c) => AcceptKeepsAudit(s, c, AppliedRefs(s, c));
    case _ =>
  }

  lemma PassKeepsAudit(cfg: Config, s: World, step: PassStep)
    requires AuditMatches(s.push) && PassEnabled(cfg, s, step)
    ensures AuditMatches(ApplyPass(cfg, s, step).push)
  {
    hide Deletable, Protected, SeenBy, LookedAll, StillHeld;
    hide ExpiredContexts, AcceptedProposals, NewlyAccepted, LeasedFor;
    if step.AcceptSeen? {
      AcceptKeepsAudit(s, step.context, SeenBy(s.passes[step.pass], step.context));
    }
  }

  lemma StepKeepsAudit(cfg: Config, s: World, step: Step)
    requires AuditMatches(s.push) && Enabled(cfg, s, step)
    ensures AuditMatches(Apply(cfg, s, step).push)
  {
    hide AuditMatches, PushEnabled, PassEnabled, DraftEnabled, ApplyPush, ApplyPass, BuiltFrom, StagedOid;
    match step
    case Push(p) => PushKeepsAudit(cfg, s, p);
    case Maintain(m) => PassKeepsAudit(cfg, s, m);
    case _ =>
  }

  /** In every run each accepted proposal has exactly one audit event and no other proposal has any, whatever mixture of
      post-receive hooks and passes accepted it. */
  lemma {:induction false} AuditIsExact(cfg: Config, clock: int, steps: seq<Step>, states: seq<World>, i: nat)
    requires IsRun(cfg, steps, states) && states[0] == Initial(clock) && i < |states|
    ensures AuditMatches(states[i].push)
  {
    hide Enabled, Apply;
    if i > 0 {
      AuditIsExact(cfg, clock, steps, states, i - 1);
      StepKeepsAudit(cfg, states[i - 1], steps[i - 1]);
    }
  }

  // ---- consumed and validated once -----------------------------------------------------------

  /** Contexts are never removed, and their consumption and validation stamps never change once set. */
  ghost predicate StampsStay(before: map<nat, Context>, after: map<nat, Context>)
  {
    forall c :: c in before ==>
      c in after && (before[c].consumed ==> after[c].consumed) && (before[c].validatedAt.Some? ==>
        after[c].validatedAt == before[c].validatedAt)
  }

  lemma StepKeepsStamps(cfg: Config, s: World, step: Step)
    requires Enabled(cfg, s, step)
    ensures StampsStay(s.push.contexts, Apply(cfg, s, step).push.contexts)
  {
    hide PushEnabled, PassEnabled, DraftEnabled, UploadEnabled, ApplyPush, ApplyPass, ApplyDraft, ApplyUpload;
    match step
    case Push(p) => PushKeepsStamps(cfg, s, p);
    case Maintain(m) => PassKeepsStamps(cfg, s, m);
    case Browse(b) => DraftKeepsStamps(cfg, s, b);
    case Upload(u) => UploadKeepsStamps(s, u);
    case _ =>
  }

  lemma UploadKeepsStamps(s: World, step: UploadStep)
    requires UploadEnabled(s, step)
    ensures StampsStay(s.push.contexts, ApplyUpload(s, step).push.contexts)
  {
  }

  lemma DraftKeepsStamps(cfg: Config, s: World, step: DraftStep)
    requires DraftEnabled(s, step)
    ensures StampsStay(s.push.contexts, ApplyDraft(cfg, s, step).push.contexts)
  {
    hide BuiltFrom, StagedOid;
  }

  lemma PushKeepsStamps(cfg: Config, s: World, step: PushStep)
    requires PushEnabled(s, step)
    ensures StampsStay(s.push.contexts, ApplyPush(cfg, s, step).push.contexts)
  {
    hide ScanEnabled, ScannedHook, HasContent, NewProposals, NewLeaseKeys, RefIs;
    hide WithRef, AcceptedProposals, NewlyAccepted, LeasedFor, AppliedRefs, Baseline;
  }

  lemma PassKeepsStamps(cfg: Config, s: World, step: PassStep)
    requires PassEnabled(cfg, s, step)
    ensures StampsStay(s.push.contexts, ApplyPass(cfg, s, step).push.contexts)
  {
    hide Deletable, Protected, SeenBy, LookedAll, StillHeld;
    hide ExpiredContexts, AcceptedProposals, NewlyAccepted, LeasedFor;
  }

  lemma {:induction false} RunKeepsStamps(cfg: Config, steps: seq<Step>, states: seq<World>, i: nat, j: nat)
    requires IsRun(cfg, steps, states) && i <= j < |states|
    ensures StampsStay(states[i].push.contexts, states[j].push.contexts)
    decreases j
  {
    hide Enabled, Apply;
    if i < j {
      RunKeepsStamps(cfg, steps, states, i, j - 1);
      StepKeepsStamps(cfg, states[j - 1], steps[j - 1]);
    }
  }

  /** A context is consumed at most once and validated at most once in any run. */
  lemma ConsumedAndValidatedOnce(cfg: Config, steps: seq<Step>, states: seq<World>, i: nat, j: nat, c: nat)
    requires IsRun(cfg, steps, states) && i < j < |steps|
    requires steps[i] == steps[j]
    ensures steps[i] != Push(Consume(c)) && steps[i] != Push(Validate(c))
  {
    hide HasContent, Validated;
    RunKeepsStamps(cfg, steps, states, i + 1, j);
    assert Enabled(cfg, states[i], steps[i]) && Enabled(cfg, states[j], steps[j]);
    var before, after := states[i], states[i + 1];
    assert after == Apply(cfg, before, steps[i]);
    if steps[i] == Push(Validate(c)) {
      assert after == Validated(cfg, before, c);
      ValidatedStamps(cfg, before, c);
    }
  }

  lemma ValidatedStamps(cfg: Config, s: World, c: nat)
    requires c in s.push.contexts && c in s.push.hooks
    ensures c in Validated(cfg, s, c).push.contexts && Validated(cfg, s, c).push.contexts[c].validatedAt.Some?
  {
  }
}
