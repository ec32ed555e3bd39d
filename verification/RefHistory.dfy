/** What Git refs go through over whole runs, with pushes and browser publishing as the two writers. No side
    condition is needed here: compare-and-swap on the old value and the policy check carry the argument. */
module RefHistory {
  import opened Text
  import opened GitObjects
  import opened PushScan
  import opened LfsWorld

  /** Every proposal in flight has passed the policy. */
  ghost predicate PolicyKept(push: Pushes)
  {
    && (forall c, ref ::
         c in push.hooks && ref in push.hooks[c].updates ==>
           push.hooks[c].updates[ref].ref == ref && Baseline(push.hooks[c].updates[ref]))
    && (forall k :: k in push.proposals ==> Baseline(Update(k.ref, push.proposals[k].prior, push.proposals[k].next)))
  }

  /** One step moves a branch only to a descendant, never moves a tag and never removes the default branch. */
  ghost predicate RefsAdvance(before: Refs, after: Refs)
  {
    && (forall ref :: ref in before && ref in after ==> Advances(ref, before[ref], after[ref]))
    && (MAIN in before ==> MAIN in after)
  }

  predicate Advances(ref: string, a: GitObject, b: GitObject)
  {
    a == b || (IsBranch(ref) && IsAncestor(a, b))
  }

  lemma AcceptKeepsPolicy(s: World, c: nat, refs: set<string>)
    requires PolicyKept(s.push)
    ensures PolicyKept(Accept(s, c, refs).push)
  {
    hide Baseline;
  }

  lemma ValidateKeepsPolicy(cfg: Config, s: World, c: nat)
    requires PolicyKept(s.push) && c in s.push.contexts && c in s.push.hooks
    ensures PolicyKept(Validated(cfg, s, c).push)
  {
    hide Baseline;
    var updates := s.push.hooks[c].updates;
    forall k | k in NewProposals(c, updates)
      ensures Baseline(Update(k.ref, NewProposals(c, updates)[k].prior, NewProposals(c, updates)[k].next))
    {
      var ref :| ref in updates && k == RefKey(c, ref);
      assert updates[ref] == Update(k.ref, updates[ref].prior, updates[ref].next);
    }
  }

  lemma PushStepKeepsPolicy(cfg: Config, s: World, step: PushStep)
    requires PolicyKept(s.push) && PushEnabled(s, step)
    ensures PolicyKept(ApplyPush(cfg, s, step).push)
  {
    hide Baseline, ListsNew, Merged, NewProposals, NewLeaseKeys, HasContent;
    hide RefIs, WithRef, AcceptedProposals, NewlyAccepted, LeasedFor;
    match step
    case Validate(c) => ValidateKeepsPolicy(cfg, s, c);
    case PostReceive(c) => AcceptKeepsPolicy(s, c, AppliedRefs(s, c));
    case _ =>
  }

  lemma PassStepKeepsPolicy(cfg: Config, s: World, step: PassStep)
    requires PolicyKept(s.push) && PassEnabled(cfg, s, step)
    ensures PolicyKept(ApplyPass(cfg, s, step).push) && ApplyPass(cfg, s, step).git == s.git
  {
    hide Baseline, Deletable, Protected, SeenBy, LookedAll;
    hide StillHeld, ExpiredContexts, AcceptedProposals, NewlyAccepted, LeasedFor;
    if step.AcceptSeen? {
      AcceptKeepsPolicy(s, step.context, SeenBy(s.passes[step.pass], step.context));
    }
  }

  /** A Git update replaces exactly the value its proposal names, so the policy's fast-forward check applies to it. */
  lemma GitUpdateAdvances(s: World, k: RefKey)
    requires PolicyKept(s.push) && k in s.push.proposals && RefIs(s.git.refs, k.ref, s.push.proposals[k].prior)
    ensures RefsAdvance(s.git.refs, Updated(s, k).git.refs)
  {
    hide IsAncestor, Peel;
    BranchIsNotTag(k.ref);
    assert Baseline(Update(k.ref, s.push.proposals[k].prior, s.push.proposals[k].next));
    assert IsBranch(MAIN);
  }

  lemma PushStepAdvances(cfg: Config, s: World, step: PushStep)
    requires PolicyKept(s.push) && PushEnabled(s, step)
    ensures RefsAdvance(s.git.refs, ApplyPush(cfg, s, step).git.refs)
  {
    hide ScanEnabled, ScannedHook, HasContent, RefIs, PolicyKept, Updated, Baseline;
    if step.GitUpdate? {
      GitUpdateAdvances(s, RefKey(step.context, step.ref));
    }
  }

  /** A published commit has the old branch value as its one parent. */
  lemma DraftStepAdvances(cfg: Config, s: World, step: DraftStep)
    requires DraftEnabled(s, step)
    ensures RefsAdvance(s.git.refs, ApplyDraft(cfg, s, step).git.refs) && ApplyDraft(cfg, s, step).push == s.push
  {
    hide Reaches, PointerOf, StagedOid;
    if step.Publish? || step.CutPublish? {
      var draft := s.drafts[step.draft];
      assert Ref(draft.branch)[..11] == "refs/heads/";
      if draft.base.Some? {
        assert step.commit.parents[0] == draft.base.value && IsAncestor(draft.base.value, step.commit.parents[0]);
      }
    }
  }

  lemma StepAdvances(cfg: Config, s: World, step: Step)
    requires PolicyKept(s.push) && Enabled(cfg, s, step)
    ensures PolicyKept(Apply(cfg, s, step).push) && RefsAdvance(s.git.refs, Apply(cfg, s, step).git.refs)
  {
    hide PolicyKept, PushEnabled, PassEnabled, DraftEnabled, ApplyPush, ApplyPass, ApplyDraft, IsAncestor;
    match step
    case Push(p) => PushStepKeepsPolicy(cfg, s, p); PushStepAdvances(cfg, s, p);
    case Maintain(m) => PassStepKeepsPolicy(cfg, s, m);
    case Browse(b) => DraftStepAdvances(cfg, s, b);
    case _ =>
  }

  lemma {:induction false} RunKeepsPolicy(cfg: Config, steps: seq<Step>, states: seq<World>, i: nat)
    requires IsRun(cfg, steps, states) && PolicyKept(states[0].push) && i < |states|
    ensures PolicyKept(states[i].push)
  {
    hide PolicyKept, Enabled, Apply;
    if i > 0 {
      RunKeepsPolicy(cfg, steps, states, i - 1);
      StepAdvances(cfg, states[i - 1], steps[i - 1]);
    }
  }

  ghost predicate PresentFrom(states: seq<World>, ref: string, i: nat, j: nat)
  {
    i <= j < |states| && forall k :: i <= k <= j ==> ref in states[k].git.refs
  }

  /** Between its creation and its deletion a branch's values form an ancestor chain and a tag keeps its value. */
  lemma {:induction false} HistoryIsAChain(cfg: Config, clock: int, steps: seq<Step>, states: seq<World>, ref: string,
                                           i: nat, j: nat)
    requires IsRun(cfg, steps, states) && states[0] == Initial(clock)
    requires PresentFrom(states, ref, i, j)
    ensures Advances(ref, states[i].git.refs[ref], states[j].git.refs[ref])
    ensures IsTag(ref) ==> states[i].git.refs[ref] == states[j].git.refs[ref]
    decreases j
  {
    hide Enabled, Apply, PolicyKept, IsAncestor;
    BranchIsNotTag(ref);
    if i < j {
      HistoryIsAChain(cfg, clock, steps, states, ref, i, j - 1);
      assert PolicyKept(states[0].push) by {
        NothingInFlight(clock);
      }
      RunKeepsPolicy(cfg, steps, states, j - 1);
      StepAdvances(cfg, states[j - 1], steps[j - 1]);
      assert states[j] == Apply(cfg, states[j - 1], steps[j - 1]);
      var a, b, c := states[i].git.refs[ref], states[j - 1].git.refs[ref], states[j].git.refs[ref];
      assert Advances(ref, b, c);
      if a != b && b != c {
        AncestorTransitive(a, b, c);
      }
    }
  }

  lemma NothingInFlight(clock: int)
    ensures PolicyKept(Initial(clock).push)
  {
  }

  /** A branch that stays in place never comes back to a value it left. */
  lemma BranchesNeverReturn(cfg: Config, clock: int, steps: seq<Step>, states: seq<World>, ref: string, i: nat, m: nat,
                            j: nat)
    requires IsRun(cfg, steps, states) && states[0] == Initial(clock)
    requires PresentFrom(states, ref, i, j) && i <= m <= j
    requires states[i].git.refs[ref] == states[j].git.refs[ref]
    ensures states[m].git.refs[ref] == states[i].git.refs[ref]
  {
    hide IsRun, IsAncestor, IsBranch;
    HistoryIsAChain(cfg, clock, steps, states, ref, i, m);
    HistoryIsAChain(cfg, clock, steps, states, ref, m, j);
    if states[m].git.refs[ref] != states[i].git.refs[ref] {
      AncestorAntisymmetric(states[i].git.refs[ref], states[m].git.refs[ref]);
    }
  }

  /** The default branch is never deleted once it exists. */
  lemma {:induction false} DefaultBranchStays(cfg: Config, clock: int, steps: seq<Step>, states: seq<World>, i: nat,
                                              j: nat)
    requires IsRun(cfg, steps, states) && states[0] == Initial(clock)
    requires i <= j < |states| && MAIN in states[i].git.refs
    ensures MAIN in states[j].git.refs
    decreases j
  {
    hide Enabled, Apply, PolicyKept, IsAncestor;
    if i < j {
      DefaultBranchStays(cfg, clock, steps, states, i, j - 1);
      assert PolicyKept(states[0].push) by {
        NothingInFlight(clock);
      }
      RunKeepsPolicy(cfg, steps, states, j - 1);
      StepAdvances(cfg, states[j - 1], steps[j - 1]);
    }
  }
}
