/** Object rows and stored bytes: what keeps content behind every available row. */
module LfsStorage {
  import opened Text
  import opened Pointer
  import opened GitObjects
  import opened LfsWorld
  import opened LfsInvariant
  import opened LfsPassSafety

  /** Available rows have bytes, and so has every row whose upload passed its head check; identifiers are never
      reused. */
  ghost predicate BytesBehind(lfs: Objects)
  {
    && (forall oid :: oid in lfs.rows && IsStored(lfs.rows[oid].state) ==> oid in lfs.stored)
    && (forall oid, id :: (oid, id) in lfs.checked && oid in lfs.rows && lfs.rows[oid].id == id ==> oid in lfs.stored)
    && (forall oid, id :: (oid, id) in lfs.checked ==> id < lfs.nextRow)
    && (forall oid :: oid in lfs.rows ==> lfs.rows[oid].id < lfs.nextRow)
  }

  /** No draft change names the object a pass collects, and its transaction is not cut between bytes and row. */
  ghost predicate StorageAssumed(s: World, step: Step)
  {
    Meets(s, step, NothingStaged) && Meets(s, step, WholeCollection)
  }

  lemma UploadKeepsBytes(s: World, step: UploadStep)
    requires BytesBehind(s.lfs) && UploadEnabled(s, step)
    ensures BytesBehind(ApplyUpload(s, step).lfs)
  {
  }

  lemma AcceptKeepsBytes(s: World, c: nat, refs: set<string>)
    requires BytesBehind(s.lfs)
    ensures BytesBehind(Accept(s, c, refs).lfs)
  {
    hide LeasedFor, AcceptedProposals, NewlyAccepted;
  }

  lemma PushKeepsBytes(cfg: Config, s: World, step: PushStep)
    requires BytesBehind(s.lfs) && PushEnabled(s, step)
    ensures BytesBehind(ApplyPush(cfg, s, step).lfs)
  {
    hide BytesBehind, NewProposals, NewLeaseKeys, HasContent, WithRef, Accept;
    if step.PostReceive? {
      AcceptKeepsBytes(s, step.context, AppliedRefs(s, step.context));
    }
  }

  lemma OrphanKeepsBytes(s: World, oid: string)
    requires BytesBehind(s.lfs)
    ensures BytesBehind(WithoutRow(WithoutBytes(s, oid), oid).lfs)
  {
  }

  lemma PassKeepsBytes(cfg: Config, s: World, step: PassStep)
    requires BytesBehind(s.lfs) && PassEnabled(cfg, s, step) && StorageAssumed(s, Maintain(step))
    ensures BytesBehind(ApplyPass(cfg, s, step).lfs)
  {
    hide BytesBehind, Accept, Deletable, Protected, SeenBy, LookedAll, StillHeld, ExpiredContexts;
    match step
    case AcceptSeen(pass, c) => AcceptKeepsBytes(s, c, SeenBy(s.passes[pass], c));
    case DeleteOrphan(_, oid) => OrphanKeepsBytes(s, oid);
    case _ =>
  }

  lemma DraftKeepsBytes(cfg: Config, s: World, step: DraftStep)
    requires BytesBehind(s.lfs) && DraftEnabled(s, step)
    ensures BytesBehind(ApplyDraft(cfg, s, step).lfs)
  {
    hide BuiltFrom, StagedOid, RefIs;
  }

  lemma StepKeepsBytes(cfg: Config, s: World, step: Step)
    requires BytesBehind(s.lfs) && Enabled(cfg, s, step) && StorageAssumed(s, step)
    ensures BytesBehind(Apply(cfg, s, step).lfs)
  {
    hide BytesBehind, StorageAssumed, UploadEnabled, PushEnabled, PassEnabled;
    hide DraftEnabled, ApplyUpload, ApplyPush, ApplyPass, ApplyDraft;
    match step
    case Upload(u) => UploadKeepsBytes(s, u);
    case Push(p) => PushKeepsBytes(cfg, s, p);
    case Maintain(m) => PassKeepsBytes(cfg, s, m);
    case Browse(b) => DraftKeepsBytes(cfg, s, b);
    case _ =>
  }

  ghost predicate StorageRun(steps: seq<Step>, states: seq<World>)
  {
    |states| == |steps| + 1 && forall i :: 0 <= i < |steps| ==> StorageAssumed(states[i], steps[i])
  }

  /** With the head check and the commit of an upload as separate steps, and collection running in between, every
      available or referenced row keeps its bytes. */
  lemma {:induction false} StoredBytesStay(cfg: Config, clock: int, steps: seq<Step>, states: seq<World>, i: nat)
    requires IsRun(cfg, steps, states) && StorageRun(steps, states)
    requires states[0] == Initial(clock) && i < |states|
    ensures BytesBehind(states[i].lfs)
  {
    hide Enabled, Apply, StorageAssumed;
    if i > 0 {
      StoredBytesStay(cfg, clock, steps, states, i - 1);
      StepKeepsBytes(cfg, states[i - 1], steps[i - 1]);
    }
  }

  /** Under the side conditions of both arguments, a checkout of any ref finds the content of every pointer it meets. */
  lemma ReachableContentIsStored(cfg: Config, clock: int, steps: seq<Step>, states: seq<World>, i: nat, p: Pointer)
    requires ValidConfig(cfg) && IsRun(cfg, steps, states) && AssumedRun(steps, states) && StorageRun(steps, states)
    requires states[0] == Initial(clock) && i < |states| && Reachable(states[i].git.refs, p)
    ensures p.oid in states[i].lfs.rows && states[i].lfs.rows[p.oid].size == p.size
    ensures IsStored(states[i].lfs.rows[p.oid].state) && p.oid in states[i].lfs.stored
  {
    hide IsRun, AssumedRun, StorageRun, Holds, Witness;
    ReachablePointersAreCovered(cfg, clock, steps, states, i, p);
    StoredBytesStay(cfg, clock, steps, states, i);
  }

  /** The exact effect of collecting a protected row: the bytes go while the row stays, which is harmless only for a
      pending row without a finished head check. */
  lemma CollectionKeepsBytesExactlyWhen(cfg: Config, s: World, pass: nat, oid: string)
    requires BytesBehind(s.lfs) && PassEnabled(cfg, s, DeleteOrphan(pass, oid))
    ensures BytesBehind(ApplyPass(cfg, s, DeleteOrphan(pass, oid)).lfs)
       <==> (!Protected(s, oid) || (s.lfs.rows[oid].state == Pending && (oid, s.lfs.rows[oid].id) !in s.lfs.checked))
  {
    hide LeaseAlive;
    var t := ApplyPass(cfg, s, DeleteOrphan(pass, oid));
    if !Protected(s, oid) {
      OrphanKeepsBytes(s, oid);
    } else if s.lfs.rows[oid].state != Pending || (oid, s.lfs.rows[oid].id) in s.lfs.checked {
      hide Protected;
      assert oid in t.lfs.rows && oid !in t.lfs.stored;
    }
  }
}
