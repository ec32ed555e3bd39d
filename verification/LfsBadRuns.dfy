/** Why the side conditions are there: for each of them a run, at every configuration and for every pointer, that breaks
    it at one step, meets it at every other and meets all the others throughout, and ends with a ref reaching content
    that is gone. */
module LfsBadRuns {
  import opened Text
  import opened Pointer
  import opened GitObjects
  import opened PushScan
  import opened LfsWorld
  import opened LfsInvariant
  import opened LfsPassSafety
  import opened LfsStorage
  import PushReplay

  // ---- the repository of the examples ---------------------------------------------------------

  function PointerBlob(p: Pointer): GitObject { Blob(Print(p)) }

  function FileTree(p: Pointer): GitObject { Tree(["f"], [PointerBlob(p)]) }

  /** A root commit whose one file is the pointer. */
  function FileCommit(p: Pointer): GitObject { Commit(FileTree(p), [], "m") }

  lemma CommitReaches(p: Pointer, o: GitObject)
    ensures Reaches(FileCommit(p), o) <==> o == FileCommit(p) || o == FileTree(p) || o == PointerBlob(p)
  {
    hide Print;
    var commit, tree, blob := FileCommit(p), FileTree(p), PointerBlob(p);
    assert Links(commit) == [tree] && Links(tree) == [blob];
    assert Links(commit)[0] == tree && Links(tree)[0] == blob;
    assert Reaches(blob, o) <==> o == blob;
    assert Reaches(tree, o) <==> o == tree || o == blob;
  }

  lemma CommitHolds(p: Pointer, o: GitObject, q: Pointer)
    requires IsPointer(p)
    ensures Reaches(FileCommit(p), o) && PointerOf(o) == Some(q) <==> o == PointerBlob(p) && q == p
  {
    hide Parse, Print, Reaches;
    ParsePrint(p);
    CommitReaches(p, o);
  }

  lemma CommitHoldsIt(p: Pointer)
    requires IsPointer(p)
    ensures Holds(FileCommit(p), p)
  {
    hide PointerOf, Reaches;
    CommitHolds(p, PointerBlob(p), p);
  }

  /** Listing the commit against an empty repository finds its pointer. */
  lemma CommitScan(refs: Refs, p: Pointer)
    requires IsPointer(p) && refs == map[]
    ensures ListsNew(refs, Some(FileCommit(p)), {p})
  {
    hide PointerOf, Reaches;
    CommitHoldsIt(p);
    forall o, q | Reaches(FileCommit(p), o) && PointerOf(o) == Some(q)
      ensures q in {p}
    {
      CommitHolds(p, o, q);
    }
  }

  // ---- building a run step by step ---------------------------------------------------------------

  /** The step at `bad` breaks this condition, and no condition is broken otherwise. */
  ghost predicate OnlyBreaks(steps: seq<Step>, states: seq<World>, bad: nat, condition: Condition)
  {
    |states| == |steps| + 1 && bad < |steps|
    && forall i, c :: 0 <= i < |steps| ==> (Meets(states[i], steps[i], c) <==> !(i == bad && c == condition))
  }

  /** The conditions the coverage of reachable pointers rests on; the other two are about their bytes. */
  predicate ForCoverage(condition: Condition) { condition != NothingStaged && condition != WholeCollection }

  /** A run from the empty installation that breaks only this condition and ends with a reachable pointer whose content
      is
      gone, and whose row is gone too if the condition is one of coverage. */
  ghost predicate Lost(cfg: Config, p: Pointer, steps: seq<Step>, states: seq<World>, bad: nat, condition: Condition)
  {
    && IsRun(cfg, steps, states) && states[0] == Initial(0) && OnlyBreaks(steps, states, bad, condition)
    && LostAt(states[|steps|], p, condition)
  }

  ghost predicate LostAt(s: World, p: Pointer, condition: Condition)
  {
    Reachable(s.git.refs, p) && p.oid !in s.lfs.stored && (ForCoverage(condition) ==> p.oid !in s.lfs.rows)
  }

  datatype Flaw = Flawless | Flaw(step: nat, condition: Condition)

  /** What a list of steps has broken: nothing, or one condition at one step. */
  ghost predicate BreaksOnly(steps: seq<Step>, states: seq<World>, flaw: Flaw)
    requires |states| == |steps| + 1
  {
    forall i, c :: 0 <= i < |steps| ==> (Meets(states[i], steps[i], c) <==> flaw != Flaw(i, c))
  }

  /** A run from the empty installation under construction, with what it has broken so far. */
  ghost predicate Built(cfg: Config, steps: seq<Step>, states: seq<World>, flaw: Flaw, last: World)
  {
    && |states| == |steps| + 1
    && IsRun(cfg, steps, states) && states[0] == Initial(0) && states[|steps|] == last
    && (flaw.Flaw? ==> flaw.step < |steps|)
    && BreaksOnly(steps, states, flaw)
  }

  lemma RunGrows(cfg: Config, steps: seq<Step>, states: seq<World>, step: Step)
    requires IsRun(cfg, steps, states) && Enabled(cfg, states[|steps|], step)
    ensures IsRun(cfg, steps + [step], states + [Apply(cfg, states[|steps|], step)])
  {
    hide Enabled, Apply;
  }

  lemma BreaksNoMore(steps: seq<Step>, states: seq<World>, flaw: Flaw, step: Step, next: World)
    requires |states| == |steps| + 1 && BreaksOnly(steps, states, flaw) && (flaw.Flaw? ==> flaw.step < |steps|)
    requires forall c :: Meets(states[|steps|], step, c)
    ensures BreaksOnly(steps + [step], states + [next], flaw)
  {
    hide Meets;
  }

  lemma BreaksNow(steps: seq<Step>, states: seq<World>, step: Step, condition: Condition, next: World)
    requires |states| == |steps| + 1 && BreaksOnly(steps, states, Flawless)
    requires forall c :: Meets(states[|steps|], step, c) <==> c != condition
    ensures BreaksOnly(steps + [step], states + [next], Flaw(|steps|, condition))
  {
    hide Meets;
  }

  lemma RunSize(cfg: Config, steps: seq<Step>, states: seq<World>)
    requires IsRun(cfg, steps, states)
    ensures |states| == |steps| + 1
  {
  }

  ghost predicate Good(cfg: Config, s: World, step: Step)
  {
    Enabled(cfg, s, step) && Assumed(s, step) && StorageAssumed(s, step)
  }

  lemma GoodMeetsAll(cfg: Config, s: World, step: Step)
    requires Good(cfg, s, step)
    ensures forall c :: Meets(s, step, c)
  {
    hide Enabled, Meets;
    forall c
      ensures Meets(s, step, c)
    {
      match c
      case GitInTime =>
      case AcceptedBeforeDeletion =>
      case WholeBatch =>
      case Readable =>
      case FilesCovered =>
      case WholePublication =>
      case NothingStaged =>
      case WholeCollection =>
    }
  }

  lemma More(cfg: Config, steps: seq<Step>, states: seq<World>, flaw: Flaw, last: World, step: Step)
    returns (steps': seq<Step>, states': seq<World>, last': World)
    requires Built(cfg, steps, states, flaw, last) && Good(cfg, last, step)
    ensures last' == Apply(cfg, last, step) && Built(cfg, steps', states', flaw, last') && steps' == steps + [step]
  {
    GoodMeetsAll(cfg, last, step);
    hide Enabled, Apply, Meets, Assumed, StorageAssumed, IsRun, BreaksOnly;
    RunSize(cfg, steps, states);
    last' := Apply(cfg, last, step);
    steps', states' := steps + [step], states + [last'];
    RunGrows(cfg, steps, states, step);
    BreaksNoMore(steps, states, flaw, step, last');
  }

  ghost predicate Misses(s: World, step: Step, condition: Condition)
  {
    forall c :: Meets(s, step, c) <==> c != condition
  }

  lemma Excused(cfg: Config, steps: seq<Step>, states: seq<World>, last: World, step: Step, condition: Condition)
    returns (steps': seq<Step>, states': seq<World>, last': World)
    requires Built(cfg, steps, states, Flawless, last) && Enabled(cfg, last, step) && Misses(last, step, condition)
    ensures last' == Apply(cfg, last, step) && Built(cfg, steps', states', Flaw(|steps|, condition), last')
    ensures steps' == steps + [step]
  {
    hide Enabled, Apply, Meets, IsRun, BreaksOnly;
    RunSize(cfg, steps, states);
    last' := Apply(cfg, last, step);
    steps', states' := steps + [step], states + [last'];
    RunGrows(cfg, steps, states, step);
    BreaksNow(steps, states, step, condition, last');
  }

  lemma MoreTime(cfg: Config, steps: seq<Step>, states: seq<World>, flaw: Flaw, last: World, seconds: nat)
    returns (steps': seq<Step>, states': seq<World>, last': World)
    requires Built(cfg, steps, states, flaw, last)
    ensures last' == last.(clock := last.clock + seconds) && Built(cfg, steps', states', flaw, last')
    ensures steps' == steps + [Tick(seconds)]
  {
    hide Built;
    steps', states', last' := More(cfg, steps, states, flaw, last, Tick(seconds));
  }

  /** Hook steps are not what any condition is about. */
  lemma MorePush(cfg: Config, steps: seq<Step>, states: seq<World>, flaw: Flaw, last: World, step: PushStep)
    returns (steps': seq<Step>, states': seq<World>, last': World)
    requires Built(cfg, steps, states, flaw, last) && PushEnabled(last, step) && !step.GitUpdate?
    ensures last' == ApplyPush(cfg, last, step) && Built(cfg, steps', states', flaw, last')
    ensures steps' == steps + [Push(step)]
  {
    hide Built, PushEnabled, ApplyPush;
    steps', states', last' := More(cfg, steps, states, flaw, last, Push(step));
  }

  /** Nor are the steps by which a pass reconciles. */
  lemma MorePass(cfg: Config, steps: seq<Step>, states: seq<World>, flaw: Flaw, last: World, step: PassStep)
    returns (steps': seq<Step>, states': seq<World>, last': World)
    requires Built(cfg, steps, states, flaw, last) && PassEnabled(cfg, last, step)
    requires (step.Observe? || step.AcceptSeen? || step.Close?)
    ensures last' == ApplyPass(cfg, last, step) && Built(cfg, steps', states', flaw, last')
    ensures steps' == steps + [Maintain(step)]
  {
    hide Built, PassEnabled, ApplyPass;
    steps', states', last' := More(cfg, steps, states, flaw, last, Maintain(step));
  }

  /** A ref update in time, after the acceptances it must wait for. */
  lemma MoreGit(cfg: Config, steps: seq<Step>, states: seq<World>, flaw: Flaw, last: World, k: RefKey)
    returns (steps': seq<Step>, states': seq<World>, last': World)
    requires Built(cfg, steps, states, flaw, last) && PushEnabled(last, GitUpdate(k.context, k.ref))
    requires SettledUpdate(last, k.context, k.ref)
    ensures last' == Updated(last, k) && Built(cfg, steps', states', flaw, last')
    ensures steps' == steps + [Push(GitUpdate(k.context, k.ref))]
  {
    hide Built, PushEnabled, Updated, InTime, AcceptedFirst;
    steps', states', last' := More(cfg, steps, states, flaw, last, Push(GitUpdate(k.context, k.ref)));
  }

  /** A ref update that breaks one of its two conditions. */
  lemma ExcusedGit(cfg: Config, steps: seq<Step>, states: seq<World>, last: World, k: RefKey, condition: Condition)
    returns (steps': seq<Step>, states': seq<World>, last': World)
    requires Built(cfg, steps, states, Flawless, last) && PushEnabled(last, GitUpdate(k.context, k.ref))
    requires condition == GitInTime || condition == AcceptedBeforeDeletion
    requires InTime(last, k.context) <==> condition != GitInTime
    requires AcceptedFirst(last, k) <==> condition != AcceptedBeforeDeletion
    ensures last' == Updated(last, k) && Built(cfg, steps', states', Flaw(|steps|, condition), last')
    ensures steps' == steps + [Push(GitUpdate(k.context, k.ref))]
  {
    hide Built, PushEnabled, Updated, InTime, AcceptedFirst;
    steps', states', last' := Excused(cfg, steps, states, last, Push(GitUpdate(k.context, k.ref)), condition);
  }

  lemma Start(cfg: Config) returns (steps: seq<Step>, states: seq<World>, last: World)
    ensures last == Initial(0) && Built(cfg, steps, states, Flawless, last)
  {
    hide Enabled, Apply, Meets;
    steps, states, last := [], [Initial(0)], Initial(0);
  }

  lemma LostFrom(cfg: Config, p: Pointer, steps: seq<Step>, states: seq<World>, bad: nat, condition: Condition,
                 last: World)
    requires Built(cfg, steps, states, Flaw(bad, condition), last) && LostAt(last, p, condition)
    ensures Lost(cfg, p, steps, states, bad, condition)
  {
    hide Enabled, Apply, Meets, LostAt;
  }

  // ---- an ordinary file that is a pointer ----------------------------------------------------------

  /** Publishing a draft whose ordinary file happens to be a pointer makes an object reachable that has no row. */
  lemma PublishingAPointerFile(cfg: Config, p: Pointer) returns (steps: seq<Step>, states: seq<World>, bad: nat)
    requires ValidConfig(cfg) && cfg.draftLife > 0 && IsPointer(p)
    ensures Lost(cfg, p, steps, states, bad, FilesCovered) && steps[bad] == Browse(Publish(0, FileCommit(p)))
  {
    hide Built, PointerOf, Reaches, Holds;
    var s;
    steps, states, s := Start(cfg);
    steps, states, s := More(cfg, steps, states, Flawless, s, Browse(CreateDraft(0, "main")));
    steps, states, s := More(cfg, steps, states, Flawless, s, Browse(StageGit(0, "f", PointerBlob(p))));
    var draft := s.drafts[0];
    assert draft == Draft("main", None, cfg.draftLife, true, map["f" := GitFile(PointerBlob(p))]);
    assert "f" in draft.changes;
    assert BuiltFrom(draft, FileCommit(p)) by {
      forall o | Reaches(FileTree(p), o) && PointerOf(o).Some?
        ensures draft.changes["f"] == GitFile(o)
      {
        TreeHolds(p, o);
      }
    }
    assert Publishable(s, 0, FileCommit(p));
    CommitHoldsIt(p);
    assert !CoveredFiles(s, draft) by {
      BlobHoldsIt(p);
      assert Holds(draft.changes["f"].blob, p) && !Covered(s, p);
    }
    bad := |steps|;
    steps, states, s := Excused(cfg, steps, states, s, Browse(Publish(0, FileCommit(p))), FilesCovered);
    assert s.git.refs[Ref("main")] == FileCommit(p);
    LostFrom(cfg, p, steps, states, bad, FilesCovered, s);
  }

  lemma BlobHoldsIt(p: Pointer)
    requires IsPointer(p)
    ensures Holds(PointerBlob(p), p)
  {
    hide Parse, Print;
    ParsePrint(p);
    assert Reaches(PointerBlob(p), PointerBlob(p));
  }

  lemma TreeHolds(p: Pointer, o: GitObject)
    requires IsPointer(p) && Reaches(FileTree(p), o) && PointerOf(o).Some?
    ensures o == PointerBlob(p) && PointerOf(o) == Some(p)
  {
    hide PointerOf;
    LinkIsReachable(FileCommit(p), 0);
    ReachesTransitive(FileCommit(p), FileTree(p), o);
    CommitHolds(p, o, PointerOf(o).value);
  }

  // ---- an uploaded object that a draft has staged ------------------------------------------------------

  /** The object is uploaded and has outlived the grace period. */
  function Uploaded(cfg: Config, p: Pointer): World
  {
    Initial(0).(clock := cfg.gracePeriod,
                lfs := Objects(map[p.oid := Row(0, p.size, Available, 0, Some(0))], 1, map[p.oid := p.size], {}, {}))
  }

  lemma UploadRun(cfg: Config, p: Pointer) returns (steps: seq<Step>, states: seq<World>)
    ensures Built(cfg, steps, states, Flawless, Uploaded(cfg, p))
  {
    hide Built;
    var s;
    steps, states, s := Start(cfg);
    steps, states, s := More(cfg, steps, states, Flawless, s, Upload(Negotiate(p.oid, p.size)));
    steps, states, s := More(cfg, steps, states, Flawless, s, Upload(BeginMultipart(p.oid)));
    steps, states, s := More(cfg, steps, states, Flawless, s, Upload(CompleteMultipart(p.oid)));
    assert s.lfs == Uploaded(cfg, p).lfs;
    steps, states, s := MoreTime(cfg, steps, states, Flawless, s, cfg.gracePeriod);
    assert s == Uploaded(cfg, p);
  }

  /** The draft of the examples: a first commit of one staged object. */
  predicate StagesOnly(s: World, p: Pointer)
  {
    && 0 in s.drafts && s.drafts[0].branch == "main" && s.drafts[0].base == None && s.drafts[0].open
    && s.clock < s.drafts[0].expiresAt && s.drafts[0].changes == map["f" := LfsFile(p.oid, p.size)]
    && s.git.refs == map[] && p.oid in s.lfs.rows && s.lfs.rows[p.oid].state == Available
  }

  lemma StagedRun(cfg: Config, p: Pointer) returns (steps: seq<Step>, states: seq<World>, s: World)
    requires cfg.draftLife > 0
    ensures Built(cfg, steps, states, Flawless, s) && StagesOnly(s, p)
    ensures s == Uploaded(cfg, p).(drafts := s.drafts) && s.drafts.Keys == {0}
  {
    hide Built;
    steps, states := UploadRun(cfg, p);
    s := Uploaded(cfg, p);
    steps, states, s := More(cfg, steps, states, Flawless, s, Browse(CreateDraft(0, "main")));
    steps, states, s := More(cfg, steps, states, Flawless, s, Browse(StageLfs(0, "f", p.oid, p.size)));
  }

  lemma StagedIsPublishable(s: World, p: Pointer)
    requires IsPointer(p) && StagesOnly(s, p)
    ensures Publishable(s, 0, FileCommit(p)) && CoveredFiles(s, s.drafts[0]) && StagedOid(s.drafts[0], p.oid)
  {
    hide PointerOf, Reaches, Holds;
    var draft := s.drafts[0];
    assert "f" in draft.changes;
    assert BuiltFrom(draft, FileCommit(p)) by {
      forall o | Reaches(FileTree(p), o) && PointerOf(o).Some?
        ensures draft.changes["f"] == LfsFile(PointerOf(o).value.oid, PointerOf(o).value.size)
      {
        TreeHolds(p, o);
      }
    }
  }

  /** The staged object has lost its bytes; publishing the draft makes it reachable. */
  lemma PublishWithoutBytes(cfg: Config, steps: seq<Step>, states: seq<World>, bad: nat, condition: Condition, s: World,
                            p: Pointer)
    returns (steps': seq<Step>, states': seq<World>)
    requires IsPointer(p) && Built(cfg, steps, states, Flaw(bad, condition), s) && !ForCoverage(condition)
    requires StagesOnly(s, p) && p.oid !in s.lfs.stored
    ensures Lost(cfg, p, steps', states', bad, condition) && steps' == steps + [Browse(Publish(0, FileCommit(p)))]
  {
    hide PointerOf, Reaches, Holds, Built, Publishable, CoveredFiles, StagedOid;
    StagedIsPublishable(s, p);
    var t;
    steps', states', t := More(cfg, steps, states, Flaw(bad, condition), s, Browse(Publish(0, FileCommit(p))));
    CommitHoldsIt(p);
    assert t.git.refs[Ref("main")] == FileCommit(p);
    LostFrom(cfg, p, steps', states', bad, condition, t);
  }

  /** Collecting an old object that a draft has staged destroys its bytes; the draft is then published without them. */
  lemma CollectingAStagedObject(cfg: Config, p: Pointer) returns (steps: seq<Step>, states: seq<World>, bad: nat)
    requires ValidConfig(cfg) && cfg.draftLife > 0 && IsPointer(p)
    ensures Lost(cfg, p, steps, states, bad, NothingStaged) && steps[bad] == Maintain(DeleteOrphan(0, p.oid))
  {
    hide Built, Lost, FileCommit;
    var s;
    steps, states, s := StagedRun(cfg, p);
    steps, states, s := More(cfg, steps, states, Flawless, s, Maintain(StartPass(0, {})));
    assert Deletable(cfg, s, 0, p.oid);
    assert Protected(s, p.oid) by {
      assert "f" in s.drafts[0].changes;
    }
    bad := |steps|;
    steps, states, s := Excused(cfg, steps, states, s, Maintain(DeleteOrphan(0, p.oid)), NothingStaged);
    steps, states := PublishWithoutBytes(cfg, steps, states, bad, NothingStaged, s, p);
  }

  /** A collection is cut after it deleted the bytes, so the row stays; a draft then stages and publishes the object. */
  lemma CollectionCutShort(cfg: Config, p: Pointer) returns (steps: seq<Step>, states: seq<World>, bad: nat)
    requires ValidConfig(cfg) && cfg.draftLife > 0 && IsPointer(p)
    ensures Lost(cfg, p, steps, states, bad, WholeCollection) && steps[bad] == Maintain(CutOrphan(0, p.oid))
  {
    hide Built, Lost, FileCommit;
    var s;
    steps, states := UploadRun(cfg, p);
    s := Uploaded(cfg, p);
    steps, states, s := More(cfg, steps, states, Flawless, s, Maintain(StartPass(0, {})));
    assert Deletable(cfg, s, 0, p.oid);
    bad := |steps|;
    steps, states, s := Excused(cfg, steps, states, s, Maintain(CutOrphan(0, p.oid)), WholeCollection);
    var flaw := Flaw(bad, WholeCollection);
    steps, states, s := More(cfg, steps, states, flaw, s, Browse(CreateDraft(0, "main")));
    steps, states, s := More(cfg, steps, states, flaw, s, Browse(StageLfs(0, "f", p.oid, p.size)));
    steps, states := PublishWithoutBytes(cfg, steps, states, bad, WholeCollection, s, p);
  }

  /** A ref reaches the object and the orphan step takes it. */
  lemma CollectReachable(cfg: Config, steps: seq<Step>, states: seq<World>, flaw: Flaw, s: World, p: Pointer,
                         ref: string)
    returns (steps': seq<Step>, states': seq<World>, t: World)
    requires IsPointer(p) && Built(cfg, steps, states, flaw, s)
    requires Deletable(cfg, s, 0, p.oid) && !Protected(s, p.oid)
    requires ref in s.git.refs && s.git.refs[ref] == FileCommit(p)
    ensures Built(cfg, steps', states', flaw, t) && steps' == steps + [Maintain(DeleteOrphan(0, p.oid))]
    ensures Reachable(t.git.refs, p) && p.oid !in t.lfs.rows && p.oid !in t.lfs.stored
  {
    hide Holds, Built, FileCommit, Protected, Deletable;
    steps', states', t := More(cfg, steps, states, flaw, s, Maintain(DeleteOrphan(0, p.oid)));
    CommitHoldsIt(p);
    assert t.git.refs[ref] == FileCommit(p);
  }

  /** Publication is cut after Git moved the branch: nothing was promoted and the draft is still open. Once the draft is
      gone the next pass takes the object. */
  lemma PublicationCutShort(cfg: Config, p: Pointer) returns (steps: seq<Step>, states: seq<World>, bad: nat)
    requires ValidConfig(cfg) && cfg.draftLife > 0 && IsPointer(p)
    ensures Lost(cfg, p, steps, states, bad, WholePublication) && steps[bad] == Browse(CutPublish(0, FileCommit(p)))
  {
    hide Built, Lost, FileCommit, Publishable, CoveredFiles, StagedOid;
    var s;
    steps, states, s := StagedRun(cfg, p);
    StagedIsPublishable(s, p);
    bad := |steps|;
    steps, states, s := Excused(cfg, steps, states, s, Browse(CutPublish(0, FileCommit(p))), WholePublication);
    assert s.git.refs[Ref("main")] == FileCommit(p);
    var flaw := Flaw(bad, WholePublication);
    steps, states, s := More(cfg, steps, states, flaw, s, Browse(DropDraft(0)));
    assert s.drafts == map[];
    steps, states, s := More(cfg, steps, states, flaw, s, Maintain(StartPass(0, {})));
    assert Deletable(cfg, s, 0, p.oid);
    steps, states, s := CollectReachable(cfg, steps, states, flaw, s, p, Ref("main"));
    LostFrom(cfg, p, steps, states, bad, WholePublication, s);
  }

  // ---- a push whose lease runs out ---------------------------------------------------------------------

  function FileUpdates(p: Pointer, ref: string): map<string, Update> { map[ref := Update(ref, None, Some(FileCommit(p)))] }

  function ContextOf(cfg: Config, validatedAt: Option<int>): Context
  {
    Context(cfg.gracePeriod, cfg.gracePeriod + cfg.contextLife, true, validatedAt, false)
  }

  function LeasedPush(cfg: Config, p: Pointer, ref: string): Pushes
  {
    Pushes(map[0 := ContextOf(cfg, Some(cfg.gracePeriod))],
           map[0 := Hook(FileUpdates(p, ref), map[p := {ref}], {ref})],
           map[RefKey(0, ref) := Proposal(None, Some(FileCommit(p)), false)],
           map[LeaseKey(0, ref, p.oid) := cfg.gracePeriod + cfg.leaseLife],
           multiset{})
  }

  /** A push that creates `ref` has been validated and holds its lease; Git has not moved yet. */
  function Leased(cfg: Config, p: Pointer, ref: string): World
  {
    Uploaded(cfg, p).(push := LeasedPush(cfg, p, ref))
  }

  function ScannedPush(cfg: Config, p: Pointer, ref: string): Pushes
  {
    Pushes(map[0 := ContextOf(cfg, None)], map[0 := Hook(FileUpdates(p, ref), map[p := {ref}], {ref})], map[], map[], multiset{})
  }

  lemma FirstMerge(p: Pointer, ref: string)
    ensures Merged(map[], {p}, ref) == map[p := {ref}]
  {
    var r := Merged(map[], {p}, ref);
    assert r.Keys == {p};
    assert r[p] == {ref};
  }

  lemma ScannedRun(cfg: Config, p: Pointer, ref: string) returns (steps: seq<Step>, states: seq<World>)
    requires cfg.contextLife > 0 && IsPointer(p) && IsBranch(ref)
    ensures Built(cfg, steps, states, Flawless, Uploaded(cfg, p).(push := ScannedPush(cfg, p, ref)))
  {
    hide Built, ListsNew, Print, FileTree;
    var s;
    steps, states := UploadRun(cfg, p);
    s := Uploaded(cfg, p);
    steps, states, s := MorePush(cfg, steps, states, Flawless, s, CreateContext(0));
    steps, states, s := MorePush(cfg, steps, states, Flawless, s, Consume(0));
    steps, states, s := MorePush(cfg, steps, states, Flawless, s, Propose(0, FileUpdates(p, ref)));
    CommitScan(s.git.refs, p);
    FirstMerge(p, ref);
    hide Merged;
    steps, states, s := MorePush(cfg, steps, states, Flawless, s, Scan(0, ref, {p}));
    assert s == Uploaded(cfg, p).(push := ScannedPush(cfg, p, ref));
  }

  lemma FirstProposals(p: Pointer, ref: string)
    ensures NewProposals(0, FileUpdates(p, ref)) == map[RefKey(0, ref) := Proposal(None, Some(FileCommit(p)), false)]
  {
    hide FileCommit;
  }

  lemma FirstLeaseKeys(p: Pointer, ref: string)
    ensures NewLeaseKeys(0, map[p := {ref}]) == {LeaseKey(0, ref, p.oid)}
  {
    var pointers := map[p := {ref}];
    assert p in pointers && ref in pointers[p];
  }

  lemma ScannedIsValid(cfg: Config, p: Pointer, ref: string)
    ensures PushEnabled(Uploaded(cfg, p).(push := ScannedPush(cfg, p, ref)), Validate(0))
  {
    hide FileCommit;
  }

  lemma ValidatedIs(cfg: Config, p: Pointer, ref: string, s: World)
    requires s == Uploaded(cfg, p).(push := ScannedPush(cfg, p, ref))
    ensures Validated(cfg, s, 0) == Leased(cfg, p, ref)
  {
    assert s.clock == cfg.gracePeriod;
    hide FileUpdates, FileCommit, NewProposals, NewLeaseKeys, Uploaded;
    FirstProposals(p, ref);
    FirstLeaseKeys(p, ref);
    var t := Validated(cfg, s, 0);
    assert t.push.proposals == LeasedPush(cfg, p, ref).proposals;
    assert t.push.leases == LeasedPush(cfg, p, ref).leases;
    assert t.push.contexts == LeasedPush(cfg, p, ref).contexts;
  }

  lemma LeasedRun(cfg: Config, p: Pointer, ref: string) returns (steps: seq<Step>, states: seq<World>)
    requires cfg.contextLife > 0 && IsPointer(p) && IsBranch(ref)
    ensures Built(cfg, steps, states, Flawless, Leased(cfg, p, ref))
  {
    hide Built, Validated, ScannedPush, Leased, FileCommit;
    steps, states := ScannedRun(cfg, p, ref);
    var s := Uploaded(cfg, p).(push := ScannedPush(cfg, p, ref));
    ScannedIsValid(cfg, p, ref);
    ValidatedIs(cfg, p, ref, s);
    hide PushEnabled;
    steps, states, s := MorePush(cfg, steps, states, Flawless, s, Validate(0));
  }

  /** The pushed commit is in place but its lease is gone: the orphan step takes the object. */
  lemma CollectAfterExpiry(cfg: Config, steps: seq<Step>, states: seq<World>, bad: nat, condition: Condition, s: World,
                           p: Pointer, ref: string)
    returns (steps': seq<Step>, states': seq<World>)
    requires ValidConfig(cfg) && IsPointer(p) && Built(cfg, steps, states, Flaw(bad, condition), s)
    requires s.clock == cfg.gracePeriod + cfg.leaseLife && s.lfs == Uploaded(cfg, p).lfs && s.drafts == map[]
    requires forall k :: k in s.push.leases ==> s.push.leases[k] <= cfg.gracePeriod + cfg.leaseLife
    requires 0 in s.passes && s.passes[0].todo == {} && s.passes[0].now == s.clock
    requires ref in s.git.refs && s.git.refs[ref] == FileCommit(p)
    ensures Lost(cfg, p, steps', states', bad, condition) && steps' == steps + [Maintain(DeleteOrphan(0, p.oid))]
  {
    hide Built, Lost, FileCommit;
    assert Deletable(cfg, s, 0, p.oid);
    var t;
    steps', states', t := CollectReachable(cfg, steps, states, Flaw(bad, condition), s, p, ref);
    LostFrom(cfg, p, steps', states', bad, condition, t);
  }

  /** A pass looks at the one proposal of context 0, finds no ref holding it and closes the context. */
  lemma ReconcileOne(cfg: Config, steps: seq<Step>, states: seq<World>, flaw: Flaw, s: World, k: RefKey)
    returns (steps': seq<Step>, states': seq<World>, t: World)
    requires Built(cfg, steps, states, flaw, s) && s.passes == map[] && 0 in s.push.contexts
    requires ExpiredContexts(s) == {0}
    requires k in s.push.proposals && !StillHeld(s, k) && forall j :: j in s.push.proposals && j.context == 0 <==>
               j == k
    ensures Built(cfg, steps', states', flaw, t) && |steps'| > |steps| && steps'[..|steps|] == steps
    ensures t.clock == s.clock && t.lfs == s.lfs && t.git == s.git && t.drafts == s.drafts
    ensures t.push.leases == s.push.leases && t.push.proposals == s.push.proposals
    ensures t.push.contexts == s.push.contexts[0 := s.push.contexts[0].(completed := true)]
    ensures 0 in t.passes && t.passes[0].todo == {} && t.passes[0].now == s.clock
  {
    hide Built, RefContains;
    steps', states', t := More(cfg, steps, states, flaw, s, Maintain(StartPass(0, {0})));
    assert StillHeld(t, k) == StillHeld(s, k);
    hide StillHeld, ExpiredContexts;
    steps', states', t := MorePass(cfg, steps', states', flaw, t, Observe(0, k));
    assert t.passes[0] == Pass(s.clock, {0}, {k}, {}, {});
    assert SeenBy(t.passes[0], 0) == {};
    PushReplay.AcceptNothing(t, 0);
    steps', states', t := MorePass(cfg, steps', states', flaw, t, AcceptSeen(0, 0));
    assert t.lfs == s.lfs && t.push == s.push;
    steps', states', t := MorePass(cfg, steps', states', flaw, t, Close(0, 0));
    assert t.passes[0].todo == {};
  }

  /** Git applies the push only after its context expired and reconciliation closed it: the lease runs out unnoticed. */
  lemma LateGitUpdate(cfg: Config, p: Pointer, ref: string) returns (steps: seq<Step>, states: seq<World>, bad: nat)
    requires ValidConfig(cfg) && IsPointer(p) && IsBranch(ref)
    ensures Lost(cfg, p, steps, states, bad, GitInTime) && steps[bad] == Push(GitUpdate(0, ref))
  {
    hide Built, Lost, FileCommit;
    var s;
    steps, states := LeasedRun(cfg, p, ref);
    s := Leased(cfg, p, ref);
    steps, states, s := MoreTime(cfg, steps, states, Flawless, s, cfg.leaseLife);
    assert ExpiredContexts(s) == {0};
    steps, states, s := ReconcileOne(cfg, steps, states, Flawless, s, RefKey(0, ref));
    bad := |steps|;
    assert !InTime(s, 0) && AcceptedFirst(s, RefKey(0, ref));
    steps, states, s := ExcusedGit(cfg, steps, states, s, RefKey(0, ref), GitInTime);
    steps, states := CollectAfterExpiry(cfg, steps, states, bad, GitInTime, s, p, ref);
  }

  /** The ref moved in time, the post-receive hook was missed, and the lease has expired. */
  lemma AppliedThenExpired(cfg: Config, p: Pointer, ref: string)
    returns (steps: seq<Step>, states: seq<World>, s: World)
    requires cfg.contextLife > 0 && IsPointer(p) && IsBranch(ref)
    ensures Built(cfg, steps, states, Flawless, s)
    ensures s.clock == cfg.gracePeriod + cfg.leaseLife && s.lfs == Uploaded(cfg, p).lfs && s.drafts == map[]
    ensures s.passes == map[]
    ensures s.push == LeasedPush(cfg, p, ref) && s.git.refs == map[ref := FileCommit(p)]
  {
    hide Built, FileCommit;
    steps, states := LeasedRun(cfg, p, ref);
    s := Leased(cfg, p, ref);
    steps, states, s := MoreGit(cfg, steps, states, Flawless, s, RefKey(0, ref));
    steps, states, s := MoreTime(cfg, steps, states, Flawless, s, cfg.leaseLife);
  }

  /** The pass that should replay the missed hook does not select its context. */
  lemma BatchTooSmall(cfg: Config, p: Pointer, ref: string) returns (steps: seq<Step>, states: seq<World>, bad: nat)
    requires ValidConfig(cfg) && IsPointer(p) && IsBranch(ref)
    ensures Lost(cfg, p, steps, states, bad, WholeBatch) && steps[bad] == Maintain(StartPass(0, {}))
  {
    hide Built, Lost, FileCommit;
    var s;
    steps, states, s := AppliedThenExpired(cfg, p, ref);
    assert 0 in ExpiredContexts(s);
    bad := |steps|;
    steps, states, s := Excused(cfg, steps, states, s, Maintain(StartPass(0, {})), WholeBatch);
    steps, states := CollectAfterExpiry(cfg, steps, states, bad, WholeBatch, s, p, ref);
  }

  /** The pass that should replay the missed hook cannot read the repository and passes over the context. */
  lemma UnreadableRepository(cfg: Config, p: Pointer, ref: string)
    returns (steps: seq<Step>, states: seq<World>, bad: nat)
    requires ValidConfig(cfg) && IsPointer(p) && IsBranch(ref)
    ensures Lost(cfg, p, steps, states, bad, Readable) && steps[bad] == Maintain(SkipUnreadable(0, 0))
  {
    hide Built, Lost, FileCommit;
    var s;
    steps, states, s := AppliedThenExpired(cfg, p, ref);
    assert ExpiredContexts(s) == {0};
    steps, states, s := More(cfg, steps, states, Flawless, s, Maintain(StartPass(0, {0})));
    bad := |steps|;
    steps, states, s := Excused(cfg, steps, states, s, Maintain(SkipUnreadable(0, 0)), Readable);
    assert s.passes[0].todo == {};
    steps, states := CollectAfterExpiry(cfg, steps, states, bad, Readable, s, p, ref);
  }

  // ---- with every side condition met ---------------------------------------------------------------------------

  lemma BuiltMeetsAll(cfg: Config, steps: seq<Step>, states: seq<World>, last: World)
    requires Built(cfg, steps, states, Flawless, last)
    ensures IsRun(cfg, steps, states) && AssumedRun(steps, states) && StorageRun(steps, states)
    ensures |states| == |steps| + 1 && states[0] == Initial(0) && states[|steps|] == last
  {
    hide Enabled, Apply, Meets;
  }

  lemma AcceptedIs(cfg: Config, p: Pointer, ref: string, s: World, t: World)
    requires s.push == LeasedPush(cfg, p, ref) && s.lfs == Uploaded(cfg, p).lfs && t == Accept(s, 0, {ref})
    ensures p.oid in t.lfs.rows && t.lfs.rows[p.oid].state == Referenced && t.lfs.stored == s.lfs.stored
    ensures t.push.leases == s.push.leases && t.push.contexts == s.push.contexts
  {
    hide FileCommit;
    var k := LeaseKey(0, ref, p.oid);
    assert k in s.push.leases && LeasedFor(s.push, 0, {ref}, p.oid);
  }

  /** The side conditions can all be met, and then a missed post-receive hook is made up for although the lease has run
      out: the next pass finds the ref holding its proposal and promotes the object before it may delete anything. */
  lemma MissedHookIsRepaired(cfg: Config, p: Pointer, ref: string) returns (steps: seq<Step>, states: seq<World>)
    requires ValidConfig(cfg) && IsPointer(p) && IsBranch(ref)
    ensures IsRun(cfg, steps, states) && AssumedRun(steps, states) && StorageRun(steps, states)
    ensures states[0] == Initial(0)
    ensures var last := states[|steps|];
            && Reachable(last.git.refs, p) && p.oid in last.lfs.rows && last.lfs.rows[p.oid].state == Referenced
            && p.oid in last.lfs.stored
            && (exists k :: k in last.push.leases && k.oid == p.oid) && forall k :: k in last.push.leases ==>
                 last.push.leases[k] <= last.clock
  {
    hide IsRun, AssumedRun, StorageRun, Built, FileCommit, Holds;
    var s;
    steps, states, s := AppliedThenExpired(cfg, p, ref);
    assert ExpiredContexts(s) == {0};
    var t, k := s, RefKey(0, ref);
    steps, states, t := More(cfg, steps, states, Flawless, s, Maintain(StartPass(0, {0})));
    assert StillHeld(t, k) by {
      assert RefContains(t.git.refs, ref, Some(FileCommit(p)));
    }
    hide StillHeld, Accept;
    steps, states, t := MorePass(cfg, steps, states, Flawless, t, Observe(0, k));
    assert SeenBy(t.passes[0], 0) == {ref} by {
      assert t.passes[0].seen == {k};
    }
    AcceptedIs(cfg, p, ref, t, Accept(t, 0, {ref}));
    steps, states, t := MorePass(cfg, steps, states, Flawless, t, AcceptSeen(0, 0));
    CommitHoldsIt(p);
    assert LeaseKey(0, ref, p.oid) in t.push.leases;
    assert t.git.refs[ref] == FileCommit(p);
    BuiltMeetsAll(cfg, steps, states, t);
  }

  // ---- a lease that can run out before its context --------------------------------------------------------------

  /** The settings bound is exact: with any lease shorter than its context the content of a reachable pointer can be
      lost
      although every condition is met, because no pass reconciles the push before its lease is gone. */
  lemma ShortLeaseLosesContent(cfg: Config, p: Pointer, ref: string) returns (steps: seq<Step>, states: seq<World>)
    requires cfg.leaseLife < cfg.contextLife && IsPointer(p) && IsBranch(ref)
    ensures IsRun(cfg, steps, states) && AssumedRun(steps, states) && StorageRun(steps, states)
    ensures states[0] == Initial(0)
    ensures var last := states[|steps|];
            Reachable(last.git.refs, p) && p.oid !in last.lfs.rows && p.oid !in last.lfs.stored
  {
    hide IsRun, AssumedRun, StorageRun, Built, FileCommit;
    var s;
    steps, states, s := AppliedThenExpired(cfg, p, ref);
    assert ExpiredContexts(s) == {};
    steps, states, s := More(cfg, steps, states, Flawless, s, Maintain(StartPass(0, {})));
    assert Deletable(cfg, s, 0, p.oid) && !Protected(s, p.oid);
    hide Deletable, Protected, Reachable;
    steps, states, s := CollectReachable(cfg, steps, states, Flawless, s, p, ref);
    BuiltMeetsAll(cfg, steps, states, s);
  }

  // ---- a ref deleted before its push was accepted ------------------------------------------------------------

  /** A second push copies the branch to another name and deletes it: its scan finds nothing new, because the first
      push's
      branch already reaches the pointer. */
  function SecondUpdates(p: Pointer, a: string, b: string): map<string, Update>
  {
    map[a := Update(a, Some(FileCommit(p)), None), b := Update(b, None, Some(FileCommit(p)))]
  }

  lemma NothingNewToScan(p: Pointer, a: string)
    ensures ListsNew(map[a := FileCommit(p)], Some(FileCommit(p)), {})
  {
    hide Reaches, PointerOf;
    var refs := map[a := FileCommit(p)];
    forall o | Reaches(FileCommit(p), o)
      ensures Known(refs, o)
    {
      assert a in refs && Reaches(refs[a], o);
    }
  }

  function SecondPush(cfg: Config, p: Pointer, a: string, b: string): Pushes
  {
    var first := LeasedPush(cfg, p, a);
    Pushes(first.contexts[1 := ContextOf(cfg, Some(cfg.gracePeriod))],
           first.hooks[1 := Hook(SecondUpdates(p, a, b), map[], {a, b})],
           map[RefKey(0, a) := Proposal(None, Some(FileCommit(p)), false),
               RefKey(1, a) := Proposal(Some(FileCommit(p)), None, false),
               RefKey(1, b) := Proposal(None, Some(FileCommit(p)), false)],
           first.leases,
           multiset{})
  }

  lemma SecondProposals(cfg: Config, p: Pointer, a: string, b: string)
    requires a != b
    ensures LeasedPush(cfg, p, a).proposals + NewProposals(1, SecondUpdates(p, a, b))
         == SecondPush(cfg, p, a, b).proposals
  {
    hide FileCommit;
    var updates := SecondUpdates(p, a, b);
    var added := NewProposals(1, updates);
    assert added.Keys == {RefKey(1, a), RefKey(1, b)} by {
      assert a in updates && b in updates;
    }
    assert added[RefKey(1, a)] == Proposal(Some(FileCommit(p)), None, false)
           && added[RefKey(1, b)] == Proposal(None, Some(FileCommit(p)), false);
  }

  /** The second push has been scanned as far as these refs. */
  function SecondScanned(cfg: Config, p: Pointer, a: string, b: string, scanned: set<string>): Pushes
  {
    var first := LeasedPush(cfg, p, a);
    first.(contexts := first.contexts[1 := ContextOf(cfg, None)],
           hooks := first.hooks[1 := Hook(SecondUpdates(p, a, b), map[], scanned)])
  }

  lemma SecondIsValid(cfg: Config, p: Pointer, a: string, b: string, s: World)
    requires s.push == SecondScanned(cfg, p, a, b, {a, b})
    ensures PushEnabled(s, Validate(1))
  {
    hide FileCommit;
    assert SecondUpdates(p, a, b).Keys == {a, b};
  }

  lemma SecondValidatedIs(cfg: Config, p: Pointer, a: string, b: string, s: World)
    requires a != b && s.clock == cfg.gracePeriod && s.push == SecondScanned(cfg, p, a, b, {a, b})
    ensures Validated(cfg, s, 1).push == SecondPush(cfg, p, a, b)
  {
    hide FileCommit, NewProposals, NewLeaseKeys;
    SecondProposals(cfg, p, a, b);
    hide SecondUpdates, FileUpdates;
    NoLeaseKeys(1);
    var t := Validated(cfg, s, 1);
    assert t.push.leases == SecondPush(cfg, p, a, b).leases;
    assert t.push.contexts == SecondPush(cfg, p, a, b).contexts;
  }

  lemma NoLeaseKeys(c: nat)
    ensures NewLeaseKeys(c, map[]) == {}
  {
  }

  /** The first push is applied but not accepted. */
  function FirstApplied(cfg: Config, p: Pointer, a: string): World
  {
    Leased(cfg, p, a).(git := Git(map[a := FileCommit(p)], {RefKey(0, a)}, {}))
  }

  lemma SecondConsumedRun(cfg: Config, p: Pointer, a: string) returns (steps: seq<Step>, states: seq<World>, s: World)
    requires ValidConfig(cfg) && IsPointer(p) && IsBranch(a)
    ensures Built(cfg, steps, states, Flawless, s)
    ensures var first := LeasedPush(cfg, p, a);
            s == FirstApplied(cfg, p, a).(push := first.(contexts := first.contexts[1 := ContextOf(cfg, None)]))
  {
    hide Built, FileCommit;
    steps, states := LeasedRun(cfg, p, a);
    s := Leased(cfg, p, a);
    steps, states, s := MoreGit(cfg, steps, states, Flawless, s, RefKey(0, a));
    steps, states, s := MorePush(cfg, steps, states, Flawless, s, CreateContext(1));
    steps, states, s := MorePush(cfg, steps, states, Flawless, s, Consume(1));
  }

  lemma SecondMeetsPolicy(p: Pointer, a: string, b: string, ref: string)
    requires IsBranch(a) && IsBranch(b) && a != b && a != MAIN && ref in SecondUpdates(p, a, b)
    ensures SecondUpdates(p, a, b)[ref].ref == ref && Baseline(SecondUpdates(p, a, b)[ref])
  {
    hide FileTree;
    BranchIsNotTag(a);
    BranchIsNotTag(b);
  }

  /** The second push has passed the policy. */
  lemma SecondProposedRun(cfg: Config, p: Pointer, a: string, b: string) returns (steps: seq<Step>, states: seq<World>)
    requires ValidConfig(cfg) && IsPointer(p) && IsBranch(a) && IsBranch(b) && a != b && a != MAIN
    ensures Built(cfg, steps, states, Flawless, FirstApplied(cfg, p, a).(push := SecondScanned(cfg, p, a, b, {})))
  {
    hide Built, FileCommit, SecondUpdates, Baseline;
    var s;
    steps, states, s := SecondConsumedRun(cfg, p, a);
    forall ref | ref in SecondUpdates(p, a, b)
      ensures SecondUpdates(p, a, b)[ref].ref == ref && Baseline(SecondUpdates(p, a, b)[ref])
    {
      SecondMeetsPolicy(p, a, b, ref);
    }
    steps, states, s := MorePush(cfg, steps, states, Flawless, s, Propose(1, SecondUpdates(p, a, b)));
    assert s.push == SecondScanned(cfg, p, a, b, {});
  }

  lemma NothingMerged(ref: string)
    ensures Merged(map[], {}, ref) == map[]
  {
  }

  lemma SecondScanEnabled(cfg: Config, p: Pointer, a: string, b: string, scanned: set<string>, ref: string, s: World)
    requires a != b && ref in {a, b} && ref !in scanned
    requires s == FirstApplied(cfg, p, a).(push := SecondScanned(cfg, p, a, b, scanned))
    ensures ScanEnabled(s, 1, ref, {})
  {
    hide FileCommit, Merged;
    NothingNewToScan(p, a);
    NothingMerged(ref);
    assert ListsNew(s.git.refs, SecondUpdates(p, a, b)[ref].next, {});
  }

  lemma SecondScanStep(cfg: Config, p: Pointer, a: string, b: string, scanned: set<string>, ref: string, s: World)
    requires s == FirstApplied(cfg, p, a).(push := SecondScanned(cfg, p, a, b, scanned))
    ensures 1 in s.push.hooks
    ensures WithHook(s, 1, ScannedHook(s.push.hooks[1], ref, {}))
         == FirstApplied(cfg, p, a).(push := SecondScanned(cfg, p, a, b, scanned + {ref}))
  {
    hide FileCommit, SecondUpdates, FirstApplied, LeasedPush, Merged;
    NothingMerged(ref);
    assert WithHook(s, 1, ScannedHook(s.push.hooks[1], ref, {})).push == SecondScanned(cfg, p, a, b, scanned + {ref});
  }

  /** The first push is applied but not accepted, the second is scanned. */
  lemma SecondScannedRun(cfg: Config, p: Pointer, a: string, b: string) returns (steps: seq<Step>, states: seq<World>)
    requires ValidConfig(cfg) && IsPointer(p) && IsBranch(a) && IsBranch(b) && a != b && a != MAIN
    ensures Built(cfg, steps, states, Flawless, FirstApplied(cfg, p, a).(push := SecondScanned(cfg, p, a, b, {a, b})))
  {
    hide Built, ScanEnabled, ScannedHook, WithHook, SecondScanned, FirstApplied;
    var s := FirstApplied(cfg, p, a).(push := SecondScanned(cfg, p, a, b, {}));
    steps, states := SecondProposedRun(cfg, p, a, b);
    SecondScanEnabled(cfg, p, a, b, {}, a, s);
    SecondScanStep(cfg, p, a, b, {}, a, s);
    steps, states, s := MorePush(cfg, steps, states, Flawless, s, Scan(1, a, {}));
    SecondScanEnabled(cfg, p, a, b, {} + {a}, b, s);
    SecondScanStep(cfg, p, a, b, {} + {a}, b, s);
    steps, states, s := MorePush(cfg, steps, states, Flawless, s, Scan(1, b, {}));
    assert {} + {a} + {b} == {a, b};
  }

  /** The first push is applied but not accepted, the second is validated. */
  lemma SecondPushRun(cfg: Config, p: Pointer, a: string, b: string)
    returns (steps: seq<Step>, states: seq<World>, s: World)
    requires ValidConfig(cfg) && IsPointer(p) && IsBranch(a) && IsBranch(b) && a != b && a != MAIN
    ensures Built(cfg, steps, states, Flawless, s) && s == FirstApplied(cfg, p, a).(push := SecondPush(cfg, p, a, b))
  {
    hide Built, FileCommit, SecondScanned, SecondPush, PushEnabled;
    steps, states := SecondScannedRun(cfg, p, a, b);
    s := FirstApplied(cfg, p, a).(push := SecondScanned(cfg, p, a, b, {a, b}));
    SecondIsValid(cfg, p, a, b, s);
    SecondValidatedIs(cfg, p, a, b, s);
    steps, states, s := MorePush(cfg, steps, states, Flawless, s, Validate(1));
  }

  /** Git has applied these proposals; the second push is validated and nothing was accepted. */
  function BothValidated(cfg: Config, p: Pointer, a: string, b: string, refs: Refs, applied: set<RefKey>): World
  {
    Uploaded(cfg, p).(push := SecondPush(cfg, p, a, b), git := Git(refs, applied, {}))
  }

  function BranchDeleted(cfg: Config, p: Pointer, a: string, b: string): World
  {
    BothValidated(cfg, p, a, b, map[b := FileCommit(p)], {RefKey(0, a), RefKey(1, b), RefKey(1, a)})
  }

  lemma CopyRun(cfg: Config, p: Pointer, a: string, b: string) returns (steps: seq<Step>, states: seq<World>, s: World)
    requires ValidConfig(cfg) && IsPointer(p) && IsBranch(a) && IsBranch(b) && a != b && a != MAIN
    ensures Built(cfg, steps, states, Flawless, s)
    ensures s == BothValidated(cfg, p, a, b, map[a := FileCommit(p), b := FileCommit(p)], {RefKey(0, a), RefKey(1, b)})
  {
    hide Built, FileCommit;
    steps, states, s := SecondPushRun(cfg, p, a, b);
    steps, states, s := MoreGit(cfg, steps, states, Flawless, s, RefKey(1, b));
  }

  /** The second push has created its copy and deleted the first branch: the step that breaks the side condition. */
  lemma BranchDeletedRun(cfg: Config, p: Pointer, a: string, b: string)
    returns (steps: seq<Step>, states: seq<World>, bad: nat)
    requires ValidConfig(cfg) && IsPointer(p) && IsBranch(a) && IsBranch(b) && a != b && a != MAIN
    ensures Built(cfg, steps, states, Flaw(bad, AcceptedBeforeDeletion), BranchDeleted(cfg, p, a, b))
    ensures bad < |steps| && steps[bad] == Push(GitUpdate(1, a))
  {
    hide Built, FileCommit;
    var s;
    steps, states, s := CopyRun(cfg, p, a, b);
    bad := |steps|;
    assert !AcceptedFirst(s, RefKey(1, a)) by {
      assert RefKey(0, a) in s.git.applied;
    }
    hide AcceptedFirst;
    steps, states, s := ExcusedGit(cfg, steps, states, s, RefKey(1, a), AcceptedBeforeDeletion);
    assert s.git == BranchDeleted(cfg, p, a, b).git;
  }

  /** Deleting a branch whose push was applied but never accepted loses the object for every ref that copied it. */
  lemma DeletedBeforeAccepted(cfg: Config, p: Pointer, a: string, b: string)
    returns (steps: seq<Step>, states: seq<World>, bad: nat)
    requires ValidConfig(cfg) && IsPointer(p) && IsBranch(a) && IsBranch(b) && a != b && a != MAIN
    ensures Lost(cfg, p, steps, states, bad, AcceptedBeforeDeletion) && steps[bad] == Push(GitUpdate(1, a))
  {
    hide Built, Lost, FileCommit, BranchDeleted;
    var s;
    steps, states, bad := BranchDeletedRun(cfg, p, a, b);
    steps, states, s := AfterDeletion(cfg, steps, states, bad, p, a, b);
    steps, states := CollectAfterExpiry(cfg, steps, states, bad, AcceptedBeforeDeletion, s, p, b);
  }

  /** The second push completes normally; the first one's hook was lost, and reconciliation no longer finds its
      branch. */
  lemma AfterDeletion(cfg: Config, steps: seq<Step>, states: seq<World>, bad: nat, p: Pointer, a: string, b: string)
    returns (steps': seq<Step>, states': seq<World>, t: World)
    requires ValidConfig(cfg) && a != b && bad < |steps|
    requires Built(cfg, steps, states, Flaw(bad, AcceptedBeforeDeletion), BranchDeleted(cfg, p, a, b))
    ensures Built(cfg, steps', states', Flaw(bad, AcceptedBeforeDeletion), t) && |steps'| > |steps|
    ensures steps'[..|steps|] == steps
    ensures t.clock == cfg.gracePeriod + cfg.leaseLife && t.lfs == Uploaded(cfg, p).lfs && t.drafts == map[]
    ensures forall k :: k in t.push.leases ==> t.push.leases[k] <= cfg.gracePeriod + cfg.leaseLife
    ensures 0 in t.passes && t.passes[0].todo == {} && t.passes[0].now == t.clock
    ensures b in t.git.refs && t.git.refs[b] == FileCommit(p)
  {
    hide Built, FileCommit, SecondPush, ExpiredContexts, StillHeld, Uploaded, BranchDeleted;
    steps', states', t := SecondReceived(cfg, steps, states, bad, p, a, b);
    steps', states', t := ReconcileOne(cfg, steps', states', Flaw(bad, AcceptedBeforeDeletion), t, RefKey(0, a));
  }

  lemma SecondReceived(cfg: Config, steps: seq<Step>, states: seq<World>, bad: nat, p: Pointer, a: string, b: string)
    returns (steps': seq<Step>, states': seq<World>, t: World)
    requires ValidConfig(cfg) && a != b && bad < |steps|
    requires Built(cfg, steps, states, Flaw(bad, AcceptedBeforeDeletion), BranchDeleted(cfg, p, a, b))
    ensures Built(cfg, steps', states', Flaw(bad, AcceptedBeforeDeletion), t) && |steps'| > |steps|
    ensures steps'[..|steps|] == steps
    ensures t.clock == cfg.gracePeriod + cfg.leaseLife && t.lfs == Uploaded(cfg, p).lfs && t.drafts == map[]
    ensures t.passes == map[]
    ensures forall k :: k in t.push.leases ==> t.push.leases[k] <= cfg.gracePeriod + cfg.leaseLife
    ensures 0 in t.push.contexts && ExpiredContexts(t) == {0} && !StillHeld(t, RefKey(0, a))
    ensures forall j :: j in t.push.proposals && j.context == 0 <==> j == RefKey(0, a)
    ensures b in t.git.refs && t.git.refs[b] == FileCommit(p)
  {
    hide Built, FileCommit;
    var s, flaw := BranchDeleted(cfg, p, a, b), Flaw(bad, AcceptedBeforeDeletion);
    SecondReceivedIs(cfg, p, a, b, s);
    hide Received;
    steps', states', t := MorePush(cfg, steps, states, flaw, s, PostReceive(1));
    hide PushEnabled, ApplyPush;
    steps', states', t := MoreTime(cfg, steps', states', flaw, t, cfg.leaseLife);
    OnlyFirstOpen(cfg, p, a, b, t);
  }

  lemma SecondReceivedIs(cfg: Config, p: Pointer, a: string, b: string, s: World)
    requires a != b && s == BranchDeleted(cfg, p, a, b)
    ensures PushEnabled(s, PostReceive(1))
    ensures var t := Received(s, 1);
            && t.clock == s.clock && t.lfs == s.lfs && t.git.refs == s.git.refs && t.drafts == s.drafts
            && t.passes == s.passes
            && t.push.leases == s.push.leases && t.push.proposals.Keys == s.push.proposals.Keys
            && t.push.proposals[RefKey(0, a)] == s.push.proposals[RefKey(0, a)]
            && t.push.contexts == s.push.contexts[1 := s.push.contexts[1].(completed := true)]
  {
    hide FileCommit;
    assert RefKey(1, b) in s.git.applied && b in AppliedRefs(s, 1);
    AcceptSecond(cfg, s, p, a, b);
    hide Accept, AppliedRefs;
  }

  lemma OnlyFirstOpen(cfg: Config, p: Pointer, a: string, b: string, t: World)
    requires ValidConfig(cfg) && a != b && t.clock == cfg.gracePeriod + cfg.leaseLife
    requires t.git.refs == map[b := FileCommit(p)]
    requires t.push.contexts
          == SecondPush(cfg, p, a, b).contexts[1 := SecondPush(cfg, p, a, b).contexts[1].(completed := true)]
    requires t.push.proposals.Keys == SecondPush(cfg, p, a, b).proposals.Keys
    requires t.push.proposals[RefKey(0, a)] == SecondPush(cfg, p, a, b).proposals[RefKey(0, a)]
    ensures ExpiredContexts(t) == {0} && !StillHeld(t, RefKey(0, a))
    ensures forall j :: j in t.push.proposals && j.context == 0 <==> j == RefKey(0, a)
  {
    hide FileCommit;
  }

  lemma AcceptSecond(cfg: Config, s: World, p: Pointer, a: string, b: string)
    requires a != b && s.lfs == Uploaded(cfg, p).lfs && s.push == SecondPush(cfg, p, a, b)
    ensures var t := Accept(s, 1, AppliedRefs(s, 1));
            t.lfs == s.lfs && t.push.contexts == s.push.contexts && t.push.leases == s.push.leases && t.git == s.git
            && t.passes == s.passes && t.drafts == s.drafts && t.clock == s.clock
    ensures var t := Accept(s, 1, AppliedRefs(s, 1));
            t.push.proposals.Keys == s.push.proposals.Keys
            && t.push.proposals[RefKey(0, a)] == s.push.proposals[RefKey(0, a)]
  {
    hide FileCommit, AppliedRefs;
    var t := Accept(s, 1, AppliedRefs(s, 1));
    assert !LeasedFor(s.push, 1, AppliedRefs(s, 1), p.oid);
    assert t.lfs.rows == s.lfs.rows;
  }

  // ---- none of the conditions can be dropped --------------------------------------------------------------------

  /** For every condition, configuration and pointer: breaking that condition at one step and nothing else can lose the
      content of a pointer that a ref reaches. */
  lemma NoConditionCanBeDropped(cfg: Config, p: Pointer, condition: Condition)
    returns (steps: seq<Step>, states: seq<World>, bad: nat)
    requires ValidConfig(cfg) && cfg.draftLife > 0 && IsPointer(p)
    ensures Lost(cfg, p, steps, states, bad, condition)
  {
    hide Lost;
    var a, b := Ref("a"), Ref("b");
    assert a[|a| - 1] != b[|b| - 1] && |a| != |MAIN|;
    match condition
    case GitInTime => steps, states, bad := LateGitUpdate(cfg, p, a);
    case AcceptedBeforeDeletion => steps, states, bad := DeletedBeforeAccepted(cfg, p, a, b);
    case WholeBatch => steps, states, bad := BatchTooSmall(cfg, p, a);
    case Readable => steps, states, bad := UnreadableRepository(cfg, p, a);
    case FilesCovered => steps, states, bad := PublishingAPointerFile(cfg, p);
    case WholePublication => steps, states, bad := PublicationCutShort(cfg, p);
    case NothingStaged => steps, states, bad := CollectingAStagedObject(cfg, p);
    case WholeCollection => steps, states, bad := CollectionCutShort(cfg, p);
  }
}
