/** The Git LFS data of one dataset as a step system: database rows, stored bytes, Git refs, receive hooks,
    browser drafts and maintenance passes. A database transaction is one step; a Git ref update, a storage call
    and the observation of a ref are steps of their own. */
module LfsWorld {
  import opened Text
  import opened Pointer
  import opened GitObjects
  import opened PushScan

  /** Lifetimes in seconds, as the settings module bounds them. */
  datatype Config = Config(contextLife: nat, leaseLife: nat, gracePeriod: nat, draftLife: nat)

  predicate ValidConfig(cfg: Config)
  {
    1 <= cfg.contextLife <= 3600 && cfg.contextLife <= cfg.leaseLife <= 86400 && cfg.gracePeriod >= 1
  }

  datatype LfsState = Pending | Available | Referenced

  /** An LfsObject row; `id` is its primary key, the map key its identifier within the dataset. */
  datatype Row = Row(id: nat, size: nat, state: LfsState, createdAt: int, availableAt: Option<int>)

  datatype Context = Context(createdAt: int, expiresAt: int, consumed: bool, validatedAt: Option<int>, completed: bool)

  /** What the pre-receive process holds between the policy check and its validation transaction: the proposal, the
      pointers found so far and the refs it has scanned. */
  datatype Hook = Hook(updates: map<string, Update>, pointers: Pointers, scanned: set<string>)

  datatype RefKey = RefKey(context: nat, ref: string)

  datatype LeaseKey = LeaseKey(context: nat, ref: string, oid: string)

  /** A GitPushRef row. */
  datatype Proposal = Proposal(prior: Option<GitObject>, next: Option<GitObject>, accepted: bool)

  datatype Change = LfsFile(oid: string, size: nat) | GitFile(blob: GitObject) | Deletion

  datatype Draft = Draft(branch: string, base: Option<GitObject>, expiresAt: int, open: bool, changes: map<string, Change>)

  /** A maintenance pass: its clock reading, the contexts still to reconcile, the proposals it has compared with their
      refs, those it found held by them, and the contexts whose accept transaction has run. */
  datatype Pass = Pass(now: int, todo: set<nat>, looked: set<RefKey>, seen: set<RefKey>, accepted: set<nat>)

  /** Object rows, the bytes object storage holds, the uploads whose head check has passed, and the objects with an
      active
      multipart session. */
  datatype Objects = Objects(rows: map<string, Row>, nextRow: nat, stored: map<string, nat>, checked: set<(string, nat)>,
                             uploading: set<string>)

  /** Push contexts, what running hooks hold, GitPushRef rows, leases and the accepted-ref audit events, each as often
      as
      it was recorded. */
  datatype Pushes = Pushes(contexts: map<nat, Context>, hooks: map<nat, Hook>, proposals: map<RefKey, Proposal>,
                           leases: map<LeaseKey, int>, audited: multiset<RefKey>)

  /** The repository: its refs, which proposals it applied, and the pushes whose receive-pack has ended. */
  datatype Git = Git(refs: Refs, applied: set<RefKey>, finished: set<nat>)

  datatype World = World(clock: int, lfs: Objects, push: Pushes, git: Git, drafts: map<nat, Draft>, passes: map<nat, Pass>)

  function Initial(clock: int): World
  {
    World(clock, Objects(map[], 0, map[], {}, {}), Pushes(map[], map[], map[], map[], multiset{}), Git(map[], {}, {}), map[], map[])
  }

  /** Upload negotiation, storage calls and finalization. */
  datatype UploadStep =
    | Negotiate(oid: string, size: nat)
    | Put(oid: string, size: nat)
    | HeadCheck(oid: string)
    | Finalize(oid: string, id: nat)
    | BeginMultipart(oid: string)
    | CompleteMultipart(oid: string)
    | EndMultipart(oid: string)

  /** The receive hooks and Git itself. */
  datatype PushStep =
    | CreateContext(context: nat)
    | Consume(context: nat)
    | Propose(context: nat, updates: map<string, Update>)
    | Scan(context: nat, ref: string, found: set<Pointer>)
    | Validate(context: nat)
    | GitUpdate(context: nat, ref: string)
    | PostReceive(context: nat)

  /** Maintenance passes. */
  datatype PassStep =
    | StartPass(pass: nat, chosen: set<nat>)
    | Observe(pass: nat, proposal: RefKey)
    | AcceptSeen(pass: nat, context: nat)
    | Close(pass: nat, context: nat)
    | SkipUnreadable(pass: nat, context: nat)
    | DeleteOrphan(pass: nat, oid: string)
    | CutOrphan(pass: nat, oid: string)

  /** Browser drafts. */
  datatype DraftStep =
    | CreateDraft(draft: nat, branch: string)
    | StageLfs(draft: nat, path: string, oid: string, size: nat)
    | StageGit(draft: nat, path: string, blob: GitObject)
    | StageDelete(draft: nat, path: string)
    | Unstage(draft: nat, path: string)
    | DropDraft(draft: nat)
    | Publish(draft: nat, commit: GitObject)
    | CutPublish(draft: nat, commit: GitObject)

  datatype Step =
    | Tick(seconds: nat)
    | Upload(upload: UploadStep)
    | Push(push: PushStep)
    | Maintain(maintain: PassStep)
    | Browse(browse: DraftStep)

  // ---- uploads -------------------------------------------------------------------

  predicate IsStored(state: LfsState) { state == Available || state == Referenced }

  /** `get_or_create` on the dataset's objects. */
  function WithObject(s: World, oid: string, size: nat): World
  {
    if oid in s.lfs.rows then s
    else s.(lfs := s.lfs.(rows := s.lfs.rows[oid := Row(s.lfs.nextRow, size, Pending, s.clock, None)], nextRow := s.lfs.nextRow + 1))
  }

  function MakeAvailable(s: World, oid: string): World
    requires oid in s.lfs.rows
  {
    if IsStored(s.lfs.rows[oid].state) then s
    else s.(lfs := s.lfs.(rows := s.lfs.rows[oid := s.lfs.rows[oid].(state := Available, availableAt := Some(s.clock))]))
  }

  // ---- pushes --------------------------------------------------------------------

  function AppliedRefs(s: World, c: nat): set<string>
  {
    set k | k in s.git.applied && k.context == c :: k.ref
  }

  /** The rows a scan requires: present, of the declared size, and with content. */
  predicate HasContent(s: World, p: Pointer)
  {
    p.oid in s.lfs.rows && s.lfs.rows[p.oid].size == p.size && IsStored(s.lfs.rows[p.oid].state)
  }

  function NewProposals(c: nat, updates: map<string, Update>): map<RefKey, Proposal>
  {
    map ref | ref in updates :: RefKey(c, ref) := Proposal(updates[ref].prior, updates[ref].next, false)
  }

  function NewLeaseKeys(c: nat, pointers: Pointers): set<LeaseKey>
  {
    set p, ref | p in pointers && ref in pointers[p] :: LeaseKey(c, ref, p.oid)
  }

  /** `_record_validation`: persist the proposals, lease every scanned object and stamp the context. */
  function Validated(cfg: Config, s: World, c: nat): World
    requires c in s.push.contexts && c in s.push.hooks
  {
    var expiry := s.clock + cfg.leaseLife;
    s.(push := s.push.(
         proposals := s.push.proposals + NewProposals(c, s.push.hooks[c].updates),
         leases := s.push.leases + (map k | k in NewLeaseKeys(c, s.push.hooks[c].pointers) :: expiry),
         contexts := s.push.contexts[c := s.push.contexts[c].(validatedAt := Some(s.clock))]))
  }

  predicate LeasedFor(push: Pushes, c: nat, refs: set<string>, oid: string)
  {
    exists k :: k in push.leases && k.context == c && k.ref in refs && k.oid == oid
  }

  function PromotedRow(row: Row, leased: bool): Row
  {
    if row.state == Available && leased then row.(state := Referenced) else row
  }

  function AcceptedProposals(push: Pushes, c: nat, refs: set<string>): map<RefKey, Proposal>
  {
    map k | k in push.proposals ::
      if k.context == c && k.ref in refs then push.proposals[k].(accepted := true) else push.proposals[k]
  }

  function NewlyAccepted(push: Pushes, c: nat, refs: set<string>): set<RefKey>
  {
    set k | k in push.proposals && k.context == c && k.ref in refs && !push.proposals[k].accepted
  }

  /** `_accept_updates`: accept these refs of one context, record an event for each that was not accepted before, and
      promote the leased objects of all of them. */
  function Accept(s: World, c: nat, refs: set<string>): World
  {
    s.(push := s.push.(proposals := AcceptedProposals(s.push, c, refs), audited := s.push.audited + multiset(NewlyAccepted(s.push, c, refs))),
       lfs := s.lfs.(rows := map oid | oid in s.lfs.rows ::
         PromotedRow(s.lfs.rows[oid], LeasedFor(s.push, c, refs, oid))))
  }

  function WithContext(s: World, c: nat, value: Context): World { s.(push := s.push.(contexts := s.push.contexts[c := value])) }

  function WithHook(s: World, c: nat, value: Hook): World { s.(push := s.push.(hooks := s.push.hooks[c := value])) }

  function Completed(s: World, c: nat): World
    requires c in s.push.contexts
  {
    WithContext(s, c, s.push.contexts[c].(completed := true))
  }

  // ---- maintenance -----------------------------------------------------------------

  /** `_ref_contains_proposal`. */
  predicate RefContains(refs: Refs, ref: string, next: Option<GitObject>)
  {
    match next
    case None => ref !in refs
    case Some(n) => ref in refs && (refs[ref] == n || (IsBranch(ref) && IsAncestor(n, refs[ref])))
  }

  predicate Expired(s: World, c: nat)
  {
    c in s.push.contexts && s.push.contexts[c].validatedAt.Some? && !s.push.contexts[c].completed
    && s.push.contexts[c].expiresAt <= s.clock
  }

  function ExpiredContexts(s: World): set<nat>
  {
    set c | c in s.push.contexts && Expired(s, c)
  }

  /** The ref still holds the proposal. */
  predicate StillHeld(s: World, k: RefKey)
  {
    k in s.push.proposals && RefContains(s.git.refs, k.ref, s.push.proposals[k].next)
  }

  /** What reading all refs of a context at once would find among the proposals nobody has accepted. */
  function SeenRefs(s: World, c: nat): set<string>
  {
    set k | k in s.push.proposals && k.context == c && !s.push.proposals[k].accepted && StillHeld(s, k) :: k.ref
  }

  /** What a pass found of one context. */
  function SeenBy(pass: Pass, c: nat): set<string>
  {
    set k | k in pass.seen && k.context == c :: k.ref
  }

  /** Every proposal of the context that was still pending has been compared with its ref. */
  predicate LookedAll(s: World, pass: Pass, c: nat)
  {
    forall k :: k in s.push.proposals && k.context == c ==> k in pass.looked || s.push.proposals[k].accepted
  }

  predicate PassReady(s: World, pass: nat) { pass in s.passes && s.passes[pass].todo == {} }

  predicate Old(row: Row, cutoff: int)
  {
    match row.state
    case Pending => row.createdAt <= cutoff
    case Available => row.availableAt.Some? && row.availableAt.value <= cutoff
    case Referenced => false
  }

  predicate LeaseAlive(s: World, oid: string, now: int)
  {
    exists k :: k in s.push.leases && k.oid == oid && s.push.leases[k] > now
  }

  /** The rechecks of `_delete_orphan` under the row lock. */
  predicate Deletable(cfg: Config, s: World, pass: nat, oid: string)
  {
    PassReady(s, pass) && oid in s.lfs.rows
    && Old(s.lfs.rows[oid], s.passes[pass].now - cfg.gracePeriod)
    && oid !in s.lfs.uploading
    && !LeaseAlive(s, oid, s.passes[pass].now)
  }

  /** A draft change names the row, so the database refuses to delete it. */
  predicate Protected(s: World, oid: string)
  {
    exists d, path :: d in s.drafts && path in s.drafts[d].changes && s.drafts[d].changes[path].LfsFile? && s.drafts[d].changes[path].oid == oid
  }

  function WithoutBytes(s: World, oid: string): World { s.(lfs := s.lfs.(stored := s.lfs.stored - {oid})) }

  /** The row goes with its leases. */
  function WithoutRow(s: World, oid: string): World
  {
    s.(lfs := s.lfs.(rows := s.lfs.rows - {oid}),
       push := s.push.(leases := map k | k in s.push.leases && k.oid != oid :: s.push.leases[k]))
  }

  // ---- drafts ------------------------------------------------------------------------

  predicate OpenDraft(s: World, d: nat)
  {
    d in s.drafts && s.drafts[d].open && s.clock < s.drafts[d].expiresAt
  }

  function Ref(branch: string): string { "refs/heads/" + branch }

  function ValueOf(refs: Refs, ref: string): Option<GitObject>
  {
    if ref in refs then Some(refs[ref]) else None
  }

  function WithChange(s: World, d: nat, path: string, change: Change): World
    requires d in s.drafts
  {
    s.(drafts := s.drafts[d := s.drafts[d].(changes := s.drafts[d].changes[path := change])])
  }

  /** The pointers of a new tree come from its base, from a staged LFS file or from a staged ordinary file. */
  ghost predicate BuiltFrom(draft: Draft, commit: GitObject)
  {
    commit.Commit?
    && commit.parents == (match draft.base case None => [] case Some(b) => [b])
    && forall o :: Reaches(commit.tree, o) && PointerOf(o).Some? ==>
         (draft.base.Some? && Reaches(draft.base.value, o))
         || (exists path ::
              path in draft.changes && draft.changes[path] == LfsFile(PointerOf(o).value.oid, PointerOf(o).value.size))
         || (exists path :: path in draft.changes && draft.changes[path] == GitFile(o))
  }

  predicate StagedOid(draft: Draft, oid: string)
  {
    exists path :: path in draft.changes && draft.changes[path].LfsFile? && draft.changes[path].oid == oid
  }

  /** The ref update of a publication on its own: what is left if its transaction is cut before it commits. */
  function WithBranch(s: World, d: nat, commit: GitObject): World
    requires d in s.drafts
  {
    s.(git := s.git.(refs := s.git.refs[Ref(s.drafts[d].branch) := commit]))
  }

  /** `publish_browser_draft` after its ref update: promote the staged objects and close the draft. */
  function Published(s: World, d: nat, commit: GitObject): World
    requires d in s.drafts
  {
    s.(git := s.git.(refs := s.git.refs[Ref(s.drafts[d].branch) := commit]),
       lfs := s.lfs.(rows := map oid | oid in s.lfs.rows :: PromotedRow(s.lfs.rows[oid], StagedOid(s.drafts[d], oid))),
       drafts := s.drafts[d := s.drafts[d].(open := false)])
  }

  // ---- the step relation ---------------------------------------------------------------

  predicate UploadEnabled(s: World, step: UploadStep)
  {
    match step
    case Negotiate(oid, size) => oid in s.lfs.rows ==> s.lfs.rows[oid].size == size
    case Put(_, _) => true
    case HeadCheck(oid) => oid in s.lfs.rows && s.lfs.rows[oid].state == Pending && oid in s.lfs.stored && s.lfs.stored[oid] == s.lfs.rows[oid].size
    case Finalize(oid, id) => (oid, id) in s.lfs.checked && oid in s.lfs.rows && s.lfs.rows[oid].id == id
    case BeginMultipart(oid) => oid in s.lfs.rows && s.lfs.rows[oid].state == Pending
    case CompleteMultipart(oid) => oid in s.lfs.rows && s.lfs.rows[oid].state == Pending && oid in s.lfs.uploading
    case EndMultipart(oid) => oid in s.lfs.uploading
  }

  function ApplyUpload(s: World, step: UploadStep): World
    requires UploadEnabled(s, step)
  {
    match step
    case Negotiate(oid, size) => WithObject(s, oid, size)
    case Put(oid, size) => s.(lfs := s.lfs.(stored := s.lfs.stored[oid := size]))
    case HeadCheck(oid) => s.(lfs := s.lfs.(checked := s.lfs.checked + {(oid, s.lfs.rows[oid].id)}))
    case Finalize(oid, _) => MakeAvailable(s, oid)
    case BeginMultipart(oid) => s.(lfs := s.lfs.(uploading := s.lfs.uploading + {oid}))
    case CompleteMultipart(oid) =>
      MakeAvailable(s.(lfs := s.lfs.(stored := s.lfs.stored[oid := s.lfs.rows[oid].size], uploading := s.lfs.uploading - {oid})), oid)
    case EndMultipart(oid) => s.(lfs := s.lfs.(uploading := s.lfs.uploading - {oid}))
  }

  /** One listing of the scan, read against the refs of that moment; no identifier may get a second size. */
  ghost predicate ScanEnabled(s: World, c: nat, ref: string, found: set<Pointer>)
  {
    && c in s.push.contexts && s.push.contexts[c].validatedAt.None?
    && c in s.push.hooks && ref in s.push.hooks[c].updates && ref !in s.push.hooks[c].scanned
    && ListsNew(s.git.refs, s.push.hooks[c].updates[ref].next, found)
    && WellFormed(Merged(s.push.hooks[c].pointers, found, ref))
  }

  function ScannedHook(hook: Hook, ref: string, found: set<Pointer>): Hook
  {
    hook.(pointers := Merged(hook.pointers, found, ref), scanned := hook.scanned + {ref})
  }

  ghost predicate PushEnabled(s: World, step: PushStep)
  {
    match step
    case CreateContext(c) => c !in s.push.contexts
    case Consume(c) => c in s.push.contexts && !s.push.contexts[c].consumed && s.clock < s.push.contexts[c].expiresAt
    case Propose(c, updates) =>
      c in s.push.contexts && s.push.contexts[c].consumed && c !in s.push.hooks
      && forall ref :: ref in updates ==> updates[ref].ref == ref && Baseline(updates[ref])
    case Scan(c, ref, found) => ScanEnabled(s, c, ref, found)
    case Validate(c) =>
      c in s.push.contexts && c in s.push.hooks && s.push.contexts[c].validatedAt.None? && s.push.contexts[c].consumed
      && s.push.hooks[c].scanned == s.push.hooks[c].updates.Keys
      && forall p :: p in s.push.hooks[c].pointers ==> HasContent(s, p)
    case GitUpdate(c, ref) =>
      RefKey(c, ref) in s.push.proposals && RefKey(c, ref) !in s.git.applied && c !in s.git.finished
      && RefIs(s.git.refs, ref, s.push.proposals[RefKey(c, ref)].prior)
    case PostReceive(c) => c in s.push.contexts && s.push.contexts[c].validatedAt.Some? && AppliedRefs(s, c) != {}
  }

  /** Git moves one ref of a validated push. */
  function Updated(s: World, k: RefKey): World
    requires k in s.push.proposals
  {
    s.(git := s.git.(refs := WithRef(s.git.refs, k.ref, s.push.proposals[k].next), applied := s.git.applied + {k}))
  }

  function Received(s: World, c: nat): World
    requires c in s.push.contexts
  {
    Completed(Accept(s, c, AppliedRefs(s, c)), c).(git := s.git.(finished := s.git.finished + {c}))
  }

  ghost function ApplyPush(cfg: Config, s: World, step: PushStep): World
    requires PushEnabled(s, step)
  {
    match step
    case CreateContext(c) => WithContext(s, c, Context(s.clock, s.clock + cfg.contextLife, false, None, false))
    case Consume(c) => WithContext(s, c, s.push.contexts[c].(consumed := true))
    case Propose(c, updates) => WithHook(s, c, Hook(updates, map[], {}))
    case Scan(c, ref, found) => WithHook(s, c, ScannedHook(s.push.hooks[c], ref, found))
    case Validate(c) => Validated(cfg, s, c)
    case GitUpdate(c, ref) => Updated(s, RefKey(c, ref))
    case PostReceive(c) => Received(s, c)
  }

  predicate PassEnabled(cfg: Config, s: World, step: PassStep)
  {
    match step
    case StartPass(pass, chosen) => pass !in s.passes && chosen <= ExpiredContexts(s)
    case Observe(pass, k) => pass in s.passes && k.context in s.passes[pass].todo && k in s.push.proposals
    case AcceptSeen(pass, c) => pass in s.passes && c in s.passes[pass].todo && LookedAll(s, s.passes[pass], c)
    case Close(pass, c) =>
           pass in s.passes && c in s.passes[pass].todo && c in s.passes[pass].accepted && c in s.push.contexts
    case SkipUnreadable(pass, c) => pass in s.passes && c in s.passes[pass].todo
    case DeleteOrphan(pass, oid) => Deletable(cfg, s, pass, oid)
    case CutOrphan(pass, oid) => Deletable(cfg, s, pass, oid)
  }

  /** The pass compares one proposal with its ref. */
  function Observed(s: World, pass: Pass, k: RefKey): Pass
  {
    pass.(looked := pass.looked + {k}, seen := if StillHeld(s, k) then pass.seen + {k} else pass.seen)
  }

  function WithPass(s: World, pass: nat, value: Pass): World { s.(passes := s.passes[pass := value]) }

  function ApplyPass(cfg: Config, s: World, step: PassStep): World
    requires PassEnabled(cfg, s, step)
  {
    match step
    case StartPass(pass, chosen) => WithPass(s, pass, Pass(s.clock, chosen, {}, {}, {}))
    case Observe(pass, k) => WithPass(s, pass, Observed(s, s.passes[pass], k))
    case AcceptSeen(pass, c) =>
      WithPass(Accept(s, c, SeenBy(s.passes[pass], c)), pass, s.passes[pass].(accepted := s.passes[pass].accepted + {c}))
    case Close(pass, c) => WithPass(Completed(s, c), pass, s.passes[pass].(todo := s.passes[pass].todo - {c}))
    case SkipUnreadable(pass, c) => WithPass(s, pass, s.passes[pass].(todo := s.passes[pass].todo - {c}))
    case DeleteOrphan(_, oid) =>
           if Protected(s, oid) then WithoutBytes(s, oid) else WithoutRow(WithoutBytes(s, oid), oid)
    case CutOrphan(_, oid) => WithoutBytes(s, oid)
  }

  ghost predicate Publishable(s: World, d: nat, commit: GitObject)
  {
    && OpenDraft(s, d) && s.drafts[d].changes != map[] && BuiltFrom(s.drafts[d], commit)
    && RefIs(s.git.refs, Ref(s.drafts[d].branch), s.drafts[d].base)
    && forall path :: path in s.drafts[d].changes && s.drafts[d].changes[path].LfsFile? ==>
         s.drafts[d].changes[path].oid in s.lfs.rows && IsStored(s.lfs.rows[s.drafts[d].changes[path].oid].state)
  }

  ghost predicate DraftEnabled(s: World, step: DraftStep)
  {
    match step
    case CreateDraft(d, branch) => d !in s.drafts && (ValueOf(s.git.refs, Ref(branch)).None? ==> forall ref ::
           ref in s.git.refs ==> !IsBranch(ref))
    case StageLfs(d, path, oid, size) => OpenDraft(s, d) && (oid in s.lfs.rows ==> s.lfs.rows[oid].size == size)
    case StageGit(d, path, blob) => OpenDraft(s, d) && blob.Blob?
    case StageDelete(d, path) => OpenDraft(s, d)
    case Unstage(d, path) => OpenDraft(s, d)
    case DropDraft(d) => d in s.drafts && s.drafts[d].open
    case Publish(d, commit) => Publishable(s, d, commit)
    case CutPublish(d, commit) => Publishable(s, d, commit)
  }

  ghost function ApplyDraft(cfg: Config, s: World, step: DraftStep): World
    requires DraftEnabled(s, step)
  {
    match step
    case CreateDraft(d, branch) => s.(drafts := s.drafts[d := Draft(branch, ValueOf(s.git.refs, Ref(branch)), s.clock + cfg.draftLife, true, map[])])
    case StageLfs(d, path, oid, size) => WithChange(WithObject(s, oid, size), d, path, LfsFile(oid, size))
    case StageGit(d, path, blob) => WithChange(s, d, path, GitFile(blob))
    case StageDelete(d, path) => WithChange(s, d, path, Deletion)
    case Unstage(d, path) => s.(drafts := s.drafts[d := s.drafts[d].(changes := s.drafts[d].changes - {path})])
    case DropDraft(d) => s.(drafts := s.drafts - {d})
    case Publish(d, commit) => Published(s, d, commit)
    case CutPublish(d, commit) => WithBranch(s, d, commit)
  }

  ghost predicate Enabled(cfg: Config, s: World, step: Step)
  {
    match step
    case Tick(_) => true
    case Upload(u) => UploadEnabled(s, u)
    case Push(p) => PushEnabled(s, p)
    case Maintain(m) => PassEnabled(cfg, s, m)
    case Browse(b) => DraftEnabled(s, b)
  }

  ghost function Apply(cfg: Config, s: World, step: Step): World
    requires Enabled(cfg, s, step)
  {
    match step
    case Tick(seconds) => s.(clock := s.clock + seconds)
    case Upload(u) => ApplyUpload(s, u)
    case Push(p) => ApplyPush(cfg, s, p)
    case Maintain(m) => ApplyPass(cfg, s, m)
    case Browse(b) => ApplyDraft(cfg, s, b)
  }

  // ---- runs --------------------------------------------------------------------------------

  /** The states a list of steps passes through, if every step is enabled in turn. */
  ghost predicate IsRun(cfg: Config, steps: seq<Step>, states: seq<World>)
  {
    |states| == |steps| + 1
    && forall i :: 0 <= i < |steps| ==>
         Enabled(cfg, states[i], steps[i]) && states[i + 1] == Apply(cfg, states[i], steps[i])
  }
}
