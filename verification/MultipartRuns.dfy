/** What every interleaving of multipart control operations keeps, and what a retry after a lost answer achieves. */
module MultipartRuns {
  import opened Text
  import opened Layout
  import LfsWorld
  import opened Multipart

  ghost predicate OneActive(rows: Rows)
  {
    forall a, b :: a in rows.sessions && b in rows.sessions && rows.sessions[a].state == Active && rows.sessions[b].state == Active && rows.sessions[a].oid == rows.sessions[b].oid ==> a == b
  }

  /** A session belongs to an existing object whose layout it fits; a completed one to an object with content. */
  predicate SessionOk(rows: Rows, session: Session)
  {
    && session.oid in rows.objects
    && session.partSize >= 1
    && 1 <= PartCount(rows.objects[session.oid].size, session.partSize) <= MAX_PARTS
    && (session.state == Completed ==> IsStored(rows.objects[session.oid].state))
  }

  ghost predicate Numbered(s: Tables)
  {
    && (forall id ::
         id in s.rows.sessions ==> id < s.rows.nextSession && s.rows.sessions[id].upload < s.provider.nextUpload)
    && (forall oid :: oid in s.rows.objects ==> s.rows.objects[oid].id < s.rows.nextRow)
    && (forall upload :: upload in s.provider.open ==> upload < s.provider.nextUpload)
  }

  ghost predicate Sound(s: Tables)
  {
    && OneActive(s.rows)
    && Numbered(s)
    && forall id :: id in s.rows.sessions ==> SessionOk(s.rows, s.rows.sessions[id])
  }

  // ---- one step -------------------------------------------------------------------------------

  lemma AbortAtSound(s: Tables, id: nat, reply: AbortReply)
    requires Sound(s) && id in s.rows.sessions && s.rows.sessions[id].state == Active
    ensures Sound(AbortAt(s, id, reply).tables)
  {
    hide PartCount;
  }

  lemma FinalizedSound(s: Tables, id: nat, reply: CompleteReply, readable: bool)
    requires Sound(s) && id in s.rows.sessions && s.rows.sessions[id].oid in s.rows.objects
    requires s.rows.sessions[id].state == Active && s.rows.objects[s.rows.sessions[id].oid].state == LfsWorld.Pending
    ensures Sound(Finalized(s, id, reply, readable).tables)
  {
    hide PartCount;
  }

  lemma CompleteSound(s: Tables, id: nat, numbers: seq<nat>, reply: CompleteReply, readable: bool)
    requires Sound(s)
    ensures Sound(CompleteUpload(s, id, numbers, reply, readable).tables)
  {
    hide PartCount, Finalized;
    if id in s.rows.sessions && s.rows.sessions[id].oid in s.rows.objects && s.rows.sessions[id].state == Active
       && s.rows.objects[s.rows.sessions[id].oid].state == LfsWorld.Pending {
      FinalizedSound(s, id, reply, readable);
    }
  }

  lemma OpenedSound(cfg: Settings, was: Tables, s: Tables, oid: string, partSize: nat, reply: InitiateReply)
    requires Sound(was) && Sound(s) && was.provider.nextUpload == s.provider.nextUpload
    requires oid in s.rows.objects && partSize >= 1 && 1 <= PartCount(s.rows.objects[oid].size, partSize) <= MAX_PARTS
    requires forall id :: !IsActive(s, id, oid)
    ensures Sound(Opened(cfg, was, s, oid, partSize, reply).tables)
  {
    hide PartCount;
    var t := Opened(cfg, was, s, oid, partSize, reply).tables;
    forall a, b | a in t.rows.sessions && b in t.rows.sessions && t.rows.sessions[a].state == Active && t.rows.sessions[b].state == Active && t.rows.sessions[a].oid == t.rows.sessions[b].oid
      ensures a == b
    {
      assert !IsActive(s, a, oid) && !IsActive(s, b, oid);
    }
  }

  lemma InitiateSound(cfg: Settings, s: Tables, oid: string, found: Option<nat>, reply: InitiateReply)
    requires ValidSettings(cfg) && Sound(s) && IsFound(s, oid, found)
    ensures Sound(InitiateUpload(cfg, s, oid, found, reply).tables)
  {
    hide PartCount, PartSize, Opened, OneActive;
    if found.Some? {
      AbortAtSound(s, found.value, reply.abort);
    }
    if oid in s.rows.objects && s.rows.objects[oid].size <= MAX_OBJECT_SIZE {
      LayoutFits(cfg.partSize, s.rows.objects[oid].size);
      var cleared := if found.Some? then AbortAt(s, found.value, reply.abort) else Outcome(s, Ok(0));
      if cleared.result.Ok? {
        NoneActive(s, cleared.tables, oid, found);
        OpenedSound(cfg, s, cleared.tables, oid, PartSize(cfg.partSize, s.rows.objects[oid].size).value, reply);
      }
    }
  }

  lemma NoneActive(s: Tables, t: Tables, oid: string, found: Option<nat>)
    requires OneActive(s.rows) && IsFound(s, oid, found)
    requires match found
             case None => t == s
             case Some(id) =>
                    t.rows == s.rows.(sessions := s.rows.sessions[id := s.rows.sessions[id].(state := Aborted)])
    ensures forall id :: !IsActive(t, id, oid)
  {
    forall id
      ensures !IsActive(t, id, oid)
    {
      assert IsActive(t, id, oid) ==> IsActive(s, id, oid);
    }
  }

  lemma RemoveSound(s: Tables, oid: string)
    requires Sound(s)
    ensures Sound(Removed(s, oid))
  {
    hide PartCount;
  }

  /** Every control operation, storage call and lifecycle change keeps the session tables sound. */
  lemma StepSound(cfg: Settings, s: Tables, step: Step)
    requires ValidSettings(cfg) && Sound(s) && Enabled(s, step)
    ensures Sound(Apply(cfg, s, step))
  {
    hide PartCount, CompleteUpload, InitiateUpload, Removed, AbortAt, AbortPossible, CompletePossible;
    match step
    case Remove(oid) => RemoveSound(s, oid);
    case Initiate(oid, found, r) => InitiateSound(cfg, s, oid, found, r);
    case Complete(id, numbers, r, readable) => CompleteSound(s, id, numbers, r, readable);
    case Abort(id, r) =>
      if id in s.rows.sessions && s.rows.sessions[id].state == Active {
        AbortAtSound(s, id, r);
      }
    case Expire(id, now, r) =>
      if id in s.rows.sessions && s.rows.sessions[id].state == Active {
        AbortAtSound(s, id, r);
      }
    case _ =>
  }

  function Rank(state: LfsState): nat
  {
    match state
    case Pending => 0
    case Available => 1
    case Referenced => 2
  }

  /** Ended sessions never change, no session changes owner or layout, no object's state goes back, and identities are
      not reused. */
  ghost predicate Advances(s: Tables, t: Tables)
  {
    && s.rows.nextRow <= t.rows.nextRow && s.rows.nextSession <= t.rows.nextSession
    && (forall id ::
         id in s.rows.sessions && id in t.rows.sessions ==> SessionAdvances(s.rows.sessions[id], t.rows.sessions[id]))
    && (forall id :: id in t.rows.sessions && id !in s.rows.sessions ==> s.rows.nextSession <= id)
    && (forall oid ::
         oid in t.rows.objects && s.rows.nextRow > t.rows.objects[oid].id ==>
           oid in s.rows.objects && ObjectAdvances(s.rows.objects[oid], t.rows.objects[oid]))
  }

  predicate SessionAdvances(a: Session, b: Session)
  {
    if a.state == Active then b == a.(state := b.state) else b == a
  }

  predicate ObjectAdvances(a: ObjectRow, b: ObjectRow)
  {
    a.id == b.id && a.size == b.size && Rank(a.state) <= Rank(b.state)
  }

  lemma InitiateAdvances(cfg: Settings, s: Tables, oid: string, found: Option<nat>, reply: InitiateReply)
    requires Numbered(s) && IsFound(s, oid, found)
    ensures Advances(s, InitiateUpload(cfg, s, oid, found, reply).tables)
  {
    hide PartSize;
  }

  lemma FinalizedAdvances(s: Tables, id: nat, reply: CompleteReply, readable: bool)
    requires Numbered(s) && id in s.rows.sessions && s.rows.sessions[id].oid in s.rows.objects
    requires s.rows.sessions[id].state == Active && s.rows.objects[s.rows.sessions[id].oid].state == LfsWorld.Pending
    ensures Advances(s, Finalized(s, id, reply, readable).tables)
  {
  }

  lemma CompleteAdvances(s: Tables, id: nat, numbers: seq<nat>, reply: CompleteReply, readable: bool)
    requires Numbered(s)
    ensures Advances(s, CompleteUpload(s, id, numbers, reply, readable).tables)
  {
    hide PartCount, Finalized;
    if id in s.rows.sessions && s.rows.sessions[id].oid in s.rows.objects && s.rows.sessions[id].state == Active
       && s.rows.objects[s.rows.sessions[id].oid].state == LfsWorld.Pending {
      FinalizedAdvances(s, id, reply, readable);
    }
  }

  lemma AbortAtAdvances(s: Tables, id: nat, reply: AbortReply)
    requires Numbered(s) && id in s.rows.sessions && s.rows.sessions[id].state == Active
    ensures Advances(s, AbortAt(s, id, reply).tables)
  {
  }

  lemma RemoveAdvances(s: Tables, oid: string)
    requires Numbered(s)
    ensures Advances(s, Removed(s, oid))
  {
  }

  lemma AbortAdvances(s: Tables, id: nat, now: int, reply: AbortReply)
    requires Numbered(s)
    ensures Advances(s, AbortUpload(s, id, reply).tables) && Advances(s, ExpireUpload(s, id, now, reply).tables)
  {
    hide AbortAt;
    if id in s.rows.sessions && s.rows.sessions[id].state == Active {
      AbortAtAdvances(s, id, reply);
    }
  }

  lemma StepAdvances(cfg: Settings, s: Tables, step: Step)
    requires Numbered(s) && Enabled(s, step)
    ensures Advances(s, Apply(cfg, s, step))
  {
    hide CompleteUpload, InitiateUpload, AbortUpload, ExpireUpload, Removed;
    match step
    case Initiate(oid, found, r) => InitiateAdvances(cfg, s, oid, found, r);
    case Complete(id, numbers, r, readable) => CompleteAdvances(s, id, numbers, r, readable);
    case Abort(id, r) => AbortAdvances(s, id, s.clock, r);
    case Expire(id, now, r) => AbortAdvances(s, id, now, r);
    case Remove(oid) => RemoveAdvances(s, oid);
    case _ =>
  }

  lemma AdvancesTransitive(a: Tables, b: Tables, c: Tables)
    requires Numbered(a) && Advances(a, b) && Advances(b, c)
    ensures Advances(a, c)
  {
  }

  // ---- runs -----------------------------------------------------------------------------------------

  ghost predicate IsRun(cfg: Settings, steps: seq<Step>, states: seq<Tables>)
  {
    |states| == |steps| + 1
    && forall i :: 0 <= i < |steps| ==> Enabled(states[i], steps[i]) && states[i + 1] == Apply(cfg, states[i], steps[i])
  }

  function Empty(clock: int): Tables { Tables(clock, false, Rows(map[], 0, map[], 0), Provider({}, 0, map[])) }

  lemma {:induction false} RunSound(cfg: Settings, clock: int, steps: seq<Step>, states: seq<Tables>, i: nat)
    requires ValidSettings(cfg) && IsRun(cfg, steps, states) && states[0] == Empty(clock) && i < |states|
    ensures Sound(states[i])
  {
    hide Sound, Enabled, Apply;
    if i > 0 {
      RunSound(cfg, clock, steps, states, i - 1);
      StepSound(cfg, states[i - 1], steps[i - 1]);
    } else {
      EmptySound(clock);
    }
  }

  lemma EmptySound(clock: int)
    ensures Sound(Empty(clock))
  {
  }

  /** Under every interleaving: at most one active session per object, a completed session's object has content, and
      every
      session's layout has between 1 and 10,000 parts. */
  lemma SessionsStaySound(cfg: Settings, clock: int, steps: seq<Step>, states: seq<Tables>, i: nat, a: nat)
    requires ValidSettings(cfg) && IsRun(cfg, steps, states) && states[0] == Empty(clock) && i < |states|
    requires a in states[i].rows.sessions
    ensures var rows := states[i].rows;
            && rows.sessions[a].oid in rows.objects
            && (rows.sessions[a].state == Completed ==> IsStored(rows.objects[rows.sessions[a].oid].state))
            && (rows.sessions[a].state == Active ==> forall b :: IsActive(states[i], b, rows.sessions[a].oid) ==>
                 b == a)
            && rows.sessions[a].partSize >= 1
            && 1 <= PartCount(rows.objects[rows.sessions[a].oid].size, rows.sessions[a].partSize) <= MAX_PARTS
  {
    RunSound(cfg, clock, steps, states, i);
  }

  /** Over every stretch of every run: completed and aborted are final, and no object's state moves backward. */
  lemma {:induction false} RunAdvances(cfg: Settings, clock: int, steps: seq<Step>, states: seq<Tables>, i: nat, j: nat)
    requires ValidSettings(cfg) && IsRun(cfg, steps, states) && states[0] == Empty(clock) && i <= j < |states|
    ensures Advances(states[i], states[j])
    decreases j
  {
    hide Sound, Enabled, Apply, Advances;
    RunSound(cfg, clock, steps, states, i);
    if i < j {
      RunAdvances(cfg, clock, steps, states, i, j - 1);
      RunSound(cfg, clock, steps, states, j - 1);
      SoundNumbered(states[j - 1]);
      SoundNumbered(states[i]);
      StepAdvances(cfg, states[j - 1], steps[j - 1]);
      AdvancesTransitive(states[i], states[j - 1], states[j]);
    } else {
      AdvancesReflexive(states[i]);
    }
  }

  lemma SoundNumbered(s: Tables)
    requires Sound(s)
    ensures Numbered(s)
  {
  }

  lemma AdvancesReflexive(s: Tables)
    requires Sound(s)
    ensures Advances(s, s)
  {
  }

  // ---- recovery from a lost answer ---------------------------------------------------------------------

  /** The provider has assembled the object, whatever the tables say. */
  ghost predicate Recoverable(s: Tables, id: nat)
  {
    && id in s.rows.sessions
    && s.rows.sessions[id].oid in s.rows.objects
    && var session := s.rows.sessions[id];
       var row := s.rows.objects[session.oid];
       && (session.state == Completed
           || (session.state == Active && session.partSize >= 1 && session.upload !in s.provider.open && session.upload < s.provider.nextUpload
               && (IsStored(row.state) || (session.oid in s.provider.stored && s.provider.stored[session.oid] == row.size))))
  }

  predicate AllParts(s: Tables, id: nat, numbers: seq<nat>)
  {
    && id in s.rows.sessions && s.rows.sessions[id].oid in s.rows.objects && s.rows.sessions[id].partSize >= 1
    && numbers == Ascending(PartCount(s.rows.objects[s.rows.sessions[id].oid].size, s.rows.sessions[id].partSize))
  }

  predicate Live(s: Tables, id: nat)
  {
    id in s.rows.sessions && s.rows.sessions[id].state == Active && !s.closing
    && s.clock < s.rows.sessions[id].expiresAt
  }

  /** A completion call the provider performed on the whole object; its answer may be lost, or its transaction cut. */
  predicate ReachedProvider(s: Tables, step: Step, id: nat)
  {
    && step.Complete? && step.id == id && Live(s, id) && AllParts(s, id, step.numbers)
    && !step.reply.Refused? && step.reply.size == s.rows.objects[s.rows.sessions[id].oid].size
  }

  /** A later call with every part, while storage can be read. */
  predicate Retries(s: Tables, step: Step, id: nat)
  {
    step.Complete? && step.id == id && step.readable && AllParts(s, id, step.numbers)
  }

  lemma LostAnswerIsRecoverable(cfg: Settings, s: Tables, step: Step, id: nat)
    requires Sound(s) && Enabled(s, step) && ReachedProvider(s, step, id)
    ensures Recoverable(Apply(cfg, s, step), id)
    ensures Apply(cfg, s, step).rows.sessions[id].expiresAt == s.rows.sessions[id].expiresAt
  {
    hide PartCount, Ascending;
  }

  lemma CompleteKeepsRecoverable(s: Tables, id: nat, other: nat, numbers: seq<nat>, reply: CompleteReply,
                                 readable: bool)
    requires Sound(s) && Recoverable(s, id)
    requires (other in s.rows.sessions ==> CompletePossible(s.provider, s.rows.sessions[other].upload, reply))
    ensures Recoverable(CompleteUpload(s, other, numbers, reply, readable).tables, id)
  {
    hide PartCount, Ascending;
  }

  lemma InitiateKeepsRecoverable(cfg: Settings, s: Tables, id: nat, oid: string, found: Option<nat>,
                                 reply: InitiateReply)
    requires Sound(s) && Recoverable(s, id) && IsFound(s, oid, found) && s.clock < s.rows.sessions[id].expiresAt
    ensures Recoverable(InitiateUpload(cfg, s, oid, found, reply).tables, id)
  {
    hide PartCount, PartSize;
  }

  predicate Aborts(step: Step, id: nat) { step.Abort? && step.id == id }

  predicate IsCompleted(s: Tables, id: nat) { id in s.rows.sessions && s.rows.sessions[id].state == Completed }

  /** Before its expiry a recoverable session stays so under every step but its own abort; only once completed can it be
      swept with its object. */
  lemma StepKeepsRecoverable(cfg: Settings, s: Tables, id: nat, step: Step)
    requires Sound(s) && Recoverable(s, id) && Enabled(s, step) && !Aborts(step, id)
    requires s.clock < s.rows.sessions[id].expiresAt
    ensures Recoverable(Apply(cfg, s, step), id) || IsCompleted(s, id)
  {
    hide CompleteUpload, InitiateUpload, PartCount;
    match step
    case Initiate(oid, found, r) => InitiateKeepsRecoverable(cfg, s, id, oid, found, r);
    case Complete(other, numbers, r, readable) => CompleteKeepsRecoverable(s, id, other, numbers, r, readable);
    case _ =>
  }

  lemma RetryCompletes(cfg: Settings, s: Tables, step: Step, id: nat)
    requires Sound(s) && Enabled(s, step) && Retries(s, step, id)
    requires IsCompleted(s, id) || (Recoverable(s, id) && Live(s, id))
    ensures IsCompleted(Apply(cfg, s, step), id)
  {
    hide PartCount, Ascending;
  }

  lemma StepKeepsTime(cfg: Settings, s: Tables, step: Step)
    requires Enabled(s, step)
    ensures s.clock <= Apply(cfg, s, step).clock && (s.closing ==> Apply(cfg, s, step).closing)
  {
    hide PartSize, PartCount, Ascending;
  }

  lemma {:induction false} RunKeepsRecoverable(cfg: Settings, clock: int, steps: seq<Step>, states: seq<Tables>, i: nat,
                                               j: nat, id: nat)
    requires ValidSettings(cfg) && IsRun(cfg, steps, states) && states[0] == Empty(clock) && i <= j < |states|
    requires Recoverable(states[i], id) && states[j].clock < states[i].rows.sessions[id].expiresAt
    requires forall k :: i <= k < j ==> !Aborts(steps[k], id)
    ensures Recoverable(states[j], id) || exists k :: i <= k < j && IsCompleted(states[k], id)
    decreases j
  {
    hide Sound, Enabled, Apply, Advances, Recoverable, IsCompleted;
    if i < j {
      StepKeepsTime(cfg, states[j - 1], steps[j - 1]);
      RunKeepsRecoverable(cfg, clock, steps, states, i, j - 1, id);
      if Recoverable(states[j - 1], id) {
        RunSound(cfg, clock, steps, states, j - 1);
        RunAdvances(cfg, clock, steps, states, i, j - 1);
        RecoverableExists(states[i], states[j - 1], id);
        SameExpiry(states[i], states[j - 1], id);
        StepKeepsRecoverable(cfg, states[j - 1], id, steps[j - 1]);
      }
    }
  }

  lemma RecoverableExists(s: Tables, t: Tables, id: nat)
    requires Recoverable(s, id) && Recoverable(t, id)
    ensures id in s.rows.sessions && id in t.rows.sessions
  {
  }

  lemma SameExpiry(s: Tables, t: Tables, id: nat)
    requires Advances(s, t) && id in s.rows.sessions && id in t.rows.sessions
    ensures t.rows.sessions[id].expiresAt == s.rows.sessions[id].expiresAt
  {
  }

  /** Once a completion call reached the provider, any retry made before the session expires leaves it COMPLETED, in
      every
      run, whatever other requests and passes do in between, short of aborting this session or deleting the dataset. */
  lemma RetryReachesCompletion(cfg: Settings, clock: int, steps: seq<Step>, states: seq<Tables>, i: nat, j: nat,
                               id: nat)
    requires ValidSettings(cfg) && IsRun(cfg, steps, states) && states[0] == Empty(clock) && i < j < |steps|
    requires ReachedProvider(states[i], steps[i], id) && Retries(states[j], steps[j], id)
    requires !states[j].closing && states[j].clock < states[i].rows.sessions[id].expiresAt
    requires forall k :: i < k < j ==> !Aborts(steps[k], id)
    ensures IsCompleted(states[j + 1], id)
  {
    hide Sound, Enabled, Apply, Advances, Recoverable, ReachedProvider, AllParts, IsCompleted;
    RunSound(cfg, clock, steps, states, i);
    RunSound(cfg, clock, steps, states, j);
    LostAnswerIsRecoverable(cfg, states[i], steps[i], id);
    RunKeepsRecoverable(cfg, clock, steps, states, i + 1, j, id);
    if k :| i < k < j && IsCompleted(states[k], id) {
      RunAdvances(cfg, clock, steps, states, k, j);
      StaysCompleted(states[k], states[j], steps[j], id);
    } else {
      RunAdvances(cfg, clock, steps, states, i + 1, j);
      RecoverableLives(states[i + 1], states[j], id);
    }
    RetryCompletes(cfg, states[j], steps[j], id);
  }

  lemma StaysCompleted(s: Tables, t: Tables, step: Step, id: nat)
    requires Advances(s, t) && IsCompleted(s, id) && Retries(t, step, id)
    ensures IsCompleted(t, id)
  {
  }

  lemma RecoverableLives(s: Tables, t: Tables, id: nat)
    requires Advances(s, t) && Recoverable(s, id) && Recoverable(t, id) && !t.closing
    requires t.clock < s.rows.sessions[id].expiresAt
    ensures IsCompleted(t, id) || Live(t, id)
  {
  }
}
