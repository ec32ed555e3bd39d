/** Multipart upload sessions: the control operations, the provider behind them and what every interleaving keeps. */
module Multipart {
  import opened Text
  import opened Layout
  import LfsWorld

  type LfsState = LfsWorld.LfsState

  datatype Settings = Settings(threshold: nat, partSize: nat, lifetime: nat)

  predicate ValidSettings(cfg: Settings)
  {
    1 <= cfg.threshold <= MAX_OBJECT_SIZE && 5 * MIB <= cfg.partSize <= MAX_PART_SIZE && 1 <= cfg.lifetime <= 604_800
  }

  /** An LfsObject row; `id` is its primary key, the map key its identifier. */
  datatype ObjectRow = ObjectRow(id: nat, size: nat, state: LfsState)

  datatype SessionState = Active | Completed | Aborted

  datatype Session = Session(oid: string, upload: nat, partSize: nat, state: SessionState, expiresAt: int)

  datatype Rows = Rows(objects: map<string, ObjectRow>, nextRow: nat, sessions: map<nat, Session>, nextSession: nat)

  /** The storage provider: its open uploads, which are never reopened, and the size of every stored object. */
  datatype Provider = Provider(open: set<nat>, nextUpload: nat, stored: map<string, nat>)

  datatype Tables = Tables(clock: int, closing: bool, rows: Rows, provider: Provider)

  datatype Failure = Unknown | Unavailable | Expired | Integrity | StoreError

  /** What a control operation leaves behind and reports; a failure may leave provider state changed. */
  datatype Outcome = Outcome(tables: Tables, result: Result<nat, Failure>)

  /** Completion at the provider: done, done with the answer lost, or refused. */
  datatype CompleteReply = Done(size: nat) | Lost(size: nat) | Refused

  datatype AbortReply = Gone | Missing | Unreachable(performed: bool)

  /** Abort of an expired session, opening the new upload, inserting its row, and the clean-up if that fails. */
  datatype InitiateReply = InitiateReply(abort: AbortReply, opens: bool, inserts: bool, cleaned: bool)

  predicate IsStored(state: LfsState) { LfsWorld.IsStored(state) }

  predicate CompletePossible(p: Provider, upload: nat, reply: CompleteReply) { reply.Refused? || upload in p.open }

  predicate AbortPossible(p: Provider, upload: nat, reply: AbortReply) { reply.Missing? ==> upload !in p.open }

  function AfterComplete(p: Provider, oid: string, upload: nat, reply: CompleteReply): Provider
  {
    if reply.Refused? then p else p.(open := p.open - {upload}, stored := p.stored[oid := reply.size])
  }

  function AfterAbort(p: Provider, upload: nat, reply: AbortReply): Provider
  {
    if reply.Gone? || reply == Unreachable(true) then p.(open := p.open - {upload}) else p
  }

  function WithSession(s: Tables, id: nat, value: Session): Tables { s.(rows := s.rows.(sessions := s.rows.sessions[id := value])) }

  function WithObject(s: Tables, oid: string, value: ObjectRow): Tables { s.(rows := s.rows.(objects := s.rows.objects[oid := value])) }

  // ---- completion ------------------------------------------------------------------------

  /** `_require_active_multipart_session`. */
  function Refusal(s: Tables, session: Session, row: ObjectRow): Option<Failure>
  {
    if s.closing || session.state != Active then Some(Unavailable)
    else if session.expiresAt <= s.clock then Some(Expired)
    else if row.state != LfsWorld.Pending then Some(Unavailable)
    else None
  }

  /** The finalization that follows the provider call, whether it succeeded or is to be recovered from. */
  function Finalized(s: Tables, id: nat, reply: CompleteReply, readable: bool): Outcome
    requires id in s.rows.sessions && s.rows.sessions[id].oid in s.rows.objects
  {
    var session := s.rows.sessions[id];
    var row := s.rows.objects[session.oid];
    var after := s.(provider := AfterComplete(s.provider, session.oid, session.upload, reply));
    if readable && session.oid in after.provider.stored && after.provider.stored[session.oid] == row.size then
      Outcome(WithSession(WithObject(after, session.oid, row.(state := LfsWorld.Available)), id, session.(state := Completed)), Ok(id))
    else
      Outcome(after, Err(if reply.Done? && readable then Integrity else StoreError))
  }

  /** `complete_multipart_upload`. */
  function CompleteUpload(s: Tables, id: nat, numbers: seq<nat>, reply: CompleteReply, readable: bool): Outcome
  {
    if id !in s.rows.sessions || s.rows.sessions[id].oid !in s.rows.objects then Outcome(s, Err(Unknown))
    else
      var session := s.rows.sessions[id];
      var row := s.rows.objects[session.oid];
      if session.state == Completed then Outcome(s, Ok(id))
      else if session.state == Active && IsStored(row.state) then Outcome(WithSession(s, id, session.(state := Completed)), Ok(id))
      else if Refusal(s, session, row).Some? then Outcome(s, Err(Refusal(s, session, row).value))
      else if session.partSize == 0 || numbers != Ascending(PartCount(row.size, session.partSize)) then Outcome(s, Err(Integrity))
      else Finalized(s, id, reply, readable)
  }

  // ---- abort -------------------------------------------------------------------------------

  function AbortAt(s: Tables, id: nat, reply: AbortReply): Outcome
    requires id in s.rows.sessions
  {
    var session := s.rows.sessions[id];
    var after := s.(provider := AfterAbort(s.provider, session.upload, reply));
    if reply.Unreachable? then Outcome(after, Err(StoreError))
    else Outcome(WithSession(after, id, session.(state := Aborted)), Ok(id))
  }

  /** `abort_multipart_upload`. */
  function AbortUpload(s: Tables, id: nat, reply: AbortReply): Outcome
  {
    if id !in s.rows.sessions then Outcome(s, Err(Unknown))
    else
      match s.rows.sessions[id].state
      case Aborted => Outcome(s, Ok(id))
      case Completed => Outcome(s, Err(Unavailable))
      case Active => AbortAt(s, id, reply)
  }

  /** `_abort_expired_session`, with the clock reading `now` of its pass; `Unknown` stands for a session left alone. */
  function ExpireUpload(s: Tables, id: nat, now: int, reply: AbortReply): Outcome
  {
    if id !in s.rows.sessions || s.rows.sessions[id].state != Active || s.rows.sessions[id].expiresAt > now then Outcome(s, Err(Unknown))
    else AbortAt(s, id, reply)
  }

  // ---- initiation -----------------------------------------------------------------------------

  predicate IsActive(s: Tables, id: nat, oid: string)
  {
    id in s.rows.sessions && s.rows.sessions[id].oid == oid && s.rows.sessions[id].state == Active
  }

  ghost predicate IsFound(s: Tables, oid: string, found: Option<nat>)
  {
    match found
    case Some(id) => IsActive(s, id, oid)
    case None => forall id :: !IsActive(s, id, oid)
  }

  /** Opening a fresh upload and inserting its row; `was` is the state a rolled-back transaction returns to. */
  function Opened(cfg: Settings, was: Tables, s: Tables, oid: string, partSize: nat, reply: InitiateReply): Outcome
  {
    var upload := s.provider.nextUpload;
    if !reply.opens then Outcome(was.(provider := s.provider), Err(StoreError))
    else if !reply.inserts then
      Outcome(was.(provider := s.provider.(nextUpload := upload + 1, open := if reply.cleaned then s.provider.open else s.provider.open + {upload})), Err(StoreError))
    else
      Outcome(s.(provider := s.provider.(nextUpload := upload + 1, open := s.provider.open + {upload}),
                 rows := s.rows.(sessions := s.rows.sessions[s.rows.nextSession := Session(oid, upload, partSize, Active, s.clock + cfg.lifetime)],
                                 nextSession := s.rows.nextSession + 1)),
              Ok(s.rows.nextSession))
  }

  /** `initiate_multipart_upload`; `found` is the object's active session. An error rolls the rows back, not the
      provider. */
  function InitiateUpload(cfg: Settings, s: Tables, oid: string, found: Option<nat>, reply: InitiateReply): Outcome
    requires found.Some? ==> found.value in s.rows.sessions
  {
    if oid !in s.rows.objects then Outcome(s, Err(Unknown))
    else
      var row := s.rows.objects[oid];
      if s.closing || row.state != LfsWorld.Pending || row.size < cfg.threshold then Outcome(s, Err(Unavailable))
      else if row.size > MAX_OBJECT_SIZE then Outcome(s, Err(Integrity))
      else if found.Some? && s.rows.sessions[found.value].expiresAt > s.clock then Outcome(s, Ok(found.value))
      else
        var cleared := if found.Some? then AbortAt(s, found.value, reply.abort) else Outcome(s, Ok(0));
        if cleared.result.Err? then cleared
        else
          var partSize := PartSize(cfg.partSize, row.size);
          if partSize.Err? then Outcome(s.(provider := cleared.tables.provider), Err(Integrity))
          else Opened(cfg, s, cleared.tables, oid, partSize.value, reply)
  }

  // ---- the object's other transitions -------------------------------------------------------

  /** Maintenance removes an unreferenced object without an active session, its sessions going with it. */
  predicate Removable(s: Tables, oid: string)
  {
    oid in s.rows.objects && s.rows.objects[oid].state != LfsWorld.Referenced && forall id :: id in s.rows.sessions ==>
      !IsActive(s, id, oid)
  }

  function Removed(s: Tables, oid: string): Tables
  {
    s.(rows := s.rows.(objects := s.rows.objects - {oid}, sessions := map id | id in s.rows.sessions && s.rows.sessions[id].oid != oid :: s.rows.sessions[id]),
       provider := s.provider.(stored := s.provider.stored - {oid}))
  }

  datatype Step =
    | Tick(seconds: nat)
    | StartDeletion
    | Negotiate(oid: string, size: nat)
    | Put(oid: string)
    | Finalize(oid: string)
    | Promote(oid: string)
    | Remove(oid: string)
    | Initiate(oid: string, found: Option<nat>, opening: InitiateReply)
    | Complete(id: nat, numbers: seq<nat>, reply: CompleteReply, readable: bool)
    | Abort(id: nat, abort: AbortReply)
    | Expire(id: nat, now: int, abort: AbortReply)

  ghost predicate Enabled(s: Tables, step: Step)
  {
    match step
    case Negotiate(oid, _) => oid !in s.rows.objects
    case Put(oid) => oid in s.rows.objects
    case Finalize(oid) => oid in s.rows.objects
    case Promote(oid) => oid in s.rows.objects && IsStored(s.rows.objects[oid].state)
    case Remove(oid) => Removable(s, oid)
    case Initiate(oid, found, r) => IsFound(s, oid, found) && (found.Some? ==>
           AbortPossible(s.provider, s.rows.sessions[found.value].upload, r.abort))
    case Complete(id, _, r, _) => id in s.rows.sessions ==> CompletePossible(s.provider, s.rows.sessions[id].upload, r)
    case Abort(id, r) => id in s.rows.sessions ==> AbortPossible(s.provider, s.rows.sessions[id].upload, r)
    case Expire(id, now, r) =>
           now <= s.clock && (id in s.rows.sessions ==> AbortPossible(s.provider, s.rows.sessions[id].upload, r))
    case _ => true
  }

  function MadeAvailable(row: ObjectRow): ObjectRow { if IsStored(row.state) then row else row.(state := LfsWorld.Available) }

  ghost function Apply(cfg: Settings, s: Tables, step: Step): Tables
    requires Enabled(s, step)
  {
    match step
    case Tick(seconds) => s.(clock := s.clock + seconds)
    case StartDeletion => s.(closing := true)
    case Negotiate(oid, size) => s.(rows := s.rows.(objects := s.rows.objects[oid := ObjectRow(s.rows.nextRow, size, LfsWorld.Pending)], nextRow := s.rows.nextRow + 1))
    case Put(oid) => s.(provider := s.provider.(stored := s.provider.stored[oid := s.rows.objects[oid].size]))
    case Finalize(oid) => WithObject(s, oid, MadeAvailable(s.rows.objects[oid]))
    case Promote(oid) => WithObject(s, oid, s.rows.objects[oid].(state := LfsWorld.Referenced))
    case Remove(oid) => Removed(s, oid)
    case Initiate(oid, found, r) => InitiateUpload(cfg, s, oid, found, r).tables
    case Complete(id, numbers, r, readable) => CompleteUpload(s, id, numbers, r, readable).tables
    case Abort(id, r) => AbortUpload(s, id, r).tables
    case Expire(id, now, r) => ExpireUpload(s, id, now, r).tables
  }
}
