/** The control operations as code over the object and session rows, each proved to have its specified outcome. */
module MultipartServer {
  import opened Text
  import opened Layout
  import LfsWorld
  import opened Multipart
  import opened MultipartRuns

  class Uploads {
    var clock: int
    var closing: bool
    var objects: map<string, ObjectRow>
    var nextRow: nat
    var sessions: map<nat, Session>
    var nextSession: nat
    var provider: Provider

    ghost function View(): Tables
      reads this
    {
      Tables(clock, closing, Rows(objects, nextRow, sessions, nextSession), provider)
    }

    constructor (start: int)
      ensures View() == Empty(start) && Sound(View())
    {
      clock, closing, objects, nextRow, sessions, nextSession := start, false, map[], 0, map[], 0;
      provider := Provider({}, 0, map[]);
    }

    /** The first active session of an object. */
    method FindActive(oid: string) returns (found: Option<nat>)
      ensures IsFound(View(), oid, found)
    {
      var todo := sessions.Keys;
      while todo != {}
        invariant todo <= sessions.Keys
        invariant forall id :: IsActive(View(), id, oid) ==> id in todo
        decreases todo
      {
        var id :| id in todo;
        if sessions[id].oid == oid && sessions[id].state == Active {
          return Some(id);
        }
        todo := todo - {id};
      }
      return None;
    }

    /** `_multipart_part_size`. */
    method ChoosePartSize(cfg: Settings, size: nat) returns (chosen: Result<nat, ()>)
      ensures chosen == PartSize(cfg.partSize, size)
    {
      var required := (size + 9_999) / 10_000;
      if required < 1 {
        required := 1;
      }
      var partSize := cfg.partSize;
      if partSize < required {
        partSize := required;
      }
      return if partSize > 5 * 1024 * 1024 * 1024 then Err(()) else Ok(partSize);
    }

    method MarkAborted(id: nat, reply: AbortReply) returns (ok: bool)
      requires id in sessions
      modifies this
      ensures View() == AbortAt(old(View()), id, reply).tables && ok == AbortAt(old(View()), id, reply).result.Ok?
    {
      provider := AfterAbort(provider, sessions[id].upload, reply);
      if reply.Unreachable? {
        return false;
      }
      sessions := sessions[id := sessions[id].(state := Aborted)];
      return true;
    }

    /** `initiate_multipart_upload`; it keeps the tables sound, so an object never gets a second active session. */
    method Initiate(cfg: Settings, oid: string, reply: InitiateReply) returns (result: Result<nat, Failure>)
      requires ValidSettings(cfg) && Sound(View())
      modifies this
      ensures Sound(View())
      ensures exists found :: IsFound(old(View()), oid, found) && InitiateUpload(cfg, old(View()), oid, found, reply) == Outcome(View(), result)
      ensures result.Ok? ==> IsActive(View(), result.value, oid) && clock < sessions[result.value].expiresAt
    {
      hide Sound, PartCount, PartSize;
      ghost var was := View();
      var found := FindActive(oid);
      InitiateSound(cfg, View(), oid, found, reply);
      SoundNumbered(View());
      if oid !in objects {
        return Err(Unknown);
      }
      var row := objects[oid];
      if closing || row.state != LfsWorld.Pending || row.size < cfg.threshold {
        return Err(Unavailable);
      }
      if row.size > 5 * 1024 * 1024 * 1024 * 1024 {
        return Err(Integrity);
      }
      if found.Some? && sessions[found.value].expiresAt > clock {
        return Ok(found.value);
      }
      var savepoint := sessions;
      if found.Some? {
        var ok := MarkAborted(found.value, reply.abort);
        if !ok {
          return Err(StoreError);
        }
      }
      var partSize := ChoosePartSize(cfg, row.size);
      if partSize.Err? {
        sessions := savepoint;
        return Err(Integrity);
      }
      if !reply.opens {
        sessions := savepoint;
        return Err(StoreError);
      }
      var upload := provider.nextUpload;
      provider := provider.(nextUpload := upload + 1, open := provider.open + {upload});
      if !reply.inserts {
        if reply.cleaned {
          provider := provider.(open := provider.open - {upload});
          assert upload !in was.provider.open;
        }
        sessions := savepoint;
        return Err(StoreError);
      }
      sessions := sessions[nextSession := Session(oid, upload, partSize.value, Active, clock + cfg.lifetime)];
      nextSession := nextSession + 1;
      return Ok(nextSession - 1);
    }

    /** `complete_multipart_upload`. */
    method Complete(id: nat, numbers: seq<nat>, reply: CompleteReply, readable: bool)
      returns (result: Result<nat, Failure>)
      requires Sound(View())
      modifies this
      ensures Sound(View())
      ensures Outcome(View(), result) == CompleteUpload(old(View()), id, numbers, reply, readable)
      ensures result.Ok? ==> IsCompleted(View(), id) && IsStored(objects[sessions[id].oid].state)
    {
      hide PartCount, Ascending;
      CompleteSound(View(), id, numbers, reply, readable);
      if id !in sessions {
        return Err(Unknown);
      }
      var session := sessions[id];
      var row := objects[session.oid];
      if session.state == Completed {
        return Ok(id);
      }
      if session.state == Active && IsStored(row.state) {
        sessions := sessions[id := session.(state := Completed)];
        return Ok(id);
      }
      if closing || session.state != Active {
        return Err(Unavailable);
      }
      if session.expiresAt <= clock {
        return Err(Expired);
      }
      if numbers != Ascending(PartCount(row.size, session.partSize)) {
        return Err(Integrity);
      }
      provider := AfterComplete(provider, session.oid, session.upload, reply);
      if !readable || session.oid !in provider.stored || provider.stored[session.oid] != row.size {
        return Err(if reply.Done? && readable then Integrity else StoreError);
      }
      objects := objects[session.oid := row.(state := LfsWorld.Available)];
      sessions := sessions[id := session.(state := Completed)];
      return Ok(id);
    }

    /** `abort_multipart_upload`. */
    method Abort(id: nat, reply: AbortReply) returns (result: Result<nat, Failure>)
      requires Sound(View())
      modifies this
      ensures Sound(View())
      ensures Outcome(View(), result) == AbortUpload(old(View()), id, reply)
      ensures result.Ok? ==> id in sessions && sessions[id].state == Aborted
      ensures objects == old(objects) && forall other :: other in old(sessions) && other != id ==>
                other in sessions && sessions[other] == old(sessions)[other]
    {
      hide Sound;
      if id !in sessions {
        return Err(Unknown);
      }
      if sessions[id].state == Aborted {
        return Ok(id);
      }
      if sessions[id].state == Completed {
        return Err(Unavailable);
      }
      AbortAtSound(View(), id, reply);
      var ok := MarkAborted(id, reply);
      return if ok then Ok(id) else Err(StoreError);
    }

    /** The abort loop of a maintenance pass; a provider failure skips that session only. */
    method AbortExpired(candidates: seq<nat>, now: int, replies: map<nat, AbortReply>)
      returns (aborted: nat, failures: nat)
      requires Sound(View()) && forall id :: id in candidates ==> id in replies
      modifies this
      ensures Sound(View()) && aborted + failures <= |candidates|
      ensures View() == ExpiredAll(old(View()), candidates, now, replies)
    {
      aborted, failures := 0, 0;
      for n := 0 to |candidates|
        invariant Sound(View()) && aborted + failures <= n
        invariant View() == ExpiredAll(old(View()), candidates[..n], now, replies)
      {
        hide Sound;
        assert candidates[..n + 1][..n] == candidates[..n];
        var id := candidates[n];
        if id in sessions && sessions[id].state == Active && sessions[id].expiresAt <= now {
          AbortAtSound(View(), id, replies[id]);
          var ok := MarkAborted(id, replies[id]);
          if ok {
            aborted := aborted + 1;
          } else {
            failures := failures + 1;
          }
        }
      }
      assert candidates[..|candidates|] == candidates;
    }
  }

  function ExpiredAll(s: Tables, candidates: seq<nat>, now: int, replies: map<nat, AbortReply>): Tables
    requires forall id :: id in candidates ==> id in replies
    decreases |candidates|
  {
    if candidates == [] then s
    else
      var last := candidates[|candidates| - 1];
      ExpireUpload(ExpiredAll(s, candidates[..|candidates| - 1], now, replies), last, now, replies[last]).tables
  }

  /** A pass whose storage calls succeed leaves none of its candidates active and expired, and touches no other
      session. */
  lemma {:induction false} PassAbortsAllExpired(s: Tables, candidates: seq<nat>, now: int, replies: map<nat,
                                                AbortReply>, id: nat)
    requires forall c :: c in candidates ==> c in replies && !replies[c].Unreachable?
    requires id in s.rows.sessions
    ensures var t := ExpiredAll(s, candidates, now, replies).rows.sessions;
            id in t && t[id] == if id in candidates && s.rows.sessions[id].state == Active
            && s.rows.sessions[id].expiresAt <= now then s.rows.sessions[id].(state := Aborted) else s.rows.sessions[id]
    decreases |candidates|
  {
    if candidates != [] {
      var front := candidates[..|candidates| - 1];
      PassAbortsAllExpired(s, front, now, replies, id);
      assert candidates == front + [candidates[|candidates| - 1]];
    }
  }
}
