/** What one maintenance pass does: it replays missed post-receive work and then collects old objects. A pass that runs
    without interruption is a run of the step system, so what holds in every run holds of it. */
module LfsCleanup {
  import opened Text
  import opened Pointer
  import opened GitObjects
  import opened PushScan
  import opened LfsWorld
  import opened LfsInvariant
  import opened LfsPushSafety
  import opened LfsPassSafety
  import opened PushReplay

  // ---- reconciliation --------------------------------------------------------------------------

  /** Reconciling one context on its own: accept what its refs contain, then complete it. */
  function Reconciled(s: World, c: nat): World
    requires c in s.push.contexts
  {
    Completed(Accept(s, c, SeenRefs(s, c)), c)
  }

  datatype Reconciliation = Reconciliation(world: World, count: nat)

  /** `reconcile_git_pushes` over a selected batch, with the number of ref proposals it accepted. A context that is
      gone, or
      whose repository cannot be read, is passed over. */
  function ReconciledAll(s: World, ids: seq<nat>, readable: set<nat>): Reconciliation
    decreases |ids|
  {
    if ids == [] then Reconciliation(s, 0)
    else
      var before := ReconciledAll(s, ids[..|ids| - 1], readable);
      var c := ids[|ids| - 1];
      if c in before.world.push.contexts && c in readable
      then Reconciliation(Reconciled(before.world, c), before.count + |SeenRefs(before.world, c)|)
      else before
  }

  predicate Distinct<T(==)>(s: seq<T>) { forall i, j :: 0 <= i < j < |s| ==> s[i] != s[j] }

  /** The batch a pass selects: expired contexts, oldest expiry first, at most `batch` of them. */
  ghost predicate IsBatch(s: World, batch: nat, ids: seq<nat>)
  {
    && |ids| <= batch
    && Distinct(ids)
    && (forall i :: 0 <= i < |ids| ==> Expired(s, ids[i]))
    && (|ids| == batch || forall c :: c in ExpiredContexts(s) ==> c in ids)
    && (forall c, i :: c in ExpiredContexts(s) && c !in ids && 0 <= i < |ids| ==>
          s.push.contexts[ids[i]].expiresAt <= s.push.contexts[c].expiresAt)
  }

  lemma {:induction false} DistinctCount(ids: seq<nat>, all: set<nat>)
    requires Distinct(ids)
    requires forall i :: 0 <= i < |ids| ==> ids[i] in all
    requires |all| <= |ids|
    ensures forall c :: c in all ==> c in ids
    decreases |ids|
  {
    if ids == [] {
      assert all == {};
    } else {
      var last, rest := ids[|ids| - 1], ids[..|ids| - 1];
      DistinctCount(rest, all - {last});
      forall c | c in all
        ensures c in ids
      {
        if c != last {
          assert c in rest;
        }
      }
    }
  }

  function SetOf(ids: seq<nat>): set<nat> { set c | c in ids }

  /** A batch at least as large as the backlog takes every expired context. */
  lemma BatchTakesAll(s: World, batch: nat, ids: seq<nat>)
    requires IsBatch(s, batch, ids) && |ExpiredContexts(s)| <= batch
    ensures SetOf(ids) == ExpiredContexts(s)
  {
    if |ids| == batch {
      DistinctCount(ids, ExpiredContexts(s));
    }
  }

  // ---- collection ------------------------------------------------------------------------------

  function Collected(s: World, oid: string): World
  {
    if Protected(s, oid) then WithoutBytes(s, oid) else WithoutRow(WithoutBytes(s, oid), oid)
  }

  datatype Outcome = Deleted | Kept | RowProtected | StorageFailed

  /** What object storage answers to a delete request. An error does not say whether the bytes went; an object that is
      not
      there counts as deleted. */
  datatype Storage = Works | Fails(performed: bool)

  /** A candidate's turn: whether its row lock was free, and how its storage request ends if it gets that far. */
  datatype Turn = Turn(claimed: bool, storage: Storage)

  /** What `_delete_orphan` rechecks under the row lock. */
  predicate Eligible(s: World, oid: string, cutoff: int, now: int)
  {
    oid in s.lfs.rows && Old(s.lfs.rows[oid], cutoff) && oid !in s.lfs.uploading && !LeaseAlive(s, oid, now)
  }

  predicate Due(s: World, oid: string, turn: Turn, cutoff: int, now: int)
  {
    turn.claimed && Eligible(s, oid, cutoff, now)
  }

  /** One candidate: bytes first, then the row. */
  function OrphanOutcome(s: World, oid: string, turn: Turn, cutoff: int, now: int): Outcome
  {
    if !Due(s, oid, turn, cutoff, now) then Kept
    else if turn.storage.Fails? then StorageFailed
    else if Protected(s, oid) then RowProtected
    else Deleted
  }

  function AfterOrphan(s: World, oid: string, turn: Turn, cutoff: int, now: int): World
  {
    if !Due(s, oid, turn, cutoff, now) then s
    else match turn.storage
      case Works => Collected(s, oid)
      case Fails(performed) => if performed then WithoutBytes(s, oid) else s
  }

  datatype Sweep = Sweep(world: World, deleted: nat, failures: nat, finished: bool)

  /** The deletion loop of a pass. A storage error is counted and passed over; failing to delete a protected row is no
      storage error, so it ends the pass. */
  function Swept(s: World, oids: seq<string>, turns: seq<Turn>, cutoff: int, now: int): Sweep
    requires |turns| == |oids|
    decreases |oids|
  {
    if oids == [] then Sweep(s, 0, 0, true)
    else
      var outcome := OrphanOutcome(s, oids[0], turns[0], cutoff, now);
      var after := AfterOrphan(s, oids[0], turns[0], cutoff, now);
      if outcome == RowProtected then Sweep(after, 0, 0, false)
      else
        var rest := Swept(after, oids[1..], turns[1..], cutoff, now);
        rest.(deleted := rest.deleted + (if outcome == Deleted then 1 else 0),
              failures := rest.failures + (if outcome == StorageFailed then 1 else 0))
  }

  /** The tables another candidate is judged by. */
  ghost predicate SameFor(s: World, t: World, oid: string)
  {
    && t.drafts == s.drafts && t.lfs.uploading == s.lfs.uploading
    && (oid in t.lfs.rows <==> oid in s.lfs.rows) && (oid in s.lfs.rows ==> t.lfs.rows[oid] == s.lfs.rows[oid])
    && (forall k: LeaseKey :: k.oid == oid ==> (k in t.push.leases <==> k in s.push.leases))
    && (forall k: LeaseKey :: k.oid == oid && k in s.push.leases ==> t.push.leases[k] == s.push.leases[k])
  }

  lemma OrphanSameForOthers(s: World, oid: string, turn: Turn, other: string, cutoff: int, now: int)
    requires other != oid
    ensures SameFor(s, AfterOrphan(s, oid, turn, cutoff, now), other)
  {
    hide Due, Protected;
  }

  lemma SameForIsJudgedAlike(s: World, t: World, oid: string, cutoff: int, now: int)
    requires SameFor(s, t, oid)
    ensures Eligible(t, oid, cutoff, now) == Eligible(s, oid, cutoff, now) && Protected(t, oid) == Protected(s, oid)
  {
    assert LeaseAlive(t, oid, now) == LeaseAlive(s, oid, now);
  }

  /** Whatever happened to one candidate, the others are judged as before. */
  lemma OrphanLeavesOthers(s: World, oid: string, turn: Turn, other: string, cutoff: int, now: int)
    requires other != oid
    ensures var t := AfterOrphan(s, oid, turn, cutoff, now);
            && Eligible(t, other, cutoff, now) == Eligible(s, other, cutoff, now)
            && Protected(t, other) == Protected(s, other)
  {
    hide SameFor, AfterOrphan, Eligible, Protected;
    OrphanSameForOthers(s, oid, turn, other, cutoff, now);
    SameForIsJudgedAlike(s, AfterOrphan(s, oid, turn, cutoff, now), other, cutoff, now);
  }

  /** What a candidate due for deletion needs for the pass to go on behind it. */
  predicate PassesOver(s: World, oid: string, turn: Turn, cutoff: int, now: int)
  {
    Due(s, oid, turn, cutoff, now) && turn.storage.Works? ==> !Protected(s, oid)
  }

  /** A pass gets through its candidates exactly when none that passes every recheck, and whose bytes storage deletes,
      is
      staged in a draft: one such row ends the pass, and the candidates behind it are not reached. */
  lemma {:induction false} OneProtectedRowStopsThePass(s: World, oids: seq<string>, turns: seq<Turn>, cutoff: int,
        now: int)
    requires |turns| == |oids| && Distinct(oids)
    ensures Swept(s, oids, turns, cutoff, now).finished
       <==> forall i :: 0 <= i < |oids| ==> PassesOver(s, oids[i], turns[i], cutoff, now)
    decreases |oids|
  {
    hide Eligible, Protected, Collected;
    if oids != [] {
      var rest, restTurns := oids[1..], turns[1..];
      var after := AfterOrphan(s, oids[0], turns[0], cutoff, now);
      assert forall i :: 0 <= i < |rest| ==> rest[i] == oids[i + 1] && restTurns[i] == turns[i + 1];
      OneProtectedRowStopsThePass(after, rest, restTurns, cutoff, now);
      forall i | 0 <= i < |rest|
        ensures PassesOver(after, rest[i], restTurns[i], cutoff, now)
             == PassesOver(s, rest[i], restTurns[i], cutoff, now)
      {
        OrphanLeavesOthers(s, oids[0], turns[0], rest[i], cutoff, now);
      }
      hide PassesOver, AfterOrphan, Due;
      assert forall i :: 1 <= i < |oids| ==> oids[i] == rest[i - 1] && turns[i] == restTurns[i - 1];
    }
  }

  lemma OrphanRows(s: World, oid: string, turn: Turn, cutoff: int, now: int)
    ensures var t := AfterOrphan(s, oid, turn, cutoff, now);
            if OrphanOutcome(s, oid, turn, cutoff, now) == Deleted
            then oid in s.lfs.rows && t.lfs.rows == s.lfs.rows - {oid} && oid !in t.lfs.stored
            else t.lfs.rows == s.lfs.rows
  {
  }

  lemma RemovedOne<K, V>(m: map<K, V>, k: K)
    requires k in m
    ensures |m| == |m - {k}| + 1
  {
    assert (m - {k}).Keys == m.Keys - {k};
    assert |m.Keys| == |m.Keys - {k}| + 1;
    assert |m| == |m.Keys| && |m - {k}| == |(m - {k}).Keys|;
  }

  /** The reported number is the number of rows that are gone, and every row that stays is unchanged, even when a
      protected
      row ended the pass. */
  lemma {:induction false} SweepCountsRows(s: World, oids: seq<string>, turns: seq<Turn>, cutoff: int, now: int)
    requires |turns| == |oids|
    ensures var sweep := Swept(s, oids, turns, cutoff, now);
            && |s.lfs.rows| == |sweep.world.lfs.rows| + sweep.deleted
            && forall oid :: oid in sweep.world.lfs.rows ==>
                 oid in s.lfs.rows && sweep.world.lfs.rows[oid] == s.lfs.rows[oid]
    decreases |oids|
  {
    hide AfterOrphan, OrphanOutcome;
    if oids != [] {
      var after := AfterOrphan(s, oids[0], turns[0], cutoff, now);
      OrphanRows(s, oids[0], turns[0], cutoff, now);
      if OrphanOutcome(s, oids[0], turns[0], cutoff, now) == Deleted {
        RemovedOne(s.lfs.rows, oids[0]);
      }
      SweepCountsRows(after, oids[1..], turns[1..], cutoff, now);
    }
  }

  /** A pass that gets through its candidates leaves no row of one that was due and whose bytes storage deleted. */
  lemma {:induction false} FinishedPassCollects(s: World, oids: seq<string>, turns: seq<Turn>, cutoff: int, now: int,
                                                i: nat)
    requires |turns| == |oids| && Distinct(oids) && i < |oids|
    requires Swept(s, oids, turns, cutoff, now).finished
    requires Due(s, oids[i], turns[i], cutoff, now) && turns[i].storage.Works?
    ensures oids[i] !in Swept(s, oids, turns, cutoff, now).world.lfs.rows
    decreases |oids|
  {
    hide Eligible, Protected, Collected;
    var after := AfterOrphan(s, oids[0], turns[0], cutoff, now);
    if i == 0 {
      OrphanRows(s, oids[0], turns[0], cutoff, now);
      SweepCountsRows(after, oids[1..], turns[1..], cutoff, now);
    } else {
      OrphanLeavesOthers(s, oids[0], turns[0], oids[i], cutoff, now);
      FinishedPassCollects(after, oids[1..], turns[1..], cutoff, now, i - 1);
    }
  }

  // ---- a whole pass ------------------------------------------------------------------------------

  /** What a pass works on: the drafts it finds expired, the contexts of its batch and which of their repositories it
      can
      read, the objects whose expired multipart session it aborts, and its candidates with their turns. */
  datatype Work = Work(drafts: set<nat>, contexts: seq<nat>, readable: set<nat>, sessions: set<string>, oids: seq<string>, turns: seq<Turn>)

  function WithoutDrafts(s: World, gone: set<nat>): World { s.(drafts := s.drafts - gone) }

  function WithoutSessions(s: World, gone: set<string>): World { s.(lfs := s.lfs.(uploading := s.lfs.uploading - gone)) }

  /** `cleanup_lfs_orphans`: expired drafts go, then missed hooks are replayed, then expired sessions are aborted, and
      only
      then are objects collected. */
  function PassResult(cfg: Config, s: World, work: Work): Sweep
    requires |work.turns| == |work.oids|
  {
    var reconciled := ReconciledAll(WithoutDrafts(s, work.drafts), work.contexts, work.readable).world;
    Swept(WithoutSessions(reconciled, work.sessions), work.oids, work.turns, s.clock - cfg.gracePeriod, s.clock)
  }
}
