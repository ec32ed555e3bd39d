/** An uninterrupted maintenance pass is a run of the step system, so what every run keeps, a pass keeps. */
module LfsPassRuns {
  import opened Text
  import opened Pointer
  import opened GitObjects
  import opened PushScan
  import opened LfsWorld
  import opened LfsInvariant
  import opened LfsPushSafety
  import opened LfsPassSafety
  import opened LfsCleanup

  /** Steps a pass takes after it has started; it passes over a context only if `skips`. */
  predicate Within(step: Step, skips: bool)
  {
    match step
    case Maintain(m) => !m.StartPass? && (m.SkipUnreadable? ==> skips)
    case Browse(b) => b.DropDraft?
    case Upload(u) => u.EndMultipart?
    case _ => false
  }

  ghost predicate Leads(cfg: Config, steps: seq<Step>, states: seq<World>, s: World, t: World, skips: bool)
  {
    && IsRun(cfg, steps, states) && states[0] == s && states[|steps|] == t
    && forall i :: 0 <= i < |steps| ==> Within(steps[i], skips)
  }

  lemma Stay(cfg: Config, s: World, skips: bool) returns (steps: seq<Step>, states: seq<World>)
    ensures Leads(cfg, steps, states, s, s, skips)
  {
    hide Enabled, Apply;
    steps, states := [], [s];
  }

  lemma Then(cfg: Config, a: seq<Step>, before: seq<World>, s: World, m: World, step: PassStep, skips: bool)
    returns (steps: seq<Step>, states: seq<World>)
    requires Leads(cfg, a, before, s, m, skips) && PassEnabled(cfg, m, step) && Within(Maintain(step), skips)
    ensures Leads(cfg, steps, states, s, ApplyPass(cfg, m, step), skips)
  {
    hide PassEnabled, ApplyPass, Leads;
    steps, states := ThenAny(cfg, a, before, s, m, Maintain(step), skips);
  }

  lemma ThenAny(cfg: Config, a: seq<Step>, before: seq<World>, s: World, m: World, step: Step, skips: bool)
    returns (steps: seq<Step>, states: seq<World>)
    requires Leads(cfg, a, before, s, m, skips) && Enabled(cfg, m, step) && Within(step, skips)
    ensures Leads(cfg, steps, states, s, Apply(cfg, m, step), skips)
  {
    hide Enabled, Apply, Within;
    steps, states := a + [step], before + [Apply(cfg, m, step)];
  }

  lemma Join(cfg: Config, a: seq<Step>, first: seq<World>, b: seq<Step>, second: seq<World>, s: World, m: World,
             t: World, skips: bool)
    returns (steps: seq<Step>, states: seq<World>)
    requires Leads(cfg, a, first, s, m, skips) && Leads(cfg, b, second, m, t, skips)
    ensures Leads(cfg, steps, states, s, t, skips)
  {
    hide Enabled, Apply, Within;
    steps, states := a + b, first + second[1..];
    forall i | 0 <= i < |steps|
      ensures Enabled(cfg, states[i], steps[i]) && states[i + 1] == Apply(cfg, states[i], steps[i])
      ensures Within(steps[i], skips)
    {
      if i < |a| {
        assert steps[i] == a[i] && states[i] == first[i] && states[i + 1] == first[i + 1];
      } else {
        assert steps[i] == b[i - |a|] && states[i] == second[i - |a|] && states[i + 1] == second[i - |a| + 1];
      }
    }
  }

  // ---- looking at the refs of one context ----------------------------------------------------------------

  /** The pass record after these proposals were compared with their refs. */
  function Looked(s: World, pass: Pass, keys: set<RefKey>): Pass
  {
    pass.(looked := pass.looked + keys, seen := pass.seen + set k | k in keys && StillHeld(s, k))
  }

  function OpenProposals(s: World, c: nat): set<RefKey>
  {
    set k | k in s.push.proposals && k.context == c && !s.push.proposals[k].accepted
  }

  lemma {:induction false} LookRun(cfg: Config, s: World, pass: nat, c: nat, keys: set<RefKey>, skips: bool)
    returns (steps: seq<Step>, states: seq<World>)
    requires pass in s.passes && c in s.passes[pass].todo
    requires forall k :: k in keys ==> k in s.push.proposals && k.context == c
    ensures Leads(cfg, steps, states, s, WithPass(s, pass, Looked(s, s.passes[pass], keys)), skips)
    decreases keys
  {
    hide StillHeld, Leads;
    if keys == {} {
      steps, states := Stay(cfg, s, skips);
      assert Looked(s, s.passes[pass], {}) == s.passes[pass] by {
        assert (set k | k in keys && StillHeld(s, k)) == {};
      }
      assert s.passes[pass := s.passes[pass]] == s.passes;
    } else {
      var k :| k in keys;
      var rest := keys - {k};
      steps, states := LookRun(cfg, s, pass, c, rest, skips);
      var m := WithPass(s, pass, Looked(s, s.passes[pass], rest));
      steps, states := Then(cfg, steps, states, s, m, Observe(pass, k), skips);
      LookOneMore(s, pass, rest, k);
      assert rest + {k} == keys;
    }
  }

  lemma LookOneMore(s: World, pass: nat, rest: set<RefKey>, k: RefKey)
    requires pass in s.passes && k !in rest
    ensures var m := WithPass(s, pass, Looked(s, s.passes[pass], rest));
            WithPass(m, pass, Observed(m, m.passes[pass], k)) == WithPass(s, pass, Looked(s, s.passes[pass], rest + {k}))
  {
    var m := WithPass(s, pass, Looked(s, s.passes[pass], rest));
    assert StillHeld(m, k) == StillHeld(s, k);
    hide StillHeld;
    assert Observed(m, m.passes[pass], k) == Looked(s, s.passes[pass], rest + {k});
  }

  // ---- reconciling ---------------------------------------------------------------------------------------

  /** The pass has nothing on record about this context yet. */
  predicate Untouched(pass: Pass, c: nat)
  {
    && (forall k :: k in pass.looked ==> k.context != c)
    && (forall k :: k in pass.seen ==> k.context != c)
  }

  /** The pass record after one context was reconciled. */
  function Closed(s: World, pass: Pass, c: nat): Pass
  {
    Looked(s, pass, OpenProposals(s, c)).(todo := pass.todo - {c}, accepted := pass.accepted + {c})
  }

  lemma OpenSeen(s: World, pass: Pass, c: nat)
    requires Untouched(pass, c)
    ensures SeenBy(Looked(s, pass, OpenProposals(s, c)), c) == SeenRefs(s, c)
    ensures LookedAll(s, Looked(s, pass, OpenProposals(s, c)), c)
  {
    hide StillHeld;
    var q := Looked(s, pass, OpenProposals(s, c));
    forall ref | ref in SeenRefs(s, c)
      ensures ref in SeenBy(q, c)
    {
      var k :| k in s.push.proposals && k.context == c && !s.push.proposals[k].accepted && StillHeld(s, k) && k.ref == ref;
      assert k in OpenProposals(s, c) && k in q.seen;
    }
  }

  /** Reconciling one context in one go is its looks, its accept transaction and its close, taken without
      interruption. */
  lemma ReconcileOneRun(cfg: Config, s: World, pass: nat, c: nat, skips: bool)
    returns (steps: seq<Step>, states: seq<World>)
    requires pass in s.passes && c in s.passes[pass].todo && c in s.push.contexts && Untouched(s.passes[pass], c)
    ensures Leads(cfg, steps, states, s, WithPass(Reconciled(s, c), pass, Closed(s, s.passes[pass], c)), skips)
  {
    hide Leads, Accept, SeenBy, SeenRefs, LookedAll, OpenProposals, StillHeld;
    var q := Looked(s, s.passes[pass], OpenProposals(s, c));
    var m := WithPass(s, pass, q);
    assert forall k :: k in OpenProposals(s, c) ==> k in s.push.proposals && k.context == c by {
      OpenIsOurs(s, c);
    }
    steps, states := LookRun(cfg, s, pass, c, OpenProposals(s, c), skips);
    OpenSeen(s, s.passes[pass], c);
    assert LookedAll(m, q, c) by {
      LookedAllHere(s, m, q, c);
    }
    steps, states := Then(cfg, steps, states, s, m, AcceptSeen(pass, c), skips);
    var t := WithPass(Accept(m, c, SeenBy(q, c)), pass, q.(accepted := q.accepted + {c}));
    AcceptKeepsContexts(m, c, SeenBy(q, c));
    steps, states := Then(cfg, steps, states, s, t, Close(pass, c), skips);
    AcceptWithPasses(s, m.passes, c, SeenRefs(s, c));
    var last := Closed(s, s.passes[pass], c);
    assert last == q.(accepted := q.accepted + {c}).(todo := q.todo - {c});
    AcceptKeepsContexts(s, c, SeenRefs(s, c));
    assert m.passes[pass := t.passes[pass]][pass := last] == s.passes[pass := last];
  }

  lemma OpenIsOurs(s: World, c: nat)
    ensures forall k :: k in OpenProposals(s, c) ==> k in s.push.proposals && k.context == c
  {
  }

  lemma LookedAllHere(s: World, m: World, pass: Pass, c: nat)
    requires s.push == m.push && LookedAll(s, pass, c)
    ensures LookedAll(m, pass, c)
  {
  }

  lemma AcceptKeepsContexts(s: World, c: nat, refs: set<string>)
    ensures Accept(s, c, refs).push.contexts == s.push.contexts && Accept(s, c, refs).passes == s.passes
  {
  }

  lemma AcceptWithPasses(s: World, passes: map<nat, Pass>, c: nat, refs: set<string>)
    ensures Accept(s.(passes := passes), c, refs) == Accept(s, c, refs).(passes := passes)
  {
  }

  lemma ReconciledWithPasses(s: World, passes: map<nat, Pass>, c: nat)
    requires c in s.push.contexts
    ensures Reconciled(s.(passes := passes), c) == Reconciled(s, c).(passes := passes)
    ensures SeenRefs(s.(passes := passes), c) == SeenRefs(s, c)
  {
    var t := s.(passes := passes);
    assert forall k :: StillHeld(t, k) == StillHeld(s, k);
    hide StillHeld, Accept;
    assert SeenRefs(t, c) == SeenRefs(s, c);
    AcceptWithPasses(s, passes, c, SeenRefs(s, c));
    AcceptKeepsContexts(s, c, SeenRefs(s, c));
    AcceptKeepsContexts(t, c, SeenRefs(s, c));
  }

  /** Where a pass stands after the first `n` contexts of its batch. */
  ghost predicate Reconciling(pass: Pass, now: int, ids: seq<nat>, n: nat)
  {
    && n <= |ids| && pass.now == now
    && pass.todo == SetOf(ids[n..])
    && (forall c :: c in ids[n..] ==> Untouched(pass, c))
  }

  lemma ReconciledAllKeeps(s: World, ids: seq<nat>, readable: set<nat>)
    ensures ReconciledAll(s, ids, readable).world.push.contexts.Keys == s.push.contexts.Keys
    ensures ReconciledAll(s, ids, readable).world.passes == s.passes
    decreases |ids|
  {
    hide Accept, SeenRefs;
    if ids != [] {
      var c := ids[|ids| - 1];
      ReconciledAllKeeps(s, ids[..|ids| - 1], readable);
      var before := ReconciledAll(s, ids[..|ids| - 1], readable).world;
      AcceptKeepsContexts(before, c, SeenRefs(before, c));
    }
  }

  lemma OthersLeft(ids: seq<nat>, n: nat, c: nat)
    requires n < |ids| && Distinct(ids)
    ensures c in ids[n + 1..] <==> c in ids[n..] && c != ids[n]
  {
    if c in ids[n..] && c != ids[n] {
      var i :| n <= i < |ids| && ids[i] == c;
      assert ids[n + 1..][i - n - 1] == c;
    }
    if c in ids[n + 1..] {
      var i :| n + 1 <= i < |ids| && ids[i] == c;
      assert ids[n..][i - n] == c;
    }
  }

  lemma ReconcilingNext(pass: Pass, next: Pass, now: int, ids: seq<nat>, n: nat, keys: set<RefKey>)
    requires n < |ids| && Distinct(ids) && Reconciling(pass, now, ids, n)
    requires next.now == pass.now && next.todo == pass.todo - {ids[n]}
    requires next.looked <= pass.looked + keys && next.seen <= pass.seen + keys && forall k :: k in keys ==>
               k.context == ids[n]
    ensures Reconciling(next, now, ids, n + 1)
  {
    forall c
      ensures c in SetOf(ids[n + 1..]) <==> c in next.todo
    {
      OthersLeft(ids, n, c);
    }
    forall c | c in ids[n + 1..]
      ensures Untouched(next, c)
    {
      OthersLeft(ids, n, c);
      assert Untouched(pass, c);
    }
  }

  /** The next context of the batch is reconciled, or passed over if its repository cannot be read. */
  function NextReconciled(s: World, c: nat, readable: set<nat>): World
    requires c in s.push.contexts
  {
    if c in readable then Reconciled(s, c) else s
  }

  lemma ReconcileNextRun(cfg: Config, w: World, pass: nat, before: Pass, ids: seq<nat>, n: nat, readable: set<nat>,
                         skips: bool)
    returns (steps: seq<Step>, states: seq<World>, q: Pass)
    requires n < |ids| && Distinct(ids) && Reconciling(before, w.clock, ids, n)
    requires ids[n] in w.push.contexts && (ids[n] in readable || skips)
    ensures Reconciling(q, w.clock, ids, n + 1)
    ensures Leads(cfg, steps, states, WithPass(w, pass, before), WithPass(NextReconciled(w, ids[n], readable), pass, q), skips)
  {
    hide Leads, Reconciled, Untouched, OpenProposals, Looked, Distinct;
    var c := ids[n];
    var m := WithPass(w, pass, before);
    assert c in ids[n..] by {
      assert ids[n..][0] == c;
    }
    if c in readable {
      q := Closed(m, before, c);
      steps, states := ReconcileOneRun(cfg, m, pass, c, skips);
      ReconciledWithPasses(w, m.passes, c);
      ReconciledKeepsPasses(w, c);
      assert w.passes[pass := before][pass := q] == w.passes[pass := q];
      ClosedAdds(m, before, c);
      ReconcilingNext(before, q, w.clock, ids, n, OpenProposals(m, c));
    } else {
      q := before.(todo := before.todo - {c});
      var none, at := Stay(cfg, m, skips);
      steps, states := Then(cfg, none, at, m, m, SkipUnreadable(pass, c), skips);
      assert w.passes[pass := before][pass := q] == w.passes[pass := q];
      ReconcilingNext(before, q, w.clock, ids, n, {});
    }
  }

  lemma ClosedAdds(s: World, pass: Pass, c: nat)
    ensures var q := Closed(s, pass, c);
            && q.now == pass.now && q.todo == pass.todo - {c}
            && q.looked <= pass.looked + OpenProposals(s, c) && q.seen <= pass.seen + OpenProposals(s, c)
            && forall k :: k in OpenProposals(s, c) ==> k.context == c
  {
  }

  lemma ReconciledClock(s: World, ids: seq<nat>, readable: set<nat>)
    ensures ReconciledAll(s, ids, readable).world.clock == s.clock
    ensures ReconciledAll(s, ids, readable).world.lfs.uploading == s.lfs.uploading
    decreases |ids|
  {
    hide SeenRefs;
  }

  lemma {:induction false} ReconcileRun(cfg: Config, s: World, pass: nat, start: Pass, ids: seq<nat>, n: nat,
                                        readable: set<nat>)
    returns (steps: seq<Step>, states: seq<World>, q: Pass)
    requires Reconciling(start, s.clock, ids, 0) && Distinct(ids) && n <= |ids|
    requires forall c :: c in ids ==> c in s.push.contexts
    ensures Reconciling(q, s.clock, ids, n)
    ensures Leads(cfg, steps, states, WithPass(s, pass, start), WithPass(ReconciledAll(s, ids[..n], readable).world, pass, q),
                  !(SetOf(ids) <= readable))
    decreases n
  {
    hide Leads, Reconciled, Reconciling, WithPass, Distinct;
    var skips := !(SetOf(ids) <= readable);
    if n == 0 {
      steps, states := Stay(cfg, WithPass(s, pass, start), skips);
      q := start;
      assert ids[..0] == [];
    } else {
      var before;
      steps, states, before := ReconcileRun(cfg, s, pass, start, ids, n - 1, readable);
      var c, w := ids[n - 1], ReconciledAll(s, ids[..n - 1], readable).world;
      ReconciledAllKeeps(s, ids[..n - 1], readable);
      ReconciledClock(s, ids[..n - 1], readable);
      assert c in ids;
      assert c in SetOf(ids);
      var more, later, next := ReconcileNextRun(cfg, w, pass, before, ids, n - 1, readable, skips);
      q := next;
      assert ids[..n][..n - 1] == ids[..n - 1] && ids[..n][n - 1] == c;
      assert NextReconciled(w, c, readable) == ReconciledAll(s, ids[..n], readable).world;
      steps, states := Join(cfg, steps, states, more, later, WithPass(s, pass, start), WithPass(w, pass, before),
                            WithPass(NextReconciled(w, c, readable), pass, q), skips);
    }
  }

  lemma ReconciledKeepsPasses(s: World, c: nat)
    requires c in s.push.contexts
    ensures Reconciled(s, c).passes == s.passes
  {
  }

  // ---- dropping drafts and sessions -----------------------------------------------------------------------

  lemma {:induction false} DropRun(cfg: Config, s: World, gone: set<nat>, skips: bool)
    returns (steps: seq<Step>, states: seq<World>)
    requires forall d :: d in gone ==> d in s.drafts && s.drafts[d].open
    ensures Leads(cfg, steps, states, s, WithoutDrafts(s, gone), skips)
    decreases gone
  {
    hide Leads;
    if gone == {} {
      steps, states := Stay(cfg, s, skips);
      assert s.drafts - {} == s.drafts;
    } else {
      var d :| d in gone;
      steps, states := DropRun(cfg, s, gone - {d}, skips);
      var m := WithoutDrafts(s, gone - {d});
      steps, states := ThenAny(cfg, steps, states, s, m, Browse(DropDraft(d)), skips);
      assert s.drafts - (gone - {d}) - {d} == s.drafts - gone;
    }
  }

  lemma {:induction false} EndRun(cfg: Config, s: World, gone: set<string>, skips: bool)
    returns (steps: seq<Step>, states: seq<World>)
    requires gone <= s.lfs.uploading
    ensures Leads(cfg, steps, states, s, WithoutSessions(s, gone), skips)
    decreases gone
  {
    hide Leads;
    if gone == {} {
      steps, states := Stay(cfg, s, skips);
      assert s.lfs.uploading - {} == s.lfs.uploading;
    } else {
      var oid :| oid in gone;
      steps, states := EndRun(cfg, s, gone - {oid}, skips);
      var m := WithoutSessions(s, gone - {oid});
      steps, states := ThenAny(cfg, steps, states, s, m, Upload(EndMultipart(oid)), skips);
      assert s.lfs.uploading - (gone - {oid}) - {oid} == s.lfs.uploading - gone;
    }
  }

  // ---- collecting ------------------------------------------------------------------------------------------

  lemma DueIsDeletable(cfg: Config, s: World, pass: nat, oid: string, turn: Turn)
    requires PassReady(s, pass)
    requires Due(s, oid, turn, s.passes[pass].now - cfg.gracePeriod, s.passes[pass].now)
    ensures Deletable(cfg, s, pass, oid)
  {
  }

  lemma AfterOrphanKeeps(s: World, oid: string, turn: Turn, cutoff: int, now: int)
    ensures AfterOrphan(s, oid, turn, cutoff, now).passes == s.passes
  {
  }

  lemma OrphanRun(cfg: Config, s: World, pass: nat, oid: string, turn: Turn, skips: bool)
    returns (steps: seq<Step>, states: seq<World>)
    requires pass in s.passes && PassReady(s, pass)
    ensures Leads(cfg, steps, states, s, AfterOrphan(s, oid, turn, s.passes[pass].now - cfg.gracePeriod, s.passes[pass].now), skips)
  {
    hide Leads, Due, Protected, Deletable, PassReady;
    var now := s.passes[pass].now;
    steps, states := Stay(cfg, s, skips);
    if Due(s, oid, turn, now - cfg.gracePeriod, now) {
      DueIsDeletable(cfg, s, pass, oid, turn);
      match turn.storage
      case Works => steps, states := Then(cfg, steps, states, s, s, DeleteOrphan(pass, oid), skips);
      case Fails(performed) =>
        if performed {
          steps, states := Then(cfg, steps, states, s, s, CutOrphan(pass, oid), skips);
        }
    }
  }

  lemma {:induction false} SweepRun(cfg: Config, s: World, pass: nat, oids: seq<string>, turns: seq<Turn>, skips: bool)
    returns (steps: seq<Step>, states: seq<World>)
    requires PassReady(s, pass) && |turns| == |oids|
    ensures Leads(cfg, steps, states, s, Swept(s, oids, turns, s.passes[pass].now - cfg.gracePeriod, s.passes[pass].now).world, skips)
    decreases |oids|
  {
    hide Leads, AfterOrphan, OrphanOutcome;
    if oids == [] {
      steps, states := Stay(cfg, s, skips);
    } else {
      var now := s.passes[pass].now;
      var after := AfterOrphan(s, oids[0], turns[0], now - cfg.gracePeriod, now);
      steps, states := OrphanRun(cfg, s, pass, oids[0], turns[0], skips);
      if OrphanOutcome(s, oids[0], turns[0], now - cfg.gracePeriod, now) != RowProtected {
        AfterOrphanKeeps(s, oids[0], turns[0], now - cfg.gracePeriod, now);
        var rest := Swept(after, oids[1..], turns[1..], now - cfg.gracePeriod, now).world;
        var more, later := SweepRun(cfg, after, pass, oids[1..], turns[1..], skips);
        steps, states := Join(cfg, steps, states, more, later, s, after, rest, skips);
      }
    }
  }

  lemma {:induction false} SweptWithPasses(s: World, passes: map<nat, Pass>, oids: seq<string>, turns: seq<Turn>,
                                           cutoff: int, now: int)
    requires |turns| == |oids|
    ensures Swept(s.(passes := passes), oids, turns, cutoff, now)
         == (var sweep := Swept(s, oids, turns, cutoff, now); sweep.(world := sweep.world.(passes := passes)))
    decreases |oids|
  {
    hide AfterOrphan, OrphanOutcome;
    if oids != [] {
      OrphanWithPasses(s, passes, oids[0], turns[0], cutoff, now);
      var after := AfterOrphan(s, oids[0], turns[0], cutoff, now);
      SweptWithPasses(after, passes, oids[1..], turns[1..], cutoff, now);
    }
  }

  lemma OrphanWithPasses(s: World, passes: map<nat, Pass>, oid: string, turn: Turn, cutoff: int, now: int)
    ensures var t := s.(passes := passes);
            && AfterOrphan(t, oid, turn, cutoff, now) == AfterOrphan(s, oid, turn, cutoff, now).(passes := passes)
            && OrphanOutcome(t, oid, turn, cutoff, now) == OrphanOutcome(s, oid, turn, cutoff, now)
  {
    var t := s.(passes := passes);
    assert LeaseAlive(t, oid, now) == LeaseAlive(s, oid, now);
    assert Protected(t, oid) == Protected(s, oid);
  }

  // ---- a whole pass --------------------------------------------------------------------------------------------

  ghost predicate ValidWork(s: World, work: Work)
  {
    && |work.turns| == |work.oids| && Distinct(work.contexts) && work.sessions <= s.lfs.uploading
    && (forall d :: d in work.drafts ==> d in s.drafts && s.drafts[d].open && s.drafts[d].expiresAt <= s.clock)
    && (forall c :: c in work.contexts ==> Expired(s, c))
  }

  lemma LeadsFrom(cfg: Config, steps: seq<Step>, states: seq<World>, s: World, start: PassStep, t: World, skips: bool)
    requires start.StartPass? && PassEnabled(cfg, s, start)
    requires Leads(cfg, steps, states, ApplyPass(cfg, s, start), t, skips)
    ensures var more, later := [Maintain(start)] + steps, [s] + states;
            && IsRun(cfg, more, later) && later[0] == s && later[|more|] == t
            && forall i :: 0 < i < |more| ==> Within(more[i], skips)
  {
    hide PassEnabled, ApplyPass;
    assert Enabled(cfg, s, Maintain(start)) && Apply(cfg, s, Maintain(start)) == ApplyPass(cfg, s, start);
    hide Enabled, Apply, Within;
  }

  lemma WorkRun(cfg: Config, s: World, pass: nat, work: Work)
    returns (steps: seq<Step>, states: seq<World>, q: Pass)
    requires ValidWork(s, work)
    ensures Leads(cfg, steps, states, WithPass(s, pass, Pass(s.clock, SetOf(work.contexts), {}, {}, {})),
                  WithPass(PassResult(cfg, s, work).world, pass, q), !(SetOf(work.contexts) <= work.readable))
  {
    hide Leads, ReconciledAll, Distinct;
    var ids, skips, start :=
      work.contexts, !(SetOf(work.contexts) <= work.readable), Pass(s.clock, SetOf(work.contexts), {}, {}, {});
    var from, dropped := WithPass(s, pass, start), WithoutDrafts(s, work.drafts);
    assert ids[0..] == ids && ids[..|ids|] == ids && ids[|ids|..] == [];
    var a, before := DropRun(cfg, from, work.drafts, skips);
    var b, between, p := ReconcileRun(cfg, dropped, pass, start, ids, |ids|, work.readable);
    q := p;
    var done := ReconciledAll(dropped, ids, work.readable).world;
    ReconciledClock(dropped, ids, work.readable);
    steps, states := Join(cfg, a, before, b, between, from, WithPass(dropped, pass, start), WithPass(done, pass, q), skips);
    var c, later := EndRun(cfg, WithPass(done, pass, q), work.sessions, skips);
    var ended := WithoutSessions(done, work.sessions);
    var m := WithPass(ended, pass, q);
    steps, states := Join(cfg, steps, states, c, later, from, WithPass(done, pass, q), m, skips);
    assert PassReady(m, pass) && m.passes[pass].now == s.clock;
    hide WithPass, PassReady;
    var e, after := SweepRun(cfg, m, pass, work.oids, work.turns, skips);
    var end := Swept(m, work.oids, work.turns, s.clock - cfg.gracePeriod, s.clock).world;
    steps, states := Join(cfg, steps, states, e, after, from, m, end, skips);
    SweptAtPass(ended, pass, q, work.oids, work.turns, s.clock - cfg.gracePeriod, s.clock);
  }

  lemma SweptAtPass(s: World, pass: nat, q: Pass, oids: seq<string>, turns: seq<Turn>, cutoff: int, now: int)
    requires |turns| == |oids|
    ensures Swept(WithPass(s, pass, q), oids, turns, cutoff, now).world
         == WithPass(Swept(s, oids, turns, cutoff, now).world, pass, q)
  {
    SweptWithPasses(s, s.passes[pass := q], oids, turns, cutoff, now);
    SweptKeepsPasses(s, oids, turns, cutoff, now);
  }

  lemma {:induction false} SweptKeepsPasses(s: World, oids: seq<string>, turns: seq<Turn>, cutoff: int, now: int)
    requires |turns| == |oids|
    ensures Swept(s, oids, turns, cutoff, now).world.passes == s.passes
    decreases |oids|
  {
    hide AfterOrphan, OrphanOutcome;
    if oids != [] {
      AfterOrphanKeeps(s, oids[0], turns[0], cutoff, now);
      SweptKeepsPasses(AfterOrphan(s, oids[0], turns[0], cutoff, now), oids[1..], turns[1..], cutoff, now);
    }
  }

  /** A pass that nobody interrupts is a run: it starts, drops the expired drafts, compares the pending proposals of
      each
      context with their refs, accepts and closes it, aborts the expired sessions and takes its candidates one by one. */
  lemma PassIsRun(cfg: Config, s: World, pass: nat, work: Work)
    returns (steps: seq<Step>, states: seq<World>, q: Pass)
    requires pass !in s.passes && ValidWork(s, work)
    ensures IsRun(cfg, steps, states) && states[0] == s && |steps| > 0
    ensures states[|steps|] == WithPass(PassResult(cfg, s, work).world, pass, q)
    ensures steps[0] == Maintain(StartPass(pass, SetOf(work.contexts)))
    ensures forall i :: 0 < i < |steps| ==> Within(steps[i], !(SetOf(work.contexts) <= work.readable))
  {
    hide Leads, WithPass, PassResult, IsRun;
    assert SetOf(work.contexts) <= ExpiredContexts(s);
    steps, states, q := WorkRun(cfg, s, pass, work);
    LeadsFrom(cfg, steps, states, s, StartPass(pass, SetOf(work.contexts)), WithPass(PassResult(cfg, s, work).world, pass, q),
              !(SetOf(work.contexts) <= work.readable));
    steps, states := [Maintain(StartPass(pass, SetOf(work.contexts)))] + steps, [s] + states;
  }

  // ---- what a whole pass keeps ----------------------------------------------------------------------------------

  /** No step of a pass touches a ref, or the bytes of an object a ref reaches. */
  lemma PassStepKeepsContent(cfg: Config, s: World, step: PassStep, p: Pointer)
    requires Safe(cfg, s) && PassEnabled(cfg, s, step) && Reachable(s.git.refs, p)
    ensures ApplyPass(cfg, s, step).git.refs == s.git.refs
    ensures p.oid in s.lfs.stored ==> p.oid in ApplyPass(cfg, s, step).lfs.stored
  {
    hide TablesOk, HooksCovered, Holds, Covered, Deletable, Protected, SeenBy, LookedAll, StillHeld, LeasedFor;
    if step.DeleteOrphan? || step.CutOrphan? {
      DeletableIsNotCovered(cfg, s, step.pass, step.oid, p);
    }
  }

  lemma WithinKeepsContent(cfg: Config, s: World, step: Step, p: Pointer)
    requires Safe(cfg, s) && Enabled(cfg, s, step) && (step.Maintain? || Within(step, false))
    requires Reachable(s.git.refs, p)
    ensures Apply(cfg, s, step).git.refs == s.git.refs
    ensures p.oid in s.lfs.stored ==> p.oid in Apply(cfg, s, step).lfs.stored
  {
    hide Safe, PassEnabled, ApplyPass, Reachable;
    if step.Maintain? {
      PassStepKeepsContent(cfg, s, step.maintain, p);
    }
  }

  lemma {:induction false} RunKeepsContent(cfg: Config, steps: seq<Step>, states: seq<World>, i: nat, p: Pointer)
    requires IsRun(cfg, steps, states) && i < |states|
    requires forall j :: 0 <= j < |states| ==> Safe(cfg, states[j])
    requires forall j :: 0 <= j < |steps| ==> steps[j].Maintain? || Within(steps[j], false)
    requires Reachable(states[0].git.refs, p)
    ensures states[i].git.refs == states[0].git.refs
    ensures p.oid in states[0].lfs.stored ==> p.oid in states[i].lfs.stored
  {
    hide Safe, Enabled, Apply, Reachable, Within;
    if i > 0 {
      RunKeepsContent(cfg, steps, states, i - 1, p);
      WithinKeepsContent(cfg, states[i - 1], steps[i - 1], p);
    }
  }

  lemma {:induction false} FreshPass(used: set<nat>) returns (pass: nat)
    ensures forall n :: n in used ==> n < pass
  {
    pass := 0;
    if used != {} {
      var n :| n in used;
      pass := FreshPass(used - {n});
      pass := pass + n + 1;
      assert used == (used - {n}) + {n};
    }
  }

  /** The batch takes every expired context and all their repositories can be read. */
  ghost predicate WholeWork(s: World, work: Work)
  {
    ValidWork(s, work) && SetOf(work.contexts) == ExpiredContexts(s) && SetOf(work.contexts) <= work.readable
  }

  lemma WithinIsAssumed(s: World, step: Step)
    requires Within(step, false)
    ensures Assumed(s, step)
  {
  }

  /** A pass over the whole backlog keeps the invariant. */
  lemma PassSafe(cfg: Config, s: World, pass: nat, work: Work)
    returns (steps: seq<Step>, states: seq<World>, q: Pass)
    requires ValidConfig(cfg) && Safe(cfg, s) && pass !in s.passes && WholeWork(s, work)
    ensures IsRun(cfg, steps, states) && states[0] == s
    ensures states[|steps|] == WithPass(PassResult(cfg, s, work).world, pass, q)
    ensures forall i :: 0 <= i < |steps| ==> steps[i].Maintain? || Within(steps[i], false)
    ensures forall i :: 0 <= i < |states| ==> Safe(cfg, states[i])
  {
    hide Safe, IsRun, PassResult, WithPass, Assumed, ExpiredContexts;
    steps, states, q := PassIsRun(cfg, s, pass, work);
    RunIsRun(cfg, steps, states);
    assert Assumed(states[0], steps[0]) by {
      FirstIsAssumed(s, pass);
    }
    forall i | 0 < i < |steps|
      ensures Assumed(states[i], steps[i]) && Within(steps[i], false)
    {
      assert Within(steps[i], false);
      WithinIsAssumed(states[i], steps[i]);
    }
    forall i | 0 <= i < |states|
      ensures Safe(cfg, states[i])
    {
      RunSafe(cfg, steps, states, i);
    }
  }

  lemma FirstIsAssumed(s: World, pass: nat)
    ensures Assumed(s, Maintain(StartPass(pass, ExpiredContexts(s))))
  {
    hide ExpiredContexts;
  }

  /** A whole pass over the backlog, whatever its candidates, its storage errors and the rows others hold locked, leaves
      every pointer that a ref reaches with its row and, if it had them, with its bytes. */
  lemma PassKeepsReachable(cfg: Config, s: World, work: Work, p: Pointer)
    requires ValidConfig(cfg) && Safe(cfg, s) && WholeWork(s, work) && Reachable(s.git.refs, p)
    ensures var t := PassResult(cfg, s, work).world;
            && t.git.refs == s.git.refs && Covered(t, p)
            && (p.oid in s.lfs.stored ==> p.oid in t.lfs.stored)
  {
    assert |work.turns| == |work.oids|;
    hide Safe, IsRun, PassResult, Reachable, WholeWork, Covered;
    var pass := FreshPass(s.passes.Keys);
    var steps, states, q := PassSafe(cfg, s, pass, work);
    RunIsRun(cfg, steps, states);
    RunKeepsContent(cfg, steps, states, |steps|, p);
    var t := PassResult(cfg, s, work).world;
    ReachableIsCovered(cfg, states[|steps|], p);
    CoveredWithoutPasses(t, pass, q, p);
  }

  lemma ReachableIsCovered(cfg: Config, s: World, p: Pointer)
    requires Safe(cfg, s) && Reachable(s.git.refs, p)
    ensures Covered(s, p)
  {
    hide TablesOk, HooksCovered, Covered, Holds;
  }

  lemma CoveredWithoutPasses(s: World, pass: nat, q: Pass, p: Pointer)
    requires Covered(WithPass(s, pass, q), p)
    ensures Covered(s, p)
  {
    assert forall k :: Witness(WithPass(s, pass, q), k) ==> Witness(s, k);
  }

  /** The same from any state that a run under the side conditions reaches. */
  lemma EveryPassKeepsReachable(cfg: Config, clock: int, steps: seq<Step>, states: seq<World>, i: nat, work: Work,
                                p: Pointer)
    requires ValidConfig(cfg) && IsRun(cfg, steps, states) && AssumedRun(steps, states)
    requires states[0] == Initial(clock) && i < |states| && WholeWork(states[i], work)
    requires Reachable(states[i].git.refs, p)
    ensures var t := PassResult(cfg, states[i], work).world;
            && t.git.refs == states[i].git.refs && Covered(t, p)
            && (p.oid in states[i].lfs.stored ==> p.oid in t.lfs.stored)
  {
    hide IsRun, AssumedRun, Safe, PassResult, Reachable, WholeWork, Covered;
    InitialSafe(cfg, clock);
    RunIsRun(cfg, steps, states);
    RunSafe(cfg, steps, states, i);
    PassKeepsReachable(cfg, states[i], work, p);
  }
}
