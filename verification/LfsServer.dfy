/** The server's transactions as code over mutable tables, each proved to have the effect of its step. */
module LfsServer {
  import opened Text
  import opened Pointer
  import opened GitObjects
  import opened PushScan
  import opened LfsWorld
  import opened LfsInvariant
  import opened PushReplay
  import opened LfsCleanup
  import opened LfsPassRuns

  // ---- the pre-receive hook ------------------------------------------------------------------------

  /** `_parse_updates` refuses a ref that is proposed twice. */
  predicate DistinctRefs(updates: seq<Update>) { forall i, j :: 0 <= i < j < |updates| ==>
    updates[i].ref != updates[j].ref }

  function TableOf(updates: seq<Update>): (table: map<string, Update>)
    requires DistinctRefs(updates)
    ensures ByRef(updates, table)
  {
    if updates == [] then map[]
    else
      var last := updates[|updates| - 1];
      assert updates == updates[..|updates| - 1] + [last];
      TableOf(updates[..|updates| - 1])[last.ref := last]
  }

  /** The context consumed and the scan of its push in the hook's hands. */
  function Scanned(s: World, c: nat, hook: Hook): World
    requires c in s.push.contexts
  {
    s.(push := s.push.(contexts := s.push.contexts[c := s.push.contexts[c].(consumed := true)], hooks := s.push.hooks[c := hook]))
  }

  predicate DeletesTag(updates: map<string, Update>)
  {
    exists ref :: ref in updates && IsTag(ref) && updates[ref].next.None?
  }

  /** A refused proposal of a branch or tag by this push. */
  predicate Refused(c: nat, updates: seq<Update>, k: RefKey)
  {
    k.context == c && (IsBranch(k.ref) || IsTag(k.ref)) && exists i :: 0 <= i < |updates| && updates[i].ref == k.ref
  }

  /** Each refused proposal has one event more than before unless it had one already. */
  ghost predicate RefusalsRecorded(before: multiset<RefKey>, after: multiset<RefKey>, c: nat, updates: seq<Update>)
  {
    forall k :: after[k] == if k !in before && Refused(c, updates, k) then 1 else before[k]
  }

  datatype Verdict = Passed | Denied | Unavailable

  lemma ValidatedKeepsHooks(cfg: Config, s: World, c: nat)
    requires c in s.push.contexts && c in s.push.hooks
    ensures Validated(cfg, s, c).push.hooks == s.push.hooks
  {
  }

  lemma ContentUnchanged(s: World, t: World)
    requires s.lfs == t.lfs
    ensures forall p :: HasContent(s, p) == HasContent(t, p)
  {
  }

  /** The scanned pointers have content exactly when every listed pair's does. */
  lemma ListedContent(s: World, updates: seq<Update>, listings: seq<Listing>, pointers: Pointers)
    requires |listings| == |updates| && WellFormed(pointers)
    requires forall p, ref :: Leases(pointers, p, ref) <==> Lists(updates, listings, ref, p)
    ensures (forall p :: p in pointers ==> HasContent(s, p)) <==>
              forall ref, p :: Lists(updates, listings, ref, p) ==> HasContent(s, p)
  {
    hide HasContent, Lists;
    forall p | p in pointers
      ensures exists ref :: Leases(pointers, p, ref)
    {
      var ref :| ref in pointers[p];
      assert Leases(pointers, p, ref);
    }
  }

  function RefsTo(updates: seq<Update>, n: nat): set<string>
    requires n <= |updates|
  {
    set i | 0 <= i < n :: updates[i].ref
  }

  /** What the hook holds after scanning the first `n` updates. */
  function HookAt(updates: seq<Update>, listings: seq<Listing>, table: map<string, Update>, n: nat): Hook
    requires |listings| == |updates| && n <= |updates|
  {
    Hook(table, ScannedTo(updates, listings, n), RefsTo(updates, n))
  }

  lemma OneMoreRef(updates: seq<Update>, n: nat)
    requires DistinctRefs(updates) && n < |updates|
    ensures updates[n].ref !in RefsTo(updates, n) && RefsTo(updates, n + 1) == RefsTo(updates, n) + {updates[n].ref}
  {
  }

  /** Each listing of the hook's scan, made at any moment against the refs of that moment, is a scan step of the world
      and
      brings the hook one update further, whatever else happens in between. */
  lemma EachListingIsAStep(s: World, c: nat, updates: seq<Update>, listings: seq<Listing>, table: map<string, Update>,
                           pointers: Pointers, n: nat)
    requires |listings| == |updates| && n < |updates| && DistinctRefs(updates) && ByRef(updates, table)
    requires WellFormed(pointers) && forall p, ref :: Leases(pointers, p, ref) <==> Lists(updates, listings, ref, p)
    requires c in s.push.contexts && s.push.contexts[c].validatedAt.None? && c in s.push.hooks
    requires s.push.hooks[c] == HookAt(updates, listings, table, n)
    requires updates[n].next.Some? ==> IsNewObjects(s.git.refs, updates[n].next.value, listings[n])
    ensures ScanEnabled(s, c, updates[n].ref, FoundFor(updates[n], listings[n]))
    ensures ScannedHook(s.push.hooks[c], updates[n].ref, FoundFor(updates[n], listings[n]))
         == HookAt(updates, listings, table, n + 1)
  {
    hide FoundFor, ListsNew, IsNewObjects, WellFormed, Lists, Leases, DistinctRefs, Merged;
    ListingListsNew(s.git.refs, updates[n], listings[n]);
    ScanIsStepwise(updates, listings, pointers, n + 1);
    OneMoreRef(updates, n);
    assert table[updates[n].ref] == updates[n];
  }

  /** The hook's scan begins with nothing, ends with what the memoised walk returns and has then seen every proposed
      ref;
      and what it proposes has passed the policy. */
  lemma ScanEndsWithTheWalk(updates: seq<Update>, listings: seq<Listing>, table: map<string, Update>, pointers: Pointers,
                            role: nat, rules: seq<Rule>, validName: string -> bool)
    requires |listings| == |updates| && ByRef(updates, table) && AllAllowed(updates, role, rules, validName)
    requires WellFormed(pointers) && forall p, ref :: Leases(pointers, p, ref) <==> Lists(updates, listings, ref, p)
    ensures HookAt(updates, listings, table, 0) == Hook(table, map[], {})
    ensures HookAt(updates, listings, table, |updates|) == Hook(table, pointers, table.Keys)
    ensures forall ref :: ref in table ==> table[ref].ref == ref && Baseline(table[ref])
  {
    hide Baseline, Lists, Leases, WellFormed;
    ScanIsStepwise(updates, listings, pointers, |updates|);
    assert RefsTo(updates, |updates|) == table.Keys;
    forall ref | ref in table
      ensures table[ref].ref == ref && Baseline(table[ref])
    {
      var i :| 0 <= i < |updates| && updates[i].ref == ref;
      assert Allowed(updates[i], role, rules, validName);
    }
  }

  // ---- accepting -----------------------------------------------------------------------------------

  /** A report names a proposal by ref, old value and new value. */
  predicate Identified(proposals: map<RefKey, Proposal>, c: nat, u: Update)
  {
    RefKey(c, u.ref) in proposals && proposals[RefKey(c, u.ref)].prior == u.prior
    && proposals[RefKey(c, u.ref)].next == u.next
  }

  function RefsOf(reported: set<Update>): set<string> { set u | u in reported :: u.ref }

  function HeldIn(s: World, keys: set<RefKey>): set<string> { set k | k in keys && StillHeld(s, k) :: k.ref }

  lemma HeldInMore(s: World, keys: set<RefKey>, k: RefKey)
    ensures HeldIn(s, keys + {k}) == HeldIn(s, keys) + (if StillHeld(s, k) then {k.ref} else {})
    ensures HeldIn(s, {}) == {}
  {
    hide StillHeld;
  }

  lemma OpenHeld(s: World, c: nat)
    ensures HeldIn(s, OpenProposals(s, c)) == SeenRefs(s, c) && HeldIn(s, {}) == {} && RefsOf({}) == {}
    ensures OpenProposals(s, c) - OpenProposals(s, c) == {}
    ensures forall k :: k in OpenProposals(s, c) ==> k in s.push.proposals && k.context == c
  {
    hide StillHeld;
    assert HeldIn(s, OpenProposals(s, c)) <= SeenRefs(s, c);
    forall ref | ref in SeenRefs(s, c)
      ensures ref in HeldIn(s, OpenProposals(s, c))
    {
      var k :| k in s.push.proposals && k.context == c && !s.push.proposals[k].accepted && StillHeld(s, k) && k.ref == ref;
      assert k in OpenProposals(s, c);
    }
  }

  lemma OneMoreHeld(held: set<Update>, u: Update)
    requires |held| == |RefsOf(held)| && forall v :: v in held ==> v.ref != u.ref
    ensures RefsOf(held + {u}) == RefsOf(held) + {u.ref} && |held + {u}| == |RefsOf(held + {u})|
  {
    assert u !in held && u.ref !in RefsOf(held);
    assert RefsOf(held + {u}) == RefsOf(held) + {u.ref};
  }

  lemma IdentifiedIs(proposals: map<RefKey, Proposal>, c: nat, u: Update)
    requires RefKey(c, u.ref) in proposals && proposals[RefKey(c, u.ref)].prior == u.prior
    requires proposals[RefKey(c, u.ref)].next == u.next
    ensures Identified(proposals, c, u)
  {
  }

  function Reported(updates: seq<Update>): set<Update> { set u | u in updates }

  function StampedWorld(s: World, c: nat, refs: set<string>, complete: bool): World
    requires c in s.push.contexts
  {
    if complete then Completed(Accept(s, c, refs), c) else Accept(s, c, refs)
  }

  lemma StampedNothing(push: Pushes, c: nat)
    ensures AcceptedProposals(push, c, {}) == push.proposals && NewlyAccepted(push, c, {}) == {}
  {
  }

  lemma PromotedAfterStamping(s: World, stamped: Pushes, c: nat, refs: set<string>, rows: map<string, Row>)
    requires stamped.leases == s.push.leases
    requires rows == map oid | oid in s.lfs.rows :: PromotedRow(s.lfs.rows[oid], LeasedFor(stamped, c, refs, oid))
    ensures rows == Accept(s, c, refs).lfs.rows
  {
    forall oid
      ensures LeasedFor(stamped, c, refs, oid) == LeasedFor(s.push, c, refs, oid)
    {
      LeasesUntouched(stamped, s.push, c, refs, oid);
    }
    hide LeasedFor, PromotedRow;
  }

  lemma AcceptMore(push: Pushes, c: nat, done: set<string>, ref: string)
    requires RefKey(c, ref) in push.proposals && ref !in done
    ensures var k := RefKey(c, ref);
            var before := AcceptedProposals(push, c, done);
            && AcceptedProposals(push, c, done + {ref}) == before[k := before[k].(accepted := true)]
            && multiset(NewlyAccepted(push, c, done + {ref}))
               == multiset(NewlyAccepted(push, c, done)) + (if before[k].accepted then multiset{} else multiset{k})
  {
    var k := RefKey(c, ref);
    assert forall j :: j in push.proposals && j.context == c && j.ref == ref ==> j == k;
    var before := AcceptedProposals(push, c, done);
    var added: set<RefKey> := if before[k].accepted then {} else {k};
    assert NewlyAccepted(push, c, done + {ref}) == NewlyAccepted(push, c, done) + added;
    EventsAddUp(NewlyAccepted(push, c, done), added);
  }

  // ---- uploads and publication ----------------------------------------------------------------------

  /** What the storage request of a finalization found. */
  datatype Finding =
    | Verified(bySha256: bool)
    | AlreadyStored
    | DatasetGone
    | StorageError
    | Missing
    | WrongSize
    | WrongDigest
    | NoDigest

  predicate IsAvailable(rows: map<string, Row>, oid: string) { oid in rows && IsStored(rows[oid].state) }

  predicate StagedAvailable(s: World, d: nat)
    requires d in s.drafts
  {
    forall path :: path in s.drafts[d].changes && s.drafts[d].changes[path].LfsFile? ==>
      IsAvailable(s.lfs.rows, s.drafts[d].changes[path].oid)
  }

  /** Everything publication asks of the tables and the ref, apart from the commit itself. */
  predicate DraftReady(s: World, d: nat)
  {
    && OpenDraft(s, d) && s.drafts[d].changes != map[] && StagedAvailable(s, d)
    && ValueOf(s.git.refs, Ref(s.drafts[d].branch)) == s.drafts[d].base
  }

  lemma PublishableIs(s: World, d: nat, commit: GitObject)
    requires d in s.drafts ==> BuiltFrom(s.drafts[d], commit)
    ensures Publishable(s, d, commit) <==> DraftReady(s, d)
  {
    hide BuiltFrom;
  }

  /** What `str.strip` removes. */
  predicate IsSpace(c: char)
  {
    || '\t' <= c <= '\r' || '\U{1C}' <= c <= ' ' || c == '\U{85}' || c == '\U{A0}' || c == '\U{1680}'
    || '\U{2000}' <= c <= '\U{200A}' || c == '\U{2028}' || c == '\U{2029}' || c == '\U{202F}' || c == '\U{205F}' || c == '\U{3000}'
  }

  predicate Blank(message: string) { forall i :: 0 <= i < |message| ==> IsSpace(message[i]) }

  /** The publisher's current role suffices for a contribution and for every branch rule that matches. */
  predicate MayPublish(role: Option<nat>, rules: seq<Rule>, branch: string)
  {
    role.Some? && role.value >= CONTRIBUTOR && MeetsRules(rules, BranchKind, branch, false, role.value)
  }

  datatype Publication = Done | Refusal | CutShort

  class Database {
    var clock: int
    var rows: map<string, Row>
    var nextRow: nat
    var stored: map<string, nat>
    var checked: set<(string, nat)>
    var uploading: set<string>
    var contexts: map<nat, Context>
    var hooks: map<nat, Hook>
    var proposals: map<RefKey, Proposal>
    var leases: map<LeaseKey, int>
    var audited: multiset<RefKey>
    var rejected: multiset<RefKey>
    var git: Git
    var drafts: map<nat, Draft>
    var passes: map<nat, Pass>

    ghost function View(): World
      reads this
    {
      World(clock, Objects(rows, nextRow, stored, checked, uploading), Pushes(contexts, hooks, proposals, leases, audited), git, drafts, passes)
    }

    constructor (start: int)
      ensures View() == Initial(start) && rejected == multiset{}
    {
      clock, rows, nextRow, stored, checked, uploading := start, map[], 0, map[], {}, {};
      contexts, hooks, proposals, leases, audited, rejected := map[], map[], map[], map[], multiset{}, multiset{};
      git, drafts, passes := Git(map[], {}, {}), map[], map[];
    }

    /** `create_push_context`, with the holder's current role. */
    method CreateContext(cfg: Config, c: nat, role: Option<nat>) returns (ok: bool)
      requires c !in contexts
      modifies this`contexts
      ensures ok <==> role.Some? && role.value >= CONTRIBUTOR
      ensures View()
           == if ok then WithContext(old(View()), c, Context(clock, clock + cfg.contextLife, false, None, false))
              else old(View())
    {
      if role.None? || role.value < CONTRIBUTOR {
        return false;
      }
      contexts := contexts[c := Context(clock, clock + cfg.contextLife, false, None, false)];
      return true;
    }

    /** `_consume_context`: refuse an unknown, consumed or expired context, else consume it. */
    method ConsumeContext(c: nat, authorized: bool) returns (ok: bool)
      modifies this`contexts
      ensures ok <==>
                authorized && c in old(contexts) && !old(contexts)[c].consumed && clock < old(contexts)[c].expiresAt
      ensures View() == if ok then WithContext(old(View()), c, old(contexts)[c].(consumed := true)) else old(View())
    {
      if c !in contexts || contexts[c].consumed || contexts[c].expiresAt <= clock || !authorized {
        return false;
      }
      contexts := contexts[c := contexts[c].(consumed := true)];
      return true;
    }

    /** The scanned pointers whose row is missing, of another size or without content. */
    method FindUnavailable(pointers: Pointers) returns (unavailable: set<Pointer>)
      ensures unavailable == set p | p in pointers && !HasContent(View(), p)
    {
      unavailable := {};
      var todo := pointers.Keys;
      while todo != {}
        invariant todo <= pointers.Keys
        invariant unavailable == set p | p in pointers && p !in todo && !HasContent(View(), p)
        decreases todo
      {
        var p :| p in todo;
        if p.oid !in rows || rows[p.oid].size != p.size || !IsStored(rows[p.oid].state) {
          unavailable := unavailable + {p};
        }
        todo := todo - {p};
      }
    }

    /** `_record_validation`: the push is refused, leaving nothing behind, exactly when its context was validated
        before,
        its holder lost the authorization or the role a tag deletion needs, or one of its pointers lacks content; otherwise
        its proposals and leases are recorded. */
    method RecordValidation(cfg: Config, c: nat, authorized: bool, role: nat) returns (ok: bool)
      requires c in contexts && c in hooks
      modifies this`contexts, this`proposals, this`leases
      ensures ok <==> && old(contexts)[c].validatedAt.None? && old(contexts)[c].consumed && authorized
                      && (DeletesTag(hooks[c].updates) ==> role >= MAINTAINER)
                      && forall p :: p in hooks[c].pointers ==> HasContent(old(View()), p)
      ensures View() == if ok then Validated(cfg, old(View()), c) else old(View())
    {
      hide HasContent, NewProposals, NewLeaseKeys;
      if contexts[c].validatedAt.Some? || !contexts[c].consumed || !authorized {
        return false;
      }
      if DeletesTag(hooks[c].updates) && role < MAINTAINER {
        return false;
      }
      var unavailable := FindUnavailable(hooks[c].pointers);
      if unavailable != {} {
        ghost var p :| p in unavailable;
        return false;
      }
      assert forall p :: p in hooks[c].pointers && !HasContent(View(), p) ==> p in unavailable;
      var expiry := clock + cfg.leaseLife;
      proposals := proposals + NewProposals(c, hooks[c].updates);
      leases := leases + (map k | k in NewLeaseKeys(c, hooks[c].pointers) :: expiry);
      contexts := contexts[c := contexts[c].(validatedAt := Some(clock))];
      return true;
    }

    /** `_record_rejected_ref_events`: one event per refused branch or tag, however often the refusal is reported. */
    method RecordRejected(c: nat, updates: seq<Update>)
      modifies this`rejected
      ensures RefusalsRecorded(old(rejected), rejected, c, updates)
    {
      hide IsBranch, IsTag;
      for n := 0 to |updates|
        invariant RefusalsRecorded(old(rejected), rejected, c, updates[..n])
      {
        var k := RefKey(c, updates[n].ref);
        ghost var before := rejected;
        if (IsBranch(k.ref) || IsTag(k.ref)) && k !in rejected {
          rejected := rejected + multiset{k};
        }
        RefusedOneMore(c, updates, n, k);
      }
      assert updates[..|updates|] == updates;
    }

    /** `enforce_pre_receive`: consume the context, check the policy, scan, validate. The push passes exactly when each
        of
        the four does. A denied one leaves no proposal and no lease, whichever refused it, and one event per branch or tag;
        one that Git could not scan leaves its context consumed and no event. */
    method EnforcePreReceive(cfg: Config, c: nat, updates: seq<Update>, listings: Option<seq<Listing>>, role: nat, rules: seq<Rule>,
                             validName: string -> bool, authorized: bool, stillAuthorized: bool, currentRole: nat) returns (verdict: Verdict)
      requires listings.Some? ==> |listings.value| == |updates|
      requires c in contexts && !contexts[c].consumed ==> contexts[c].validatedAt.None?
      modifies this
      ensures verdict.Passed? <==>
                && updates != [] && DistinctRefs(updates)
                && authorized && c in old(contexts) && !old(contexts)[c].consumed
                && old(clock) < old(contexts)[c].expiresAt
                && AllAllowed(updates, role, rules, validName)
                && listings.Some? && Consistent(updates, listings.value)
                && stillAuthorized && (DeletesTag(TableOf(updates)) ==> currentRole >= MAINTAINER)
                && forall ref, p :: Lists(updates, listings.value, ref, p) ==> HasContent(old(View()), p)
      ensures verdict.Passed? ==>
                && c in hooks && hooks[c].updates == TableOf(updates) && hooks[c].scanned == TableOf(updates).Keys
                && forall p, ref :: Leases(hooks[c].pointers, p, ref) <==> Lists(updates, listings.value, ref, p)
      ensures verdict.Passed? ==> View() == Validated(cfg, Scanned(old(View()), c, hooks[c]), c)
      ensures !verdict.Passed? ==>
                && View().push.(contexts := old(contexts), hooks := old(hooks)) == old(View()).push
                && View().lfs == old(View()).lfs && View().git == old(View()).git
      ensures !verdict.Passed? ==>
                || contexts == old(contexts)
                || (c in old(contexts) && contexts == old(contexts)[c := old(contexts)[c].(consumed := true)])
      ensures if verdict.Denied? && updates != [] && DistinctRefs(updates) && c in old(contexts)
              then RefusalsRecorded(old(rejected), rejected, c, updates)
              else rejected == old(rejected)
    {
      hide AllAllowed, Consistent, Lists, HasContent, Validated, ByRef;
      hide DistinctRefs, WellFormed, Leases, RefusalsRecorded, DeletesTag;
      ghost var before := View();
      if updates == [] || !DistinctRefs(updates) {
        return Denied;
      }
      var consumed := ConsumeContext(c, authorized);
      if !consumed {
        if c in contexts {
          RecordRejected(c, updates);
        }
        return Denied;
      }
      var denied := EnforceRefPolicy(updates, role, rules, validName);
      if denied.Some? {
        RecordRejected(c, updates);
        return Denied;
      }
      if listings.None? {
        return Unavailable;
      }
      var scanned := FindNewPointers(updates, listings.value);
      if scanned.Err? {
        RecordRejected(c, updates);
        return Denied;
      }
      var table := TableOf(updates);
      hooks := hooks[c := Hook(table, scanned.value, table.Keys)];
      assert View() == Scanned(before, c, hooks[c]);
      ghost var at := View();
      var ok := RecordValidation(cfg, c, stillAuthorized, currentRole);
      ValidatedKeepsHooks(cfg, at, c);
      ContentUnchanged(before, at);
      ListedContent(before, updates, listings.value, scanned.value);
      if !ok {
        RecordRejected(c, updates);
        return Denied;
      }
      return Passed;
    }

    /** Stamp the named proposals one by one, with one audit event for each that was not accepted before. */
    method StampAccepted(c: nat, refs: set<string>)
      requires forall ref :: ref in refs ==> RefKey(c, ref) in proposals
      modifies this`proposals, this`audited
      ensures proposals == AcceptedProposals(old(View()).push, c, refs)
      ensures audited == old(audited) + multiset(NewlyAccepted(old(View()).push, c, refs))
    {
      hide AcceptedProposals, NewlyAccepted;
      ghost var before := View().push;
      var todo := refs;
      StampedNothing(before, c);
      assert refs - todo == {};
      while todo != {}
        invariant todo <= refs
        invariant forall ref :: ref in refs ==> RefKey(c, ref) in proposals && RefKey(c, ref) in before.proposals
        invariant proposals == AcceptedProposals(before, c, refs - todo)
        invariant audited == before.audited + multiset(NewlyAccepted(before, c, refs - todo))
        decreases todo
      {
        var ref :| ref in todo;
        var k := RefKey(c, ref);
        if !proposals[k].accepted {
          audited := audited + multiset{k};
        }
        AcceptMore(before, c, refs - todo, ref);
        proposals := proposals[k := proposals[k].(accepted := true)];
        assert refs - (todo - {ref}) == refs - todo + {ref};
        todo := todo - {ref};
      }
      assert refs - todo == refs;
    }

    /** Promote every available object the accepted refs lease, in one update. */
    method PromoteLeased(c: nat, refs: set<string>)
      modifies this`rows
      ensures rows == map oid | oid in old(rows) ::
                PromotedRow(old(rows)[oid], LeasedFor(old(View()).push, c, refs, oid))
    {
      var promoted := set k | k in leases && k.context == c && k.ref in refs :: k.oid;
      forall oid | LeasedFor(View().push, c, refs, oid)
        ensures oid in promoted
      {
        var k :| k in leases && k.context == c && k.ref in refs && k.oid == oid;
      }
      rows := map oid | oid in rows ::
        if rows[oid].state == Available && oid in promoted then rows[oid].(state := Referenced) else rows[oid];
    }

    /** `_accept_updates`: an unvalidated context or a report that is no proposal of it refuses the whole call,
        otherwise the
        named refs are accepted. */
    method AcceptUpdates(c: nat, reported: set<Update>, complete: bool) returns (ok: bool)
      modifies this`proposals, this`audited, this`rows, this`contexts
      ensures ok <==> c in old(contexts) && old(contexts)[c].validatedAt.Some? && forall u :: u in reported ==>
                Identified(old(proposals), c, u)
      ensures View() == if ok then StampedWorld(old(View()), c, RefsOf(reported), complete) else old(View())
    {
      hide AcceptedProposals, NewlyAccepted, PromotedRow, LeasedFor;
      if c !in contexts || contexts[c].validatedAt.None? {
        return false;
      }
      if exists u :: u in reported && !Identified(proposals, c, u) {
        return false;
      }
      var refs := RefsOf(reported);
      ghost var before := View();
      StampAccepted(c, refs);
      ghost var stamped := View().push;
      PromoteLeased(c, refs);
      PromotedAfterStamping(before, stamped, c, refs, rows);
      if complete {
        contexts := contexts[c := contexts[c].(completed := true)];
      }
      return true;
    }

    /** `record_post_receive`: the refs Git reports are accepted and the context completes. A report of everything Git
        applied has the effect of the world's post-receive step on the tables. */
    method RecordPostReceive(c: nat, updates: seq<Update>) returns (ok: bool)
      modifies this`proposals, this`audited, this`rows, this`contexts
      ensures ok <==>
                && updates != [] && DistinctRefs(updates) && c in old(contexts) && old(contexts)[c].validatedAt.Some?
                      && forall u :: u in updates ==> Identified(old(proposals), c, u)
      ensures View() == if ok then StampedWorld(old(View()), c, RefsOf(Reported(updates)), true) else old(View())
      ensures ok && RefsOf(Reported(updates)) == AppliedRefs(old(View()), c) ==>
                View() == Received(old(View()), c).(git := git)
    {
      hide DistinctRefs, Identified, RefsOf, Accept, AppliedRefs;
      if updates == [] || !DistinctRefs(updates) {
        return false;
      }
      assert forall u :: u in Reported(updates) <==> u in updates;
      ok := AcceptUpdates(c, Reported(updates), true);
    }

    /** The pending proposals of a context whose refs contain them. */
    method FindHeld(c: nat) returns (held: set<Update>)
      ensures RefsOf(held) == SeenRefs(View(), c) && |held| == |SeenRefs(View(), c)|
      ensures forall u :: u in held ==> Identified(proposals, c, u)
    {
      hide RefContains, RefsOf, Identified;
      held := {};
      var todo := set k | k in proposals && k.context == c && !proposals[k].accepted;
      assert todo == OpenProposals(View(), c);
      ghost var all := todo;
      OpenHeld(View(), c);
      while todo != {}
        invariant todo <= all
        invariant forall u :: u in held ==> Identified(proposals, c, u)
        invariant forall u :: u in held ==> RefKey(c, u.ref) !in todo
        invariant RefsOf(held) == HeldIn(View(), all - todo) && |held| == |RefsOf(held)|
        decreases todo
      {
        var k :| k in todo;
        HeldInMore(View(), all - todo, k);
        assert all - (todo - {k}) == all - todo + {k};
        assert k in all && RefKey(c, k.ref) == k;
        if RefContains(git.refs, k.ref, proposals[k].next) {
          var u := Update(k.ref, proposals[k].prior, proposals[k].next);
          OneMoreHeld(held, u);
          IdentifiedIs(proposals, c, u);
          held := held + {u};
        }
        todo := todo - {k};
      }
      assert all - {} == all;
    }

    /** `reconcile_git_pushes` over the batch its query returned. */
    method ReconcilePushes(ids: seq<nat>, readable: set<nat>) returns (count: nat)
      requires forall c :: c in ids && c in contexts ==> contexts[c].validatedAt.Some?
      modifies this`proposals, this`audited, this`rows, this`contexts
      ensures Reconciliation(View(), count) == ReconciledAll(old(View()), ids, readable)
    {
      hide Identified, SeenRefs, RefsOf, Accept;
      ghost var before := View();
      count := 0;
      for n := 0 to |ids|
        invariant Reconciliation(View(), count) == ReconciledAll(before, ids[..n], readable)
        invariant forall c :: c in ids && c in contexts ==> contexts[c].validatedAt.Some?
      {
        var c := ids[n];
        assert ids[..n + 1][..n] == ids[..n] && c in ids;
        if c in contexts && c in readable {
          ghost var at := View();
          var held := FindHeld(c);
          if held != {} {
            var ok := AcceptUpdates(c, held, false);
          } else {
            assert SeenRefs(at, c) == {};
            AcceptNothing(at, c);
          }
          AcceptKeepsContexts(at, c, SeenRefs(at, c));
          contexts := contexts[c := contexts[c].(completed := true)];
          count := count + |held|;
        }
      }
      assert ids[..|ids|] == ids;
    }

    /** `finalize_lfs_upload` up to its transaction: the size must match, and so must the digest where storage reports
        one
        or is known to. */
    method CheckUpload(oid: string, deleting: bool, reachable: bool, digest: Option<string>, verify: bool,
                       reportsDigests: bool) returns (found: Finding)
      requires oid in rows
      modifies this`checked
      ensures found.Verified? <==> && !deleting && rows[oid].state == Pending && reachable
                                   && oid in stored && stored[oid] == rows[oid].size
                                   && (verify && digest.Some? ==> digest.value == oid)
                                   && (verify && reportsDigests ==> digest.Some?)
      ensures found.Verified? ==> (found.bySha256 <==> verify && digest.Some?)
      ensures found == AlreadyStored <==> !deleting && IsStored(rows[oid].state)
      ensures found == WrongDigest ==>
                digest.Some? && digest.value != oid && oid in stored && stored[oid] == rows[oid].size
      ensures View() == if found.Verified? then old(View()).(lfs := old(View()).lfs.(checked := old(checked) + {(oid, rows[oid].id)})) else old(View())
    {
      if deleting {
        return DatasetGone;
      }
      if IsStored(rows[oid].state) {
        return AlreadyStored;
      }
      if !reachable {
        return StorageError;
      }
      if oid !in stored {
        return Missing;
      }
      if stored[oid] != rows[oid].size {
        return WrongSize;
      }
      if verify && digest.Some? && digest.value != oid {
        return WrongDigest;
      }
      if verify && digest.None? && reportsDigests {
        return NoDigest;
      }
      checked := checked + {(oid, rows[oid].id)};
      return Verified(verify && digest.Some?);
    }

    /** `finalize_lfs_upload`, its transaction: idempotent, and refused when the row or its dataset is gone. */
    method CommitUpload(oid: string, id: nat, deleting: bool) returns (ok: bool)
      modifies this`rows
      ensures ok <==> oid in old(rows) && old(rows)[oid].id == id && !deleting
      ensures View() == if ok then MakeAvailable(old(View()), oid) else old(View())
    {
      if oid !in rows || rows[oid].id != id || deleting {
        return false;
      }
      if !IsStored(rows[oid].state) {
        rows := rows[oid := rows[oid].(state := Available, availableAt := Some(clock))];
      }
      return true;
    }

    /** Whether every staged LFS object of the draft has content. */
    method AllAvailable(d: nat) returns (ok: bool)
      requires d in drafts
      ensures ok <==> StagedAvailable(View(), d)
    {
      var todo := drafts[d].changes.Keys;
      while todo != {}
        invariant todo <= drafts[d].changes.Keys
        invariant forall path :: path in drafts[d].changes && path !in todo && drafts[d].changes[path].LfsFile? ==>
                    IsAvailable(rows, drafts[d].changes[path].oid)
        decreases todo
      {
        var path :| path in todo;
        if drafts[d].changes[path].LfsFile? && !IsAvailable(rows, drafts[d].changes[path].oid) {
          return false;
        }
        todo := todo - {path};
      }
      return true;
    }

    /** Promote every available object the draft stages, in one update. */
    method PromoteStaged(d: nat)
      requires d in drafts
      modifies this`rows
      ensures rows == map oid | oid in old(rows) :: PromotedRow(old(rows)[oid], StagedOid(drafts[d], oid))
    {
      var staged := set path | path in drafts[d].changes && drafts[d].changes[path].LfsFile? ::
        drafts[d].changes[path].oid;
      forall oid | StagedOid(drafts[d], oid)
        ensures oid in staged
      {
        var path :| path in drafts[d].changes && drafts[d].changes[path].LfsFile? && drafts[d].changes[path].oid == oid;
      }
      rows := map oid | oid in rows ::
        if rows[oid].state == Available && oid in staged then rows[oid].(state := Referenced) else rows[oid];
    }

    /** `publish_browser_draft` with the commit its plumbing constructed, if it could. It is refused for a blank
        message, a
        draft that is closed, expired or empty, a role that is too low, missing content, a branch that has moved and a
        commit or ref update that failed. `survives` says whether the transaction commits after Git moved the branch. */
    method PublishDraft(d: nat, message: string, role: Option<nat>, rules: seq<Rule>, built: Option<GitObject>,
                        survives: bool) returns (outcome: Publication)
      requires d in drafts && built.Some? ==> BuiltFrom(drafts[d], built.value)
      modifies this`git, this`rows, this`drafts
      ensures !outcome.Refusal? <==>
                && !Blank(message) && d in old(drafts) && MayPublish(role, rules, old(drafts)[d].branch)
                && built.Some? && Publishable(old(View()), d, built.value)
      ensures outcome.Done? ==> survives && View() == Published(old(View()), d, built.value)
      ensures outcome.CutShort? ==> !survives && View() == WithBranch(old(View()), d, built.value)
      ensures outcome.Refusal? ==> View() == old(View())
    {
      hide BuiltFrom, StagedAvailable, PromotedRow, StagedOid, Publishable, Blank;
      if d in drafts && built.Some? {
        PublishableIs(View(), d, built.value);
      }
      if Blank(message) || d !in drafts || !drafts[d].open || drafts[d].expiresAt <= clock {
        return Refusal;
      }
      var allowed := PublisherAllowed(role, rules, drafts[d].branch);
      if !allowed || drafts[d].changes == map[] {
        return Refusal;
      }
      var available := AllAvailable(d);
      if !available {
        return Refusal;
      }
      var ref := Ref(drafts[d].branch);
      if ValueOf(git.refs, ref) != drafts[d].base || built.None? {
        return Refusal;
      }
      git := git.(refs := git.refs[ref := built.value]);
      if !survives {
        return CutShort;
      }
      PromoteStaged(d);
      drafts := drafts[d := drafts[d].(open := false)];
      return Done;
    }

    method PublisherAllowed(role: Option<nat>, rules: seq<Rule>, branch: string) returns (ok: bool)
      ensures ok <==> MayPublish(role, rules, branch)
    {
      if role.None? || role.value < CONTRIBUTOR {
        return false;
      }
      ok := EnforceRules(rules, BranchKind, branch, role.value, false);
    }

    /** The rechecks of `_delete_orphan` under the row lock. */
    method MayDelete(oid: string, cutoff: int, now: int) returns (ok: bool)
      ensures ok <==> Eligible(View(), oid, cutoff, now)
    {
      if oid !in rows || rows[oid].state == Referenced {
        return false;
      }
      if rows[oid].state == Pending && rows[oid].createdAt > cutoff {
        return false;
      }
      if rows[oid].state == Available && (rows[oid].availableAt.None? || rows[oid].availableAt.value > cutoff) {
        return false;
      }
      if oid in uploading {
        return false;
      }
      if k :| k in leases && k.oid == oid && leases[k] > now {
        assert LeaseAlive(View(), oid, now);
        return false;
      }
      return true;
    }

    /** Whether a draft change names the row. */
    method IsStaged(oid: string) returns (found: bool)
      ensures found <==> Protected(View(), oid)
    {
      found := exists d, path ::
        d in drafts && path in drafts[d].changes && drafts[d].changes[path].LfsFile? && drafts[d].changes[path].oid == oid;
    }

    /** `_delete_orphan`: bytes first, then the row; a draft that names the row makes the second half fail. */
    method DeleteOrphan(oid: string, turn: Turn, cutoff: int, now: int) returns (outcome: Outcome)
      modifies this`rows, this`leases, this`stored
      ensures outcome == OrphanOutcome(old(View()), oid, turn, cutoff, now)
      ensures View() == AfterOrphan(old(View()), oid, turn, cutoff, now)
    {
      hide Eligible, Protected;
      ghost var before := View();
      var ok := MayDelete(oid, cutoff, now);
      if !turn.claimed || !ok {
        return Kept;
      }
      if turn.storage.Fails? {
        if turn.storage.performed {
          stored := stored - {oid};
        }
        return StorageFailed;
      }
      var staged := IsStaged(oid);
      stored := stored - {oid};
      if staged {
        assert View() == WithoutBytes(before, oid);
        return RowProtected;
      }
      rows := rows - {oid};
      leases := map k | k in leases && k.oid != oid :: leases[k];
      assert View() == WithoutRow(WithoutBytes(before, oid), oid);
      return Deleted;
    }

    /** The deletion loop of `cleanup_lfs_orphans` over its candidates. */
    method SweepOrphans(oids: seq<string>, turns: seq<Turn>, cutoff: int, now: int)
      returns (deleted: nat, failures: nat, finished: bool)
      requires |turns| == |oids|
      modifies this`rows, this`leases, this`stored
      ensures Sweep(View(), deleted, failures, finished) == Swept(old(View()), oids, turns, cutoff, now)
    {
      hide OrphanOutcome, AfterOrphan;
      ghost var before := View();
      deleted, failures := 0, 0;
      for n := 0 to |oids|
        invariant var rest := Swept(View(), oids[n..], turns[n..], cutoff, now);
                  Swept(before, oids, turns, cutoff, now) == rest.(deleted := rest.deleted + deleted, failures := rest.failures + failures)
      {
        var outcome := DeleteOrphan(oids[n], turns[n], cutoff, now);
        assert oids[n..][1..] == oids[n + 1..] && turns[n..][1..] == turns[n + 1..];
        match outcome
        case Deleted => deleted := deleted + 1;
        case Kept =>
        case StorageFailed => failures := failures + 1;
        case RowProtected => return deleted, failures, false;
      }
      return deleted, failures, true;
    }

    /** `cleanup_lfs_orphans` without interruption. If it works on the whole backlog and the
        invariant held, every pointer a ref reaches still has its row, and its bytes if it had them. */
    method Cleanup(cfg: Config, work: Work) returns (deleted: nat, failures: nat, finished: bool)
      requires ValidWork(View(), work)
      modifies this`proposals, this`audited, this`rows, this`contexts, this`leases, this`stored, this`drafts, this`uploading
      ensures Sweep(View(), deleted, failures, finished) == PassResult(cfg, old(View()), work)
      ensures ValidConfig(cfg) && Safe(cfg, old(View())) && WholeWork(old(View()), work) ==>
                forall p :: Reachable(git.refs, p) ==> Covered(View(), p) && (p.oid in old(stored) ==> p.oid in stored)
    {
      hide Safe, WholeWork, Reachable, Covered, ReconciledAll, Swept;
      ghost var before := View();
      assert |work.turns| == |work.oids|;
      drafts := drafts - work.drafts;
      var count := ReconcilePushes(work.contexts, work.readable);
      uploading := uploading - work.sessions;
      deleted, failures, finished := SweepOrphans(work.oids, work.turns, clock - cfg.gracePeriod, clock);
      assert Sweep(View(), deleted, failures, finished) == PassResult(cfg, before, work);
      hide PassResult;
      if ValidConfig(cfg) && Safe(cfg, before) && WholeWork(before, work) {
        forall p | Reachable(git.refs, p)
          ensures Covered(View(), p) && (p.oid in old(stored) ==> p.oid in stored)
        {
          PassKeepsReachable(cfg, before, work, p);
        }
      }
    }
  }

  lemma RefusedOneMore(c: nat, updates: seq<Update>, n: nat, k: RefKey)
    requires n < |updates| && k == RefKey(c, updates[n].ref)
    ensures forall j :: Refused(c, updates[..n + 1], j) <==>
              Refused(c, updates[..n], j) || (j == k && (IsBranch(k.ref) || IsTag(k.ref)))
  {
    hide IsBranch, IsTag;
    forall j
      ensures Refused(c, updates[..n + 1], j) <==>
                Refused(c, updates[..n], j) || (j == k && (IsBranch(k.ref) || IsTag(k.ref)))
    {
      if Refused(c, updates[..n], j) {
        var i :| 0 <= i < n && updates[..n][i].ref == j.ref;
        assert updates[..n + 1][i].ref == j.ref;
      }
      if Refused(c, updates[..n + 1], j) {
        var i :| 0 <= i < n + 1 && updates[..n + 1][i].ref == j.ref;
        if i < n {
          assert updates[..n][i].ref == j.ref;
        }
      }
      assert updates[..n + 1][n].ref == k.ref;
    }
  }
}
