/** Permanent deletion of a dataset: a database row, a bare repository and an object prefix, with any number of attempts
    that may be interrupted, fail or overlap. */
module DatasetDeletion {
  import opened Text

  /** The three stores. `row` tells whether deletion has started; a directory is the set of its entries; `pinned` tells
      whether a browser draft's change, of whatever draft state, names one of the dataset's object rows, which the
      database then refuses to delete with the dataset. */
  datatype Stores = Stores(row: Option<bool>, repository: Option<set<string>>, staged: Option<set<string>>, objects: set<string>, rootAvailable: bool, pinned: bool)

  /** How far one attempt has come; `resumed` is what it read of earlier attempts when it began. */
  datatype Phase =
    | Purging(resumed: bool)
    | Looking(resumed: bool)
    | Renaming(resumed: bool)
    | LookingForStaged(resumed: bool)
    | Removing
    | Finishing

  /** `stores` and the attempts under way. */
  datatype State = State(stores: Stores, attempts: map<nat, Phase>)

  /** One durable transaction, storage call or file-system call. An attempt that fails or is interrupted is dropped. */
  datatype Step =
    | Begin(attempt: nat)
    | Purge(attempt: nat, key: string)
    | PurgeDone(attempt: nat)
    | Look(attempt: nat)
    | Rename(attempt: nat)
    | LookForStaged(attempt: nat)
    | RemoveEntry(attempt: nat, entry: string)
    | RemoveDirectory(attempt: nat)
    | Finish(attempt: nat)
    | Drop(attempt: nat)
    | Upload(key: string)
    | RootChanges(available: bool)
    | DraftsChange(pinned: bool)

  predicate InPhase(s: State, a: nat, phase: Phase) { a in s.attempts && s.attempts[a] == phase }

  predicate Enabled(s: State, step: Step)
  {
    match step
    case Begin(a) => a !in s.attempts && s.stores.row.Some?
    case Purge(a, key) => a in s.attempts && s.attempts[a].Purging? && key in s.stores.objects
    case PurgeDone(a) => a in s.attempts && s.attempts[a].Purging? && s.stores.objects == {}
    case Look(a) => a in s.attempts && s.attempts[a].Looking?
    case Rename(a) => a in s.attempts && s.attempts[a].Renaming?
    case LookForStaged(a) => a in s.attempts && s.attempts[a].LookingForStaged?
    case RemoveEntry(a, entry) => InPhase(s, a, Removing) && s.stores.staged.Some? && entry in s.stores.staged.value
    case RemoveDirectory(a) => InPhase(s, a, Removing)
    case Finish(a) => InPhase(s, a, Finishing)
    case Drop(a) => a in s.attempts
    case Upload(_) => true
    case RootChanges(_) => true
    case DraftsChange(_) => true
  }

  function Next(s: State, a: nat, phase: Phase): State { s.(attempts := s.attempts[a := phase]) }

  function Failed(s: State, a: nat): State { s.(attempts := s.attempts - {a}) }

  function Apply(s: State, step: Step): State
    requires Enabled(s, step)
  {
    var t := s.stores;
    match step
    case Begin(a) => State(t.(row := Some(true)), s.attempts[a := Purging(t.row.value)])
    case Purge(a, key) => s.(stores := t.(objects := t.objects - {key}))
    case PurgeDone(a) => Next(s, a, Looking(s.attempts[a].resumed))
    case Look(a) =>
      if !t.rootAvailable || (t.repository.Some? && t.staged.Some?) then Failed(s, a)
      else if t.repository.Some? then Next(s, a, Renaming(s.attempts[a].resumed))
      else Next(s, a, LookingForStaged(s.attempts[a].resumed))
    case Rename(a) => if t.repository.Some? && t.staged.None? then Next(s.(stores := t.(repository := None, staged := t.repository)), a, Removing) else Failed(s, a)
    case LookForStaged(a) =>
      if t.staged.Some? then Next(s, a, Removing)
      else if s.attempts[a].resumed then Next(s, a, Finishing)
      else Failed(s, a)
    case RemoveEntry(a, entry) => s.(stores := t.(staged := Some(t.staged.value - {entry})))
    case RemoveDirectory(a) =>
           if t.staged == Some({}) then Next(s.(stores := t.(staged := None)), a, Finishing) else Failed(s, a)
    case Finish(a) => if t.row.Some? && !t.pinned then Failed(s.(stores := t.(row := None)), a) else Failed(s, a)
    case Drop(a) => Failed(s, a)
    case Upload(key) => s.(stores := t.(objects := t.objects + {key}))
    case RootChanges(available) => s.(stores := t.(rootAvailable := available))
    case DraftsChange(pinned) => s.(stores := t.(pinned := pinned))
  }

  // ---- what every run keeps ---------------------------------------------------------------------

  /** The repository is in at most one place, and the row outlives it. */
  predicate Ordered(t: Stores)
  {
    && (t.repository.None? || t.staged.None?)
    && (t.row.None? ==> t.repository.None? && t.staged.None?)
  }

  predicate PhaseOk(t: Stores, phase: Phase)
  {
    && t.row != Some(false)
    && (phase.LookingForStaged? ==> t.repository.None?)
    && (phase.Removing? ==> t.repository.None?)
    && (phase.Finishing? ==> t.repository.None? && t.staged.None?)
  }

  /** Until deletion starts the repository is as it was. */
  ghost predicate Safe(original: Option<set<string>>, s: State)
  {
    && Ordered(s.stores)
    && (forall a :: a in s.attempts ==> PhaseOk(s.stores, s.attempts[a]))
    && (s.stores.row == Some(false) ==> s.stores.repository == original && s.stores.staged.None?)
  }

  lemma StepSafe(original: Option<set<string>>, s: State, step: Step)
    requires Safe(original, s) && Enabled(s, step)
    ensures Safe(original, Apply(s, step))
  {
  }

  /** A dataset is returned to readers while its row exists and its deletion has not started. */
  predicate IsVisible(t: Stores) { t.row == Some(false) }

  lemma StepHides(s: State, step: Step)
    requires Enabled(s, step) && !IsVisible(s.stores)
    ensures !IsVisible(Apply(s, step).stores)
  {
  }

  ghost predicate IsRun(steps: seq<Step>, states: seq<State>)
  {
    |states| == |steps| + 1
    && forall i :: 0 <= i < |steps| ==> Enabled(states[i], steps[i]) && states[i + 1] == Apply(states[i], steps[i])
  }

  ghost predicate IsStart(s: State) { s.attempts == map[] && s.stores.row == Some(false) && s.stores.staged.None? }

  lemma {:induction false} RunSafe(steps: seq<Step>, states: seq<State>, i: nat)
    requires IsRun(steps, states) && IsStart(states[0]) && i < |states|
    ensures Safe(states[0].stores.repository, states[i])
  {
    if i > 0 {
      RunSafe(steps, states, i - 1);
      StepSafe(states[0].stores.repository, states[i - 1], steps[i - 1]);
    }
  }

  lemma {:induction false} RunHides(steps: seq<Step>, states: seq<State>, i: nat, j: nat)
    requires IsRun(steps, states) && i <= j < |states| && !IsVisible(states[i].stores)
    ensures !IsVisible(states[j].stores)
    decreases j
  {
    hide Enabled, Apply, IsVisible;
    if i < j {
      RunHides(steps, states, i, j - 1);
      StepHides(states[j - 1], steps[j - 1]);
    }
  }

  /** However attempts overlap and wherever they stop: the row never goes before the repository, a visible dataset still
      has
      its whole repository, and once a deletion has begun the dataset is never visible again. */
  lemma DeletionIsOrdered(steps: seq<Step>, states: seq<State>, i: nat)
    requires IsRun(steps, states) && IsStart(states[0]) && i < |states|
    ensures states[i].stores.row.None? ==> states[i].stores.repository.None? && states[i].stores.staged.None?
    ensures IsVisible(states[i].stores) ==> states[i].stores.repository == states[0].stores.repository
    ensures forall k, a :: 0 <= k < i && steps[k] == Begin(a) ==> !IsVisible(states[i].stores)
  {
    RunSafe(steps, states, i);
    forall k, a | 0 <= k < i && steps[k] == Begin(a)
      ensures !IsVisible(states[i].stores)
    {
      assert Enabled(states[k], steps[k]) && states[k + 1] == Apply(states[k], steps[k]);
      RunHides(steps, states, k + 1, i);
    }
  }

  // ---- the object prefix ----------------------------------------------------------------------------

  lemma {:induction false} PrefixStaysEmpty(steps: seq<Step>, states: seq<State>, i: nat, j: nat)
    requires IsRun(steps, states) && i <= j < |states| && states[i].stores.objects == {}
    requires forall k :: i <= k < j ==> !steps[k].Upload?
    ensures states[j].stores.objects == {}
    decreases j
  {
    if i < j {
      PrefixStaysEmpty(steps, states, i, j - 1);
      assert states[j] == Apply(states[j - 1], steps[j - 1]);
    }
  }

  predicate PastPurge(phase: Phase) { !phase.Purging? }

  /** Unless a signed upload lands after an attempt's purge, nothing is left in the prefix once that attempt ends the
      row. */
  lemma {:induction false} PurgedBefore(steps: seq<Step>, states: seq<State>, j: nat, a: nat) returns (i: nat)
    requires IsRun(steps, states) && IsStart(states[0]) && j < |states|
    requires a in states[j].attempts && PastPurge(states[j].attempts[a])
    ensures i < j && steps[i] == PurgeDone(a) && states[i].stores.objects == {}
    ensures forall k :: i < k < j ==> steps[k] != PurgeDone(a)
    decreases j
  {
    assert j > 0;
    var s, step := states[j - 1], steps[j - 1];
    assert Enabled(s, step) && states[j] == Apply(s, step);
    if step == PurgeDone(a) {
      i := j - 1;
    } else {
      i := PurgedBefore(steps, states, j - 1, a);
    }
  }

  /** An attempt that reaches its last transaction has left no repository, no staging directory and, if no upload came
      after
      its purge, an empty object prefix; the row goes exactly if no draft pins it. */
  lemma FinishLeavesNothing(steps: seq<Step>, states: seq<State>, j: nat, a: nat) returns (i: nat)
    requires IsRun(steps, states) && IsStart(states[0]) && j < |steps| && steps[j] == Finish(a)
    ensures i < j && steps[i] == PurgeDone(a)
    ensures states[j + 1].stores.row.None? <==> states[j].stores.row.None? || !states[j].stores.pinned
    ensures states[j + 1].stores.repository.None? && states[j + 1].stores.staged.None?
    ensures (forall k :: i <= k < j ==> !steps[k].Upload?) ==> states[j + 1].stores.objects == {}
  {
    assert Enabled(states[j], steps[j]);
    RunSafe(steps, states, j);
    assert PhaseOk(states[j].stores, Finishing);
    i := PurgedBefore(steps, states, j, a);
    if forall k :: i <= k < j ==> !steps[k].Upload? {
      PrefixStaysEmpty(steps, states, i, j);
    }
  }

  /** While a draft pins the dataset no attempt removes its row, though each removes its objects and its repository. */
  lemma {:induction false} PinnedRowStays(steps: seq<Step>, states: seq<State>, j: nat)
    requires IsRun(steps, states) && IsStart(states[0]) && j < |states|
    requires forall k :: 0 <= k < j ==> states[k].stores.pinned
    ensures states[j].stores.row.Some?
  {
    if j > 0 {
      PinnedRowStays(steps, states, j - 1);
      assert states[j] == Apply(states[j - 1], steps[j - 1]);
    }
  }

  // ---- one attempt on its own ----------------------------------------------------------------------------

  datatype Outcome = Completed | Refused | Broken | Interrupted

  /** The stores as one request meets them. */
  class Deletion {
    var row: Option<bool>
    var repository: Option<set<string>>
    var staged: Option<set<string>>
    var objects: set<string>
    var rootAvailable: bool
    var pinned: bool
    /** How many more durable operations run before the process is interrupted. */
    var budget: nat

    ghost function View(): Stores
      reads this
    {
      Stores(row, repository, staged, objects, rootAvailable, pinned)
    }

    ghost predicate Valid()
      reads this
    {
      Ordered(View()) && (row == Some(false) ==> staged.None?)
    }

    constructor (stores: Stores, operations: nat)
      requires Ordered(stores) && (stores.row == Some(false) ==> stores.staged.None?)
      ensures Valid() && View() == stores && budget == operations
    {
      row, repository, staged, objects := stores.row, stores.repository, stores.staged, stores.objects;
      rootAvailable, pinned, budget := stores.rootAvailable, stores.pinned, operations;
    }

    function Entries(): nat
      reads this
    {
      if repository.Some? then |repository.value| else if staged.Some? then |staged.value| else 0
    }

    /** `shutil.rmtree` of the staging directory. */
    method RemoveTree() returns (done: bool)
      requires Valid() && row == Some(true) && repository.None? && staged.Some?
      modifies this`staged, this`budget
      ensures Valid()
      ensures done ==> staged.None?
      ensures old(budget) >= |old(staged).value| + 2 ==> done && budget >= old(budget) - |old(staged).value| - 1
      ensures budget <= old(budget)
    {
      while staged.value != {}
        invariant staged.Some? && Valid()
        invariant budget <= old(budget)
        invariant |staged.value| <= |old(staged).value|
        invariant budget == old(budget) - (|old(staged).value| - |staged.value|)
        decreases |staged.value|
      {
        if budget == 0 {
          return false;
        }
        var entry :| entry in staged.value;
        staged, budget := Some(staged.value - {entry}), budget - 1;
      }
      if budget == 0 {
        return false;
      }
      staged, budget := None, budget - 1;
      return true;
    }

    /** `delete_dataset`. Whatever stops it, the stores stay in order; not interrupted, it completes exactly when it is
        permitted, storage and root work, no draft pins the dataset, and the repository is there or an earlier attempt
        began. */
    method Attempt(permitted: bool, storageWorks: bool) returns (outcome: Outcome)
      requires Valid()
      modifies this
      ensures Valid() && rootAvailable == old(rootAvailable) && pinned == old(pinned)
      ensures outcome == Refused <==> old(row).None? || !permitted
      ensures outcome == Refused ==> View() == old(View())
      ensures outcome == Completed ==> View() == Stores(None, None, None, {}, rootAvailable, false)
      ensures outcome == Broken || outcome == Interrupted ==> row.Some? && (row == Some(true) || View() == old(View()))
      ensures old(budget) >= |old(objects)| + old(Entries()) + 4 ==>
                outcome != Interrupted
                && (outcome == Completed <==> old(row).Some? && permitted && storageWorks && rootAvailable && !pinned && (old(row) == Some(true) || old(repository).Some?))
    {
      if row.None? || !permitted {
        return Refused;
      }
      if budget == 0 {
        return Interrupted;
      }
      var resumed := row.value;
      row, budget := Some(true), budget - 1;
      if !storageWorks {
        return Broken;
      }
      while objects != {}
        invariant Valid() && row == Some(true) && repository == old(repository) && staged == old(staged)
        invariant rootAvailable == old(rootAvailable) && pinned == old(pinned)
        invariant |objects| <= |old(objects)| && budget == old(budget) - 1 - (|old(objects)| - |objects|)
        decreases |objects|
      {
        if budget == 0 {
          return Interrupted;
        }
        var key :| key in objects;
        objects, budget := objects - {key}, budget - 1;
      }
      if !rootAvailable || (repository.Some? && staged.Some?) {
        return Broken;
      }
      var removed := true;
      if repository.Some? {
        if budget == 0 {
          return Interrupted;
        }
        repository, staged, budget := None, repository, budget - 1;
        removed := RemoveTree();
      } else if staged.Some? {
        removed := RemoveTree();
      } else if !resumed {
        return Broken;
      }
      if !removed || budget == 0 {
        return Interrupted;
      }
      if pinned {
        return Broken;
      }
      row, budget := None, budget - 1;
      return Completed;
    }
  }
}
