/**
 Branches of a method under compilation and the manager that opens and closes them.

 A branch is a value: its attributes are only set while it is being opened.  Two branches are
 compared attribute by attribute, parents included, as the compiler's loose comparison does.
 */
module Branches {
  import opened Wrappers

  datatype BranchType =
    | Root
    | ConditionalTrue
    | ConditionalFalse
    | LoopInfinite
    | LoopConditional
    | Switch
    | External
    | Unknown

  /** `unreachable` is null (None) when the condition is not a constant. */
  datatype Branch = Branch(parent: Option<Branch>, level: int, id: nat, kind: BranchType, unreachable: Option<bool>)

  function Ancestors(b: Branch): nat {
    match b.parent
    case None => 0
    case Some(p) => 1 + Ancestors(p)
  }

  /** Levels count ancestors and ids grow downwards. */
  predicate WellFormed(b: Branch) {
    && b.level == Ancestors(b)
    && b.id > 0
    && match b.parent
       case None => true
       case Some(p) => p.id < b.id && WellFormed(p)
  }

  /** Whether `a` is `b` or one of its ancestors. */
  predicate Encloses(a: Branch, b: Branch) {
    a == b || (b.parent.Some? && Encloses(a, b.parent.value))
  }

  /** In a well-formed branch an ancestor is determined by its level, and its id grows with the level. */
  lemma {:induction false} AncestorsAreOrdered(a: Branch, b: Branch)
    requires WellFormed(b) && Encloses(a, b)
    ensures WellFormed(a) && a.level <= b.level && a.id <= b.id
    ensures a.level == b.level <==> a == b
    ensures a.id == b.id <==> a == b
  {
    if a != b {
      AncestorsAreOrdered(a, b.parent.value);
    }
  }

  /** Every branch opened so far, in order: the k-th one has id k + 1 and was opened inside an earlier one. */
  ghost predicate History(log: seq<Branch>) {
    forall k :: 0 <= k < |log| ==> OpenedAt(log, k)
  }

  ghost predicate OpenedAt(log: seq<Branch>, k: nat)
    requires k < |log|
  {
    log[k].id == k + 1 && WellFormed(log[k]) && (log[k].parent.Some? ==> Recorded(log, log[k].parent.value))
  }

  ghost predicate Recorded(log: seq<Branch>, b: Branch) {
    0 < b.id <= |log| && log[b.id - 1] == b
  }

  /** What is recorded is well formed, and so is the record of its parent. */
  lemma RecordedIsWellFormed(log: seq<Branch>, b: Branch)
    requires History(log) && Recorded(log, b)
    ensures WellFormed(b) && (b.parent.Some? ==> Recorded(log, b.parent.value))
  {
    assert OpenedAt(log, b.id - 1);
  }

  lemma HistoryExtends(log: seq<Branch>, b: Branch)
    requires History(log)
    requires b.id == |log| + 1 && WellFormed(b) && (b.parent.Some? ==> Recorded(log, b.parent.value))
    ensures History(log + [b]) && Recorded(log + [b], b)
  {
    var longer := log + [b];
    forall k | 0 <= k < |longer| ensures OpenedAt(longer, k) {
      assert k < |log| ==> OpenedAt(log, k) && longer[k] == log[k];
    }
  }

  /** Ancestors of recorded branches are recorded. */
  lemma {:induction false} AncestorsAreRecorded(log: seq<Branch>, a: Branch, b: Branch)
    requires History(log) && Recorded(log, b) && Encloses(a, b)
    ensures Recorded(log, a)
  {
    if a != b {
      assert OpenedAt(log, b.id - 1);
      AncestorsAreRecorded(log, a, b.parent.value);
    }
  }

  class BranchManager {
    var currentBranch: Option<Branch>
    var level: int
    var uniqueId: nat
    var rootBranch: Option<Branch>

    constructor ()
      ensures currentBranch == None && level == 0 && uniqueId == 1 && rootBranch == None
    {
      currentBranch, level, uniqueId, rootBranch := None, 0, 1, None;
    }

    /** The manager agrees with the history of branches it opened. */
    ghost predicate Valid(log: seq<Branch>)
      reads this
    {
      && History(log) && uniqueId == |log| + 1
      && match currentBranch
         case None => level == 0
         case Some(b) => Recorded(log, b) && level == b.level + 1
    }

    /** The branch becomes current, below the previous one. */
    method AddBranch(kind: BranchType, unreachable: Option<bool>, ghost log: seq<Branch>) returns (branch: Branch)
      modifies this
      ensures currentBranch == Some(branch)
      ensures branch == Branch(old(currentBranch), old(level), old(uniqueId), kind, unreachable)
      ensures rootBranch == if kind == Root then Some(branch) else old(rootBranch)
      ensures level == old(level) + 1 && uniqueId == old(uniqueId) + 1
      ensures old(Valid(log)) ==> Valid(log + [branch])
    {
      branch := Branch(None, 0, 0, kind, unreachable);
      if currentBranch.Some? {
        branch := branch.(parent := currentBranch);
      }
      branch := branch.(id := uniqueId, level := level);
      currentBranch := Some(branch);
      level := level + 1;
      uniqueId := uniqueId + 1;
      if branch.kind == Root {
        rootBranch := Some(branch);
      }
      if old(Valid(log)) {
        if branch.parent.Some? {
          RecordedIsWellFormed(log, branch.parent.value);
        }
        HistoryExtends(log, branch);
      }
    }

    /** The parent of the branch becomes current; closing the current branch undoes its opening. */
    method RemoveBranch(branch: Branch, ghost log: seq<Branch>)
      modifies this
      ensures currentBranch == branch.parent && level == old(level) - 1
      ensures uniqueId == old(uniqueId) && rootBranch == old(rootBranch)
      ensures old(Valid(log)) && old(currentBranch) == Some(branch) ==> Valid(log)
    {
      currentBranch := branch.parent;
      level := level - 1;
      if old(Valid(log)) && old(currentBranch) == Some(branch) {
        RecordedIsWellFormed(log, branch);
      }
    }
  }
}
