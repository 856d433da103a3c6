/**
 When the read check rejects a read, when it gives a variable a default value, and what it emits: by the
 records of the variable and the branches they were made in.
 */
module Reads {
  import opened Wrappers
  import opened Branches
  import opened Variables
  import opened Statements
  import opened Walks
  import opened Discipline
  import opened WholeWalk

  /** Inside the branch of a condition that is never true. */
  ghost predicate InsideDead(b: Branch) {
    exists a: Branch :: Encloses(a, b) && a != b && a.kind == ConditionalTrue && a.unreachable == Some(true)
  }

  /** The branch of a condition that is never true, the `else` of one that always is, or inside such a one. */
  ghost predicate Dead(b: Branch) {
    || (b.kind == ConditionalTrue && b.unreachable == Some(true))
    || (b.kind == ConditionalFalse && b.unreachable == Some(false))
    || InsideDead(b)
  }

  /** The only record was made deeper than the current branch, where nothing makes it safe. */
  predicate MadeDeeper(b: Branch, current: Branch) {
    b != current && b.kind != Root && b.kind != External && current.level < b.level
  }

  /** The records for which a read is an error: there is one, and no run that reads can have been there. */
  ghost predicate Rejects(marks: seq<Mark>, current: Branch) {
    |marks| == 1 &&
    (Dead(marks[0].branch) ||
     (MadeDeeper(marks[0].branch, current) && marks[0].branch.kind == ConditionalFalse && marks[0].branch.unreachable == Some(true)))
  }

  /** The records for which a read makes the compiler add a default value: there is one, made in a deeper conditional. */
  ghost predicate Defaults(marks: seq<Mark>, current: Branch) {
    && |marks| == 1 && !Rejects(marks, current) && MadeDeeper(marks[0].branch, current)
    && (marks[0].branch.kind == ConditionalTrue || marks[0].branch.kind == ConditionalFalse)
  }

  /** The analysis of a read is left out for hoisted variables, and for this_ptr and return_value. */
  predicate Analysed(v: VarState) {
    v.skips == 0 && !v.reserved
  }

  lemma {:induction false} AncestorIsUnreachable(b: Branch)
    ensures UnreachableAncestor(Some(b)) <==>
            exists a: Branch :: Encloses(a, b) && a.kind == ConditionalTrue && a.unreachable == Some(true)
  {
    if b.parent.Some? {
      AncestorIsUnreachable(b.parent.value);
      forall a: Branch | Encloses(a, b) && a.kind == ConditionalTrue && a.unreachable == Some(true)
        ensures UnreachableAncestor(Some(b))
      {
        assert a == b || Encloses(a, b.parent.value);
      }
      if UnreachableAncestor(b.parent) {
        var a: Branch :| Encloses(a, b.parent.value) && a.kind == ConditionalTrue && a.unreachable == Some(true);
        assert Encloses(a, b);
      }
    }
    assert Encloses(b, b);
  }

  /** No branch is its own ancestor. */
  lemma {:induction false} Smaller(a: Branch, b: Branch)
    requires Encloses(a, b)
    ensures Ancestors(a) <= Ancestors(b)
  {
    if a != b {
      Smaller(a, b.parent.value);
    }
  }

  lemma InsideDeadIs(b: Branch)
    ensures InsideDead(b) <==> UnreachableAncestor(b.parent)
  {
    if b.parent.Some? {
      var p := b.parent.value;
      AncestorIsUnreachable(p);
      if InsideDead(b) {
        var a: Branch :| Encloses(a, b) && a != b && a.kind == ConditionalTrue && a.unreachable == Some(true);
        assert Encloses(a, p);
      }
      if UnreachableAncestor(b.parent) {
        var a: Branch :| Encloses(a, p) && a.kind == ConditionalTrue && a.unreachable == Some(true);
        Smaller(a, p);
        assert Encloses(a, b) && a != b;
      }
    }
  }

  lemma JudgeIs(marks: seq<Mark>, current: Branch)
    ensures Judge(marks, current).Rejected? <==> Rejects(marks, current)
    ensures Judge(marks, current) == Tolerated(true) <==> Defaults(marks, current)
    ensures Judge(marks, current).Accepted? <==>
            !Rejects(marks, current) &&
            exists m <- marks :: m.branch == current || m.branch.kind == Root || m.branch.kind == External
  {
    if |marks| == 1 {
      InsideDeadIs(marks[0].branch);
      assert marks[0] in marks;
    }
    forall m <- marks ensures Vouches(m, Some(current)) <==> m.branch == current || m.branch.kind == Root || m.branch.kind == External {
    }
  }

  /**
   A read is an error if and only if the variable is not declared in an enclosing branch, was never
   recorded as initialized, or is analysed and has a single record that rejects the read.
   */
  lemma ReadFails(x: string, st: State)
    ensures Read(x, st).Failed? <==>
            || x !in st.vars || st.place.branch == None || !Encloses(st.vars[x].home, st.place.branch.value)
            || !st.vars[x].initialized
            || (Analysed(st.vars[x]) && Rejects(st.vars[x].marks, st.place.branch.value))
  {
    if x in st.vars && st.place.branch.Some? {
      JudgeIs(st.vars[x].marks, st.place.branch.value);
    }
  }

  /** The branches that make a read safe, by how they came to be recorded. */
  function SafeKinds(marks: seq<Mark>, current: Branch): set<MarkKind> {
    set m <- marks | m.branch == current || m.branch.kind == Root || m.branch.kind == External :: m.kind
  }

  /** The pointer is checked: on request, for dynamic variables that are not on the stack. */
  predicate PointerChecked(st: State, v: VarState) {
    st.checks && v.dataType != ScalarType && !v.localOnly
  }

  /** What a read emits, and what it changes: only the variable, by the check and by the default value. */
  lemma ReadDoes(x: string, st: State)
    requires Read(x, st).Compiled?
    ensures var v, r := st.vars[x], Read(x, st);
      if !Analysed(v) then r == Compiled([Emit(Reading(x, {}))], st)
      else
        var current := st.place.branch.value;
        && r.code == (if PointerChecked(st, v) then [Emit(Init(x, CheckPointer))] else []) + [Emit(Reading(x, SafeKinds(v.marks, current)))]
        && x in r.state.vars && r.state == st.(vars := st.vars[x := r.state.vars[x]])
        && ReadChanges(v, r.state.vars[x], PointerChecked(st, v), Defaults(v.marks, current))
  {
    var v := st.vars[x];
    if Analysed(v) {
      var current := st.place.branch.value;
      JudgeIs(v.marks, current);
      KindsAre(v.marks, current);
    }
  }

  ghost predicate ReadChanges(v: VarState, w: VarState, checked: bool, default: bool) {
    && (w.mustInitNull <==> v.mustInitNull || checked || (default && v.dataType != ScalarType))
    && (w.localOnly <==> v.localOnly && !(default && v.dataType != ScalarType))
    && (w.zeroed <==> v.zeroed || (default && v.dataType == ScalarType))
    && w == v.(mustInitNull := w.mustInitNull, localOnly := w.localOnly, zeroed := w.zeroed)
  }

  lemma KindsAre(marks: seq<Mark>, current: Branch)
    ensures Vias(marks, Some(current)) == SafeKinds(marks, current)
    ensures !Judge(marks, current).Accepted? && !Judge(marks, current).Rejected? ==> SafeKinds(marks, current) == {}
  {
    JudgeIs(marks, current);
    forall m <- marks ensures Vouches(m, Some(current)) <==> m.branch == current || m.branch.kind == Root || m.branch.kind == External {
    }
  }

  // What follows for declared variables

  /**
   A variable declared in a block that no condition makes unreachable can be read in that block and in
   every block inside it, whatever happens to it meanwhile.
   */
  lemma DeclaredIsReadable(x: string, dataType: DataType, init: Option<Initializer>, st: State, to: State)
    requires Inv(st) && st.place.depth >= 1 && Declaration(x, dataType, init, st).Compiled? && !Dead(st.place.branch.value)
    requires Inv(to) && x in Declaration(x, dataType, init, st).state.vars && x in to.vars
    requires Later(Declaration(x, dataType, init, st).state.vars[x], to.vars[x])
    requires Encloses(st.place.branch.value, to.place.branch.value)
    ensures Read(x, to).Compiled?
  {
    FirstRecord(x, dataType, init, st);
    ReadFails(x, to);
    var d, current := st.place.branch.value, to.place.branch.value;
    RecordedIsWellFormed(to.log, current);
    AncestorsAreOrdered(d, current);
  }

  /** The first record of a declared variable is of its own branch. */
  lemma FirstRecord(x: string, dataType: DataType, init: Option<Initializer>, st: State)
    requires Inv(st) && st.place.depth >= 1 && Declaration(x, dataType, init, st).Compiled?
    ensures x in Declaration(x, dataType, init, st).state.vars
    ensures var v := Declaration(x, dataType, init, st).state.vars[x];
      v.initialized && |v.marks| > 0 && v.marks[0].branch == st.place.branch.value && v.home == st.place.branch.value
  {
    var v := NewVariable(x, dataType, st.place.branch.value);
    var added := Put(st, x, v);
    AddedFacts(st, x, v);
    match init
    case None =>
      var kind := if dataType == ScalarType then Zeroed else Announced;
      RecordThen(kind, [Default], x, added);
    case Some(i) =>
      RecordThen(Announced, [], x, added);
      var marked := ActAll([Record(Announced)], x, added);
      ActAllKept([Record(Announced)], x, added, false, false);
      AssignKept(i.uses, x, i.how, marked.state);
  }

  lemma RecordThen(kind: MarkKind, rest: seq<Action>, x: string, st: State)
    requires Inv(st) && st.place.depth >= 1 && x in st.vars && st.vars[x].marks == []
    requires CarefulActions([Record(kind)] + rest, false, false) && ActAll([Record(kind)] + rest, x, st).Compiled?
    ensures x in ActAll([Record(kind)] + rest, x, st).state.vars
    ensures var w := ActAll([Record(kind)] + rest, x, st).state.vars[x];
      w.initialized && |w.marks| > 0 && w.marks[0].branch == st.place.branch.value && w.home == st.vars[x].home
  {
    var actions := [Record(kind)] + rest;
    assert actions[0] == Record(kind) && actions[1..] == rest;
    var first := Act(Record(kind), x, st);
    RecordKept(kind, x, st);
    ActAllKept(rest, x, first.state, false, false);
    FirstMark(kind, x, st);
    var end := ActAll(rest, x, first.state).state;
    assert Later(first.state.vars[x], end.vars[x]);
  }

  lemma FirstMark(kind: MarkKind, x: string, st: State)
    requires x in st.vars && st.vars[x].marks == [] && st.place.branch.Some? && Act(Record(kind), x, st).Compiled?
    ensures x in Act(Record(kind), x, st).state.vars
    ensures var w := Act(Record(kind), x, st).state.vars[x];
      w.initialized && w.marks == [Mark(st.place.branch.value, kind)] && w.home == st.vars[x].home
  {
  }

  /** So it can be read at the start of any block opened after its declaration, at any depth. */
  lemma ReadableInBlock(x: string, dataType: DataType, init: Option<Initializer>, st: State, to: State,
                        b: Block, loop: bool, unreachable: Option<bool>, kind: BranchType)
    requires Inv(st) && st.place.depth >= 1 && Declaration(x, dataType, init, st).Compiled? && !Dead(st.place.branch.value)
    requires Inv(to) && x in Declaration(x, dataType, init, st).state.vars && x in to.vars
    requires Later(Declaration(x, dataType, init, st).state.vars[x], to.vars[x])
    requires Encloses(st.place.branch.value, to.place.branch.value)
    ensures Read(x, Opened(b, loop, unreachable, kind, to)).Compiled?
  {
    OpenedInv(b, loop, unreachable, kind, to);
    DeclaredIsReadable(x, dataType, init, st, Opened(b, loop, unreachable, kind, to));
  }
}
