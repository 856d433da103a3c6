/**
 What each statement does to the variable it is about: the macros, the counters and the records, spelled
 out by the fields and the rules of module Variables.
 */
module Effects {
  import opened Wrappers
  import opened Branches
  import opened Variables
  import opened Statements
  import opened Walks

  /** One more record of the current branch. */
  predicate RecordedAs(v: VarState, b: Branch, kind: MarkKind, w: VarState) {
    w == v.(initialized := true, marks := v.marks + [Mark(b, kind)])
  }

  /** Only x changes, to w. */
  predicate Becomes(st: State, x: string, to: State, w: VarState) {
    x in st.vars && to == st.(vars := st.vars[x := w])
  }

  /** The macro of an initialization, if it emits one, and then the value. */
  predicate Stores(code: seq<Code>, x: string, op: Option<Op>) {
    match op
    case None => code == [Emit(Assigned(x))]
    case Some(o) => code == [Emit(Init(x, o)), Emit(Assigned(x))]
  }

  /** The five ways to initialize, by their rules. */
  predicate Follows(a: Action, v: VarState, cycle: int, depth: int, e: Emission) {
    match a
    case Initialize => VariantRule(v, cycle, depth, e)
    case InitializeLiteral => LiteralRule(v, cycle, depth, e)
    case ObserveIt => ObserveRule(v, cycle, depth, e)
    case NullifyIt => NullifyRule(v, cycle, depth, e)
    case TrackIt => TrackRule(v, cycle, depth, e)
    case _ => false
  }

  lemma InitializedFollows(a: Action, v: VarState, cycle: int, depth: int)
    ensures var e := Initialized(a, v, cycle, depth);
      e.Some? <==> a in {Initialize, InitializeLiteral, ObserveIt, NullifyIt, TrackIt}
    ensures Initialized(a, v, cycle, depth).Some? ==> Follows(a, v, cycle, depth, Initialized(a, v, cycle, depth).value)
  {
    match a
    case Initialize => VariantInitializedIs(v, cycle, depth);
    case InitializeLiteral => LiteralInitializedIs(v, cycle, depth);
    case ObserveIt => VariantObservedIs(v, cycle, depth);
    case NullifyIt => VariantNullifiedIs(v, cycle, depth);
    case TrackIt => VariantTrackedIs(v, cycle, depth);
    case _ =>
  }

  lemma OneStep(a: Action, x: string, st: State)
    ensures Act(a, x, st).Compiled? ==> ActAll([a], x, st) == Act(a, x, st)
  {
    assert [a][1..] == [];
    if Act(a, x, st).Compiled? {
      assert Act(a, x, st).code + [] == Act(a, x, st).code;
    }
  }

  /** Steps one after the other. */
  lemma TwoSteps(a: Action, rest: seq<Action>, x: string, st: State)
    ensures ActAll([a] + rest, x, st) ==
            var first := Act(a, x, st);
            if first.Failed? then Failed
            else
              var more := ActAll(rest, x, first.state);
              if more.Failed? then Failed else Compiled(first.code + more.code, more.state)
  {
    assert ([a] + rest)[1..] == rest;
  }

  lemma PutTwice(st: State, x: string, v: VarState, w: VarState)
    ensures Put(Put(st, x, v), x, w) == Put(st, x, w)
  {
    assert st.vars[x := v][x := w] == st.vars[x := w];
  }

  lemma ForceFirst(rest: seq<Action>, x: string, st: State)
    ensures ActAll([ForceNull] + rest, x, st) ==
            if HasVariable(st, x) then ActAll(rest, x, Put(st, x, st.vars[x].(mustInitNull := true))) else Failed
  {
    TwoSteps(ForceNull, rest, x, st);
    if HasVariable(st, x) {
      var more := ActAll(rest, x, Put(st, x, st.vars[x].(mustInitNull := true)));
      assert more.Compiled? ==> [] + more.code == more.code;
    }
  }

  lemma CountFirst(rest: seq<Action>, x: string, st: State)
    ensures ActAll([Count] + rest, x, st) ==
            if HasVariable(st, x) then ActAll(rest, x, Put(st, x, st.vars[x].(inits := st.vars[x].inits + 1))) else Failed
  {
    TwoSteps(Count, rest, x, st);
    if HasVariable(st, x) {
      var more := ActAll(rest, x, Put(st, x, st.vars[x].(inits := st.vars[x].inits + 1)));
      assert more.Compiled? ==> [] + more.code == more.code;
    }
  }

  lemma PerformFirst(op: Op, rest: seq<Action>, x: string, st: State)
    requires HasVariable(st, x)
    ensures var more := ActAll(rest, x, st);
      ActAll([Perform(op)] + rest, x, st) == if more.Failed? then Failed else Compiled([Emit(Init(x, op))] + more.code, more.state)
  {
    TwoSteps(Perform(op), rest, x, st);
    assert st.vars[x := st.vars[x]] == st.vars;
  }

  lemma RaiseFirst(rest: seq<Action>, x: string, st: State)
    requires HasVariable(st, x)
    ensures var more := ActAll(rest, x, st);
      ActAll([Raise] + rest, x, st) == if more.Failed? then Failed else Compiled([MayThrow] + more.code, more.state)
  {
    TwoSteps(Raise, rest, x, st);
    assert st.vars[x := st.vars[x]] == st.vars;
  }

  lemma RecordDoes(kind: MarkKind, x: string, st: State)
    requires st.place.branch.Some? && Act(Record(kind), x, st).Compiled?
    ensures var r := ActAll([Record(kind)], x, st);
      && r.Compiled? && x in st.vars && x in r.state.vars && Becomes(st, x, r.state, r.state.vars[x])
      && RecordedAs(st.vars[x], st.place.branch.value, kind, r.state.vars[x])
      && r.code == if kind in {Parameter, Assignment, Zeroed} then [Emit(Assigned(x))] else []
  {
    OneStep(Record(kind), x, st);
  }

  // Assignments

  /** An assignment that initializes first: the macro by its rule, the value, and the record. */
  ghost predicate InitializesAndStores(a: Action, x: string, st: State, code: seq<Code>, to: State) {
    && x in st.vars && x in to.vars && st.place.branch.Some? && Becomes(st, x, to, to.vars[x])
    && exists e: Emission ::
         && Follows(a, st.vars[x], st.place.cycle, st.place.depth, e)
         && Stores(code, x, e.op) && RecordedAs(e.after, st.place.branch.value, Assignment, to.vars[x])
  }

  lemma InitializingLet(a: Action, x: string, st: State)
    requires a in {Initialize, InitializeLiteral, ObserveIt, NullifyIt} && st.place.branch.Some?
    requires ActAll([a, Record(Assignment)], x, st).Compiled?
    ensures var r := ActAll([a, Record(Assignment)], x, st); InitializesAndStores(a, x, st, r.code, r.state)
  {
    assert [a, Record(Assignment)] == [a] + [Record(Assignment)];
    TwoSteps(a, [Record(Assignment)], x, st);
    InitializedFollows(a, st.vars[x], st.place.cycle, st.place.depth);
    var e := Initialized(a, st.vars[x], st.place.cycle, st.place.depth).value;
    var mid := Act(a, x, st).state;
    assert mid.vars[x] == e.after;
    assert [Record(Assignment)][1..] == [];
    RecordDoes(Assignment, x, mid);
    var r := ActAll([a, Record(Assignment)], x, st);
    assert st.vars[x := e.after][x := r.state.vars[x]] == st.vars[x := r.state.vars[x]];
    assert Stores(r.code, x, e.op);
  }

  /** The result of a call is tracked; the call may throw before the value is there. */
  ghost predicate CallsAndStores(x: string, st: State, code: seq<Code>, to: State) {
    && x in st.vars && x in to.vars && st.place.branch.Some? && Becomes(st, x, to, to.vars[x])
    && code == [Emit(Init(x, CallResult)), MayThrow, Emit(Assigned(x))]
    && exists e: Emission ::
         && TrackRule(st.vars[x].(mustInitNull := true), st.place.cycle, st.place.depth, e)
         && RecordedAs(e.after, st.place.branch.value, Assignment, to.vars[x])
  }

  lemma QuietStep(a: Action, rest: seq<Action>, x: string, st: State, to: State)
    requires Act(a, x, st) == Compiled([], to)
    ensures ActAll([a] + rest, x, st) == ActAll(rest, x, to)
  {
    TwoSteps(a, rest, x, st);
    var more := ActAll(rest, x, to);
    assert more.Compiled? ==> [] + more.code == more.code;
  }

  function Tracked(v: VarState, place: Place): VarState {
    VariantTracked(v.(mustInitNull := true), place.cycle, place.depth).after
  }

  lemma TrackForced(x: string, st: State)
    requires HasVariable(st, x)
    ensures Act(TrackIt, x, Put(st, x, st.vars[x].(mustInitNull := true))) == Compiled([], Put(st, x, Tracked(st.vars[x], st.place)))
  {
    var v := st.vars[x].(mustInitNull := true);
    VariantTrackedIs(v, st.place.cycle, st.place.depth);
    PutTwice(st, x, v, Tracked(st.vars[x], st.place));
  }

  lemma ForceAndTrack(rest: seq<Action>, x: string, st: State)
    requires ActAll([ForceNull] + ([TrackIt] + rest), x, st).Compiled?
    ensures x in st.vars
    ensures ActAll([ForceNull] + ([TrackIt] + rest), x, st) == ActAll(rest, x, Put(st, x, Tracked(st.vars[x], st.place)))
  {
    TwoSteps(ForceNull, [TrackIt] + rest, x, st);
    assert HasVariable(st, x);
    var mid := Put(st, x, st.vars[x].(mustInitNull := true));
    QuietStep(ForceNull, [TrackIt] + rest, x, st, mid);
    TrackForced(x, st);
    QuietStep(TrackIt, rest, x, mid, Put(st, x, Tracked(st.vars[x], st.place)));
  }

  lemma BecomesTwice(st: State, x: string, v: VarState, to: State, w: VarState)
    requires x in st.vars && Becomes(Put(st, x, v), x, to, w)
    ensures Becomes(st, x, to, w)
  {
    PutTwice(st, x, v, w);
  }

  lemma CallingLet(x: string, st: State)
    requires st.place.branch.Some? && ActAll(Actions(Call, x), x, st).Compiled?
    ensures var r := ActAll(Actions(Call, x), x, st); CallsAndStores(x, st, r.code, r.state)
  {
    var rest := [Perform(CallResult), Raise, Record(Assignment)];
    assert Actions(Call, x) == [ForceNull] + ([TrackIt] + rest);
    ForceAndTrack(rest, x, st);
    var v := st.vars[x].(mustInitNull := true);
    VariantTrackedIs(v, st.place.cycle, st.place.depth);
    var e := VariantTracked(v, st.place.cycle, st.place.depth);
    CallAndRecord(x, Put(st, x, e.after));
    var to := ActAll(rest, x, Put(st, x, e.after)).state;
    BecomesTwice(st, x, e.after, to, to.vars[x]);
  }

  lemma CallAndRecord(x: string, st: State)
    requires st.place.branch.Some? && ActAll([Perform(CallResult), Raise, Record(Assignment)], x, st).Compiled?
    ensures x in st.vars
    ensures var r := ActAll([Perform(CallResult), Raise, Record(Assignment)], x, st);
      && r.code == [Emit(Init(x, CallResult)), MayThrow, Emit(Assigned(x))]
      && x in r.state.vars && Becomes(st, x, r.state, r.state.vars[x])
      && RecordedAs(st.vars[x], st.place.branch.value, Assignment, r.state.vars[x])
  {
    var last := [Record(Assignment)];
    assert [Perform(CallResult), Raise, Record(Assignment)] == [Perform(CallResult)] + ([Raise] + last);
    PerformFirst(CallResult, [Raise] + last, x, st);
    RaiseFirst(last, x, st);
    assert last[1..] == [];
    RecordDoes(Assignment, x, st);
  }

  /** A copy is counted and forces null; a variable copied to itself is only recorded. */
  ghost predicate CopiesAndStores(from: Option<string>, x: string, st: State, code: seq<Code>, to: State) {
    && x in st.vars && x in to.vars && st.place.branch.Some? && Becomes(st, x, to, to.vars[x])
    && if from == Some(x) then code == [] && RecordedAs(st.vars[x], st.place.branch.value, Itself, to.vars[x])
       else
         && code == [Emit(Init(x, CopyOnWrite)), Emit(Assigned(x))]
         && RecordedAs(st.vars[x].(mustInitNull := true, inits := st.vars[x].inits + 1), st.place.branch.value, Assignment, to.vars[x])
  }

  /** A copy is counted and forces null. */
  function Copied(v: VarState): VarState {
    v.(mustInitNull := true, inits := v.inits + 1)
  }

  lemma CountForced(x: string, st: State)
    requires HasVariable(st, x)
    ensures Act(Count, x, Put(st, x, st.vars[x].(mustInitNull := true))) == Compiled([], Put(st, x, Copied(st.vars[x])))
  {
    PutTwice(st, x, st.vars[x].(mustInitNull := true), Copied(st.vars[x]));
  }

  lemma ForceAndCount(rest: seq<Action>, x: string, st: State)
    requires ActAll([ForceNull] + ([Count] + rest), x, st).Compiled?
    ensures x in st.vars
    ensures ActAll([ForceNull] + ([Count] + rest), x, st) == ActAll(rest, x, Put(st, x, Copied(st.vars[x])))
  {
    TwoSteps(ForceNull, [Count] + rest, x, st);
    assert HasVariable(st, x);
    var mid := Put(st, x, st.vars[x].(mustInitNull := true));
    QuietStep(ForceNull, [Count] + rest, x, st, mid);
    CountForced(x, st);
    QuietStep(Count, rest, x, mid, Put(st, x, Copied(st.vars[x])));
  }

  lemma ProperCopy(x: string, st: State)
    requires st.place.branch.Some? && ActAll([ForceNull, Count, Perform(CopyOnWrite), Record(Assignment)], x, st).Compiled?
    ensures var r := ActAll([ForceNull, Count, Perform(CopyOnWrite), Record(Assignment)], x, st);
      CopiesAndStores(None, x, st, r.code, r.state)
  {
    var rest := [Perform(CopyOnWrite), Record(Assignment)];
    assert [ForceNull, Count, Perform(CopyOnWrite), Record(Assignment)] == [ForceNull] + ([Count] + rest);
    ForceAndCount(rest, x, st);
    var v := Copied(st.vars[x]);
    CopyAndRecord(x, Put(st, x, v));
    var to := ActAll(rest, x, Put(st, x, v)).state;
    BecomesTwice(st, x, v, to, to.vars[x]);
  }

  lemma CopyingLet(from: Option<string>, x: string, st: State)
    requires st.place.branch.Some? && ActAll(Actions(Copy(from), x), x, st).Compiled?
    ensures var r := ActAll(Actions(Copy(from), x), x, st); CopiesAndStores(from, x, st, r.code, r.state)
  {
    if from == Some(x) {
      assert [Record(Itself)][1..] == [];
      RecordDoes(Itself, x, st);
    } else {
      ProperCopy(x, st);
    }
  }

  lemma CopyAndRecord(x: string, st: State)
    requires st.place.branch.Some? && ActAll([Perform(CopyOnWrite), Record(Assignment)], x, st).Compiled?
    ensures x in st.vars
    ensures var r := ActAll([Perform(CopyOnWrite), Record(Assignment)], x, st);
      && r.code == [Emit(Init(x, CopyOnWrite)), Emit(Assigned(x))]
      && x in r.state.vars && Becomes(st, x, r.state, r.state.vars[x])
      && RecordedAs(st.vars[x], st.place.branch.value, Assignment, r.state.vars[x])
  {
    var last := [Record(Assignment)];
    assert [Perform(CopyOnWrite), Record(Assignment)] == [Perform(CopyOnWrite)] + last;
    PerformFirst(CopyOnWrite, last, x, st);
    assert last[1..] == [];
    RecordDoes(Assignment, x, st);
  }

  /** What `let x = ...;` does once its value is compiled, for every way to store it. */
  lemma LetDoes(how: How, x: string, st: State)
    requires st.place.branch.Some? && ActAll(Actions(how, x), x, st).Compiled?
    ensures var r := ActAll(Actions(how, x), x, st);
      match how
      case Scalar => Stores(r.code, x, None) && x in r.state.vars && Becomes(st, x, r.state, r.state.vars[x]) &&
                     RecordedAs(st.vars[x], st.place.branch.value, Assignment, r.state.vars[x])
      case Variant => InitializesAndStores(Initialize, x, st, r.code, r.state)
      case Literal => InitializesAndStores(InitializeLiteral, x, st, r.code, r.state)
      case Observe => InitializesAndStores(ObserveIt, x, st, r.code, r.state)
      case ObserveOrNullify => InitializesAndStores(NullifyIt, x, st, r.code, r.state)
      case Call => CallsAndStores(x, st, r.code, r.state)
      case Copy(from) => CopiesAndStores(from, x, st, r.code, r.state)
  {
    match how
    case Scalar =>
      assert [Record(Assignment)][1..] == [];
      RecordDoes(Assignment, x, st);
    case Variant => InitializingLet(Initialize, x, st);
    case Literal => InitializingLet(InitializeLiteral, x, st);
    case Observe => InitializingLet(ObserveIt, x, st);
    case ObserveOrNullify => InitializingLet(NullifyIt, x, st);
    case Call => CallingLet(x, st);
    case Copy(from) => CopyingLet(from, x, st);
  }

  /** An assignment compiles if and only if what it reads does, and its variable is visible then. */
  lemma LetFails(uses: seq<string>, x: string, how: How, st: State)
    ensures Assign(uses, x, how, st).Failed? <==> ReadAll(uses, st).Failed? || !HasVariable(ReadAll(uses, st).state, x)
  {
    var read := ReadAll(uses, st);
    if read.Compiled? {
      assert Actions(how, x) != [];
      if HasVariable(read.state, x) {
        VisibleActs(Actions(how, x), x, read.state);
      }
    }
  }

  lemma ActKeepsHome(a: Action, x: string, st: State)
    requires Act(a, x, st).Compiled?
    ensures var to := Act(a, x, st).state;
      x in to.vars && to.place == st.place && to.vars[x].home == st.vars[x].home && to.vars[x].dataType == st.vars[x].dataType
  {
    InitializedFollows(a, st.vars[x], st.place.cycle, st.place.depth);
  }

  lemma {:induction false} VisibleActs(actions: seq<Action>, x: string, st: State)
    requires HasVariable(st, x) && Record(Target) !in actions
    ensures ActAll(actions, x, st).Compiled?
  {
    if actions != [] {
      ActKeepsHome(actions[0], x, st);
      VisibleActs(actions[1..], x, Act(actions[0], x, st).state);
    }
  }

  // Declarations

  lemma RecordThenDefault(kind: MarkKind, x: string, st: State)
    requires st.place.branch.Some? && HasVariable(st, x) && kind != Target
    ensures ActAll([Record(kind), Default], x, st) ==
            Compiled(Produced(Record(kind), x), Put(st, x, DefaultEnabled(MarkedInitialized(st.vars[x], st.place.branch, kind))))
  {
    TwoSteps(Record(kind), [Default], x, st);
    var v := MarkedInitialized(st.vars[x], st.place.branch, kind);
    OneStep(Default, x, Put(st, x, v));
    PutTwice(st, x, v, DefaultEnabled(v));
    assert Produced(Record(kind), x) + [] == Produced(Record(kind), x);
    assert [Record(kind)] + [Default] == [Record(kind), Default];
  }

  /** A declaration without initializer, field by field. */
  lemma PlainDeclarationDoes(x: string, dataType: DataType, st: State)
    requires Declaration(x, dataType, None, st).Compiled?
    ensures var r, b := Declaration(x, dataType, None, st), st.place.branch.value;
      var kind := if dataType == ScalarType then Zeroed else Announced;
      && r.code == (if dataType == ScalarType then [Emit(Assigned(x))] else [])
      && x in r.state.vars && r.state == st.(vars := st.vars[x := r.state.vars[x]])
      && r.state.vars[x] == VarState(0, None, dataType != ScalarType, 0, false, true, false, dataType, dataType == ScalarType, b,
                                     x == "this_ptr" || x == "return_value", [Mark(b, kind)])
  {
    var b := st.place.branch.value;
    var kind := if dataType == ScalarType then Zeroed else Announced;
    var v := NewVariable(x, dataType, b);
    assert Encloses(b, b);
    RecordThenDefault(kind, x, Put(st, x, v));
    var marked := MarkedInitialized(v, Some(b), kind);
    DefaultEnabledIs(marked);
    PutTwice(st, x, v, DefaultEnabled(marked));
    assert [] + [Mark(b, kind)] == [Mark(b, kind)];
  }

  /** With an initializer: the declaration is recorded, and then it is an assignment. */
  lemma InitializedDeclarationDoes(x: string, dataType: DataType, init: Initializer, st: State)
    ensures var r := Declaration(x, dataType, Some(init), st);
      if x in st.vars || st.place.branch == None then r == Failed
      else
        var b := st.place.branch.value;
        var v := VarState(0, None, dataType == VariableType, 0, false, true, false, dataType, false, b,
                          x == "this_ptr" || x == "return_value", [Mark(b, Announced)]);
        r == Assign(init.uses, x, init.how, st.(vars := st.vars[x := v]))
  {
    if x !in st.vars && st.place.branch.Some? {
      var b := st.place.branch.value;
      var v := NewVariable(x, dataType, b);
      var added := st.(vars := st.vars[x := v]);
      assert Encloses(b, b);
      RecordDoes(Announced, x, added);
      var marked := ActAll([Record(Announced)], x, added).state;
      assert st.vars[x := v][x := marked.vars[x]] == st.vars[x := marked.vars[x]];
      assert [] + [Mark(b, Announced)] == [Mark(b, Announced)];
      var let := Assign(init.uses, x, init.how, marked);
      if let.Compiled? {
        assert [] + let.code == let.code;
      }
    }
  }

  // Initializations in front of an `if`

  /** Which variables: the hoisted ones that the test does not read, if there are several branches. */
  lemma {:induction false} NotReadAre(xs: seq<string>, test: seq<string>, x: string)
    ensures multiset(NotRead(xs, test))[x] == if x in test then 0 else multiset(xs)[x]
  {
    if xs != [] {
      NotReadAre(xs[1..], test, x);
      assert xs == [xs[0]] + xs[1..];
      var head := if xs[0] in test then [] else [xs[0]];
      assert multiset(head + NotRead(xs[1..], test)) == multiset(head) + multiset(NotRead(xs[1..], test));
    }
  }

  lemma MovedOutAre(s: Stmt, x: string)
    requires s.If?
    ensures multiset(MovedOut(s))[x] ==
            if s.body != [] && (s.elseIfs != [] || s.els != []) && x !in s.test then multiset(s.hoisted)[x] else 0
  {
    NotReadAre(s.hoisted, s.test, x);
  }

  /** What is done to each: initialized by the rule, and its next two initializations are swallowed. */
  lemma HoistOneDoes(x: string, st: State)
    ensures HoistOne(x, st).Compiled?
    ensures var r := HoistOne(x, st);
      if !HasVariable(st, x) || st.vars[x].dataType != VariableType then r == Compiled([], st)
      else
        exists e: Emission ::
          && VariantRule(st.vars[x], st.place.cycle, st.place.depth, e)
          && r.code == (if e.op.Some? then [Emit(Init(x, e.op.value))] else [])
          && r.state == st.(vars := st.vars[x := e.after.(skips := e.after.skips + 2)])
  {
    if HasVariable(st, x) && st.vars[x].dataType == VariableType {
      VariantInitializedIs(st.vars[x], st.place.cycle, st.place.depth);
      var e := VariantInitialized(st.vars[x], st.place.cycle, st.place.depth);
      assert [Initialize, SkipTwo] == [Initialize] + [SkipTwo];
      TwoSteps(Initialize, [SkipTwo], x, st);
      var mid := Act(Initialize, x, st).state;
      assert mid == st.(vars := st.vars[x := e.after]);
      OneStep(SkipTwo, x, mid);
      var w := e.after.(skips := e.after.skips + 2);
      assert st.vars[x := e.after][x := w] == st.vars[x := w];
      var r := HoistOne(x, st);
      assert r.code == Emitted(x, e.op) + [];
    }
  }

  // Targets

  /** Whether x can be the target of a traversal or a `catch`. */
  predicate CanBeTarget(st: State, x: string) {
    HasVariable(st, x) && st.vars[x].dataType == VariableType
  }

  function Targeted(v: VarState, b: Branch): VarState {
    v.(mustInitNull := true, initialized := true, marks := v.marks + [Mark(b, Target)])
  }

  lemma TargetForced(x: string, st: State)
    requires st.place.branch.Some? && CanBeTarget(st, x)
    ensures Act(Record(Target), x, Put(st, x, st.vars[x].(mustInitNull := true))) ==
            Compiled([], Put(st, x, Targeted(st.vars[x], st.place.branch.value)))
  {
    PutTwice(st, x, st.vars[x].(mustInitNull := true), Targeted(st.vars[x], st.place.branch.value));
  }

  /** A target is forced to null and recorded; the value of a traversal is counted, too. */
  lemma TargetDoes(x: string, value: bool, st: State)
    requires st.place.branch.Some?
    ensures var r := ActAll([ForceNull, Record(Target)] + (if value then [Count] else []), x, st);
      if !CanBeTarget(st, x) then r == Failed
      else
        var v := st.vars[x].(mustInitNull := true, initialized := true,
                             marks := st.vars[x].marks + [Mark(st.place.branch.value, Target)]);
        r == Compiled([], st.(vars := st.vars[x := if value then v.(inits := v.inits + 1) else v]))
  {
    var rest := if value then [Count] else [];
    assert [ForceNull, Record(Target)] + rest == [ForceNull] + ([Record(Target)] + rest);
    if !HasVariable(st, x) {
      TwoSteps(ForceNull, [Record(Target)] + rest, x, st);
    } else {
      var mid := Put(st, x, st.vars[x].(mustInitNull := true));
      QuietStep(ForceNull, [Record(Target)] + rest, x, st, mid);
      if st.vars[x].dataType != VariableType {
        TwoSteps(Record(Target), rest, x, mid);
      } else {
        TargetForced(x, st);
        var v := Targeted(st.vars[x], st.place.branch.value);
        QuietStep(Record(Target), rest, x, mid, Put(st, x, v));
        TargetCounted(value, x, Put(st, x, v));
        PutTwice(st, x, v, v.(inits := v.inits + 1));
      }
    }
  }

  lemma TargetCounted(value: bool, x: string, st: State)
    requires HasVariable(st, x)
    ensures ActAll(if value then [Count] else [], x, st) ==
            Compiled([], if value then Put(st, x, st.vars[x].(inits := st.vars[x].inits + 1)) else st)
  {
    if value {
      assert [Count] + [] == [Count];
      CountFirst([], x, st);
    }
  }

  /** A caught exception: forced to null, copied outright, and recorded, without being counted. */
  lemma CaughtDoes(x: string, st: State)
    requires st.place.branch.Some?
    ensures var r := ActAll([ForceNull, Perform(CatchCopy), Record(Target)], x, st);
      if !CanBeTarget(st, x) then r == Failed
      else
        var v := st.vars[x].(mustInitNull := true, initialized := true,
                             marks := st.vars[x].marks + [Mark(st.place.branch.value, Target)]);
        r == Compiled([Emit(Init(x, CatchCopy))], st.(vars := st.vars[x := v]))
  {
    var last := [Record(Target)];
    assert [ForceNull, Perform(CatchCopy), Record(Target)] == [ForceNull] + ([Perform(CatchCopy)] + last);
    ForceFirst([Perform(CatchCopy)] + last, x, st);
    if HasVariable(st, x) {
      var forced := st.vars[x].(mustInitNull := true);
      PerformFirst(CatchCopy, last, x, Put(st, x, forced));
      assert last[1..] == [];
      if st.vars[x].dataType == VariableType {
        var marked := forced.(initialized := true, marks := forced.marks + [Mark(st.place.branch.value, Target)]);
        PutTwice(st, x, forced, marked);
        OneStep(Record(Target), x, Put(st, x, forced));
        assert [Emit(Init(x, CatchCopy))] + [] == [Emit(Init(x, CatchCopy))];
      }
    }
  }

  // Jumps, and loops that must be left

  /** Breaks need a cycle or a `switch`, continues a cycle. */
  lemma JumpsCompile(st: State)
    ensures Compile(Break, st) == if st.place.cycle == 0 && st.inSwitch == 0 then Failed else Compiled([Leave(Breaks)], st)
    ensures Compile(Continue, st) == if st.place.cycle == 0 then Failed else Compiled([Leave(Continues)], st)
  {
  }

  /** The statements of a block and of the `if` and `else` blocks in it, at any depth. */
  function Surface(b: Block): seq<Stmt>
    decreases b, 0
  {
    if b == [] then [] else SurfaceOf(b[0]) + Surface(b[1..])
  }

  function SurfaceOf(s: Stmt): seq<Stmt>
    decreases s, 1
  {
    [s] + match s
      case If(_, _, _, _, body, _, els) => Surface(body) + Surface(els)
      case _ => []
  }

  /** A loop without a test compiles only if a `break`, `return` or `throw` is on its surface. */
  lemma {:induction false} HasBreakIs(b: Block)
    ensures HasBreak(b) <==> exists s <- Surface(b) :: s.Break? || s.Return? || s.Throw?
    decreases b, 0
  {
    if b != [] {
      assert b == [b[0]] + b[1..];
      HasBreakThen(b[0], b[1..]);
      if b[0].If? {
        HasBreakIs(b[0].body);
        HasBreakIs(b[0].els);
      }
      HasBreakIs(b[1..]);
      assert forall s :: s in Surface(b) <==> s in SurfaceOf(b[0]) || s in Surface(b[1..]);
      if b[0].If? {
        assert forall s :: s in SurfaceOf(b[0]) <==> s == b[0] || s in Surface(b[0].body) || s in Surface(b[0].els);
      } else {
        assert forall s :: s in SurfaceOf(b[0]) <==> s == b[0];
      }
    }
  }

  lemma HasBreakThen(s: Stmt, b: Block)
    ensures HasBreak([s] + b) <==>
            || HasBreak(b) || s.Break? || s.Return? || s.Throw?
            || (s.If? && (HasBreak(s.body) || HasBreak(s.els)))
  {
    assert s in [s] + b;
    forall t | t in b ensures t in [s] + b {
    }
    assert forall t :: t in [s] + b ==> t == s || t in b;
  }
}
