/**
 The compile walk keeps the facts of module Walks, statement by statement.
 */
module Discipline {
  import opened Wrappers
  import opened Branches
  import opened Variables
  import opened Statements
  import opened Walks

  lemma Unchanged(st: State, x: string)
    requires x in st.vars
    ensures Put(st, x, st.vars[x]) == st
  {
    assert st.vars[x := st.vars[x]] == st.vars;
  }

  lemma ViasVouch(st: State, x: string)
    requires x in st.vars && SomeGuaranteed(Vias(st.vars[x].marks, st.place.branch))
    ensures x in Known(st)
  {
    var marks := st.vars[x].marks;
    var k :| k in Vias(marks, st.place.branch) && Guaranteed(k);
    var m :| m in marks && Vouches(m, st.place.branch) && m.kind == k;
  }

  function Checked(v: VarState, checked: bool): VarState {
    if checked then v.(mustInitNull := true) else v
  }

  function Check(x: string, checked: bool): seq<Code> {
    if checked then [Emit(Init(x, CheckPointer))] else []
  }

  lemma CheckedKnown(x: string, st: State, checked: bool)
    requires x in st.vars
    ensures Known(Put(st, x, Checked(st.vars[x], checked))) == Known(st)
  {
  }

  lemma CheckKept(x: string, st: State, checked: bool)
    requires Inv(st) && x in st.vars
    ensures Kept(st, Check(x, checked), Put(st, x, Checked(st.vars[x], checked)))
  {
    Unchanged(st, x);
    if checked {
      TouchOnce(st, x, Checked(st.vars[x], checked), Init(x, CheckPointer));
      Single(Emit(Init(x, CheckPointer)), x, {});
    } else {
      Nothing(st);
    }
  }

  lemma ReadingKept(st: State, x: string, w: VarState, vias: set<MarkKind>)
    requires Inv(st) && x in st.vars && (w == st.vars[x] || w == DefaultEnabled(st.vars[x]))
    requires SomeGuaranteed(vias) ==> x in Known(st)
    ensures Kept(st, [Emit(Reading(x, vias))], Put(st, x, w))
  {
    TouchOnce(st, x, w, Reading(x, vias));
  }

  /** A read that is analysed: maybe a pointer check, the read, maybe a default value. */
  lemma ReadAnalysed(x: string, st: State, checked: bool, default: bool, vias: set<MarkKind>)
    requires Inv(st) && x in st.vars && (SomeGuaranteed(vias) ==> x in Known(st))
    ensures var w := Checked(st.vars[x], checked);
      Kept(st, Check(x, checked) + [Emit(Reading(x, vias))], Put(st, x, if default then DefaultEnabled(w) else w))
  {
    var w := Checked(st.vars[x], checked);
    var u := if default then DefaultEnabled(w) else w;
    var mid := Put(st, x, w);
    CheckKept(x, st, checked);
    CheckedKnown(x, st, checked);
    ReadingKept(mid, x, u, vias);
    PutTwice(st, x, w, u);
    KeptThen(st, Check(x, checked), mid, [Emit(Reading(x, vias))], Put(st, x, u));
  }

  lemma PutTwice(st: State, x: string, w: VarState, u: VarState)
    ensures Put(Put(st, x, w), x, u) == Put(st, x, u)
  {
    assert st.vars[x := w][x := u] == st.vars[x := u];
  }

  lemma ReadKept(x: string, st: State)
    requires Inv(st) && Read(x, st).Compiled?
    ensures Kept(st, Read(x, st).code, Read(x, st).state) && Sure(Read(x, st).code) == {}
    ensures Exits(Read(x, st).code) == {}
  {
    var v := st.vars[x];
    var r := Read(x, st);
    if v.skips > 0 || v.reserved {
      Unchanged(st, x);
      TouchOnce(st, x, v, Reading(x, {}));
      Single(Emit(Reading(x, {})), x, {});
    } else {
      var checked := st.checks && v.dataType != ScalarType && !v.localOnly;
      var verdict := Judge(v.marks, st.place.branch.value);
      var vias := if verdict.Accepted? then verdict.vias else {};
      if SomeGuaranteed(vias) {
        ViasVouch(st, x);
      }
      ReadAnalysed(x, st, checked, verdict.Tolerated? && verdict.default, vias);
      SureThen(Check(x, checked), [Emit(Reading(x, vias))]);
      ExitsThen(Check(x, checked), [Emit(Reading(x, vias))]);
      Single(Emit(Init(x, CheckPointer)), x, {});
      Single(Emit(Reading(x, vias)), x, {});
    }
  }

  lemma {:induction false} ReadAllKept(xs: seq<string>, st: State)
    requires Inv(st) && ReadAll(xs, st).Compiled?
    ensures Kept(st, ReadAll(xs, st).code, ReadAll(xs, st).state) && Sure(ReadAll(xs, st).code) == {}
    ensures KeptBlock(st, ReadAll(xs, st).code, ReadAll(xs, st).state) && Exits(ReadAll(xs, st).code) == {}
  {
    if xs == [] {
      Nothing(st);
    } else {
      var first := Read(xs[0], st);
      ReadKept(xs[0], st);
      ReadAllKept(xs[1..], first.state);
      var rest := ReadAll(xs[1..], first.state);
      KeptThen(st, first.code, first.state, rest.code, rest.state);
      SureThen(first.code, rest.code);
      ExitsThen(first.code, rest.code);
    }
  }

  /** Macros that are emitted outright are not first-time ones. */
  predicate CarefulAction(a: Action, nulled: bool, settled: bool) {
    match a
    case Perform(op) => !First(op) && op != InitBnvar && nulled && (Counted(op) ==> settled)
    case SkipTwo => settled
    case _ => true
  }

  predicate CarefulActions(actions: seq<Action>, nulled: bool, settled: bool) {
    actions == [] ||
    (&& CarefulAction(actions[0], nulled, settled)
     && CarefulActions(actions[1..], nulled || actions[0] == ForceNull,
                       settled || actions[0] == Count || (Counts(actions[0]))))
  }

  predicate Counts(a: Action) {
    a == Initialize || a == InitializeLiteral || a == ObserveIt || a == NullifyIt || a == TrackIt
  }

  lemma InitializedDisciplined(a: Action, v: VarState, cycle: int, depth: int)
    requires Counts(a) && Sound(v) && depth >= 1
    ensures Initialized(a, v, cycle, depth).Some? && Disciplined(v, cycle, Initialized(a, v, cycle, depth).value)
  {
    match a
    case Initialize => VariantInitializedDisciplined(v, cycle, depth);
    case InitializeLiteral => LiteralInitializedDisciplined(v, cycle, depth);
    case TrackIt => VariantTrackedDisciplined(v, cycle, depth);
    case _ => VariantObservedDisciplined(v, cycle, depth);
  }

  lemma EmissionKept(x: string, st: State, e: Emission)
    requires Inv(st) && x in st.vars && Disciplined(st.vars[x], st.place.cycle, e)
    ensures Kept(st, Emitted(x, e.op), Put(st, x, e.after)) && Settled(e.after)
  {
    if e.op.Some? {
      TouchOnce(st, x, e.after, Init(x, e.op.value));
    } else {
      TouchSilently(st, x, e.after);
    }
  }

  lemma RecordKept(kind: MarkKind, x: string, st: State)
    requires Inv(st) && Act(Record(kind), x, st).Compiled?
    ensures Kept(st, Act(Record(kind), x, st).code, Act(Record(kind), x, st).state)
  {
    var w := MarkedInitialized(st.vars[x], st.place.branch, kind);
    var code := Produced(Record(kind), x);
    forall y ensures Ops(code, y) == {} && Ordered(code, y) {
      Single(Emit(Assigned(x)), y, Known(st));
    }
    Single(Emit(Assigned(x)), x, Known(st));
    Touch(st, x, w, code);
  }

  predicate Plain(a: Action) {
    !Counts(a) && !a.Record?
  }

  lemma UpdatedLater(a: Action, v: VarState, branch: Option<Branch>)
    requires Plain(a) && Sound(v) && (a == SkipTwo ==> Settled(v))
    ensures var w := Updated(a, v, branch); Sound(w) && Later(v, w) && w.marks == v.marks
  {
  }

  lemma PlainKept(a: Action, x: string, st: State)
    requires Inv(st) && Act(a, x, st).Compiled? && Plain(a) && CarefulAction(a, Null(st, x), SettledIn(st, x))
    ensures Kept(st, Act(a, x, st).code, Act(a, x, st).state)
  {
    var w := Updated(a, st.vars[x], st.place.branch);
    UpdatedLater(a, st.vars[x], st.place.branch);
    if a.Perform? {
      TouchOnce(st, x, w, Init(x, a.op));
    } else if a.Raise? {
      TouchAtom(st, x, w, MayThrow);
    } else {
      TouchSilently(st, x, w);
    }
  }

  lemma ActKept(a: Action, x: string, st: State)
    requires Inv(st) && st.place.depth >= 1 && Act(a, x, st).Compiled? && CarefulAction(a, Null(st, x), SettledIn(st, x))
    ensures Kept(st, Act(a, x, st).code, Act(a, x, st).state)
    ensures a == ForceNull ==> Null(Act(a, x, st).state, x)
    ensures a == Count || Counts(a) ==> SettledIn(Act(a, x, st).state, x)
  {
    var v := st.vars[x];
    if Counts(a) {
      var cycle, depth := st.place.cycle, st.place.depth;
      InitializedDisciplined(a, v, cycle, depth);
      EmissionKept(x, st, Initialized(a, v, cycle, depth).value);
    } else if a.Record? {
      RecordKept(a.kind, x, st);
    } else {
      PlainKept(a, x, st);
    }
  }

  lemma {:induction false} ActAllKept(actions: seq<Action>, x: string, st: State, nulled: bool, settled: bool)
    requires Inv(st) && st.place.depth >= 1 && ActAll(actions, x, st).Compiled?
    requires CarefulActions(actions, nulled, settled)
    requires (nulled ==> Null(st, x)) && (settled ==> SettledIn(st, x))
    ensures Kept(st, ActAll(actions, x, st).code, ActAll(actions, x, st).state)
    ensures nulled || ForceNull in actions ==> Null(ActAll(actions, x, st).state, x)
    ensures settled || Count in actions ==> SettledIn(ActAll(actions, x, st).state, x)
  {
    if actions == [] {
      Nothing(st);
    } else {
      var a := actions[0];
      var first := Act(a, x, st);
      ActKept(a, x, st);
      var nulledAfter := nulled || a == ForceNull;
      var settledAfter := settled || a == Count || Counts(a);
      ActAllKept(actions[1..], x, first.state, nulledAfter, settledAfter);
      var rest := ActAll(actions[1..], x, first.state);
      KeptThen(st, first.code, first.state, rest.code, rest.state);
    }
  }

  lemma AssignKept(uses: seq<string>, x: string, how: How, st: State)
    requires Inv(st) && st.place.depth >= 1 && Assign(uses, x, how, st).Compiled?
    ensures Kept(st, Assign(uses, x, how, st).code, Assign(uses, x, how, st).state)
  {
    var read := ReadAll(uses, st);
    ReadAllKept(uses, st);
    ActionsAreCareful(how, x);
    ActAllKept(Actions(how, x), x, read.state, false, false);
    var done := ActAll(Actions(how, x), x, read.state);
    KeptThen(st, read.code, read.state, done.code, done.state);
  }

  lemma ActionsAreCareful(how: How, x: string)
    ensures CarefulActions(Actions(how, x), false, false)
  {
    var a := Actions(how, x);
    if how == Call {
      assert CarefulActions([Raise, Record(Assignment)], true, true);
      assert a[1..][1..][1..] == [Raise, Record(Assignment)];
      assert a[1..][1..] == [Perform(CallResult), Raise, Record(Assignment)];
      assert CarefulActions(a[1..][1..], true, true);
    } else if how.Copy? && how.from != Some(x) {
      assert CarefulActions([Record(Assignment)], true, true);
      assert a[1..][1..][1..] == [Record(Assignment)];
      assert CarefulActions(a[1..][1..], true, true);
    }
  }

  lemma HoistOneKept(x: string, st: State)
    requires Inv(st) && st.place.depth >= 1 && HoistOne(x, st).Compiled?
    ensures Kept(st, HoistOne(x, st).code, HoistOne(x, st).state)
  {
    if HasVariable(st, x) && st.vars[x].dataType == VariableType {
      var actions := [Initialize, SkipTwo];
      assert actions[1..] == [SkipTwo];
      ActAllKept(actions, x, st, false, false);
    } else {
      Nothing(st);
    }
  }

  lemma {:induction false} HoistKept(xs: seq<string>, st: State)
    requires Inv(st) && st.place.depth >= 1 && Hoist(xs, st).Compiled?
    ensures Kept(st, Hoist(xs, st).code, Hoist(xs, st).state)
  {
    if xs == [] {
      Nothing(st);
    } else {
      var first := HoistOne(xs[0], st);
      HoistOneKept(xs[0], st);
      HoistKept(xs[1..], first.state);
      var rest := Hoist(xs[1..], first.state);
      KeptThen(st, first.code, first.state, rest.code, rest.state);
    }
  }

  /** What is moved in front of an `if` is nothing that its test reads, so it may run before or after the test. */
  lemma {:induction false} HoistsAvoidTest(xs: seq<string>, test: seq<string>, st: State, x: string)
    requires x in test && Hoist(NotRead(xs, test), st).Compiled?
    ensures Ops(Hoist(NotRead(xs, test), st).code, x) == {} && Sure(Hoist(NotRead(xs, test), st).code) == {}
  {
    if xs != [] {
      if xs[0] in test {
        assert [] + NotRead(xs[1..], test) == NotRead(xs[1..], test);
        HoistsAvoidTest(xs[1..], test, st, x);
      } else {
        var rest := NotRead(xs[1..], test);
        assert ([xs[0]] + rest)[1..] == rest;
        var first := HoistOne(xs[0], st);
        HoistAvoids(xs[0], st, x);
        HoistsAvoidTest(xs[1..], test, first.state, x);
        OpsThen(first.code, Hoist(rest, first.state).code, x);
        SureThen(first.code, Hoist(rest, first.state).code);
      }
    }
  }

  lemma HoistAvoids(y: string, st: State, x: string)
    requires x != y && HoistOne(y, st).Compiled?
    ensures Ops(HoistOne(y, st).code, x) == {} && Sure(HoistOne(y, st).code) == {}
  {
    if HasVariable(st, y) && st.vars[y].dataType == VariableType {
      var op := VariantInitialized(st.vars[y], st.place.cycle, st.place.depth).op;
      var first := Act(Initialize, y, st);
      assert [Initialize, SkipTwo][1..] == [SkipTwo] && [SkipTwo][1..] == [];
      assert ActAll([SkipTwo], y, first.state).code == [] + [];
      assert HoistOne(y, st).code == Emitted(y, op) + [];
      if op.Some? {
        Single(Emit(Init(y, op.value)), x, {});
      }
    }
  }

  lemma AddedFacts(st: State, x: string, w: VarState)
    requires Inv(st) && x !in st.vars && Sound(w) && w.marks == [] && Some(w.home) == st.place.branch
    ensures Facts(st, [], Put(st, x, w)) && Known(Put(st, x, w)) == Known(st)
  {
  }

  lemma AddedThen(st: State, x: string, w: VarState, code: seq<Code>, to: State)
    requires Inv(st) && x !in st.vars && Sound(w) && w.marks == [] && Some(w.home) == st.place.branch
    requires Kept(Put(st, x, w), code, to)
    ensures Kept(st, code, to)
  {
    AddedFacts(st, x, w);
    AddedRecords(st, x, w, code, to);
  }

  lemma AddedRecords(st: State, x: string, w: VarState, code: seq<Code>, to: State)
    requires Inv(st) && x !in st.vars && Facts(st, [], Put(st, x, w)) && Facts(Put(st, x, w), code, to)
    ensures forall y :: Initializes(y, st, code, to) && Records(y, st, to)
  {
    var added := Put(st, x, w);
    forall y ensures Initializes(y, st, code, to) && Records(y, st, to) {
      assert Initializes(y, added, code, to) && Records(y, st, added) && Records(y, added, to);
      RecordsThen(y, st, added, to);
    }
  }

  lemma DeclaredKept(x: string, dataType: DataType, init: Option<Initializer>, st: State)
    requires Inv(st) && st.place.depth >= 1 && Declared(x, dataType, init, st).Compiled?
    ensures Kept(st, Declared(x, dataType, init, st).code, Declared(x, dataType, init, st).state)
  {
    match init
    case None =>
      var actions := [Record(if dataType == ScalarType then Zeroed else Announced), Default];
      assert actions[1..] == [Default];
      ActAllKept(actions, x, st, false, false);
    case Some(i) =>
      var actions := [Record(Announced)];
      var marked := ActAll(actions, x, st);
      ActAllKept(actions, x, st, false, false);
      AssignKept(i.uses, x, i.how, marked.state);
      var let := Assign(i.uses, x, i.how, marked.state);
      KeptThen(st, marked.code, marked.state, let.code, let.state);
  }

  lemma DeclarationKept(x: string, dataType: DataType, init: Option<Initializer>, st: State)
    requires Inv(st) && st.place.depth >= 1 && Declaration(x, dataType, init, st).Compiled?
    ensures var r := Declaration(x, dataType, init, st); Kept(st, r.code, r.state)
  {
    var w := NewVariable(x, dataType, st.place.branch.value);
    var added := Put(st, x, w);
    AddedFacts(st, x, w);
    DeclaredKept(x, dataType, init, added);
    var r := Declared(x, dataType, init, added);
    AddedThen(st, x, w, r.code, r.state);
  }

  /** A declaration without initializer counts as a value exactly where the prologue stores one. */
  lemma ScalarsAreZeroed(x: string, dataType: DataType, st: State)
    requires Declaration(x, dataType, None, st).Compiled?
    ensures x in Declaration(x, dataType, None, st).state.vars
    ensures var v := Declaration(x, dataType, None, st).state.vars[x];
      && (v.zeroed <==> dataType == ScalarType)
      && (VouchedFor(v.marks, st.place.branch) <==> v.zeroed) && (!v.zeroed ==> v.mustInitNull)
  {
    var branch := st.place.branch.value;
    var kind := if dataType == ScalarType then Zeroed else Announced;
    var v := NewVariable(x, dataType, branch);
    var w := MarkedInitialized(v, st.place.branch, kind);
    var added := Put(st, x, v);
    var marked := Put(added, x, w);
    assert [Record(kind), Default][1..] == [Default] && [Default][1..] == [];
    assert Act(Record(kind), x, added).state == marked;
    assert ActAll([Default], x, marked).state == Act(Default, x, marked).state;
    var end := DefaultEnabled(w);
    assert ActAll([Record(kind), Default], x, added).state == Put(marked, x, end);
    assert end.marks == [Mark(branch, kind)] && Vouches(end.marks[0], st.place.branch);
  }

  predicate NullOptional(st: State, x: Option<string>) {
    x.Some? ==> Null(st, x.value)
  }

  predicate SettledOptional(st: State, x: Option<string>) {
    x.Some? ==> SettledIn(st, x.value)
  }

  lemma ActOptionalKept(actions: seq<Action>, x: Option<string>, st: State, nulled: bool, settled: bool)
    requires Inv(st) && st.place.depth >= 1 && CarefulActions(actions, nulled, settled)
    requires (nulled ==> NullOptional(st, x)) && (settled ==> SettledOptional(st, x))
    requires ActOptional(actions, x, st).Compiled?
    ensures Kept(st, ActOptional(actions, x, st).code, ActOptional(actions, x, st).state)
    ensures ForceNull in actions ==> NullOptional(ActOptional(actions, x, st).state, x)
    ensures Count in actions ==> SettledOptional(ActOptional(actions, x, st).state, x)
  {
    if x.Some? {
      ActAllKept(actions, x.value, st, nulled, settled);
    } else {
      Nothing(st);
    }
  }

  lemma RestoresFlags(st: State, code: seq<Code>, to: State, x: Option<string>)
    requires Kept(st, code, to)
    ensures NullOptional(st, x) ==> NullOptional(to, x)
    ensures SettledOptional(st, x) ==> SettledOptional(to, x)
  {
  }

  lemma OptionalsKept(first: seq<Action>, x: Option<string>, second: seq<Action>, y: Option<string>, st: State, to: bool)
    requires Inv(st) && st.place.depth >= 1
    requires CarefulActions(first, to, false) && CarefulActions(second, to, to)
    requires to ==> NullOptional(st, x) && NullOptional(st, y) && SettledOptional(st, y)
    requires ActOptional(first, x, st).Compiled? && ActOptional(second, y, ActOptional(first, x, st).state).Compiled?
    ensures var k := ActOptional(first, x, st);
      var v := ActOptional(second, y, k.state);
      && Kept(st, k.code + v.code, v.state)
      && (ForceNull in first ==> NullOptional(v.state, x))
      && (ForceNull in second ==> NullOptional(v.state, y))
      && (Count in second ==> SettledOptional(v.state, y))
  {
    var k := ActOptional(first, x, st);
    ActOptionalKept(first, x, st, to, false);
    RestoresFlags(st, k.code, k.state, y);
    var v := ActOptional(second, y, k.state);
    ActOptionalKept(second, y, k.state, to, to);
    RestoresFlags(k.state, v.code, v.state, x);
    KeptThen(st, k.code, k.state, v.code, v.state);
  }

  lemma TargetsAreCareful()
    ensures CarefulActions([ForceNull, Record(Target)], false, false)
    ensures CarefulActions([ForceNull, Record(Target), Count], false, false)
    ensures CarefulActions([Perform(KeyInit)], true, false) && CarefulActions([Perform(ValueInit)], true, true)
  {
    var forKey, forValue := [ForceNull, Record(Target)], [ForceNull, Record(Target), Count];
    assert forKey[1..] == [Record(Target)] && forValue[1..] == [Record(Target), Count] && forValue[1..][1..] == [Count];
    assert [Perform(KeyInit)][1..] == [] && [Perform(ValueInit)][1..] == [];
  }

  lemma PrepareKept(key: Option<string>, value: Option<string>, st: State)
    requires Inv(st) && st.place.depth >= 1 && Prepare(key, value, st).Compiled?
    ensures Kept(st, Prepare(key, value, st).code, Prepare(key, value, st).state)
    ensures NullOptional(Prepare(key, value, st).state, key)
    ensures NullOptional(Prepare(key, value, st).state, value) && SettledOptional(Prepare(key, value, st).state, value)
  {
    TargetsAreCareful();
    var forKey, forValue := [ForceNull, Record(Target)], [ForceNull, Record(Target), Count];
    assert forKey[0] == ForceNull && forValue[0] == ForceNull && forValue[2] == Count;
    OptionalsKept(forKey, key, forValue, value, st, false);
  }

  lemma {:induction false} NoRecordNothingSure(actions: seq<Action>, x: string, st: State)
    requires ActAll(actions, x, st).Compiled? && forall a <- actions :: a.Record? ==> a.kind == Target
    ensures Sure(ActAll(actions, x, st).code) == {}
  {
    if actions != [] {
      var first := Act(actions[0], x, st);
      NoRecordNothingSure(actions[1..], x, first.state);
      SureThen(first.code, ActAll(actions[1..], x, first.state).code);
      if first.code != [] {
        assert first.code == [first.code[0]];
        Single(first.code[0], x, {});
      }
    }
  }

  lemma FetchKept(key: Option<string>, value: Option<string>, st: State)
    requires Inv(st) && st.place.depth >= 1 && Fetch(key, value, st).Compiled?
    requires NullOptional(st, key) && NullOptional(st, value) && SettledOptional(st, value)
    ensures KeptBlock(st, Fetch(key, value, st).code, Fetch(key, value, st).state)
  {
    TargetsAreCareful();
    OptionalsKept([Perform(KeyInit)], key, [Perform(ValueInit)], value, st, true);
    FetchAssignsNothing(key, value, st);
  }

  lemma FetchAssignsNothing(key: Option<string>, value: Option<string>, st: State)
    requires Fetch(key, value, st).Compiled?
    ensures Sure(Fetch(key, value, st).code) == {}
  {
    var k := ActOptional([Perform(KeyInit)], key, st);
    var v := ActOptional([Perform(ValueInit)], value, k.state);
    if key.Some? {
      NoRecordNothingSure([Perform(KeyInit)], key.value, st);
    }
    if value.Some? {
      NoRecordNothingSure([Perform(ValueInit)], value.value, k.state);
    }
    SureThen(k.code, v.code);
  }
}
