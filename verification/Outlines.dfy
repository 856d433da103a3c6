/**
 What the source alone decides about the emitted code: the order of reads and assignments, the macros
 that are emitted outright, and the jumps.  The compile walk only adds the macros that depend on
 counters, the pointer checks, and the records that made a read acceptable.
 */
module Outlines {
  import opened Wrappers
  import opened Branches
  import opened Variables
  import opened Statements
  import opened Walks

  /** Macros that depend on counters or on options. */
  predicate Chosen(op: Op) {
    op !in {CallResult, CopyOnWrite, KeyInit, ValueInit, CatchCopy}
  }

  function Strip(code: seq<Code>): seq<Code> {
    if code == [] then [] else StripOf(code[0]) + Strip(code[1..])
  }

  function StripOf(c: Code): seq<Code> {
    match c
    case Emit(Init(_, op)) => if Chosen(op) then [] else [c]
    case Emit(Reading(x, _)) => [Emit(Reading(x, {}))]
    case Either(yes, no) => [Either(Strip(yes), Strip(no))]
    case Forever(b) => [Forever(Strip(b))]
    case Repeat(b, t) => [Repeat(Strip(b), Strip(t))]
    case Each(b) => [Each(Strip(b))]
    case Once(b) => [Once(Strip(b))]
    case Guarded(b, h) => [Guarded(Strip(b), Strip(h))]
    case _ => [c]
  }

  // The outline of a source text

  function Reads(xs: seq<string>): seq<Code> {
    if xs == [] then [] else [Emit(Reading(xs[0], {}))] + Reads(xs[1..])
  }

  function Steps(actions: seq<Action>, x: string): seq<Code> {
    if actions == [] then [] else Produced(actions[0], x) + Steps(actions[1..], x)
  }

  function Stored(uses: seq<string>, x: string, how: How): seq<Code> {
    Reads(uses) + Steps(Actions(how, x), x)
  }

  function Fetched(key: Option<string>, value: Option<string>): seq<Code> {
    (if key.Some? then [Emit(Init(key.value, KeyInit))] else []) +
    (if value.Some? then [Emit(Init(value.value, ValueInit))] else [])
  }

  function Outline(s: Stmt): seq<Code>
    decreases s, 1
  {
    match s
    case Evaluate(uses, throws) => Reads(uses) + if throws then [MayThrow] else []
    case Let(uses, x, how) => Stored(uses, x, how)
    case Declare(x, dataType, None) => if dataType == ScalarType then [Emit(Assigned(x))] else []
    case Declare(x, _, Some(i)) => Stored(i.uses, x, i.how)
    case If(test, _, _, _, body, _, _) => Reads(test) + [Either(OutlineAll(body), OutlineArms(s, 0))]
    case While(test, body) => [Forever(Reads(test) + [Either([Leave(Breaks)], [])] + OutlineAll(body))]
    case DoWhile(body, test) => [Repeat(OutlineAll(body), Reads(test))]
    case Loop(body) => [Forever(OutlineAll(body))]
    case For(over, key, value, body) =>
      Reads(over) + [Either([Leave(Returns)], []), Each(Fetched(key, value) + OutlineAll(body))]
    case Switch(on, hasClauses, cases, default) =>
      Reads(on) + if hasClauses then [Once(OutlineCases(cases) + OutlineAll(default))] else []
    case Try(body, catches) => [Guarded(OutlineAll(body), OutlineCatches(catches))]
    case Break => [Leave(Breaks)]
    case Continue => [Leave(Continues)]
    case Return(uses) => Reads(uses) + [Leave(Returns)]
    case Throw(uses) => Reads(uses) + [Leave(Throws)]
  }

  function OutlineAll(ss: seq<Stmt>): seq<Code>
    decreases ss, 0
  {
    if ss == [] then [] else Outline(ss[0]) + OutlineAll(ss[1..])
  }

  function OutlineArms(s: Stmt, k: nat): seq<Code>
    requires s.If? && k <= |s.elseIfs|
    decreases s, 0, |s.elseIfs| - k
  {
    if k == |s.elseIfs| then OutlineAll(s.els)
    else if s.elseIfs[k].body == [] then OutlineArms(s, k + 1)
    else [Either(OutlineAll(s.elseIfs[k].body), OutlineArms(s, k + 1))]
  }

  function OutlineCases(cases: seq<Case>): seq<Code>
    decreases cases, 0
  {
    if cases == [] then []
    else Reads(cases[0].test) + [Either(OutlineAll(cases[0].body), [])] + OutlineCases(cases[1..])
  }

  function OutlineHandlers(x: string, handlers: seq<Arm>): seq<Code>
    decreases handlers, 0
  {
    if handlers == [] then []
    else Reads([x]) + [Either(OutlineAll(handlers[0].body), [])] + OutlineHandlers(x, handlers[1..])
  }

  function OutlineCatches(catches: seq<Catch>): seq<Code>
    decreases catches, 0
  {
    if catches == [] then []
    else
      [Emit(Init(catches[0].name, CatchCopy))] + OutlineHandlers(catches[0].name, catches[0].handlers) +
      OutlineCatches(catches[1..])
  }

  // The walk emits the outline

  lemma {:induction false} StripThen(a: seq<Code>, b: seq<Code>)
    ensures Strip(a + b) == Strip(a) + Strip(b)
  {
    if a == [] {
      assert a + b == b;
    } else {
      StripThen(a[1..], b);
      assert (a + b)[1..] == a[1..] + b;
      Associates(StripOf(a[0]), Strip(a[1..]), Strip(b));
    }
  }

  lemma Associates(a: seq<Code>, b: seq<Code>, c: seq<Code>)
    ensures a + (b + c) == a + b + c
  {
  }

  lemma StripSingle(c: Code)
    ensures Strip([c]) == StripOf(c)
  {
    assert [c][1..] == [];
  }

  lemma StripClosed(a: seq<Code>, c: Code)
    ensures Strip(a + [c]) == Strip(a) + StripOf(c)
  {
    StripThen(a, [c]);
    StripSingle(c);
  }

  lemma ReadOutlined(x: string, st: State)
    requires Read(x, st).Compiled?
    ensures Strip(Read(x, st).code) == [Emit(Reading(x, {}))]
  {
    var code := Read(x, st).code;
    var last := code[|code| - 1];
    assert code == code[..|code| - 1] + [last];
    StripClosed(code[..|code| - 1], last);
    StripSingle(Emit(Init(x, CheckPointer)));
  }

  lemma {:induction false} ReadAllOutlined(xs: seq<string>, st: State)
    requires ReadAll(xs, st).Compiled?
    ensures Strip(ReadAll(xs, st).code) == Reads(xs)
  {
    if xs != [] {
      var first := Read(xs[0], st);
      ReadOutlined(xs[0], st);
      ReadAllOutlined(xs[1..], first.state);
      StripThen(first.code, ReadAll(xs[1..], first.state).code);
    }
  }

  predicate Outright(actions: seq<Action>) {
    forall a <- actions :: a.Perform? ==> !Chosen(a.op)
  }

  lemma ActOutlined(a: Action, x: string, st: State)
    requires Act(a, x, st).Compiled? && (a.Perform? ==> !Chosen(a.op))
    ensures Strip(Act(a, x, st).code) == Produced(a, x)
  {
    var code := Act(a, x, st).code;
    if code != [] {
      StripSingle(code[0]);
      assert code == [code[0]];
    }
  }

  lemma {:induction false} ActAllOutlined(actions: seq<Action>, x: string, st: State)
    requires ActAll(actions, x, st).Compiled? && Outright(actions)
    ensures Strip(ActAll(actions, x, st).code) == Steps(actions, x)
  {
    if actions != [] {
      var first := Act(actions[0], x, st);
      ActOutlined(actions[0], x, st);
      ActAllOutlined(actions[1..], x, first.state);
      StripThen(first.code, ActAll(actions[1..], x, first.state).code);
    }
  }

  lemma {:induction false} NothingProduced(actions: seq<Action>, x: string)
    requires forall a <- actions :: Produced(a, x) == []
    ensures Steps(actions, x) == []
  {
    if actions != [] {
      NothingProduced(actions[1..], x);
    }
  }

  lemma StepOf(a: Action, x: string)
    ensures Steps([a], x) == Produced(a, x)
  {
    assert [a][1..] == [];
  }

  lemma {:induction false} StepsThen(a: seq<Action>, b: seq<Action>, x: string)
    ensures Steps(a + b, x) == Steps(a, x) + Steps(b, x)
  {
    if a == [] {
      assert a + b == b;
    } else {
      StepsThen(a[1..], b, x);
      assert (a + b)[1..] == a[1..] + b;
      Associates(Produced(a[0], x), Steps(a[1..], x), Steps(b, x));
    }
  }

  lemma AssignOutlined(uses: seq<string>, x: string, how: How, st: State)
    requires Assign(uses, x, how, st).Compiled?
    ensures Strip(Assign(uses, x, how, st).code) == Stored(uses, x, how)
  {
    var read := ReadAll(uses, st);
    ReadAllOutlined(uses, st);
    ActAllOutlined(Actions(how, x), x, read.state);
    StripThen(read.code, ActAll(Actions(how, x), x, read.state).code);
  }

  lemma {:induction false} HoistOutlined(xs: seq<string>, st: State)
    requires Hoist(xs, st).Compiled?
    ensures Strip(Hoist(xs, st).code) == []
  {
    if xs != [] {
      var first := HoistOne(xs[0], st);
      if HasVariable(st, xs[0]) && st.vars[xs[0]].dataType == VariableType {
        ActAllOutlined([Initialize, SkipTwo], xs[0], st);
        NothingProduced([Initialize, SkipTwo], xs[0]);
      }
      HoistOutlined(xs[1..], first.state);
      StripThen(first.code, Hoist(xs[1..], first.state).code);
    }
  }

  lemma PlainDeclarationOutlined(x: string, dataType: DataType, st: State)
    requires Declared(x, dataType, None, st).Compiled?
    ensures Strip(Declared(x, dataType, None, st).code) == Outline(Declare(x, dataType, None))
  {
    var record := Record(if dataType == ScalarType then Zeroed else Announced);
    ActAllOutlined([record, Default], x, st);
    StepOf(record, x);
    StepOf(Default, x);
    StepsThen([record], [Default], x);
    assert [record] + [Default] == [record, Default];
  }

  lemma InitializedDeclarationOutlined(x: string, dataType: DataType, init: Initializer, st: State)
    requires Declared(x, dataType, Some(init), st).Compiled?
    ensures Strip(Declared(x, dataType, Some(init), st).code) == Stored(init.uses, x, init.how)
  {
    var marked := ActAll([Record(Announced)], x, st);
    ActAllOutlined([Record(Announced)], x, st);
    StepOf(Record(Announced), x);
    AssignOutlined(init.uses, x, init.how, marked.state);
    StripThen(marked.code, Assign(init.uses, x, init.how, marked.state).code);
  }

  lemma DeclarationOutlined(x: string, dataType: DataType, init: Option<Initializer>, st: State)
    requires Declaration(x, dataType, init, st).Compiled?
    ensures Strip(Declaration(x, dataType, init, st).code) == Outline(Declare(x, dataType, init))
  {
    var added := st.(vars := st.vars[x := NewVariable(x, dataType, st.place.branch.value)]);
    match init
    case None => PlainDeclarationOutlined(x, dataType, added);
    case Some(i) => InitializedDeclarationOutlined(x, dataType, i, added);
  }

  lemma PrepareOutlined(key: Option<string>, value: Option<string>, st: State)
    requires Prepare(key, value, st).Compiled?
    ensures Strip(Prepare(key, value, st).code) == []
  {
    var forKey, forValue := [ForceNull, Record(Target)], [ForceNull, Record(Target), Count];
    var k := ActOptional(forKey, key, st);
    if key.Some? {
      ActAllOutlined(forKey, key.value, st);
      NothingProduced(forKey, key.value);
    }
    var v := ActOptional(forValue, value, k.state);
    if value.Some? {
      ActAllOutlined(forValue, value.value, k.state);
      NothingProduced(forValue, value.value);
    }
    StripThen(k.code, v.code);
  }

  lemma FetchOutlined(key: Option<string>, value: Option<string>, st: State)
    requires Fetch(key, value, st).Compiled?
    ensures Strip(Fetch(key, value, st).code) == Fetched(key, value)
  {
    var k := ActOptional([Perform(KeyInit)], key, st);
    if key.Some? {
      ActAllOutlined([Perform(KeyInit)], key.value, st);
      StepOf(Perform(KeyInit), key.value);
    }
    var v := ActOptional([Perform(ValueInit)], value, k.state);
    if value.Some? {
      ActAllOutlined([Perform(ValueInit)], value.value, k.state);
      StepOf(Perform(ValueInit), value.value);
    }
    StripThen(k.code, v.code);
  }

  lemma {:induction false} BlockOutlined(b: Block, loop: bool, unreachable: Option<bool>, kind: BranchType, st: State)
    requires CompileBlock(b, loop, unreachable, kind, st).Compiled?
    ensures Strip(CompileBlock(b, loop, unreachable, kind, st).code) == OutlineAll(b)
    decreases b, 1
  {
    AllOutlined(b, Opened(b, loop, unreachable, kind, st));
  }

  lemma {:induction false} OptionalOutlined(b: Block, loop: bool, unreachable: Option<bool>, kind: BranchType, st: State)
    requires CompileOptional(b, loop, unreachable, kind, st).Compiled?
    ensures Strip(CompileOptional(b, loop, unreachable, kind, st).code) == OutlineAll(b)
    decreases b, 2
  {
    if b != [] {
      BlockOutlined(b, loop, unreachable, kind, st);
    }
  }

  /** What is emitted for statements is what their text says, but for the macros that depend on counters. */
  lemma {:induction false} AllOutlined(ss: seq<Stmt>, st: State)
    requires CompileAll(ss, st).Compiled?
    ensures Strip(CompileAll(ss, st).code) == OutlineAll(ss)
    decreases ss, 0
  {
    if ss != [] {
      var first := Compile(ss[0], st);
      Outlined(ss[0], st);
      AllOutlined(ss[1..], first.state);
      StripThen(first.code, CompileAll(ss[1..], first.state).code);
    }
  }

  lemma {:induction false} ArmsOutlined(s: Stmt, k: nat, st: State)
    requires s.If? && k <= |s.elseIfs| && CompileArms(s, k, st).Compiled?
    ensures Strip(CompileArms(s, k, st).code) == OutlineArms(s, k)
    decreases s, 0, |s.elseIfs| - k
  {
    if k == |s.elseIfs| {
      OptionalOutlined(s.els, false, s.unreachableElse, ConditionalFalse, st);
    } else if s.elseIfs[k].body == [] {
      ArmsOutlined(s, k + 1, st);
    } else {
      var first := CompileBlock(s.elseIfs[k].body, false, s.unreachable, ConditionalTrue, st);
      BlockOutlined(s.elseIfs[k].body, false, s.unreachable, ConditionalTrue, st);
      ArmsOutlined(s, k + 1, first.state);
      StripSingle(Either(first.code, CompileArms(s, k + 1, first.state).code));
    }
  }

  lemma ConditionOutlined(s: Stmt, st: State)
    requires s.If? && Condition(s, st).Compiled?
    ensures Strip(Condition(s, st).code) == Reads(s.test)
  {
    var test := ReadAll(s.test, st);
    ReadAllOutlined(s.test, st);
    var hoisted := MovedOut(s);
    HoistOutlined(hoisted, test.state);
    StripThen(test.code, Hoist(hoisted, test.state).code);
  }

  lemma {:induction false} IfOutlined(s: Stmt, st: State)
    requires s.If? && CompileIf(s, st).Compiled?
    ensures Strip(CompileIf(s, st).code) == Outline(s)
    decreases s, 1
  {
    var condition := Condition(s, st);
    ConditionOutlined(s, st);
    var body := CompileOptional(s.body, false, s.unreachable, ConditionalTrue, condition.state);
    OptionalOutlined(s.body, false, s.unreachable, ConditionalTrue, condition.state);
    ArmsOutlined(s, 0, body.state);
    StripClosed(condition.code, Either(body.code, CompileArms(s, 0, body.state).code));
  }

  lemma {:induction false} WhileOutlined(s: Stmt, st: State)
    requires s.While? && CompileWhile(s, st).Compiled?
    ensures Strip(CompileWhile(s, st).code) == Outline(s)
    decreases s, 0
  {
    var test := ReadAll(s.test, InCycle(st, 1));
    ReadAllOutlined(s.test, InCycle(st, 1));
    var body := CompileOptional(s.body, true, Some(false), Unknown, test.state);
    OptionalOutlined(s.body, true, Some(false), Unknown, test.state);
    var stop := Either([Leave(Breaks)], []);
    StripSingle(Leave(Breaks));
    StripClosed(test.code, stop);
    StripThen(test.code + [stop], body.code);
    StripSingle(Forever(test.code + [stop] + body.code));
  }

  lemma {:induction false} DoWhileOutlined(s: Stmt, st: State)
    requires s.DoWhile? && CompileDoWhile(s, st).Compiled?
    ensures Strip(CompileDoWhile(s, st).code) == Outline(s)
    decreases s, 0
  {
    var body := CompileOptional(s.body, false, Some(false), Unknown, InCycle(st, 1));
    OptionalOutlined(s.body, false, Some(false), Unknown, InCycle(st, 1));
    ReadAllOutlined(s.test, body.state);
    StripSingle(Repeat(body.code, ReadAll(s.test, body.state).code));
  }

  lemma {:induction false} LoopOutlined(s: Stmt, st: State)
    requires s.Loop? && CompileLoop(s, st).Compiled?
    ensures Strip(CompileLoop(s, st).code) == Outline(s)
    decreases s, 0
  {
    BlockOutlined(s.body, true, Some(false), LoopInfinite, InCycle(st, 1));
    StripSingle(CompileLoop(s, st).code[0]);
  }

  lemma {:induction false} RoundOutlined(s: Stmt, st: State)
    requires s.For? && CompileRound(s, st).Compiled?
    ensures Strip(CompileRound(s, st).code) == Fetched(s.key, s.value) + OutlineAll(s.body)
    decreases s, 0
  {
    var fetch := Fetch(s.key, s.value, st);
    FetchOutlined(s.key, s.value, st);
    OptionalOutlined(s.body, true, Some(false), Unknown, fetch.state);
    StripThen(fetch.code, CompileOptional(s.body, true, Some(false), Unknown, fetch.state).code);
  }

  lemma TraversalOutlined(s: Stmt, st: State)
    requires s.For? && Traversal(s, st).Compiled?
    ensures Strip(Traversal(s, st).code) == Reads(s.over)
  {
    var over := ReadAll(s.over, st);
    ReadAllOutlined(s.over, st);
    PrepareOutlined(s.key, s.value, over.state);
    StripThen(over.code, Prepare(s.key, s.value, over.state).code);
  }

  /** Code in front of a guarded loop. */
  lemma GuardedLoopStripped(before: seq<Code>, round: seq<Code>)
    ensures Strip(before + [Either([Leave(Returns)], []), Each(round)]) ==
            Strip(before) + [Either([Leave(Returns)], []), Each(Strip(round))]
  {
    var guard, rounds := Either([Leave(Returns)], []), Each(round);
    StripSingle(Leave(Returns));
    StripSingle(guard);
    StripClosed([guard], rounds);
    assert [guard] + [rounds] == [guard, rounds];
    StripThen(before, [guard, rounds]);
  }

  lemma {:induction false} ForOutlined(s: Stmt, st: State)
    requires s.For? && CompileFor(s, st).Compiled?
    ensures Strip(CompileFor(s, st).code) == Outline(s)
    decreases s, 1
  {
    var traversal := Traversal(s, st);
    TraversalOutlined(s, st);
    var round := CompileRound(s, InCycle(traversal.state, 1));
    RoundOutlined(s, InCycle(traversal.state, 1));
    GuardedLoopStripped(traversal.code, round.code);
  }

  lemma {:induction false} CasesOutlined(cases: seq<Case>, st: State)
    requires CompileCases(cases, st).Compiled?
    ensures Strip(CompileCases(cases, st).code) == OutlineCases(cases)
    decreases cases, 0
  {
    if cases != [] {
      var test := ReadAll(cases[0].test, st);
      ReadAllOutlined(cases[0].test, st);
      var body := CompileBlock(cases[0].body, false, Some(false), BranchType.Switch, test.state);
      BlockOutlined(cases[0].body, false, Some(false), BranchType.Switch, test.state);
      CasesOutlined(cases[1..], body.state);
      var arm := Either(body.code, []);
      StripClosed(test.code, arm);
      StripThen(test.code + [arm], CompileCases(cases[1..], body.state).code);
    }
  }

  lemma {:induction false} ClausesOutlined(s: Stmt, st: State)
    requires s.Switch? && CompileClauses(s, st).Compiled?
    ensures Strip(CompileClauses(s, st).code) == OutlineCases(s.cases) + OutlineAll(s.default)
    decreases s, 0
  {
    var cases := CompileCases(s.cases, Indented(st, 1));
    CasesOutlined(s.cases, Indented(st, 1));
    OptionalOutlined(s.default, false, Some(false), Unknown, Indented(cases.state, -1));
    var default := CompileOptional(s.default, false, Some(false), Unknown, Indented(cases.state, -1));
    StripThen(cases.code, default.code);
  }

  lemma {:induction false} SwitchOutlined(s: Stmt, st: State)
    requires s.Switch? && CompileSwitch(s, st).Compiled?
    ensures Strip(CompileSwitch(s, st).code) == Outline(s)
    decreases s, 1
  {
    var on := ReadAll(s.on, InSwitch(st, 1));
    ReadAllOutlined(s.on, InSwitch(st, 1));
    if s.hasClauses {
      ClausesOutlined(s, on.state);
      StripClosed(on.code, Once(CompileClauses(s, on.state).code));
    } else {
      assert Reads(s.on) + [] == Reads(s.on);
    }
  }

  lemma {:induction false} HandlersOutlined(x: string, handlers: seq<Arm>, st: State)
    requires CompileHandlers(x, handlers, st).Compiled?
    ensures Strip(CompileHandlers(x, handlers, st).code) == OutlineHandlers(x, handlers)
    decreases handlers, 0
  {
    if handlers != [] {
      var first := CompileHandler(x, handlers[0], st);
      HandlerOutlined(x, handlers[0], st);
      HandlersOutlined(x, handlers[1..], first.state);
      StripThen(first.code, CompileHandlers(x, handlers[1..], first.state).code);
    }
  }

  lemma {:induction false} HandlerOutlined(x: string, handler: Arm, st: State)
    requires CompileHandler(x, handler, st).Compiled?
    ensures Strip(CompileHandler(x, handler, st).code) == Reads([x]) + [Either(OutlineAll(handler.body), [])]
    decreases handler, 0
  {
    var test := ReadAll([x], st);
    ReadAllOutlined([x], st);
    var body := CompileBlock(handler.body, false, None, ConditionalTrue, test.state);
    BlockOutlined(handler.body, false, None, ConditionalTrue, test.state);
    StripClosed(test.code, Either(body.code, []));
  }

  lemma {:induction false} CatchesOutlined(catches: seq<Catch>, st: State)
    requires CompileCatches(catches, st).Compiled?
    ensures Strip(CompileCatches(catches, st).code) == OutlineCatches(catches)
    decreases catches, 0
  {
    if catches != [] {
      var c := catches[0];
      var first := CompileCatch(c, st);
      CatchOutlined(c, st);
      CatchesOutlined(catches[1..], first.state);
      StripThen(first.code, CompileCatches(catches[1..], first.state).code);
    }
  }

  lemma CaughtSteps(x: string)
    ensures Steps([ForceNull, Perform(CatchCopy), Record(Target)], x) == [Emit(Init(x, CatchCopy))]
  {
    assert [ForceNull, Perform(CatchCopy), Record(Target)] == [ForceNull] + ([Perform(CatchCopy)] + [Record(Target)]);
    StepsThen([ForceNull], [Perform(CatchCopy)] + [Record(Target)], x);
    StepsThen([Perform(CatchCopy)], [Record(Target)], x);
    StepOf(ForceNull, x);
    StepOf(Perform(CatchCopy), x);
    StepOf(Record(Target), x);
  }

  lemma {:induction false} CatchOutlined(c: Catch, st: State)
    requires CompileCatch(c, st).Compiled?
    ensures Strip(CompileCatch(c, st).code) == [Emit(Init(c.name, CatchCopy))] + OutlineHandlers(c.name, c.handlers)
    decreases c, 0
  {
    var actions := [ForceNull, Perform(CatchCopy), Record(Target)];
    CaughtSteps(c.name);
    var caught := ActAll(actions, c.name, st);
    ActAllOutlined(actions, c.name, st);
    HandlersOutlined(c.name, c.handlers, caught.state);
    StripThen(caught.code, CompileHandlers(c.name, c.handlers, caught.state).code);
  }

  lemma {:induction false} TryOutlined(s: Stmt, st: State)
    requires s.Try? && CompileTry(s, st).Compiled?
    ensures Strip(CompileTry(s, st).code) == Outline(s)
    decreases s, 0
  {
    var body := CompileOptional(s.body, false, Some(false), Unknown, st);
    OptionalOutlined(s.body, false, Some(false), Unknown, st);
    CatchesOutlined(s.catches, body.state);
    StripSingle(Guarded(body.code, CompileCatches(s.catches, body.state).code));
  }

  lemma {:induction false} Outlined(s: Stmt, st: State)
    requires Compile(s, st).Compiled?
    ensures Strip(Compile(s, st).code) == Outline(s)
    decreases s, 3
  {
    match s
    case Evaluate(uses, _) => ReadsOutlined(uses, MayThrow, st);
    case Let(uses, x, how) => AssignOutlined(uses, x, how, st);
    case Declare(x, dataType, init) => DeclarationOutlined(x, dataType, init, st);
    case If(_, _, _, _, _, _, _) => IfOutlined(s, st);
    case While(_, _) => WhileOutlined(s, st);
    case DoWhile(_, _) => DoWhileOutlined(s, st);
    case Loop(_) => LoopOutlined(s, st);
    case For(_, _, _, _) => ForOutlined(s, st);
    case Switch(_, _, _, _) => SwitchOutlined(s, st);
    case Try(_, _) => TryOutlined(s, st);
    case Break => StripSingle(Leave(Breaks));
    case Continue => StripSingle(Leave(Continues));
    case Return(uses) => ReadsOutlined(uses, Leave(Returns), st);
    case Throw(uses) => ReadsOutlined(uses, Leave(Throws), st);
  }

  lemma ReadsOutlined(uses: seq<string>, last: Code, st: State)
    requires ReadAll(uses, st).Compiled? && (last == MayThrow || last.Leave?)
    ensures Strip(ReadAll(uses, st).code) == Reads(uses)
    ensures Strip(ReadAll(uses, st).code + []) == Reads(uses)
    ensures Strip(ReadAll(uses, st).code + [last]) == Reads(uses) + [last]
  {
    var code := ReadAll(uses, st).code;
    assert code + [] == code;
    ReadAllOutlined(uses, st);
    StripClosed(code, last);
  }

  // Summaries of code survive

  lemma {:induction false} StrippedExits(code: seq<Code>)
    ensures Exits(Strip(code)) == Exits(code)
    decreases code, 0
  {
    if code != [] {
      StrippedExitsOf(code[0]);
      StrippedExits(code[1..]);
      ExitsThen(StripOf(code[0]), Strip(code[1..]));
    }
  }

  lemma {:induction false} StrippedExitsOf(c: Code)
    ensures Exits(StripOf(c)) == ExitsOf(c)
    decreases c, 1
  {
    match c
    case Either(yes, no) => StrippedExits(yes); StrippedExits(no);
    case Forever(b) => StrippedExits(b);
    case Repeat(b, t) => StrippedExits(b); StrippedExits(t);
    case Each(b) => StrippedExits(b);
    case Once(b) => StrippedExits(b);
    case Guarded(b, h) => StrippedExits(b); StrippedExits(h);
    case _ =>
      if StripOf(c) != [] {
        Single(StripOf(c)[0], "", {});
        assert StripOf(c) == [StripOf(c)[0]];
      }
  }

  lemma {:induction false} StrippedOps(code: seq<Code>, x: string, op: Op)
    requires !Chosen(op)
    ensures op in Ops(Strip(code), x) <==> op in Ops(code, x)
    decreases code, 0
  {
    if code != [] {
      StrippedOpsOf(code[0], x, op);
      StrippedOps(code[1..], x, op);
      OpsThen(StripOf(code[0]), Strip(code[1..]), x);
    }
  }

  lemma {:induction false} StrippedOpsOf(c: Code, x: string, op: Op)
    requires !Chosen(op)
    ensures op in Ops(StripOf(c), x) <==> op in OpsOf(c, x)
    decreases c, 1
  {
    match c
    case Either(yes, no) => StrippedOps(yes, x, op); StrippedOps(no, x, op);
    case Forever(b) => StrippedOps(b, x, op);
    case Repeat(b, t) => StrippedOps(b, x, op); StrippedOps(t, x, op);
    case Each(b) => StrippedOps(b, x, op);
    case Once(b) => StrippedOps(b, x, op);
    case Guarded(b, h) => StrippedOps(b, x, op); StrippedOps(h, x, op);
    case _ =>
      if StripOf(c) != [] {
        Single(StripOf(c)[0], x, {});
        assert StripOf(c) == [StripOf(c)[0]];
      }
  }
}
