/**
 The branches that compiling a source text opens: their order, their nesting, their kinds, and what is
 known about their conditions, written down from the text alone.
 */
module Openings {
  import opened Wrappers
  import opened Branches
  import opened Variables
  import opened Statements
  import opened Walks
  import opened Discipline
  import opened WholeWalk
  import opened Initialization

  /** A branch inside `outer`. */
  function Child(outer: Branch, id: nat, kind: BranchType, unreachable: Option<bool>): Branch {
    Branch(Some(outer), outer.level + 1, id, kind, unreachable)
  }

  /** The branches of a block that is compiled even if it is empty; `id` is the next one. */
  function InBlock(b: Block, outer: Branch, id: nat, kind: BranchType, unreachable: Option<bool>): seq<Branch>
    decreases b, 1
  {
    var branch := Child(outer, id, kind, unreachable);
    [branch] + InAll(b, branch, id + 1)
  }

  function InOptional(b: Block, outer: Branch, id: nat, kind: BranchType, unreachable: Option<bool>): seq<Branch>
    decreases b, 2
  {
    if b == [] then [] else InBlock(b, outer, id, kind, unreachable)
  }

  function InAll(ss: seq<Stmt>, outer: Branch, id: nat): seq<Branch>
    decreases ss, 0
  {
    if ss == [] then []
    else
      var first := In(ss[0], outer, id);
      first + InAll(ss[1..], outer, id + |first|)
  }

  /**
   Only arms of an `if` and handlers of a `catch` are conditional, and only in an `if` the compiler may know
   the condition; the `else` branch has a flag of its own.
   */
  function In(s: Stmt, outer: Branch, id: nat): seq<Branch>
    decreases s, 3
  {
    match s
    case If(_, _, unreachable, _, body, _, _) =>
      var first := InOptional(body, outer, id, ConditionalTrue, unreachable);
      first + InArms(s, 0, outer, id + |first|)
    case While(_, body) => InOptional(body, outer, id, Unknown, Some(false))
    case DoWhile(body, _) => InOptional(body, outer, id, Unknown, Some(false))
    case Loop(body) => InBlock(body, outer, id, LoopInfinite, Some(false))
    case For(_, _, _, body) => InOptional(body, outer, id, Unknown, Some(false))
    case Switch(_, hasClauses, cases, default) =>
      if !hasClauses then []
      else
        var first := InCases(cases, outer, id);
        first + InOptional(default, outer, id + |first|, Unknown, Some(false))
    case Try(body, catches) =>
      var first := InOptional(body, outer, id, Unknown, Some(false));
      first + InCatches(catches, outer, id + |first|)
    case _ => []
  }

  function InArms(s: Stmt, k: nat, outer: Branch, id: nat): seq<Branch>
    requires s.If? && k <= |s.elseIfs|
    decreases s, 0, |s.elseIfs| - k
  {
    if k == |s.elseIfs| then InOptional(s.els, outer, id, ConditionalFalse, s.unreachableElse)
    else
      var first := InOptional(s.elseIfs[k].body, outer, id, ConditionalTrue, s.unreachable);
      first + InArms(s, k + 1, outer, id + |first|)
  }

  function InCases(cases: seq<Case>, outer: Branch, id: nat): seq<Branch>
    decreases cases, 0
  {
    if cases == [] then []
    else
      var first := InBlock(cases[0].body, outer, id, BranchType.Switch, Some(false));
      first + InCases(cases[1..], outer, id + |first|)
  }

  function InHandlers(handlers: seq<Arm>, outer: Branch, id: nat): seq<Branch>
    decreases handlers, 0
  {
    if handlers == [] then []
    else
      var first := InBlock(handlers[0].body, outer, id, ConditionalTrue, None);
      first + InHandlers(handlers[1..], outer, id + |first|)
  }

  function InCatches(catches: seq<Catch>, outer: Branch, id: nat): seq<Branch>
    decreases catches, 0
  {
    if catches == [] then []
    else
      var first := InHandlers(catches[0].handlers, outer, id);
      first + InCatches(catches[1..], outer, id + |first|)
  }

  // The walk opens exactly these

  /** The history grew by these branches, and the place is as before. */
  ghost predicate Logs(st: State, to: State, branches: seq<Branch>) {
    Inv(to) && to.place == st.place && to.log == st.log + branches
  }

  function Here(st: State): Branch
    requires st.place.branch.Some?
  {
    st.place.branch.value
  }

  function Next(st: State): nat {
    |st.log| + 1
  }

  lemma LogsThen(a: State, b: State, c: State, first: seq<Branch>, second: seq<Branch>)
    requires Logs(a, b, first) && Logs(b, c, second)
    ensures Logs(a, c, first + second)
  {
    assert a.log + first + second == a.log + (first + second);
  }

  /** Steps that only concern a variable open nothing. */
  lemma {:induction false} ActsOpenNothing(actions: seq<Action>, x: string, st: State)
    requires ActAll(actions, x, st).Compiled?
    ensures ActAll(actions, x, st).state.log == st.log
  {
    if actions != [] {
      ActsOpenNothing(actions[1..], x, Act(actions[0], x, st).state);
    }
  }

  lemma {:induction false} ReadsOpenNothing(xs: seq<string>, st: State)
    requires ReadAll(xs, st).Compiled?
    ensures ReadAll(xs, st).state.log == st.log
  {
    if xs != [] {
      ReadsOpenNothing(xs[1..], Read(xs[0], st).state);
    }
  }

  /** What is read first opens nothing. */
  lemma ReadsLog(xs: seq<string>, st: State)
    requires Inv(st) && ReadAll(xs, st).Compiled?
    ensures var to := ReadAll(xs, st).state; Logs(st, to, []) && Here(to) == Here(st) && Next(to) == Next(st)
  {
    ReadsOpenNothing(xs, st);
    ReadsRestore(xs, st);
  }

  lemma ReadsRestore(xs: seq<string>, st: State)
    requires Inv(st) && ReadAll(xs, st).Compiled?
    ensures Inv(ReadAll(xs, st).state) && ReadAll(xs, st).state.place == st.place
  {
    ReadAllKept(xs, st);
  }

  lemma NothingThen(st: State, mid: State, to: State, branches: seq<Branch>)
    requires Logs(st, mid, []) && Logs(mid, to, branches)
    ensures Logs(st, to, branches)
  {
  }

  lemma ThenNothing(st: State, mid: State, to: State, branches: seq<Branch>)
    requires Logs(st, mid, branches) && Logs(mid, to, [])
    ensures Logs(st, to, branches)
  {
  }

  /** In a raised cycle, which is lowered again. */
  lemma CycleLogs(st: State, to: State, branches: seq<Branch>)
    requires Inv(st) && Logs(InCycle(st, 1), to, branches)
    ensures Logs(st, InCycle(to, -1), branches)
  {
  }

  lemma {:induction false} HoistsOpenNothing(xs: seq<string>, st: State)
    requires Hoist(xs, st).Compiled?
    ensures Hoist(xs, st).state.log == st.log
  {
    if xs != [] {
      var first := HoistOne(xs[0], st);
      if HasVariable(st, xs[0]) && st.vars[xs[0]].dataType == VariableType {
        ActsOpenNothing([Initialize, SkipTwo], xs[0], st);
      }
      HoistsOpenNothing(xs[1..], first.state);
    }
  }

  lemma {:induction false} BlockOpens(b: Block, loop: bool, unreachable: Option<bool>, kind: BranchType, st: State)
    requires Inv(st) && !Safe(kind) && CompileBlock(b, loop, unreachable, kind, st).Compiled?
    ensures Logs(st, CompileBlock(b, loop, unreachable, kind, st).state, InBlock(b, Here(st), Next(st), kind, unreachable))
    decreases b, 1
  {
    var start := Opened(b, loop, unreachable, kind, st);
    OpenedInv(b, loop, unreachable, kind, st);
    CompileBlockKept(b, loop, unreachable, kind, st);
    AllOpen(b, start);
    var branch := Child(Here(st), Next(st), kind, unreachable);
    assert start.log == st.log + [branch];
    assert st.log + [branch] + InAll(b, branch, Next(st) + 1) == st.log + ([branch] + InAll(b, branch, Next(st) + 1));
  }

  lemma {:induction false} OptionalOpens(b: Block, loop: bool, unreachable: Option<bool>, kind: BranchType, st: State)
    requires Inv(st) && !Safe(kind) && CompileOptional(b, loop, unreachable, kind, st).Compiled?
    ensures Logs(st, CompileOptional(b, loop, unreachable, kind, st).state, InOptional(b, Here(st), Next(st), kind, unreachable))
    decreases b, 2
  {
    if b == [] {
      assert st.log + [] == st.log;
    } else {
      BlockOpens(b, loop, unreachable, kind, st);
    }
  }

  /** Compiling statements opens the branches that their text says, with consecutive ids. */
  lemma {:induction false} AllOpen(ss: seq<Stmt>, st: State)
    requires Inv(st) && st.place.depth >= 1 && CompileAll(ss, st).Compiled?
    ensures Logs(st, CompileAll(ss, st).state, InAll(ss, Here(st), Next(st)))
    decreases ss, 0
  {
    if ss == [] {
      assert st.log + [] == st.log;
    } else {
      var first := Compile(ss[0], st);
      Opens(ss[0], st);
      AllOpen(ss[1..], first.state);
      LogsThen(st, first.state, CompileAll(ss, st).state, In(ss[0], Here(st), Next(st)), InAll(ss[1..], Here(st), Next(first.state)));
    }
  }

  lemma ArmThen(s: Stmt, k: nat, st: State)
    requires s.If? && k < |s.elseIfs| && s.elseIfs[k].body != [] && CompileArms(s, k, st).Compiled?
    ensures var first := CompileBlock(s.elseIfs[k].body, false, s.unreachable, ConditionalTrue, st);
      first.Compiled? && CompileArms(s, k + 1, first.state).Compiled? &&
      CompileArms(s, k, st).state == CompileArms(s, k + 1, first.state).state
    ensures st.place.branch.Some? ==>
      var branches := InBlock(s.elseIfs[k].body, Here(st), Next(st), ConditionalTrue, s.unreachable);
      InArms(s, k, Here(st), Next(st)) == branches + InArms(s, k + 1, Here(st), Next(st) + |branches|)
  {
  }

  lemma {:induction false} ArmOpens(s: Stmt, k: nat, st: State)
    requires Inv(st) && s.If? && k < |s.elseIfs| && s.elseIfs[k].body != [] && CompileArms(s, k, st).Compiled?
    ensures Logs(st, CompileArms(s, k, st).state, InArms(s, k, Here(st), Next(st)))
    decreases s, 0, |s.elseIfs| - k, 0
  {
    ArmThen(s, k, st);
    var first := CompileBlock(s.elseIfs[k].body, false, s.unreachable, ConditionalTrue, st);
    var branches := InBlock(s.elseIfs[k].body, Here(st), Next(st), ConditionalTrue, s.unreachable);
    BlockOpens(s.elseIfs[k].body, false, s.unreachable, ConditionalTrue, st);
    ArmsOpen(s, k + 1, first.state);
    LogsThen(st, first.state, CompileArms(s, k, st).state, branches, InArms(s, k + 1, Here(st), Next(st) + |branches|));
  }

  lemma {:induction false} ArmsOpen(s: Stmt, k: nat, st: State)
    requires Inv(st) && s.If? && k <= |s.elseIfs| && CompileArms(s, k, st).Compiled?
    ensures Logs(st, CompileArms(s, k, st).state, InArms(s, k, Here(st), Next(st)))
    decreases s, 0, |s.elseIfs| - k, 1
  {
    if k == |s.elseIfs| {
      OptionalOpens(s.els, false, s.unreachableElse, ConditionalFalse, st);
    } else if s.elseIfs[k].body == [] {
      ArmsOpen(s, k + 1, st);
      assert [] + InArms(s, k + 1, Here(st), Next(st)) == InArms(s, k + 1, Here(st), Next(st));
    } else {
      ArmOpens(s, k, st);
    }
  }

  lemma ConditionOpensNothing(s: Stmt, st: State)
    requires Inv(st) && st.place.depth >= 1 && s.If? && Condition(s, st).Compiled?
    ensures Logs(st, Condition(s, st).state, [])
  {
    ConditionKept(s, st);
    ReadsOpenNothing(s.test, st);
    HoistsOpenNothing(MovedOut(s), ReadAll(s.test, st).state);
    assert st.log + [] == st.log;
  }

  lemma {:induction false} IfOpens(s: Stmt, st: State)
    requires Inv(st) && st.place.depth >= 1 && s.If? && CompileIf(s, st).Compiled?
    ensures Logs(st, CompileIf(s, st).state, In(s, Here(st), Next(st)))
    decreases s, 1
  {
    var condition := Condition(s, st);
    ConditionOpensNothing(s, st);
    var body := CompileOptional(s.body, false, s.unreachable, ConditionalTrue, condition.state);
    OptionalOpens(s.body, false, s.unreachable, ConditionalTrue, condition.state);
    ArmsOpen(s, 0, body.state);
    var first := InOptional(s.body, Here(st), Next(st), ConditionalTrue, s.unreachable);
    LogsThen(condition.state, body.state, CompileIf(s, st).state, first, InArms(s, 0, Here(st), Next(st) + |first|));
  }

  lemma {:induction false} WhileOpens(s: Stmt, st: State)
    requires Inv(st) && s.While? && CompileWhile(s, st).Compiled?
    ensures Logs(st, CompileWhile(s, st).state, InOptional(s.body, Here(st), Next(st), Unknown, Some(false)))
    decreases s, 1
  {
    var inside := InCycle(st, 1);
    InCycleInv(st, 1);
    ReadsLog(s.test, inside);
    var test := ReadAll(s.test, inside);
    OptionalOpens(s.body, true, Some(false), Unknown, test.state);
    var body := CompileOptional(s.body, true, Some(false), Unknown, test.state);
    NothingThen(inside, test.state, body.state, InOptional(s.body, Here(st), Next(st), Unknown, Some(false)));
    CycleLogs(st, body.state, InOptional(s.body, Here(st), Next(st), Unknown, Some(false)));
  }

  lemma {:induction false} DoWhileOpens(s: Stmt, st: State)
    requires Inv(st) && s.DoWhile? && CompileDoWhile(s, st).Compiled?
    ensures Logs(st, CompileDoWhile(s, st).state, InOptional(s.body, Here(st), Next(st), Unknown, Some(false)))
    decreases s, 1
  {
    var inside := InCycle(st, 1);
    InCycleInv(st, 1);
    var branches := InOptional(s.body, Here(st), Next(st), Unknown, Some(false));
    OptionalOpens(s.body, false, Some(false), Unknown, inside);
    var body := CompileOptional(s.body, false, Some(false), Unknown, inside);
    assert Logs(inside, body.state, branches);
    BodyThenTest(s.test, st, body.state, branches);
  }

  lemma BodyThenTest(xs: seq<string>, st: State, body: State, branches: seq<Branch>)
    requires Inv(st) && Logs(InCycle(st, 1), body, branches) && ReadAll(xs, body).Compiled?
    ensures Logs(st, InCycle(ReadAll(xs, body).state, -1), branches)
  {
    ReadsLog(xs, body);
    var test := ReadAll(xs, body);
    ThenNothing(InCycle(st, 1), body, test.state, branches);
    CycleLogs(st, test.state, branches);
  }

  lemma {:induction false} LoopOpens(s: Stmt, st: State)
    requires Inv(st) && s.Loop? && CompileLoop(s, st).Compiled?
    ensures Logs(st, CompileLoop(s, st).state, InBlock(s.body, Here(st), Next(st), LoopInfinite, Some(false)))
    decreases s, 1
  {
    InCycleInv(st, 1);
    BlockOpens(s.body, true, Some(false), LoopInfinite, InCycle(st, 1));
    CycleLogs(st, CompileBlock(s.body, true, Some(false), LoopInfinite, InCycle(st, 1)).state,
      InBlock(s.body, Here(st), Next(st), LoopInfinite, Some(false)));
  }

  lemma OptionalActsOpenNothing(actions: seq<Action>, x: Option<string>, st: State)
    requires ActOptional(actions, x, st).Compiled?
    ensures ActOptional(actions, x, st).state.log == st.log
  {
    if x.Some? {
      ActsOpenNothing(actions, x.value, st);
    }
  }

  lemma TraversalOpensNothing(s: Stmt, st: State)
    requires Inv(st) && st.place.depth >= 1 && s.For? && Traversal(s, st).Compiled?
    ensures Logs(st, Traversal(s, st).state, []) && Ready(s, Traversal(s, st).state)
  {
    TraversalKept(s, st);
    var over := ReadAll(s.over, st);
    ReadsOpenNothing(s.over, st);
    var k := ActOptional([ForceNull, Record(Target)], s.key, over.state);
    OptionalActsOpenNothing([ForceNull, Record(Target)], s.key, over.state);
    OptionalActsOpenNothing([ForceNull, Record(Target), Count], s.value, k.state);
  }

  lemma FetchOpensNothing(s: Stmt, st: State)
    requires Inv(st) && st.place.depth >= 1 && s.For? && Ready(s, st) && Fetch(s.key, s.value, st).Compiled?
    ensures Logs(st, Fetch(s.key, s.value, st).state, [])
  {
    FetchKept(s.key, s.value, st);
    OptionalActsOpenNothing([Perform(KeyInit)], s.key, st);
    OptionalActsOpenNothing([Perform(ValueInit)], s.value, ActOptional([Perform(KeyInit)], s.key, st).state);
  }

  lemma {:induction false} RoundOpens(s: Stmt, st: State)
    requires Inv(st) && st.place.depth >= 1 && s.For? && Ready(s, st) && CompileRound(s, st).Compiled?
    ensures Logs(st, CompileRound(s, st).state, InOptional(s.body, Here(st), Next(st), Unknown, Some(false)))
    decreases s, 0
  {
    FetchOpensNothing(s, st);
    var fetch := Fetch(s.key, s.value, st);
    OptionalOpens(s.body, true, Some(false), Unknown, fetch.state);
    NothingThen(st, fetch.state, CompileRound(s, st).state, InOptional(s.body, Here(st), Next(st), Unknown, Some(false)));
  }

  lemma {:induction false} ForOpens(s: Stmt, st: State)
    requires Inv(st) && st.place.depth >= 1 && s.For? && CompileFor(s, st).Compiled?
    ensures Logs(st, CompileFor(s, st).state, InOptional(s.body, Here(st), Next(st), Unknown, Some(false)))
    decreases s, 1
  {
    TraversalOpensNothing(s, st);
    var before := Traversal(s, st).state;
    InCycleInv(before, 1);
    RoundOpens(s, InCycle(before, 1));
    CycleLogs(before, CompileRound(s, InCycle(before, 1)).state, InOptional(s.body, Here(st), Next(st), Unknown, Some(false)));
    NothingThen(st, before, CompileFor(s, st).state, InOptional(s.body, Here(st), Next(st), Unknown, Some(false)));
  }

  lemma {:induction false} CaseOpens(c: Case, st: State)
    requires Inv(st) && ReadAll(c.test, st).Compiled?
    requires CompileBlock(c.body, false, Some(false), BranchType.Switch, ReadAll(c.test, st).state).Compiled?
    ensures Logs(st, CompileBlock(c.body, false, Some(false), BranchType.Switch, ReadAll(c.test, st).state).state,
              InBlock(c.body, Here(st), Next(st), BranchType.Switch, Some(false)))
    decreases c, 1
  {
    ReadsLog(c.test, st);
    var test := ReadAll(c.test, st);
    BlockOpens(c.body, false, Some(false), BranchType.Switch, test.state);
    NothingThen(st, test.state, CompileBlock(c.body, false, Some(false), BranchType.Switch, test.state).state,
      InBlock(c.body, Here(st), Next(st), BranchType.Switch, Some(false)));
  }

  lemma {:induction false} CasesOpen(cases: seq<Case>, st: State)
    requires Inv(st) && CompileCases(cases, st).Compiled?
    ensures Logs(st, CompileCases(cases, st).state, InCases(cases, Here(st), Next(st)))
    decreases cases, 0
  {
    if cases == [] {
      assert st.log + [] == st.log;
    } else {
      CaseOpens(cases[0], st);
      var body := CompileBlock(cases[0].body, false, Some(false), BranchType.Switch, ReadAll(cases[0].test, st).state);
      CasesOpen(cases[1..], body.state);
      LogsThen(st, body.state, CompileCases(cases, st).state,
        InBlock(cases[0].body, Here(st), Next(st), BranchType.Switch, Some(false)), InCases(cases[1..], Here(st), Next(body.state)));
    }
  }

  lemma IndentLogs(st: State, to: State, branches: seq<Branch>)
    requires Inv(st) && Logs(Indented(st, 1), to, branches)
    ensures Logs(st, Indented(to, -1), branches)
  {
    IndentedInv(to, -1);
  }

  lemma {:induction false} IndentedCasesOpen(cases: seq<Case>, st: State)
    requires Inv(st) && CompileCases(cases, Indented(st, 1)).Compiled?
    ensures Logs(st, Indented(CompileCases(cases, Indented(st, 1)).state, -1), InCases(cases, Here(st), Next(st)))
    decreases cases, 1
  {
    IndentedInv(st, 1);
    CasesOpen(cases, Indented(st, 1));
    IndentLogs(st, CompileCases(cases, Indented(st, 1)).state, InCases(cases, Here(st), Next(st)));
  }

  lemma {:induction false} ClausesOpen(s: Stmt, st: State)
    requires Inv(st) && s.Switch? && CompileClauses(s, st).Compiled?
    ensures var first := InCases(s.cases, Here(st), Next(st));
      Logs(st, CompileClauses(s, st).state, first + InOptional(s.default, Here(st), Next(st) + |first|, Unknown, Some(false)))
    decreases s, 0
  {
    IndentedCasesOpen(s.cases, st);
    var down := Indented(CompileCases(s.cases, Indented(st, 1)).state, -1);
    OptionalOpens(s.default, false, Some(false), Unknown, down);
    LogsThen(st, down, CompileClauses(s, st).state, InCases(s.cases, Here(st), Next(st)),
      InOptional(s.default, Here(st), Next(down), Unknown, Some(false)));
  }

  lemma {:induction false} SwitchOpens(s: Stmt, st: State)
    requires Inv(st) && s.Switch? && CompileSwitch(s, st).Compiled?
    ensures Logs(st, CompileSwitch(s, st).state, In(s, Here(st), Next(st)))
    decreases s, 1
  {
    RaisedInv(st);
    var raised := InSwitch(st, 1);
    ReadsLog(s.on, raised);
    var on := ReadAll(s.on, raised);
    if s.hasClauses {
      ClausesOpen(s, on.state);
      NothingThen(raised, on.state, CompileClauses(s, on.state).state, In(s, Here(st), Next(st)));
      SwitchLogs(st, CompileClauses(s, on.state).state, In(s, Here(st), Next(st)));
    }
  }

  lemma SwitchLogs(st: State, to: State, branches: seq<Branch>)
    requires Inv(st) && Logs(InSwitch(st, 1), to, branches) && to.inSwitch >= st.inSwitch + 1
    ensures Logs(st, InSwitch(to, -1), branches)
  {
  }

  lemma {:induction false} HandlerOpens(x: string, handler: Arm, st: State)
    requires Inv(st) && CompileHandler(x, handler, st).Compiled?
    ensures Logs(st, CompileHandler(x, handler, st).state, InBlock(handler.body, Here(st), Next(st), ConditionalTrue, None))
    decreases handler, 1
  {
    ReadsLog([x], st);
    var test := ReadAll([x], st);
    BlockOpens(handler.body, false, None, ConditionalTrue, test.state);
    NothingThen(st, test.state, CompileHandler(x, handler, st).state, InBlock(handler.body, Here(st), Next(st), ConditionalTrue, None));
  }

  lemma {:induction false} HandlersOpen(x: string, handlers: seq<Arm>, st: State)
    requires Inv(st) && CompileHandlers(x, handlers, st).Compiled?
    ensures Logs(st, CompileHandlers(x, handlers, st).state, InHandlers(handlers, Here(st), Next(st)))
    decreases handlers, 0
  {
    if handlers == [] {
      assert st.log + [] == st.log;
    } else {
      HandlerOpens(x, handlers[0], st);
      var first := CompileHandler(x, handlers[0], st);
      HandlersOpen(x, handlers[1..], first.state);
      LogsThen(st, first.state, CompileHandlers(x, handlers, st).state,
        InBlock(handlers[0].body, Here(st), Next(st), ConditionalTrue, None), InHandlers(handlers[1..], Here(st), Next(first.state)));
    }
  }

  lemma {:induction false} CatchesOpen(catches: seq<Catch>, st: State)
    requires Inv(st) && st.place.depth >= 1 && CompileCatches(catches, st).Compiled?
    ensures Logs(st, CompileCatches(catches, st).state, InCatches(catches, Here(st), Next(st)))
    decreases catches, 0
  {
    if catches == [] {
      assert st.log + [] == st.log;
    } else {
      var first := CompileCatch(catches[0], st);
      CatchOpens(catches[0], st);
      CatchesOpen(catches[1..], first.state);
      LogsThen(st, first.state, CompileCatches(catches, st).state,
        InHandlers(catches[0].handlers, Here(st), Next(st)), InCatches(catches[1..], Here(st), Next(first.state)));
    }
  }

  lemma {:induction false} CatchOpens(c: Catch, st: State)
    requires Inv(st) && st.place.depth >= 1 && CompileCatch(c, st).Compiled?
    ensures Logs(st, CompileCatch(c, st).state, InHandlers(c.handlers, Here(st), Next(st)))
    decreases c, 0
  {
    var caught := ActAll([ForceNull, Perform(CatchCopy), Record(Target)], c.name, st);
    CaughtOpensNothing(c.name, st);
    HandlersOpen(c.name, c.handlers, caught.state);
    NothingThen(st, caught.state, CompileCatch(c, st).state, InHandlers(c.handlers, Here(st), Next(st)));
  }

  lemma CaughtOpensNothing(x: string, st: State)
    requires Inv(st) && st.place.depth >= 1 && ActAll([ForceNull, Perform(CatchCopy), Record(Target)], x, st).Compiled?
    ensures var to := ActAll([ForceNull, Perform(CatchCopy), Record(Target)], x, st).state;
      Logs(st, to, []) && Here(to) == Here(st) && Next(to) == Next(st)
  {
    CaughtKept(x, st);
    ActsOpenNothing([ForceNull, Perform(CatchCopy), Record(Target)], x, st);
  }

  lemma {:induction false} TryOpens(s: Stmt, st: State)
    requires Inv(st) && st.place.depth >= 1 && s.Try? && CompileTry(s, st).Compiled?
    ensures Logs(st, CompileTry(s, st).state, In(s, Here(st), Next(st)))
    decreases s, 1
  {
    var body := CompileOptional(s.body, false, Some(false), Unknown, st);
    OptionalOpens(s.body, false, Some(false), Unknown, st);
    CatchesOpen(s.catches, body.state);
    LogsThen(st, body.state, CompileTry(s, st).state,
      InOptional(s.body, Here(st), Next(st), Unknown, Some(false)), InCatches(s.catches, Here(st), Next(body.state)));
  }

  predicate Simple(s: Stmt) {
    s.Evaluate? || s.Let? || s.Declare? || s.Break? || s.Continue? || s.Return? || s.Throw?
  }

  lemma SimpleKeepsLog(s: Stmt, st: State)
    requires Simple(s) && Compile(s, st).Compiled?
    ensures Compile(s, st).state.log == st.log
  {
    match s
    case Let(uses, x, how) =>
      ReadsOpenNothing(uses, st);
      ActsOpenNothing(Actions(how, x), x, ReadAll(uses, st).state);
    case Declare(x, dataType, init) => DeclarationOpensNothing(x, dataType, init, st);
    case Evaluate(uses, _) => ReadsOpenNothing(uses, st);
    case Return(uses) => ReadsOpenNothing(uses, st);
    case Throw(uses) => ReadsOpenNothing(uses, st);
    case _ =>
  }

  lemma SimpleOpensNothing(s: Stmt, st: State)
    requires Inv(st) && st.place.depth >= 1 && Simple(s) && Compile(s, st).Compiled?
    ensures Logs(st, Compile(s, st).state, [])
  {
    CompileKept(s, st);
    SimpleKeepsLog(s, st);
    assert st.log + [] == st.log;
  }

  lemma DeclarationOpensNothing(x: string, dataType: DataType, init: Option<Initializer>, st: State)
    requires Declaration(x, dataType, init, st).Compiled?
    ensures Declaration(x, dataType, init, st).state.log == st.log
  {
    var added := Put(st, x, NewVariable(x, dataType, st.place.branch.value));
    match init
    case None => ActsOpenNothing([Record(if dataType == ScalarType then Zeroed else Announced), Default], x, added);
    case Some(i) =>
      var marked := ActAll([Record(Announced)], x, added);
      ActsOpenNothing([Record(Announced)], x, added);
      ReadsOpenNothing(i.uses, marked.state);
      ActsOpenNothing(Actions(i.how, x), x, ReadAll(i.uses, marked.state).state);
  }

  lemma {:induction false} Opens(s: Stmt, st: State)
    requires Inv(st) && st.place.depth >= 1 && Compile(s, st).Compiled?
    ensures Logs(st, Compile(s, st).state, In(s, Here(st), Next(st)))
    decreases s, 3
  {
    match s
    case If(_, _, _, _, _, _, _) => IfOpens(s, st);
    case While(_, _) => WhileOpens(s, st);
    case DoWhile(_, _) => DoWhileOpens(s, st);
    case Loop(_) => LoopOpens(s, st);
    case For(_, _, _, _) => ForOpens(s, st);
    case Switch(_, _, _, _) => SwitchOpens(s, st);
    case Try(_, _) => TryOpens(s, st);
    case _ => SimpleOpensNothing(s, st);
  }

  /** The whole history of a method: the external branch, the root branch, and what the text says, in order. */
  lemma MethodOpens(b: Block, st: State)
    requires Entry(st) && CompileMethod(b, st).Compiled?
    ensures CompileMethod(b, st).state.log == [EXTERNAL] + InBlock(b, EXTERNAL, 2, Root, Some(false))
  {
    var start := Opened(b, false, Some(false), Root, st);
    EntryInv(st);
    OpenedInv(b, false, Some(false), Root, st);
    AllOpen(b, start);
    var root := Child(EXTERNAL, 2, Root, Some(false));
    assert start.log == [EXTERNAL] + [root] && Here(start) == root && Next(start) == 3;
    ClosingOpensNothing(b, st);
    assert [EXTERNAL] + [root] + InAll(b, root, 3) == [EXTERNAL] + ([root] + InAll(b, root, 3));
  }

  lemma ClosingOpensNothing(b: Block, st: State)
    requires CompileMethod(b, st).Compiled?
    ensures CompileMethod(b, st).state.log == CompileAll(b, Opened(b, false, Some(false), Root, st)).state.log
  {
  }
}
