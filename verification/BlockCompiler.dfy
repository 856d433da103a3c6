/**
 The compile walk over mutable state: the compilation context, its branch manager and its variables.
 Every method is proved against the function of module Statements that it carries out.
 */
module BlockCompiler {
  import opened Wrappers
  import opened Branches
  import opened Variables
  import opened Statements
  import opened Walks
  import opened Discipline
  import opened WholeWalk
  import opened Runs
  import opened Flows
  import opened Outlines
  import Initialization

  function TypeName(dataType: DataType): string {
    match dataType
    case VariableType => "variable"
    case StringOrArray => "string"
    case ScalarType => "int"
  }

  ghost function Prefixed(code: seq<Code>, r: Outcome): Outcome {
    if r.Failed? then Failed else Compiled(code + r.code, r.state)
  }

  /** One round of the hoists. */
  lemma HoistThen(xs: seq<string>, i: nat, st: State, code: seq<Code>, whole: Outcome)
    requires i < |xs| && whole == Prefixed(code, Statements.Hoist(xs[i..], st))
    ensures var first := Statements.HoistOne(xs[i], st);
      whole == if first.Failed? then Failed else Prefixed(code + first.code, Statements.Hoist(xs[i + 1..], first.state))
  {
    assert xs[i..][1..] == xs[i + 1..];
    var first := Statements.HoistOne(xs[i], st);
    if first.Compiled? {
      var rest := Statements.Hoist(xs[i + 1..], first.state);
      assert rest.Compiled? ==> code + (first.code + rest.code) == code + first.code + rest.code;
    }
  }

  /** Whether an ancestor is the branch of a condition that is never true. */
  method InUnreachable(parent: Option<Branch>) returns (unreachable: bool)
    ensures unreachable == UnreachableAncestor(parent)
  {
    var b := parent;
    while b.Some?
      invariant UnreachableAncestor(parent) == UnreachableAncestor(b)
      decreases b
    {
      if b.value.kind == ConditionalTrue && b.value.unreachable == Some(true) {
        return true;
      }
      b := b.value.parent;
    }
    return false;
  }

  /** The analysis of initialization branches, latest first. */
  method Judgement(marks: seq<Mark>, current: Branch) returns (verdict: Verdict)
    ensures verdict == Judge(marks, current)
  {
    if |marks| == 1 {
      var only := marks[0].branch;
      var unreachable := InUnreachable(only.parent);
      if only.kind == ConditionalTrue && only.unreachable == Some(true) {
        return Rejected;
      }
      if only.kind == ConditionalFalse && only.unreachable == Some(false) {
        return Rejected;
      }
      if unreachable {
        return Rejected;
      }
    }
    var found := false;
    var i := |marks|;
    while i > 0 && !found
      invariant 0 <= i <= |marks|
      invariant found ==> exists m <- marks :: Vouches(m, Some(current))
      invariant !found ==> forall k :: i <= k < |marks| ==> !Vouches(marks[k], Some(current))
      decreases i, !found
    {
      i := i - 1;
      if marks[i].branch == current || marks[i].branch.kind == Root || marks[i].branch.kind == External {
        assert Vouches(marks[i], Some(current));
        found := true;
      }
    }
    if found {
      return Accepted(Vias(marks, Some(current)));
    }
    if |marks| == 1 && current.level < marks[0].branch.level {
      var only := marks[0].branch;
      if only.kind == ConditionalTrue {
        return if only.unreachable == Some(true) then Rejected else Tolerated(true);
      }
      if only.kind == ConditionalFalse {
        return if only.unreachable == Some(true) then Rejected else Tolerated(true);
      }
    }
    return Tolerated(false);
  }

  method ActOn(a: Action, x: string, v: Variable, cycle: int, depth: int, branch: Option<Branch>) returns (code: seq<Code>)
    modifies v
    ensures match Initialized(a, old(v.State()), cycle, depth)
      case Some(e) => v.State() == e.after && code == Emitted(x, e.op)
      case None => v.State() == Updated(a, old(v.State()), branch) && code == Produced(a, x)
  {
    code := Produced(a, x);
    var op := None;
    match a {
      case Initialize =>
        op := v.InitVariant(cycle, depth);
        code := Emitted(x, op);
      case InitializeLiteral =>
        op := v.InitComplexLiteralVariant(cycle, depth);
        code := Emitted(x, op);
      case ObserveIt =>
        op := v.ObserveVariant(cycle, depth);
        code := Emitted(x, op);
      case NullifyIt => v.ObserveOrNullifyVariant(cycle, depth);
      case TrackIt => v.TrackVariant(cycle, depth);
      case ForceNull => v.SetMustInitNull();
      case Count => v.IncreaseVariantIfNull();
      case SkipTwo => v.SkipInitVariant(2);
      case Default => v.EnableDefaultAutoInitValue();
      case Record(kind) => v.SetIsInitialized(branch, kind);
      case _ =>
    }
  }

  method DeclareVariable(x: string, dataType: DataType, home: Branch) returns (v: Variable)
    ensures fresh(v) && v.State() == NewVariable(x, dataType, home)
  {
    v := new Variable(TypeName(dataType), x, home);
    if dataType == VariableType {
      v.SetMustInitNull();
      v.SetLocalOnly(false);
    }
  }

  class CompilationContext {
    const branchManager: BranchManager
    const checkInvalidReads: bool
    var symbols: map<string, Variable>
    var insideCycle: int
    var insideSwitch: int
    var currentBranch: int
    var printerLevel: int
    var cycleBlocks: seq<Block>
    ghost var log: seq<Branch>

    constructor (branchManager: BranchManager, checkInvalidReads: bool, ghost log: seq<Branch>)
      requires branchManager.uniqueId == |log| + 1
      ensures Valid() && this.branchManager == branchManager && this.log == log && symbols == map[]
      ensures insideCycle == insideSwitch == currentBranch == printerLevel == 0 && cycleBlocks == []
    {
      this.branchManager, this.checkInvalidReads, this.log := branchManager, checkInvalidReads, log;
      symbols, cycleBlocks := map[], [];
      insideCycle, insideSwitch, currentBranch, printerLevel := 0, 0, 0, 0;
    }

    ghost function Repr(): set<object>
      reads this
    {
      {this, branchManager} + symbols.Values
    }

    ghost predicate Valid()
      reads this, Repr()
    {
      && branchManager.uniqueId == |log| + 1
      && (forall x, y :: x in symbols && y in symbols && x != y ==> symbols[x] != symbols[y])
    }

    ghost function Vars(): map<string, VarState>
      reads this, symbols.Values
    {
      map x | x in symbols :: symbols[x].State()
    }

    ghost function Abs(): State
      reads this, Repr()
    {
      State(Place(branchManager.currentBranch, branchManager.level, currentBranch, printerLevel, insideCycle, cycleBlocks),
            insideSwitch, log, checkInvalidReads, Vars())
    }

    /** Whether a method did what a function on states says, if that succeeds. */
    twostate predicate Did(ok: bool, code: seq<Code>, r: Outcome)
      reads this, Repr()
    {
      && ok == r.Compiled?
      && fresh(Repr() - old(Repr()))
      && (ok ==> Valid() && code == r.code && Abs() == r.state)
    }

    /** hasVariable: found from the current branch outwards. */
    method HasVariable(x: string) returns (found: bool)
      requires Valid()
      ensures found == Statements.HasVariable(Abs(), x)
    {
      if x !in symbols || branchManager.currentBranch == None {
        return false;
      }
      var b := branchManager.currentBranch.value;
      found := b == symbols[x].home;
      while !found && b.parent.Some?
        invariant Encloses(symbols[x].home, branchManager.currentBranch.value) == (found || Encloses(symbols[x].home, b))
        invariant found ==> Encloses(symbols[x].home, branchManager.currentBranch.value)
        invariant !found ==> b != symbols[x].home
        decreases if found then 0 else 1, b
      {
        b := b.parent.value;
        found := b == symbols[x].home;
      }
    }

    twostate lemma OneChanged(x: string)
      requires old(Valid()) && symbols == old(symbols) && x in symbols
      requires forall y <- symbols :: y != x ==> unchanged(symbols[y])
      requires unchanged(this) && unchanged(branchManager)
      ensures Abs() == old(Abs()).(vars := old(Abs()).vars[x := symbols[x].State()])
      ensures Valid() && Repr() == old(Repr())
    {
      assert Vars() == old(Vars())[x := symbols[x].State()];
    }

    /** Performs one step on a variable that is visible. */
    method ActOnVisible(a: Action, x: string) returns (code: seq<Code>)
      requires Valid() && x in symbols && Statements.Act(a, x, Abs()).Compiled?
      modifies symbols[x]
      ensures var r := Statements.Act(a, x, old(Abs())); code == r.code && Abs() == r.state
      ensures Valid() && Repr() == old(Repr())
    {
      code := ActOn(a, x, symbols[x], insideCycle, currentBranch, branchManager.currentBranch);
      OneChanged(x);
    }

    /** Performs one step on a variable. */
    method Act(a: Action, x: string) returns (ok: bool, code: seq<Code>)
      requires Valid()
      modifies Repr()
      ensures Did(ok, code, Statements.Act(a, x, old(Abs())))
    {
      var found := HasVariable(x);
      if !found || (a == Record(Target) && symbols[x].dataType != VariableType) {
        return false, [];
      }
      ok := true;
      code := ActOnVisible(a, x);
    }

    /** The steps of a statement on one variable. */
    method ActAll(actions: seq<Action>, x: string) returns (ok: bool, code: seq<Code>)
      requires Valid()
      modifies Repr()
      ensures Did(ok, code, Statements.ActAll(actions, x, old(Abs())))
    {
      ok, code := true, [];
      var i := 0;
      assert actions[0..] == actions;
      while i < |actions|
        invariant 0 <= i <= |actions| && Valid() && fresh(Repr() - old(Repr()))
        invariant Statements.ActAll(actions, x, old(Abs())) == Prefixed(code, Statements.ActAll(actions[i..], x, Abs()))
      {
        var done, more := Act(actions[i], x);
        if !done {
          return false, [];
        }
        assert actions[i..][1..] == actions[i + 1..];
        code := code + more;
        i := i + 1;
      }
    }

    /** getVariableForRead */
    method Read(x: string) returns (ok: bool, code: seq<Code>)
      requires Valid()
      modifies Repr()
      ensures Did(ok, code, Statements.Read(x, old(Abs())))
    {
      var found := HasVariable(x);
      if !found || !symbols[x].initialized {
        return false, [];
      }
      var v := symbols[x];
      if v.numberSkips > 0 || v.reserved {
        return true, [Emit(Reading(x, {}))];
      }
      var current := branchManager.currentBranch.value;
      var verdict := Judgement(v.initBranches, current);
      if verdict.Rejected? {
        return false, [];
      }
      ok, code := true, [];
      if checkInvalidReads && v.dataType != ScalarType && !v.localOnly {
        v.SetMustInitNull();
        code := [Emit(Init(x, CheckPointer))];
      }
      code := code + [Emit(Reading(x, if verdict.Accepted? then verdict.vias else {}))];
      if verdict.Tolerated? && verdict.default {
        v.EnableDefaultAutoInitValue();
      }
      OneChanged(x);
    }

    method ReadAll(xs: seq<string>) returns (ok: bool, code: seq<Code>)
      requires Valid()
      modifies Repr()
      ensures Did(ok, code, Statements.ReadAll(xs, old(Abs())))
    {
      ok, code := true, [];
      var i := 0;
      assert xs[0..] == xs;
      while i < |xs|
        invariant 0 <= i <= |xs| && Valid() && fresh(Repr() - old(Repr()))
        invariant Statements.ReadAll(xs, old(Abs())) == Prefixed(code, Statements.ReadAll(xs[i..], Abs()))
      {
        var done, more := Read(xs[i]);
        if !done {
          return false, [];
        }
        assert xs[i..][1..] == xs[i + 1..];
        code := code + more;
        i := i + 1;
      }
    }

    /** `let` with a plain assignment. */
    method Assign(uses: seq<string>, x: string, how: How) returns (ok: bool, code: seq<Code>)
      requires Valid()
      modifies Repr()
      ensures Did(ok, code, Statements.Assign(uses, x, how, old(Abs())))
    {
      ok, code := ReadAll(uses);
      if ok {
        var more;
        ok, more := ActAll(Actions(how, x), x);
        code := code + more;
      }
    }

    method HoistOne(x: string) returns (ok: bool, code: seq<Code>)
      requires Valid()
      modifies Repr()
      ensures Did(ok, code, Statements.HoistOne(x, old(Abs())))
    {
      ok, code := true, [];
      var found := HasVariable(x);
      if found && symbols[x].dataType == VariableType {
        ok, code := ActAll([Initialize, SkipTwo], x);
      }
    }

    method Hoist(xs: seq<string>) returns (ok: bool, code: seq<Code>)
      requires Valid()
      modifies Repr()
      ensures Did(ok, code, Statements.Hoist(xs, old(Abs())))
    {
      ok, code := true, [];
      var i := 0;
      assert xs[0..] == xs;
      while i < |xs|
        invariant 0 <= i <= |xs| && Valid() && fresh(Repr() - old(Repr()))
        invariant Statements.Hoist(xs, old(Abs())) == Prefixed(code, Statements.Hoist(xs[i..], Abs()))
      {
        ghost var st := Abs();
        HoistThen(xs, i, st, code, Statements.Hoist(xs, old(Abs())));
        var done, more := HoistOne(xs[i]);
        if !done {
          return false, [];
        }
        code := code + more;
        i := i + 1;
      }
    }

    /** addVariable for a declaration in the current branch. */
    method AddVariable(x: string, dataType: DataType)
      requires Valid() && x !in symbols && branchManager.currentBranch.Some?
      modifies this
      ensures Valid() && fresh(Repr() - old(Repr()))
      ensures var v := NewVariable(x, dataType, branchManager.currentBranch.value);
        Abs() == old(Abs()).(vars := old(Abs()).vars[x := v])
    {
      var v := DeclareVariable(x, dataType, branchManager.currentBranch.value);
      symbols := symbols[x := v];
      assert Vars() == old(Vars())[x := v.State()];
    }

    method Declared(x: string, dataType: DataType, init: Option<Initializer>) returns (ok: bool, code: seq<Code>)
      requires Valid()
      modifies Repr()
      ensures Did(ok, code, Statements.Declared(x, dataType, init, old(Abs())))
    {
      if init == None {
        ok, code := ActAll([Record(if dataType == ScalarType then Zeroed else Announced), Default], x);
      } else {
        ok, code := ActAll([Record(Announced)], x);
        if ok {
          var more;
          ok, more := Assign(init.value.uses, x, init.value.how);
          code := code + more;
        }
      }
    }

    method Declare(x: string, dataType: DataType, init: Option<Initializer>) returns (ok: bool, code: seq<Code>)
      requires Valid()
      modifies Repr()
      ensures Did(ok, code, Declaration(x, dataType, init, old(Abs())))
    {
      if x in symbols || branchManager.currentBranch == None {
        return false, [];
      }
      AddVariable(x, dataType);
      ok, code := Declared(x, dataType, init);
    }

    method ActOptional(actions: seq<Action>, x: Option<string>) returns (ok: bool, code: seq<Code>)
      requires Valid()
      modifies Repr()
      ensures Did(ok, code, Statements.ActOptional(actions, x, old(Abs())))
    {
      ok, code := true, [];
      if x.Some? {
        ok, code := ActAll(actions, x.value);
      }
    }

    method Prepare(key: Option<string>, value: Option<string>) returns (ok: bool, code: seq<Code>)
      requires Valid()
      modifies Repr()
      ensures Did(ok, code, Statements.Prepare(key, value, old(Abs())))
    {
      ok, code := ActOptional([ForceNull, Record(Target)], key);
      if ok {
        var more;
        ok, more := ActOptional([ForceNull, Record(Target), Count], value);
        code := code + more;
      }
    }

    method Fetch(key: Option<string>, value: Option<string>) returns (ok: bool, code: seq<Code>)
      requires Valid()
      modifies Repr()
      ensures Did(ok, code, Statements.Fetch(key, value, old(Abs())))
    {
      ok, code := ActOptional([Perform(KeyInit)], key);
      if ok {
        var more;
        ok, more := ActOptional([Perform(ValueInit)], value);
        code := code + more;
      }
    }

    method OpenBlock(b: Block, loop: bool, unreachable: Option<bool>, kind: BranchType) returns (branch: Branch)
      requires Valid()
      modifies this, branchManager
      ensures Valid() && Repr() == old(Repr())
      ensures Abs() == Opened(b, loop, unreachable, kind, old(Abs())) && Abs().place.branch == Some(branch)
    {
      printerLevel := printerLevel + 1;
      currentBranch := currentBranch + 1;
      branch := branchManager.AddBranch(kind, unreachable, log);
      log := log + [branch];
      if loop {
        cycleBlocks := cycleBlocks + [b];
      }
      assert Vars() == old(Vars());
    }

    method CloseBlock(loop: bool, branch: Branch)
      requires Valid()
      modifies this, branchManager
      ensures Valid() && Repr() == old(Repr()) && Abs() == Closed(loop, branch, old(Abs()))
    {
      if loop && cycleBlocks != [] {
        cycleBlocks := cycleBlocks[..|cycleBlocks| - 1];
      }
      branchManager.RemoveBranch(branch, log);
      currentBranch := currentBranch - 1;
      printerLevel := printerLevel - 1;
      assert Vars() == old(Vars());
    }

    method Cycle(change: int)
      requires Valid()
      modifies this
      ensures Valid() && Repr() == old(Repr()) && Abs() == InCycle(old(Abs()), change)
    {
      insideCycle := insideCycle + change;
      assert Vars() == old(Vars());
    }

    method Indent(change: int)
      requires Valid()
      modifies this
      ensures Valid() && Repr() == old(Repr()) && Abs() == Indented(old(Abs()), change)
    {
      printerLevel := printerLevel + change;
      assert Vars() == old(Vars());
    }

    method EnterSwitch(change: int)
      requires Valid()
      modifies this
      ensures Valid() && Repr() == old(Repr()) && Abs() == InSwitch(old(Abs()), change)
    {
      insideSwitch := insideSwitch + change;
      assert Vars() == old(Vars());
    }

    /** StatementsBlock::compile */
    method CompileBlock(b: Block, loop: bool, unreachable: Option<bool>, kind: BranchType) returns (ok: bool, code: seq<Code>)
      requires Valid()
      modifies Repr()
      ensures Did(ok, code, Statements.CompileBlock(b, loop, unreachable, kind, old(Abs())))
      decreases b, 1
    {
      var branch := OpenBlock(b, loop, unreachable, kind);
      ok, code := CompileAll(b);
      if ok {
        CloseBlock(loop, branch);
      }
    }

    method CompileOptional(b: Block, loop: bool, unreachable: Option<bool>, kind: BranchType) returns (ok: bool, code: seq<Code>)
      requires Valid()
      modifies Repr()
      ensures Did(ok, code, Statements.CompileOptional(b, loop, unreachable, kind, old(Abs())))
      decreases b, 2
    {
      ok, code := true, [];
      if b != [] {
        ok, code := CompileBlock(b, loop, unreachable, kind);
      }
    }

    /** The statements of a block, in order. */
    method CompileAll(ss: seq<Stmt>) returns (ok: bool, code: seq<Code>)
      requires Valid()
      modifies Repr()
      ensures Did(ok, code, Statements.CompileAll(ss, old(Abs())))
      decreases ss, 0
    {
      ok, code := true, [];
      var i := 0;
      assert ss[0..] == ss;
      while i < |ss|
        invariant 0 <= i <= |ss| && Valid() && fresh(Repr() - old(Repr()))
        invariant Statements.CompileAll(ss, old(Abs())) == Prefixed(code, Statements.CompileAll(ss[i..], Abs()))
      {
        var done, more := Compile(ss[i]);
        if !done {
          return false, [];
        }
        assert ss[i..][1..] == ss[i + 1..];
        code := code + more;
        i := i + 1;
      }
    }

    method CompileArms(s: Stmt, k: nat) returns (ok: bool, code: seq<Code>)
      requires Valid() && s.If? && k <= |s.elseIfs|
      modifies Repr()
      ensures Did(ok, code, Statements.CompileArms(s, k, old(Abs())))
      decreases s, 0, |s.elseIfs| - k
    {
      if k == |s.elseIfs| {
        ok, code := CompileOptional(s.els, false, s.unreachableElse, ConditionalFalse);
      } else if s.elseIfs[k].body == [] {
        ok, code := CompileArms(s, k + 1);
      } else {
        ok, code := CompileBlock(s.elseIfs[k].body, false, s.unreachable, ConditionalTrue);
        if ok {
          var rest;
          ok, rest := CompileArms(s, k + 1);
          code := [Either(code, rest)];
        }
      }
    }

    method Condition(s: Stmt) returns (ok: bool, code: seq<Code>)
      requires Valid() && s.If?
      modifies Repr()
      ensures Did(ok, code, Statements.Condition(s, old(Abs())))
    {
      ok, code := ReadAll(s.test);
      if !ok { return; }
      var hoist;
      ok, hoist := Hoist(MovedOut(s));
      code := code + hoist;
    }

    method CompileIf(s: Stmt) returns (ok: bool, code: seq<Code>)
      requires Valid() && s.If?
      modifies Repr()
      ensures Did(ok, code, Statements.CompileIf(s, old(Abs())))
      decreases s, 1
    {
      ok, code := Condition(s);
      if !ok { return; }
      var body, arms;
      ok, body := CompileOptional(s.body, false, s.unreachable, ConditionalTrue);
      if !ok { return; }
      ok, arms := CompileArms(s, 0);
      code := code + [Either(body, arms)];
    }

    method CompileWhile(s: Stmt) returns (ok: bool, code: seq<Code>)
      requires Valid() && s.While?
      modifies Repr()
      ensures Did(ok, code, Statements.CompileWhile(s, old(Abs())))
      decreases s, 0
    {
      Cycle(1);
      ok, code := ReadAll(s.test);
      if !ok { return; }
      var body;
      ok, body := CompileOptional(s.body, true, Some(false), Unknown);
      if !ok { return; }
      Cycle(-1);
      code := [Forever(code + [Either([Leave(Breaks)], [])] + body)];
    }

    method CompileDoWhile(s: Stmt) returns (ok: bool, code: seq<Code>)
      requires Valid() && s.DoWhile?
      modifies Repr()
      ensures Did(ok, code, Statements.CompileDoWhile(s, old(Abs())))
      decreases s, 0
    {
      Cycle(1);
      ok, code := CompileOptional(s.body, false, Some(false), Unknown);
      if !ok { return; }
      var test;
      ok, test := ReadAll(s.test);
      if !ok { return; }
      Cycle(-1);
      code := [Repeat(code, test)];
    }

    method CompileLoop(s: Stmt) returns (ok: bool, code: seq<Code>)
      requires Valid() && s.Loop?
      modifies Repr()
      ensures Did(ok, code, Statements.CompileLoop(s, old(Abs())))
      decreases s, 0
    {
      Cycle(1);
      if s.body == [] || !HasBreak(s.body) {
        return false, [];
      }
      ok, code := CompileBlock(s.body, true, Some(false), LoopInfinite);
      if !ok { return; }
      Cycle(-1);
      code := [Forever(code)];
    }

    method Traversal(s: Stmt) returns (ok: bool, code: seq<Code>)
      requires Valid() && s.For?
      modifies Repr()
      ensures Did(ok, code, Statements.Traversal(s, old(Abs())))
    {
      ok, code := ReadAll(s.over);
      if !ok { return; }
      var targets;
      ok, targets := Prepare(s.key, s.value);
      code := code + targets;
    }

    method CompileRound(s: Stmt) returns (ok: bool, code: seq<Code>)
      requires Valid() && s.For?
      modifies Repr()
      ensures Did(ok, code, Statements.CompileRound(s, old(Abs())))
      decreases s, 0
    {
      ok, code := Fetch(s.key, s.value);
      if !ok { return; }
      var body;
      ok, body := CompileOptional(s.body, true, Some(false), Unknown);
      code := code + body;
    }

    method CompileFor(s: Stmt) returns (ok: bool, code: seq<Code>)
      requires Valid() && s.For?
      modifies Repr()
      ensures Did(ok, code, Statements.CompileFor(s, old(Abs())))
      decreases s, 1
    {
      ok, code := Traversal(s);
      if !ok { return; }
      Cycle(1);
      var round;
      ok, round := CompileRound(s);
      if !ok { return; }
      Cycle(-1);
      code := code + [Either([Leave(Returns)], []), Each(round)];
    }

    method CompileCases(cases: seq<Case>) returns (ok: bool, code: seq<Code>)
      requires Valid()
      modifies Repr()
      ensures Did(ok, code, Statements.CompileCases(cases, old(Abs())))
      decreases cases, 0
    {
      ok, code := true, [];
      if cases != [] {
        ok, code := ReadAll(cases[0].test);
        if !ok { return; }
        var body, rest;
        ok, body := CompileBlock(cases[0].body, false, Some(false), BranchType.Switch);
        if !ok { return; }
        ok, rest := CompileCases(cases[1..]);
        code := code + [Either(body, [])] + rest;
      }
    }

    method CompileClauses(s: Stmt) returns (ok: bool, code: seq<Code>)
      requires Valid() && s.Switch?
      modifies Repr()
      ensures Did(ok, code, Statements.CompileClauses(s, old(Abs())))
      decreases s, 0
    {
      Indent(1);
      ok, code := CompileCases(s.cases);
      if !ok { return; }
      Indent(-1);
      var default;
      ok, default := CompileOptional(s.default, false, Some(false), Unknown);
      code := code + default;
    }

    method CompileSwitch(s: Stmt) returns (ok: bool, code: seq<Code>)
      requires Valid() && s.Switch?
      modifies Repr()
      ensures Did(ok, code, Statements.CompileSwitch(s, old(Abs())))
      decreases s, 1
    {
      EnterSwitch(1);
      ok, code := ReadAll(s.on);
      if !ok || !s.hasClauses { return; }
      var clauses;
      ok, clauses := CompileClauses(s);
      if !ok { return; }
      EnterSwitch(-1);
      code := code + [Once(clauses)];
    }

    method CompileHandlers(x: string, handlers: seq<Arm>) returns (ok: bool, code: seq<Code>)
      requires Valid()
      modifies Repr()
      ensures Did(ok, code, Statements.CompileHandlers(x, handlers, old(Abs())))
      decreases handlers, 0
    {
      ok, code := true, [];
      if handlers != [] {
        ok, code := CompileHandler(x, handlers[0]);
        if !ok { return; }
        var rest;
        ok, rest := CompileHandlers(x, handlers[1..]);
        code := code + rest;
      }
    }

    method CompileHandler(x: string, handler: Arm) returns (ok: bool, code: seq<Code>)
      requires Valid()
      modifies Repr()
      ensures Did(ok, code, Statements.CompileHandler(x, handler, old(Abs())))
      decreases handler, 0
    {
      ok, code := ReadAll([x]);
      if !ok { return; }
      var body;
      ok, body := CompileBlock(handler.body, false, None, ConditionalTrue);
      code := code + [Either(body, [])];
    }

    method CompileCatch(c: Catch) returns (ok: bool, code: seq<Code>)
      requires Valid()
      modifies Repr()
      ensures Did(ok, code, Statements.CompileCatch(c, old(Abs())))
      decreases c, 0
    {
      ok, code := ActAll([ForceNull, Perform(CatchCopy), Record(Target)], c.name);
      if !ok { return; }
      var handlers;
      ok, handlers := CompileHandlers(c.name, c.handlers);
      code := code + handlers;
    }

    method CompileCatches(catches: seq<Catch>) returns (ok: bool, code: seq<Code>)
      requires Valid()
      modifies Repr()
      ensures Did(ok, code, Statements.CompileCatches(catches, old(Abs())))
      decreases catches, 0
    {
      ok, code := true, [];
      if catches != [] {
        ok, code := CompileCatch(catches[0]);
        if !ok { return; }
        var rest;
        ok, rest := CompileCatches(catches[1..]);
        code := code + rest;
      }
    }

    method CompileTry(s: Stmt) returns (ok: bool, code: seq<Code>)
      requires Valid() && s.Try?
      modifies Repr()
      ensures Did(ok, code, Statements.CompileTry(s, old(Abs())))
      decreases s, 0
    {
      ok, code := CompileOptional(s.body, false, Some(false), Unknown);
      if !ok { return; }
      var handler;
      ok, handler := CompileCatches(s.catches);
      code := [Guarded(code, handler)];
    }

    method LeaveAfter(uses: seq<string>, exit: Exit) returns (ok: bool, code: seq<Code>)
      requires Valid()
      modifies Repr()
      ensures Did(ok, code, ThenLeave(Statements.ReadAll(uses, old(Abs())), exit))
    {
      ok, code := ReadAll(uses);
      code := code + [Leave(exit)];
    }

    /** Any statement: inside a block it keeps all facts of the walk. */
    method Compile(s: Stmt) returns (ok: bool, code: seq<Code>)
      requires Valid()
      modifies Repr()
      ensures Did(ok, code, Statements.Compile(s, old(Abs())))
      ensures ok && Inv(old(Abs())) && old(currentBranch) >= 1 ==> Kept(old(Abs()), code, Abs())
      decreases s, 4
    {
      ghost var st := Abs();
      ok, code := CompileStatement(s);
      if ok && Inv(st) && st.place.depth >= 1 {
        CompileKept(s, st);
      }
    }

    method CompileStatement(s: Stmt) returns (ok: bool, code: seq<Code>)
      requires Valid()
      modifies Repr()
      ensures Did(ok, code, Statements.Compile(s, old(Abs())))
      decreases s, 3
    {
      match s {
        case Evaluate(uses, throws) =>
          ok, code := ReadAll(uses);
          code := code + if throws then [MayThrow] else [];
        case Let(uses, x, how) => ok, code := Assign(uses, x, how);
        case Declare(x, dataType, init) => ok, code := Declare(x, dataType, init);
        case If(_, _, _, _, _, _, _) => ok, code := CompileIf(s);
        case While(_, _) => ok, code := CompileWhile(s);
        case DoWhile(_, _) => ok, code := CompileDoWhile(s);
        case Loop(_) => ok, code := CompileLoop(s);
        case For(_, _, _, _) => ok, code := CompileFor(s);
        case Switch(_, _, _, _) => ok, code := CompileSwitch(s);
        case Try(_, _) => ok, code := CompileTry(s);
        case Break => ok, code := insideCycle != 0 || insideSwitch != 0, [Leave(Breaks)];
        case Continue => ok, code := insideCycle != 0, [Leave(Continues)];
        case Return(uses) =>
          ok, code := LeaveAfter(uses, Returns);
        case Throw(uses) =>
          ok, code := LeaveAfter(uses, Throws);
      }
    }

    /**
     A method body.  In every run of the code, first-time macros come first, pointers are defined,
     accepted reads are of assigned variables, and only stray breaks leave; whether a run may read a
     variable before it is assigned is decided by the source.
     */
    method CompileMethod(b: Block) returns (ok: bool, code: seq<Code>)
      requires Valid()
      modifies Repr()
      ensures Did(ok, code, Initialization.CompileMethod(b, old(Abs())))
      ensures ok && Initialization.Entry(old(Abs())) ==>
        && Abs().place == old(Abs()).place
        && (forall path :: Initialization.SafeRun(RunAll(code, path), b, old(Abs()), Abs()))
        && (forall x :: Exposed(OutlineAll(b), x, false) <==> exists path :: RunReadsUnassigned(code, path, x, false))
    {
      ok, code := CompileBlock(b, false, Some(false), Root);
      if ok && Initialization.Entry(old(Abs())) {
        ghost var st := old(Abs());
        Initialization.EntryInv(st);
        Initialization.BlocksRestoreThePlace(b, false, Some(false), Root, st);
        forall path ensures Initialization.SafeRun(RunAll(code, path), b, st, Abs()) {
          Initialization.RunsAreSafe(b, st, path);
        }
        forall x ensures Exposed(OutlineAll(b), x, false) <==> exists path :: RunReadsUnassigned(code, path, x, false) {
          Initialization.ReadsBeforeAssignment(b, st, x);
        }
      }
    }
  }
}
