/**
 The statements that matter to initialization, the code emitted for them, and the compile walk as a
 function of the compilation state.
 */
module Statements {
  import opened Wrappers
  import opened Branches
  import opened Variables

  /** A block without statements is absent in the syntax tree and is not compiled. */
  type Block = seq<Stmt>

  /** How the value of an assignment is stored; Copy names the variable that is copied, unless it is a temporary. */
  datatype How = Scalar | Variant | Literal | Observe | ObserveOrNullify | Call | Copy(from: Option<string>)

  datatype Initializer = Initializer(uses: seq<string>, how: How)

  /** An `elseif` branch, or the statements of a `catch` for one of its classes. */
  datatype Arm = Arm(body: Block)

  /** One group of `case` clauses with its statements. */
  datatype Case = Case(test: seq<string>, body: Block)

  /** One `catch`: its statements are compiled once for each of its classes. */
  datatype Catch = Catch(name: string, handlers: seq<Arm>)

  /** Variables are named by their generated names; `uses` and `test` list the variables an expression reads. */
  datatype Stmt =
    | Evaluate(uses: seq<string>, throws: bool)
    | Let(uses: seq<string>, name: string, how: How)
    | Declare(name: string, dataType: DataType, init: Option<Initializer>)
    | If(test: seq<string>, hoisted: seq<string>, unreachable: Option<bool>, unreachableElse: Option<bool>,
         body: Block, elseIfs: seq<Arm>, els: Block)
    | While(test: seq<string>, body: Block)
    | DoWhile(body: Block, test: seq<string>)
    | Loop(body: Block)
    | For(over: seq<string>, key: Option<string>, value: Option<string>, body: Block)
    | Switch(on: seq<string>, hasClauses: bool, cases: seq<Case>, default: Block)
    | Try(body: Block, catches: seq<Catch>)
    | Break
    | Continue
    | Return(uses: seq<string>)
    | Throw(uses: seq<string>)

  /** How control leaves a piece of code; Cut ends a run that is still going. */
  datatype Exit = Normal | Cut | Breaks | Continues | Returns | Throws

  /** `vias`: how the branches that make the read check accept came to be recorded. */
  datatype Event =
    | Init(name: string, op: Op)
    | Assigned(name: string)
    | Reading(name: string, vias: set<MarkKind>)

  datatype Code =
    | Emit(event: Event)
    | MayThrow
    | Either(yes: seq<Code>, no: seq<Code>)
    | Forever(body: seq<Code>)
    | Repeat(body: seq<Code>, test: seq<Code>)
    | Each(body: seq<Code>)
    | Once(body: seq<Code>)
    | Guarded(body: seq<Code>, handler: seq<Code>)
    | Leave(exit: Exit)

  /** What compiling a statement must restore. */
  datatype Place = Place(branch: Option<Branch>, level: int, depth: int, printer: int, cycle: int, cycles: seq<Block>)

  /** `log` lists the branches opened so far; the next one gets id |log| + 1. */
  datatype State = State(place: Place, inSwitch: int, log: seq<Branch>, checks: bool, vars: map<string, VarState>)

  datatype Outcome = Failed | Compiled(code: seq<Code>, state: State)

  // Reads

  /** The variable is found from the current branch outwards. */
  predicate Visible(v: VarState, current: Option<Branch>) {
    current.Some? && Encloses(v.home, current.value)
  }

  predicate HasVariable(st: State, x: string) {
    x in st.vars && Visible(st.vars[x], st.place.branch)
  }

  predicate Safe(kind: BranchType) {
    kind == Root || kind == External
  }

  predicate Vouches(m: Mark, current: Option<Branch>) {
    Some(m.branch) == current || Safe(m.branch.kind)
  }

  predicate UnreachableAncestor(b: Option<Branch>) {
    b.Some? && ((b.value.kind == ConditionalTrue && b.value.unreachable == Some(true)) || UnreachableAncestor(b.value.parent))
  }

  predicate DependsOnUnreachable(b: Branch) {
    || (b.kind == ConditionalTrue && b.unreachable == Some(true))
    || (b.kind == ConditionalFalse && b.unreachable == Some(false))
    || UnreachableAncestor(b.parent)
  }

  datatype Verdict = Rejected | Accepted(vias: set<MarkKind>) | Tolerated(default: bool)

  function Vias(marks: seq<Mark>, current: Option<Branch>): set<MarkKind> {
    set m <- marks | Vouches(m, current) :: m.kind
  }

  /** The analysis of initialization branches when a variable is read. */
  function Judge(marks: seq<Mark>, current: Branch): Verdict {
    if |marks| == 1 && DependsOnUnreachable(marks[0].branch) then Rejected
    else if exists m <- marks :: Vouches(m, Some(current)) then Accepted(Vias(marks, Some(current)))
    else if |marks| != 1 || current.level >= marks[0].branch.level then Tolerated(false)
    else if marks[0].branch.kind == ConditionalFalse && marks[0].branch.unreachable == Some(true) then Rejected
    else Tolerated(marks[0].branch.kind == ConditionalTrue || marks[0].branch.kind == ConditionalFalse)
  }

  function Read(x: string, st: State): (r: Outcome)
    ensures r.Compiled? ==> r.state.inSwitch == st.inSwitch
  {
    if !HasVariable(st, x) || !st.vars[x].initialized then Failed
    else
      var v := st.vars[x];
      if v.skips > 0 || v.reserved then Compiled([Emit(Reading(x, {}))], st)
      else
        var checked := st.checks && v.dataType != ScalarType && !v.localOnly;
        var check := if checked then [Emit(Init(x, CheckPointer))] else [];
        var w := if checked then v.(mustInitNull := true) else v;
        match Judge(v.marks, st.place.branch.value)
        case Rejected => Failed
        case Accepted(vias) => Compiled(check + [Emit(Reading(x, vias))], st.(vars := st.vars[x := w]))
        case Tolerated(default) =>
          var u := if default then DefaultEnabled(w) else w;
          Compiled(check + [Emit(Reading(x, {}))], st.(vars := st.vars[x := u]))
  }

  function ReadAll(xs: seq<string>, st: State): (r: Outcome)
    ensures r.Compiled? ==> r.state.inSwitch == st.inSwitch
  {
    if xs == [] then Compiled([], st)
    else
      var first := Read(xs[0], st);
      if first.Failed? then Failed
      else
        var rest := ReadAll(xs[1..], first.state);
        if rest.Failed? then Failed else Compiled(first.code + rest.code, rest.state)
  }

  // Writes

  /** What a statement does to one variable, step by step. */
  datatype Action =
    | ForceNull
    | Initialize
    | InitializeLiteral
    | ObserveIt
    | NullifyIt
    | TrackIt
    | Count
    | SkipTwo
    | Default
    | Perform(op: Op)
    | Raise
    | Record(kind: MarkKind)

  /** A variable that is assigned to itself is only recorded. */
  function Actions(how: How, x: string): seq<Action> {
    match how
    case Scalar => [Record(Assignment)]
    case Variant => [Initialize, Record(Assignment)]
    case Literal => [InitializeLiteral, Record(Assignment)]
    case Observe => [ObserveIt, Record(Assignment)]
    case ObserveOrNullify => [NullifyIt, Record(Assignment)]
    case Call => [ForceNull, TrackIt, Perform(CallResult), Raise, Record(Assignment)]
    case Copy(from) =>
      if from == Some(x) then [Record(Itself)] else [ForceNull, Count, Perform(CopyOnWrite), Record(Assignment)]
  }

  function Emitted(x: string, op: Option<Op>): seq<Code> {
    if op.Some? then [Emit(Init(x, op.value))] else []
  }

  /** Some(e) if the action is one of the counted initializations. */
  function Initialized(a: Action, v: VarState, cycle: int, depth: int): Option<Emission> {
    match a
    case Initialize => Some(VariantInitialized(v, cycle, depth))
    case InitializeLiteral => Some(LiteralInitialized(v, cycle, depth))
    case ObserveIt => Some(VariantObserved(v, cycle, depth))
    case NullifyIt => Some(VariantNullified(v, cycle, depth))
    case TrackIt => Some(VariantTracked(v, cycle, depth))
    case _ => None
  }

  /** The effect of any other action on the variable. */
  function Updated(a: Action, v: VarState, branch: Option<Branch>): VarState {
    match a
    case ForceNull => v.(mustInitNull := true)
    case Count => v.(inits := v.inits + 1)
    case SkipTwo => v.(skips := v.skips + 2)
    case Default => DefaultEnabled(v)
    case Record(kind) => MarkedInitialized(v, branch, kind)
    case _ => v
  }

  /** Only guaranteed records are made where a value is stored. */
  function Produced(a: Action, x: string): seq<Code> {
    match a
    case Perform(op) => [Emit(Init(x, op))]
    case Raise => [MayThrow]
    case Record(kind) => if Guaranteed(kind) then [Emit(Assigned(x))] else []
    case _ => []
  }

  function Act(a: Action, x: string, st: State): (r: Outcome)
    ensures r.Compiled? ==> r.state.inSwitch == st.inSwitch
  {
    if !HasVariable(st, x) || (a == Record(Target) && st.vars[x].dataType != VariableType) then Failed
    else
      var e := Initialized(a, st.vars[x], st.place.cycle, st.place.depth);
      if e.Some? then Compiled(Emitted(x, e.value.op), st.(vars := st.vars[x := e.value.after]))
      else Compiled(Produced(a, x), st.(vars := st.vars[x := Updated(a, st.vars[x], st.place.branch)]))
  }

  function ActAll(actions: seq<Action>, x: string, st: State): (r: Outcome)
    ensures r.Compiled? ==> r.state.inSwitch == st.inSwitch
  {
    if actions == [] then Compiled([], st)
    else
      var first := Act(actions[0], x, st);
      if first.Failed? then Failed
      else
        var rest := ActAll(actions[1..], x, first.state);
        if rest.Failed? then Failed else Compiled(first.code + rest.code, rest.state)
  }

  function Assign(uses: seq<string>, x: string, how: How, st: State): (r: Outcome)
    ensures r.Compiled? ==> r.state.inSwitch == st.inSwitch
  {
    var read := ReadAll(uses, st);
    if read.Failed? then Failed
    else
      var done := ActAll(Actions(how, x), x, read.state);
      if done.Failed? then Failed else Compiled(read.code + done.code, done.state)
  }

  /** Initializes a dynamic variable in front of an `if`, and skips its next two initializations. */
  function HoistOne(x: string, st: State): (r: Outcome)
    ensures r.Compiled? ==> r.state.inSwitch == st.inSwitch
  {
    if HasVariable(st, x) && st.vars[x].dataType == VariableType then ActAll([Initialize, SkipTwo], x, st) else Compiled([], st)
  }

  /** The variables whose initialization is moved in front of an `if` with several branches. */
  function Hoist(xs: seq<string>, st: State): (r: Outcome)
    ensures r.Compiled? ==> r.state.inSwitch == st.inSwitch
  {
    if xs == [] then Compiled([], st)
    else
      var first := HoistOne(xs[0], st);
      if first.Failed? then Failed
      else
        var rest := Hoist(xs[1..], first.state);
        if rest.Failed? then Failed else Compiled(first.code + rest.code, rest.state)
  }

  function NewVariable(x: string, dataType: DataType, home: Branch): VarState {
    VarState(0, None, dataType == VariableType, 0, false, false, false, dataType, false, home, Reserved(x), [])
  }

  /** The declaration itself, once the variable is in the table. */
  function Declared(x: string, dataType: DataType, init: Option<Initializer>, added: State): (r: Outcome)
    ensures r.Compiled? ==> r.state.inSwitch == added.inSwitch
  {
    match init
    case None => ActAll([Record(if dataType == ScalarType then Zeroed else Announced), Default], x, added)
    case Some(i) =>
      var marked := ActAll([Record(Announced)], x, added);
      if marked.Failed? then Failed
      else
        var let := Assign(i.uses, x, i.how, marked.state);
        if let.Failed? then Failed else Compiled(marked.code + let.code, let.state)
  }

  function Declaration(x: string, dataType: DataType, init: Option<Initializer>, st: State): (r: Outcome)
    ensures r.Compiled? ==> r.state.inSwitch == st.inSwitch
  {
    if x in st.vars || st.place.branch == None then Failed
    else Declared(x, dataType, init, st.(vars := st.vars[x := NewVariable(x, dataType, st.place.branch.value)]))
  }

  function ActOptional(actions: seq<Action>, x: Option<string>, st: State): (r: Outcome)
    ensures r.Compiled? ==> r.state.inSwitch == st.inSwitch
  {
    if x.Some? then ActAll(actions, x.value, st) else Compiled([], st)
  }

  /** The targets of a hash traversal, prepared in front of the loop. */
  function Prepare(key: Option<string>, value: Option<string>, st: State): (r: Outcome)
    ensures r.Compiled? ==> r.state.inSwitch == st.inSwitch
  {
    var k := ActOptional([ForceNull, Record(Target)], key, st);
    if k.Failed? then Failed
    else
      var v := ActOptional([ForceNull, Record(Target), Count], value, k.state);
      if v.Failed? then Failed else Compiled(k.code + v.code, v.state)
  }

  /** What each round of the traversal does to them. */
  function Fetch(key: Option<string>, value: Option<string>, st: State): (r: Outcome)
    ensures r.Compiled? ==> r.state.inSwitch == st.inSwitch
  {
    var k := ActOptional([Perform(KeyInit)], key, st);
    if k.Failed? then Failed
    else
      var v := ActOptional([Perform(ValueInit)], value, k.state);
      if v.Failed? then Failed else Compiled(k.code + v.code, v.state)
  }

  // Unbalanced switches

  /** The clause-less `switch` statements that are compiled with a statement. */
  function Leaks(s: Stmt): nat
    decreases s, 1
  {
    match s
    case If(_, _, _, _, body, elseIfs, els) => LeaksAll(body) + LeaksArms(elseIfs) + LeaksAll(els)
    case While(_, body) => LeaksAll(body)
    case DoWhile(body, _) => LeaksAll(body)
    case Loop(body) => LeaksAll(body)
    case For(_, _, _, body) => LeaksAll(body)
    case Switch(_, hasClauses, cases, default) => if hasClauses then LeaksCases(cases) + LeaksAll(default) else 1
    case Try(body, catches) => LeaksAll(body) + LeaksCatches(catches)
    case _ => 0
  }

  function LeaksAll(ss: seq<Stmt>): nat
    decreases ss, 0
  {
    if ss == [] then 0 else Leaks(ss[0]) + LeaksAll(ss[1..])
  }

  function LeaksArms(arms: seq<Arm>): nat
    decreases arms, 0
  {
    if arms == [] then 0 else LeaksAll(arms[0].body) + LeaksArms(arms[1..])
  }

  function LeaksCases(cases: seq<Case>): nat
    decreases cases, 0
  {
    if cases == [] then 0 else LeaksAll(cases[0].body) + LeaksCases(cases[1..])
  }

  function LeaksCatches(catches: seq<Catch>): nat
    decreases catches, 0
  {
    if catches == [] then 0 else LeaksArms(catches[0].handlers) + LeaksCatches(catches[1..])
  }

  // Blocks

  function Opened(b: Block, loop: bool, unreachable: Option<bool>, kind: BranchType, st: State): State {
    var p := st.place;
    var branch := Branch(p.branch, p.level, |st.log| + 1, kind, unreachable);
    State(Place(Some(branch), p.level + 1, p.depth + 1, p.printer + 1, p.cycle, if loop then p.cycles + [b] else p.cycles),
          st.inSwitch, st.log + [branch], st.checks, st.vars)
  }

  /** `branch` is the branch that was opened. */
  function Closed(loop: bool, branch: Branch, st: State): State {
    var p := st.place;
    var cycles := if loop && p.cycles != [] then p.cycles[..|p.cycles| - 1] else p.cycles;
    st.(place := Place(branch.parent, p.level - 1, p.depth - 1, p.printer - 1, p.cycle, cycles))
  }

  function InCycle(st: State, change: int): State {
    st.(place := st.place.(cycle := st.place.cycle + change))
  }

  function InSwitch(st: State, change: int): State {
    st.(inSwitch := st.inSwitch + change)
  }

  function Indented(st: State, change: int): State {
    st.(place := st.place.(printer := st.place.printer + change))
  }

  /** An infinite loop must contain an exit, at top level or in nested `if` and `else` blocks. */
  predicate HasBreak(b: Block) {
    exists s <- b :: match s
      case If(_, _, _, _, body, _, els) => HasBreak(body) || HasBreak(els)
      case Break => true
      case Return(_) => true
      case Throw(_) => true
      case _ => false
  }

  function CompileBlock(b: Block, loop: bool, unreachable: Option<bool>, kind: BranchType, st: State): (r: Outcome)
    ensures r.Compiled? ==> r.state.inSwitch == st.inSwitch + LeaksAll(b)
    decreases b, 1
  {
    var start := Opened(b, loop, unreachable, kind, st);
    var body := CompileAll(b, start);
    if body.Failed? then Failed else Compiled(body.code, Closed(loop, start.place.branch.value, body.state))
  }

  function CompileOptional(b: Block, loop: bool, unreachable: Option<bool>, kind: BranchType, st: State): (r: Outcome)
    ensures r.Compiled? ==> r.state.inSwitch == st.inSwitch + LeaksAll(b)
    decreases b, 2
  {
    if b == [] then Compiled([], st) else CompileBlock(b, loop, unreachable, kind, st)
  }

  function CompileAll(ss: seq<Stmt>, st: State): (r: Outcome)
    ensures r.Compiled? ==> r.state.inSwitch == st.inSwitch + LeaksAll(ss)
    decreases ss, 0
  {
    if ss == [] then Compiled([], st)
    else
      var first := Compile(ss[0], st);
      if first.Failed? then Failed
      else
        var rest := CompileAll(ss[1..], first.state);
        if rest.Failed? then Failed else Compiled(first.code + rest.code, rest.state)
  }

  /** The `elseif` branches from the k-th on that have statements, then the `else` branch. */
  function CompileArms(s: Stmt, k: nat, st: State): (r: Outcome)
    requires s.If? && k <= |s.elseIfs|
    ensures r.Compiled? ==> r.state.inSwitch == st.inSwitch + LeaksArms(s.elseIfs[k..]) + LeaksAll(s.els)
    decreases s, 0, |s.elseIfs| - k
  {
    if k == |s.elseIfs| then CompileOptional(s.els, false, s.unreachableElse, ConditionalFalse, st)
    else if s.elseIfs[k].body == [] then CompileArms(s, k + 1, st)
    else
      var first := CompileBlock(s.elseIfs[k].body, false, s.unreachable, ConditionalTrue, st);
      if first.Failed? then Failed
      else
        var rest := CompileArms(s, k + 1, first.state);
        if rest.Failed? then Failed else Compiled([Either(first.code, rest.code)], rest.state)
  }

  /** The variables that the test does not read. */
  function NotRead(xs: seq<string>, test: seq<string>): seq<string> {
    if xs == [] then [] else (if xs[0] in test then [] else [xs[0]]) + NotRead(xs[1..], test)
  }

  /** Initializations are only moved out of an `if` with several branches, and away from what its test reads. */
  function MovedOut(s: Stmt): seq<string>
    requires s.If?
  {
    if s.body != [] && (s.elseIfs != [] || s.els != []) then NotRead(s.hoisted, s.test) else []
  }

  /**
   The condition of an `if`, and the initializations moved in front of it.  The condition is compiled
   first; the part of it that C evaluates last reads none of the variables that are initialized between.
   */
  function Condition(s: Stmt, st: State): (r: Outcome)
    requires s.If?
    ensures r.Compiled? ==> r.state.inSwitch == st.inSwitch
  {
    var test := ReadAll(s.test, st);
    if test.Failed? then Failed
    else
      var hoist := Hoist(MovedOut(s), test.state);
      if hoist.Failed? then Failed else Compiled(test.code + hoist.code, hoist.state)
  }

  function CompileIf(s: Stmt, st: State): (r: Outcome)
    requires s.If?
    ensures r.Compiled? ==> r.state.inSwitch == st.inSwitch + Leaks(s)
    decreases s, 1
  {
    var condition := Condition(s, st);
    if condition.Failed? then Failed
    else
      var body := CompileOptional(s.body, false, s.unreachable, ConditionalTrue, condition.state);
      if body.Failed? then Failed
      else
        var arms := CompileArms(s, 0, body.state);
        if arms.Failed? then Failed else Compiled(condition.code + [Either(body.code, arms.code)], arms.state)
  }

  function CompileWhile(s: Stmt, st: State): (r: Outcome)
    requires s.While?
    ensures r.Compiled? ==> r.state.inSwitch == st.inSwitch + Leaks(s)
    decreases s, 0
  {
    var test := ReadAll(s.test, InCycle(st, 1));
    if test.Failed? then Failed
    else
      var body := CompileOptional(s.body, true, Some(false), Unknown, test.state);
      if body.Failed? then Failed
      else Compiled([Forever(test.code + [Either([Leave(Breaks)], [])] + body.code)], InCycle(body.state, -1))
  }

  function CompileDoWhile(s: Stmt, st: State): (r: Outcome)
    requires s.DoWhile?
    ensures r.Compiled? ==> r.state.inSwitch == st.inSwitch + Leaks(s)
    decreases s, 0
  {
    var body := CompileOptional(s.body, false, Some(false), Unknown, InCycle(st, 1));
    if body.Failed? then Failed
    else
      var test := ReadAll(s.test, body.state);
      if test.Failed? then Failed else Compiled([Repeat(body.code, test.code)], InCycle(test.state, -1))
  }

  function CompileLoop(s: Stmt, st: State): (r: Outcome)
    requires s.Loop?
    ensures r.Compiled? ==> r.state.inSwitch == st.inSwitch + Leaks(s)
    decreases s, 0
  {
    if s.body == [] || !HasBreak(s.body) then Failed
    else
      var body := CompileBlock(s.body, true, Some(false), LoopInfinite, InCycle(st, 1));
      if body.Failed? then Failed else Compiled([Forever(body.code)], InCycle(body.state, -1))
  }

  /** What is traversed, and the targets. */
  function Traversal(s: Stmt, st: State): (r: Outcome)
    requires s.For?
    ensures r.Compiled? ==> r.state.inSwitch == st.inSwitch
  {
    var over := ReadAll(s.over, st);
    if over.Failed? then Failed
    else
      var targets := Prepare(s.key, s.value, over.state);
      if targets.Failed? then Failed else Compiled(over.code + targets.code, targets.state)
  }

  /** One round: fetch the key and the value, then the statements. */
  function CompileRound(s: Stmt, st: State): (r: Outcome)
    requires s.For?
    ensures r.Compiled? ==> r.state.inSwitch == st.inSwitch + Leaks(s)
    decreases s, 0
  {
    var fetch := Fetch(s.key, s.value, st);
    if fetch.Failed? then Failed
    else
      var body := CompileOptional(s.body, true, Some(false), Unknown, fetch.state);
      if body.Failed? then Failed else Compiled(fetch.code + body.code, body.state)
  }

  function CompileFor(s: Stmt, st: State): (r: Outcome)
    requires s.For?
    ensures r.Compiled? ==> r.state.inSwitch == st.inSwitch + Leaks(s)
    decreases s, 1
  {
    var traversal := Traversal(s, st);
    if traversal.Failed? then Failed
    else
      var round := CompileRound(s, InCycle(traversal.state, 1));
      if round.Failed? then Failed
      else Compiled(traversal.code + [Either([Leave(Returns)], []), Each(round.code)], InCycle(round.state, -1))
  }

  function CompileCases(cases: seq<Case>, st: State): (r: Outcome)
    ensures r.Compiled? ==> r.state.inSwitch == st.inSwitch + LeaksCases(cases)
    decreases cases, 0
  {
    if cases == [] then Compiled([], st)
    else
      var test := ReadAll(cases[0].test, st);
      if test.Failed? then Failed
      else
        var body := CompileBlock(cases[0].body, false, Some(false), BranchType.Switch, test.state);
        if body.Failed? then Failed
        else
          var rest := CompileCases(cases[1..], body.state);
          if rest.Failed? then Failed
          else Compiled(test.code + [Either(body.code, [])] + rest.code, rest.state)
  }

  function CompileClauses(s: Stmt, st: State): (r: Outcome)
    requires s.Switch?
    ensures r.Compiled? ==> r.state.inSwitch == st.inSwitch + LeaksCases(s.cases) + LeaksAll(s.default)
    decreases s, 0
  {
    var cases := CompileCases(s.cases, Indented(st, 1));
    if cases.Failed? then Failed
    else
      var default := CompileOptional(s.default, false, Some(false), Unknown, Indented(cases.state, -1));
      if default.Failed? then Failed else Compiled(cases.code + default.code, default.state)
  }

  /** Without clauses the counter stays raised. */
  function CompileSwitch(s: Stmt, st: State): (r: Outcome)
    requires s.Switch?
    ensures r.Compiled? ==> r.state.inSwitch == st.inSwitch + Leaks(s)
    decreases s, 1
  {
    var on := ReadAll(s.on, InSwitch(st, 1));
    if on.Failed? || !s.hasClauses then on
    else
      var clauses := CompileClauses(s, on.state);
      if clauses.Failed? then Failed
      else Compiled(on.code + [Once(clauses.code)], InSwitch(clauses.state, -1))
  }

  /** A handler behind an instanceof test, which reads the caught variable. */
  function CompileHandler(x: string, handler: Arm, st: State): (r: Outcome)
    ensures r.Compiled? ==> r.state.inSwitch == st.inSwitch + LeaksAll(handler.body)
    decreases handler, 0
  {
    var test := ReadAll([x], st);
    if test.Failed? then Failed
    else
      var body := CompileBlock(handler.body, false, None, ConditionalTrue, test.state);
      if body.Failed? then Failed else Compiled(test.code + [Either(body.code, [])], body.state)
  }

  /** The handlers of one `catch`, one for each of its classes. */
  function CompileHandlers(x: string, handlers: seq<Arm>, st: State): (r: Outcome)
    ensures r.Compiled? ==> r.state.inSwitch == st.inSwitch + LeaksArms(handlers)
    decreases handlers, 0
  {
    if handlers == [] then Compiled([], st)
    else
      var first := CompileHandler(x, handlers[0], st);
      if first.Failed? then Failed
      else
        var rest := CompileHandlers(x, handlers[1..], first.state);
        if rest.Failed? then Failed else Compiled(first.code + rest.code, rest.state)
  }

  /** One `catch`: the exception is copied to its variable, then come its handlers. */
  function CompileCatch(c: Catch, st: State): (r: Outcome)
    ensures r.Compiled? ==> r.state.inSwitch == st.inSwitch + LeaksArms(c.handlers)
    decreases c, 0
  {
    var caught := ActAll([ForceNull, Perform(CatchCopy), Record(Target)], c.name, st);
    if caught.Failed? then Failed
    else
      var handlers := CompileHandlers(c.name, c.handlers, caught.state);
      if handlers.Failed? then Failed else Compiled(caught.code + handlers.code, handlers.state)
  }

  function CompileCatches(catches: seq<Catch>, st: State): (r: Outcome)
    ensures r.Compiled? ==> r.state.inSwitch == st.inSwitch + LeaksCatches(catches)
    decreases catches, 0
  {
    if catches == [] then Compiled([], st)
    else
      var first := CompileCatch(catches[0], st);
      if first.Failed? then Failed
      else
        var rest := CompileCatches(catches[1..], first.state);
        if rest.Failed? then Failed else Compiled(first.code + rest.code, rest.state)
  }

  function CompileTry(s: Stmt, st: State): (r: Outcome)
    requires s.Try?
    ensures r.Compiled? ==> r.state.inSwitch == st.inSwitch + Leaks(s)
    decreases s, 0
  {
    var body := CompileOptional(s.body, false, Some(false), Unknown, st);
    if body.Failed? then Failed
    else
      var handler := CompileCatches(s.catches, body.state);
      if handler.Failed? then Failed else Compiled([Guarded(body.code, handler.code)], handler.state)
  }

  function ThenLeave(r: Outcome, exit: Exit): Outcome {
    if r.Failed? then Failed else Compiled(r.code + [Leave(exit)], r.state)
  }

  function Compile(s: Stmt, st: State): (r: Outcome)
    ensures r.Compiled? ==> r.state.inSwitch == st.inSwitch + Leaks(s)
    decreases s, 2
  {
    match s
    case Evaluate(uses, throws) =>
      var r := ReadAll(uses, st);
      if r.Failed? then Failed else Compiled(r.code + (if throws then [MayThrow] else []), r.state)
    case Let(uses, x, how) => Assign(uses, x, how, st)
    case Declare(x, dataType, init) => Declaration(x, dataType, init, st)
    case If(_, _, _, _, _, _, _) => CompileIf(s, st)
    case While(_, _) => CompileWhile(s, st)
    case DoWhile(_, _) => CompileDoWhile(s, st)
    case Loop(_) => CompileLoop(s, st)
    case For(_, _, _, _) => CompileFor(s, st)
    case Switch(_, _, _, _) => CompileSwitch(s, st)
    case Try(_, _) => CompileTry(s, st)
    case Break => if st.place.cycle != 0 || st.inSwitch != 0 then Compiled([Leave(Breaks)], st) else Failed
    case Continue => if st.place.cycle != 0 then Compiled([Leave(Continues)], st) else Failed
    case Return(uses) => ThenLeave(ReadAll(uses, st), Returns)
    case Throw(uses) => ThenLeave(ReadAll(uses, st), Throws)
  }
}
