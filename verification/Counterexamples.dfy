/**
 Where the promises of module Initialization stop: methods that the compiler accepts, with a run that
 goes wrong, and the exact condition where it is a matter of one statement.
 */
module Counterexamples {
  import opened Wrappers
  import opened Branches
  import opened Variables
  import opened Statements
  import opened Walks
  import opened WholeWalk
  import opened Runs
  import opened Initialization

  /** A method without parameters. */
  const START := State(Place(Some(EXTERNAL), 1, 0, 0, 0, []), 0, [EXTERNAL], false, map[])

  const ROOT := Branch(Some(EXTERNAL), 1, 2, Root, Some(false))

  /** The branches when its statements start. */
  const LOG := [EXTERNAL, ROOT]

  /** Inside its statements, with one variable. */
  function Inside(v: VarState, log: seq<Branch>): State {
    State(Place(Some(ROOT), 2, 1, 1, 0, []), 0, log, false, map["k" := v])
  }

  const EMPTY := Inside(NewVariable("k", VariableType, ROOT), LOG).(vars := map[])

  const DECLARED := NewVariable("k", VariableType, ROOT).(initialized := true, marks := [Mark(ROOT, Announced)])

  lemma MethodIs(b: Block, code: seq<Code>, to: State)
    requires CompileAll(b, EMPTY) == Compiled(code, to)
    ensures Entry(START) && CompileMethod(b, START).Compiled? && CompileMethod(b, START).code == code
  {
    assert [EXTERNAL] + [ROOT] == [EXTERNAL, ROOT];
    assert Opened(b, false, Some(false), Root, START) == EMPTY;
  }

  lemma PutInside(v: VarState, w: VarState, log: seq<Branch>)
    ensures Inside(v, log).(vars := Inside(v, log).vars["k" := w]) == Inside(w, log)
  {
    assert map["k" := v]["k" := w] == map["k" := w];
  }

  /** `var k;` */
  const DECLARE := Declare("k", VariableType, None)

  lemma Declares()
    ensures Compile(DECLARE, EMPTY) == Compiled([], Inside(DECLARED, LOG))
  {
    var v := NewVariable("k", VariableType, ROOT);
    assert EMPTY.vars["k" := v] == map["k" := v];
    PutInside(v, DECLARED, LOG);
    PutInside(DECLARED, DECLARED, LOG);
    assert [] + [Mark(ROOT, Announced)] == [Mark(ROOT, Announced)];
    assert Act(Record(Announced), "k", Inside(v, LOG)) == Compiled([], Inside(DECLARED, LOG));
    assert Act(Default, "k", Inside(DECLARED, LOG)) == Compiled([], Inside(DECLARED, LOG));
    assert [Record(Announced), Default][1..] == [Default] && [Default][1..] == [];
    assert ActAll([Default], "k", Inside(DECLARED, LOG)) == Compiled([] + [], Inside(DECLARED, LOG));
  }

  /** `let k = <value>;` for a variable that was never counted. */
  lemma FirstLet(v: VarState, log: seq<Branch>)
    requires v.skips == 0 && !v.reserved && !v.localOnly && v.inits == 0 && v.home == ROOT
    ensures Compile(Let([], "k", Variant), Inside(v, log)).Compiled?
    ensures Compile(Let([], "k", Variant), Inside(v, log)).code == [Emit(Init("k", InitVar)), Emit(Assigned("k"))]
  {
    var e := VariantInitialized(v, 0, 1);
    PutInside(v, e.after, log);
    assert Act(Initialize, "k", Inside(v, log)) == Compiled([Emit(Init("k", InitVar))], Inside(e.after, log));
    var actions := [Initialize, Record(Assignment)];
    assert actions[1..] == [Record(Assignment)] && [Record(Assignment)][1..] == [];
    var w := MarkedInitialized(e.after, Some(ROOT), Assignment);
    PutInside(e.after, w, log);
    assert Act(Record(Assignment), "k", Inside(e.after, log)) == Compiled([Emit(Assigned("k"))], Inside(w, log));
    assert ActAll([Record(Assignment)], "k", Inside(e.after, log)) == Compiled([Emit(Assigned("k"))] + [], Inside(w, log));
    assert [] + ([Emit(Init("k", InitVar))] + [Emit(Assigned("k"))]) == [Emit(Init("k", InitVar)), Emit(Assigned("k"))];
  }

  const TARGET := DECLARED.(marks := DECLARED.marks + [Mark(ROOT, Target)])

  const KEY_LOOP := For([], Some("k"), None, [])

  lemma KeyPrepared()
    ensures Traversal(KEY_LOOP, Inside(DECLARED, LOG)) == Compiled([], Inside(TARGET, LOG))
  {
    PutInside(DECLARED, DECLARED, LOG);
    PutInside(DECLARED, TARGET, LOG);
    var prepare := [ForceNull, Record(Target)];
    assert Act(ForceNull, "k", Inside(DECLARED, LOG)) == Compiled([], Inside(DECLARED, LOG));
    assert Act(Record(Target), "k", Inside(DECLARED, LOG)) == Compiled([], Inside(TARGET, LOG));
    assert prepare[1..] == [Record(Target)] && [Record(Target)][1..] == [];
    assert ActAll([Record(Target)], "k", Inside(DECLARED, LOG)) == Compiled([] + [], Inside(TARGET, LOG));
    assert ActAll(prepare, "k", Inside(DECLARED, LOG)) == Compiled([], Inside(TARGET, LOG));
  }

  lemma KeyFetched()
    ensures CompileRound(KEY_LOOP, InCycle(Inside(TARGET, LOG), 1)) == Compiled(KEY_ROUND.body, InCycle(Inside(TARGET, LOG), 1))
  {
    var inside := InCycle(Inside(TARGET, LOG), 1);
    PutInside(TARGET, TARGET, LOG);
    assert Act(Perform(KeyInit), "k", inside) == Compiled(KEY_ROUND.body, inside);
    assert [Perform(KeyInit)][1..] == [];
    assert ActAll([Perform(KeyInit)], "k", inside) == Compiled(KEY_ROUND.body + [], inside);
  }

  /** `for k, _ in ... { }`: the macro of the key is not counted. */
  lemma KeyLoop()
    ensures Compile(KEY_LOOP, Inside(DECLARED, LOG)) == Compiled([Either([Leave(Returns)], []), KEY_ROUND], Inside(TARGET, LOG))
  {
    KeyPrepared();
    KeyFetched();
    assert InCycle(InCycle(Inside(TARGET, LOG), 1), -1) == Inside(TARGET, LOG);
    assert [] + [Either([Leave(Returns)], []), KEY_ROUND] == [Either([Leave(Returns)], []), KEY_ROUND];
  }

  /** Compiling two statements. */
  lemma Two(a: Stmt, ca: seq<Code>, sa: State, b: Stmt)
    requires Compile(a, EMPTY) == Compiled(ca, sa) && Compile(b, sa).Compiled?
    ensures CompileAll([a, b], EMPTY) == Compiled(ca + Compile(b, sa).code, Compile(b, sa).state)
  {
    assert [a, b][1..] == [b] && [b][1..] == [];
    var cb := Compile(b, sa);
    assert CompileAll([b], sa) == Compiled(cb.code + [], cb.state);
  }

  /** Compiling three statements. */
  lemma Three(a: Stmt, ca: seq<Code>, sa: State, b: Stmt, cb: seq<Code>, sb: State, c: Stmt)
    requires Compile(a, EMPTY) == Compiled(ca, sa) && Compile(b, sa) == Compiled(cb, sb) && Compile(c, sb).Compiled?
    ensures CompileAll([a, b, c], EMPTY) == Compiled(ca + (cb + Compile(c, sb).code), Compile(c, sb).state)
  {
    assert [a, b, c][1..] == [b, c] && [b, c][1..] == [c] && [c][1..] == [];
    var cc := Compile(c, sb);
    assert CompileAll([c], sb) == Compiled(cc.code + [], cc.state);
    assert CompileAll([b, c], sa) == Compiled(cb + cc.code, cc.state);
  }

  const KEY_ROUND := Each([Emit(Init("k", KeyInit))])

  const KEY_CODE := [Either([Leave(Returns)], []), KEY_ROUND, Emit(Init("k", InitVar)), Emit(Assigned("k"))]

  const KEY_PATH := [No([]), Rounds([Round([Plain], [])]), Plain, Plain]

  /** `var k; for k, _ in ... { } let k = ...;` */
  const KEY_PROGRAM := [DECLARE, KEY_LOOP, Let([], "k", Variant)]

  lemma KeyProgramCompiles()
    ensures Entry(START) && CompileMethod(KEY_PROGRAM, START).Compiled? && CompileMethod(KEY_PROGRAM, START).code == KEY_CODE
  {
    Declares();
    KeyLoop();
    FirstLet(TARGET, LOG);
    var loop := [Either([Leave(Returns)], []), KEY_ROUND];
    var last := Compile(KEY_PROGRAM[2], Inside(TARGET, LOG));
    Three(KEY_PROGRAM[0], [], Inside(DECLARED, LOG), KEY_PROGRAM[1], loop, Inside(TARGET, LOG), KEY_PROGRAM[2]);
    assert [] + (loop + last.code) == KEY_CODE;
    MethodIs(KEY_PROGRAM, KEY_CODE, last.state);
  }

  /** The first event of straight-line code. */
  lemma RunsPlain(e: Event, code: seq<Code>, path: seq<Step>)
    ensures RunAll([Emit(e)] + code, [Plain] + path) == Run([e] + RunAll(code, path).trace, RunAll(code, path).exit)
  {
    assert ([Emit(e)] + code)[1..] == code && ([Plain] + path)[1..] == path;
  }

  /** The assignment at the end. */
  lemma LastRun()
    ensures RunAll(KEY_CODE[2..], KEY_PATH[2..]) == Run([Init("k", InitVar), Assigned("k")], Normal)
  {
    assert RunAll([], []) == Run([], Normal);
    RunsPlain(Assigned("k"), [], []);
    RunsPlain(Init("k", InitVar), [Emit(Assigned("k"))] + [], [Plain] + []);
    assert KEY_CODE[2..] == [Emit(Init("k", InitVar))] + ([Emit(Assigned("k"))] + []) && KEY_PATH[2..] == [Plain] + ([Plain] + []);
  }

  /** One round of the traversal, and what follows. */
  lemma LoopRun()
    ensures RunAll(KEY_CODE[1..], KEY_PATH[1..]) == Run([Init("k", KeyInit), Init("k", InitVar), Assigned("k")], Normal)
  {
    LastRun();
    OneRound(KEY_ROUND, Init("k", KeyInit));
    assert KEY_CODE[1..][1..] == KEY_CODE[2..] && KEY_PATH[1..][1..] == KEY_PATH[2..];
    assert KEY_CODE[1..][0] == KEY_ROUND && KEY_PATH[1..][0] == Rounds([Round([Plain], [])]);
  }

  lemma KeyRun()
    ensures RunAll(KEY_CODE, KEY_PATH).trace == [Init("k", KeyInit), Init("k", InitVar), Assigned("k")]
  {
    LoopRun();
    assert RunAll(KEY_CODE, KEY_PATH).trace == [] + RunAll(KEY_CODE[1..], KEY_PATH[1..]).trace;
  }

  /**
   A first-time macro may run on a variable that already holds a zval: the key of a traversal is
   initialized in each round, but that is not counted.
   */
  lemma FirstTimeMacroAfterKey()
    ensures Entry(START) && CompileMethod(KEY_PROGRAM, START).Compiled?
    ensures RunAll(CompileMethod(KEY_PROGRAM, START).code, KEY_PATH).trace ==
            [Init("k", KeyInit), Init("k", InitVar), Assigned("k")]
  {
    KeyProgramCompiles();
    KeyRun();
  }

  lemma OneRound(c: Code, e: Event)
    requires c == Each([Emit(e)])
    ensures RunOne(c, Rounds([Round([Plain], [])])) == Run([e], Normal)
  {
    var rounds := [Round([Plain], [])];
    assert rounds[1..] == [] && c.body[1..] == [] && [Plain][1..] == [];
    assert RunAll(c.body, [Plain]) == Run([e] + [], Normal);
    assert RunLoop(c, rounds, Normal).trace == [e] + [] + [];
  }

  const EMPTY_SWITCH := Stmt.Switch([], false, [], [])

  lemma EmptySwitchCompiles()
    ensures CompileAll([EMPTY_SWITCH, Break], EMPTY) == Compiled([Leave(Breaks)], InSwitch(EMPTY, 1))
    ensures LeaksAll([EMPTY_SWITCH, Break]) == 1
  {
    var raised := InSwitch(EMPTY, 1);
    assert Compile(EMPTY_SWITCH, EMPTY) == Compiled([], raised);
    assert Compile(Break, raised) == Compiled([Leave(Breaks)], raised);
    assert [EMPTY_SWITCH, Break][1..] == [Break] && [Break][1..] == [];
    assert CompileAll([Break], raised) == Compiled([Leave(Breaks)] + [], raised);
    assert LeaksAll([Break]) == 0;
  }

  /** `switch 1 { }` and then `break;`, outside any loop: accepted, and the break leaves the method. */
  lemma EmptySwitchLetsBreakOut()
    ensures var b := [EMPTY_SWITCH, Break];
      && Entry(START) && CompileMethod(b, START).Compiled? && LeaksAll(b) == 1
      && RunAll(CompileMethod(b, START).code, [Plain]).exit == Breaks
  {
    EmptySwitchCompiles();
    MethodIs([EMPTY_SWITCH, Break], [Leave(Breaks)], InSwitch(EMPTY, 1));
  }

  // Accepted reads of variables that hold nothing

  /** A read of k in the root branch, accepted on `vias`. */
  lemma ReturnsIt(v: VarState, vias: set<MarkKind>, log: seq<Branch>)
    requires v.initialized && v.skips == 0 && !v.reserved && v.home == ROOT && |v.marks| > 0
    requires forall m <- v.marks :: m.branch == ROOT
    requires vias == set m <- v.marks :: m.kind
    ensures Compile(Return(["k"]), Inside(v, log)) == Compiled([Emit(Reading("k", vias)), Leave(Returns)], Inside(v, log))
  {
    var st := Inside(v, log);
    assert v.marks[0] in v.marks && Vouches(v.marks[0], Some(ROOT));
    assert Vias(v.marks, Some(ROOT)) == vias;
    PutInside(v, v, log);
    assert Read("k", st) == Compiled([] + [Emit(Reading("k", vias))], st);
    assert ["k"][1..] == [];
    assert ReadAll(["k"], st) == Compiled([Emit(Reading("k", vias))] + [], st);
    assert [Emit(Reading("k", vias))] + [Leave(Returns)] == [Emit(Reading("k", vias)), Leave(Returns)];
  }

  const RETURN := Return(["k"])

  /** The code before the read runs to its end. */
  lemma ReadRun(before: seq<Code>, path: seq<Step>, vias: set<MarkKind>)
    requires |path| == |before| && RunAll(before, path).exit == Normal
    ensures RunAll(before + [Emit(Reading("k", vias)), Leave(Returns)], path + [Plain, Plain]) ==
            Run(RunAll(before, path).trace + [Reading("k", vias)], Returns)
  {
    var last, steps := [Emit(Reading("k", vias)), Leave(Returns)], [Plain, Plain];
    RunsThen(before, last, path, steps);
    assert last[1..] == [Leave(Returns)] && steps[1..] == [Plain];
    assert RunAll(last[1..], steps[1..]) == Run([], Returns);
    assert RunAll(last, steps) == Run([Reading("k", vias)] + [], Returns);
  }

  /** `var k;`, one more statement s that leaves k with the variable state v, and `return k;` */
  lemma ReadAfter(s: Stmt, code: seq<Code>, v: VarState, log: seq<Branch>, kind: MarkKind, path: seq<Step>)
    requires Compile(s, Inside(DECLARED, LOG)) == Compiled(code, Inside(v, log))
    requires v.initialized && v.skips == 0 && !v.reserved && v.home == ROOT
    requires v.marks == [Mark(ROOT, Announced), Mark(ROOT, kind)]
    requires |path| == |code| && RunAll(code, path).exit == Normal
    ensures var b := [DECLARE, s, RETURN];
      && Entry(START) && CompileMethod(b, START).Compiled?
      && RunAll(CompileMethod(b, START).code, path + [Plain, Plain]) ==
         Run(RunAll(code, path).trace + [Reading("k", {Announced, kind})], Returns)
  {
    var vias := {Announced, kind};
    var last := [Emit(Reading("k", vias)), Leave(Returns)];
    Declares();
    MarkKinds(v.marks);
    ReturnsIt(v, vias, log);
    Three(DECLARE, [], Inside(DECLARED, LOG), s, code, Inside(v, log), RETURN);
    assert [] + (code + last) == code + last;
    MethodIs([DECLARE, s, RETURN], code + last, Inside(v, log));
    ReadRun(code, path, vias);
  }

  /** `var k; return k;` */
  lemma DeclarationIsNoValue()
    ensures var b := [DECLARE, RETURN];
      && Entry(START) && CompileMethod(b, START).Compiled?
      && RunAll(CompileMethod(b, START).code, [Plain, Plain]) == Run([Reading("k", {Announced})], Returns)
  {
    Declares();
    ReturnsIt(DECLARED, {Announced}, LOG);
    ReadRun([], [], {Announced});
    var last := [Emit(Reading("k", {Announced})), Leave(Returns)];
    Two(DECLARE, [], Inside(DECLARED, LOG), RETURN);
    assert [] + last == last && [] + [Plain, Plain] == [Plain, Plain];
    MethodIs([DECLARE, RETURN], last, Inside(DECLARED, LOG));
  }

  const VALUE_LOOP := For([], None, Some("k"), [])

  const VALUE_TARGET := TARGET.(inits := 1)

  lemma ValuePrepared()
    ensures Traversal(VALUE_LOOP, Inside(DECLARED, LOG)) == Compiled([], Inside(VALUE_TARGET, LOG))
  {
    PutInside(DECLARED, DECLARED, LOG);
    PutInside(DECLARED, TARGET, LOG);
    PutInside(TARGET, VALUE_TARGET, LOG);
    var prepare := [ForceNull, Record(Target), Count];
    assert Act(ForceNull, "k", Inside(DECLARED, LOG)) == Compiled([], Inside(DECLARED, LOG));
    assert Act(Record(Target), "k", Inside(DECLARED, LOG)) == Compiled([], Inside(TARGET, LOG));
    assert Act(Count, "k", Inside(TARGET, LOG)) == Compiled([], Inside(VALUE_TARGET, LOG));
    assert prepare[1..] == [Record(Target), Count] && prepare[1..][1..] == [Count] && [Count][1..] == [];
    assert ActAll([Count], "k", Inside(TARGET, LOG)) == Compiled([] + [], Inside(VALUE_TARGET, LOG));
    assert ActAll(prepare[1..], "k", Inside(DECLARED, LOG)) == Compiled([] + [], Inside(VALUE_TARGET, LOG));
    assert ActAll(prepare, "k", Inside(DECLARED, LOG)) == Compiled([] + [], Inside(VALUE_TARGET, LOG));
  }

  const VALUE_ROUND := Each([Emit(Init("k", ValueInit))])

  lemma ValueLoop()
    ensures Compile(VALUE_LOOP, Inside(DECLARED, LOG)) == Compiled([Either([Leave(Returns)], []), VALUE_ROUND], Inside(VALUE_TARGET, LOG))
  {
    ValuePrepared();
    var inside := InCycle(Inside(VALUE_TARGET, LOG), 1);
    PutInside(VALUE_TARGET, VALUE_TARGET, LOG);
    assert Act(Perform(ValueInit), "k", inside) == Compiled(VALUE_ROUND.body, inside);
    assert [Perform(ValueInit)][1..] == [];
    assert ActAll([Perform(ValueInit)], "k", inside) == Compiled(VALUE_ROUND.body + [], inside);
    assert CompileRound(VALUE_LOOP, inside) == Compiled(VALUE_ROUND.body, inside);
    assert InCycle(inside, -1) == Inside(VALUE_TARGET, LOG);
    assert [] + [Either([Leave(Returns)], []), VALUE_ROUND] == [Either([Leave(Returns)], []), VALUE_ROUND];
  }

  const NOTHING_TRAVERSED := [No([]), Rounds([])]

  lemma NoRoundsRun()
    ensures RunAll([Either([Leave(Returns)], []), VALUE_ROUND], NOTHING_TRAVERSED) == Run([], Normal)
  {
    var loop := [Either([Leave(Returns)], []), VALUE_ROUND];
    assert loop[1..] == [VALUE_ROUND] && NOTHING_TRAVERSED[1..] == [Rounds([])];
    assert [VALUE_ROUND][1..] == [] && [Rounds([])][1..] == [];
    assert RunAll([VALUE_ROUND], [Rounds([])]) == Run([] + [], Normal);
    assert RunAll(loop, NOTHING_TRAVERSED) == Run([] + [], Normal);
  }

  /** `var k; for k in ... { } return k;` where nothing is traversed */
  lemma TargetIsNoValue()
    ensures var b := [DECLARE, VALUE_LOOP, RETURN];
      && Entry(START) && CompileMethod(b, START).Compiled?
      && RunAll(CompileMethod(b, START).code, NOTHING_TRAVERSED + [Plain, Plain]) == Run([Reading("k", {Announced, Target})], Returns)
  {
    ValueLoop();
    NoRoundsRun();
    assert [] + [Reading("k", {Announced, Target})] == [Reading("k", {Announced, Target})];
    ReadAfter(VALUE_LOOP, [Either([Leave(Returns)], []), VALUE_ROUND], VALUE_TARGET, LOG, Target, NOTHING_TRAVERSED);
  }

  lemma MarkKinds(marks: seq<Mark>)
    requires |marks| == 2
    ensures (set m <- marks :: m.kind) == {marks[0].kind, marks[1].kind}
  {
    assert marks[0] in marks && marks[1] in marks;
    assert forall m <- marks :: m == marks[0] || m == marks[1];
  }

  /** `catch E, k { }` */
  const CATCH_K := Catch("k", [Arm([])])

  const TESTED := [Emit(Reading("k", {Announced, Target})), Either([], [])]

  const HANDLER := [Emit(Init("k", CatchCopy))] + TESTED

  /** A branch opened in the root branch. */
  function Inner(log: seq<Branch>, kind: BranchType, unreachable: Option<bool>): Branch {
    Branch(Some(ROOT), 2, |log| + 1, kind, unreachable)
  }

  /** A block whose statements leave the state alone. */
  lemma QuietBlock(b: Block, kind: BranchType, unreachable: Option<bool>, code: seq<Code>, v: VarState, log: seq<Branch>)
    requires var start := Opened(b, false, unreachable, kind, Inside(v, log)); CompileAll(b, start) == Compiled(code, start)
    ensures CompileBlock(b, false, unreachable, kind, Inside(v, log)) ==
            Compiled(code, Inside(v, log + [Inner(log, kind, unreachable)]))
  {
  }

  lemma Caught(log: seq<Branch>)
    ensures ActAll([ForceNull, Perform(CatchCopy), Record(Target)], "k", Inside(DECLARED, log)) ==
            Compiled([Emit(Init("k", CatchCopy))], Inside(TARGET, log))
  {
    PutInside(DECLARED, DECLARED, log);
    PutInside(DECLARED, TARGET, log);
    var st, to, copy := Inside(DECLARED, log), Inside(TARGET, log), [Emit(Init("k", CatchCopy))];
    var actions := [ForceNull, Perform(CatchCopy), Record(Target)];
    assert Act(ForceNull, "k", st) == Compiled([], st) && Act(Record(Target), "k", st) == Compiled([], to);
    assert Act(Perform(CatchCopy), "k", st) == Compiled(copy, st);
    assert actions[1..] == [Perform(CatchCopy), Record(Target)] && actions[1..][1..] == [Record(Target)] && [Record(Target)][1..] == [];
    assert ActAll([Record(Target)], "k", st) == Compiled([] + [], to);
    assert ActAll(actions[1..], "k", st) == Compiled(copy + [], to);
    assert ActAll(actions, "k", st) == Compiled([] + copy, to);
  }

  /** The caught variable is read to test the class of the exception. */
  lemma TestsClass(log: seq<Branch>)
    ensures ReadAll(["k"], Inside(TARGET, log)) == Compiled([TESTED[0]], Inside(TARGET, log))
  {
    var st, read := Inside(TARGET, log), [TESTED[0]];
    PutInside(TARGET, TARGET, log);
    MarkKinds(TARGET.marks);
    assert TARGET.marks[0] in TARGET.marks && Vouches(TARGET.marks[0], Some(ROOT));
    assert Vias(TARGET.marks, Some(ROOT)) == {Announced, Target};
    assert Read("k", st) == Compiled([] + read, st);
    assert ["k"][1..] == [];
    assert ReadAll(["k"], st) == Compiled(read + [], st);
  }

  function Handled(log: seq<Branch>): seq<Branch> {
    log + [Inner(log, ConditionalTrue, None)]
  }

  lemma HandlerCompiles(log: seq<Branch>)
    ensures CompileHandlers("k", [Arm([])], Inside(TARGET, log)) == Compiled(TESTED, Inside(TARGET, Handled(log)))
  {
    TestsClass(log);
    QuietBlock([], ConditionalTrue, None, [], TARGET, log);
    assert [Arm([])][1..] == [] && CompileHandlers("k", [], Inside(TARGET, Handled(log))) == Compiled([], Inside(TARGET, Handled(log)));
    assert [TESTED[0]] + [Either([], [])] + [] == TESTED;
  }

  lemma CatchCompiles(log: seq<Branch>)
    ensures CompileCatches([CATCH_K], Inside(DECLARED, log)) == Compiled(HANDLER, Inside(TARGET, Handled(log)))
  {
    Caught(log);
    HandlerCompiles(log);
    assert CompileCatch(CATCH_K, Inside(DECLARED, log)) == Compiled(HANDLER, Inside(TARGET, Handled(log)));
    assert [CATCH_K][1..] == [] && HANDLER + [] == HANDLER;
    assert CompileCatches([], Inside(TARGET, Handled(log))) == Compiled([], Inside(TARGET, Handled(log)));
  }

  function AfterBody(log: seq<Branch>): seq<Branch> {
    log + [Inner(log, Unknown, Some(false))]
  }

  /** `try { body } catch E, k { }`, for a body that leaves the state alone. */
  lemma TryCompiles(body: Block, code: seq<Code>)
    requires body != []
    requires var start := Opened(body, false, Some(false), Unknown, Inside(DECLARED, LOG)); CompileAll(body, start) == Compiled(code, start)
    ensures Compile(Try(body, [CATCH_K]), Inside(DECLARED, LOG)) ==
            Compiled([Guarded(code, HANDLER)], Inside(TARGET, Handled(AfterBody(LOG))))
  {
    QuietBlock(body, Unknown, Some(false), code, DECLARED, LOG);
    CatchCompiles(AfterBody(LOG));
    assert CompileTry(Try(body, [CATCH_K]), Inside(DECLARED, LOG)) ==
           Compiled([Guarded(code, HANDLER)], Inside(TARGET, Handled(AfterBody(LOG))));
  }

  /** A call that may throw. */
  const CALL := [Evaluate([], true)]

  lemma CallCompiles(st: State)
    ensures CompileAll(CALL, st) == Compiled([MayThrow], st)
  {
    assert [] + [MayThrow] == [MayThrow] && [MayThrow] + [] == [MayThrow] && CALL[1..] == [];
    assert Compile(CALL[0], st) == Compiled([MayThrow], st);
  }

  /** `var k; try { f(); } catch E, k { } return k;` where nothing is thrown */
  lemma CaughtIsNoValue()
    ensures var b := [DECLARE, Try(CALL, [CATCH_K]), RETURN];
      && Entry(START) && CompileMethod(b, START).Compiled?
      && RunAll(CompileMethod(b, START).code, [Tried([Plain], [])] + [Plain, Plain]) ==
         Run([Reading("k", {Announced, Target})], Returns)
  {
    CallCompiles(Opened(CALL, false, Some(false), Unknown, Inside(DECLARED, LOG)));
    TryCompiles(CALL, [MayThrow]);
    var guarded, path := [Guarded([MayThrow], HANDLER)], [Tried([Plain], [])];
    assert [MayThrow][1..] == [] && [Plain][1..] == [] && guarded[1..] == [] && path[1..] == [];
    assert RunAll([MayThrow], [Plain]) == Run([] + [], Normal);
    assert RunAll(guarded, path) == Run([] + [], Normal);
    assert [] + [Reading("k", {Announced, Target})] == [Reading("k", {Announced, Target})];
    ReadAfter(Try(CALL, [CATCH_K]), guarded, TARGET, Handled(AfterBody(LOG)), Target, path);
  }

  const CATCH_PROGRAM := [DECLARE, Try(CALL, [CATCH_K]), Let([], "k", Variant)]

  const CATCH_CODE := [Guarded([MayThrow], HANDLER)] + [Emit(Init("k", InitVar)), Emit(Assigned("k"))]

  lemma CatchProgramCompiles()
    ensures Entry(START) && CompileMethod(CATCH_PROGRAM, START).Compiled? && CompileMethod(CATCH_PROGRAM, START).code == CATCH_CODE
  {
    Declares();
    CallCompiles(Opened(CALL, false, Some(false), Unknown, Inside(DECLARED, LOG)));
    TryCompiles(CALL, [MayThrow]);
    FirstLet(TARGET, Handled(AfterBody(LOG)));
    var caught := Inside(TARGET, Handled(AfterBody(LOG)));
    var last := Compile(CATCH_PROGRAM[2], caught);
    Three(DECLARE, [], Inside(DECLARED, LOG), CATCH_PROGRAM[1], [Guarded([MayThrow], HANDLER)], caught, CATCH_PROGRAM[2]);
    assert [] + ([Guarded([MayThrow], HANDLER)] + last.code) == CATCH_CODE;
    MethodIs(CATCH_PROGRAM, CATCH_CODE, last.state);
  }

  const CATCH_PATH := [Tried([Raises], [Plain, Plain, Yes([])])] + [Plain, Plain]

  const CATCH_TRACE := [Init("k", CatchCopy), Reading("k", {Announced, Target})] + [Init("k", InitVar), Assigned("k")]

  lemma HandlerRun()
    ensures RunAll(HANDLER, [Plain, Plain, Yes([])]) == Run([Init("k", CatchCopy), Reading("k", {Announced, Target})], Normal)
  {
    var test, steps := [Either([], [])], [Yes([])];
    assert test[1..] == [] && steps[1..] == [] && RunAll([], []) == Run([], Normal);
    assert RunAll(test, steps) == Run([] + [], Normal);
    RunsPlain(Reading("k", {Announced, Target}), test, steps);
    assert TESTED == [TESTED[0]] + test && [Plain, Yes([])] == [Plain] + steps;
    RunsPlain(Init("k", CatchCopy), TESTED, [Plain, Yes([])]);
    assert [Plain, Plain, Yes([])] == [Plain] + [Plain, Yes([])];
  }

  /** `var k; try { f(); } catch E, k { } let k = ...;`: the caught variable is not counted either. */
  lemma FirstTimeMacroAfterCatch()
    ensures Entry(START) && CompileMethod(CATCH_PROGRAM, START).Compiled?
    ensures RunAll(CompileMethod(CATCH_PROGRAM, START).code, CATCH_PATH).trace == CATCH_TRACE
  {
    CatchProgramCompiles();
    HandlerRun();
    LastRun();
    var guarded, path := [Guarded([MayThrow], HANDLER)], [Tried([Raises], [Plain, Plain, Yes([])])];
    assert guarded[1..] == [] && path[1..] == [] && RunAll([MayThrow], [Raises]) == Run([], Throws);
    var caught := [Init("k", CatchCopy), Reading("k", {Announced, Target})];
    assert [] + caught == caught && caught + [] == caught;
    assert RunAll(guarded, path) == Run(caught, Normal);
    RunsThen(guarded, [Emit(Init("k", InitVar)), Emit(Assigned("k"))], path, [Plain, Plain]);
    assert KEY_CODE[2..] == [Emit(Init("k", InitVar)), Emit(Assigned("k"))] && KEY_PATH[2..] == [Plain, Plain];
  }

  const SELF_LET := Let(["k"], "k", Copy(Some("k")))

  const RETAINED := DECLARED.(marks := DECLARED.marks + [Mark(ROOT, Itself)])

  lemma ReadsIt()
    ensures ReadAll(["k"], Inside(DECLARED, LOG)) == Compiled([Emit(Reading("k", {Announced}))], Inside(DECLARED, LOG))
  {
    var st, read := Inside(DECLARED, LOG), [Emit(Reading("k", {Announced}))];
    PutInside(DECLARED, DECLARED, LOG);
    assert DECLARED.marks[0] in DECLARED.marks && Vouches(DECLARED.marks[0], Some(ROOT));
    assert Vias(DECLARED.marks, Some(ROOT)) == {Announced};
    assert Read("k", st) == Compiled([] + read, st);
    assert ["k"][1..] == [];
    assert ReadAll(["k"], st) == Compiled(read + [], st);
  }

  lemma SelfLet()
    ensures Compile(SELF_LET, Inside(DECLARED, LOG)) == Compiled([Emit(Reading("k", {Announced}))], Inside(RETAINED, LOG))
  {
    var st, read := Inside(DECLARED, LOG), [Emit(Reading("k", {Announced}))];
    ReadsIt();
    PutInside(DECLARED, DECLARED, LOG);
    PutInside(DECLARED, RETAINED, LOG);
    assert Act(Record(Itself), "k", st) == Compiled([], Inside(RETAINED, LOG));
    assert [Record(Itself)][1..] == [];
    assert ActAll([Record(Itself)], "k", st) == Compiled([] + [], Inside(RETAINED, LOG));
    assert read + [] == read;
  }

  /** `var k; let k = k; return k;`: the assignment is recorded, but it emits nothing. */
  lemma AssigningItselfIsNoValue()
    ensures var b := [DECLARE, SELF_LET, RETURN];
      && Entry(START) && CompileMethod(b, START).Compiled?
      && RunAll(CompileMethod(b, START).code, [Plain] + [Plain, Plain]) ==
         Run([Reading("k", {Announced})] + [Reading("k", {Announced, Itself})], Returns)
  {
    SelfLet();
    var read := [Emit(Reading("k", {Announced}))];
    RunsPlain(Reading("k", {Announced}), [], []);
    assert read + [] == read && [Plain] + [] == [Plain];
    assert RunAll(read, [Plain]) == Run([Reading("k", {Announced})] + [], Normal);
    ReadAfter(SELF_LET, read, RETAINED, LOG, Itself, [Plain]);
  }

  /** Whether the code reads x on nothing but its declaration. */
  predicate ReadsTooEarly(code: seq<Code>, x: string) {
    Emit(Reading(x, {Announced})) in code
  }

  /**
   A variable is marked as initialized before its initializer is compiled, so the read check accepts
   `int n = n;` and `var k = k;` too: it lets a read through too early exactly when the initializer
   reads the variable being declared.
   */
  lemma InitializerReadsItself(x: string, dataType: DataType, init: Initializer, st: State)
    requires Inv(st) && !Reserved(x) && Declaration(x, dataType, Some(init), st).Compiled?
    ensures ReadsTooEarly(Declaration(x, dataType, Some(init), st).code, x) <==> x in init.uses
  {
    var v := NewVariable(x, dataType, st.place.branch.value);
    var added := Put(st, x, v);
    var action := Record(Announced);
    assert [action][1..] == [];
    var marked := Put(added, x, MarkedInitialized(v, st.place.branch, Announced));
    assert Act(action, x, added) == Compiled([], marked);
    assert ActAll([action], x, added) == Compiled([] + [], marked);
    assert marked.vars[x].marks == [Mark(st.place.branch.value, Announced)];
    EarlyReads(init.uses, x, marked);
    var read := ReadAll(init.uses, marked);
    ActionsReadNothing(Actions(init.how, x), x, x, read.state);
  }

  lemma {:induction false} EarlyReads(xs: seq<string>, x: string, st: State)
    requires x in st.vars && st.vars[x].skips == 0 && !st.vars[x].reserved
    requires st.place.branch.Some? && st.vars[x].marks == [Mark(st.place.branch.value, Announced)]
    requires ReadAll(xs, st).Compiled?
    ensures ReadsTooEarly(ReadAll(xs, st).code, x) <==> x in xs
  {
    if xs != [] {
      var first := Read(xs[0], st);
      var marks := st.vars[x].marks;
      assert Vouches(marks[0], st.place.branch) && marks[0] in marks;
      assert Vias(marks, st.place.branch) == {Announced};
      EarlyReads(xs[1..], x, first.state);
    }
  }

  lemma {:induction false} ActionsReadNothing(actions: seq<Action>, x: string, y: string, st: State)
    requires ActAll(actions, x, st).Compiled?
    ensures !ReadsTooEarly(ActAll(actions, x, st).code, y)
  {
    if actions != [] {
      ActionsReadNothing(actions[1..], x, y, Act(actions[0], x, st).state);
    }
  }
}
