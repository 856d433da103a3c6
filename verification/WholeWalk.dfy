/**
 The induction over statements: every successful compilation keeps the facts of module Walks.
 */
module WholeWalk {
  import opened Wrappers
  import opened Branches
  import opened Variables
  import opened Statements
  import opened Walks
  import opened Discipline

  lemma OpenedInv(b: Block, loop: bool, unreachable: Option<bool>, kind: BranchType, st: State)
    requires Inv(st)
    ensures Inv(Opened(b, loop, unreachable, kind, st)) && Opened(b, loop, unreachable, kind, st).place.depth >= 1
    ensures !Safe(kind) ==> Known(Opened(b, loop, unreachable, kind, st)) <= Known(st)
  {
    var start := Opened(b, loop, unreachable, kind, st);
    RecordedIsWellFormed(st.log, st.place.branch.value);
    HistoryExtends(st.log, start.place.branch.value);
    forall x <- st.vars ensures Placed(st.vars[x], start.log) && st.vars[x].home != start.place.branch.value {
      assert Placed(st.vars[x], st.log);
      forall m <- st.vars[x].marks ensures Recorded(start.log, m.branch) {
        assert Recorded(st.log, m.branch);
      }
    }
  }

  /** A block opens a branch of its own and closes it again. */
  lemma BlockKept(b: Block, loop: bool, unreachable: Option<bool>, kind: BranchType, st: State, code: seq<Code>, end: State)
    requires Inv(st) && !Safe(kind)
    requires Kept(Opened(b, loop, unreachable, kind, st), code, end)
    ensures KeptBlock(st, code, Closed(loop, Opened(b, loop, unreachable, kind, st).place.branch.value, end))
  {
    var start := Opened(b, loop, unreachable, kind, st);
    var to := Closed(loop, start.place.branch.value, end);
    OpenedInv(b, loop, unreachable, kind, st);
    ClosedRestores(b, loop, unreachable, kind, st, code, end);
    CoveredMore(code, Known(start), Known(st));
    forall x ensures Initializes(x, st, code, to) && Records(x, st, to) {
      assert Initializes(x, start, code, end) && Records(x, start, end);
    }
    forall x | x in Known(to) ensures x in Known(st) {
      assert Records(x, start, end);
      NoNewVouching(x, st, to);
    }
  }

  lemma ClosedRestores(b: Block, loop: bool, unreachable: Option<bool>, kind: BranchType, st: State, code: seq<Code>, end: State)
    requires Inv(st) && Kept(Opened(b, loop, unreachable, kind, st), code, end)
    ensures var to := Closed(loop, Opened(b, loop, unreachable, kind, st).place.branch.value, end);
      Inv(to) && Restores(st, to)
  {
    var start := Opened(b, loop, unreachable, kind, st);
    var p := st.place;
    assert (p.cycles + [b])[..|p.cycles + [b]| - 1] == p.cycles;
    if p.branch.Some? {
      AncestorsAreRecorded(end.log, p.branch.value, start.place.branch.value);
    }
  }

  /** Branches opened inside cannot vouch outside. */
  lemma NoNewVouching(x: string, st: State, to: State)
    requires Inv(st) && to.place == st.place && x in Known(to) && Restores(st, to)
    requires Marks(st, x) <= Marks(to, x)
    requires forall i :: |Marks(st, x)| <= i < |Marks(to, x)| ==> Inner(Marks(to, x)[i].branch, st)
    ensures x in Known(st)
  {
    var m :| m in Marks(to, x) && Guaranteed(m.kind) && Vouches(m, to.place.branch);
    var i :| 0 <= i < |Marks(to, x)| && Marks(to, x)[i] == m;
    assert i < |Marks(st, x)|;
    assert m in Marks(st, x);
  }

  /** Code that assigns nothing at its top level. */
  lemma Closes(st: State, c: Code, to: State)
    requires KeptBlock(st, [c], to) && !c.Emit?
    ensures Kept(st, [c], to)
  {
  }

  /** Two alternatives, or a guarded block and its handler. */
  lemma JoinKept(a: State, yes: seq<Code>, b: State, no: seq<Code>, e: State, c: Code)
    requires KeptBlock(a, yes, b) && KeptBlock(b, no, e)
    requires c == Either(yes, no) || c == Guarded(yes, no)
    ensures KeptBlock(a, [c], e)
  {
    KeptBlockThen(a, yes, b, no, e);
    ExitsThen(yes, no);
    forall x ensures Initializes(x, a, [c], e) {
      OpsThen(yes, no, x);
      Single(c, x, Known(a));
      assert Initializes(x, a, yes, b) && Initializes(x, b, no, e) && Initializes(x, a, yes + no, e);
    }
    CoveredMore(no, Known(b), Known(a));
    Single(c, "", Known(a));
  }

  lemma InCycleInv(st: State, change: int)
    requires Inv(st) && st.place.cycle + change >= 0
    ensures Inv(InCycle(st, change)) && Known(InCycle(st, change)) == Known(st)
  {
  }

  /** A loop around code compiled with the cycle counter raised. */
  lemma LoopKept(st: State, code: seq<Code>, end: State, c: Code)
    requires Inv(st) && KeptBlock(InCycle(st, 1), code, end)
    requires Breaks !in ExitsOf(c) && Continues !in ExitsOf(c) && CoveredIn(c, Known(st)) && !c.Emit?
    requires forall x :: OpsOf(c, x) == Ops(code, x) && (!SomeFirst(Ops(code, x)) ==> OrderedIn(c, x))
    ensures KeptBlock(st, [c], InCycle(end, -1)) && Kept(st, [c], InCycle(end, -1))
  {
    var to := InCycle(end, -1);
    InCycleInv(end, -1);
    forall x ensures Initializes(x, st, [c], to) && Records(x, st, to) {
      assert Initializes(x, InCycle(st, 1), code, end) && Records(x, InCycle(st, 1), end);
      Single(c, x, Known(st));
    }
    Single(c, "", Known(st));
  }

  lemma SimpleLoopKept(st: State, code: seq<Code>, end: State, c: Code)
    requires Inv(st) && KeptBlock(InCycle(st, 1), code, end) && (c == Forever(code) || c == Each(code))
    ensures Kept(st, [c], InCycle(end, -1)) && KeptBlock(st, [c], InCycle(end, -1))
  {
    InCycleInv(st, 1);
    LoopKept(st, code, end, c);
  }

  lemma RepeatKept(st: State, body: seq<Code>, mid: State, test: seq<Code>, end: State)
    requires Inv(st) && KeptBlock(InCycle(st, 1), body, mid) && KeptBlock(mid, test, end)
    requires Exits(test) == {}
    ensures Kept(st, [Repeat(body, test)], InCycle(end, -1))
  {
    InCycleInv(st, 1);
    KeptBlockThen(InCycle(st, 1), body, mid, test, end);
    CoveredMore(test, Known(mid), Known(st));
    forall x ensures OpsOf(Repeat(body, test), x) == Ops(body + test, x) {
      OpsThen(body, test, x);
    }
    LoopKept(st, body + test, end, Repeat(body, test));
  }

  lemma LeaveKept(st: State, exit: Exit)
    requires Inv(st) && (exit == Breaks ==> st.place.cycle > 0 || st.inSwitch > 0) && (exit == Continues ==> st.place.cycle > 0)
    ensures Kept(st, [Leave(exit)], st) && KeptBlock(st, [Leave(exit)], st)
  {
    forall x ensures Initializes(x, st, [Leave(exit)], st) {
      Single(Leave(exit), x, Known(st));
    }
    Single(Leave(exit), "", Known(st));
  }

  lemma MayThrowKept(st: State)
    requires Inv(st)
    ensures Kept(st, [MayThrow], st)
  {
    forall x ensures Initializes(x, st, [MayThrow], st) {
      Single(MayThrow, x, Known(st));
    }
    Single(MayThrow, "", Known(st));
  }

  lemma OnceKept(st: State, code: seq<Code>, end: State)
    requires Inv(st) && KeptBlock(InSwitch(st, 1), code, end)
    ensures Kept(st, [Once(code)], InSwitch(end, -1))
  {
    var raised, to := InSwitch(st, 1), InSwitch(end, -1);
    forall x ensures Initializes(x, st, [Once(code)], to) && Records(x, st, to) {
      assert Initializes(x, raised, code, end) && Records(x, raised, end);
      Single(Once(code), x, Known(st));
    }
    assert Known(raised) == Known(st) && Known(end) == Known(to);
    Single(Once(code), "", Known(st));
  }

  /** Code without jumps does not care about the switch counter. */
  lemma SwitchCounterKept(st: State, code: seq<Code>, end: State, down: int)
    requires Inv(st) && KeptBlock(InSwitch(st, 1), code, end) && Exits(code) == {} && 0 <= down <= 1
    ensures Kept(st, code, InSwitch(end, -down))
  {
    var raised, to := InSwitch(st, 1), InSwitch(end, -down);
    forall x ensures Initializes(x, st, code, to) && Records(x, st, to) {
      assert Initializes(x, raised, code, end) && Records(x, raised, end);
    }
    assert Known(raised) == Known(st) && Known(end) == Known(to);
  }

  lemma IndentedKept(st: State, code: seq<Code>, end: State)
    requires Inv(st) && KeptBlock(Indented(st, 1), code, end)
    ensures KeptBlock(st, code, Indented(end, -1)) && Inv(Indented(st, 1))
  {
    var up, to := Indented(st, 1), Indented(end, -1);
    forall x ensures Initializes(x, st, code, to) && Records(x, st, to) {
      assert Initializes(x, up, code, end) && Records(x, up, end);
    }
    assert Known(up) == Known(st) && Known(end) == Known(to);
  }

  lemma EitherKept(st: State, yes: seq<Code>, to: State)
    requires KeptBlock(st, yes, to)
    ensures KeptBlock(st, [Either(yes, [])], to)
  {
    Nothing(to);
    JoinKept(st, yes, to, [], to, Either(yes, []));
  }

  // The induction

  lemma {:induction false} CompileBlockKept(b: Block, loop: bool, unreachable: Option<bool>, kind: BranchType, st: State)
    requires Inv(st) && !Safe(kind) && CompileBlock(b, loop, unreachable, kind, st).Compiled?
    ensures var r := CompileBlock(b, loop, unreachable, kind, st); KeptBlock(st, r.code, r.state)
    decreases b, 1
  {
    var start := Opened(b, loop, unreachable, kind, st);
    OpenedInv(b, loop, unreachable, kind, st);
    CompileAllKept(b, start);
    var body := CompileAll(b, start);
    BlockKept(b, loop, unreachable, kind, st, body.code, body.state);
  }

  lemma {:induction false} CompileOptionalKept(b: Block, loop: bool, unreachable: Option<bool>, kind: BranchType, st: State)
    requires Inv(st) && !Safe(kind) && CompileOptional(b, loop, unreachable, kind, st).Compiled?
    ensures var r := CompileOptional(b, loop, unreachable, kind, st); KeptBlock(st, r.code, r.state)
    decreases b, 2
  {
    if b == [] {
      Nothing(st);
    } else {
      CompileBlockKept(b, loop, unreachable, kind, st);
    }
  }

  lemma {:induction false} CompileAllKept(ss: seq<Stmt>, st: State)
    requires Inv(st) && st.place.depth >= 1 && CompileAll(ss, st).Compiled?
    ensures Kept(st, CompileAll(ss, st).code, CompileAll(ss, st).state)
    decreases ss, 0
  {
    if ss == [] {
      Nothing(st);
    } else {
      var first := Compile(ss[0], st);
      CompileKept(ss[0], st);
      CompileAllKept(ss[1..], first.state);
      var rest := CompileAll(ss[1..], first.state);
      KeptThen(st, first.code, first.state, rest.code, rest.state);
    }
  }

  lemma {:induction false} CompileArmsKept(s: Stmt, k: nat, st: State)
    requires Inv(st) && s.If? && k <= |s.elseIfs| && CompileArms(s, k, st).Compiled?
    ensures KeptBlock(st, CompileArms(s, k, st).code, CompileArms(s, k, st).state)
    decreases s, 0, |s.elseIfs| - k
  {
    if k == |s.elseIfs| {
      CompileOptionalKept(s.els, false, s.unreachableElse, ConditionalFalse, st);
    } else if s.elseIfs[k].body == [] {
      CompileArmsKept(s, k + 1, st);
    } else {
      var first := CompileBlock(s.elseIfs[k].body, false, s.unreachable, ConditionalTrue, st);
      CompileBlockKept(s.elseIfs[k].body, false, s.unreachable, ConditionalTrue, st);
      CompileArmsKept(s, k + 1, first.state);
      var rest := CompileArms(s, k + 1, first.state);
      JoinKept(st, first.code, first.state, rest.code, rest.state, Either(first.code, rest.code));
    }
  }

  lemma ConditionKept(s: Stmt, st: State)
    requires Inv(st) && st.place.depth >= 1 && s.If? && Condition(s, st).Compiled?
    ensures Kept(st, Condition(s, st).code, Condition(s, st).state)
  {
    var test := ReadAll(s.test, st);
    ReadAllKept(s.test, st);
    var hoisted := MovedOut(s);
    HoistKept(hoisted, test.state);
    var hoist := Hoist(hoisted, test.state);
    KeptThen(st, test.code, test.state, hoist.code, hoist.state);
  }

  lemma {:induction false} CompileIfKept(s: Stmt, st: State)
    requires Inv(st) && st.place.depth >= 1 && s.If? && CompileIf(s, st).Compiled?
    ensures Kept(st, CompileIf(s, st).code, CompileIf(s, st).state)
    decreases s, 1
  {
    var condition := Condition(s, st);
    ConditionKept(s, st);
    var body := CompileOptional(s.body, false, s.unreachable, ConditionalTrue, condition.state);
    CompileOptionalKept(s.body, false, s.unreachable, ConditionalTrue, condition.state);
    CompileArmsKept(s, 0, body.state);
    var arms := CompileArms(s, 0, body.state);
    var c := Either(body.code, arms.code);
    JoinKept(condition.state, body.code, body.state, arms.code, arms.state, c);
    Closes(condition.state, c, arms.state);
    KeptThen(st, condition.code, condition.state, [c], arms.state);
  }

  lemma {:induction false} CompileWhileKept(s: Stmt, st: State)
    requires Inv(st) && s.While? && CompileWhile(s, st).Compiled?
    ensures Kept(st, CompileWhile(s, st).code, CompileWhile(s, st).state)
    decreases s, 0
  {
    var inside := InCycle(st, 1);
    InCycleInv(st, 1);
    var test := ReadAll(s.test, inside);
    ReadAllKept(s.test, inside);
    LeaveKept(test.state, Breaks);
    EitherKept(test.state, [Leave(Breaks)], test.state);
    var stop := [Either([Leave(Breaks)], [])];
    KeptBlockThen(inside, test.code, test.state, stop, test.state);
    var body := CompileOptional(s.body, true, Some(false), Unknown, test.state);
    CompileOptionalKept(s.body, true, Some(false), Unknown, test.state);
    KeptBlockThen(inside, test.code + stop, test.state, body.code, body.state);
    SimpleLoopKept(st, test.code + stop + body.code, body.state, Forever(test.code + stop + body.code));
  }

  lemma {:induction false} CompileDoWhileKept(s: Stmt, st: State)
    requires Inv(st) && s.DoWhile? && CompileDoWhile(s, st).Compiled?
    ensures Kept(st, CompileDoWhile(s, st).code, CompileDoWhile(s, st).state)
    decreases s, 0
  {
    InCycleInv(st, 1);
    var body := CompileOptional(s.body, false, Some(false), Unknown, InCycle(st, 1));
    CompileOptionalKept(s.body, false, Some(false), Unknown, InCycle(st, 1));
    ReadAllKept(s.test, body.state);
    var test := ReadAll(s.test, body.state);
    RepeatKept(st, body.code, body.state, test.code, test.state);
  }

  lemma {:induction false} CompileLoopKept(s: Stmt, st: State)
    requires Inv(st) && s.Loop? && CompileLoop(s, st).Compiled?
    ensures Kept(st, CompileLoop(s, st).code, CompileLoop(s, st).state)
    decreases s, 0
  {
    InCycleInv(st, 1);
    var body := CompileBlock(s.body, true, Some(false), LoopInfinite, InCycle(st, 1));
    CompileBlockKept(s.body, true, Some(false), LoopInfinite, InCycle(st, 1));
    SimpleLoopKept(st, body.code, body.state, Forever(body.code));
  }

  predicate Ready(s: Stmt, st: State)
    requires s.For?
  {
    NullOptional(st, s.key) && NullOptional(st, s.value) && SettledOptional(st, s.value)
  }

  lemma TraversalKept(s: Stmt, st: State)
    requires Inv(st) && st.place.depth >= 1 && s.For? && Traversal(s, st).Compiled?
    ensures Kept(st, Traversal(s, st).code, Traversal(s, st).state) && Ready(s, Traversal(s, st).state)
  {
    var over := ReadAll(s.over, st);
    ReadAllKept(s.over, st);
    PrepareKept(s.key, s.value, over.state);
    var targets := Prepare(s.key, s.value, over.state);
    KeptThen(st, over.code, over.state, targets.code, targets.state);
  }

  lemma {:induction false} CompileRoundKept(s: Stmt, st: State)
    requires Inv(st) && st.place.depth >= 1 && s.For? && Ready(s, st) && CompileRound(s, st).Compiled?
    ensures KeptBlock(st, CompileRound(s, st).code, CompileRound(s, st).state)
    decreases s, 0
  {
    var fetch := Fetch(s.key, s.value, st);
    FetchKept(s.key, s.value, st);
    var body := CompileOptional(s.body, true, Some(false), Unknown, fetch.state);
    CompileOptionalKept(s.body, true, Some(false), Unknown, fetch.state);
    KeptBlockThen(st, fetch.code, fetch.state, body.code, body.state);
  }

  /** The test of zephir_is_iterable, which leaves the method, in front of a loop. */
  lemma GuardedLoopKept(st: State, c: Code, to: State)
    requires Inv(st) && Kept(st, [c], to)
    ensures Kept(st, [Either([Leave(Returns)], []), c], to)
  {
    var guard := Either([Leave(Returns)], []);
    LeaveKept(st, Returns);
    EitherKept(st, [Leave(Returns)], st);
    Closes(st, guard, st);
    KeptThen(st, [guard], st, [c], to);
    assert [guard] + [c] == [guard, c];
  }

  lemma {:induction false} CompileForKept(s: Stmt, st: State)
    requires Inv(st) && st.place.depth >= 1 && s.For? && CompileFor(s, st).Compiled?
    ensures Kept(st, CompileFor(s, st).code, CompileFor(s, st).state)
    decreases s, 1
  {
    var traversal := Traversal(s, st);
    TraversalKept(s, st);
    var before := traversal.state;
    InCycleInv(before, 1);
    CompileRoundKept(s, InCycle(before, 1));
    var round := CompileRound(s, InCycle(before, 1));
    SimpleLoopKept(before, round.code, round.state, Each(round.code));
    GuardedLoopKept(before, Each(round.code), InCycle(round.state, -1));
    KeptThen(st, traversal.code, before, [Either([Leave(Returns)], []), Each(round.code)], InCycle(round.state, -1));
  }

  lemma {:induction false} CompileCasesKept(cases: seq<Case>, st: State)
    requires Inv(st) && CompileCases(cases, st).Compiled?
    ensures KeptBlock(st, CompileCases(cases, st).code, CompileCases(cases, st).state)
    decreases cases, 0
  {
    if cases == [] {
      Nothing(st);
    } else {
      var test := ReadAll(cases[0].test, st);
      ReadAllKept(cases[0].test, st);
      var body := CompileBlock(cases[0].body, false, Some(false), BranchType.Switch, test.state);
      CompileBlockKept(cases[0].body, false, Some(false), BranchType.Switch, test.state);
      EitherKept(test.state, body.code, body.state);
      var arm := [Either(body.code, [])];
      KeptBlockThen(st, test.code, test.state, arm, body.state);
      CompileCasesKept(cases[1..], body.state);
      var rest := CompileCases(cases[1..], body.state);
      KeptBlockThen(st, test.code + arm, body.state, rest.code, rest.state);
    }
  }

  lemma {:induction false} CompileClausesKept(s: Stmt, st: State)
    requires Inv(st) && s.Switch? && CompileClauses(s, st).Compiled?
    ensures KeptBlock(st, CompileClauses(s, st).code, CompileClauses(s, st).state)
    decreases s, 0
  {
    var up := Indented(st, 1);
    IndentedInv(st, 1);
    CompileCasesKept(s.cases, up);
    var cases := CompileCases(s.cases, up);
    IndentedKept(st, cases.code, cases.state);
    var down := Indented(cases.state, -1);
    CompileOptionalKept(s.default, false, Some(false), Unknown, down);
    var default := CompileOptional(s.default, false, Some(false), Unknown, down);
    KeptBlockThen(st, cases.code, down, default.code, default.state);
  }

  lemma {:induction false} CompileSwitchKept(s: Stmt, st: State)
    requires Inv(st) && s.Switch? && CompileSwitch(s, st).Compiled?
    ensures Kept(st, CompileSwitch(s, st).code, CompileSwitch(s, st).state)
    decreases s, 1
  {
    RaisedInv(st);
    var on := ReadAll(s.on, InSwitch(st, 1));
    ReadAllKept(s.on, InSwitch(st, 1));
    if !s.hasClauses {
      UnswitchedKept(st, on.code, on.state);
    } else {
      CompileClausesKept(s, on.state);
      var clauses := CompileClauses(s, on.state);
      SwitchedKept(st, on.code, on.state, clauses.code, clauses.state);
    }
  }

  lemma UnswitchedKept(st: State, on: seq<Code>, mid: State)
    requires Inv(st) && KeptBlock(InSwitch(st, 1), on, mid) && Exits(on) == {}
    ensures Kept(st, on, mid)
  {
    SwitchCounterKept(st, on, mid, 0);
    assert InSwitch(mid, 0) == mid;
  }

  lemma SwitchedKept(st: State, on: seq<Code>, mid: State, code: seq<Code>, end: State)
    requires Inv(st) && KeptBlock(InSwitch(st, 1), on, mid) && Exits(on) == {} && KeptBlock(mid, code, end)
    ensures Kept(st, on + [Once(code)], InSwitch(end, -1))
  {
    var before := InSwitch(mid, -1);
    assert InSwitch(before, 1) == mid;
    SwitchCounterKept(st, on, mid, 1);
    OnceKept(before, code, end);
    KeptThen(st, on, before, [Once(code)], InSwitch(end, -1));
  }

  lemma RaisedInv(st: State)
    requires Inv(st)
    ensures Inv(InSwitch(st, 1))
  {
  }

  lemma IndentedInv(st: State, change: int)
    requires Inv(st)
    ensures Inv(Indented(st, change))
  {
  }

  lemma {:induction false} CompileHandlersKept(x: string, handlers: seq<Arm>, st: State)
    requires Inv(st) && CompileHandlers(x, handlers, st).Compiled?
    ensures KeptBlock(st, CompileHandlers(x, handlers, st).code, CompileHandlers(x, handlers, st).state)
    decreases handlers, 0
  {
    if handlers == [] {
      Nothing(st);
    } else {
      var first := CompileHandler(x, handlers[0], st);
      CompileHandlerKept(x, handlers[0], st);
      CompileHandlersKept(x, handlers[1..], first.state);
      var rest := CompileHandlers(x, handlers[1..], first.state);
      KeptBlockThen(st, first.code, first.state, rest.code, rest.state);
    }
  }

  lemma {:induction false} CompileHandlerKept(x: string, handler: Arm, st: State)
    requires Inv(st) && CompileHandler(x, handler, st).Compiled?
    ensures KeptBlock(st, CompileHandler(x, handler, st).code, CompileHandler(x, handler, st).state)
    decreases handler, 0
  {
    var test := ReadAll([x], st);
    ReadAllKept([x], st);
    var body := CompileBlock(handler.body, false, None, ConditionalTrue, test.state);
    CompileBlockKept(handler.body, false, None, ConditionalTrue, test.state);
    EitherKept(test.state, body.code, body.state);
    KeptBlockThen(st, test.code, test.state, [Either(body.code, [])], body.state);
  }

  lemma CatchIsCareful()
    ensures CarefulActions([ForceNull, Perform(CatchCopy), Record(Target)], false, false)
  {
    var actions := [ForceNull, Perform(CatchCopy), Record(Target)];
    assert CarefulActions([Record(Target)], true, false);
    assert actions[1..] == [Perform(CatchCopy), Record(Target)] && actions[1..][1..] == [Record(Target)];
  }

  lemma CaughtKept(x: string, st: State)
    requires Inv(st) && st.place.depth >= 1 && ActAll([ForceNull, Perform(CatchCopy), Record(Target)], x, st).Compiled?
    ensures var r := ActAll([ForceNull, Perform(CatchCopy), Record(Target)], x, st); KeptBlock(st, r.code, r.state)
  {
    CatchIsCareful();
    var actions := [ForceNull, Perform(CatchCopy), Record(Target)];
    ActAllKept(actions, x, st, false, false);
    NoRecordNothingSure(actions, x, st);
  }

  lemma {:induction false} CompileCatchKept(c: Catch, st: State)
    requires Inv(st) && st.place.depth >= 1 && CompileCatch(c, st).Compiled?
    ensures KeptBlock(st, CompileCatch(c, st).code, CompileCatch(c, st).state)
    decreases c, 0
  {
    var caught := ActAll([ForceNull, Perform(CatchCopy), Record(Target)], c.name, st);
    CaughtKept(c.name, st);
    CompileHandlersKept(c.name, c.handlers, caught.state);
    var handlers := CompileHandlers(c.name, c.handlers, caught.state);
    KeptBlockThen(st, caught.code, caught.state, handlers.code, handlers.state);
  }

  lemma {:induction false} CompileCatchesKept(catches: seq<Catch>, st: State)
    requires Inv(st) && st.place.depth >= 1 && CompileCatches(catches, st).Compiled?
    ensures KeptBlock(st, CompileCatches(catches, st).code, CompileCatches(catches, st).state)
    decreases catches, 0
  {
    if catches == [] {
      Nothing(st);
    } else {
      var first := CompileCatch(catches[0], st);
      CompileCatchKept(catches[0], st);
      CompileCatchesKept(catches[1..], first.state);
      var rest := CompileCatches(catches[1..], first.state);
      KeptBlockThen(st, first.code, first.state, rest.code, rest.state);
    }
  }

  lemma {:induction false} CompileTryKept(s: Stmt, st: State)
    requires Inv(st) && st.place.depth >= 1 && s.Try? && CompileTry(s, st).Compiled?
    ensures Kept(st, CompileTry(s, st).code, CompileTry(s, st).state)
    decreases s, 0
  {
    var body := CompileOptional(s.body, false, Some(false), Unknown, st);
    CompileOptionalKept(s.body, false, Some(false), Unknown, st);
    CompileCatchesKept(s.catches, body.state);
    var handler := CompileCatches(s.catches, body.state);
    var c := Guarded(body.code, handler.code);
    JoinKept(st, body.code, body.state, handler.code, handler.state, c);
    Closes(st, c, handler.state);
  }

  lemma ThenLeaveKept(uses: seq<string>, exit: Exit, st: State)
    requires Inv(st) && ReadAll(uses, st).Compiled? && (exit == Returns || exit == Throws)
    ensures Kept(st, ThenLeave(ReadAll(uses, st), exit).code, ReadAll(uses, st).state)
  {
    var r := ReadAll(uses, st);
    ReadAllKept(uses, st);
    LeaveKept(r.state, exit);
    KeptThen(st, r.code, r.state, [Leave(exit)], r.state);
  }

  lemma {:induction false} CompileKept(s: Stmt, st: State)
    requires Inv(st) && st.place.depth >= 1 && Compile(s, st).Compiled?
    ensures Kept(st, Compile(s, st).code, Compile(s, st).state)
    decreases s, 3
  {
    match s
    case Evaluate(uses, throws) =>
      var r := ReadAll(uses, st);
      ReadAllKept(uses, st);
      if throws {
        MayThrowKept(r.state);
        KeptThen(st, r.code, r.state, [MayThrow], r.state);
      } else {
        assert r.code + [] == r.code;
      }
    case Let(uses, x, how) => AssignKept(uses, x, how, st);
    case Declare(x, dataType, init) => DeclarationKept(x, dataType, init, st);
    case If(_, _, _, _, _, _, _) => CompileIfKept(s, st);
    case While(_, _) => CompileWhileKept(s, st);
    case DoWhile(_, _) => CompileDoWhileKept(s, st);
    case Loop(_) => CompileLoopKept(s, st);
    case For(_, _, _, _) => CompileForKept(s, st);
    case Switch(_, _, _, _) => CompileSwitchKept(s, st);
    case Try(_, _) => CompileTryKept(s, st);
    case Break => LeaveKept(st, Breaks);
    case Continue => LeaveKept(st, Continues);
    case Return(uses) => ThenLeaveKept(uses, Returns, st);
    case Throw(uses) => ThenLeaveKept(uses, Throws, st);
  }
}
