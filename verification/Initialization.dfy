/**
 What compiling a method guarantees about every run of the emitted code: first-time macros, pointers
 that are defined, reads of initialized variables, and jumps; and exactly which methods have runs that
 read a variable before it is assigned, or that leave by a jump.
 */
module Initialization {
  import opened Wrappers
  import opened Branches
  import opened Variables
  import opened Statements
  import opened Walks
  import opened WholeWalk
  import opened Runs
  import opened Flows
  import opened Outlines
  import opened Sources
  import opened Overwrites

  const EXTERNAL := Branch(None, 0, 1, External, None)

  /** A method about to be compiled: its parameters are initialized in the external branch. */
  ghost predicate Entry(st: State) {
    && st.log == [EXTERNAL] && st.place.branch == Some(EXTERNAL) && st.place.level == 1
    && st.place.depth == 0 && st.place.cycle == 0 && st.inSwitch >= 0
    && (forall x <- st.vars :: Fresh(st.vars[x]))
  }

  predicate Fresh(v: VarState) {
    v.skips == 0 && v.initDepth == None && v.home == EXTERNAL && v.marks == [Mark(EXTERNAL, Parameter)]
  }

  function Parameters(st: State): set<string> {
    st.vars.Keys
  }

  lemma EntryInv(st: State)
    requires Entry(st)
    ensures Inv(st)
  {
    assert [] + [EXTERNAL] == [EXTERNAL];
    HistoryExtends([], EXTERNAL);
  }

  function CompileMethod(b: Block, st: State): Outcome {
    CompileBlock(b, false, Some(false), Root, st)
  }

  /** The statements of the method, inside its root branch. */
  function Body(b: Block, st: State): Outcome {
    CompileAll(b, Opened(b, false, Some(false), Root, st))
  }

  lemma BodyKept(b: Block, st: State)
    requires Entry(st) && CompileMethod(b, st).Compiled?
    ensures Body(b, st).Compiled? && Body(b, st).code == CompileMethod(b, st).code
    ensures Body(b, st).state.vars == CompileMethod(b, st).state.vars
    ensures Body(b, st).state.inSwitch == CompileMethod(b, st).state.inSwitch
    ensures Kept(Opened(b, false, Some(false), Root, st), Body(b, st).code, Body(b, st).state)
  {
    EntryInv(st);
    OpenedInv(b, false, Some(false), Root, st);
    CompileAllKept(b, Opened(b, false, Some(false), Root, st));
  }

  /**
   Compiling any block restores the current branch, the levels, the cycle counter and the cycle
   stack; the history of branches only grows, with fresh ids.  The switch counter grows by the
   number of `switch` statements without clauses.
   */
  lemma BlocksRestoreThePlace(b: Block, loop: bool, unreachable: Option<bool>, kind: BranchType, st: State)
    requires Inv(st) && CompileBlock(b, loop, unreachable, kind, st).Compiled?
    ensures var to := CompileBlock(b, loop, unreachable, kind, st).state;
      && to.place == st.place && st.log < to.log && History(to.log)
      && to.log[|st.log|] == Branch(st.place.branch, st.place.level, |st.log| + 1, kind, unreachable)
      && (to.inSwitch == st.inSwitch <==> LeaksAll(b) == 0)
  {
    var start := Opened(b, loop, unreachable, kind, st);
    OpenedInv(b, loop, unreachable, kind, st);
    CompileAllKept(b, start);
    var body := CompileAll(b, start);
    ClosedRestores(b, loop, unreachable, kind, st, body.code, body.state);
    assert start.log <= body.state.log && start.log[|st.log|] == start.place.branch.value;
  }

  /** In every run a first-time macro of x comes before every counted macro of x, and runs at most once. */
  lemma FirstTimeMacrosRunOnce(b: Block, st: State, path: seq<Step>, x: string)
    requires Entry(st) && CompileMethod(b, st).Compiled?
    ensures FirstComesFirst(RunAll(CompileMethod(b, st).code, path).trace, x)
    ensures var t := RunAll(CompileMethod(b, st).code, path).trace;
      forall j, k :: 0 <= j < k < |t| && t[j].Init? && t[k].Init? && t[j].name == t[k].name == x ==>
        !(First(t[j].op) && First(t[k].op))
  {
    BodyKept(b, st);
    assert Initializes(x, Opened(b, false, Some(false), Root, st), Body(b, st).code, Body(b, st).state);
    OrderedRuns(CompileMethod(b, st).code, path, x);
  }

  /** The code of a method is what its text says, but for the macros that depend on counters. */
  lemma MethodOutlined(b: Block, st: State)
    requires CompileMethod(b, st).Compiled?
    ensures Strip(CompileMethod(b, st).code) == OutlineAll(b)
  {
    BlockOutlined(b, false, Some(false), Root, st);
  }

  /** Nothing but a pointer check is applied to x before a first-time macro of x. */
  ghost predicate FirstSeesNothing(trace: seq<Event>, x: string) {
    forall j, k ::
      (0 <= j < k < |trace| && trace[j].Init? && trace[k].Init? && trace[j].name == trace[k].name == x && First(trace[k].op)) ==>
        trace[j].op == CheckPointer
  }

  ghost predicate RunSeesNothing(code: seq<Code>, path: seq<Step>, x: string) {
    FirstSeesNothing(RunAll(code, path).trace, x)
  }

  /**
   The promise of first-time macros, that the pointer is still null, holds in all runs if and only if the
   analysis of the emitted code finds no way from an uncounted macro to a first-time one.  It finds none
   for a variable that the source neither uses as the key of a traversal nor to catch.
   */
  lemma FirstTimeMacrosSeeNothing(b: Block, st: State, x: string)
    requires Entry(st) && CompileMethod(b, st).Compiled?
    ensures var code := CompileMethod(b, st).code;
      !MayOverwrite(code, x) <==> forall path :: RunSeesNothing(code, path, x)
    ensures x !in UncountedIn(b) ==> !MayOverwrite(CompileMethod(b, st).code, x)
  {
    var code := CompileMethod(b, st).code;
    UncountedMacros(b, st, x);
    if x !in UncountedIn(b) {
      NeedsUncounted(code, x, Normal);
    }
    MayOverwriteIsExact(code, x);
    forall path ensures RunSeesNothing(code, path, x) <==> !AllocatesOver(code, path, x) {
      FirstTimeMacrosRunOnce(b, st, path, x);
      OnlyOverwritesAreSeen(RunAll(code, path).trace, x);
    }
  }

  lemma OnlyOverwritesAreSeen(trace: seq<Event>, x: string)
    requires FirstComesFirst(trace, x)
    ensures FirstSeesNothing(trace, x) <==> !IsOverwritten(trace, x)
  {
    if !FirstSeesNothing(trace, x) {
      var j, k :| 0 <= j < k < |trace| && trace[j].Init? && trace[k].Init? && trace[j].name == trace[k].name == x &&
        First(trace[k].op) && trace[j].op != CheckPointer;
      assert OverwritesAt(trace, x, j, k);
    }
    if IsOverwritten(trace, x) {
      var i: nat, j: nat :| OverwritesAt(trace, x, i, j);
      assert First(trace[j].op) && trace[i].op != CheckPointer;
    }
  }

  /** Exactly the keys of traversals and the caught variables get macros that are not counted. */
  lemma UncountedMacros(b: Block, st: State, x: string)
    requires CompileMethod(b, st).Compiled?
    ensures Sneaks(Ops(CompileMethod(b, st).code, x)) <==> x in UncountedIn(b)
  {
    var code := CompileMethod(b, st).code;
    MethodOutlined(b, st);
    StrippedOps(code, x, KeyInit);
    StrippedOps(code, x, CatchCopy);
    SneaksAll(b, x);
  }

  /**
   No macro ever sees an undefined pointer: one that is not a first-time macro belongs to a variable
   whose declaration is forced to null, and the macro without a null test is never emitted.
   */
  lemma PointersAreDefined(b: Block, st: State, path: seq<Step>, k: nat)
    requires Entry(st) && CompileMethod(b, st).Compiled?
    requires k < |RunAll(CompileMethod(b, st).code, path).trace| && RunAll(CompileMethod(b, st).code, path).trace[k].Init?
    ensures var e := RunAll(CompileMethod(b, st).code, path).trace[k];
      e.op != InitBnvar && (First(e.op) || Null(CompileMethod(b, st).state, e.name))
  {
    var r := CompileMethod(b, st);
    var t := RunAll(r.code, path).trace;
    BodyKept(b, st);
    assert Initializes(t[k].name, Opened(b, false, Some(false), Root, st), r.code, Body(b, st).state);
    WithinRuns(r.code, path, t[k].name);
    assert t[k] in t;
  }

  /** Whatever the read check accepts on a guaranteed record is a parameter or was assigned earlier in the run. */
  lemma AcceptedReadsAreInitialized(b: Block, st: State, path: seq<Step>)
    requires Entry(st) && CompileMethod(b, st).Compiled?
    ensures ReadsAssigned(RunAll(CompileMethod(b, st).code, path).trace, Parameters(st))
  {
    var r := CompileMethod(b, st);
    var start := Opened(b, false, Some(false), Root, st);
    BodyKept(b, st);
    forall x | x in Known(start) ensures x in Parameters(st) {
    }
    CoveredMore(r.code, Known(start), Parameters(st));
    CoveredRuns(r.code, path, Parameters(st));
  }

  /**
   The source alone decides whether some run reads x before it assigns x: the analysis of the outline,
   which knows nothing of records, macros and counters, is exact.
   */
  lemma ReadsBeforeAssignment(b: Block, st: State, x: string)
    requires CompileMethod(b, st).Compiled?
    ensures Exposed(OutlineAll(b), x, false) <==> exists path :: RunReadsUnassigned(CompileMethod(b, st).code, path, x, false)
  {
    var code := CompileMethod(b, st).code;
    MethodOutlined(b, st);
    StrippedExposed(code, x);
    ExposedIsExact(code, x, false);
  }

  /** A record of a declaration, of a target, or of an assignment of a variable to itself. */
  predicate Hollow(kind: MarkKind) {
    kind == Announced || kind == Target || kind == Itself
  }

  /**
   An accepted read of a variable that is not assigned yet: some run gets there if and only if the
   analysis of the emitted code says so, and then the read was accepted on hollow records only.
   */
  lemma AcceptedReadsBeforeAssignment(b: Block, st: State, x: string)
    requires Entry(st) && CompileMethod(b, st).Compiled? && x !in Parameters(st)
    ensures var code := CompileMethod(b, st).code;
      && (Exposed(code, x, true) <==> exists path :: RunReadsUnassigned(code, path, x, true))
      && (forall path, k: nat | ReadsUnassignedAt(RunAll(code, path).trace, x, true, k) ::
            forall kind <- RunAll(code, path).trace[k].vias :: Hollow(kind))
  {
    var code := CompileMethod(b, st).code;
    ExposedIsExact(code, x, true);
    forall path, k: nat | ReadsUnassignedAt(RunAll(code, path).trace, x, true, k)
      ensures forall kind <- RunAll(code, path).trace[k].vias :: Hollow(kind)
    {
      AcceptedReadsAreInitialized(b, st, path);
    }
  }

  // Jumps

  /** No jump leaves a method, provided that no `switch` before or in it lacks clauses. */
  lemma NoStrayJumps(b: Block, st: State, path: seq<Step>)
    requires Entry(st) && st.inSwitch == 0 && LeaksAll(b) == 0 && CompileMethod(b, st).Compiled?
    ensures RunAll(CompileMethod(b, st).code, path).exit !in {Breaks, Continues}
  {
    BodyKept(b, st);
    ExitsRuns(CompileMethod(b, st).code, path);
  }

  /**
   No `continue` ever leaves a method.  A `break` is left over exactly where the source has one outside
   loops and outside switches with clauses, and whether a run gets there is for the outline to say.
   */
  lemma StrayJumps(b: Block, st: State)
    requires Entry(st) && CompileMethod(b, st).Compiled?
    ensures var code := CompileMethod(b, st).code;
      && (Breaks in Exits(code) <==> StrayBreakIn(b))
      && (Avoids(OutlineAll(b), None, Breaks) <==> exists path :: RunAvoids(code, path, None, Breaks))
      && (forall path :: RunAll(code, path).exit != Continues)
  {
    var code := CompileMethod(b, st).code;
    MethodOutlined(b, st);
    StrippedExits(code);
    BreaksAll(b);
    StrippedAvoids(code, None, Breaks);
    AvoidsIsExact(code, None, Breaks);
    BodyKept(b, st);
    forall path ensures RunAll(code, path).exit != Continues {
      ExitsRuns(code, path);
    }
  }

  lemma {:induction false} PrefixCompiles(before: Block, after: Block, st: State)
    requires CompileAll(before + after, st).Compiled?
    ensures CompileAll(before, st).Compiled?
  {
    if before != [] {
      assert (before + after)[1..] == before[1..] + after;
      PrefixCompiles(before[1..], after, Compile(before[0], st).state);
    }
  }

  /** A stray break only compiles after a `switch` without clauses. */
  lemma StrayBreakNeedsEmptySwitch(before: Block, after: Block, st: State)
    requires Entry(st) && st.inSwitch == 0 && CompileMethod(before + after, st).Compiled? && StrayBreakIn(before)
    ensures LeaksAll(before) > 0
  {
    PrefixCompiles(before, after, Opened(before + after, false, Some(false), Root, st));
    StrayJumps(before, st);
    BodyKept(before, st);
  }

  // Everything about one run

  ghost predicate SafeRun(r: Run, b: Block, st: State, to: State) {
    && (forall x :: FirstComesFirst(r.trace, x))
    && (forall e <- r.trace :: e.Init? ==> e.op != InitBnvar && (First(e.op) || Null(to, e.name)))
    && ReadsAssigned(r.trace, Parameters(st))
    && r.exit != Continues && (r.exit == Breaks ==> StrayBreakIn(b))
  }

  lemma RunsAreSafe(b: Block, st: State, path: seq<Step>)
    requires Entry(st) && CompileMethod(b, st).Compiled?
    ensures SafeRun(RunAll(CompileMethod(b, st).code, path), b, st, CompileMethod(b, st).state)
  {
    var r := CompileMethod(b, st);
    var run := RunAll(r.code, path);
    forall x ensures FirstComesFirst(run.trace, x) {
      FirstTimeMacrosRunOnce(b, st, path, x);
    }
    forall e | e in run.trace && e.Init? ensures e.op != InitBnvar && (First(e.op) || Null(r.state, e.name)) {
      var k :| 0 <= k < |run.trace| && run.trace[k] == e;
      PointersAreDefined(b, st, path, k);
    }
    AcceptedReadsAreInitialized(b, st, path);
    StrayJumps(b, st);
    ExitsRuns(r.code, path);
  }
}
