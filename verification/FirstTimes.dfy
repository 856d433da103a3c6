/**
 When an assignment allocates over a zval that was not counted.  Traversals initialize their keys, and
 `catch` its variable, without counting it; what the next assignment does is a matter of the counters
 before it, and of the ways through the source.
 */
module FirstTimes {
  import opened Wrappers
  import opened Branches
  import opened Variables
  import opened Statements
  import opened Walks
  import opened Discipline
  import opened WholeWalk
  import opened Runs
  import opened Flows
  import opened Outlines
  import opened Sources
  import opened Overwrites

  /** The compiler believes that the variable holds nothing. */
  predicate Untouched(v: VarState) {
    v.inits == 0 && v.skips == 0 && !v.reserved
  }

  // Straight-line code

  predicate Straight(code: seq<Code>) {
    forall c <- code :: c.Emit?
  }

  /** Straight-line code runs to its end, and does all that is in it. */
  lemma {:induction false} StraightFlows(code: seq<Code>, x: string)
    requires Straight(code)
    ensures Avoids(code, None, Normal)
    ensures Meets(code, None, FirstOf(x)) <==> SomeFirst(Ops(code, x))
    ensures MayFill(code, x, Normal) <==> Sneaks(Ops(code, x))
  {
    if code != [] {
      StraightFlows(code[1..], x);
    }
  }

  lemma {:induction false} StraightEnds(code: seq<Code>, x: string, e: Exit)
    requires Straight(code) && e != Normal
    ensures !MayFill(code, x, e) && !Avoids(code, None, e)
  {
    if code != [] {
      StraightEnds(code[1..], x, e);
    }
  }

  // Counters

  predicate SameCounters(st: State, to: State, x: string) {
    && x in st.vars && x in to.vars && to.place == st.place
    && to.vars[x].inits == st.vars[x].inits && to.vars[x].skips == st.vars[x].skips && to.vars[x].reserved == st.vars[x].reserved
  }

  lemma ReadKeepsCounters(y: string, st: State, x: string)
    requires x in st.vars && Read(y, st).Compiled?
    ensures SameCounters(st, Read(y, st).state, x)
  {
  }

  lemma {:induction false} ReadingKeepsCounters(xs: seq<string>, st: State, x: string)
    requires x in st.vars && ReadAll(xs, st).Compiled?
    ensures SameCounters(st, ReadAll(xs, st).state, x)
    ensures Straight(ReadAll(xs, st).code) && Ops(ReadAll(xs, st).code, x) <= {CheckPointer}
  {
    if xs != [] {
      var first := Read(xs[0], st);
      ReadKeepsCounters(xs[0], st, x);
      ReadingKeepsCounters(xs[1..], first.state, x);
      var rest := ReadAll(xs[1..], first.state);
      OpsThen(first.code, rest.code, x);
      ReadsOnlyCheck(xs[0], st, x);
    }
  }

  lemma ReadsOnlyCheck(y: string, st: State, x: string)
    requires Read(y, st).Compiled?
    ensures Straight(Read(y, st).code) && Ops(Read(y, st).code, x) <= {CheckPointer}
  {
    var code := Read(y, st).code;
    Single(code[|code| - 1], x, {});
    Single(Emit(Init(y, CheckPointer)), x, {});
    if |code| == 2 {
      OpsThen([code[0]], [code[1]], x);
      assert code == [code[0]] + [code[1]];
    } else {
      assert code == [code[0]];
    }
  }

  /** The assignments that choose among macros. */
  function Choice(how: How): Action
    requires how in {Variant, Literal, Observe}
  {
    if how == Variant then Initialize else if how == Literal then InitializeLiteral else ObserveIt
  }

  lemma ActsOnce(x: string, how: How, st: State)
    requires how in {Variant, Literal, Observe} && ActAll(Actions(how, x), x, st).Compiled?
    ensures x in st.vars
    ensures var op := Initialized(Choice(how), st.vars[x], st.place.cycle, st.place.depth).value.op;
      ActAll(Actions(how, x), x, st).code == Emitted(x, op) + [Emit(Assigned(x))]
  {
    var actions := [Choice(how), Record(Assignment)];
    assert Actions(how, x) == actions;
    var after := Act(Choice(how), x, st).state;
    assert actions[1..] == [Record(Assignment)] && [Record(Assignment)][1..] == [];
    assert Act(Record(Assignment), x, after).code == [Emit(Assigned(x))];
    assert ActAll(actions[1..], x, after).code == [Emit(Assigned(x))] + [];
  }

  lemma ChoosesFirst(how: How, v: VarState, depth: int)
    requires how in {Variant, Literal, Observe}
    ensures var op := Initialized(Choice(how), v, 0, depth).value.op; Untouched(v) <==> op.Some? && First(op.value)
  {
  }

  /** Outside cycles, an assignment uses a first-time macro exactly on an untouched variable. */
  lemma NextLet(uses: seq<string>, x: string, how: How, st: State)
    requires how in {Variant, Literal, Observe} && st.place.cycle == 0 && x in st.vars
    requires Compile(Let(uses, x, how), st).Compiled?
    ensures var code := Compile(Let(uses, x, how), st).code;
      Straight(code) && (SomeFirst(Ops(code, x)) <==> Untouched(st.vars[x])) && !Sneaks(Ops(code, x))
  {
    var read := ReadAll(uses, st);
    ReadingKeepsCounters(uses, st, x);
    var done := ActAll(Actions(how, x), x, read.state);
    ActsOnce(x, how, read.state);
    ChoosesFirst(how, read.state.vars[x], read.state.place.depth);
    var op := Initialized(Choice(how), read.state.vars[x], 0, read.state.place.depth).value.op;
    LetOps(read.code, x, op);
    ChosenIsCounted(how, read.state.vars[x], read.state.place.depth);
  }

  lemma ChosenIsCounted(how: How, v: VarState, depth: int)
    requires how in {Variant, Literal, Observe}
    ensures var op := Initialized(Choice(how), v, 0, depth).value.op; op.Some? ==> !Sneaks({op.value})
  {
  }

  lemma LetOps(read: seq<Code>, x: string, op: Option<Op>)
    requires Ops(read, x) <= {CheckPointer}
    ensures var ops := Ops(read + (Emitted(x, op) + [Emit(Assigned(x))]), x);
      (SomeFirst(ops) <==> op.Some? && First(op.value)) && (Sneaks(ops) <==> op.Some? && Sneaks({op.value}))
  {
    OpsThen(read, Emitted(x, op) + [Emit(Assigned(x))], x);
    OpsThen(Emitted(x, op), [Emit(Assigned(x))], x);
    Single(Emit(Assigned(x)), x, {});
    if op.Some? {
      Single(Emit(Init(x, op.value)), x, {});
    }
  }

  // Any statement, and then an assignment

  lemma CompileTwo(a: Stmt, b: Stmt, st: State)
    requires CompileAll([a, b], st).Compiled?
    ensures Compile(a, st).Compiled? && Compile(b, Compile(a, st).state).Compiled?
    ensures CompileAll([a, b], st).code == Compile(a, st).code + Compile(b, Compile(a, st).state).code
  {
    assert [a, b][1..] == [b] && [b][1..] == [];
    var cb := Compile(b, Compile(a, st).state);
    assert CompileAll([b], Compile(a, st).state) == Compiled(cb.code + [], cb.state);
  }

  lemma LetKnows(uses: seq<string>, x: string, how: How, st: State)
    requires how in {Variant, Literal, Observe} && Compile(Let(uses, x, how), st).Compiled?
    ensures x in st.vars
  {
    ActsOnce(x, how, ReadAll(uses, st).state);
    ReadBack(uses, st, x);
  }

  /**
   `s; let x = ...;` outside cycles: some run allocates over a zval of x that is not counted, if and only
   if one does so in s, or if the source of s can end with such a zval and x looks untouched after it.
   */
  lemma NextAssignment(s: Stmt, uses: seq<string>, x: string, how: How, st: State)
    requires Inv(st) && st.place.depth >= 1 && st.place.cycle == 0 && how in {Variant, Literal, Observe}
    requires CompileAll([s, Let(uses, x, how)], st).Compiled?
    ensures Compile(s, st).Compiled? && x in Compile(s, st).state.vars
    ensures var code := CompileAll([s, Let(uses, x, how)], st).code;
      (exists path :: AllocatesOver(code, path, x)) <==>
      MayOverwrite(Compile(s, st).code, x) || (MayFill(Outline(s), x, Normal) && Untouched(Compile(s, st).state.vars[x]))
  {
    CompileTwo(s, Let(uses, x, how), st);
    CompileKept(s, st);
    var first := Compile(s, st);
    var let := Compile(Let(uses, x, how), first.state).code;
    LetKnows(uses, x, how, first.state);
    NextLet(uses, x, how, first.state);
    Outlined(s, st);
    StrippedFill(first.code, x, Normal);
    StraightFlows(let, x);
    NeedsUncounted(let, x, Normal);
    MayOverwriteThen(first.code, let, x);
    MayOverwriteIsExact(first.code + let, x);
  }

  lemma {:induction false} ReadBack(xs: seq<string>, st: State, x: string)
    requires ReadAll(xs, st).Compiled? && x in ReadAll(xs, st).state.vars
    ensures x in st.vars
  {
    if xs != [] {
      ReadBack(xs[1..], Read(xs[0], st).state, x);
    }
  }

  // The key of a traversal

  /** Steps that only count when they say so. */
  predicate Modest(actions: seq<Action>) {
    forall a <- actions :: a == ForceNull || a == Count || a == Record(Target) || a.Perform?
  }

  lemma ModestStep(a: Action, x: string, st: State)
    requires (a == ForceNull || a == Count || a == Record(Target) || a.Perform?) && Act(a, x, st).Compiled?
    ensures var r := Act(a, x, st);
      && r.code == Produced(a, x) && x in st.vars && r.state.place == st.place && r.state.vars.Keys == st.vars.Keys
      && (forall y <- st.vars :: y != x ==> r.state.vars[y] == st.vars[y])
      && (Untouched(r.state.vars[x]) <==> Untouched(st.vars[x]) && a != Count)
  {
  }

  lemma {:induction false} ModestSteps(actions: seq<Action>, x: string, st: State)
    requires Modest(actions) && actions != [] && ActAll(actions, x, st).Compiled?
    ensures var r := ActAll(actions, x, st);
      && r.code == Steps(actions, x) && x in st.vars && r.state.place == st.place && r.state.vars.Keys == st.vars.Keys
      && (forall y <- st.vars :: y != x ==> r.state.vars[y] == st.vars[y])
      && (Untouched(r.state.vars[x]) <==> Untouched(st.vars[x]) && Count !in actions)
  {
    assert actions[0] in actions;
    var first := Act(actions[0], x, st);
    ModestStep(actions[0], x, st);
    if actions[1..] != [] {
      ModestSteps(actions[1..], x, first.state);
    }
    assert actions == [actions[0]] + actions[1..];
  }

  lemma KeySteps(x: string, st: State)
    requires ActAll([ForceNull, Record(Target)], x, st).Compiled?
    ensures var r := ActAll([ForceNull, Record(Target)], x, st);
      && r.code == [] && x in st.vars && x in r.state.vars && r.state.place == st.place
      && (Untouched(r.state.vars[x]) <==> Untouched(st.vars[x]))
  {
    ModestSteps([ForceNull, Record(Target)], x, st);
    NothingProduced([ForceNull, Record(Target)], x);
  }

  lemma ValueSteps(x: string, st: State, key: string)
    requires ActAll([ForceNull, Record(Target), Count], x, st).Compiled? && key in st.vars
    ensures var r := ActAll([ForceNull, Record(Target), Count], x, st);
      && r.code == [] && key in r.state.vars && r.state.place == st.place
      && (Untouched(r.state.vars[key]) <==> Untouched(st.vars[key]) && x != key)
  {
    var actions := [ForceNull, Record(Target), Count];
    assert actions[2] == Count;
    ModestSteps(actions, x, st);
    NothingProduced(actions, x);
  }

  lemma KeyPrepared(key: string, value: Option<string>, st: State)
    requires Prepare(Some(key), value, st).Compiled?
    ensures var r := Prepare(Some(key), value, st);
      && r.code == [] && key in st.vars && key in r.state.vars && r.state.place == st.place
      && (Untouched(r.state.vars[key]) <==> Untouched(st.vars[key]) && value != Some(key))
  {
    KeySteps(key, st);
    if value.Some? {
      ValueSteps(value.value, ActAll([ForceNull, Record(Target)], key, st).state, key);
    }
  }

  lemma PerformChangesNothing(op: Op, x: string, st: State)
    requires ActAll([Perform(op)], x, st).Compiled?
    ensures ActAll([Perform(op)], x, st) == Compiled([Emit(Init(x, op))], st)
  {
    assert st.vars[x := st.vars[x]] == st.vars;
    assert Act(Perform(op), x, st) == Compiled([Emit(Init(x, op))], st);
    assert [Perform(op)][1..] == [];
    assert ActAll([Perform(op)], x, st) == Compiled([Emit(Init(x, op))] + [], st);
  }

  lemma Fetching(key: string, value: Option<string>, st: State)
    requires Fetch(Some(key), value, st).Compiled?
    ensures Fetch(Some(key), value, st) == Compiled(Fetched(Some(key), value), st)
  {
    PerformChangesNothing(KeyInit, key, st);
    if value.Some? {
      PerformChangesNothing(ValueInit, value.value, st);
    }
  }

  lemma KeyTraversal(over: seq<string>, key: string, value: Option<string>, st: State)
    requires Traversal(For(over, Some(key), value, []), st).Compiled?
    ensures var r := Traversal(For(over, Some(key), value, []), st);
      && ReadAll(over, st).Compiled? && key in st.vars && key in r.state.vars && r.state.place == st.place
      && r.code == ReadAll(over, st).code
      && (Untouched(r.state.vars[key]) <==> Untouched(st.vars[key]) && value != Some(key))
  {
    var read := ReadAll(over, st);
    KeyPrepared(key, value, read.state);
    ReadBack(over, st, key);
    ReadingKeepsCounters(over, st, key);
    assert read.code + [] == read.code;
  }

  lemma RoundIs(over: seq<string>, key: string, value: Option<string>, st: State)
    requires CompileRound(For(over, Some(key), value, []), st).Compiled?
    ensures CompileRound(For(over, Some(key), value, []), st) == Compiled(Fetched(Some(key), value), st)
  {
    Fetching(key, value, st);
    assert Fetched(Some(key), value) + [] == Fetched(Some(key), value);
  }

  /** What a traversal without statements emits, and how it leaves its key. */
  lemma KeyLoopIs(over: seq<string>, key: string, value: Option<string>, st: State)
    requires CompileFor(For(over, Some(key), value, []), st).Compiled?
    ensures var r := CompileFor(For(over, Some(key), value, []), st);
      && ReadAll(over, st).Compiled? && key in st.vars && key in r.state.vars && r.state.place.cycle == st.place.cycle
      && r.code == ReadAll(over, st).code + [Either([Leave(Returns)], []), Each(Fetched(Some(key), value))]
      && (Untouched(r.state.vars[key]) <==> Untouched(st.vars[key]) && value != Some(key))
  {
    var traversal := Traversal(For(over, Some(key), value, []), st);
    KeyTraversal(over, key, value, st);
    RoundIs(over, key, value, InCycle(traversal.state, 1));
  }

  /** A round of the traversal can end, in some way that does not leave the method. */
  predicate RoundEnds(body: Block) {
    GoesOn(OutlineAll(body), None) || Avoids(OutlineAll(body), None, Breaks)
  }

  lemma FetchedFills(key: string, value: Option<string>)
    ensures Straight(Fetched(Some(key), value)) && Sneaks(Ops(Fetched(Some(key), value), key))
  {
    var k, v := [Emit(Init(key, KeyInit))], if value.Some? then [Emit(Init(value.value, ValueInit))] else [];
    OpsThen(k, v, key);
    Single(k[0], key, {});
  }

  /** The key is fetched at the start of every round, so the statements of the round only decide how it ends. */
  lemma RoundFillsKey(key: string, value: Option<string>, body: seq<Code>, e: Exit)
    requires e != Cut
    ensures MayFill(Fetched(Some(key), value) + body, key, e) <==> Avoids(body, None, e)
  {
    var fetched := Fetched(Some(key), value);
    FetchedFills(key, value);
    StraightFlows(fetched, key);
    if e != Normal {
      StraightEnds(fetched, key, e);
    }
    MayFillThen(fetched, body, key, e);
    if MayFill(body, key, e) {
      FillsLeaves(body, key, e);
    }
  }

  lemma TraversalFillsKey(over: seq<string>, key: string, value: Option<string>, body: Block)
    ensures MayFill(Outline(For(over, Some(key), value, body)), key, Normal) <==> RoundEnds(body)
  {
    var round := Fetched(Some(key), value) + OutlineAll(body);
    RoundFillsKey(key, value, OutlineAll(body), Normal);
    RoundFillsKey(key, value, OutlineAll(body), Continues);
    RoundFillsKey(key, value, OutlineAll(body), Breaks);
    GuardedReadsFlow(over, key);
    var before := Reads(over) + [Either([Leave(Returns)], [])];
    MayFillThen(before, [Each(round)], key, Normal);
    MayFillSingle(Each(round), key, Normal);
    assert before + [Each(round)] == Reads(over) + [Either([Leave(Returns)], []), Each(round)];
  }

  lemma GuardedReadsFlow(over: seq<string>, x: string)
    ensures var before := Reads(over) + [Either([Leave(Returns)], [])];
      Avoids(before, None, Normal) && !MayFill(before, x, Normal)
  {
    var guard := Either([Leave(Returns)], []);
    ReadsFlow(over, x);
    MayFillThen(Reads(over), [guard], x, Normal);
    AvoidsThen(Reads(over), [guard], None, Normal);
    AvoidsSingle(guard, None, Normal);
    MayFillSingle(guard, x, Normal);
    MayFillSingle(Leave(Returns), x, Normal);
  }

  lemma {:induction false} ReadsFlow(xs: seq<string>, x: string)
    ensures Avoids(Reads(xs), None, Normal) && !MayFill(Reads(xs), x, Normal)
  {
    if xs != [] {
      ReadsFlow(xs[1..], x);
      assert Reads(xs)[1..] == Reads(xs[1..]);
    }
  }

  lemma NoFirstInRound(s: Stmt, st: State, x: string)
    requires Inv(st) && st.place.depth >= 1 && s.For? && Ready(s, st) && CompileRound(s, InCycle(st, 1)).Compiled?
    ensures !SomeFirst(Ops(CompileRound(s, InCycle(st, 1)).code, x))
  {
    var inside := InCycle(st, 1);
    InCycleInv(st, 1);
    CompileRoundKept(s, inside);
    var round := CompileRound(s, inside);
    assert Initializes(x, inside, round.code, round.state);
  }

  /** Reading what is traversed and preparing the targets emits no first-time macro, and neither do the rounds. */
  lemma NoFirstInTraversal(over: seq<string>, key: string, value: Option<string>, body: Block, st: State)
    requires Inv(st) && st.place.depth >= 1 && CompileFor(For(over, Some(key), value, body), st).Compiled?
    ensures !SomeFirst(Ops(CompileFor(For(over, Some(key), value, body), st).code, key))
  {
    var s := For(over, Some(key), value, body);
    var traversal := Traversal(s, st);
    TraversalKept(s, st);
    TraversalReads(over, key, value, body, st);
    var round := CompileRound(s, InCycle(traversal.state, 1));
    NoFirstInRound(s, traversal.state, key);
    LoopOps(round.code, key);
    OpsThen(traversal.code, [Either([Leave(Returns)], []), Each(round.code)], key);
  }

  lemma TraversalReads(over: seq<string>, key: string, value: Option<string>, body: Block, st: State)
    requires Traversal(For(over, Some(key), value, body), st).Compiled?
    ensures !SomeFirst(Ops(Traversal(For(over, Some(key), value, body), st).code, key))
  {
    var read := ReadAll(over, st);
    KeyPrepared(key, value, read.state);
    ReadBack(over, st, key);
    ReadingKeepsCounters(over, st, key);
    assert read.code + [] == read.code;
  }

  lemma LoopOps(body: seq<Code>, x: string)
    ensures Ops([Either([Leave(Returns)], []), Each(body)], x) == Ops(body, x)
  {
    var guard := Either([Leave(Returns)], []);
    assert [guard] + [Each(body)] == [guard, Each(body)];
    OpsThen([guard], [Each(body)], x);
    Single(guard, x, {});
    Single(Leave(Returns), x, {});
    Single(Each(body), x, {});
  }

  /**
   `for key, value in ... { body } let key = ...;` outside cycles: some run allocates over a key that was
   fetched, if and only if some round can end, and the key looks untouched after the traversal.
   */
  lemma KeyIsAllocatedOver(over: seq<string>, key: string, value: Option<string>, body: Block, uses: seq<string>, how: How, st: State)
    requires Inv(st) && st.place.depth >= 1 && st.place.cycle == 0 && how in {Variant, Literal, Observe}
    requires CompileAll([For(over, Some(key), value, body), Let(uses, key, how)], st).Compiled?
    ensures Compile(For(over, Some(key), value, body), st).Compiled?
    ensures key in Compile(For(over, Some(key), value, body), st).state.vars
    ensures var code := CompileAll([For(over, Some(key), value, body), Let(uses, key, how)], st).code;
      (exists path :: AllocatesOver(code, path, key)) <==>
      RoundEnds(body) && Untouched(Compile(For(over, Some(key), value, body), st).state.vars[key])
  {
    var s := For(over, Some(key), value, body);
    NextAssignment(s, uses, key, how, st);
    NoFirstInTraversal(over, key, value, body, st);
    NeedsFirst(Compile(s, st).code, key);
    TraversalFillsKey(over, key, value, body);
  }

  /** If the traversal has no statements, that is a matter of the counters before it. */
  lemma EmptyTraversalKeepsKey(over: seq<string>, key: string, value: Option<string>, st: State)
    requires Compile(For(over, Some(key), value, []), st).Compiled?
    ensures RoundEnds([]) && key in st.vars && key in Compile(For(over, Some(key), value, []), st).state.vars
    ensures Untouched(Compile(For(over, Some(key), value, []), st).state.vars[key]) <==> Untouched(st.vars[key]) && value != Some(key)
  {
    KeyLoopIs(over, key, value, st);
  }

  // The variable of a catch

  lemma CatchFills(x: string, handlers: seq<Code>, e: Exit)
    requires e != Cut
    ensures MayFill([Emit(Init(x, CatchCopy))] + handlers, x, e) <==> Avoids(handlers, None, e)
    ensures Avoids([Emit(Init(x, CatchCopy))] + handlers, None, e) <==> Avoids(handlers, None, e)
  {
    var copy := [Emit(Init(x, CatchCopy))];
    Single(copy[0], x, {});
    StraightFlows(copy, x);
    if e != Normal {
      StraightEnds(copy, x, e);
    }
    MayFillThen(copy, handlers, x, e);
    AvoidsThen(copy, handlers, None, e);
    AvoidsSingle(copy[0], None, e);
    if MayFill(handlers, x, e) {
      FillsLeaves(handlers, x, e);
    }
  }

  lemma TryFills(body: Block, x: string, handlers: seq<Arm>)
    ensures MayFill(Outline(Try(body, [Catch(x, handlers)])), x, Normal) <==>
            || MayFill(OutlineAll(body), x, Normal)
            || (Avoids(OutlineAll(body), None, Throws) && Avoids(OutlineHandlers(x, handlers), None, Normal))
  {
    var tried, caught := OutlineAll(body), [Emit(Init(x, CatchCopy))] + OutlineHandlers(x, handlers);
    assert [Catch(x, handlers)][1..] == [] && caught + [] == caught;
    assert OutlineCatches([Catch(x, handlers)]) == caught;
    MayFillSingle(Guarded(tried, caught), x, Normal);
    CatchFills(x, OutlineHandlers(x, handlers), Normal);
    if MayFill(tried, x, Throws) {
      FillsLeaves(tried, x, Throws);
    }
  }

  /**
   `try { body } catch E, x { ... } let x = ...;` outside cycles, with a handler for each class: some run
   allocates over an exception that was caught, or over another zval of x that is not counted, if and
   only if one does so inside, or if x looks untouched after the `try` and the source can get there
   with such a zval: the body throws and a handler ends, or the body ends with one of its own.
   */
  lemma CaughtIsAllocatedOver(body: Block, x: string, handlers: seq<Arm>, uses: seq<string>, how: How, st: State)
    requires Inv(st) && st.place.depth >= 1 && st.place.cycle == 0 && how in {Variant, Literal, Observe}
    requires CompileAll([Try(body, [Catch(x, handlers)]), Let(uses, x, how)], st).Compiled?
    ensures Compile(Try(body, [Catch(x, handlers)]), st).Compiled?
    ensures x in Compile(Try(body, [Catch(x, handlers)]), st).state.vars
    ensures var code := CompileAll([Try(body, [Catch(x, handlers)]), Let(uses, x, how)], st).code;
      var tried := Compile(Try(body, [Catch(x, handlers)]), st);
      (exists path :: AllocatesOver(code, path, x)) <==>
      || MayOverwrite(tried.code, x)
      || (&& Untouched(tried.state.vars[x])
          && (|| MayFill(OutlineAll(body), x, Normal)
              || (Avoids(OutlineAll(body), None, Throws) && Avoids(OutlineHandlers(x, handlers), None, Normal))))
  {
    NextAssignment(Try(body, [Catch(x, handlers)]), uses, x, how, st);
    TryFills(body, x, handlers);
  }
}
