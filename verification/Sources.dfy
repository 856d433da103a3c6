/**
 Conditions on the source text, and what they say about its outline: breaks that no loop or `switch`
 takes, and the variables that traversals and `catch` initialize without counting it.
 */
module Sources {
  import opened Wrappers
  import opened Branches
  import opened Variables
  import opened Statements
  import opened Walks
  import opened Outlines
  import opened Runs
  import opened Flows

  // A break outside loops and outside switches with clauses

  predicate StrayBreak(s: Stmt)
    decreases s, 1
  {
    match s
    case If(_, _, _, _, body, elseIfs, els) => StrayBreakIn(body) || StrayBreakInArms(elseIfs) || StrayBreakIn(els)
    case Try(body, catches) => StrayBreakIn(body) || StrayBreakInCatches(catches)
    case Break => true
    case _ => false
  }

  predicate StrayBreakIn(ss: seq<Stmt>)
    decreases ss, 0
  {
    ss != [] && (StrayBreak(ss[0]) || StrayBreakIn(ss[1..]))
  }

  predicate StrayBreakInArms(arms: seq<Arm>)
    decreases arms, 0
  {
    arms != [] && (StrayBreakIn(arms[0].body) || StrayBreakInArms(arms[1..]))
  }

  predicate StrayBreakInCatches(catches: seq<Catch>)
    decreases catches, 0
  {
    catches != [] && (StrayBreakInArms(catches[0].handlers) || StrayBreakInCatches(catches[1..]))
  }

  lemma {:induction false} ReadsStay(xs: seq<string>, x: string)
    ensures Exits(Reads(xs)) == {} && Ops(Reads(xs), x) == {}
  {
    if xs != [] {
      ReadsStay(xs[1..], x);
      assert Reads(xs)[1..] == Reads(xs[1..]);
    }
  }

  lemma {:induction false} StepsStay(actions: seq<Action>, x: string)
    ensures Exits(Steps(actions, x)) <= {Throws}
  {
    if actions != [] {
      StepsStay(actions[1..], x);
      var first := Produced(actions[0], x);
      ExitsThen(first, Steps(actions[1..], x));
      if first != [] {
        Single(first[0], x, {});
        assert first == [first[0]];
      }
    }
  }

  lemma StoredStay(uses: seq<string>, x: string, how: How)
    ensures Exits(Stored(uses, x, how)) <= {Throws}
  {
    ReadsStay(uses, x);
    StepsStay(Actions(how, x), x);
    ExitsThen(Reads(uses), Steps(Actions(how, x), x));
  }

  /** Reads, and one more piece of code. */
  lemma ReadsThenOne(xs: seq<string>, c: Code, x: string)
    ensures Exits(Reads(xs) + [c]) == ExitsOf(c) && Ops(Reads(xs) + [c], x) == OpsOf(c, x)
    ensures Exits(Reads(xs) + []) == {} && Ops(Reads(xs) + [], x) == {}
  {
    ReadsStay(xs, x);
    Single(c, x, {});
    ExitsThen(Reads(xs), [c]);
    OpsThen(Reads(xs), [c], x);
    assert Reads(xs) + [] == Reads(xs);
  }

  lemma {:induction false} BreaksAll(ss: seq<Stmt>)
    ensures Breaks in Exits(OutlineAll(ss)) <==> StrayBreakIn(ss)
    decreases ss, 0
  {
    if ss != [] {
      BreaksOne(ss[0]);
      BreaksAll(ss[1..]);
      ExitsThen(Outline(ss[0]), OutlineAll(ss[1..]));
    }
  }

  lemma {:induction false} BreaksArms(s: Stmt, k: nat)
    requires s.If? && k <= |s.elseIfs|
    ensures Breaks in Exits(OutlineArms(s, k)) <==> StrayBreakInArms(s.elseIfs[k..]) || StrayBreakIn(s.els)
    decreases s, 0, |s.elseIfs| - k
  {
    if k == |s.elseIfs| {
      BreaksAll(s.els);
    } else {
      BreaksAll(s.elseIfs[k].body);
      BreaksArms(s, k + 1);
      assert s.elseIfs[k..][1..] == s.elseIfs[k + 1..];
      Single(Either(OutlineAll(s.elseIfs[k].body), OutlineArms(s, k + 1)), "", {});
    }
  }

  lemma {:induction false} BreaksHandlers(x: string, handlers: seq<Arm>)
    ensures Breaks in Exits(OutlineHandlers(x, handlers)) <==> StrayBreakInArms(handlers)
    decreases handlers, 0
  {
    if handlers != [] {
      BreaksAll(handlers[0].body);
      BreaksHandlers(x, handlers[1..]);
      var arm := Either(OutlineAll(handlers[0].body), []);
      ReadsThenOne([x], arm, x);
      ExitsThen(Reads([x]) + [arm], OutlineHandlers(x, handlers[1..]));
    }
  }

  lemma {:induction false} BreaksCatches(catches: seq<Catch>)
    ensures Breaks in Exits(OutlineCatches(catches)) <==> StrayBreakInCatches(catches)
    decreases catches, 0
  {
    if catches != [] {
      var caught, handlers := Emit(Init(catches[0].name, CatchCopy)), OutlineHandlers(catches[0].name, catches[0].handlers);
      BreaksHandlers(catches[0].name, catches[0].handlers);
      BreaksCatches(catches[1..]);
      Single(caught, "", {});
      ExitsThen([caught], handlers);
      ExitsThen([caught] + handlers, OutlineCatches(catches[1..]));
    }
  }

  lemma {:induction false} BreaksIf(s: Stmt)
    requires s.If?
    ensures Breaks in Exits(Outline(s)) <==> StrayBreak(s)
    decreases s, 0
  {
    BreaksAll(s.body);
    BreaksArms(s, 0);
    assert s.elseIfs[0..] == s.elseIfs;
    ReadsThenOne(s.test, Either(OutlineAll(s.body), OutlineArms(s, 0)), "");
  }

  lemma {:induction false} BreaksTry(s: Stmt)
    requires s.Try?
    ensures Breaks in Exits(Outline(s)) <==> StrayBreak(s)
    decreases s, 0
  {
    BreaksAll(s.body);
    BreaksCatches(s.catches);
    Single(Guarded(OutlineAll(s.body), OutlineCatches(s.catches)), "", {});
  }

  lemma LoopsTakeBreaks(s: Stmt)
    requires s.While? || s.DoWhile? || s.Loop?
    ensures Breaks !in Exits(Outline(s))
  {
    if s.DoWhile? {
      ReadsStay(s.test, "");
    }
    Single(Outline(s)[0], "", {});
  }

  /** The guard of a traversal and its rounds, after what is traversed is read. */
  lemma TraversalIs(over: seq<string>, rounds: Code, x: string)
    requires rounds.Each?
    ensures var code := Reads(over) + [Either([Leave(Returns)], []), rounds];
      Breaks !in Exits(code) && Ops(code, x) == OpsOf(rounds, x)
  {
    var guard := Either([Leave(Returns)], []);
    ReadsThenOne(over, guard, x);
    Single(Leave(Returns), x, {});
    Single(rounds, x, {});
    ExitsThen(Reads(over) + [guard], [rounds]);
    OpsThen(Reads(over) + [guard], [rounds], x);
    assert Reads(over) + [guard] + [rounds] == Reads(over) + [guard, rounds];
  }

  lemma DeclarationsStay(s: Stmt)
    requires s.Declare? || s.Let?
    ensures Breaks !in Exits(Outline(s))
  {
    if s.Let? {
      StoredStay(s.uses, s.name, s.how);
    } else if s.init.Some? {
      StoredStay(s.init.value.uses, s.name, s.init.value.how);
    } else {
      Single(Emit(Assigned(s.name)), "", {});
    }
  }

  /** Breaks leave the outline of a statement exactly if the statement has a stray one. */
  lemma {:induction false} BreaksOne(s: Stmt)
    ensures Breaks in Exits(Outline(s)) <==> StrayBreak(s)
    decreases s, 1
  {
    match s
    case Evaluate(uses, _) => ReadsThenOne(uses, MayThrow, "");
    case Let(_, _, _) => DeclarationsStay(s);
    case Declare(_, _, _) => DeclarationsStay(s);
    case If(_, _, _, _, _, _, _) => BreaksIf(s);
    case While(_, _) => LoopsTakeBreaks(s);
    case DoWhile(_, _) => LoopsTakeBreaks(s);
    case Loop(_) => LoopsTakeBreaks(s);
    case For(over, key, value, body) => TraversalIs(over, Each(Fetched(key, value) + OutlineAll(body)), "");
    case Switch(on, _, cases, default) => ReadsThenOne(on, Once(OutlineCases(cases) + OutlineAll(default)), "");
    case Try(_, _) => BreaksTry(s);
    case Break => Single(Leave(Breaks), "", {});
    case Continue => Single(Leave(Continues), "", {});
    case Return(uses) => ReadsThenOne(uses, Leave(Returns), "");
    case Throw(uses) => ReadsThenOne(uses, Leave(Throws), "");
  }

  // The keys of traversals, and the variables that catch exceptions

  function Uncounted(s: Stmt): set<string>
    decreases s, 1
  {
    match s
    case If(_, _, _, _, body, elseIfs, els) => UncountedIn(body) + UncountedInArms(elseIfs) + UncountedIn(els)
    case While(_, body) => UncountedIn(body)
    case DoWhile(body, _) => UncountedIn(body)
    case Loop(body) => UncountedIn(body)
    case For(_, key, _, body) => (if key.Some? then {key.value} else {}) + UncountedIn(body)
    case Switch(_, hasClauses, cases, default) => if hasClauses then UncountedInCases(cases) + UncountedIn(default) else {}
    case Try(body, catches) => UncountedIn(body) + UncountedInCatches(catches)
    case _ => {}
  }

  function UncountedIn(ss: seq<Stmt>): set<string>
    decreases ss, 0
  {
    if ss == [] then {} else Uncounted(ss[0]) + UncountedIn(ss[1..])
  }

  function UncountedInArms(arms: seq<Arm>): set<string>
    decreases arms, 0
  {
    if arms == [] then {} else UncountedIn(arms[0].body) + UncountedInArms(arms[1..])
  }

  function UncountedInCases(cases: seq<Case>): set<string>
    decreases cases, 0
  {
    if cases == [] then {} else UncountedIn(cases[0].body) + UncountedInCases(cases[1..])
  }

  function UncountedInCatches(catches: seq<Catch>): set<string>
    decreases catches, 0
  {
    if catches == [] then {} else {catches[0].name} + UncountedInArms(catches[0].handlers) + UncountedInCatches(catches[1..])
  }

  /** The code applies a macro to x that is not counted, other than a pointer check. */
  predicate Sneaks(ops: set<Op>) {
    KeyInit in ops || CatchCopy in ops
  }

  predicate Counting(a: Action) {
    a.Perform? ==> a.op != KeyInit && a.op != CatchCopy
  }

  lemma {:induction false} StepsDoNotSneak(actions: seq<Action>, x: string, y: string)
    requires forall a <- actions :: Counting(a)
    ensures !Sneaks(Ops(Steps(actions, x), y))
  {
    if actions != [] {
      assert Counting(actions[0]);
      StepsDoNotSneak(actions[1..], x, y);
      var first := Produced(actions[0], x);
      OpsThen(first, Steps(actions[1..], x), y);
      if first != [] {
        Single(first[0], y, {});
        assert first == [first[0]];
      }
    }
  }

  lemma StoredDoNotSneak(uses: seq<string>, x: string, how: How, y: string)
    ensures !Sneaks(Ops(Stored(uses, x, how), y))
  {
    ReadsStay(uses, y);
    StepsDoNotSneak(Actions(how, x), x, y);
    OpsThen(Reads(uses), Steps(Actions(how, x), x), y);
  }

  lemma {:induction false} SneaksAll(ss: seq<Stmt>, x: string)
    ensures Sneaks(Ops(OutlineAll(ss), x)) <==> x in UncountedIn(ss)
    decreases ss, 0
  {
    if ss != [] {
      SneaksOne(ss[0], x);
      SneaksAll(ss[1..], x);
      OpsThen(Outline(ss[0]), OutlineAll(ss[1..]), x);
    }
  }

  lemma {:induction false} SneaksArms(s: Stmt, k: nat, x: string)
    requires s.If? && k <= |s.elseIfs|
    ensures Sneaks(Ops(OutlineArms(s, k), x)) <==> x in UncountedInArms(s.elseIfs[k..]) + UncountedIn(s.els)
    decreases s, 0, |s.elseIfs| - k
  {
    if k == |s.elseIfs| {
      SneaksAll(s.els, x);
    } else {
      SneaksAll(s.elseIfs[k].body, x);
      SneaksArms(s, k + 1, x);
      assert s.elseIfs[k..][1..] == s.elseIfs[k + 1..];
      Single(Either(OutlineAll(s.elseIfs[k].body), OutlineArms(s, k + 1)), x, {});
    }
  }

  lemma {:induction false} SneaksCases(cases: seq<Case>, x: string)
    ensures Sneaks(Ops(OutlineCases(cases), x)) <==> x in UncountedInCases(cases)
    decreases cases, 0
  {
    if cases != [] {
      SneaksAll(cases[0].body, x);
      SneaksCases(cases[1..], x);
      var arm := Either(OutlineAll(cases[0].body), []);
      ReadsThenOne(cases[0].test, arm, x);
      OpsThen(Reads(cases[0].test) + [arm], OutlineCases(cases[1..]), x);
    }
  }

  lemma {:induction false} SneaksHandlers(y: string, handlers: seq<Arm>, x: string)
    ensures Sneaks(Ops(OutlineHandlers(y, handlers), x)) <==> x in UncountedInArms(handlers)
    decreases handlers, 0
  {
    if handlers != [] {
      SneaksAll(handlers[0].body, x);
      SneaksHandlers(y, handlers[1..], x);
      var arm := Either(OutlineAll(handlers[0].body), []);
      ReadsThenOne([y], arm, x);
      OpsThen(Reads([y]) + [arm], OutlineHandlers(y, handlers[1..]), x);
    }
  }

  lemma {:induction false} SneaksCatches(catches: seq<Catch>, x: string)
    ensures Sneaks(Ops(OutlineCatches(catches), x)) <==> x in UncountedInCatches(catches)
    decreases catches, 0
  {
    if catches != [] {
      var caught, handlers := Emit(Init(catches[0].name, CatchCopy)), OutlineHandlers(catches[0].name, catches[0].handlers);
      SneaksHandlers(catches[0].name, catches[0].handlers, x);
      SneaksCatches(catches[1..], x);
      Single(caught, x, {});
      OpsThen([caught], handlers, x);
      OpsThen([caught] + handlers, OutlineCatches(catches[1..]), x);
    }
  }

  lemma {:induction false} SneaksRound(key: Option<string>, value: Option<string>, body: Block, x: string)
    ensures Sneaks(Ops(Fetched(key, value) + OutlineAll(body), x)) <==> (key == Some(x) || x in UncountedIn(body))
    decreases body, 1
  {
    SneaksAll(body, x);
    OpsThen(Fetched(key, value), OutlineAll(body), x);
    var k := if key.Some? then [Emit(Init(key.value, KeyInit))] else [];
    var v := if value.Some? then [Emit(Init(value.value, ValueInit))] else [];
    OpsThen(k, v, x);
    if key.Some? {
      Single(k[0], x, {});
    }
    if value.Some? {
      Single(v[0], x, {});
    }
  }

  lemma {:induction false} SneaksIf(s: Stmt, x: string)
    requires s.If?
    ensures Sneaks(Ops(Outline(s), x)) <==> x in Uncounted(s)
    decreases s, 0
  {
    SneaksAll(s.body, x);
    SneaksArms(s, 0, x);
    assert s.elseIfs[0..] == s.elseIfs;
    ReadsThenOne(s.test, Either(OutlineAll(s.body), OutlineArms(s, 0)), x);
  }

  lemma RoundOps(test: seq<string>, body: seq<Code>, x: string)
    ensures Ops(Reads(test) + [Either([Leave(Breaks)], [])] + body, x) == Ops(body, x)
  {
    var stop := Either([Leave(Breaks)], []);
    ReadsThenOne(test, stop, x);
    Single(Leave(Breaks), x, {});
    OpsThen(Reads(test) + [stop], body, x);
  }

  lemma {:induction false} SneaksLoop(s: Stmt, x: string)
    requires s.While? || s.DoWhile? || s.Loop?
    ensures Sneaks(Ops(Outline(s), x)) <==> x in Uncounted(s)
    decreases s, 0
  {
    SneaksAll(s.body, x);
    Single(Outline(s)[0], x, {});
    if s.While? {
      RoundOps(s.test, OutlineAll(s.body), x);
    } else if s.DoWhile? {
      ReadsStay(s.test, x);
    }
  }

  lemma {:induction false} SneaksFor(s: Stmt, x: string)
    requires s.For?
    ensures Sneaks(Ops(Outline(s), x)) <==> x in Uncounted(s)
    decreases s, 0
  {
    SneaksRound(s.key, s.value, s.body, x);
    TraversalIs(s.over, Each(Fetched(s.key, s.value) + OutlineAll(s.body)), x);
  }

  lemma {:induction false} SneaksSwitch(s: Stmt, x: string)
    requires s.Switch?
    ensures Sneaks(Ops(Outline(s), x)) <==> x in Uncounted(s)
    decreases s, 0
  {
    ReadsThenOne(s.on, Once(OutlineCases(s.cases) + OutlineAll(s.default)), x);
    if s.hasClauses {
      SneaksCases(s.cases, x);
      SneaksAll(s.default, x);
      OpsThen(OutlineCases(s.cases), OutlineAll(s.default), x);
    }
  }

  lemma {:induction false} SneaksTry(s: Stmt, x: string)
    requires s.Try?
    ensures Sneaks(Ops(Outline(s), x)) <==> x in Uncounted(s)
    decreases s, 0
  {
    SneaksAll(s.body, x);
    SneaksCatches(s.catches, x);
    Single(Guarded(OutlineAll(s.body), OutlineCatches(s.catches)), x, {});
  }

  lemma DeclarationsDoNotSneak(s: Stmt, x: string)
    requires s.Declare? || s.Let?
    ensures !Sneaks(Ops(Outline(s), x))
  {
    if s.Let? {
      StoredDoNotSneak(s.uses, s.name, s.how, x);
    } else if s.init.Some? {
      StoredDoNotSneak(s.init.value.uses, s.name, s.init.value.how, x);
    } else {
      Single(Emit(Assigned(s.name)), x, {});
    }
  }

  /** The outline of a statement applies an uncounted macro to x exactly if x is a key or caught in it. */
  lemma {:induction false} SneaksOne(s: Stmt, x: string)
    ensures Sneaks(Ops(Outline(s), x)) <==> x in Uncounted(s)
    decreases s, 1
  {
    match s
    case Evaluate(uses, _) => ReadsThenOne(uses, MayThrow, x);
    case Let(_, _, _) => DeclarationsDoNotSneak(s, x);
    case Declare(_, _, _) => DeclarationsDoNotSneak(s, x);
    case If(_, _, _, _, _, _, _) => SneaksIf(s, x);
    case While(_, _) => SneaksLoop(s, x);
    case DoWhile(_, _) => SneaksLoop(s, x);
    case Loop(_) => SneaksLoop(s, x);
    case For(_, _, _, _) => SneaksFor(s, x);
    case Switch(_, _, _, _) => SneaksSwitch(s, x);
    case Try(_, _) => SneaksTry(s, x);
    case Break => Single(Leave(Breaks), x, {});
    case Continue => Single(Leave(Continues), x, {});
    case Return(uses) => ReadsThenOne(uses, Leave(Returns), x);
    case Throw(uses) => ReadsThenOne(uses, Leave(Throws), x);
  }

  // The analyses of module Flows on the outline

  lemma {:induction false} AvoidsThen(a: seq<Code>, b: seq<Code>, x: Option<string>, e: Exit)
    ensures Avoids(a + b, x, e) <==> (e != Normal && Avoids(a, x, e)) || (Avoids(a, x, Normal) && Avoids(b, x, e))
  {
    if a == [] {
      assert a + b == b;
    } else {
      AvoidsThen(a[1..], b, x, e);
      assert (a + b)[1..] == a[1..] + b;
    }
  }

  lemma {:induction false} MeetsThen(a: seq<Code>, b: seq<Code>, x: Option<string>, g: Goal)
    ensures Meets(a + b, x, g) <==> Meets(a, x, g) || (Avoids(a, x, Normal) && Meets(b, x, g))
  {
    if a == [] {
      assert a + b == b;
    } else {
      MeetsThen(a[1..], b, x, g);
      assert (a + b)[1..] == a[1..] + b;
    }
  }

  lemma AvoidsSingle(c: Code, x: Option<string>, e: Exit)
    ensures Avoids([c], x, e) <==> AvoidsIn(c, x, e)
  {
    assert [c][1..] == [];
  }

  lemma {:induction false} StrippedAvoids(code: seq<Code>, x: Option<string>, e: Exit)
    ensures Avoids(Strip(code), x, e) <==> Avoids(code, x, e)
    decreases code, 0
  {
    if code != [] {
      StrippedAvoidsIn(code[0], x, e);
      StrippedAvoidsIn(code[0], x, Normal);
      StrippedAvoids(code[1..], x, e);
      AvoidsThen(StripOf(code[0]), Strip(code[1..]), x, e);
    }
  }

  lemma {:induction false} StrippedAvoidsIn(c: Code, x: Option<string>, e: Exit)
    ensures Avoids(StripOf(c), x, e) <==> AvoidsIn(c, x, e)
    decreases c, 2
  {
    if StripOf(c) != [] {
      AvoidsSingle(StripOf(c)[0], x, e);
      assert StripOf(c) == [StripOf(c)[0]];
    }
    match c
    case Either(yes, no) => StrippedAvoids(yes, x, e); StrippedAvoids(no, x, e);
    case Forever(b) => StrippedAvoids(b, x, if e == Normal then Breaks else e);
    case Repeat(b, t) =>
      StrippedAvoids(b, x, if e == Normal then Breaks else e);
      StrippedGoesOn(b, x);
      StrippedAvoids(t, x, e);
    case Each(b) => StrippedAvoids(b, x, e);
    case Once(b) =>
      StrippedGoesOn(b, x);
      StrippedAvoids(b, x, if e == Normal then Breaks else e);
    case Guarded(b, h) =>
      StrippedAvoids(b, x, e);
      StrippedAvoids(b, x, Throws);
      StrippedAvoids(h, x, e);
    case _ =>
  }

  lemma {:induction false} StrippedGoesOn(b: seq<Code>, x: Option<string>)
    ensures GoesOn(Strip(b), x) <==> GoesOn(b, x)
    decreases b, 1
  {
    StrippedAvoids(b, x, Normal);
    StrippedAvoids(b, x, Continues);
  }

  lemma {:induction false} StrippedMeets(code: seq<Code>, x: string)
    ensures Meets(Strip(code), Some(x), ReadOf(x, false)) <==> Meets(code, Some(x), ReadOf(x, false))
    decreases code, 0
  {
    if code != [] {
      StrippedMeetsIn(code[0], x);
      StrippedAvoidsIn(code[0], Some(x), Normal);
      StrippedMeets(code[1..], x);
      MeetsThen(StripOf(code[0]), Strip(code[1..]), Some(x), ReadOf(x, false));
    }
  }

  lemma {:induction false} StrippedMeetsIn(c: Code, x: string)
    ensures Meets(StripOf(c), Some(x), ReadOf(x, false)) <==> MeetsIn(c, Some(x), ReadOf(x, false))
    decreases c, 2
  {
    if StripOf(c) != [] {
      assert StripOf(c) == [StripOf(c)[0]];
    }
    match c
    case Either(yes, no) => StrippedMeets(yes, x); StrippedMeets(no, x);
    case Forever(b) => StrippedMeets(b, x);
    case Repeat(b, t) =>
      StrippedMeets(b, x);
      StrippedGoesOn(b, Some(x));
      StrippedMeets(t, x);
    case Each(b) => StrippedMeets(b, x);
    case Once(b) => StrippedMeets(b, x);
    case Guarded(b, h) =>
      StrippedMeets(b, x);
      StrippedAvoids(b, Some(x), Throws);
      StrippedMeets(h, x);
    case _ =>
  }

  lemma StrippedExposed(code: seq<Code>, x: string)
    ensures Exposed(Strip(code), x, false) <==> Exposed(code, x, false)
  {
    StrippedMeets(code, x);
  }
}
