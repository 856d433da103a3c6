/**
 Whether code can give a variable a zval that is not counted and later apply a first-time macro to it.
 The answer is found by recursion on the code, and it is exact: it holds if and only if there is such a
 run.
 */
module Overwrites {
  import opened Wrappers
  import opened Variables
  import opened Statements
  import opened Runs
  import opened Walks
  import opened Flows
  import opened Outlines
  import opened Sources

  // What runs do

  predicate IsUncounted(e: Event, x: string) {
    e.Init? && e.name == x && Sneaks({e.op})
  }

  /** x gets a zval that is not counted. */
  predicate Fills(trace: seq<Event>, x: string) {
    exists e <- trace :: IsUncounted(e, x)
  }

  /** Uncounted macro at i, first-time macro at j. */
  predicate OverwritesAt(trace: seq<Event>, x: string, i: nat, j: nat) {
    i < j < |trace| && IsUncounted(trace[i], x) && Attains(trace[j], FirstOf(x))
  }

  ghost predicate IsOverwritten(trace: seq<Event>, x: string) {
    exists i: nat, j: nat :: OverwritesAt(trace, x, i, j)
  }

  ghost predicate Allocates(trace: seq<Event>, x: string) {
    Arrives(trace, None, FirstOf(x))
  }

  ghost predicate AllocatesOver(code: seq<Code>, path: seq<Step>, x: string) {
    IsOverwritten(RunAll(code, path).trace, x)
  }

  lemma FillsThen(s: seq<Event>, t: seq<Event>, x: string)
    ensures Fills(s + t, x) <==> Fills(s, x) || Fills(t, x)
  {
    if e :| e in s + t && IsUncounted(e, x) {
      assert e in s || e in t;
    }
    if e :| e in s && IsUncounted(e, x) {
      assert e in s + t;
    }
    if e :| e in t && IsUncounted(e, x) {
      assert e in s + t;
    }
  }

  lemma OverwriteSplits(s: seq<Event>, t: seq<Event>, x: string)
    requires IsOverwritten(s + t, x)
    ensures IsOverwritten(s, x) || (Fills(s, x) && Allocates(t, x)) || IsOverwritten(t, x)
  {
    var i: nat, j: nat :| OverwritesAt(s + t, x, i, j);
    if j < |s| {
      assert OverwritesAt(s, x, i, j);
    } else if i < |s| {
      assert s[i] in s && IsUncounted(s[i], x);
      assert ArrivesAt(t, None, FirstOf(x), j - |s|);
    } else {
      assert OverwritesAt(t, x, i - |s|, j - |s|);
    }
  }

  lemma OverwriteJoins(s: seq<Event>, t: seq<Event>, x: string)
    requires IsOverwritten(s, x) || (Fills(s, x) && Allocates(t, x)) || IsOverwritten(t, x)
    ensures IsOverwritten(s + t, x)
  {
    if IsOverwritten(s, x) {
      var i: nat, j: nat :| OverwritesAt(s, x, i, j);
      assert OverwritesAt(s + t, x, i, j);
    } else if IsOverwritten(t, x) {
      var i: nat, j: nat :| OverwritesAt(t, x, i, j);
      assert OverwritesAt(s + t, x, |s| + i, |s| + j);
    } else {
      var e :| e in s && IsUncounted(e, x);
      var i :| 0 <= i < |s| && s[i] == e;
      var k: nat :| ArrivesAt(t, None, FirstOf(x), k);
      assert OverwritesAt(s + t, x, i, |s| + k);
    }
  }

  lemma NothingOverwrites(x: string)
    ensures !IsOverwritten([], x) && !Fills([], x)
  {
  }

  // The analysis

  /** Some run leaves by e after x got an uncounted zval. */
  predicate MayFill(code: seq<Code>, x: string, e: Exit) {
    code != [] &&
    (|| (e != Normal && MayFillIn(code[0], x, e))
     || (MayFillIn(code[0], x, Normal) && Avoids(code[1..], None, e))
     || (AvoidsIn(code[0], None, Normal) && MayFill(code[1..], x, e)))
  }

  predicate FillsAndGoesOn(body: seq<Code>, x: string) {
    MayFill(body, x, Normal) || MayFill(body, x, Continues)
  }

  /** How a loop is left from inside its body. */
  function Inside(e: Exit): Exit {
    if e == Normal then Breaks else e
  }

  predicate MayFillIn(c: Code, x: string, e: Exit) {
    match c
    case Emit(event) => e == Normal && IsUncounted(event, x)
    case Either(yes, no) => MayFill(yes, x, e) || MayFill(no, x, e)
    case Forever(b) =>
      || (e != Breaks && e != Continues && MayFill(b, x, Inside(e)))
      || (FillsAndGoesOn(b, x) && AvoidsIn(c, None, e))
    case Repeat(b, t) =>
      || (e != Breaks && e != Continues && MayFill(b, x, Inside(e)))
      || (GoesOn(b, None) && MayFill(t, x, e))
      || (FillsAndGoesOn(b, x) && Avoids(t, None, e))
      || (((FillsAndGoesOn(b, x) && Avoids(t, None, Normal)) || (GoesOn(b, None) && MayFill(t, x, Normal))) && AvoidsIn(c, None, e))
    case Each(b) =>
      || (e != Breaks && e != Continues && MayFill(b, x, Inside(e)))
      || (FillsAndGoesOn(b, x) && AvoidsIn(c, None, e))
    case Once(b) =>
      if e == Normal then FillsAndGoesOn(b, x) || MayFill(b, x, Breaks) else e != Breaks && e != Continues && MayFill(b, x, e)
    case Guarded(b, h) =>
      || (e != Throws && MayFill(b, x, e))
      || (MayFill(b, x, Throws) && Avoids(h, None, e))
      || (Avoids(b, None, Throws) && MayFill(h, x, e))
    case _ => false
  }

  /** A whole round of the loop gives x an uncounted zval, and the loop goes on. */
  predicate RoundFills(c: Code, x: string)
    requires IsLoop(c)
  {
    if c.Repeat? then
      (FillsAndGoesOn(c.body, x) && Avoids(c.test, None, Normal)) || (GoesOn(c.body, None) && MayFill(c.test, x, Normal))
    else FillsAndGoesOn(c.body, x)
  }

  /** Some run applies a first-time macro to x after an uncounted one. */
  predicate MayOverwrite(code: seq<Code>, x: string) {
    code != [] &&
    (|| MayOverwriteIn(code[0], x)
     || (MayFillIn(code[0], x, Normal) && Meets(code[1..], None, FirstOf(x)))
     || (AvoidsIn(code[0], None, Normal) && MayOverwrite(code[1..], x)))
  }

  predicate MayOverwriteIn(c: Code, x: string) {
    match c
    case Either(yes, no) => MayOverwrite(yes, x) || MayOverwrite(no, x)
    case Forever(b) => MayOverwrite(b, x) || (RoundFills(c, x) && MeetsIn(c, None, FirstOf(x)))
    case Repeat(b, t) =>
      || MayOverwrite(b, x)
      || (FillsAndGoesOn(b, x) && Meets(t, None, FirstOf(x)))
      || (GoesOn(b, None) && MayOverwrite(t, x))
      || (RoundFills(c, x) && MeetsIn(c, None, FirstOf(x)))
    case Each(b) => MayOverwrite(b, x) || (RoundFills(c, x) && MeetsIn(c, None, FirstOf(x)))
    case Once(b) => MayOverwrite(b, x)
    case Guarded(b, h) =>
      || MayOverwrite(b, x)
      || (MayFill(b, x, Throws) && Meets(h, None, FirstOf(x)))
      || (Avoids(b, None, Throws) && MayOverwrite(h, x))
    case _ => false
  }

  // Every run is foreseen

  lemma {:induction false} FillRuns(code: seq<Code>, path: seq<Step>, x: string)
    requires RunAll(code, path).exit != Cut && Fills(RunAll(code, path).trace, x)
    ensures MayFill(code, x, RunAll(code, path).exit)
    decreases code, 0
  {
    NothingOverwrites(x);
    var first, rest := RunOne(code[0], path[0]), RunAll(code[1..], path[1..]);
    if first.exit != Normal {
      FillOne(code[0], path[0], x);
    } else {
      FillsThen(first.trace, rest.trace, x);
      AvoidsOne(code[0], path[0], None);
      AvoidsRuns(code[1..], path[1..], None);
      if Fills(first.trace, x) {
        FillOne(code[0], path[0], x);
      } else {
        FillRuns(code[1..], path[1..], x);
      }
    }
  }

  lemma {:induction false} FillOne(c: Code, s: Step, x: string)
    requires RunOne(c, s).exit != Cut && Fills(RunOne(c, s).trace, x)
    ensures MayFillIn(c, x, RunOne(c, s).exit)
    decreases c, 2
  {
    NothingOverwrites(x);
    match c
    case Either(yes, no) => FillRuns(if s.Yes? then yes else no, s.path, x);
    case Forever(_) => FillLoop(c, s.rounds, Cut, x);
    case Repeat(_, _) => FillLoop(c, s.rounds, Normal, x);
    case Each(_) => FillLoop(c, s.rounds, Normal, x);
    case Once(b) => FillRuns(b, s.path, x);
    case Guarded(b, h) =>
      var body, caught := RunAll(b, s.path), RunAll(h, s.handler);
      AvoidsRuns(b, s.path, None);
      if Fills(body.trace, x) {
        FillRuns(b, s.path, x);
      }
      if body.exit == Throws {
        FillsThen(body.trace, caught.trace, x);
        AvoidsRuns(h, s.handler, None);
        if Fills(caught.trace, x) {
          FillRuns(h, s.handler, x);
        }
      }
    case _ =>
  }

  /** A whole round, after which the loop goes on. */
  predicate Whole(c: Code, round: Round)
    requires IsLoop(c)
  {
    RunAll(c.body, round.body).exit in {Normal, Continues} && RunTest(c, round.test).exit == Normal
  }

  function RoundTrace(c: Code, round: Round): seq<Event>
    requires IsLoop(c)
  {
    RunAll(c.body, round.body).trace + RunTest(c, round.test).trace
  }

  lemma {:induction false} FillRound(c: Code, round: Round, x: string)
    requires IsLoop(c) && Whole(c, round) && Fills(RoundTrace(c, round), x)
    ensures RoundFills(c, x)
    decreases c, 0
  {
    var body, test := RunAll(c.body, round.body), RunTest(c, round.test);
    FillsThen(body.trace, test.trace, x);
    NothingOverwrites(x);
    AvoidsRuns(c.body, round.body, None);
    if Fills(body.trace, x) {
      FillRuns(c.body, round.body, x);
    }
    if c.Repeat? {
      AvoidsRuns(c.test, round.test, None);
      if Fills(test.trace, x) {
        FillRuns(c.test, round.test, x);
      }
    }
  }

  lemma {:induction false} FillLoop(c: Code, rounds: seq<Round>, last: Exit, x: string)
    requires IsLoop(c) && last == (if c.Forever? then Cut else Normal)
    requires RunLoop(c, rounds, last).exit != Cut && Fills(RunLoop(c, rounds, last).trace, x)
    ensures MayFillIn(c, x, RunLoop(c, rounds, last).exit)
    decreases c, 1, rounds
  {
    NothingOverwrites(x);
    if Whole(c, rounds[0]) {
      var rest := RunLoop(c, rounds[1..], last);
      FillsThen(RoundTrace(c, rounds[0]), rest.trace, x);
      if Fills(rest.trace, x) {
        FillLoop(c, rounds[1..], last, x);
      } else {
        FillRound(c, rounds[0], x);
        AvoidsLoop(c, rounds, last, None);
      }
    } else {
      FillLast(c, rounds, last, x);
    }
  }

  /** The round in which the loop is left. */
  lemma {:induction false} FillLast(c: Code, rounds: seq<Round>, last: Exit, x: string)
    requires IsLoop(c) && rounds != [] && !Whole(c, rounds[0])
    requires RunLoop(c, rounds, last).exit != Cut && Fills(RunLoop(c, rounds, last).trace, x)
    ensures MayFillIn(c, x, RunLoop(c, rounds, last).exit)
    decreases c, 0
  {
    var body, test := RunAll(c.body, rounds[0].body), RunTest(c, rounds[0].test);
    AvoidsRuns(c.body, rounds[0].body, None);
    if Fills(body.trace, x) {
      FillRuns(c.body, rounds[0].body, x);
    }
    if body.exit == Normal || body.exit == Continues {
      FillsThen(body.trace, test.trace, x);
      AvoidsRuns(c.test, rounds[0].test, None);
      if Fills(test.trace, x) {
        FillRuns(c.test, rounds[0].test, x);
      }
    }
  }

  lemma {:induction false} OverwriteRuns(code: seq<Code>, path: seq<Step>, x: string)
    requires IsOverwritten(RunAll(code, path).trace, x)
    ensures MayOverwrite(code, x)
    decreases code, 0
  {
    NothingOverwrites(x);
    var first, rest := RunOne(code[0], path[0]), RunAll(code[1..], path[1..]);
    if IsOverwritten(first.trace, x) {
      OverwriteOne(code[0], path[0], x);
    } else {
      OverwriteSplits(first.trace, rest.trace, x);
      AvoidsOne(code[0], path[0], None);
      if IsOverwritten(rest.trace, x) {
        OverwriteRuns(code[1..], path[1..], x);
      } else {
        FillOne(code[0], path[0], x);
        MeetsRuns(code[1..], path[1..], None, FirstOf(x));
      }
    }
  }

  lemma {:induction false} OverwriteOne(c: Code, s: Step, x: string)
    requires IsOverwritten(RunOne(c, s).trace, x)
    ensures MayOverwriteIn(c, x)
    decreases c, 2
  {
    NothingOverwrites(x);
    match c
    case Either(yes, no) => OverwriteRuns(if s.Yes? then yes else no, s.path, x);
    case Forever(_) => OverwriteLoop(c, s.rounds, Cut, x);
    case Repeat(_, _) => OverwriteLoop(c, s.rounds, Normal, x);
    case Each(_) => OverwriteLoop(c, s.rounds, Normal, x);
    case Once(b) => OverwriteRuns(b, s.path, x);
    case Guarded(b, h) =>
      var body, caught := RunAll(b, s.path), RunAll(h, s.handler);
      if IsOverwritten(body.trace, x) {
        OverwriteRuns(b, s.path, x);
      } else {
        OverwriteSplits(body.trace, caught.trace, x);
        AvoidsRuns(b, s.path, None);
        if IsOverwritten(caught.trace, x) {
          OverwriteRuns(h, s.handler, x);
        } else {
          FillRuns(b, s.path, x);
          MeetsRuns(h, s.handler, None, FirstOf(x));
        }
      }
    case _ =>
  }

  /** Inside one round. */
  lemma {:induction false} OverwriteRound(c: Code, round: Round, x: string)
    requires IsLoop(c) && RunAll(c.body, round.body).exit in {Normal, Continues} && IsOverwritten(RoundTrace(c, round), x)
    ensures MayOverwriteIn(c, x)
    decreases c, 0
  {
    NothingOverwrites(x);
    var body, test := RunAll(c.body, round.body), RunTest(c, round.test);
    OverwriteSplits(body.trace, test.trace, x);
    AvoidsRuns(c.body, round.body, None);
    if IsOverwritten(body.trace, x) {
      OverwriteRuns(c.body, round.body, x);
    } else if IsOverwritten(test.trace, x) {
      OverwriteRuns(c.test, round.test, x);
    } else {
      NothingArrives(None, FirstOf(x));
      FillRuns(c.body, round.body, x);
      MeetsRuns(c.test, round.test, None, FirstOf(x));
    }
  }

  lemma {:induction false} OverwriteLoop(c: Code, rounds: seq<Round>, last: Exit, x: string)
    requires IsLoop(c) && IsOverwritten(RunLoop(c, rounds, last).trace, x)
    ensures MayOverwriteIn(c, x)
    decreases c, 1, rounds
  {
    NothingOverwrites(x);
    var body := RunAll(c.body, rounds[0].body);
    if body.exit != Normal && body.exit != Continues {
      OverwriteRuns(c.body, rounds[0].body, x);
    } else if IsOverwritten(RoundTrace(c, rounds[0]), x) {
      OverwriteRound(c, rounds[0], x);
    } else {
      var rest := RunLoop(c, rounds[1..], last);
      OverwriteSplits(RoundTrace(c, rounds[0]), rest.trace, x);
      if IsOverwritten(rest.trace, x) {
        OverwriteLoop(c, rounds[1..], last, x);
      } else {
        FillRound(c, rounds[0], x);
        MeetsLoop(c, rounds[1..], last, None, FirstOf(x));
      }
    }
  }

  // Every foreseen run exists

  lemma {:induction false} FindFill(code: seq<Code>, x: string, e: Exit) returns (path: seq<Step>)
    requires MayFill(code, x, e) && e != Cut
    ensures RunAll(code, path).exit == e && Fills(RunAll(code, path).trace, x)
    decreases code, 0
  {
    if e != Normal && MayFillIn(code[0], x, e) {
      var first := FindFillStep(code[0], x, e);
      path := [first];
    } else if MayFillIn(code[0], x, Normal) && Avoids(code[1..], None, e) {
      var first := FindFillStep(code[0], x, Normal);
      var rest := FindPath(code[1..], None, e);
      path := [first] + rest;
      assert path[1..] == rest;
      FillsThen(RunOne(code[0], first).trace, RunAll(code[1..], rest).trace, x);
    } else {
      var first := FindStep(code[0], None, Normal);
      var rest := FindFill(code[1..], x, e);
      path := [first] + rest;
      assert path[1..] == rest;
      FillsThen(RunOne(code[0], first).trace, RunAll(code[1..], rest).trace, x);
    }
  }

  lemma {:induction false} FindFillOn(b: seq<Code>, x: string) returns (path: seq<Step>)
    requires FillsAndGoesOn(b, x)
    ensures RunAll(b, path).exit in {Normal, Continues} && Fills(RunAll(b, path).trace, x)
    decreases b, 1
  {
    path := FindFill(b, x, if MayFill(b, x, Normal) then Normal else Continues);
  }

  lemma {:induction false} FindOn(b: seq<Code>) returns (path: seq<Step>)
    requires GoesOn(b, None)
    ensures RunAll(b, path).exit in {Normal, Continues}
  {
    path := FindPath(b, None, if Avoids(b, None, Normal) then Normal else Continues);
  }

  lemma {:induction false} FindFillRound(c: Code, x: string) returns (round: Round)
    requires IsLoop(c) && RoundFills(c, x)
    ensures Whole(c, round) && Fills(RoundTrace(c, round), x)
    decreases c, 0
  {
    var path, test := [], [];
    if FillsAndGoesOn(c.body, x) && (c.Repeat? ==> Avoids(c.test, None, Normal)) {
      path := FindFillOn(c.body, x);
      if c.Repeat? {
        test := FindPath(c.test, None, Normal);
      }
    } else {
      path := FindOn(c.body);
      test := FindFill(c.test, x, Normal);
    }
    round := Round(path, test);
    FillsThen(RunAll(c.body, path).trace, RunTest(c, test).trace, x);
  }

  /** A whole round in front of others. */
  lemma RoundThen(c: Code, round: Round, rounds: seq<Round>, last: Exit)
    requires IsLoop(c) && Whole(c, round)
    ensures var rest := RunLoop(c, rounds, last);
      RunLoop(c, [round] + rounds, last) == Run(RoundTrace(c, round) + rest.trace, rest.exit)
  {
    assert ([round] + rounds)[1..] == rounds;
  }

  function Last(c: Code): Exit {
    if c.Forever? then Cut else Normal
  }

  lemma LoopRuns(c: Code, rounds: seq<Round>)
    requires IsLoop(c) && rounds != []
    ensures RunOne(c, Rounds(rounds)) == RunLoop(c, rounds, Last(c))
  {
  }

  /** A round that fills x, then a run of the loop that leaves by e. */
  lemma {:induction false} FindFillThenLeave(c: Code, x: string, e: Exit) returns (s: Step)
    requires IsLoop(c) && RoundFills(c, x) && AvoidsIn(c, None, e) && e != Cut
    ensures RunOne(c, s).exit == e && Fills(RunOne(c, s).trace, x)
    decreases c, 1
  {
    var round := FindFillRound(c, x);
    var rest := FindStep(c, None, e);
    s := Rounds([round] + rest.rounds);
    RoundThen(c, round, rest.rounds, Last(c));
    LoopRuns(c, [round] + rest.rounds);
    FillsThen(RoundTrace(c, round), RunLoop(c, rest.rounds, Last(c)).trace, x);
  }

  lemma {:induction false} FindFillTest(b: seq<Code>, t: seq<Code>, x: string, e: Exit) returns (s: Step)
    requires e != Cut
    requires (GoesOn(b, None) && MayFill(t, x, e)) || (FillsAndGoesOn(b, x) && Avoids(t, None, e))
    ensures RunOne(Repeat(b, t), s).exit == e && Fills(RunOne(Repeat(b, t), s).trace, x)
    decreases Repeat(b, t), 1
  {
    var path, test;
    if GoesOn(b, None) && MayFill(t, x, e) {
      path := FindOn(b);
      test := FindFill(t, x, e);
    } else {
      path := FindFillOn(b, x);
      test := FindPath(t, None, e);
    }
    s := Rounds([Round(path, test)]);
    OneTestedRound(b, t, path, test);
    FillsThen(RunAll(b, path).trace, RunAll(t, test).trace, x);
  }

  /** A loop that is left from inside its body. */
  lemma LeftInside(c: Code, path: seq<Step>)
    requires IsLoop(c) && RunAll(c.body, path).exit !in {Normal, Continues}
    ensures var body := RunAll(c.body, path);
      RunOne(c, Rounds([Round(path, [])])) == Run(body.trace, if body.exit == Breaks then Normal else body.exit)
  {
  }

  lemma {:induction false} FindFillInside(c: Code, x: string, e: Exit) returns (s: Step)
    requires IsLoop(c) && e != Breaks && e != Continues && e != Cut && MayFill(c.body, x, Inside(e))
    ensures RunOne(c, s).exit == e && Fills(RunOne(c, s).trace, x)
    decreases c, 0
  {
    var path := FindFill(c.body, x, Inside(e));
    s := Rounds([Round(path, [])]);
    LeftInside(c, path);
  }

  lemma {:induction false} FindFillStep(c: Code, x: string, e: Exit) returns (s: Step)
    requires MayFillIn(c, x, e) && e != Cut
    ensures RunOne(c, s).exit == e && Fills(RunOne(c, s).trace, x)
    decreases c, 2
  {
    match c
    case Emit(event) =>
      s := Plain;
      assert event in [event];
    case Either(yes, no) =>
      var path := FindFill(if MayFill(yes, x, e) then yes else no, x, e);
      s := if MayFill(yes, x, e) then Yes(path) else No(path);
    case Forever(b) =>
      if e != Breaks && e != Continues && MayFill(b, x, Inside(e)) {
        s := FindFillInside(c, x, e);
      } else {
        s := FindFillThenLeave(c, x, e);
      }
    case Repeat(b, t) =>
      if e != Breaks && e != Continues && MayFill(b, x, Inside(e)) {
        s := FindFillInside(c, x, e);
      } else if (GoesOn(b, None) && MayFill(t, x, e)) || (FillsAndGoesOn(b, x) && Avoids(t, None, e)) {
        s := FindFillTest(b, t, x, e);
      } else {
        s := FindFillThenLeave(c, x, e);
      }
    case Each(b) =>
      if e != Breaks && e != Continues && MayFill(b, x, Inside(e)) {
        s := FindFillInside(c, x, e);
      } else {
        s := FindFillThenLeave(c, x, e);
      }
    case Once(b) =>
      var path := FindFill(b, x, if e != Normal || MayFill(b, x, Normal) then e else if MayFill(b, x, Breaks) then Breaks else Continues);
      s := Runs.Step.Inside(path);
    case Guarded(b, h) => s := FindFillGuarded(b, h, x, e);
  }

  lemma {:induction false} FindFillGuarded(b: seq<Code>, h: seq<Code>, x: string, e: Exit) returns (s: Step)
    requires MayFillIn(Guarded(b, h), x, e) && e != Cut
    ensures RunOne(Guarded(b, h), s).exit == e && Fills(RunOne(Guarded(b, h), s).trace, x)
    decreases Guarded(b, h), 1
  {
    var path, handler := [], [];
    if e != Throws && MayFill(b, x, e) {
      path := FindFill(b, x, e);
    } else if MayFill(b, x, Throws) && Avoids(h, None, e) {
      path := FindFill(b, x, Throws);
      handler := FindPath(h, None, e);
    } else {
      path := FindPath(b, None, Throws);
      handler := FindFill(h, x, e);
    }
    s := Tried(path, handler);
    FillsThen(RunAll(b, path).trace, RunAll(h, handler).trace, x);
  }

  lemma {:induction false} FindOverwrite(code: seq<Code>, x: string) returns (path: seq<Step>)
    requires MayOverwrite(code, x)
    ensures IsOverwritten(RunAll(code, path).trace, x)
    decreases code, 0
  {
    if MayOverwriteIn(code[0], x) {
      var first := FindOverwriteStep(code[0], x);
      path := [first];
      OverwriteJoins(RunOne(code[0], first).trace, RunAll(code[1..], path[1..]).trace, x);
    } else {
      var first, rest;
      if MayFillIn(code[0], x, Normal) && Meets(code[1..], None, FirstOf(x)) {
        first := FindFillStep(code[0], x, Normal);
        rest := FindGoal(code[1..], None, FirstOf(x));
      } else {
        first := FindStep(code[0], None, Normal);
        rest := FindOverwrite(code[1..], x);
      }
      path := [first] + rest;
      assert path[1..] == rest;
      OverwriteJoins(RunOne(code[0], first).trace, RunAll(code[1..], rest).trace, x);
    }
  }

  /** A round that fills x, then a first-time macro in a later one. */
  lemma {:induction false} FindFillThenFirst(c: Code, x: string) returns (s: Step)
    requires IsLoop(c) && RoundFills(c, x) && MeetsIn(c, None, FirstOf(x))
    ensures IsOverwritten(RunOne(c, s).trace, x)
  {
    NothingArrives(None, FirstOf(x));
    var round := FindFillRound(c, x);
    var rest := FindGoalStep(c, None, FirstOf(x));
    s := Rounds([round] + rest.rounds);
    RoundThen(c, round, rest.rounds, Last(c));
    LoopRuns(c, [round] + rest.rounds);
    OverwriteJoins(RoundTrace(c, round), RunLoop(c, rest.rounds, Last(c)).trace, x);
  }

  /** One round is enough if its body overwrites. */
  lemma OverwritesInRound(c: Code, path: seq<Step>, x: string)
    requires IsLoop(c) && IsOverwritten(RunAll(c.body, path).trace, x)
    ensures IsOverwritten(RunOne(c, Rounds([Round(path, [])])).trace, x)
  {
    var round := Round(path, []);
    var body, test := RunAll(c.body, path), RunTest(c, []);
    OverwriteJoins(body.trace, test.trace, x);
    OverwriteJoins(body.trace + test.trace, RunLoop(c, [round][1..], Last(c)).trace, x);
    LoopRuns(c, [round]);
  }

  lemma {:induction false} FindOverwriteTest(b: seq<Code>, t: seq<Code>, x: string) returns (s: Step)
    requires (FillsAndGoesOn(b, x) && Meets(t, None, FirstOf(x))) || (GoesOn(b, None) && MayOverwrite(t, x))
    ensures IsOverwritten(RunOne(Repeat(b, t), s).trace, x)
    decreases Repeat(b, t), 1
  {
    var path, test;
    if FillsAndGoesOn(b, x) && Meets(t, None, FirstOf(x)) {
      path := FindFillOn(b, x);
      test := FindGoal(t, None, FirstOf(x));
    } else {
      path := FindOn(b);
      test := FindOverwrite(t, x);
    }
    s := Rounds([Round(path, test)]);
    OneTestedRound(b, t, path, test);
    OverwriteJoins(RunAll(b, path).trace, RunAll(t, test).trace, x);
  }

  lemma {:induction false} FindOverwriteBody(c: Code, x: string) returns (s: Step)
    requires IsLoop(c) && MayOverwrite(c.body, x)
    ensures IsOverwritten(RunOne(c, s).trace, x)
    decreases c, 0
  {
    var path := FindOverwrite(c.body, x);
    s := Rounds([Round(path, [])]);
    OverwritesInRound(c, path, x);
  }

  lemma {:induction false} FindOverwriteStep(c: Code, x: string) returns (s: Step)
    requires MayOverwriteIn(c, x)
    ensures IsOverwritten(RunOne(c, s).trace, x)
    decreases c, 2
  {
    match c
    case Either(yes, no) =>
      var path := FindOverwrite(if MayOverwrite(yes, x) then yes else no, x);
      s := if MayOverwrite(yes, x) then Yes(path) else No(path);
    case Repeat(b, t) =>
      if MayOverwrite(b, x) {
        s := FindOverwriteBody(c, x);
      } else if RoundFills(c, x) && MeetsIn(c, None, FirstOf(x)) {
        s := FindFillThenFirst(c, x);
      } else {
        s := FindOverwriteTest(b, t, x);
      }
    case Once(b) =>
      var path := FindOverwrite(b, x);
      s := Runs.Step.Inside(path);
    case Guarded(b, h) => s := FindOverwriteGuarded(b, h, x);
    case Forever(b) => s := FindOverwriteLoop(c, x);
    case Each(b) => s := FindOverwriteLoop(c, x);
    case _ =>
  }

  lemma {:induction false} FindOverwriteLoop(c: Code, x: string) returns (s: Step)
    requires (c.Forever? || c.Each?) && MayOverwriteIn(c, x)
    ensures IsOverwritten(RunOne(c, s).trace, x)
    decreases c, 1
  {
    if MayOverwrite(c.body, x) {
      s := FindOverwriteBody(c, x);
    } else {
      s := FindFillThenFirst(c, x);
    }
  }

  lemma {:induction false} FindOverwriteGuarded(b: seq<Code>, h: seq<Code>, x: string) returns (s: Step)
    requires MayOverwriteIn(Guarded(b, h), x)
    ensures IsOverwritten(RunOne(Guarded(b, h), s).trace, x)
    decreases Guarded(b, h), 1
  {
    var path, handler := [], [];
    if MayOverwrite(b, x) {
      path := FindOverwrite(b, x);
    } else if MayFill(b, x, Throws) && Meets(h, None, FirstOf(x)) {
      path := FindFill(b, x, Throws);
      handler := FindGoal(h, None, FirstOf(x));
    } else {
      path := FindPath(b, None, Throws);
      handler := FindOverwrite(h, x);
    }
    s := Tried(path, handler);
    OverwriteJoins(RunAll(b, path).trace, RunAll(h, handler).trace, x);
  }

  /** Code allocates over an uncounted zval of x in some run, if and only if the analysis says so. */
  lemma MayOverwriteIsExact(code: seq<Code>, x: string)
    ensures MayOverwrite(code, x) <==> exists path :: AllocatesOver(code, path, x)
  {
    if MayOverwrite(code, x) {
      var path := FindOverwrite(code, x);
      assert AllocatesOver(code, path, x);
    }
    forall path | AllocatesOver(code, path, x) ensures MayOverwrite(code, x) {
      OverwriteRuns(code, path, x);
    }
  }

  // What the analysis says about code in parts

  lemma {:induction false} MayFillThen(a: seq<Code>, b: seq<Code>, x: string, e: Exit)
    ensures MayFill(a + b, x, e) <==>
            || (e != Normal && MayFill(a, x, e))
            || (MayFill(a, x, Normal) && Avoids(b, None, e))
            || (Avoids(a, None, Normal) && MayFill(b, x, e))
  {
    if a == [] {
      assert a + b == b;
    } else {
      MayFillThen(a[1..], b, x, e);
      AvoidsThen(a[1..], b, None, e);
      assert (a + b)[1..] == a[1..] + b;
    }
  }

  lemma {:induction false} MayOverwriteThen(a: seq<Code>, b: seq<Code>, x: string)
    ensures MayOverwrite(a + b, x) <==>
            || MayOverwrite(a, x)
            || (MayFill(a, x, Normal) && Meets(b, None, FirstOf(x)))
            || (Avoids(a, None, Normal) && MayOverwrite(b, x))
  {
    if a == [] {
      assert a + b == b;
    } else {
      MayOverwriteThen(a[1..], b, x);
      MeetsThen(a[1..], b, None, FirstOf(x));
      assert (a + b)[1..] == a[1..] + b;
    }
  }

  lemma MayFillSingle(c: Code, x: string, e: Exit)
    ensures MayFill([c], x, e) <==> MayFillIn(c, x, e)
  {
    assert [c][1..] == [];
  }

  /** Without uncounted macros nothing is filled, and nothing overwritten. */
  lemma NeedsUncounted(code: seq<Code>, x: string, e: Exit)
    requires !Sneaks(Ops(code, x)) && e != Cut
    ensures !MayFill(code, x, e) && !MayOverwrite(code, x)
  {
    if MayFill(code, x, e) {
      var path := FindFill(code, x, e);
      WithinRuns(code, path, x);
    }
    if MayOverwrite(code, x) {
      var path := FindOverwrite(code, x);
      WithinRuns(code, path, x);
    }
  }

  /** Nothing is overwritten without first-time macros. */
  lemma NeedsFirst(code: seq<Code>, x: string)
    requires !SomeFirst(Ops(code, x))
    ensures !MayOverwrite(code, x)
  {
    if MayOverwrite(code, x) {
      var path := FindOverwrite(code, x);
      WithinRuns(code, path, x);
    }
  }

  /** Code that fills x and leaves by e leaves by e. */
  lemma FillsLeaves(code: seq<Code>, x: string, e: Exit)
    requires MayFill(code, x, e) && e != Cut
    ensures Avoids(code, None, e)
  {
    var path := FindFill(code, x, e);
    AvoidsRuns(code, path, None);
  }

  // Uncounted macros are in the outline

  lemma {:induction false} StrippedFill(code: seq<Code>, x: string, e: Exit)
    ensures MayFill(Strip(code), x, e) <==> MayFill(code, x, e)
    decreases code, 0
  {
    if code != [] {
      StrippedFillIn(code[0], x, e);
      StrippedFillIn(code[0], x, Normal);
      StrippedAvoidsIn(code[0], None, Normal);
      StrippedAvoids(code[1..], None, e);
      StrippedFill(code[1..], x, e);
      MayFillThen(StripOf(code[0]), Strip(code[1..]), x, e);
    }
  }

  lemma {:induction false} StrippedOn(b: seq<Code>, x: string)
    ensures FillsAndGoesOn(Strip(b), x) <==> FillsAndGoesOn(b, x)
    ensures GoesOn(Strip(b), None) <==> GoesOn(b, None)
    decreases b, 1
  {
    StrippedFill(b, x, Normal);
    StrippedFill(b, x, Continues);
    StrippedGoesOn(b, None);
  }

  lemma {:induction false} StrippedFillIn(c: Code, x: string, e: Exit)
    ensures MayFill(StripOf(c), x, e) <==> MayFillIn(c, x, e)
    decreases c, 2
  {
    if StripOf(c) != [] {
      MayFillSingle(StripOf(c)[0], x, e);
      assert StripOf(c) == [StripOf(c)[0]];
    }
    match c
    case Either(yes, no) => StrippedFill(yes, x, e); StrippedFill(no, x, e);
    case Forever(_) => StrippedFillInLoop(c, x, e);
    case Repeat(_, _) => StrippedFillInLoop(c, x, e);
    case Each(_) => StrippedFillInLoop(c, x, e);
    case Once(b) =>
      StrippedOn(b, x);
      StrippedFill(b, x, Inside(e));
    case Guarded(b, h) =>
      StrippedFill(b, x, e);
      StrippedFill(b, x, Throws);
      StrippedFill(h, x, e);
      StrippedAvoids(b, None, Throws);
      StrippedAvoids(h, None, e);
    case _ =>
  }

  lemma {:induction false} StrippedFillInLoop(c: Code, x: string, e: Exit)
    requires IsLoop(c)
    ensures StripOf(c) != [] && (MayFillIn(StripOf(c)[0], x, e) <==> MayFillIn(c, x, e))
    decreases c, 1
  {
    StrippedFill(c.body, x, Inside(e));
    StrippedOn(c.body, x);
    StrippedAvoidsIn(c, None, e);
    AvoidsSingle(StripOf(c)[0], None, e);
    assert StripOf(c) == [StripOf(c)[0]];
    if c.Repeat? {
      StrippedFill(c.test, x, e);
      StrippedFill(c.test, x, Normal);
      StrippedAvoids(c.test, None, e);
      StrippedAvoids(c.test, None, Normal);
    }
  }
}
