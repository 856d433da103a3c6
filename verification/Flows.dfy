/**
 Which exits code can reach without assigning a variable, and whether it can get to a read or to a
 first-time macro without assigning it.  Both questions are answered by recursion on the code, and the answers are exact: they
 hold if and only if there is such a run.
 */
module Flows {
  import opened Wrappers
  import opened Variables
  import opened Statements
  import opened Runs

  /** Without a variable, every trace lacks its assignment. */
  predicate Lacks(trace: seq<Event>, x: Option<string>) {
    x.Some? ==> Assigned(x.value) !in trace
  }

  predicate Avoids(code: seq<Code>, x: Option<string>, e: Exit) {
    if code == [] then e == Normal
    else (e != Normal && AvoidsIn(code[0], x, e)) || (AvoidsIn(code[0], x, Normal) && Avoids(code[1..], x, e))
  }

  /** A round of a loop that goes on. */
  predicate GoesOn(body: seq<Code>, x: Option<string>) {
    Avoids(body, x, Normal) || Avoids(body, x, Continues)
  }

  predicate AvoidsIn(c: Code, x: Option<string>, e: Exit) {
    match c
    case Emit(event) => e == Normal && Lacks([event], x)
    case MayThrow => e == Normal || e == Throws
    case Either(yes, no) => Avoids(yes, x, e) || Avoids(no, x, e)
    case Forever(b) => Avoids(b, x, if e == Normal then Breaks else e) && e != Breaks && e != Continues
    case Repeat(b, t) =>
      || (e != Breaks && e != Continues && Avoids(b, x, if e == Normal then Breaks else e))
      || (GoesOn(b, x) && Avoids(t, x, e))
    case Each(b) => e == Normal || (e != Breaks && e != Continues && Avoids(b, x, e))
    case Once(b) =>
      if e == Normal then GoesOn(b, x) || Avoids(b, x, Breaks) else e != Breaks && e != Continues && Avoids(b, x, e)
    case Guarded(b, h) => (e != Throws && Avoids(b, x, e)) || (Avoids(b, x, Throws) && Avoids(h, x, e))
    case Leave(exit) => e == exit
  }

  /** What code may get to: a read, or only one that the check accepts on some record; or a first-time macro. */
  datatype Goal = ReadOf(name: string, accepted: bool) | FirstOf(name: string)

  predicate Meets(code: seq<Code>, x: Option<string>, g: Goal) {
    code != [] && (MeetsIn(code[0], x, g) || (AvoidsIn(code[0], x, Normal) && Meets(code[1..], x, g)))
  }

  predicate MeetsIn(c: Code, x: Option<string>, g: Goal) {
    match c
    case Emit(e) => Attains(e, g)
    case Either(yes, no) => Meets(yes, x, g) || Meets(no, x, g)
    case Forever(b) => Meets(b, x, g)
    case Repeat(b, t) => Meets(b, x, g) || (GoesOn(b, x) && Meets(t, x, g))
    case Each(b) => Meets(b, x, g)
    case Once(b) => Meets(b, x, g)
    case Guarded(b, h) => Meets(b, x, g) || (Avoids(b, x, Throws) && Meets(h, x, g))
    case _ => false
  }

  predicate Attains(e: Event, g: Goal) {
    match g
    case ReadOf(x, accepted) => e.Reading? && e.name == x && (accepted ==> e.vias != {})
    case FirstOf(x) => e.Init? && e.name == x && First(e.op)
  }

  /** The k-th event is of the kind, and nothing before it assigns x. */
  predicate ArrivesAt(trace: seq<Event>, x: Option<string>, g: Goal, k: nat) {
    k < |trace| && Attains(trace[k], g) && Lacks(trace[..k], x)
  }

  ghost predicate Arrives(trace: seq<Event>, x: Option<string>, g: Goal) {
    exists k: nat :: ArrivesAt(trace, x, g, k)
  }

  predicate RunAvoids(code: seq<Code>, path: seq<Step>, x: Option<string>, e: Exit) {
    RunAll(code, path).exit == e && Lacks(RunAll(code, path).trace, x)
  }

  ghost predicate RunArrives(code: seq<Code>, path: seq<Step>, x: Option<string>, g: Goal) {
    Arrives(RunAll(code, path).trace, x, g)
  }

  /** Reads of a variable that the run has not assigned. */
  predicate Exposed(code: seq<Code>, x: string, accepted: bool) {
    Meets(code, Some(x), ReadOf(x, accepted))
  }

  predicate ReadsUnassignedAt(trace: seq<Event>, x: string, accepted: bool, k: nat) {
    ArrivesAt(trace, Some(x), ReadOf(x, accepted), k)
  }

  ghost predicate RunReadsUnassigned(code: seq<Code>, path: seq<Step>, x: string, accepted: bool) {
    RunArrives(code, path, Some(x), ReadOf(x, accepted))
  }

  // Traces

  lemma LacksThen(s: seq<Event>, t: seq<Event>, x: Option<string>)
    ensures Lacks(s + t, x) <==> Lacks(s, x) && Lacks(t, x)
  {
  }

  lemma ArrivalSplits(s: seq<Event>, t: seq<Event>, x: Option<string>, g: Goal)
    requires Arrives(s + t, x, g)
    ensures Arrives(s, x, g) || (Lacks(s, x) && Arrives(t, x, g))
  {
    var k: nat :| ArrivesAt(s + t, x, g, k);
    if k < |s| {
      assert (s + t)[..k] == s[..k];
      assert ArrivesAt(s, x, g, k);
    } else {
      assert (s + t)[..k] == s + t[..k - |s|];
      assert ArrivesAt(t, x, g, k - |s|);
    }
  }

  lemma ArrivalJoins(s: seq<Event>, t: seq<Event>, x: Option<string>, g: Goal)
    requires Arrives(s, x, g) || (Lacks(s, x) && Arrives(t, x, g))
    ensures Arrives(s + t, x, g)
  {
    if Arrives(s, x, g) {
      var k: nat :| ArrivesAt(s, x, g, k);
      assert (s + t)[..k] == s[..k];
      assert ArrivesAt(s + t, x, g, k);
    } else {
      var k: nat :| ArrivesAt(t, x, g, k);
      assert (s + t)[..|s| + k] == s + t[..k];
      assert ArrivesAt(s + t, x, g, |s| + k);
    }
  }

  lemma NothingArrives(x: Option<string>, g: Goal)
    ensures !Arrives([], x, g)
  {
  }

  // Every run is foreseen

  lemma {:induction false} AvoidsRuns(code: seq<Code>, path: seq<Step>, x: Option<string>)
    requires RunAll(code, path).exit != Cut && Lacks(RunAll(code, path).trace, x)
    ensures Avoids(code, x, RunAll(code, path).exit)
    decreases code, 0
  {
    if code != [] {
      var first := RunOne(code[0], path[0]);
      if first.exit != Normal {
        AvoidsOne(code[0], path[0], x);
      } else {
        LacksThen(first.trace, RunAll(code[1..], path[1..]).trace, x);
        AvoidsOne(code[0], path[0], x);
        AvoidsRuns(code[1..], path[1..], x);
      }
    }
  }

  lemma {:induction false} AvoidsOne(c: Code, s: Step, x: Option<string>)
    requires RunOne(c, s).exit != Cut && Lacks(RunOne(c, s).trace, x)
    ensures AvoidsIn(c, x, RunOne(c, s).exit)
    decreases c, 2
  {
    match c
    case Either(yes, no) => AvoidsRuns(if s.Yes? then yes else no, s.path, x);
    case Forever(_) => AvoidsLoop(c, s.rounds, Cut, x);
    case Repeat(_, _) => AvoidsLoop(c, s.rounds, Normal, x);
    case Each(_) => AvoidsLoop(c, s.rounds, Normal, x);
    case Once(b) => AvoidsRuns(b, s.path, x);
    case Guarded(b, h) =>
      LacksThen(RunAll(b, s.path).trace, RunAll(h, s.handler).trace, x);
      AvoidsRuns(b, s.path, x);
      if RunAll(b, s.path).exit == Throws {
        AvoidsRuns(h, s.handler, x);
      }
    case _ =>
  }

  lemma {:induction false} AvoidsLoop(c: Code, rounds: seq<Round>, last: Exit, x: Option<string>)
    requires IsLoop(c) && last == (if c.Forever? then Cut else Normal) && (c.Repeat? ==> rounds != [])
    requires RunLoop(c, rounds, last).exit != Cut && Lacks(RunLoop(c, rounds, last).trace, x)
    ensures AvoidsIn(c, x, RunLoop(c, rounds, last).exit)
    decreases c, 1, rounds
  {
    if rounds != [] {
      var body, test := RunAll(c.body, rounds[0].body), RunTest(c, rounds[0].test);
      var rest := RunLoop(c, rounds[1..], last);
      LacksThen(body.trace, test.trace, x);
      LacksThen(body.trace + test.trace, rest.trace, x);
      AvoidsRuns(c.body, rounds[0].body, x);
      if body.exit == Normal || body.exit == Continues {
        if c.Repeat? {
          AvoidsRuns(c.test, rounds[0].test, x);
        }
        if test.exit == Normal && (c.Repeat? ==> rounds[1..] != []) {
          AvoidsLoop(c, rounds[1..], last, x);
        }
      }
    }
  }

  lemma {:induction false} MeetsRuns(code: seq<Code>, path: seq<Step>, x: Option<string>, g: Goal)
    requires Arrives(RunAll(code, path).trace, x, g)
    ensures Meets(code, x, g)
    decreases code, 0
  {
    NothingArrives(x, g);
    var first, rest := RunOne(code[0], path[0]), RunAll(code[1..], path[1..]);
    if first.exit == Normal && !Arrives(first.trace, x, g) {
      ArrivalSplits(first.trace, rest.trace, x, g);
      AvoidsOne(code[0], path[0], x);
      MeetsRuns(code[1..], path[1..], x, g);
    } else {
      MeetsOne(code[0], path[0], x, g);
    }
  }

  lemma {:induction false} MeetsOne(c: Code, s: Step, x: Option<string>, g: Goal)
    requires Arrives(RunOne(c, s).trace, x, g)
    ensures MeetsIn(c, x, g)
    decreases c, 2
  {
    NothingArrives(x, g);
    match c
    case Either(yes, no) => MeetsRuns(if s.Yes? then yes else no, s.path, x, g);
    case Forever(_) => MeetsLoop(c, s.rounds, Cut, x, g);
    case Repeat(_, _) => MeetsLoop(c, s.rounds, Normal, x, g);
    case Each(_) => MeetsLoop(c, s.rounds, Normal, x, g);
    case Once(b) => MeetsRuns(b, s.path, x, g);
    case Guarded(b, h) =>
      var body, caught := RunAll(b, s.path), RunAll(h, s.handler);
      if Arrives(body.trace, x, g) {
        MeetsRuns(b, s.path, x, g);
      } else {
        ArrivalSplits(body.trace, caught.trace, x, g);
        AvoidsRuns(b, s.path, x);
        MeetsRuns(h, s.handler, x, g);
      }
    case _ =>
  }

  lemma {:induction false} MeetsLoop(c: Code, rounds: seq<Round>, last: Exit, x: Option<string>, g: Goal)
    requires IsLoop(c) && Arrives(RunLoop(c, rounds, last).trace, x, g)
    ensures MeetsIn(c, x, g)
    decreases c, 1, rounds
  {
    NothingArrives(x, g);
    var body, test := RunAll(c.body, rounds[0].body), RunTest(c, rounds[0].test);
    if Arrives(body.trace, x, g) {
      MeetsRuns(c.body, rounds[0].body, x, g);
    } else if Arrives(body.trace + test.trace, x, g) {
      ArrivalSplits(body.trace, test.trace, x, g);
      AvoidsRuns(c.body, rounds[0].body, x);
      MeetsRuns(c.test, rounds[0].test, x, g);
    } else {
      ArrivalSplits(body.trace + test.trace, RunLoop(c, rounds[1..], last).trace, x, g);
      MeetsLoop(c, rounds[1..], last, x, g);
    }
  }

  // Every foreseen run exists

  lemma {:induction false} FindPath(code: seq<Code>, x: Option<string>, e: Exit) returns (path: seq<Step>)
    requires Avoids(code, x, e)
    ensures RunAll(code, path).exit == e && Lacks(RunAll(code, path).trace, x)
    decreases code, 0
  {
    if code == [] {
      path := [];
    } else if e != Normal && AvoidsIn(code[0], x, e) {
      var first := FindStep(code[0], x, e);
      path := [first];
    } else {
      var first := FindStep(code[0], x, Normal);
      var rest := FindPath(code[1..], x, e);
      path := [first] + rest;
      assert path[1..] == rest;
      LacksThen(RunOne(code[0], first).trace, RunAll(code[1..], rest).trace, x);
    }
  }

  lemma {:induction false} FindStep(c: Code, x: Option<string>, e: Exit) returns (s: Step)
    requires AvoidsIn(c, x, e)
    ensures RunOne(c, s).exit == e && Lacks(RunOne(c, s).trace, x)
    decreases c, 2
  {
    match c
    case Emit(_) => s := Plain;
    case MayThrow => s := if e == Normal then Plain else Raises;
    case Either(yes, no) =>
      var path;
      if Avoids(yes, x, e) {
        path := FindPath(yes, x, e);
        s := Yes(path);
      } else {
        path := FindPath(no, x, e);
        s := No(path);
      }
    case Forever(b) =>
      var path := FindPath(b, x, if e == Normal then Breaks else e);
      s := Rounds([Round(path, [])]);
    case Repeat(b, t) =>
      if e != Breaks && e != Continues && Avoids(b, x, if e == Normal then Breaks else e) {
        var path := FindPath(b, x, if e == Normal then Breaks else e);
        s := Rounds([Round(path, [])]);
      } else {
        s := FindTest(b, t, x, e);
      }
    case Each(b) =>
      if e == Normal {
        s := Rounds([]);
      } else {
        var path := FindPath(b, x, e);
        s := Rounds([Round(path, [])]);
      }
    case Once(b) =>
      var path := FindPath(b, x, if e != Normal || Avoids(b, x, Normal) then e else if Avoids(b, x, Breaks) then Breaks else Continues);
      s := Inside(path);
    case Guarded(b, h) =>
      if e != Throws && Avoids(b, x, e) {
        var path := FindPath(b, x, e);
        s := Tried(path, []);
      } else {
        var path := FindPath(b, x, Throws);
        var handler := FindPath(h, x, e);
        s := Tried(path, handler);
        LacksThen(RunAll(b, path).trace, RunAll(h, handler).trace, x);
      }
    case Leave(_) => s := Plain;
  }

  lemma {:induction false} FindTest(b: seq<Code>, t: seq<Code>, x: Option<string>, e: Exit) returns (s: Step)
    requires GoesOn(b, x) && Avoids(t, x, e)
    ensures RunOne(Repeat(b, t), s).exit == e && Lacks(RunOne(Repeat(b, t), s).trace, x)
    decreases Repeat(b, t), 1
  {
    var path := FindPath(b, x, if Avoids(b, x, Normal) then Normal else Continues);
    var test := FindPath(t, x, e);
    var rounds := [Round(path, test)];
    s := Rounds(rounds);
    OneTestedRound(b, t, path, test);
    LacksThen(RunAll(b, path).trace, RunAll(t, test).trace, x);
  }

  lemma OneTestedRound(b: seq<Code>, t: seq<Code>, path: seq<Step>, test: seq<Step>)
    requires RunAll(b, path).exit == Normal || RunAll(b, path).exit == Continues
    ensures RunOne(Repeat(b, t), Rounds([Round(path, test)])) ==
            Run(RunAll(b, path).trace + RunAll(t, test).trace, RunAll(t, test).exit)
  {
    var c, rounds := Repeat(b, t), [Round(path, test)];
    var body, last := RunAll(b, path), RunTest(c, rounds[0].test);
    assert rounds[1..] == [] && RunLoop(c, [], Normal) == Run([], Normal);
    assert last == RunAll(t, test) && body == RunAll(c.body, rounds[0].body);
    assert body.trace + last.trace + [] == body.trace + last.trace;
  }

  lemma {:induction false} FindGoal(code: seq<Code>, x: Option<string>, g: Goal) returns (path: seq<Step>)
    requires Meets(code, x, g)
    ensures Arrives(RunAll(code, path).trace, x, g)
    decreases code, 0
  {
    if MeetsIn(code[0], x, g) {
      var first := FindGoalStep(code[0], x, g);
      path := [first];
      ArrivalJoins(RunOne(code[0], first).trace, RunAll(code[1..], path[1..]).trace, x, g);
    } else {
      var first := FindStep(code[0], x, Normal);
      var rest := FindGoal(code[1..], x, g);
      path := [first] + rest;
      assert path[1..] == rest;
      ArrivalJoins(RunOne(code[0], first).trace, RunAll(code[1..], rest).trace, x, g);
    }
  }

  /** One round is enough to read in a loop. */
  lemma ReadInRound(c: Code, last: Exit, path: seq<Step>, x: Option<string>, g: Goal)
    requires IsLoop(c) && Arrives(RunAll(c.body, path).trace, x, g)
    ensures Arrives(RunLoop(c, [Round(path, [])], last).trace, x, g)
  {
    var rounds := [Round(path, [])];
    var body, test := RunAll(c.body, path), RunTest(c, []);
    ArrivalJoins(body.trace, test.trace, x, g);
    ArrivalJoins(body.trace + test.trace, RunLoop(c, rounds[1..], last).trace, x, g);
  }

  lemma {:induction false} FindGoalStep(c: Code, x: Option<string>, g: Goal) returns (s: Step)
    requires MeetsIn(c, x, g)
    ensures Arrives(RunOne(c, s).trace, x, g)
    decreases c, 2
  {
    match c
    case Emit(e) =>
      s := Plain;
      assert ArrivesAt([e], x, g, 0);
    case Either(yes, no) =>
      if Meets(yes, x, g) {
        var path := FindGoal(yes, x, g);
        s := Yes(path);
      } else {
        var path := FindGoal(no, x, g);
        s := No(path);
      }
    case Forever(b) =>
      var path := FindGoal(b, x, g);
      s := Rounds([Round(path, [])]);
      ReadInRound(c, Cut, path, x, g);
    case Repeat(b, t) =>
      if Meets(b, x, g) {
        var path := FindGoal(b, x, g);
        s := Rounds([Round(path, [])]);
        ReadInRound(c, Normal, path, x, g);
      } else {
        var path := FindPath(b, x, if Avoids(b, x, Normal) then Normal else Continues);
        var test := FindGoal(t, x, g);
        s := Rounds([Round(path, test)]);
        OneTestedRound(b, t, path, test);
        ArrivalJoins(RunAll(b, path).trace, RunAll(t, test).trace, x, g);
      }
    case Each(b) =>
      var path := FindGoal(b, x, g);
      s := Rounds([Round(path, [])]);
      ReadInRound(c, Normal, path, x, g);
    case Once(b) =>
      var path := FindGoal(b, x, g);
      s := Inside(path);
    case Guarded(b, h) =>
      if Meets(b, x, g) {
        var path := FindGoal(b, x, g);
        s := Tried(path, []);
        ArrivalJoins(RunAll(b, path).trace, RunAll(h, []).trace, x, g);
      } else {
        var path := FindPath(b, x, Throws);
        var handler := FindGoal(h, x, g);
        s := Tried(path, handler);
        ArrivalJoins(RunAll(b, path).trace, RunAll(h, handler).trace, x, g);
      }
    case _ =>
  }

  /** Code leaves by e without assigning x in some run, if and only if the analysis says so. */
  lemma AvoidsIsExact(code: seq<Code>, x: Option<string>, e: Exit)
    requires e != Cut
    ensures Avoids(code, x, e) <==> exists path :: RunAvoids(code, path, x, e)
  {
    if Avoids(code, x, e) {
      var path := FindPath(code, x, e);
      assert RunAvoids(code, path, x, e);
    }
    forall path | RunAvoids(code, path, x, e) ensures Avoids(code, x, e) {
      AvoidsRuns(code, path, x);
    }
  }

  /** Code reaches the goal without assigning x in some run, if and only if the analysis says so. */
  lemma MeetsIsExact(code: seq<Code>, x: Option<string>, g: Goal)
    ensures Meets(code, x, g) <==> exists path :: RunArrives(code, path, x, g)
  {
    if Meets(code, x, g) {
      var path := FindGoal(code, x, g);
      assert RunArrives(code, path, x, g);
    }
    forall path | RunArrives(code, path, x, g) ensures Meets(code, x, g) {
      MeetsRuns(code, path, x, g);
    }
  }

  /** Code reads x unassigned in some run, if and only if the analysis says so. */
  lemma ExposedIsExact(code: seq<Code>, x: string, accepted: bool)
    ensures Exposed(code, x, accepted) <==> exists path :: RunReadsUnassigned(code, path, x, accepted)
  {
    MeetsIsExact(code, Some(x), ReadOf(x, accepted));
    assert forall path :: RunReadsUnassigned(code, path, x, accepted) == RunArrives(code, path, Some(x), ReadOf(x, accepted));
  }
}
