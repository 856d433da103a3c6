/**
 Runs of emitted code.  A path says which way a run goes at each point where it has a choice; a path
 that does not fit, or that ends early, cuts the run short, so that all prefixes of runs are covered.
 */
module Runs {
  import opened Variables
  import opened Statements
  import opened Walks

  datatype Round = Round(body: seq<Step>, test: seq<Step>)

  datatype Step =
    | Plain
    | Raises
    | Yes(path: seq<Step>)
    | No(path: seq<Step>)
    | Rounds(rounds: seq<Round>)
    | Inside(path: seq<Step>)
    | Tried(path: seq<Step>, handler: seq<Step>)

  datatype Run = Run(trace: seq<Event>, exit: Exit)

  function RunAll(code: seq<Code>, path: seq<Step>): Run
    decreases code, 0
  {
    if code == [] then Run([], Normal)
    else if path == [] then Run([], Cut)
    else
      var first := RunOne(code[0], path[0]);
      if first.exit != Normal then first
      else
        var rest := RunAll(code[1..], path[1..]);
        Run(first.trace + rest.trace, rest.exit)
  }

  /** `do ... while (0)` catches both jumps; a loop is left by a break, or when its rounds are over. */
  function RunOne(c: Code, s: Step): Run
    decreases c, 2
  {
    match c
    case Emit(e) => if s.Plain? then Run([e], Normal) else Run([], Cut)
    case MayThrow => if s.Plain? then Run([], Normal) else if s.Raises? then Run([], Throws) else Run([], Cut)
    case Either(yes, no) => if s.Yes? then RunAll(yes, s.path) else if s.No? then RunAll(no, s.path) else Run([], Cut)
    case Forever(_) => if s.Rounds? then RunLoop(c, s.rounds, Cut) else Run([], Cut)
    case Repeat(_, _) => if s.Rounds? && s.rounds != [] then RunLoop(c, s.rounds, Normal) else Run([], Cut)
    case Each(_) => if s.Rounds? then RunLoop(c, s.rounds, Normal) else Run([], Cut)
    case Once(b) =>
      if s.Inside? then
        var r := RunAll(b, s.path);
        if r.exit == Breaks || r.exit == Continues then Run(r.trace, Normal) else r
      else Run([], Cut)
    case Guarded(b, h) =>
      if s.Tried? then
        var r := RunAll(b, s.path);
        if r.exit != Throws then r
        else
          var caught := RunAll(h, s.handler);
          Run(r.trace + caught.trace, caught.exit)
      else Run([], Cut)
    case Leave(e) => Run([], e)
  }

  predicate IsLoop(c: Code) {
    c.Forever? || c.Repeat? || c.Each?
  }

  /** The test at the end of a round of `do ... while`. */
  function RunTest(c: Code, path: seq<Step>): Run
    decreases c, 0
  {
    if c.Repeat? then RunAll(c.test, path) else Run([], Normal)
  }

  /** `last`: how the loop ends after its last round. */
  function RunLoop(c: Code, rounds: seq<Round>, last: Exit): Run
    requires IsLoop(c)
    decreases c, 1, rounds
  {
    if rounds == [] then Run([], last)
    else
      var body := RunAll(c.body, rounds[0].body);
      if body.exit == Breaks then Run(body.trace, Normal)
      else if body.exit != Normal && body.exit != Continues then body
      else
        var test := RunTest(c, rounds[0].test);
        if test.exit != Normal then Run(body.trace + test.trace, test.exit)
        else
          var rest := RunLoop(c, rounds[1..], last);
          Run(body.trace + test.trace + rest.trace, rest.exit)
  }

  /** Running one piece of code after another that runs to its end. */
  lemma {:induction false} RunsThen(a: seq<Code>, b: seq<Code>, p: seq<Step>, q: seq<Step>)
    requires |p| == |a| && RunAll(a, p).exit == Normal
    ensures RunAll(a + b, p + q) == Run(RunAll(a, p).trace + RunAll(b, q).trace, RunAll(b, q).exit)
  {
    if a == [] {
      assert a + b == b && p + q == q;
    } else {
      FirstRuns(a, p);
      RunsThen(a[1..], b, p[1..], q);
      assert (a + b)[1..] == a[1..] + b && (p + q)[1..] == p[1..] + q;
      FirstRuns(a + b, p + q);
      Associate(RunOne(a[0], p[0]).trace, RunAll(a[1..], p[1..]).trace, RunAll(b, q).trace);
    }
  }

  lemma FirstRuns(code: seq<Code>, path: seq<Step>)
    requires code != [] && path != [] && RunOne(code[0], path[0]).exit == Normal
    ensures var rest := RunAll(code[1..], path[1..]);
      RunAll(code, path) == Run(RunOne(code[0], path[0]).trace + rest.trace, rest.exit)
  {
  }

  lemma Associate(s: seq<Event>, t: seq<Event>, u: seq<Event>)
    ensures s + t + u == s + (t + u)
  {
  }

  // What the summaries of code say about its runs

  /** Every macro of a run is in the code. */
  ghost predicate Within(trace: seq<Event>, x: string, ops: set<Op>) {
    forall e <- trace :: e.Init? && e.name == x ==> e.op in ops
  }

  /** No first-time macro of x after a counted macro of x. */
  ghost predicate FirstComesFirst(trace: seq<Event>, x: string) {
    forall j, k ::
      (0 <= j < k < |trace| && trace[j].Init? && trace[k].Init? && trace[j].name == trace[k].name == x && Counted(trace[j].op)) ==>
        !First(trace[k].op)
  }

  /** Every guaranteed read is of a variable that is known, or assigned earlier in the run. */
  ghost predicate ReadsAssigned(trace: seq<Event>, known: set<string>) {
    forall k :: 0 <= k < |trace| && trace[k].Reading? && SomeGuaranteed(trace[k].vias) ==>
      trace[k].name in known || Assigned(trace[k].name) in trace[..k]
  }

  ghost predicate AllAssigned(trace: seq<Event>, xs: set<string>) {
    forall x <- xs :: Assigned(x) in trace
  }

  lemma WithinThen(s: seq<Event>, t: seq<Event>, x: string, ops: set<Op>, more: set<Op>)
    requires Within(s, x, ops) && Within(t, x, more)
    ensures Within(s + t, x, ops + more)
  {
    forall e <- s + t | e.Init? && e.name == x ensures e.op in ops + more {
      assert e in s || e in t;
    }
  }

  lemma FirstThen(s: seq<Event>, t: seq<Event>, x: string, ops: set<Op>, more: set<Op>)
    requires FirstComesFirst(s, x) && FirstComesFirst(t, x) && Within(s, x, ops) && Within(t, x, more)
    requires !(SomeCounted(ops) && SomeFirst(more))
    ensures FirstComesFirst(s + t, x)
  {
    var u := s + t;
    forall j, k | 0 <= j < k < |u| && u[j].Init? && u[k].Init? && u[j].name == u[k].name == x && Counted(u[j].op)
      ensures !First(u[k].op)
    {
      if j < |s| <= k {
        assert u[j] in s && u[k] in t;
      } else if j >= |s| {
        assert u[j] == t[j - |s|] && u[k] == t[k - |s|];
      } else {
        assert u[j] == s[j] && u[k] == s[k];
      }
    }
  }

  lemma ReadsThen(s: seq<Event>, t: seq<Event>, known: set<string>, more: set<string>)
    requires ReadsAssigned(s, known) && ReadsAssigned(t, known + more) && AllAssigned(s, more)
    ensures ReadsAssigned(s + t, known)
  {
    var u := s + t;
    forall k | 0 <= k < |u| && u[k].Reading? && SomeGuaranteed(u[k].vias)
      ensures u[k].name in known || Assigned(u[k].name) in u[..k]
    {
      if k < |s| {
        assert u[k] == s[k] && u[..k] == s[..k];
      } else {
        assert u[k] == t[k - |s|] && u[..k] == s + t[..k - |s|];
      }
    }
  }

  lemma ReadsKnown(s: seq<Event>, known: set<string>, more: set<string>)
    requires ReadsAssigned(s, known) && known <= more
    ensures ReadsAssigned(s, more)
  {
  }

  ghost predicate Leaves(exit: Exit, exits: set<Exit>) {
    exit == Normal || exit == Cut || exit in exits
  }

  lemma {:induction false} WithinRuns(code: seq<Code>, path: seq<Step>, x: string)
    ensures Within(RunAll(code, path).trace, x, Ops(code, x))
    decreases code, 0
  {
    if code != [] && path != [] {
      WithinOne(code[0], path[0], x);
      WithinRuns(code[1..], path[1..], x);
      WithinThen(RunOne(code[0], path[0]).trace, RunAll(code[1..], path[1..]).trace, x, OpsOf(code[0], x), Ops(code[1..], x));
    }
  }

  lemma {:induction false} WithinOne(c: Code, s: Step, x: string)
    ensures Within(RunOne(c, s).trace, x, OpsOf(c, x))
    decreases c, 2
  {
    match c
    case Either(yes, no) =>
      if s.Yes? {
        WithinRuns(yes, s.path, x);
      } else if s.No? {
        WithinRuns(no, s.path, x);
      }
    case Forever(_) => if s.Rounds? { WithinLoop(c, s.rounds, Cut, x); }
    case Repeat(_, _) => if s.Rounds? { WithinLoop(c, s.rounds, Normal, x); }
    case Each(_) => if s.Rounds? { WithinLoop(c, s.rounds, Normal, x); }
    case Once(b) => if s.Inside? { WithinRuns(b, s.path, x); }
    case Guarded(b, h) =>
      if s.Tried? {
        WithinRuns(b, s.path, x);
        WithinRuns(h, s.handler, x);
        WithinThen(RunAll(b, s.path).trace, RunAll(h, s.handler).trace, x, Ops(b, x), Ops(h, x));
      }
    case _ =>
  }

  lemma {:induction false} WithinLoop(c: Code, rounds: seq<Round>, last: Exit, x: string)
    requires IsLoop(c)
    ensures Within(RunLoop(c, rounds, last).trace, x, OpsOf(c, x))
    decreases c, 1, rounds
  {
    if rounds != [] {
      var ops := OpsOf(c, x);
      WithinRuns(c.body, rounds[0].body, x);
      if c.Repeat? {
        WithinRuns(c.test, rounds[0].test, x);
      }
      WithinLoop(c, rounds[1..], last, x);
      var body, test := RunAll(c.body, rounds[0].body), RunTest(c, rounds[0].test);
      WithinThen(body.trace, test.trace, x, ops, ops);
      WithinThen(body.trace + test.trace, RunLoop(c, rounds[1..], last).trace, x, ops, ops);
      assert ops + ops == ops;
    }
  }

  lemma {:induction false} OrderedRuns(code: seq<Code>, path: seq<Step>, x: string)
    requires Ordered(code, x)
    ensures FirstComesFirst(RunAll(code, path).trace, x)
    decreases code, 0
  {
    if code != [] && path != [] {
      OrderedOne(code[0], path[0], x);
      OrderedRuns(code[1..], path[1..], x);
      WithinOne(code[0], path[0], x);
      WithinRuns(code[1..], path[1..], x);
      FirstThen(RunOne(code[0], path[0]).trace, RunAll(code[1..], path[1..]).trace, x, OpsOf(code[0], x), Ops(code[1..], x));
    }
  }

  lemma {:induction false} OrderedOne(c: Code, s: Step, x: string)
    requires OrderedIn(c, x)
    ensures FirstComesFirst(RunOne(c, s).trace, x)
    decreases c, 1
  {
    match c
    case Either(yes, no) =>
      if s.Yes? {
        OrderedRuns(yes, s.path, x);
      } else if s.No? {
        OrderedRuns(no, s.path, x);
      }
    case Once(b) => if s.Inside? { OrderedRuns(b, s.path, x); }
    case Guarded(b, h) =>
      if s.Tried? {
        OrderedRuns(b, s.path, x);
        OrderedRuns(h, s.handler, x);
        WithinRuns(b, s.path, x);
        WithinRuns(h, s.handler, x);
        FirstThen(RunAll(b, s.path).trace, RunAll(h, s.handler).trace, x, Ops(b, x), Ops(h, x));
      }
    case Emit(_) =>
    case MayThrow =>
    case Leave(_) =>
    case _ => WithinOne(c, s, x);
  }

  lemma {:induction false} CoveredRuns(code: seq<Code>, path: seq<Step>, known: set<string>)
    requires Covered(code, known)
    ensures ReadsAssigned(RunAll(code, path).trace, known)
    ensures RunAll(code, path).exit == Normal ==> AllAssigned(RunAll(code, path).trace, Sure(code))
    decreases code, 0
  {
    if code != [] && path != [] {
      var first, rest := RunOne(code[0], path[0]), RunAll(code[1..], path[1..]);
      CoveredOne(code[0], path[0], known);
      if first.exit == Normal {
        CoveredRuns(code[1..], path[1..], known + SureOf(code[0]));
        ReadsThen(first.trace, rest.trace, known, SureOf(code[0]));
      }
    }
  }

  lemma {:induction false} CoveredOne(c: Code, s: Step, known: set<string>)
    requires CoveredIn(c, known)
    ensures ReadsAssigned(RunOne(c, s).trace, known)
    ensures RunOne(c, s).exit == Normal ==> AllAssigned(RunOne(c, s).trace, SureOf(c))
    decreases c, 2
  {
    match c
    case Either(yes, no) =>
      if s.Yes? {
        CoveredRuns(yes, s.path, known);
      } else if s.No? {
        CoveredRuns(no, s.path, known);
      }
    case Forever(_) => if s.Rounds? { CoveredLoop(c, s.rounds, Cut, known); }
    case Repeat(_, _) => if s.Rounds? { CoveredLoop(c, s.rounds, Normal, known); }
    case Each(_) => if s.Rounds? { CoveredLoop(c, s.rounds, Normal, known); }
    case Once(b) => if s.Inside? { CoveredRuns(b, s.path, known); }
    case Guarded(b, h) =>
      if s.Tried? {
        CoveredRuns(b, s.path, known);
        CoveredRuns(h, s.handler, known);
        ReadsThen(RunAll(b, s.path).trace, RunAll(h, s.handler).trace, known, {});
        assert known + {} == known;
      }
    case _ =>
  }

  lemma {:induction false} CoveredLoop(c: Code, rounds: seq<Round>, last: Exit, known: set<string>)
    requires IsLoop(c) && CoveredIn(c, known)
    ensures ReadsAssigned(RunLoop(c, rounds, last).trace, known)
    decreases c, 1, rounds
  {
    if rounds != [] {
      CoveredRuns(c.body, rounds[0].body, known);
      if c.Repeat? {
        CoveredRuns(c.test, rounds[0].test, known);
      }
      CoveredLoop(c, rounds[1..], last, known);
      var body, test := RunAll(c.body, rounds[0].body), RunTest(c, rounds[0].test);
      assert known + {} == known;
      ReadsThen(body.trace, test.trace, known, {});
      ReadsThen(body.trace + test.trace, RunLoop(c, rounds[1..], last).trace, known, {});
    }
  }

  lemma {:induction false} ExitsRuns(code: seq<Code>, path: seq<Step>)
    ensures Leaves(RunAll(code, path).exit, Exits(code))
    decreases code, 0
  {
    if code != [] && path != [] {
      ExitsOne(code[0], path[0]);
      ExitsRuns(code[1..], path[1..]);
    }
  }

  lemma {:induction false} ExitsOne(c: Code, s: Step)
    ensures Leaves(RunOne(c, s).exit, ExitsOf(c))
    decreases c, 2
  {
    match c
    case Either(yes, no) =>
      if s.Yes? {
        ExitsRuns(yes, s.path);
      } else if s.No? {
        ExitsRuns(no, s.path);
      }
    case Forever(_) => if s.Rounds? { ExitsLoop(c, s.rounds, Cut); }
    case Repeat(_, _) => if s.Rounds? { ExitsLoop(c, s.rounds, Normal); }
    case Each(_) => if s.Rounds? { ExitsLoop(c, s.rounds, Normal); }
    case Once(b) => if s.Inside? { ExitsRuns(b, s.path); }
    case Guarded(b, h) =>
      if s.Tried? {
        ExitsRuns(b, s.path);
        ExitsRuns(h, s.handler);
      }
    case _ =>
  }

  lemma {:induction false} ExitsLoop(c: Code, rounds: seq<Round>, last: Exit)
    requires IsLoop(c) && (last == Normal || last == Cut)
    ensures Leaves(RunLoop(c, rounds, last).exit, ExitsOf(c))
    decreases c, 1, rounds
  {
    if rounds != [] {
      ExitsRuns(c.body, rounds[0].body);
      if c.Repeat? {
        ExitsRuns(c.test, rounds[0].test);
      }
      ExitsLoop(c, rounds[1..], last);
    }
  }
}
