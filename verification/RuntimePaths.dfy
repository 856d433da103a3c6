/**
 Programs of the runtime compiler, followed along one path through their branches and the rounds of
 their loops.  The condition on copies is exact for every such path, although the counters it speaks of
 also count the arms that are not taken.
 */
module RuntimePaths {
  import opened Wrappers
  import opened Zval
  import opened RefCounts
  import opened Runtime

  /** Which arm of an `if` is taken, which rounds a loop makes, and what happens inside. */
  datatype Way = Through | Arm(yes: bool, inner: seq<Way>) | Rounds(rounds: seq<seq<Way>>)

  predicate FitsOne(s: Stmt, way: Way)
    decreases s, 1
  {
    match s
    case If(_, thn, els) => way.Arm? && Fits(if way.yes then thn else els, way.inner)
    case While(_, body) => way.Rounds? && forall round <- way.rounds :: Fits(body, round)
    case _ => way.Through?
  }

  predicate Fits(ss: seq<Stmt>, ways: seq<Way>)
    decreases ss, 0
  {
    if ss == [] then ways == [] else ways != [] && FitsOne(ss[0], ways[0]) && Fits(ss[1..], ways[1..])
  }

  function CopiesOnOne(s: Stmt, way: Way): set<Var>
    requires FitsOne(s, way)
    decreases s, 1
  {
    match s
    case If(_, thn, els) => CopiesOn(if way.yes then thn else els, way.inner)
    case While(_, body) => CopiesOnRounds(body, way.rounds)
    case _ => Copies(s)
  }

  /** The variables copied into along the path. */
  function CopiesOn(ss: seq<Stmt>, ways: seq<Way>): set<Var>
    requires Fits(ss, ways)
    decreases ss, 0
  {
    if ss == [] then {} else CopiesOnOne(ss[0], ways[0]) + CopiesOn(ss[1..], ways[1..])
  }

  function CopiesOnRounds(body: seq<Stmt>, rounds: seq<seq<Way>>): set<Var>
    requires forall round <- rounds :: Fits(body, round)
    decreases body, 1, |rounds|
  {
    if rounds == [] then {} else CopiesOn(body, rounds[0]) + CopiesOnRounds(body, rounds[1..])
  }

  /** The counters with which the code of an arm was compiled. */
  function ArmStatic(s: Stmt, st: Static, yes: bool): (r: Static)
    requires s.If? && Declared(s, |st.inits|)
    ensures Advances(st, r) && Advances(r, After(s, st)) && AllDeclared(if yes then s.thn else s.els, |r.inits|)
    ensures Advances(AfterAll(if yes then s.thn else s.els, r), After(s, st))
  {
    if yes then st else AfterAll(s.thn, st)
  }

  predicate SafeOnOne(s: Stmt, st: Static, copied: set<Var>, way: Way)
    requires Declared(s, |st.inits|) && FitsOne(s, way)
    decreases s, 1
  {
    match s
    case If(_, thn, els) => SafeOn(if way.yes then thn else els, ArmStatic(s, st, way.yes), copied, way.inner)
    case _ => Safe(s, st, 0, copied)
  }

  /**
   No literal outside loops that is the first one emitted for its variable follows a copy into it on the
   path.  Literals in loops are always safe, but what is copied there counts.
   */
  predicate SafeOn(ss: seq<Stmt>, st: Static, copied: set<Var>, ways: seq<Way>)
    requires AllDeclared(ss, |st.inits|) && Fits(ss, ways)
    decreases ss, 0
  {
    ss == [] ||
    (&& SafeOnOne(ss[0], st, copied, ways[0])
     && SafeOn(ss[1..], After(ss[0], st), copied + CopiesOnOne(ss[0], ways[0]), ways[1..]))
  }

  // Runs along a path

  predicate TakesOne(w: World, s: Stmt, st: Static, cycle: nat, way: Way, m: Memory, fuel: nat)
    requires Declared(s, |st.inits|) && FitsOne(s, way)
    decreases fuel, s, 1
  {
    match s
    case If(cond, thn, els) =>
      Deref(m, cond).Some? ==>
        && way.yes == (w.isTrue(m.heap[m.slots[cond].value]) != 0)
        && Takes(w, if way.yes then thn else els, ArmStatic(s, st, way.yes), cycle, way.inner, m, fuel)
    case While(cond, body) => TakesRounds(w, cond, body, st, way.rounds, m, fuel)
    case _ => true
  }

  /** The run takes this path, as far as it gets. */
  predicate Takes(w: World, ss: seq<Stmt>, st: Static, cycle: nat, ways: seq<Way>, m: Memory, fuel: nat)
    requires AllDeclared(ss, |st.inits|) && Fits(ss, ways)
    decreases fuel, ss, 0
  {
    ss == [] ||
    (&& TakesOne(w, ss[0], st, cycle, ways[0], m, fuel)
     && var r := Exec(w, Translate(ss[0], st, cycle), m, fuel);
        r.Done? ==> Takes(w, ss[1..], After(ss[0], st), cycle, ways[1..], r.m, fuel))
  }

  predicate GoesRound(w: World, cond: Var, m: Memory, fuel: nat) {
    fuel > 0 && Deref(m, cond).Some? && w.isTrue(m.heap[m.slots[cond].value]) != 0
  }

  /** The loop makes these rounds, and then it ends, crashes or runs out of fuel. */
  predicate TakesRounds(w: World, cond: Var, body: seq<Stmt>, st: Static, rounds: seq<seq<Way>>, m: Memory, fuel: nat)
    requires AllDeclared(body, |st.inits|) && forall round <- rounds :: Fits(body, round)
    decreases fuel, body, 1
  {
    if !GoesRound(w, cond, m, fuel) then rounds == []
    else
      && rounds != [] && Takes(w, body, st, 1, rounds[0], m, fuel - 1)
      && var r := Exec(w, TranslateAll(body, st, 1), m, fuel - 1);
         if r.Done? then TakesRounds(w, cond, body, st, rounds[1..], r.m, fuel - 1) else rounds[1..] == []
  }

  /** Every run takes a path. */
  lemma {:induction false} EveryRunTakesAPath(w: World, ss: seq<Stmt>, st: Static, cycle: nat, m: Memory, fuel: nat)
    returns (ways: seq<Way>)
    requires AllDeclared(ss, |st.inits|)
    ensures Fits(ss, ways) && Takes(w, ss, st, cycle, ways, m, fuel)
    decreases fuel, ss, 0
  {
    if ss == [] {
      ways := [];
    } else {
      var first := WayOf(w, ss[0], st, cycle, m, fuel);
      var r := Exec(w, Translate(ss[0], st, cycle), m, fuel);
      var rest := EveryRunTakesAPath(w, ss[1..], After(ss[0], st), cycle, if r.Done? then r.m else m, fuel);
      ways := [first] + rest;
      assert ways[1..] == rest;
    }
  }

  lemma {:induction false} WayOf(w: World, s: Stmt, st: Static, cycle: nat, m: Memory, fuel: nat) returns (way: Way)
    requires Declared(s, |st.inits|)
    ensures FitsOne(s, way) && TakesOne(w, s, st, cycle, way, m, fuel)
    decreases fuel, s, 1
  {
    match s
    case If(cond, thn, els) =>
      var yes := Deref(m, cond).Some? && w.isTrue(m.heap[m.slots[cond].value]) != 0;
      var inner := EveryRunTakesAPath(w, if yes then thn else els, ArmStatic(s, st, yes), cycle, m, fuel);
      way := Arm(yes, inner);
    case While(cond, body) =>
      var rounds := RoundsOf(w, cond, body, st, m, fuel);
      way := Rounds(rounds);
    case _ => way := Through;
  }

  lemma {:induction false} RoundsOf(w: World, cond: Var, body: seq<Stmt>, st: Static, m: Memory, fuel: nat)
    returns (rounds: seq<seq<Way>>)
    requires AllDeclared(body, |st.inits|)
    ensures (forall round <- rounds :: Fits(body, round)) && TakesRounds(w, cond, body, st, rounds, m, fuel)
    decreases fuel, body, 1
  {
    rounds := [];
    if GoesRound(w, cond, m, fuel) {
      var first := EveryRunTakesAPath(w, body, st, 1, m, fuel - 1);
      var r := Exec(w, TranslateAll(body, st, 1), m, fuel - 1);
      var rest := [];
      if r.Done? {
        rest := RoundsOf(w, cond, body, st, r.m, fuel - 1);
      }
      rounds := [first] + rest;
      assert rounds[1..] == rest;
    }
  }

  // Inside loops

  /** What was assigned stays assigned, and copies assign. */
  ghost predicate Assigns(m: Memory, r: Result, copies: set<Var>) {
    r.Done? ==> forall x :: x in m.slots && (m.slots[x].Some? || x in copies) ==> x in r.m.slots && r.m.slots[x].Some?
  }

  lemma KeepsWider(m: Memory, ext: multiset<Addr>, r: Result, st: Static, from: Static, to: Static, end: Static, copies: set<Var>)
    requires Advances(st, from) && Advances(from, to) && Advances(to, end) && Keeps(m, ext, r, from, to, copies)
    ensures Keeps(m, ext, r, st, end, copies)
  {
  }

  /** Two rounds of the same code. */
  lemma KeepsAgain(m: Memory, ext: multiset<Addr>, m1: Memory, r: Result, st: Static, end: Static, c1: set<Var>, c2: set<Var>)
    requires |st.inits| == |end.inits| && Keeps(m, ext, Done(m1), st, end, c1) && Keeps(m1, ext, r, st, end, c2)
    ensures Keeps(m, ext, r, st, end, c1 + c2)
  {
  }

  lemma AssignsBoth(m: Memory, m1: Memory, r: Result, c1: set<Var>, c2: set<Var>)
    requires Assigns(m, Done(m1), c1) && Assigns(m1, r, c2) && m1.slots.Keys == m.slots.Keys
    ensures Assigns(m, r, c1 + c2)
  {
  }

  lemma {:induction false} OneKeeps(w: World, s: Stmt, st: Static, way: Way, m: Memory, ext: multiset<Addr>, fuel: nat)
    requires Lawful(w) && Declared(s, |st.inits|) && Ready(m, After(s, st)) && Exact(m, ext)
    requires FitsOne(s, way) && TakesOne(w, s, st, 1, way, m, fuel)
    ensures var r := Exec(w, Translate(s, st, 1), m, fuel);
      Keeps(m, ext, r, st, After(s, st), CopiesOnOne(s, way)) && Assigns(m, r, CopiesOnOne(s, way))
    decreases fuel, s, 1
  {
    match s
    case If(cond, thn, els) =>
      if Deref(m, cond).Some? {
        var arm, from := if way.yes then thn else els, ArmStatic(s, st, way.yes);
        PathKeeps(w, arm, from, way.inner, m, ext, fuel);
        ArmRuns(w, s, st, 1, way.yes, m, fuel);
        KeepsWider(m, ext, Exec(w, TranslateAll(arm, from, 1), m, fuel), st, from, AfterAll(arm, from), After(s, st),
          CopiesOn(arm, way.inner));
      }
    case While(cond, body) =>
      CycleDepthIrrelevantAll(body, st, 2, 1);
      RoundsKeep(w, cond, body, st, way.rounds, m, ext, fuel);
    case _ =>
      StatementKeeps(w, s, st, m, ext, fuel);
      StaysAssigned(w, s, st, m, ext, fuel);
  }

  lemma {:induction false} PathKeeps(w: World, ss: seq<Stmt>, st: Static, ways: seq<Way>, m: Memory, ext: multiset<Addr>, fuel: nat)
    requires Lawful(w) && AllDeclared(ss, |st.inits|) && Ready(m, AfterAll(ss, st)) && Exact(m, ext)
    requires Fits(ss, ways) && Takes(w, ss, st, 1, ways, m, fuel)
    ensures var r := Exec(w, TranslateAll(ss, st, 1), m, fuel);
      Keeps(m, ext, r, st, AfterAll(ss, st), CopiesOn(ss, ways)) && Assigns(m, r, CopiesOn(ss, ways))
    decreases fuel, ss, 0
  {
    if ss != [] {
      OneKeeps(w, ss[0], st, ways[0], m, ext, fuel);
      var r := Exec(w, Translate(ss[0], st, 1), m, fuel);
      if r.Done? {
        var mid := After(ss[0], st);
        PathKeeps(w, ss[1..], mid, ways[1..], r.m, ext, fuel);
        var rest := Exec(w, TranslateAll(ss[1..], mid, 1), r.m, fuel);
        KeepsBoth(m, ext, r.m, rest, st, mid, AfterAll(ss[1..], mid), CopiesOnOne(ss[0], ways[0]), CopiesOn(ss[1..], ways[1..]));
        AssignsBoth(m, r.m, rest, CopiesOnOne(ss[0], ways[0]), CopiesOn(ss[1..], ways[1..]));
      }
    }
  }

  lemma {:induction false} RoundsKeep(w: World, cond: Var, body: seq<Stmt>, st: Static, rounds: seq<seq<Way>>, m: Memory,
                                      ext: multiset<Addr>, fuel: nat)
    requires Lawful(w) && AllDeclared(body, |st.inits|) && Ready(m, AfterAll(body, st)) && Exact(m, ext)
    requires (forall round <- rounds :: Fits(body, round)) && TakesRounds(w, cond, body, st, rounds, m, fuel)
    ensures var r := Exec(w, WhileTrue(cond, TranslateAll(body, st, 1)), m, fuel);
      Keeps(m, ext, r, st, AfterAll(body, st), CopiesOnRounds(body, rounds)) && Assigns(m, r, CopiesOnRounds(body, rounds))
    decreases fuel, body, 1
  {
    if GoesRound(w, cond, m, fuel) {
      PathKeeps(w, body, st, rounds[0], m, ext, fuel - 1);
      var r := Exec(w, TranslateAll(body, st, 1), m, fuel - 1);
      if r.Done? {
        RoundsKeep(w, cond, body, st, rounds[1..], r.m, ext, fuel - 1);
        var rest := Exec(w, WhileTrue(cond, TranslateAll(body, st, 1)), r.m, fuel - 1);
        KeepsAgain(m, ext, r.m, rest, st, AfterAll(body, st), CopiesOn(body, rounds[0]), CopiesOnRounds(body, rounds[1..]));
        AssignsBoth(m, r.m, rest, CopiesOn(body, rounds[0]), CopiesOnRounds(body, rounds[1..]));
      }
    }
  }

  // The whole path

  ghost predicate AllHold(m: Memory, xs: set<Var>) {
    forall x <- xs :: x in m.slots && m.slots[x].Some?
  }

  /** What is known wherever the path has got to. */
  ghost predicate Going(m: Memory, ext: multiset<Addr>, st: Static, copied: set<Var>) {
    Exact(m, ext) && Idle(m, st, copied) && AllHold(m, copied)
  }

  /** The outcome of code along its path: it does not complete where it is unsafe, and otherwise it goes on. */
  ghost predicate Outcome(m: Memory, r: Result, safe: bool, ext: multiset<Addr>, end: Static, copied: set<Var>) {
    r.Done? ==> safe && r.m.slots.Keys == m.slots.Keys && Going(r.m, ext, end, copied)
  }

  lemma {:induction false} PathOne(w: World, s: Stmt, st: Static, copied: set<Var>, way: Way, m: Memory, ext: multiset<Addr>, fuel: nat)
    requires Lawful(w) && Declared(s, |st.inits|) && Ready(m, After(s, st)) && Going(m, ext, st, copied)
    requires FitsOne(s, way) && TakesOne(w, s, st, 0, way, m, fuel)
    ensures Outcome(m, Exec(w, Translate(s, st, 0), m, fuel), SafeOnOne(s, st, copied, way), ext, After(s, st),
              copied + CopiesOnOne(s, way))
    decreases s, 1
  {
    if s.If? {
      if Deref(m, s.cond).Some? {
        ArmTaken(w, s, st, copied, way, m, ext, fuel);
      }
    } else if s.While? {
      LoopTaken(w, s, st, copied, way, m, ext, fuel);
    } else if Safe(s, st, 0, copied) {
      var r := SafeStep(w, s, st, copied, m, ext, fuel);
    } else {
      PlainAllocExact(w, m, ext, s.x, fuel);
    }
  }

  lemma LoopTaken(w: World, s: Stmt, st: Static, copied: set<Var>, way: Way, m: Memory, ext: multiset<Addr>, fuel: nat)
    requires Lawful(w) && s.While? && Declared(s, |st.inits|) && Ready(m, After(s, st)) && Going(m, ext, st, copied)
    requires FitsOne(s, way) && TakesOne(w, s, st, 0, way, m, fuel)
    ensures Outcome(m, Exec(w, Translate(s, st, 0), m, fuel), SafeOnOne(s, st, copied, way), ext, After(s, st),
              copied + CopiesOnOne(s, way))
  {
    RoundsKeep(w, s.cond, s.body, st, way.rounds, m, ext, fuel);
    var r := Exec(w, Translate(s, st, 0), m, fuel);
    if r.Done? {
      IdleAfter(m, ext, r.m, st, After(s, st), copied, CopiesOnOne(s, way));
      CopyIsDeclared(s, way, |st.inits|);
      NowHold(m, r, copied, CopiesOnOne(s, way), After(s, st));
    }
  }

  lemma NowHold(m: Memory, r: Result, copied: set<Var>, copies: set<Var>, end: Static)
    requires r.Done? && Assigns(m, r, copies) && AllHold(m, copied) && Ready(m, end)
    requires forall x <- copies :: x < |end.inits|
    ensures AllHold(r.m, copied + copies)
  {
    forall x | x in copied + copies ensures x in r.m.slots && r.m.slots[x].Some? {
      assert x in copies ==> x < |end.inits| <= TempSlot(end);
    }
  }

  /** What is copied into is a declared variable. */
  lemma {:induction false} CopiesAreDeclared(body: seq<Stmt>, rounds: seq<seq<Way>>, vars: nat)
    requires AllDeclared(body, vars) && forall round <- rounds :: Fits(body, round)
    ensures forall x <- CopiesOnRounds(body, rounds) :: x < vars
    decreases body, 1, |rounds|
  {
    if rounds != [] {
      CopiesAreDeclaredOn(body, rounds[0], vars);
      CopiesAreDeclared(body, rounds[1..], vars);
    }
  }

  lemma {:induction false} CopiesAreDeclaredOn(ss: seq<Stmt>, ways: seq<Way>, vars: nat)
    requires AllDeclared(ss, vars) && Fits(ss, ways)
    ensures forall x <- CopiesOn(ss, ways) :: x < vars
    decreases ss, 0
  {
    if ss != [] {
      CopyIsDeclared(ss[0], ways[0], vars);
      CopiesAreDeclaredOn(ss[1..], ways[1..], vars);
    }
  }

  lemma {:induction false} CopyIsDeclared(s: Stmt, way: Way, vars: nat)
    requires Declared(s, vars) && FitsOne(s, way)
    ensures forall x <- CopiesOnOne(s, way) :: x < vars
    decreases s, 1
  {
    match s
    case If(_, thn, els) => CopiesAreDeclaredOn(if way.yes then thn else els, way.inner, vars);
    case While(_, body) => CopiesAreDeclared(body, way.rounds, vars);
    case _ =>
  }

  lemma {:induction false} ArmTaken(w: World, s: Stmt, st: Static, copied: set<Var>, way: Way, m: Memory, ext: multiset<Addr>, fuel: nat)
    requires Lawful(w) && s.If? && Declared(s, |st.inits|) && Ready(m, After(s, st)) && Going(m, ext, st, copied)
    requires FitsOne(s, way) && TakesOne(w, s, st, 0, way, m, fuel) && Deref(m, s.cond).Some?
    ensures Outcome(m, Exec(w, Translate(s, st, 0), m, fuel), SafeOnOne(s, st, copied, way), ext, After(s, st),
              copied + CopiesOnOne(s, way))
    decreases s, 0
  {
    var arm, from := if way.yes then s.thn else s.els, ArmStatic(s, st, way.yes);
    SkipsKeepIdle(m, st, from, copied);
    UnsafePathNeverCompletes(w, arm, from, copied, way.inner, m, ext, fuel);
    var r := Exec(w, TranslateAll(arm, from, 0), m, fuel);
    ArmRuns(w, s, st, 0, way.yes, m, fuel);
    if r.Done? {
      SkipsKeepIdle(r.m, AfterAll(arm, from), After(s, st), copied + CopiesOn(arm, way.inner));
    }
  }

  lemma ArmRuns(w: World, s: Stmt, st: Static, cycle: nat, yes: bool, m: Memory, fuel: nat)
    requires s.If? && Declared(s, |st.inits|) && Deref(m, s.cond).Some?
    requires yes == (w.isTrue(m.heap[m.slots[s.cond].value]) != 0)
    ensures Exec(w, Translate(s, st, cycle), m, fuel) ==
            Exec(w, TranslateAll(if yes then s.thn else s.els, ArmStatic(s, st, yes), cycle), m, fuel)
  {
  }

  /**
   Along every path the condition is exact: a run on an unsafe path never completes, and a run that
   completes keeps counts exact and leaves null what is not initialized on the path.
   */
  lemma {:induction false} UnsafePathNeverCompletes(w: World, ss: seq<Stmt>, st: Static, copied: set<Var>, ways: seq<Way>,
                                                    m: Memory, ext: multiset<Addr>, fuel: nat)
    requires Lawful(w) && AllDeclared(ss, |st.inits|) && Ready(m, AfterAll(ss, st)) && Going(m, ext, st, copied)
    requires Fits(ss, ways) && Takes(w, ss, st, 0, ways, m, fuel)
    ensures Outcome(m, Exec(w, TranslateAll(ss, st, 0), m, fuel), SafeOn(ss, st, copied, ways), ext, AfterAll(ss, st),
              copied + CopiesOn(ss, ways))
    decreases ss, 0
  {
    if ss == [] {
      assert copied + {} == copied;
    } else {
      PathOne(w, ss[0], st, copied, ways[0], m, ext, fuel);
      var r := Exec(w, Translate(ss[0], st, 0), m, fuel);
      if r.Done? {
        var more := copied + CopiesOnOne(ss[0], ways[0]);
        UnsafePathNeverCompletes(w, ss[1..], After(ss[0], st), more, ways[1..], r.m, ext, fuel);
        assert copied + CopiesOn(ss, ways) == more + CopiesOn(ss[1..], ways[1..]);
      }
    }
  }

  /** On a safe path the plain allocation only runs on null slots: it means re-initialization. */
  lemma {:induction false} SafePathRefines(w: World, ss: seq<Stmt>, st: Static, copied: set<Var>, ways: seq<Way>,
                                           m: Memory, ext: multiset<Addr>, fuel: nat)
    requires Lawful(w) && AllDeclared(ss, |st.inits|) && Ready(m, AfterAll(ss, st)) && Going(m, ext, st, copied)
    requires Fits(ss, ways) && Takes(w, ss, st, 0, ways, m, fuel) && SafeOn(ss, st, copied, ways)
    ensures Exec(w, TranslateAll(ss, st, 0), m, fuel) == Exec(w, Reference(ss, st), m, fuel)
    decreases ss, 0
  {
    if ss != [] {
      SafeOneRefines(w, ss[0], st, copied, ways[0], m, ext, fuel);
      PathOne(w, ss[0], st, copied, ways[0], m, ext, fuel);
      var r := Exec(w, Translate(ss[0], st, 0), m, fuel);
      if r.Done? {
        SafePathRefines(w, ss[1..], After(ss[0], st), copied + CopiesOnOne(ss[0], ways[0]), ways[1..], r.m, ext, fuel);
      }
      assert Reference(ss, st) == Then(Translate(ss[0], st, 1), Reference(ss[1..], After(ss[0], st)));
    }
  }

  lemma {:induction false} SafeOneRefines(w: World, s: Stmt, st: Static, copied: set<Var>, way: Way, m: Memory, ext: multiset<Addr>, fuel: nat)
    requires Lawful(w) && Declared(s, |st.inits|) && Ready(m, After(s, st)) && Going(m, ext, st, copied)
    requires FitsOne(s, way) && TakesOne(w, s, st, 0, way, m, fuel) && SafeOnOne(s, st, copied, way)
    ensures Exec(w, Translate(s, st, 0), m, fuel) == Exec(w, Translate(s, st, 1), m, fuel)
    decreases s, 0
  {
    if s.If? {
      if Deref(m, s.cond).Some? {
        var arm, from := if way.yes then s.thn else s.els, ArmStatic(s, st, way.yes);
        SkipsKeepIdle(m, st, from, copied);
        SafePathRefines(w, arm, from, copied, way.inner, m, ext, fuel);
        ArmRuns(w, s, st, 0, way.yes, m, fuel);
        ArmRuns(w, s, st, 1, way.yes, m, fuel);
        assert Reference(arm, from) == TranslateAll(arm, from, 1);
      }
    } else {
      StatementRefines(w, s, st, copied, m, ext, fuel);
    }
  }

  // Without loops every run ends

  predicate LoopFreeOne(s: Stmt)
    decreases s, 1
  {
    match s
    case If(_, thn, els) => LoopFree(thn) && LoopFree(els)
    case While(_, _) => false
    case _ => true
  }

  predicate LoopFree(ss: seq<Stmt>)
    decreases ss, 0
  {
    ss == [] || (LoopFreeOne(ss[0]) && LoopFree(ss[1..]))
  }

  /** So a run on an unsafe path of a program without loops crashes. */
  lemma {:induction false} LoopFreeEnds(w: World, ss: seq<Stmt>, st: Static, cycle: nat, m: Memory, fuel: nat)
    requires AllDeclared(ss, |st.inits|) && LoopFree(ss)
    ensures !Exec(w, TranslateAll(ss, st, cycle), m, fuel).Timeout?
    decreases ss, 0
  {
    if ss != [] {
      StatementEnds(w, ss[0], st, cycle, m, fuel);
      var r := Exec(w, Translate(ss[0], st, cycle), m, fuel);
      if r.Done? {
        LoopFreeEnds(w, ss[1..], After(ss[0], st), cycle, r.m, fuel);
      }
    }
  }

  lemma {:induction false} StatementEnds(w: World, s: Stmt, st: Static, cycle: nat, m: Memory, fuel: nat)
    requires Declared(s, |st.inits|) && LoopFreeOne(s)
    ensures !Exec(w, Translate(s, st, cycle), m, fuel).Timeout?
    decreases s, 1
  {
    match s
    case Temp => InitHasNoLoop(TempSlot(st), 0, cycle); CommandEnds(w, Translate(s, st, cycle), m, fuel);
    case LetNull(x) => InitHasNoLoop(x, st.inits[x], cycle); CommandEnds(w, Translate(s, st, cycle), m, fuel);
    case LetLiteral(x, _) => InitHasNoLoop(x, st.inits[x], cycle); CommandEnds(w, Translate(s, st, cycle), m, fuel);
    case LetVar(x, _) =>
      NoLoopInOps();
      assert NoLoop(DropHeld(x));
      assert NoLoop(IfNotNull(x, DropHeld(x), Do(Observe(x))));
      CommandEnds(w, Translate(s, st, cycle), m, fuel);
    case If(_, thn, els) =>
      LoopFreeEnds(w, thn, st, cycle, m, fuel);
      LoopFreeEnds(w, els, AfterAll(thn, st), cycle, m, fuel);
  }

  lemma NoLoopInOps()
    ensures NoLoop(Skip) && forall op :: NoLoop(Do(op))
  {
  }

  lemma InitHasNoLoop(s: Slot, inits: nat, cycle: nat)
    ensures NoLoop(InitVariant(s, inits, cycle))
  {
    NoLoopInOps();
    assert NoLoop(Then(Do(SetRefcount(s, 1)), Do(UnsetIsref(s))));
    assert NoLoop(Then(Do(Emalloc(s)), Then(Do(SetRefcount(s, 1)), Do(UnsetIsref(s)))));
    assert NoLoop(RenewShared(s));
    assert NoLoop(RenewNotNull(s));
  }

  predicate NoLoop(c: Cmd) {
    match c
    case Then(c1, c2) => NoLoop(c1) && NoLoop(c2)
    case IfNotNull(_, c1, c2) => NoLoop(c1) && NoLoop(c2)
    case IfRefcountAbove(_, _, c1, c2) => NoLoop(c1) && NoLoop(c2)
    case IfTrue(_, c1, c2) => NoLoop(c1) && NoLoop(c2)
    case WhileTrue(_, _) => false
    case _ => true
  }

  lemma {:induction false} CommandEnds(w: World, c: Cmd, m: Memory, fuel: nat)
    requires NoLoop(c)
    ensures !Exec(w, c, m, fuel).Timeout?
    decreases c
  {
    match c
    case Then(c1, c2) =>
      CommandEnds(w, c1, m, fuel);
      var r := Exec(w, c1, m, fuel);
      if r.Done? {
        CommandEnds(w, c2, r.m, fuel);
      }
    case IfNotNull(_, c1, c2) => CommandEnds(w, c1, m, fuel); CommandEnds(w, c2, m, fuel);
    case IfRefcountAbove(_, _, c1, c2) => CommandEnds(w, c1, m, fuel); CommandEnds(w, c2, m, fuel);
    case IfTrue(_, c1, c2) => CommandEnds(w, c1, m, fuel); CommandEnds(w, c2, m, fuel);
    case _ =>
  }
}
