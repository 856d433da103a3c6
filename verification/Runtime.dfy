/**
 Statements of the runtime compiler, the commands they are translated to, and why the cheap
 first allocation is safe.
 */
module Runtime {
  import opened Wrappers
  import opened Zval
  import opened RefCounts

  type Var = nat

  /** `Temp` is any expression that needs a temporary zval of its own. */
  datatype Stmt =
    | Temp
    | LetNull(x: Var)
    | LetLiteral(x: Var, v: Literal)
    | LetVar(x: Var, y: Var)
    | If(cond: Var, thn: seq<Stmt>, els: seq<Stmt>)
    | While(cond: Var, body: seq<Stmt>)

  /** Initializations emitted so far per declared variable, and temporaries created so far. */
  datatype Static = Static(inits: seq<nat>, temps: nat)

  predicate Declared(s: Stmt, vars: nat) {
    match s
    case Temp => true
    case LetNull(x) => x < vars
    case LetLiteral(x, _) => x < vars
    case LetVar(x, y) => x < vars && y < vars
    case If(c, thn, els) => c < vars && AllDeclared(thn, vars) && AllDeclared(els, vars)
    case While(c, body) => c < vars && AllDeclared(body, vars)
  }

  predicate AllDeclared(ss: seq<Stmt>, vars: nat) {
    ss == [] || (Declared(ss[0], vars) && AllDeclared(ss[1..], vars))
  }

  /** zephir_variable_init_variant: re-initialize in a cycle or after a first initialization. */
  function InitVariant(s: Slot, inits: nat, cycle: nat): Cmd {
    if inits > 0 || cycle > 0 then InitNvar(s) else Do(MemoryAlloc(s))
  }

  function Inited(st: Static, x: Var): Static
    requires x < |st.inits|
  {
    st.(inits := st.inits[x := st.inits[x] + 1])
  }

  /** Temporaries live in the slots after the declared variables. */
  function TempSlot(st: Static): Slot { |st.inits| + st.temps }

  function After(s: Stmt, st: Static): (r: Static)
    requires Declared(s, |st.inits|)
    ensures |r.inits| == |st.inits| && r.temps >= st.temps
    ensures forall x :: 0 <= x < |st.inits| ==> r.inits[x] >= st.inits[x]
    decreases s, 0
  {
    match s
    case Temp => st.(temps := st.temps + 1)
    case LetNull(x) => Inited(st, x)
    case LetLiteral(x, _) => Inited(st, x)
    case LetVar(_, _) => st
    case If(_, thn, els) => AfterAll(els, AfterAll(thn, st))
    case While(_, body) => AfterAll(body, st)
  }

  function AfterAll(ss: seq<Stmt>, st: Static): (r: Static)
    requires AllDeclared(ss, |st.inits|)
    ensures |r.inits| == |st.inits| && r.temps >= st.temps
    ensures forall x :: 0 <= x < |st.inits| ==> r.inits[x] >= st.inits[x]
    decreases ss, 0
  {
    if ss == [] then st else AfterAll(ss[1..], After(ss[0], st))
  }

  /** The command compiled for a statement at cycle depth `cycle`. */
  function Translate(s: Stmt, st: Static, cycle: nat): Cmd
    requires Declared(s, |st.inits|)
    decreases s, 0
  {
    match s
    case Temp => InitVariant(TempSlot(st), 0, cycle)
    case LetNull(x) => InitVariant(x, st.inits[x], cycle)
    case LetLiteral(x, v) => Then(InitVariant(x, st.inits[x], cycle), Do(Store(x, v)))
    case LetVar(x, y) => CopyOnWrite(x, y)
    case If(c, thn, els) => IfTrue(c, TranslateAll(thn, st, cycle), TranslateAll(els, AfterAll(thn, st), cycle))
    case While(c, body) => WhileTrue(c, TranslateAll(body, st, cycle + 1))
  }

  function TranslateAll(ss: seq<Stmt>, st: Static, cycle: nat): Cmd
    requires AllDeclared(ss, |st.inits|)
    decreases ss, 0
  {
    if ss == [] then Skip else Then(Translate(ss[0], st, cycle), TranslateAll(ss[1..], After(ss[0], st), cycle))
  }

  /** What the same statements mean when every initialization is a re-initialization. */
  function Reference(ss: seq<Stmt>, st: Static): Cmd
    requires AllDeclared(ss, |st.inits|)
  {
    TranslateAll(ss, st, 1)
  }

  /** The variables a statement may assign by copying a pointer. */
  function Copies(s: Stmt): set<Var>
    decreases s, 0
  {
    match s
    case LetVar(x, _) => {x}
    case If(_, thn, els) => AllCopies(thn) + AllCopies(els)
    case While(_, body) => AllCopies(body)
    case _ => {}
  }

  function AllCopies(ss: seq<Stmt>): set<Var>
    decreases ss, 0
  {
    if ss == [] then {} else Copies(ss[0]) + AllCopies(ss[1..])
  }

  lemma {:induction false} CycleDepthIrrelevant(s: Stmt, st: Static, c: nat, d: nat)
    requires Declared(s, |st.inits|) && c > 0 && d > 0
    ensures Translate(s, st, c) == Translate(s, st, d)
    decreases s, 0
  {
    match s
    case If(_, thn, els) =>
      CycleDepthIrrelevantAll(thn, st, c, d);
      CycleDepthIrrelevantAll(els, AfterAll(thn, st), c, d);
    case While(_, body) => CycleDepthIrrelevantAll(body, st, c + 1, d + 1);
    case _ =>
  }

  lemma {:induction false} CycleDepthIrrelevantAll(ss: seq<Stmt>, st: Static, c: nat, d: nat)
    requires AllDeclared(ss, |st.inits|) && c > 0 && d > 0
    ensures TranslateAll(ss, st, c) == TranslateAll(ss, st, d)
    decreases ss, 0
  {
    if ss != [] {
      CycleDepthIrrelevant(ss[0], st, c, d);
      CycleDepthIrrelevantAll(ss[1..], After(ss[0], st), c, d);
    }
  }

  /** Every slot the code between two static states uses exists. */
  ghost predicate Ready(m: Memory, st: Static) {
    forall z :: 0 <= z < TempSlot(st) ==> z in m.slots
  }

  /** Slots that code leading from `st` to `end` and copying into `copies` does not write. */
  predicate Untouched(z: Slot, st: Static, end: Static, copies: set<Var>)
    requires |st.inits| == |end.inits|
  {
    if z < |st.inits| then end.inits[z] == st.inits[z] && z !in copies
    else z < TempSlot(st) || TempSlot(end) <= z
  }

  /** Counts stay exact, and only touched slots change. */
  ghost predicate Keeps(m: Memory, ext: multiset<Addr>, r: Result, st: Static, end: Static, copies: set<Var>)
    requires |st.inits| == |end.inits|
  {
    r.Done? ==>
      && Exact(r.m, ext) && r.m.slots.Keys == m.slots.Keys
      && forall z :: z in m.slots && Untouched(z, st, end, copies) ==> r.m.slots[z] == m.slots[z]
  }

  lemma {:induction false} StatementKeeps(w: World, s: Stmt, st: Static, m: Memory, ext: multiset<Addr>, fuel: nat)
    requires Lawful(w) && Declared(s, |st.inits|) && Exact(m, ext) && Ready(m, After(s, st))
    ensures Keeps(m, ext, Exec(w, Translate(s, st, 1), m, fuel), st, After(s, st), Copies(s))
    decreases fuel, s, 1
  {
    match s
    case Temp => InitNvarExact(w, m, ext, TempSlot(st), fuel);
    case LetNull(x) => InitNvarExact(w, m, ext, x, fuel);
    case LetLiteral(x, v) => LiteralExact(w, m, ext, x, v, fuel);
    case LetVar(x, y) => CopyOnWriteExact(w, m, ext, x, y, fuel);
    case If(c, thn, els) => IfKeeps(w, c, thn, els, st, m, ext, fuel);
    case While(c, body) =>
      CycleDepthIrrelevantAll(body, st, 2, 1);
      LoopKeeps(w, c, body, st, m, ext, fuel);
  }

  lemma {:induction false} IfKeeps(w: World, c: Var, thn: seq<Stmt>, els: seq<Stmt>, st: Static, m: Memory, ext: multiset<Addr>, fuel: nat)
    requires Lawful(w) && Declared(If(c, thn, els), |st.inits|) && Exact(m, ext) && Ready(m, After(If(c, thn, els), st))
    ensures var s := If(c, thn, els); Keeps(m, ext, Exec(w, Translate(s, st, 1), m, fuel), st, After(s, st), Copies(s))
    decreases fuel, If(c, thn, els), 0
  {
    var mid := AfterAll(thn, st);
    var end := AfterAll(els, mid);
    if Deref(m, c).Some? {
      BlockKeeps(w, thn, st, m, ext, fuel);
      BlockKeeps(w, els, mid, m, ext, fuel);
      var r1, r2 := Exec(w, TranslateAll(thn, st, 1), m, fuel), Exec(w, TranslateAll(els, mid, 1), m, fuel);
      EitherKeeps(m, ext, r1, r2, st, mid, end, AllCopies(thn), AllCopies(els));
    }
  }

  lemma EitherKeeps(m: Memory, ext: multiset<Addr>, r1: Result, r2: Result, st: Static, mid: Static, end: Static,
                    c1: set<Var>, c2: set<Var>)
    requires Advances(st, mid) && Advances(mid, end)
    requires Keeps(m, ext, r1, st, mid, c1) && Keeps(m, ext, r2, mid, end, c2)
    ensures Keeps(m, ext, r1, st, end, c1 + c2) && Keeps(m, ext, r2, st, end, c1 + c2)
  {
  }

  lemma {:induction false} BlockKeeps(w: World, ss: seq<Stmt>, st: Static, m: Memory, ext: multiset<Addr>, fuel: nat)
    requires Lawful(w) && AllDeclared(ss, |st.inits|) && Exact(m, ext) && Ready(m, AfterAll(ss, st))
    ensures Keeps(m, ext, Exec(w, TranslateAll(ss, st, 1), m, fuel), st, AfterAll(ss, st), AllCopies(ss))
    decreases fuel, ss, 0
  {
    if ss != [] {
      StatementKeeps(w, ss[0], st, m, ext, fuel);
      var r := Exec(w, Translate(ss[0], st, 1), m, fuel);
      if r.Done? {
        var end := After(ss[0], st);
        BlockKeeps(w, ss[1..], end, r.m, ext, fuel);
        KeepsBoth(m, ext, r.m, Exec(w, TranslateAll(ss[1..], end, 1), r.m, fuel), st, end, AfterAll(ss[1..], end),
          Copies(ss[0]), AllCopies(ss[1..]));
      }
    }
  }

  predicate Advances(st: Static, end: Static) {
    |st.inits| == |end.inits| && st.temps <= end.temps
    && forall x :: 0 <= x < |st.inits| ==> st.inits[x] <= end.inits[x]
  }

  lemma KeepsBoth(m: Memory, ext: multiset<Addr>, m1: Memory, r: Result, st: Static, mid: Static, end: Static,
                  c1: set<Var>, c2: set<Var>)
    requires Advances(st, mid) && Advances(mid, end)
    requires Keeps(m, ext, Done(m1), st, mid, c1) && Keeps(m1, ext, r, mid, end, c2)
    ensures Keeps(m, ext, r, st, end, c1 + c2)
  {
  }

  lemma {:induction false} LoopKeeps(w: World, c: Var, body: seq<Stmt>, st: Static, m: Memory, ext: multiset<Addr>, fuel: nat)
    requires Lawful(w) && AllDeclared(body, |st.inits|) && Exact(m, ext) && Ready(m, AfterAll(body, st))
    ensures Keeps(m, ext, Exec(w, WhileTrue(c, TranslateAll(body, st, 1)), m, fuel), st, AfterAll(body, st), AllCopies(body))
    decreases fuel, body, 1
  {
    if fuel > 0 && Deref(m, c).Some? {
      BlockKeeps(w, body, st, m, ext, fuel - 1);
      var r := Exec(w, TranslateAll(body, st, 1), m, fuel - 1);
      if r.Done? { LoopKeeps(w, c, body, st, r.m, ext, fuel - 1); }
    }
  }

  /**
   A literal assignment outside cycles that is the first one emitted for its variable must not
   follow a copy into that variable: `let x = y` does not count as an initialization.
   `copied` holds the copy targets seen so far.
   */
  predicate Safe(s: Stmt, st: Static, cycle: nat, copied: set<Var>)
    requires Declared(s, |st.inits|)
    decreases s, 0
  {
    match s
    case LetNull(x) => st.inits[x] > 0 || cycle > 0 || x !in copied
    case LetLiteral(x, _) => st.inits[x] > 0 || cycle > 0 || x !in copied
    case If(_, thn, els) =>
      SafeAll(thn, st, cycle, copied) && SafeAll(els, AfterAll(thn, st), cycle, copied)
    case _ => true
  }

  predicate SafeAll(ss: seq<Stmt>, st: Static, cycle: nat, copied: set<Var>)
    requires AllDeclared(ss, |st.inits|)
    decreases ss, 0
  {
    ss == [] ||
    (Safe(ss[0], st, cycle, copied) && SafeAll(ss[1..], After(ss[0], st), cycle, copied + Copies(ss[0])))
  }

  /** Slots not initialized by the code emitted so far, nor copied into, are still null. */
  ghost predicate Idle(m: Memory, st: Static, copied: set<Var>) {
    && (forall x :: 0 <= x < |st.inits| && st.inits[x] == 0 && x !in copied && x in m.slots ==> m.slots[x].None?)
    && (forall z :: TempSlot(st) <= z && z in m.slots ==> m.slots[z].None?)
  }

  lemma IdleAfter(m: Memory, ext: multiset<Addr>, m': Memory, st: Static, end: Static, copied: set<Var>, copies: set<Var>)
    requires Advances(st, end) && Idle(m, st, copied) && Keeps(m, ext, Done(m'), st, end, copies)
    ensures Idle(m', end, copied + copies)
  {
  }

  /**
   Outside cycles the first allocation emitted for a slot always finds it null, so it behaves as
   the re-initialization it replaces: the translated program and its reference never differ.
   */
  lemma {:induction false} StatementRefines(w: World, s: Stmt, st: Static, copied: set<Var>, m: Memory,
                                            ext: multiset<Addr>, fuel: nat)
    requires Lawful(w) && Declared(s, |st.inits|) && Exact(m, ext) && Ready(m, After(s, st))
    requires Idle(m, st, copied) && Safe(s, st, 0, copied)
    ensures Exec(w, Translate(s, st, 0), m, fuel) == Exec(w, Translate(s, st, 1), m, fuel)
    decreases s, 1
  {
    match s
    case Temp => PlainAllocExact(w, m, ext, TempSlot(st), fuel);
    case LetNull(x) => PlainAllocExact(w, m, ext, x, fuel);
    case LetLiteral(x, _) => PlainAllocExact(w, m, ext, x, fuel);
    case LetVar(_, _) =>
    case If(c, thn, els) => IfRefines(w, c, thn, els, st, copied, m, ext, fuel);
    case While(_, body) => CycleDepthIrrelevantAll(body, st, 1, 2);
  }

  lemma {:induction false} IfRefines(w: World, c: Var, thn: seq<Stmt>, els: seq<Stmt>, st: Static, copied: set<Var>, m: Memory,
                                     ext: multiset<Addr>, fuel: nat)
    requires Lawful(w) && Declared(If(c, thn, els), |st.inits|) && Exact(m, ext) && Ready(m, After(If(c, thn, els), st))
    requires Idle(m, st, copied) && Safe(If(c, thn, els), st, 0, copied)
    ensures var s := If(c, thn, els); Exec(w, Translate(s, st, 0), m, fuel) == Exec(w, Translate(s, st, 1), m, fuel)
    decreases If(c, thn, els), 0
  {
    var mid := AfterAll(thn, st);
    if Deref(m, c).Some? {
      ProgramRefines(w, thn, st, copied, m, ext, fuel);
      SkipsKeepIdle(m, st, mid, copied);
      ProgramRefines(w, els, mid, copied, m, ext, fuel);
      assert Reference(thn, st) == TranslateAll(thn, st, 1) && Reference(els, mid) == TranslateAll(els, mid, 1);
    }
  }

  lemma SkipsKeepIdle(m: Memory, st: Static, end: Static, copied: set<Var>)
    requires Advances(st, end) && Idle(m, st, copied)
    ensures Idle(m, end, copied)
  {
  }

  lemma {:induction false} ProgramRefines(w: World, ss: seq<Stmt>, st: Static, copied: set<Var>, m: Memory,
                                          ext: multiset<Addr>, fuel: nat)
    requires Lawful(w) && AllDeclared(ss, |st.inits|) && Exact(m, ext) && Ready(m, AfterAll(ss, st))
    requires Idle(m, st, copied) && SafeAll(ss, st, 0, copied)
    ensures Exec(w, TranslateAll(ss, st, 0), m, fuel) == Exec(w, Reference(ss, st), m, fuel)
    decreases ss, 0
  {
    if ss != [] {
      StatementRefines(w, ss[0], st, copied, m, ext, fuel);
      StatementKeeps(w, ss[0], st, m, ext, fuel);
      var r := Exec(w, Translate(ss[0], st, 1), m, fuel);
      if r.Done? {
        IdleAfter(m, ext, r.m, st, After(ss[0], st), copied, Copies(ss[0]));
        ProgramRefines(w, ss[1..], After(ss[0], st), copied + Copies(ss[0]), r.m, ext, fuel);
      }
    }
  }

  /** A program that creates temporaries and assigns literals, but never copies a variable. */
  lemma {:induction false} NoCopiesIsSafe(ss: seq<Stmt>, st: Static, cycle: nat)
    requires AllDeclared(ss, |st.inits|) && AllCopies(ss) == {}
    ensures SafeAll(ss, st, cycle, {})
    decreases ss, 0
  {
    if ss != [] {
      match ss[0] {
        case If(_, thn, els) =>
          assert AllCopies(thn) == {} && AllCopies(els) == {};
          NoCopiesIsSafe(thn, st, cycle);
          NoCopiesIsSafe(els, AfterAll(thn, st), cycle);
        case _ =>
      }
      assert Copies(ss[0]) == {} && AllCopies(ss[1..]) == {};
      assert {} + Copies(ss[0]) == {};
      NoCopiesIsSafe(ss[1..], After(ss[0], st), cycle);
    }
  }

  predicate StraightLine(ss: seq<Stmt>) {
    forall i :: 0 <= i < |ss| ==> !ss[i].If? && !ss[i].While?
  }

  /** Without branches the condition is exact: an unsafe program never completes. */
  lemma {:induction false} UnsafeNeverCompletes(w: World, ss: seq<Stmt>, st: Static, copied: set<Var>, m: Memory,
                                                ext: multiset<Addr>, fuel: nat)
    requires Lawful(w) && AllDeclared(ss, |st.inits|) && Exact(m, ext) && Ready(m, AfterAll(ss, st))
    requires Idle(m, st, copied) && StraightLine(ss) && !SafeAll(ss, st, 0, copied)
    requires forall x :: x in copied ==> x in m.slots && m.slots[x].Some?
    ensures Exec(w, TranslateAll(ss, st, 0), m, fuel).Crash?
    decreases |ss|
  {
    var s := ss[0];
    var first, rest := Translate(s, st, 0), TranslateAll(ss[1..], After(s, st), 0);
    assert TranslateAll(ss, st, 0) == Then(first, rest);
    if !Safe(s, st, 0, copied) {
      PlainAllocExact(w, m, ext, s.x, fuel);
      assert Exec(w, first, m, fuel).Crash?;
    } else {
      var r := SafeStep(w, s, st, copied, m, ext, fuel);
      if r.Done? {
        UnsafeNeverCompletes(w, ss[1..], After(s, st), copied + Copies(s), r.m, ext, fuel);
      }
    }
  }

  /** One safe straight-line statement: everything the next one needs. */
  lemma SafeStep(w: World, s: Stmt, st: Static, copied: set<Var>, m: Memory, ext: multiset<Addr>, fuel: nat) returns (r: Result)
    requires Lawful(w) && Declared(s, |st.inits|) && Exact(m, ext) && Ready(m, After(s, st))
    requires Idle(m, st, copied) && Safe(s, st, 0, copied) && !s.If? && !s.While?
    requires forall x :: x in copied ==> x in m.slots && m.slots[x].Some?
    ensures r == Exec(w, Translate(s, st, 0), m, fuel) && !r.Timeout?
    ensures r.Done? ==> Exact(r.m, ext) && r.m.slots.Keys == m.slots.Keys && Idle(r.m, After(s, st), copied + Copies(s))
    ensures r.Done? ==> forall x :: x in copied + Copies(s) ==> x in r.m.slots && r.m.slots[x].Some?
  {
    r := Exec(w, Translate(s, st, 1), m, fuel);
    StatementRefines(w, s, st, copied, m, ext, fuel);
    StatementKeeps(w, s, st, m, ext, fuel);
    StaysAssigned(w, s, st, m, ext, fuel);
    if r.Done? { IdleAfter(m, ext, r.m, st, After(s, st), copied, Copies(s)); }
  }

  /** A straight-line statement never makes an assigned slot null again; a copy assigns its target. */
  lemma StaysAssigned(w: World, s: Stmt, st: Static, m: Memory, ext: multiset<Addr>, fuel: nat)
    requires Lawful(w) && Declared(s, |st.inits|) && !s.If? && !s.While? && Exact(m, ext) && Ready(m, After(s, st))
    ensures !Exec(w, Translate(s, st, 1), m, fuel).Timeout?
    ensures var r := Exec(w, Translate(s, st, 1), m, fuel);
      r.Done? ==> forall x :: x in m.slots && (m.slots[x].Some? || x in Copies(s)) ==>
        x in r.m.slots && r.m.slots[x].Some?
  {
    match s
    case Temp => InitNvarExact(w, m, ext, TempSlot(st), fuel);
    case LetNull(x) => InitNvarExact(w, m, ext, x, fuel);
    case LetLiteral(x, v) => LiteralExact(w, m, ext, x, v, fuel);
    case LetVar(x, y) => CopyOnWriteExact(w, m, ext, x, y, fuel);
  }

  /** `let y = 1; let x = y; let x = 2;` with x in slot 0 and y in slot 1 */
  const COPY_THEN_LITERAL := [LetLiteral(1, Integer(1)), LetVar(0, 1), LetLiteral(0, Integer(2))]

  const TWO_VARIABLES := Static([0, 0], 0)

  /** The smallest unsafe program. */
  lemma CopyThenLiteralIsUnsafe()
    ensures var p := COPY_THEN_LITERAL;
      AllDeclared(p, 2) && StraightLine(p) && AfterAll(p, TWO_VARIABLES).temps == 0 && !SafeAll(p, TWO_VARIABLES, 0, {})
  {
    var st, p := TWO_VARIABLES, COPY_THEN_LITERAL;
    var st1 := Static([0, 1], 0);
    var second, third := [LetVar(0, 1), LetLiteral(0, Integer(2))], [LetLiteral(0, Integer(2))];
    assert p[1..] == second;
    assert second[1..] == third;
    assert third[1..] == [];
    assert AllDeclared(third, 2) && AllDeclared(second, 2);
    assert After(p[0], st) == st1 && After(second[0], st1) == st1;
    assert AfterAll(third, st1).temps == 0 && AfterAll(second, st1) == AfterAll(third, st1);
    var copied := {} + Copies(p[0]) + Copies(second[0]);
    assert 0 in copied && !Safe(third[0], st1, 0, copied);
    assert !SafeAll(third, st1, 0, copied);
    assert !SafeAll(second, st1, 0, {} + Copies(p[0]));
  }

  lemma NullSlotsAreReady(m: Memory, end: Static)
    requires m.slots == map[0 := None, 1 := None] && |end.inits| == 2 && end.temps == 0
    ensures Ready(m, end) && Idle(m, TWO_VARIABLES, {})
  {
  }

  /** It aborts in every run, since the second literal finds the slot of x taken. */
  lemma CopyThenLiteralCrashes(w: World, m: Memory, ext: multiset<Addr>, fuel: nat)
    requires Lawful(w) && Exact(m, ext) && m.slots == map[0 := None, 1 := None]
    ensures AllDeclared(COPY_THEN_LITERAL, 2)
    ensures Exec(w, TranslateAll(COPY_THEN_LITERAL, TWO_VARIABLES, 0), m, fuel) == Crash
  {
    CopyThenLiteralIsUnsafe();
    NullSlotsAreReady(m, AfterAll(COPY_THEN_LITERAL, TWO_VARIABLES));
    UnsafeNeverCompletes(w, COPY_THEN_LITERAL, TWO_VARIABLES, {}, m, ext, fuel);
  }
}
