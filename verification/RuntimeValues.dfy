/**
 What compiled programs compute: an interpreter of statements over what variables hold, and the proof
 that completed runs of the translation, with its counted zvals, end with the same values.
 */
module RuntimeValues {
  import opened Zval
  import opened RefCounts
  import opened Runtime
  import opened Wrappers

  /** What a variable holds: nothing yet, null, or a literal. */
  datatype Value = Unset | IsNull | Is(v: Literal)

  datatype Meaning = Ends(vals: seq<Value>) | Fails | Runs

  /** `truth`: which values make a condition hold. */
  function Interpret(truth: Value -> bool, ss: seq<Stmt>, vals: seq<Value>, fuel: nat): (r: Meaning)
    requires AllDeclared(ss, |vals|)
    ensures r.Ends? ==> |r.vals| == |vals|
    decreases fuel, ss, 0
  {
    if ss == [] then Ends(vals)
    else
      match InterpretOne(truth, ss[0], vals, fuel)
      case Ends(more) => Interpret(truth, ss[1..], more, fuel)
      case r => r
  }

  function InterpretOne(truth: Value -> bool, s: Stmt, vals: seq<Value>, fuel: nat): (r: Meaning)
    requires Declared(s, |vals|)
    ensures r.Ends? ==> |r.vals| == |vals|
    decreases fuel, s, 1
  {
    match s
    case Temp => Ends(vals)
    case LetNull(x) => Ends(vals[x := IsNull])
    case LetLiteral(x, v) => Ends(vals[x := Is(v)])
    case LetVar(x, y) => if vals[y] == Unset then Fails else Ends(vals[x := vals[y]])
    case If(cond, thn, els) =>
      if vals[cond] == Unset then Fails
      else if truth(vals[cond]) then Interpret(truth, thn, vals, fuel)
      else Interpret(truth, els, vals, fuel)
    case While(cond, body) => InterpretLoop(truth, cond, body, vals, fuel)
  }

  function InterpretLoop(truth: Value -> bool, cond: Var, body: seq<Stmt>, vals: seq<Value>, fuel: nat): (r: Meaning)
    requires cond < |vals| && AllDeclared(body, |vals|)
    ensures r.Ends? ==> |r.vals| == |vals|
    decreases fuel, body, 1
  {
    if fuel == 0 then Runs
    else if vals[cond] == Unset then Fails
    else if !truth(vals[cond]) then Ends(vals)
    else
      match Interpret(truth, body, vals, fuel - 1)
      case Ends(more) => InterpretLoop(truth, cond, body, more, fuel - 1)
      case r => r
  }

  /** A slot shows a value: the tag and the payload of the zval it points to. */
  predicate Shows(held: Option<(Tag, Payload)>, v: Value) {
    match v
    case Unset => held == None
    case IsNull => held.Some? && held.value.0 == NullTag
    case Is(Boolean(b)) => held == Some((BoolTag, Long(if b then 1 else 0)))
    case Is(Integer(n)) => held == Some((LongTag, Long(n)))
    case Is(Floating(d)) => held == Some((DoubleTag, Double(d)))
  }

  ghost predicate ShowsAll(m: Memory, vals: seq<Value>) {
    forall x :: 0 <= x < |vals| ==> Shows(Held(m, x), vals[x])
  }

  /** The library tests values, not how they are stored. */
  ghost predicate Tests(w: World, truth: Value -> bool) {
    forall z: Zval, v: Value :: v != Unset && Shows(Some((z.tag, z.payload)), v) ==> (w.isTrue(z) != 0 <==> truth(v))
  }

  /** No variable is copied to itself, which fails if nothing else holds its zval. */
  predicate NoSelfCopies(ss: seq<Stmt>)
    decreases ss, 0
  {
    ss == [] || (NoSelfCopy(ss[0]) && NoSelfCopies(ss[1..]))
  }

  predicate NoSelfCopy(s: Stmt)
    decreases s, 1
  {
    match s
    case LetVar(x, y) => x != y
    case If(_, thn, els) => NoSelfCopies(thn) && NoSelfCopies(els)
    case While(_, body) => NoSelfCopies(body)
    case _ => true
  }

  /** A run and its meaning: they complete, fail and go on together, but for self copies, which may fail. */
  ghost predicate Agrees(r: Result, i: Meaning, noSelfCopies: bool) {
    match r
    case Done(m) => i.Ends? && ShowsAll(m, i.vals)
    case Timeout => i.Runs?
    case Crash => noSelfCopies ==> i.Fails?
  }

  lemma ShownAfter(m: Memory, m': Memory, s: Slot, vals: seq<Value>, more: seq<Value>)
    requires ShowsAll(m, vals) && OthersKept(m, m', s) && |more| == |vals|
    requires forall x :: 0 <= x < |vals| ==> x in m.slots
    requires forall x :: 0 <= x < |vals| && x != s ==> more[x] == vals[x]
    requires s < |vals| ==> Shows(Held(m', s), more[s])
    ensures ShowsAll(m', more)
  {
  }

  lemma DeclaredExist(m: Memory, st: Static, vals: seq<Value>)
    requires |vals| == |st.inits| && Ready(m, st)
    ensures forall x :: 0 <= x < |vals| ==> x in m.slots
  {
  }

  lemma SimpleAgrees(w: World, s: Stmt, st: Static, vals: seq<Value>, truth: Value -> bool, m: Memory, ext: multiset<Addr>, fuel: nat)
    requires Lawful(w) && Declared(s, |st.inits|) && |vals| == |st.inits| && !s.If? && !s.While?
    requires Exact(m, ext) && Ready(m, After(s, st)) && ShowsAll(m, vals)
    ensures Agrees(Exec(w, Translate(s, st, 1), m, fuel), InterpretOne(truth, s, vals, fuel), NoSelfCopy(s))
  {
    DeclaredExist(m, After(s, st), vals);
    match s
    case Temp =>
      InitNvarExact(w, m, ext, TempSlot(st), fuel);
      ShownAfter(m, Exec(w, InitNvar(TempSlot(st)), m, fuel).m, TempSlot(st), vals, vals);
    case LetNull(x) =>
      InitNvarExact(w, m, ext, x, fuel);
      ShownAfter(m, Exec(w, InitNvar(x), m, fuel).m, x, vals, vals[x := IsNull]);
    case LetLiteral(x, v) =>
      LiteralExact(w, m, ext, x, v, fuel);
      ShownAfter(m, Exec(w, Translate(s, st, 1), m, fuel).m, x, vals, vals[x := Is(v)]);
    case LetVar(x, y) => CopyAgrees(w, x, y, st, vals, truth, m, ext, fuel);
  }

  /** Every temporary gets a null zval of its own, in a slot that no variable and no earlier temporary has. */
  lemma TempHoldsNull(w: World, st: Static, m: Memory, ext: multiset<Addr>, fuel: nat)
    requires Lawful(w) && Exact(m, ext) && Ready(m, After(Temp, st))
    ensures var r := Exec(w, Translate(Temp, st, 1), m, fuel);
      && r.Done? && OwnsNull(r.m, ext, |st.inits| + st.temps)
      && (forall z :: 0 <= z < |st.inits| + st.temps ==> z in r.m.slots && r.m.slots[z] == m.slots[z])
    ensures After(Temp, st) == Static(st.inits, st.temps + 1)
  {
    InitNvarExact(w, m, ext, TempSlot(st), fuel);
  }

  lemma CopyAgrees(w: World, x: Var, y: Var, st: Static, vals: seq<Value>, truth: Value -> bool, m: Memory, ext: multiset<Addr>, fuel: nat)
    requires x < |st.inits| && y < |st.inits| && |vals| == |st.inits|
    requires Exact(m, ext) && Ready(m, st) && ShowsAll(m, vals)
    ensures Agrees(Exec(w, CopyOnWrite(x, y), m, fuel), InterpretOne(truth, LetVar(x, y), vals, fuel), x != y)
  {
    DeclaredExist(m, st, vals);
    CopyOnWriteExact(w, m, ext, x, y, fuel);
    assert Shows(Held(m, y), vals[y]);
    assert vals[y] == Unset <==> m.slots[y].None?;
    if !CopyCrashes(m, x, y) {
      ShownAfter(m, Exec(w, CopyOnWrite(x, y), m, fuel).m, x, vals, vals[x := vals[y]]);
    }
  }

  /** What a condition tests. */
  lemma TestAgrees(w: World, truth: Value -> bool, cond: Var, vals: seq<Value>, m: Memory)
    requires Tests(w, truth) && cond < |vals| && ShowsAll(m, vals)
    ensures Deref(m, cond).None? <==> vals[cond] == Unset
    ensures Deref(m, cond).Some? ==> (w.isTrue(m.heap[m.slots[cond].value]) != 0 <==> truth(vals[cond]))
  {
    assert Shows(Held(m, cond), vals[cond]);
    if Deref(m, cond).Some? {
      var z := m.heap[m.slots[cond].value];
      assert Held(m, cond) == Some((z.tag, z.payload));
    }
  }

  lemma {:induction false} StatementAgrees(w: World, truth: Value -> bool, s: Stmt, st: Static, vals: seq<Value>, m: Memory,
                                           ext: multiset<Addr>, fuel: nat)
    requires Lawful(w) && Tests(w, truth) && Declared(s, |st.inits|) && |vals| == |st.inits|
    requires Exact(m, ext) && Ready(m, After(s, st)) && ShowsAll(m, vals)
    ensures Agrees(Exec(w, Translate(s, st, 1), m, fuel), InterpretOne(truth, s, vals, fuel), NoSelfCopy(s))
    decreases fuel, s, 1
  {
    match s
    case If(cond, thn, els) =>
      TestAgrees(w, truth, cond, vals, m);
      if Deref(m, cond).Some? {
        BlockAgrees(w, truth, thn, st, vals, m, ext, fuel);
        BlockAgrees(w, truth, els, AfterAll(thn, st), vals, m, ext, fuel);
      }
    case While(cond, body) =>
      CycleDepthIrrelevantAll(body, st, 2, 1);
      LoopAgrees(w, truth, cond, body, st, vals, m, ext, fuel);
    case _ => SimpleAgrees(w, s, st, vals, truth, m, ext, fuel);
  }

  /** Completed runs show what the interpreter says; they fail and go on where it does. */
  lemma {:induction false} BlockAgrees(w: World, truth: Value -> bool, ss: seq<Stmt>, st: Static, vals: seq<Value>, m: Memory,
                                       ext: multiset<Addr>, fuel: nat)
    requires Lawful(w) && Tests(w, truth) && AllDeclared(ss, |st.inits|) && |vals| == |st.inits|
    requires Exact(m, ext) && Ready(m, AfterAll(ss, st)) && ShowsAll(m, vals)
    ensures Agrees(Exec(w, TranslateAll(ss, st, 1), m, fuel), Interpret(truth, ss, vals, fuel), NoSelfCopies(ss))
    decreases fuel, ss, 0
  {
    if ss != [] {
      StatementAgrees(w, truth, ss[0], st, vals, m, ext, fuel);
      StatementKeeps(w, ss[0], st, m, ext, fuel);
      var r := Exec(w, Translate(ss[0], st, 1), m, fuel);
      if r.Done? {
        BlockAgrees(w, truth, ss[1..], After(ss[0], st), InterpretOne(truth, ss[0], vals, fuel).vals, r.m, ext, fuel);
      }
    }
  }

  lemma {:induction false} LoopAgrees(w: World, truth: Value -> bool, cond: Var, body: seq<Stmt>, st: Static, vals: seq<Value>, m: Memory,
                                      ext: multiset<Addr>, fuel: nat)
    requires Lawful(w) && Tests(w, truth) && cond < |st.inits| && AllDeclared(body, |st.inits|) && |vals| == |st.inits|
    requires Exact(m, ext) && Ready(m, AfterAll(body, st)) && ShowsAll(m, vals)
    ensures Agrees(Exec(w, WhileTrue(cond, TranslateAll(body, st, 1)), m, fuel), InterpretLoop(truth, cond, body, vals, fuel), NoSelfCopies(body))
    decreases fuel, body, 1
  {
    if fuel > 0 {
      TestAgrees(w, truth, cond, vals, m);
      if Deref(m, cond).Some? && truth(vals[cond]) {
        BlockAgrees(w, truth, body, st, vals, m, ext, fuel - 1);
        BlockKeeps(w, body, st, m, ext, fuel - 1);
        var r := Exec(w, TranslateAll(body, st, 1), m, fuel - 1);
        if r.Done? {
          LoopAgrees(w, truth, cond, body, st, Interpret(truth, body, vals, fuel - 1).vals, r.m, ext, fuel - 1);
        }
      }
    }
  }

  // Outside cycles

  /** Whatever the cheap first allocation does, it aborts or means re-initialization. */
  lemma {:induction false} CrashesOrRefines(w: World, ss: seq<Stmt>, st: Static, m: Memory, ext: multiset<Addr>, fuel: nat)
    requires Lawful(w) && AllDeclared(ss, |st.inits|) && Exact(m, ext) && Ready(m, AfterAll(ss, st))
    ensures var r := Exec(w, TranslateAll(ss, st, 0), m, fuel); r.Crash? || r == Exec(w, TranslateAll(ss, st, 1), m, fuel)
    decreases ss, 0
  {
    if ss != [] {
      OneCrashesOrRefines(w, ss[0], st, m, ext, fuel);
      StatementKeeps(w, ss[0], st, m, ext, fuel);
      var r := Exec(w, Translate(ss[0], st, 0), m, fuel);
      if r.Done? {
        CrashesOrRefines(w, ss[1..], After(ss[0], st), r.m, ext, fuel);
      }
    }
  }

  lemma {:induction false} OneCrashesOrRefines(w: World, s: Stmt, st: Static, m: Memory, ext: multiset<Addr>, fuel: nat)
    requires Lawful(w) && Declared(s, |st.inits|) && Exact(m, ext) && Ready(m, After(s, st))
    ensures var r := Exec(w, Translate(s, st, 0), m, fuel); r.Crash? || r == Exec(w, Translate(s, st, 1), m, fuel)
    decreases s, 1
  {
    match s
    case Temp => PlainAllocExact(w, m, ext, TempSlot(st), fuel);
    case LetNull(x) => PlainAllocExact(w, m, ext, x, fuel);
    case LetLiteral(x, _) => PlainAllocExact(w, m, ext, x, fuel);
    case LetVar(_, _) =>
    case If(cond, thn, els) =>
      CrashesOrRefines(w, thn, st, m, ext, fuel);
      CrashesOrRefines(w, els, AfterAll(thn, st), m, ext, fuel);
    case While(_, body) => CycleDepthIrrelevantAll(body, st, 1, 2);
  }
}
