/** Whole methods compiled by the runtime, and what every call of them leaves behind. */
module RuntimeMethods {
  import opened Wrappers
  import opened Zval
  import opened RefCounts
  import opened Ir
  import opened Helpers
  import opened Simulation
  import opened Builder
  import opened RuntimeCompiler
  import R = Runtime
  import V = RuntimeValues

  function NoCounts(vars: nat): R.Static { R.Static(seq(vars, _ => 0), 0) }

  /**
   zephir_compile_methods, for one method with `vars` declared variables: block 0 takes the
   declarations, block 1 the statements; at the end block 0 is joined to block 1.
   */
  method CompileMethod(vars: nat, body: seq<R.Stmt>) returns (code: Code)
    requires R.AllDeclared(body, vars)
    ensures forall b :: 0 <= b < |code| ==> Closed(code[b])
    ensures MethodRuns(code, vars, R.AfterAll(body, NoCounts(vars)).temps, R.TranslateAll(body, NoCounts(vars), 0))
  {
    var b := new Builder();
    var entry := b.AppendBlock();
    b.PositionAtEnd(entry);
    var variables := DeclareVariables(b, vars);
    var c := new Compiler(b, variables);
    ghost var g, p := b.blocks, b.Here();
    ghost var st := NoCounts(vars);
    assert c.Counters() == st;
    c.CompileBlock(body);
    ghost var h, q, temps := b.blocks, b.Here(), c.temps;
    ghost var last := b.at;
    code := Finish(b, entry);
    Finished(g, h, last, code, vars, temps, R.TranslateAll(body, st, 0));
  }

  /** The end of a method: release, return, and the jump from the declarations to the entry block. */
  method Finish(b: Builder, entry: Label) returns (code: Code)
    requires b.Valid() && 0 < b.at && Open(b.blocks[0])
    modifies b
    ensures var h, last := old(b.blocks), old(b.at);
      && |code| == |h| && code[last] == h[last] + [CallRestoreStack, RetVoid] && code[0] == h[0] + [Br(entry)]
      && forall k :: 0 < k < |h| && k != last ==> code[k] == h[k]
  {
    b.AppendTwo(CallRestoreStack, RetVoid);
    b.PositionAtEnd(0);
    b.Append(Br(entry));
    code := b.blocks;
  }

  /** The start of the entry block: grow the stack, then one cell per declared variable. */
  method DeclareVariables(b: Builder, vars: nat) returns (variables: seq<Variable>)
    requires b.Valid() && b.at == 1 && b.blocks == [[], []]
    modifies b
    ensures b.Valid() && b.at == 1 && b.blocks == [[], [CallGrowStack] + Declarations(0, vars)]
    ensures |variables| == vars && forall i :: 0 <= i < vars ==> fresh(variables[i])
    ensures forall i :: 0 <= i < vars ==> variables[i].slot == i && variables[i].variantInits == 0
    ensures forall i, j :: 0 <= i < j < vars ==> variables[i] != variables[j]
  {
    b.Append(CallGrowStack);
    variables := [];
    for i := 0 to vars
      invariant b.Valid() && b.at == 1 && |b.blocks| == 2
      invariant b.blocks[0] == [] && b.blocks[1] == [CallGrowStack] + Declarations(0, i)
      invariant |variables| == i && forall k :: 0 <= k < i ==> fresh(variables[k])
      invariant forall k :: 0 <= k < i ==> variables[k].slot == k && variables[k].variantInits == 0
      invariant forall k, l :: 0 <= k < l < i ==> variables[k] != variables[l]
    {
      ghost var code := b.DeclareSlot(i);
      var symbol := new Variable(i);
      variables := variables + [symbol];
      DeclarationsAreOpen(0, i + 1);
    }
  }

  lemma Finished(g: Code, h: Code, last: Label, code: Code, vars: nat, temps: nat, c: Cmd)
    requires g == [[], [CallGrowStack] + Declarations(0, vars)] && GrowsMore(g, 1, h, last)
    requires h[0] == Declarations(vars, temps)
    requires Simulates(h, Pos(1, |g[1]|), Pos(last, |h[last]|), c)
    requires |code| == |h| && code[last] == h[last] + [CallRestoreStack, RetVoid] && code[0] == h[0] + [Br(1)]
    requires forall b :: 0 < b < |h| && b != last ==> code[b] == h[b]
    ensures forall b :: 0 <= b < |code| ==> Closed(code[b])
    ensures MethodRuns(code, vars, temps, c)
  {
    FinishedCloses(g, h, last, code);
    StartsWithDeclarations(g, h, code, vars, c, Pos(last, |h[last]|));
    HasPrefix(code, 0, Declarations(vars, temps) + [Br(1)]);
    HasSuffix(code, last, h[last], [CallRestoreStack, RetVoid]);
    MethodAssembled(code, vars, temps, Pos(last, |h[last]|), c);
  }

  lemma StartsWithDeclarations(g: Code, h: Code, code: Code, vars: nat, c: Cmd, q: Pos)
    requires g == [[], [CallGrowStack] + Declarations(0, vars)] && 1 < |h| && g[1] <= h[1] && Extends(h, code)
    requires Simulates(h, Pos(1, |g[1]|), q, c)
    ensures Has(code, Pos(1, 0), [CallGrowStack] + Declarations(0, vars))
    ensures Simulates(code, Pos(1, 1 + 2 * vars), q, c)
  {
    DeclarationsLength(0, vars);
    SimulatesExtended(h, code, Pos(1, |g[1]|), q, c);
    HasPrefix(code, 1, g[1]);
  }

  lemma FinishedCloses(g: Code, h: Code, last: Label, code: Code)
    requires GrowsMore(g, 1, h, last) && |g| == 2
    requires |code| == |h| && code[last] == h[last] + [CallRestoreStack, RetVoid] && code[0] == h[0] + [Br(1)]
    requires forall b :: 0 < b < |h| && b != last ==> code[b] == h[b]
    ensures Extends(h, code) && forall b :: 0 <= b < |code| ==> Closed(code[b])
  {
    ClosedByTail(h[last], [CallRestoreStack, RetVoid]);
    ClosedByTail(h[0], [Br(1)]);
  }

  lemma HasPrefix(g: Code, b: Label, code: seq<Instr>)
    requires b < |g| && code <= g[b]
    ensures Has(g, Pos(b, 0), code)
  {
  }

  lemma HasSuffix(g: Code, b: Label, front: seq<Instr>, code: seq<Instr>)
    requires b < |g| && g[b] == front + code
    ensures Has(g, Pos(b, |front|), code)
  {
  }

  lemma DeclarationsLength(first: Slot, n: nat)
    ensures |Declarations(first, n)| == 2 * n
  {
  }

  /** The caller's heap: every zval's count is the number of references the caller's side holds. */
  ghost predicate CallerExact(heap: map<Addr, Zval>, ext: multiset<Addr>, slots: nat) {
    && (forall a :: a in heap ==> 0 < heap[a].refcount == ext[a])
    && (forall a :: a in ext ==> a in heap)
    && (forall a :: slots + ext[a] < WORD)
  }

  lemma NulledSize(slots: map<Slot, Option<Addr>>, first: Slot, n: nat)
    ensures |Nulled(slots, first, n)| <= |slots| + n
  {
    if n > 0 {
      var r := Nulled(slots, first, n - 1);
      NulledSize(slots, first, n - 1);
      assert r[first + n - 1 := None].Keys == r.Keys + {first + n - 1};
      assert |r[first + n - 1 := None]| == |r[first + n - 1 := None].Keys|;
      assert |r| == |r.Keys|;
    }
  }

  lemma StartedExact(heap: map<Addr, Zval>, ext: multiset<Addr>, vars: nat, temps: nat)
    requires CallerExact(heap, ext, vars + temps)
    ensures var m := Started(heap, vars, temps);
      Exact(m, ext) && forall z :: (z in m.slots <==> 0 <= z < vars + temps) && (z in m.slots ==> m.slots[z].None?)
  {
    var m := Started(heap, vars, temps);
    NulledSlots(map[], vars, temps);
    NulledSlots(Nulled(map[], vars, temps), 0, vars);
    NulledSize(map[], vars, temps);
    forall a | a in heap ensures Owners(m.slots, a) == {} {}
    NulledSize(Nulled(map[], vars, temps), 0, vars);
  }

  /** The call returns with the caller's zvals, no others, and the counts they had. */
  ghost predicate ReturnsWith(w: World, code: Code, c: Conf, heap: map<Addr, Zval>) {
    exists m :: Reach(w, code, c, Returned(m)) && m.heap.Keys == heap.Keys
             && forall a :: a in heap ==> m.heap[a].refcount == heap[a].refcount
  }

  lemma ReleasedReturns(w: World, code: Code, c: Conf, m: Memory, heap: map<Addr, Zval>, ext: multiset<Addr>)
    requires Exact(m, ext) && Ends(w, code, c, Done(m))
    requires forall a :: (a in heap <==> a in ext) && (a in heap ==> heap[a].refcount == ext[a])
    ensures ReturnsWith(w, code, c, heap)
  {
    ReleaseLeavesOnlyExternal(m, ext);
    var m' := Release(m, m.frame).value;
    assert m'.heap.Keys == heap.Keys;
    assert Reach(w, code, c, Returned(m'));
  }

  /**
   Every completed call of a compiled method that passes the copy check returns, with every zval of
   its own released and every zval of the caller still there, its count unchanged.
   */
  lemma CallLeavesNoTrace(w: World, code: Code, vars: nat, body: seq<R.Stmt>, prev: Label, regs: Regs,
                          heap: map<Addr, Zval>, frame: seq<Slot>, ext: multiset<Addr>, fuel: nat)
    requires Lawful(w) && R.AllDeclared(body, vars) && R.SafeAll(body, NoCounts(vars), 0, {})
    requires var temps := R.AfterAll(body, NoCounts(vars)).temps;
      && MethodRuns(code, vars, temps, R.TranslateAll(body, NoCounts(vars), 0))
      && CallerExact(heap, ext, vars + temps)
    ensures var m := Started(heap, vars, R.AfterAll(body, NoCounts(vars)).temps);
      var c := At(0, 0, prev, regs, Memory(heap, map[], frame));
      match Exec(w, R.Reference(body, NoCounts(vars)), m, fuel)
      case Timeout => true
      case Crash => Reach(w, code, c, Crashed)
      case Done(_) => ReturnsWith(w, code, c, heap)
  {
    var st := NoCounts(vars);
    var temps := R.AfterAll(body, st).temps;
    var m := Started(heap, vars, temps);
    var c := At(0, 0, prev, regs, Memory(heap, map[], frame));
    StartedExact(heap, ext, vars, temps);
    R.ProgramRefines(w, body, st, {}, m, ext, fuel);
    R.BlockKeeps(w, body, st, m, ext, fuel);
    var r := Exec(w, R.TranslateAll(body, st, 0), m, fuel);
    assert Ends(w, code, c, r);
    if r.Done? { ReleasedReturns(w, code, c, r.m, heap, ext); }
  }

  /** Before the first statement no variable holds anything. */
  function NothingSet(vars: nat): seq<V.Value> { seq(vars, _ => V.Unset) }

  /** The run gets to the end of the method with these values in its variables. */
  ghost predicate Computes(w: World, code: Code, c: Conf, vals: seq<V.Value>) {
    exists m :: Finishes(w, code, c, m) && V.ShowsAll(m, vals)
  }

  /**
   A compiled method computes what the interpreter of its statements says: where that fails the method
   crashes, and where it ends the method gets to its end with exactly those values, unless it crashes.
   It cannot crash there if it passes the copy check and copies no variable to itself.
   */
  lemma CompiledMethodComputes(w: World, truth: V.Value -> bool, code: Code, vars: nat, body: seq<R.Stmt>, prev: Label, regs: Regs,
                               heap: map<Addr, Zval>, frame: seq<Slot>, ext: multiset<Addr>, fuel: nat)
    requires Lawful(w) && V.Tests(w, truth) && R.AllDeclared(body, vars)
    requires var temps := R.AfterAll(body, NoCounts(vars)).temps;
      && MethodRuns(code, vars, temps, R.TranslateAll(body, NoCounts(vars), 0))
      && CallerExact(heap, ext, vars + temps)
    ensures var c := At(0, 0, prev, regs, Memory(heap, map[], frame));
      match V.Interpret(truth, body, NothingSet(vars), fuel)
      case Runs => true
      case Fails => Reach(w, code, c, Crashed)
      case Ends(vals) =>
        && (Computes(w, code, c, vals) || Reach(w, code, c, Crashed))
        && (R.SafeAll(body, NoCounts(vars), 0, {}) && V.NoSelfCopies(body) ==> Computes(w, code, c, vals))
  {
    var st := NoCounts(vars);
    var temps := R.AfterAll(body, st).temps;
    var m := Started(heap, vars, temps);
    var c := At(0, 0, prev, regs, Memory(heap, map[], frame));
    StartedExact(heap, ext, vars, temps);
    V.BlockAgrees(w, truth, body, st, NothingSet(vars), m, ext, fuel);
    V.CrashesOrRefines(w, body, st, m, ext, fuel);
    var r := Exec(w, R.TranslateAll(body, st, 0), m, fuel);
    assert Ends(w, code, c, r);
    if R.SafeAll(body, st, 0, {}) {
      R.ProgramRefines(w, body, st, {}, m, ext, fuel);
    }
  }
}
