/**
 The runtime compiler: statements to block graphs, through the builder.  Temporaries are declared
 in block 0, which is joined to the entry block when the method is finished.
 */
module RuntimeCompiler {
  import opened Wrappers
  import opened Zval
  import opened Ir
  import opened Helpers
  import opened Simulation
  import opened Builder
  import R = Runtime

  /**
   Like Grows, except that the declarations in block 0 may be extended too.
   */
  ghost predicate GrowsMore(g: Code, at: Label, h: Code, to: Label) {
    && 0 < at < |g| <= |h| && 0 < to < |h|
    && Open(g[0]) && Open(h[0]) && Open(g[at]) && Open(h[to]) && g[0] <= h[0] && g[at] <= h[at]
    && (forall b :: 0 < b < |g| && b != at ==> h[b] == g[b])
    && (to != at ==> |g| <= to && Closed(h[at]))
    && (forall b :: |g| <= b < |h| && b != to ==> Closed(h[b]))
  }

  lemma GrowsMoreExtends(g: Code, at: Label, h: Code, to: Label)
    requires GrowsMore(g, at, h, to)
    ensures Extends(g, h)
  {
  }

  lemma GrowsMoreTrans(g: Code, at: Label, h: Code, mid: Label, k: Code, to: Label)
    requires GrowsMore(g, at, h, mid) && GrowsMore(h, mid, k, to)
    ensures GrowsMore(g, at, k, to)
  {
  }

  /** A branch body: compiled from block `arm` on, and closed by a jump. */
  ghost predicate ArmClosed(g: Code, arm: Label, h: Code) {
    && 0 < arm < |g| <= |h| && Open(g[0]) && Open(h[0]) && g[0] <= h[0]
    && g[arm] <= h[arm] && Closed(h[arm])
    && (forall b :: 0 < b < |g| && b != arm ==> h[b] == g[b])
    && (forall b :: |g| <= b < |h| ==> Closed(h[b]))
  }

  /** Closing compiled code with a jump. */
  lemma ArmDone(g: Code, arm: Label, h: Code, at: Label, k: Code, to: Label, p: Pos, c: Cmd)
    requires GrowsMore(g, arm, h, at) && Simulates(h, p, Pos(at, |h[at]|), c)
    requires |k| == |h| && k[at] == h[at] + [Br(to)] && forall b :: 0 <= b < |h| && b != at ==> k[b] == h[b]
    ensures ArmClosed(g, arm, k) && Extends(h, k)
    ensures Simulates(k, p, Pos(to, 0), c)
  {
    ClosedByTail(h[at], [Br(to)]);
    SimulatesExtended(h, k, p, Pos(at, |h[at]|), c);
    SimulatesJump(k, p, Pos(at, |h[at]|), to, c);
  }

  /** Blocks n, n + 1 and n + 2 appended, the insertion block closed by a test. */
  ghost predicate Tested(g: Code, at: Label, h: Code, test: seq<Instr>) {
    && 0 < at < |g| && |h| == |g| + 3 && h[at] == g[at] + test
    && h[|g|] == h[|g| + 1] == h[|g| + 2] == []
    && (forall b :: 0 <= b < |g| && b != at ==> h[b] == g[b])
  }

  lemma IfCompiled(g: Code, at: Label, h: Code, k1: Code, k2: Code, s: Slot, r: Reg, c1: Cmd, c2: Cmd)
    requires 0 < at < |g| && Open(g[0]) && Open(g[at])
    requires Tested(g, at, h, TruthTest(s, r, |g|, |g| + 1))
    requires ArmClosed(h, |g|, k1) && ArmClosed(k1, |g| + 1, k2)
    requires Simulates(k1, Pos(|g|, 0), Pos(|g| + 2, 0), c1)
    requires Simulates(k2, Pos(|g| + 1, 0), Pos(|g| + 2, 0), c2)
    ensures GrowsMore(g, at, k2, |g| + 2) && k2[|g| + 2] == []
    ensures Simulates(k2, Pos(at, |g[at]|), Pos(|g| + 2, 0), IfTrue(s, c1, c2))
  {
    var n := |g|;
    assert k2[at] == k1[at] == h[at];
    ClosedByTail(g[at], TruthTest(s, r, n, n + 1));
    SimulatesExtended(k1, k2, Pos(n, 0), Pos(n + 2, 0), c1);
    SimulatesIfTrue(k2, Pos(at, |g[at]|), s, r, n, n + 1, Pos(n + 2, 0), c1, c2);
  }

  /** The start block holds the test; body and merge follow it. */
  ghost predicate LoopTested(g: Code, at: Label, h: Code, s: Slot, r: Reg) {
    var n := |g|;
    && 0 < at < n && |h| == n + 3 && h[at] == g[at] + [Br(n)]
    && h[n] == TruthTest(s, r, n + 1, n + 2) && h[n + 1] == h[n + 2] == []
    && (forall b :: 0 <= b < n && b != at ==> h[b] == g[b])
  }

  lemma WhileCompiled(g: Code, at: Label, h: Code, k: Code, s: Slot, r: Reg, c: Cmd)
    requires 0 < at < |g| && Open(g[0]) && Open(g[at]) && LoopTested(g, at, h, s, r)
    requires ArmClosed(h, |g| + 1, k) && Simulates(k, Pos(|g| + 1, 0), Pos(|g|, 0), c)
    ensures GrowsMore(g, at, k, |g| + 2) && k[|g| + 2] == []
    ensures Simulates(k, Pos(at, |g[at]|), Pos(|g| + 2, 0), WhileTrue(s, c))
  {
    var n := |g|;
    assert k[at] == h[at] && k[n] == h[n];
    ClosedByTail(g[at], [Br(n)]);
    ClosedByTail([], TruthTest(s, r, n + 1, n + 2));
    assert [] + k[n] == k[n];
    SimulatesWhile(k, Pos(at, |g[at]|), n, s, r, n + 1, n + 2, c);
  }

  /** Straight-line code appended after a simulation. */
  lemma ThenAppended(g: Code, p: Pos, at: Label, h: Code, code: seq<Instr>, c1: Cmd, c2: Cmd)
    requires at < |g| == |h| && Open(g[at]) && Simulates(g, p, Pos(at, |g[at]|), c1) && Means(code, c2)
    requires h[at] == g[at] + code && forall b :: 0 <= b < |g| && b != at ==> h[b] == g[b]
    ensures Open(h[at]) && Simulates(h, p, Pos(at, |h[at]|), Then(c1, c2))
  {
    SimulatesExtended(g, h, p, Pos(at, |g[at]|), c1);
    assert Has(h, Pos(at, |g[at]|), code);
    SimulatesThen(h, p, Pos(at, |g[at]|), Pos(at, |h[at]|), c1, c2);
  }

  /** A declared variable: its slot and how many initializations were emitted for it. */
  class Variable {
    const slot: Slot
    var variantInits: nat

    constructor (slot: Slot)
      ensures this.slot == slot && variantInits == 0
    {
      this.slot := slot;
      variantInits := 0;
    }

    /** zephir_variable_init_variant */
    method InitVariant(b: Builder, insideCycle: nat)
      requires b.Valid()
      modifies this, b
      ensures b.Valid() && Grows(old(b.blocks), old(b.at), b.blocks, b.at)
      ensures Simulates(b.blocks, old(b.Here()), b.Here(), R.InitVariant(slot, old(variantInits), insideCycle))
      ensures variantInits == old(variantInits) + 1
    {
      if variantInits > 0 || insideCycle > 0 {
        b.MemoryNalloc(slot);
      } else {
        ghost var code := b.BuildMemoryAlloc(slot);
        MeansHere(b.blocks, old(b.Here()), code, Do(MemoryAlloc(slot)));
      }
      variantInits := variantInits + 1;
    }
  }

  lemma MeansHere(g: Code, p: Pos, code: seq<Instr>, c: Cmd)
    requires Means(code, c) && p.b < |g| && |g[p.b]| == p.i + |code| && g[p.b][p.i..] == code
    ensures Simulates(g, p, Pos(p.b, |g[p.b]|), c)
  {
    assert Has(g, p, code);
  }

  /** The declarations of temporaries: slots first, first + 1, ..., first + n - 1. */
  function Declarations(first: Slot, n: nat): seq<Instr> {
    if n == 0 then [] else Declarations(first, n - 1) + [Alloca(first + n - 1), StoreNullPointer(first + n - 1)]
  }

  class Compiler {
    const b: Builder
    const variables: seq<Variable>
    var insideCycle: nat
    var temps: nat

    constructor (b: Builder, variables: seq<Variable>)
      ensures this.b == b && this.variables == variables && insideCycle == 0 && temps == 0
    {
      this.b, this.variables := b, variables;
      insideCycle, temps := 0, 0;
    }

    /** Declared variables are distinct objects in slots 0, 1, ...; temporaries sit after them. */
    ghost predicate Tables()
      reads this, b, variables
    {
      && (forall i :: 0 <= i < |variables| ==> variables[i].slot == i)
      && (forall i, j :: 0 <= i < j < |variables| ==> variables[i] != variables[j])
      && 0 < |b.blocks| && b.blocks[0] == Declarations(|variables|, temps) && Open(b.blocks[0])
    }

    ghost predicate Valid()
      reads this, b, variables
    {
      Tables() && b.Valid() && 0 < b.at
    }

    ghost function Counters(): R.Static
      reads this, variables
    {
      R.Static(seq(|variables|, i requires 0 <= i < |variables| reads variables => variables[i].variantInits), temps)
    }

    /** zephir_symtable_get_temp_variable_for_write, for a zval type. */
    method TempVariable()
      requires Valid()
      modifies this`temps, b
      ensures Valid() && GrowsMore(old(b.blocks), old(b.at), b.blocks, b.at)
      ensures Simulates(b.blocks, old(b.Here()), b.Here(), R.InitVariant(old(|variables| + temps), 0, insideCycle))
      ensures temps == old(temps) + 1
    {
      ghost var g, at, p := b.blocks, b.at, b.Here();
      var symbol := new Variable(|variables| + temps);
      var current := b.at;
      b.PositionAtEnd(0);
      ghost var code := b.DeclareSlot(symbol.slot);
      b.PositionAtEnd(current);
      temps := temps + 1;
      ghost var h := b.blocks;
      assert code == [Alloca(symbol.slot), StoreNullPointer(symbol.slot)];
      symbol.InitVariant(b, insideCycle);
      assert h[at] == g[at];
    }

    /** What compiling a statement or a block does. */
    twostate predicate Compiled(c: Cmd, end: R.Static)
      requires old(Valid())
      reads this, b, variables
    {
      && Valid() && GrowsMore(old(b.blocks), old(b.at), b.blocks, b.at)
      && Simulates(b.blocks, old(b.Here()), b.Here(), c)
      && Counters() == end && insideCycle == old(insideCycle)
    }

    method Let(x: R.Var)
      requires Valid() && x < |variables|
      modifies variables, b
      ensures Compiled(R.InitVariant(x, old(variables[x].variantInits), insideCycle), R.Inited(old(Counters()), x))
      ensures temps == old(temps)
    {
      ghost var g, at := b.blocks, b.at;
      variables[x].InitVariant(b, insideCycle);
      assert Counters().inits == old(Counters()).inits[x := old(variables[x].variantInits) + 1];
    }

    /** zephir_statement_let_variable, for a literal. */
    method LetLiteral(x: R.Var, v: Literal)
      requires Valid() && x < |variables|
      modifies variables, b
      ensures Compiled(Then(R.InitVariant(x, old(variables[x].variantInits), insideCycle), Do(Store(x, v))),
                R.Inited(old(Counters()), x))
    {
      ghost var p := b.Here();
      Let(x);
      ghost var g, mid := b.blocks, b.at;
      ghost var code := b.ZvalLiteral(x, v);
      ThenAppended(g, p, mid, b.blocks, code,
        R.InitVariant(x, old(variables[x].variantInits), insideCycle), Do(Store(x, v)));
    }

    /** The test of a condition, then the three blocks of an if statement. */
    method BranchIfTrue(s: Slot) returns (ghost r: Reg, n: Label)
      requires b.Valid() && 0 < b.at
      modifies b
      ensures n == |old(b.blocks)| && b.at == old(b.at)
      ensures Tested(old(b.blocks), old(b.at), b.blocks, TruthTest(s, r, n, n + 1))
    {
      r := b.registers;
      var thn := b.AppendBlock();
      var els := b.AppendBlock();
      var merge := b.AppendBlock();
      Test(s, thn, els);
      n := thn;
    }

    method Test(s: Slot, thn: Label, els: Label)
      requires b.Valid()
      modifies b
      ensures b.Appended(TruthTest(s, old(b.registers), thn, els))
    {
      var r := b.registers;
      b.Append(LoadSlot(r, s));
      b.Append(CallIsTrue(r + 1, r));
      b.Append(CmpNotZero(r + 2, r + 1));
      b.Append(CondBr(r + 2, thn, els));
      assert b.blocks[b.at] == old(b.blocks[b.at]) + TruthTest(s, r, thn, els);
      b.registers := r + 3;
    }

    /** A branch body, from an empty block to a jump. */
    method CompileArm(ss: seq<R.Stmt>, arm: Label, to: Label)
      requires Tables() && R.AllDeclared(ss, |variables|)
      requires 0 < arm < |b.blocks| && b.blocks[arm] == []
      modifies this`temps, this`insideCycle, variables, b
      ensures Tables() && ArmClosed(old(b.blocks), arm, b.blocks)
      ensures Simulates(b.blocks, Pos(arm, 0), Pos(to, 0), R.TranslateAll(ss, old(Counters()), insideCycle))
      ensures Counters() == R.AfterAll(ss, old(Counters())) && insideCycle == old(insideCycle)
      decreases ss, 1
    {
      ghost var g, st := b.blocks, Counters();
      b.PositionAtEnd(arm);
      CompileBlock(ss);
      ghost var h, at := b.blocks, b.at;
      b.Append(Br(to));
      ArmDone(g, arm, h, at, b.blocks, to, Pos(arm, 0), R.TranslateAll(ss, st, insideCycle));
    }

    /** zephir_statement_if */
    method CompileIf(s: R.Stmt)
      requires Valid() && s.If? && R.Declared(s, |variables|)
      modifies this`temps, this`insideCycle, variables, b
      ensures Compiled(R.Translate(s, old(Counters()), insideCycle), R.After(s, old(Counters())))
      decreases s, 0
    {
      ghost var g, at, st := b.blocks, b.at, Counters();
      ghost var r, n := BranchIfTrue(s.cond);
      ghost var h := b.blocks;
      var first := |b.blocks| - 3;
      CompileArm(s.thn, first, first + 2);
      ghost var k := b.blocks;
      CompileArm(s.els, first + 1, first + 2);
      b.PositionAtEnd(first + 2);
      IfCompiled(g, at, h, k, b.blocks, s.cond, r,
        R.TranslateAll(s.thn, st, insideCycle), R.TranslateAll(s.els, R.AfterAll(s.thn, st), insideCycle));
    }

    /** The start block with the loop test, and the empty body and merge blocks. */
    method StartLoop(s: Slot) returns (ghost r: Reg, n: Label)
      requires b.Valid() && 0 < b.at
      modifies b
      ensures n == |old(b.blocks)| && |b.blocks| == n + 3 && LoopTested(old(b.blocks), old(b.at), b.blocks, s, r)
    {
      n := b.AppendBlock();
      b.Append(Br(n));
      b.PositionAtEnd(n);
      var body := b.AppendBlock();
      var merge := b.AppendBlock();
      r := b.registers;
      Test(s, body, merge);
    }

    /** zephir_statement_while */
    method CompileWhile(s: R.Stmt)
      requires Valid() && s.While? && R.Declared(s, |variables|)
      modifies this`temps, this`insideCycle, variables, b
      ensures Compiled(R.Translate(s, old(Counters()), insideCycle), R.After(s, old(Counters())))
      decreases s, 0
    {
      ghost var g, at, st := b.blocks, b.at, Counters();
      insideCycle := insideCycle + 1;
      var start;
      ghost var r;
      r, start := StartLoop(s.cond);
      ghost var h := b.blocks;
      CompileBody(s.body, start, st);
      WhileCompiled(g, at, h, b.blocks, s.cond, r, R.TranslateAll(s.body, st, insideCycle));
      b.PositionAtEnd(start + 2);
      insideCycle := insideCycle - 1;
    }

    /** The body of a loop, between its start and its merge block. */
    method CompileBody(ss: seq<R.Stmt>, start: Label, ghost st: R.Static)
      requires Tables() && R.AllDeclared(ss, |variables|) && Counters() == st
      requires 0 < start < |b.blocks| - 2 && b.blocks[start + 1] == []
      modifies this`temps, this`insideCycle, variables, b
      ensures Tables() && ArmClosed(old(b.blocks), start + 1, b.blocks)
      ensures Simulates(b.blocks, Pos(start + 1, 0), Pos(start, 0), R.TranslateAll(ss, st, insideCycle))
      ensures Counters() == R.AfterAll(ss, st) && insideCycle == old(insideCycle)
      decreases ss, 2
    {
      CompileArm(ss, start + 1, start);
    }

    method CompileStatement(s: R.Stmt)
      requires Valid() && R.Declared(s, |variables|)
      modifies this`temps, this`insideCycle, variables, b
      ensures Compiled(R.Translate(s, old(Counters()), insideCycle), R.After(s, old(Counters())))
      decreases s, 1
    {
      match s
      case Temp => TempVariable();
      case LetNull(x) => Let(x);
      case LetLiteral(x, v) => LetLiteral(x, v);
      case LetVar(x, y) => b.BuildCopyOnWrite(variables[x].slot, variables[y].slot);
      case If(_, _, _) => CompileIf(s);
      case While(_, _) => CompileWhile(s);
    }

    /** zephir_compile_block */
    method CompileBlock(ss: seq<R.Stmt>)
      requires Valid() && R.AllDeclared(ss, |variables|)
      modifies this`temps, this`insideCycle, variables, b
      ensures Compiled(R.TranslateAll(ss, old(Counters()), insideCycle), R.AfterAll(ss, old(Counters())))
      decreases ss, 0
    {
      ghost var st := Counters();
      assert ss[0..] == ss;
      for i := 0 to |ss|
        invariant Valid() && insideCycle == old(insideCycle)
        invariant GrowsMore(old(b.blocks), old(b.at), b.blocks, b.at)
        invariant R.AllDeclared(ss[i..], |variables|)
        invariant R.AfterAll(ss[i..], Counters()) == R.AfterAll(ss, st)
        invariant Leads(b.blocks, old(b.Here()), b.Here(),
                    R.TranslateAll(ss[i..], Counters(), insideCycle), R.TranslateAll(ss, st, insideCycle))
      {
        ghost var g, at, p, mid := b.blocks, b.at, b.Here(), Counters();
        assert ss[i..][0] == ss[i] && ss[i..][1..] == ss[i + 1..];
        CompileStatement(ss[i]);
        GrowsMoreTrans(old(b.blocks), old(b.at), g, at, b.blocks, b.at);
        LeadsOn(g, b.blocks, old(b.Here()), p, b.Here(), R.Translate(ss[i], mid, insideCycle),
          R.TranslateAll(ss[i + 1..], R.After(ss[i], mid), insideCycle), R.TranslateAll(ss, st, insideCycle));
      }
      assert ss[|ss|..] == [];
      SimulatesSkip(b.blocks, b.Here());
    }
  }

  /** Whatever code from q on simulates `rest` makes the code from p on simulate `all`. */
  ghost predicate Leads(g: Code, p: Pos, q: Pos, rest: Cmd, all: Cmd) {
    forall h, end :: Extends(g, h) && Simulates(h, q, end, rest) ==> Simulates(h, p, end, all)
  }

  lemma LeadsOn(g: Code, h: Code, p: Pos, q: Pos, q': Pos, first: Cmd, rest: Cmd, all: Cmd)
    requires Leads(g, p, q, Then(first, rest), all) && Extends(g, h) && Simulates(h, q, q', first)
    ensures Leads(h, p, q', rest, all)
  {
    forall k, end | Extends(h, k) && Simulates(k, q', end, rest)
      ensures Simulates(k, p, end, all)
    {
      assert Extends(g, k);
      SimulatesExtended(h, k, q, q', first);
      SimulatesThen(k, q, q', end, first, rest);
    }
  }

  /** Slots first, ..., first + n - 1 set to null. */
  function Nulled(slots: map<Slot, Option<Addr>>, first: Slot, n: nat): map<Slot, Option<Addr>> {
    if n == 0 then slots else Nulled(slots, first, n - 1)[first + n - 1 := None]
  }

  lemma NulledSlots(slots: map<Slot, Option<Addr>>, first: Slot, n: nat)
    ensures var r := Nulled(slots, first, n);
      forall z :: (z in r <==> z in slots || first <= z < first + n)
               && (z in r ==> r[z] == if first <= z < first + n then None else slots[z])
  {
  }

  lemma {:induction false} DeclarationsRun(w: World, g: Code, p: Pos, first: Slot, n: nat, prev: Label, regs: Regs, m: Memory)
    requires Has(g, p, Declarations(first, n))
    ensures Reach(w, g, At(p.b, p.i, prev, regs, m),
              At(p.b, p.i + 2 * n, prev, regs, m.(slots := Nulled(m.slots, first, n))))
    ensures |Declarations(first, n)| == 2 * n
  {
    var c0 := At(p.b, p.i, prev, regs, m);
    if n == 0 {
      ReachSelf(w, g, c0);
    } else {
      var last := [Alloca(first + n - 1), StoreNullPointer(first + n - 1)];
      HasSplit(g, p, Declarations(first, n - 1), last);
      DeclarationsRun(w, g, p, first, n - 1, prev, regs, m);
      var c1 := At(p.b, p.i + 2 * (n - 1), prev, regs, m.(slots := Nulled(m.slots, first, n - 1)));
      assert g[c1.block][c1.pc + 0] == last[0] && g[c1.block][c1.pc + 1] == last[1];
      Chain(w, g, c1);
      ReachTrans(w, g, c0, c1, Step(w, g, Step(w, g, c1)));
    }
  }

  lemma DeclarationsAreOpen(first: Slot, n: nat)
    ensures Open(Declarations(first, n))
  {
  }

  /** Memory when the statements start: an empty frame, and every slot null. */
  function Started(heap: map<Addr, Zval>, vars: nat, temps: nat): Memory {
    Memory(heap, Nulled(Nulled(map[], vars, temps), 0, vars), [])
  }

  /** The run gets to the release at the end of the method, with this memory. */
  ghost predicate Finishes(w: World, g: Code, c: Conf, m: Memory) {
    exists q: Pos :: Has(g, q, [CallRestoreStack, RetVoid]) && Arrives(w, g, c, q, m)
  }

  /** What the whole method does, given the result of its statements. */
  ghost predicate Ends(w: World, g: Code, c: Conf, r: Result) {
    match r
    case Timeout => true
    case Crash => Reach(w, g, c, Crashed)
    case Done(m) =>
      Finishes(w, g, c, m) &&
      match Release(m, m.frame)
      case None => Reach(w, g, c, Crashed)
      case Some(m') => Reach(w, g, c, Returned(m'))
  }

  /** A finished method: declarations, entry, statements, release, return. */
  ghost predicate MethodRuns(g: Code, vars: nat, temps: nat, c: Cmd) {
    forall w: World, prev: Label, regs: Regs, heap: map<Addr, Zval>, frame: seq<Slot>, fuel: nat ::
      Ends(w, g, At(0, 0, prev, regs, Memory(heap, map[], frame)), Exec(w, c, Started(heap, vars, temps), fuel))
  }

  lemma MethodAssembled(g: Code, vars: nat, temps: nat, q: Pos, c: Cmd)
    requires Has(g, Pos(0, 0), Declarations(vars, temps) + [Br(1)])
    requires Has(g, Pos(1, 0), [CallGrowStack] + Declarations(0, vars))
    requires Simulates(g, Pos(1, 1 + 2 * vars), q, c) && Has(g, q, [CallRestoreStack, RetVoid])
    ensures MethodRuns(g, vars, temps, c)
  {
    forall w: World, prev: Label, regs: Regs, heap: map<Addr, Zval>, frame: seq<Slot>, fuel: nat
      ensures Ends(w, g, At(0, 0, prev, regs, Memory(heap, map[], frame)), Exec(w, c, Started(heap, vars, temps), fuel))
    {
      var c0 := At(0, 0, prev, regs, Memory(heap, map[], frame));
      var m := Started(heap, vars, temps);
      var c1 := PrologueRuns(w, g, vars, temps, prev, regs, heap, frame);
      var r := Exec(w, c, m, fuel);
      assert Follows(w, g, c1, q, r);
      FollowsAfter(w, g, c0, c1, q, r);
      if r.Done? { EpilogueRuns(w, g, c0, q, r.m); }
    }
  }

  /** From the declarations block to the first statement. */
  lemma PrologueRuns(w: World, g: Code, vars: nat, temps: nat, prev: Label, regs: Regs, heap: map<Addr, Zval>,
                     frame: seq<Slot>) returns (c: Conf)
    requires Has(g, Pos(0, 0), Declarations(vars, temps) + [Br(1)])
    requires Has(g, Pos(1, 0), [CallGrowStack] + Declarations(0, vars))
    ensures c == At(1, 1 + 2 * vars, 0, regs, Started(heap, vars, temps))
    ensures Reach(w, g, At(0, 0, prev, regs, Memory(heap, map[], frame)), c)
  {
    var c0 := At(0, 0, prev, regs, Memory(heap, map[], frame));
    var m := Memory(heap, Nulled(map[], vars, temps), frame);
    DeclaredThenJumps(w, g, vars, temps, prev, regs, c0.m);
    FrameThenDeclared(w, g, vars, regs, m);
    c := At(1, 1 + 2 * vars, 0, regs, Started(heap, vars, temps));
    ReachTrans(w, g, c0, At(1, 0, 0, regs, m), c);
  }

  lemma DeclaredThenJumps(w: World, g: Code, first: nat, n: nat, prev: Label, regs: Regs, m: Memory)
    requires Has(g, Pos(0, 0), Declarations(first, n) + [Br(1)])
    ensures Reach(w, g, At(0, 0, prev, regs, m), At(1, 0, 0, regs, m.(slots := Nulled(m.slots, first, n))))
  {
    HasSplit(g, Pos(0, 0), Declarations(first, n), [Br(1)]);
    DeclarationsRun(w, g, Pos(0, 0), first, n, prev, regs, m);
    var c1 := At(0, 2 * n, prev, regs, m.(slots := Nulled(m.slots, first, n)));
    assert g[0][2 * n + 0] == [Br(1)][0];
    Chain(w, g, c1);
    ReachTrans(w, g, At(0, 0, prev, regs, m), c1, At(1, 0, 0, regs, c1.m));
  }

  lemma FrameThenDeclared(w: World, g: Code, n: nat, regs: Regs, m: Memory)
    requires Has(g, Pos(1, 0), [CallGrowStack] + Declarations(0, n))
    ensures Reach(w, g, At(1, 0, 0, regs, m), At(1, 1 + 2 * n, 0, regs, Memory(m.heap, Nulled(m.slots, 0, n), [])))
  {
    HasSplit(g, Pos(1, 0), [CallGrowStack], Declarations(0, n));
    assert g[1][0 + 0] == [CallGrowStack][0];
    var c2, c3 := At(1, 0, 0, regs, m), At(1, 1, 0, regs, m.(frame := []));
    Chain(w, g, c2);
    DeclarationsRun(w, g, Pos(1, 1), 0, n, 0, regs, c3.m);
    ReachTrans(w, g, c2, c3, At(1, 1 + 2 * n, 0, regs, Memory(m.heap, Nulled(m.slots, 0, n), [])));
  }

  lemma EpilogueRuns(w: World, g: Code, c: Conf, q: Pos, m: Memory)
    requires Arrives(w, g, c, q, m) && Has(g, q, [CallRestoreStack, RetVoid])
    ensures match Release(m, m.frame)
      case None => Reach(w, g, c, Crashed)
      case Some(m') => Reach(w, g, c, Returned(m'))
  {
    var prev, regs :| Reach(w, g, c, At(q.b, q.i, prev, regs, m));
    var d := At(q.b, q.i, prev, regs, m);
    var end := if Release(m, m.frame).None? then Crashed else Returned(Release(m, m.frame).value);
    RestoreRuns(w, g, q, prev, regs, m);
    ReachTrans(w, g, c, d, end);
  }

  lemma RestoreRuns(w: World, g: Code, q: Pos, prev: Label, regs: Regs, m: Memory)
    requires Has(g, q, [CallRestoreStack, RetVoid])
    ensures Reach(w, g, At(q.b, q.i, prev, regs, m),
              if Release(m, m.frame).None? then Crashed else Returned(Release(m, m.frame).value))
  {
    var code, c := [CallRestoreStack, RetVoid], At(q.b, q.i, prev, regs, m);
    assert g[q.b][q.i + 0] == code[0] && g[q.b][q.i + 1] == code[1];
    Chain(w, g, c);
    match Release(m, m.frame)
    case None => assert Step(w, g, c) == Crashed;
    case Some(m') =>
      assert Step(w, g, c) == At(q.b, q.i + 1, prev, regs, m');
      assert Step(w, g, Step(w, g, c)) == Returned(m');
  }
}
