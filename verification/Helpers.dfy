/**
 The instruction sequences the helper emissions append, and what running them does.
 */
module Helpers {
  import opened Wrappers
  import opened Zval
  import opened Ir

  /** The instructions each helper appends, using registers r, r + 1, ... */
  function OpCode(op: Op, r: Reg): seq<Instr> {
    match op
    case AddRef(s) => [LoadSlot(r, s), LoadRefcount(r + 1, r), AddConst(r + 2, r + 1, 1), StoreRefcount(r, r + 2)]
    case DelRef(s) => [LoadSlot(r, s), LoadRefcount(r + 1, r), AddConst(r + 2, r + 1, -1), StoreRefcount(r, r + 2)]
    case SetRefcount(s, n) => [LoadSlot(r, s), StoreRefcountConst(r, n)]
    case UnsetIsref(s) => [LoadSlot(r, s), StoreIsrefZero(r)]
    case SetNull(s) => [LoadSlot(r, s), StoreTag(r, NullTag)]
    case SetBool(s, b) => [LoadSlot(r, s), StoreTag(r, BoolTag), LoadSlot(r + 1, s), StoreLong(r + 1, Extended(b))]
    case SetLong(s, n) => [LoadSlot(r, s), StoreTag(r, LongTag), LoadSlot(r + 1, s), StoreLong(r + 1, n)]
    case SetDouble(s, d) => [LoadSlot(r, s), StoreTag(r, DoubleTag), LoadSlot(r + 1, s), StoreDouble(r + 1, d)]
    case Emalloc(s) => [CallEmalloc(r), StoreSlot(r, s)]
    case Dtor(s) => [LoadSlot(r, s), CallDtor(r)]
    case PtrDtor(s) => [CallPtrDtor(s)]
    case MemoryAlloc(s) => [CallMemoryAlloc(s)]
    case Observe(s) => [CallObserve(s)]
    case Assign(dst, src) => [LoadSlot(r, src), StoreSlot(r, dst)]
    case Declare(s) => [Alloca(s), StoreNullPointer(s)]
  }

  lemma Chain(w: World, g: Code, c: Conf)
    ensures Reach(w, g, c, Step(w, g, c))
    ensures Reach(w, g, c, Step(w, g, Step(w, g, c)))
  {
    var c1 := Step(w, g, c);
    var c2 := Step(w, g, c1);
    ReachSelf(w, g, c1); ReachStep(w, g, c, c1);
    ReachSelf(w, g, c2); ReachStep(w, g, c1, c2); ReachStep(w, g, c, c2);
  }

  ghost predicate Has(g: Code, p: Pos, code: seq<Instr>) {
    p.b < |g| && p.i + |code| <= |g[p.b]| && forall k :: 0 <= k < |code| ==> g[p.b][p.i + k] == code[k]
  }

  /** A helper's instructions do what the helper means. */
  lemma OpRuns(g: Code, p: Pos, op: Op, r: Reg)
    requires Has(g, p, OpCode(op, r))
    ensures Simulates(g, p, Pos(p.b, p.i + |OpCode(op, r)|), Do(op))
  {
    forall w: World, prev: Label, regs: Regs, m: Memory, fuel: nat
      ensures Follows(w, g, At(p.b, p.i, prev, regs, m), Pos(p.b, p.i + |OpCode(op, r)|), Exec(w, Do(op), m, fuel))
    {
      OpRunsFrom(w, g, p, op, r, prev, regs, m);
    }
  }

  ghost predicate Runs(w: World, g: Code, p: Pos, k: nat, op: Op, c: Conf)
    requires c.At?
  {
    Follows(w, g, c, Pos(p.b, p.i + k), Exec(w, Do(op), c.m, 0))
  }

  lemma OpRunsFrom(w: World, g: Code, p: Pos, op: Op, r: Reg, prev: Label, regs: Regs, m: Memory)
    requires Has(g, p, OpCode(op, r))
    ensures Runs(w, g, p, |OpCode(op, r)|, op, At(p.b, p.i, prev, regs, m))
  {
    match op
    case AddRef(_) => CountOpRuns(w, g, p, op, 1, r, prev, regs, m);
    case DelRef(_) => CountOpRuns(w, g, p, op, -1, r, prev, regs, m);
    case SetBool(s, v) => BoolOpRuns(w, g, p, s, v, r, prev, regs, m);
    case SetLong(s, v) => LongOpRuns(w, g, p, s, v, r, prev, regs, m);
    case SetDouble(s, v) => DoubleOpRuns(w, g, p, s, v, r, prev, regs, m);
    case SetRefcount(_, _) => WriteOpRuns(w, g, p, op, r, prev, regs, m);
    case UnsetIsref(_) => WriteOpRuns(w, g, p, op, r, prev, regs, m);
    case SetNull(_) => WriteOpRuns(w, g, p, op, r, prev, regs, m);
    case Dtor(_) => WriteOpRuns(w, g, p, op, r, prev, regs, m);
    case _ => SlotOpRuns(w, g, p, op, r, prev, regs, m);
  }

  /** Instructions that go through the pointer register `ptr`. */
  predicate GoesThrough(i: Instr, r: Reg) {
    match i
    case LoadRefcount(_, ptr) => ptr == r
    case StoreRefcount(ptr, _) => ptr == r
    case StoreRefcountConst(ptr, _) => ptr == r
    case StoreIsrefZero(ptr) => ptr == r
    case LoadTag(_, ptr) => ptr == r
    case StoreTag(ptr, _) => ptr == r
    case LoadLong(_, ptr) => ptr == r
    case StoreLong(ptr, _) => ptr == r
    case LoadDouble(_, ptr) => ptr == r
    case StoreDouble(ptr, _) => ptr == r
    case CallDtor(ptr) => ptr == r
    case CallIsTrue(_, ptr) => ptr == r
    case CallIntval(_, ptr) => ptr == r
    case CallDoubleval(_, ptr) => ptr == r
    case _ => false
  }

  /** Loading a slot and using the pointer: crashes unless the slot points to a live zval. */
  function LoadedThen(w: World, c: Conf, s: Slot, r: Reg, i: Instr): Conf
    requires c.At?
  {
    match Deref(c.m, s)
    case None => Crashed
    case Some(a) => StepAt(w, i, Set(c, r, Pointer(Some(a))), a)
  }

  lemma LoadThen(w: World, g: Code, c: Conf, s: Slot, r: Reg, i: Instr)
    requires c.At? && Has(g, Pos(c.block, c.pc), [LoadSlot(r, s), i]) && GoesThrough(i, r)
    ensures Reach(w, g, c, LoadedThen(w, c, s, r, i))
  {
    assert g[c.block][c.pc] == [LoadSlot(r, s), i][0];
    assert g[c.block][c.pc + 1] == [LoadSlot(r, s), i][1];
    Chain(w, g, c);
  }

  lemma HasPart(g: Code, p: Pos, code: seq<Instr>, k: nat, n: nat)
    requires Has(g, p, code) && k + n <= |code|
    ensures Has(g, Pos(p.b, p.i + k), code[k..k + n])
  {
    var part := code[k..k + n];
    forall j | 0 <= j < n
      ensures g[p.b][p.i + k + j] == part[j]
    {
      assert g[p.b][p.i + (k + j)] == code[k + j];
    }
  }

  lemma HasSplit(g: Code, p: Pos, front: seq<Instr>, back: seq<Instr>)
    requires Has(g, p, front + back)
    ensures Has(g, p, front) && Has(g, Pos(p.b, p.i + |front|), back)
  {
    HasPart(g, p, front + back, 0, |front|);
    HasPart(g, p, front + back, |front|, |back|);
    assert (front + back)[0..0 + |front|] == front;
    assert (front + back)[|front|..|front| + |back|] == back;
  }

  lemma HasCount(g: Code, p: Pos, op: Op, k: int, r: Reg)
    requires (op.AddRef? && k == 1) || (op.DelRef? && k == -1)
    requires Has(g, p, OpCode(op, r))
    ensures Has(g, p, [LoadSlot(r, op.s), LoadRefcount(r + 1, r)])
    ensures Has(g, Pos(p.b, p.i + 2), [AddConst(r + 2, r + 1, k), StoreRefcount(r, r + 2)])
  {
    HasPart(g, p, OpCode(op, r), 0, 2);
    HasPart(g, p, OpCode(op, r), 2, 2);
    assert OpCode(op, r)[0..2] == [LoadSlot(r, op.s), LoadRefcount(r + 1, r)];
    assert OpCode(op, r)[2..4] == [AddConst(r + 2, r + 1, k), StoreRefcount(r, r + 2)];
  }

  lemma CountOpRuns(w: World, g: Code, p: Pos, op: Op, k: int, r: Reg, prev: Label, regs: Regs, m: Memory)
    requires (op.AddRef? && k == 1) || (op.DelRef? && k == -1)
    requires Has(g, p, OpCode(op, r))
    ensures Runs(w, g, p, 4, op, At(p.b, p.i, prev, regs, m))
  {
    var c0 := At(p.b, p.i, prev, regs, m);
    HasCount(g, p, op, k, r);
    LoadThen(w, g, c0, op.s, r, LoadRefcount(r + 1, r));
    var c2 := LoadedThen(w, c0, op.s, r, LoadRefcount(r + 1, r));
    if c2.At? {
      AddThenStore(w, g, c2, k, r, m.slots[op.s].value, m.heap[m.slots[op.s].value].refcount);
      ReachTrans(w, g, c0, c2, At(p.b, p.i + 4, prev,
        c2.regs[r + 2 := Int((m.heap[m.slots[op.s].value].refcount + k) % WORD)], Apply(w, op, m).value));
    }
  }

  lemma AddThenStore(w: World, g: Code, c: Conf, k: int, r: Reg, a: Addr, n: nat)
    requires c.At? && Has(g, Pos(c.block, c.pc), [AddConst(r + 2, r + 1, k), StoreRefcount(r, r + 2)])
    requires r in c.regs && c.regs[r] == Pointer(Some(a)) && r + 1 in c.regs && c.regs[r + 1] == Int(n)
    requires a in c.m.heap
    ensures Reach(w, g, c, At(c.block, c.pc + 2, c.prev, c.regs[r + 2 := Int((n + k) % WORD)],
              c.m.(heap := c.m.heap[a := c.m.heap[a].(refcount := (n + k) % WORD)])))
  {
    var code := [AddConst(r + 2, r + 1, k), StoreRefcount(r, r + 2)];
    assert g[c.block][c.pc] == code[0] && g[c.block][c.pc + 1] == code[1];
    Chain(w, g, c);
  }

  lemma BoolOpRuns(w: World, g: Code, p: Pos, s: Slot, b: bool, r: Reg, prev: Label, regs: Regs, m: Memory)
    requires Has(g, p, OpCode(SetBool(s, b), r))
    ensures Runs(w, g, p, 4, SetBool(s, b), At(p.b, p.i, prev, regs, m))
  {
    TwoWritesRun(w, g, p, SetBool(s, b), StoreTag(r, BoolTag), StoreLong(r + 1, Extended(b)), r, prev, regs, m);
  }

  lemma LongOpRuns(w: World, g: Code, p: Pos, s: Slot, n: int, r: Reg, prev: Label, regs: Regs, m: Memory)
    requires Has(g, p, OpCode(SetLong(s, n), r))
    ensures Runs(w, g, p, 4, SetLong(s, n), At(p.b, p.i, prev, regs, m))
  {
    TwoWritesRun(w, g, p, SetLong(s, n), StoreTag(r, LongTag), StoreLong(r + 1, n), r, prev, regs, m);
  }

  lemma DoubleOpRuns(w: World, g: Code, p: Pos, s: Slot, d: real, r: Reg, prev: Label, regs: Regs, m: Memory)
    requires Has(g, p, OpCode(SetDouble(s, d), r))
    ensures Runs(w, g, p, 4, SetDouble(s, d), At(p.b, p.i, prev, regs, m))
  {
    TwoWritesRun(w, g, p, SetDouble(s, d), StoreTag(r, DoubleTag), StoreDouble(r + 1, d), r, prev, regs, m);
  }

  lemma RunsTo(w: World, g: Code, p: Pos, k: nat, op: Op, c: Conf, to: Conf)
    requires c.At? && to.At? && to.block == p.b && to.pc == p.i + k
    requires Reach(w, g, c, to) && Apply(w, op, c.m) == Some(to.m)
    ensures Runs(w, g, p, k, op, c)
  {
  }

  /** Setting the tag and then the payload, through the same pointer. */
  predicate TwoWrites(op: Op, i1: Instr, i2: Instr, r: Reg) {
    || (op.SetBool? && i1 == StoreTag(r, BoolTag) && i2 == StoreLong(r + 1, Extended(op.flag)))
    || (op.SetLong? && i1 == StoreTag(r, LongTag) && i2 == StoreLong(r + 1, op.long))
    || (op.SetDouble? && i1 == StoreTag(r, DoubleTag) && i2 == StoreDouble(r + 1, op.double))
  }

  lemma TwoWritesMean(w: World, op: Op, i1: Instr, i2: Instr, r: Reg, c: Conf)
    requires c.At? && TwoWrites(op, i1, i2, r) && Deref(c.m, op.s).Some?
    ensures var c2 := LoadedThen(w, c, op.s, r, i1);
      c2.At? && c2.block == c.block && c2.pc == c.pc + 2 &&
      var c4 := LoadedThen(w, c2, op.s, r + 1, i2);
      c4.At? && c4.block == c.block && c4.pc == c.pc + 4 && Apply(w, op, c.m) == Some(c4.m)
  {
    var a := c.m.slots[op.s].value;
    var c2 := LoadedThen(w, c, op.s, r, i1);
    TagWritten(w, c, op.s, r, i1.tag);
    PayloadWritten(w, c2, op.s, r + 1, i2);
    var z := c.m.heap[a].(tag := i1.tag);
    var written := z.(payload := if i2.StoreLong? then Long(i2.long) else Double(i2.double));
    assert c2.m.heap[a := written] == c.m.heap[a := written];
  }

  lemma TagWritten(w: World, c: Conf, s: Slot, r: Reg, tag: Tag)
    requires c.At? && Deref(c.m, s).Some?
    ensures var a, to := c.m.slots[s].value, LoadedThen(w, c, s, r, StoreTag(r, tag));
      to.At? && to.block == c.block && to.pc == c.pc + 2 && to.m == c.m.(heap := c.m.heap[a := c.m.heap[a].(tag := tag)])
  {
  }

  lemma PayloadWritten(w: World, c: Conf, s: Slot, r: Reg, i: Instr)
    requires c.At? && Deref(c.m, s).Some? && (i.StoreLong? || i.StoreDouble?)
    ensures var a, to := c.m.slots[s].value, LoadedThen(w, c, s, r, i);
      var payload := if i.StoreLong? then Long(i.long) else Double(i.double);
      to.At? && to.block == c.block && to.pc == c.pc + 2 && to.m == c.m.(heap := c.m.heap[a := c.m.heap[a].(payload := payload)])
  {
  }

  lemma TwoWritesRun(w: World, g: Code, p: Pos, op: Op, i1: Instr, i2: Instr, r: Reg, prev: Label, regs: Regs, m: Memory)
    requires TwoWrites(op, i1, i2, r)
    requires Has(g, p, [LoadSlot(r, op.s), i1, LoadSlot(r + 1, op.s), i2])
    ensures Runs(w, g, p, 4, op, At(p.b, p.i, prev, regs, m))
  {
    var code := [LoadSlot(r, op.s), i1, LoadSlot(r + 1, op.s), i2];
    var c0 := At(p.b, p.i, prev, regs, m);
    HasPart(g, p, code, 0, 2);
    HasPart(g, p, code, 2, 2);
    assert code[0..2] == [LoadSlot(r, op.s), i1] && code[2..4] == [LoadSlot(r + 1, op.s), i2];
    LoadThen(w, g, c0, op.s, r, i1);
    if Deref(m, op.s).Some? {
      TwoWritesMean(w, op, i1, i2, r, c0);
      var c2 := LoadedThen(w, c0, op.s, r, i1);
      LoadThen(w, g, c2, op.s, r + 1, i2);
      var c4 := LoadedThen(w, c2, op.s, r + 1, i2);
      ReachTrans(w, g, c0, c2, c4);
      RunsTo(w, g, p, 4, op, c0, c4);
    }
  }

  lemma WriteOpRuns(w: World, g: Code, p: Pos, op: Op, r: Reg, prev: Label, regs: Regs, m: Memory)
    requires op.SetRefcount? || op.UnsetIsref? || op.SetNull? || op.Dtor?
    requires Has(g, p, OpCode(op, r))
    ensures Runs(w, g, p, 2, op, At(p.b, p.i, prev, regs, m))
  {
    assert OpCode(op, r) == [LoadSlot(r, op.s), OpCode(op, r)[1]];
    LoadThen(w, g, At(p.b, p.i, prev, regs, m), op.s, r, OpCode(op, r)[1]);
  }

  lemma SlotOpRuns(w: World, g: Code, p: Pos, op: Op, r: Reg, prev: Label, regs: Regs, m: Memory)
    requires op.Emalloc? || op.PtrDtor? || op.MemoryAlloc? || op.Observe? || op.Assign? || op.Declare?
    requires Has(g, p, OpCode(op, r))
    ensures Runs(w, g, p, |OpCode(op, r)|, op, At(p.b, p.i, prev, regs, m))
  {
    var code := OpCode(op, r);
    var c0 := At(p.b, p.i, prev, regs, m);
    Chain(w, g, c0);
    assert g[p.b][p.i] == code[0];
    var c1 := Step(w, g, c0);
    if |code| == 2 {
      assert g[p.b][p.i + 1] == code[1];
      var c2 := Step(w, g, c1);
      match Apply(w, op, m)
      case None => assert c1 == Crashed || c2 == Crashed;
      case Some(m') => assert c2 == At(p.b, p.i + 2, prev, c1.regs, m');
    } else {
      match Apply(w, op, m)
      case None => assert c1 == Crashed;
      case Some(m') => assert c1 == At(p.b, p.i + 1, prev, regs, m');
    }
  }
}
