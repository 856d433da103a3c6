/**
 The intermediate code the builder appends to: basic blocks of instructions over registers,
 each block closed by one terminator.  An address computation and the access through it are
 one instruction here.
 */
module Ir {
  import opened Wrappers
  import opened Zval

  type Reg = nat
  type Label = nat

  datatype Instr =
    | Alloca(s: Slot)
    | StoreNullPointer(s: Slot)
    | LoadSlot(dst: Reg, s: Slot)
    | StoreSlot(src: Reg, s: Slot)
    | IsNotNull(dst: Reg, src: Reg)
    | LoadRefcount(dst: Reg, ptr: Reg)
    | StoreRefcount(ptr: Reg, src: Reg)
    | StoreRefcountConst(ptr: Reg, n: nat)
    | StoreIsrefZero(ptr: Reg)
    | LoadTag(dst: Reg, ptr: Reg)
    | StoreTag(ptr: Reg, tag: Tag)
    | LoadLong(dst: Reg, ptr: Reg)
    | StoreLong(ptr: Reg, long: int)
    | LoadDouble(dst: Reg, ptr: Reg)
    | StoreDouble(ptr: Reg, double: real)
    | AddConst(dst: Reg, src: Reg, k: int)
    | CmpAbove(dst: Reg, src: Reg, n: nat)
    | CmpNotZero(dst: Reg, src: Reg)
    | CmpTag(dst: Reg, src: Reg, tag: Tag)
    | CallEmalloc(dst: Reg)
    | CallDtor(ptr: Reg)
    | CallPtrDtor(s: Slot)
    | CallMemoryAlloc(s: Slot)
    | CallObserve(s: Slot)
    | CallIsTrue(dst: Reg, ptr: Reg)
    | CallIntval(dst: Reg, ptr: Reg)
    | CallDoubleval(dst: Reg, ptr: Reg)
    | Phi(dst: Reg, r1: Reg, from1: Label, r2: Reg, from2: Label)
    | CallGrowStack
    | CallRestoreStack
    | Br(to: Label)
    | CondBr(cond: Reg, thn: Label, els: Label)
    | RetVoid

  type Code = seq<seq<Instr>>

  predicate IsTerminator(i: Instr) { i.Br? || i.CondBr? || i.RetVoid? }

  /** A block still being filled: no terminator yet. */
  ghost predicate Open(block: seq<Instr>) {
    forall i :: 0 <= i < |block| ==> !IsTerminator(block[i])
  }

  /** A finished block: exactly one terminator, and it comes last. */
  ghost predicate Closed(block: seq<Instr>) {
    block != [] && Open(block[..|block| - 1]) && IsTerminator(block[|block| - 1])
  }

  datatype Value = Pointer(a: Option<Addr>) | Int(n: int) | Real(d: real) | Bool(b: bool) | TagOf(tag: Tag)

  type Regs = map<Reg, Value>

  /** `prev` is the block control came from, which is what a phi looks at. */
  datatype Conf =
    | At(block: Label, pc: nat, prev: Label, regs: Regs, m: Memory)
    | Returned(final: Memory)
    | Crashed
    | Stuck

  /** One instruction.  Running past the emitted code, or using a register wrongly, is Stuck. */
  function Step(w: World, g: Code, c: Conf): Conf {
    if !c.At? then c
    else if c.block >= |g| || c.pc >= |g[c.block]| then Stuck
    else StepInstr(w, g[c.block][c.pc], c)
  }

  function Next(c: Conf): Conf requires c.At? { c.(pc := c.pc + 1) }

  function Set(c: Conf, r: Reg, v: Value): Conf requires c.At? { c.(pc := c.pc + 1, regs := c.regs[r := v]) }

  function OrCrash(c: Conf, m: Option<Memory>): Conf requires c.At? {
    match m case None => Crashed case Some(m1) => c.(pc := c.pc + 1, m := m1)
  }

  /** The pointer in a register, when it is not null and its target is live. */
  function Target(c: Conf, r: Reg): Option<Addr>
    requires c.At? && r in c.regs && c.regs[r].Pointer?
    ensures Target(c, r).Some? ==> Target(c, r).value in c.m.heap
  {
    var a := c.regs[r].a;
    if a.Some? && a.value in c.m.heap then a else None
  }

  function IsPointer(c: Conf, r: Reg): bool requires c.At? { r in c.regs && c.regs[r].Pointer? }

  function IsInt(c: Conf, r: Reg): bool requires c.At? { r in c.regs && c.regs[r].Int? }

  function StepInstr(w: World, i: Instr, c: Conf): Conf
    requires c.At?
  {
    match i
    case Alloca(s) => Next(c)
    case StoreNullPointer(s) => c.(pc := c.pc + 1, m := c.m.(slots := c.m.slots[s := None]))
    case LoadSlot(dst, s) => if s in c.m.slots then Set(c, dst, Pointer(c.m.slots[s])) else Crashed
    case StoreSlot(src, s) =>
      if !IsPointer(c, src) then Stuck
      else if s in c.m.slots then c.(pc := c.pc + 1, m := c.m.(slots := c.m.slots[s := c.regs[src].a])) else Crashed
    case IsNotNull(dst, src) => if IsPointer(c, src) then Set(c, dst, Bool(c.regs[src].a.Some?)) else Stuck
    case AddConst(dst, src, k) => if IsInt(c, src) then Set(c, dst, Int((c.regs[src].n + k) % WORD)) else Stuck
    case CmpAbove(dst, src, n) => if IsInt(c, src) then Set(c, dst, Bool(c.regs[src].n > n)) else Stuck
    case CmpNotZero(dst, src) => if IsInt(c, src) then Set(c, dst, Bool(c.regs[src].n != 0)) else Stuck
    case CmpTag(dst, src, tag) =>
      if src in c.regs && c.regs[src].TagOf? then Set(c, dst, Bool(c.regs[src].tag == tag)) else Stuck
    case CallEmalloc(dst) =>
      var a := w.alloc(c.m.heap.Keys);
      Set(c, dst, Pointer(Some(a))).(m := c.m.(heap := c.m.heap[a := w.garbage(a)]))
    case CallPtrDtor(s) => OrCrash(c, Apply(w, PtrDtor(s), c.m))
    case CallMemoryAlloc(s) => OrCrash(c, Apply(w, MemoryAlloc(s), c.m))
    case CallObserve(s) => OrCrash(c, Apply(w, Observe(s), c.m))
    case Phi(dst, r1, from1, r2, from2) =>
      if c.prev == from1 && r1 in c.regs then Set(c, dst, c.regs[r1])
      else if c.prev == from2 && r2 in c.regs then Set(c, dst, c.regs[r2])
      else Stuck
    case Br(to) => Jump(c, to)
    case CondBr(cond, thn, els) =>
      if cond in c.regs && c.regs[cond].Bool? then Jump(c, if c.regs[cond].b then thn else els) else Stuck
    case RetVoid => Returned(c.m)
    case CallGrowStack => c.(pc := c.pc + 1, m := c.m.(frame := []))
    case CallRestoreStack => OrCrash(c, Release(c.m, c.m.frame))
    case _ =>
      if !IsPointer(c, i.ptr) then Stuck
      else match Target(c, i.ptr)
        case None => Crashed
        case Some(a) => StepAt(w, i, c, a)
  }

  function Jump(c: Conf, to: Label): Conf requires c.At? { At(to, 0, c.block, c.regs, c.m) }

  /** Instructions that go through a pointer register. */
  function StepAt(w: World, i: Instr, c: Conf, a: Addr): Conf
    requires c.At? && a in c.m.heap
  {
    var z := c.m.heap[a];
    match i
    case LoadRefcount(dst, _) => Set(c, dst, Int(z.refcount))
    case StoreRefcount(_, src) =>
      if IsInt(c, src) && c.regs[src].n >= 0 then WriteAt(c, a, z.(refcount := c.regs[src].n)) else Stuck
    case StoreRefcountConst(_, n) => WriteAt(c, a, z.(refcount := n))
    case StoreIsrefZero(_) => WriteAt(c, a, z.(isref := false))
    case LoadTag(dst, _) => Set(c, dst, TagOf(z.tag))
    case StoreTag(_, tag) => WriteAt(c, a, z.(tag := tag))
    case LoadLong(dst, _) => if z.payload.Long? then Set(c, dst, Int(z.payload.n)) else Stuck
    case StoreLong(_, long) => WriteAt(c, a, z.(payload := Long(long)))
    case LoadDouble(dst, _) => if z.payload.Double? then Set(c, dst, Real(z.payload.d)) else Stuck
    case StoreDouble(_, double) => WriteAt(c, a, z.(payload := Double(double)))
    case CallDtor(_) => WriteAt(c, a, z.(payload := w.scrap(z)))
    case CallIsTrue(dst, _) => Set(c, dst, Int(w.isTrue(z)))
    case CallIntval(dst, _) => Set(c, dst, Int(w.intval(z)))
    case CallDoubleval(dst, _) => Set(c, dst, Real(w.doubleval(z)))
    case _ => Stuck
  }

  function WriteAt(c: Conf, a: Addr, z: Zval): Conf
    requires c.At?
  {
    c.(pc := c.pc + 1, m := c.m.(heap := c.m.heap[a := z]))
  }

  function Steps(w: World, g: Code, c: Conf, n: nat): Conf
    decreases n
  {
    if n == 0 then c else Steps(w, g, Step(w, g, c), n - 1)
  }

  ghost predicate Reach(w: World, g: Code, c: Conf, d: Conf) {
    exists n: nat :: Steps(w, g, c, n) == d
  }

  lemma ReachSelf(w: World, g: Code, c: Conf)
    ensures Reach(w, g, c, c)
  {
    assert Steps(w, g, c, 0) == c;
  }

  lemma ReachStep(w: World, g: Code, c: Conf, d: Conf)
    requires Reach(w, g, Step(w, g, c), d)
    ensures Reach(w, g, c, d)
  {
    var n: nat :| Steps(w, g, Step(w, g, c), n) == d;
    assert Steps(w, g, c, n + 1) == d;
  }

  lemma {:induction false} StepsAdd(w: World, g: Code, c: Conf, n: nat, k: nat)
    ensures Steps(w, g, c, n + k) == Steps(w, g, Steps(w, g, c, n), k)
    decreases n
  {
    if n > 0 { StepsAdd(w, g, Step(w, g, c), n - 1, k); }
  }

  lemma ReachTrans(w: World, g: Code, c: Conf, d: Conf, e: Conf)
    requires Reach(w, g, c, d) && Reach(w, g, d, e)
    ensures Reach(w, g, c, e)
  {
    var n: nat :| Steps(w, g, c, n) == d;
    var k: nat :| Steps(w, g, d, k) == e;
    StepsAdd(w, g, c, n, k);
    assert Steps(w, g, c, n + k) == e;
  }

  /** Emission only ever appends: blocks at the end, instructions at the end of blocks. */
  ghost predicate Extends(g: Code, h: Code) {
    |g| <= |h| && forall b :: 0 <= b < |g| ==> g[b] <= h[b]
  }

  lemma {:induction false} StepsExtend(w: World, g: Code, h: Code, c: Conf, n: nat)
    requires Extends(g, h) && Steps(w, g, c, n) != Stuck
    ensures Steps(w, h, c, n) == Steps(w, g, c, n)
    decreases n
  {
    if n > 0 {
      if Step(w, g, c) == Stuck { StuckForever(w, g, n - 1); }
      assert c.At? ==> c.block < |g| && c.pc < |g[c.block]|;
      StepsExtend(w, g, h, Step(w, g, c), n - 1);
    }
  }

  lemma {:induction false} StuckForever(w: World, g: Code, n: nat)
    ensures Steps(w, g, Stuck, n) == Stuck
  {
    if n > 0 { StuckForever(w, g, n - 1); }
  }

  /** A run stays a run when more code is emitted. */
  lemma ReachExtend(w: World, g: Code, h: Code, c: Conf, d: Conf)
    requires Extends(g, h) && Reach(w, g, c, d) && d != Stuck
    ensures Reach(w, h, c, d)
  {
    var n: nat :| Steps(w, g, c, n) == d;
    StepsExtend(w, g, h, c, n);
    assert Steps(w, h, c, n) == d;
  }

  /** The code is deterministic: final configurations are unique. */
  lemma {:induction false} FinalUnique(w: World, g: Code, c: Conf, d: Conf, e: Conf)
    requires Reach(w, g, c, d) && Reach(w, g, c, e) && !d.At? && !e.At?
    ensures d == e
  {
    var n: nat :| Steps(w, g, c, n) == d;
    var k: nat :| Steps(w, g, c, k) == e;
    if n <= k { StepsAdd(w, g, c, n, k - n); FinalStays(w, g, d, k - n); }
    else { StepsAdd(w, g, c, k, n - k); FinalStays(w, g, e, n - k); }
  }

  lemma {:induction false} FinalStays(w: World, g: Code, c: Conf, n: nat)
    requires !c.At?
    ensures Steps(w, g, c, n) == c
  {
    if n > 0 { FinalStays(w, g, c, n - 1); }
  }

  /** A place in the code: a block and an index in it. */
  datatype Pos = Pos(b: Label, i: nat)

  ghost predicate Arrives(w: World, g: Code, c: Conf, p: Pos, m: Memory) {
    exists prev, regs :: Reach(w, g, c, At(p.b, p.i, prev, regs, m))
  }

  /** The code from p to q behaves like command c: same final memory, same crashes, in every world. */
  ghost predicate Simulates(g: Code, p: Pos, q: Pos, c: Cmd) {
    forall w: World, prev: Label, regs: Regs, m: Memory, fuel: nat ::
      Follows(w, g, At(p.b, p.i, prev, regs, m), q, Exec(w, c, m, fuel))
  }

  ghost predicate Follows(w: World, g: Code, c: Conf, q: Pos, r: Result) {
    match r
    case Done(m) => Arrives(w, g, c, q, m)
    case Crash => Reach(w, g, c, Crashed)
    case Timeout => true
  }
}
