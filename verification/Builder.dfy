/**
 The instruction builder of the runtime: an insertion point moving over the blocks of the
 function being compiled.  Each build method appends code and says which command it simulates.
 */
module Builder {
  import opened Wrappers
  import opened Zval
  import opened Ir
  import opened Helpers
  import opened Simulation

  /** Straight-line code that behaves like command c wherever it stands. */
  ghost predicate Means(code: seq<Instr>, c: Cmd) {
    Open(code) && forall g, p :: Has(g, p, code) ==> Simulates(g, p, Pos(p.b, p.i + |code|), c)
  }

  /** No helper emits a terminator. */
  lemma OpCodeIsOpen(op: Op, r: Reg)
    ensures Open(OpCode(op, r))
  {
  }

  lemma OpMeans(op: Op, r: Reg)
    ensures Means(OpCode(op, r), Do(op))
  {
    OpCodeIsOpen(op, r);
    forall g, p | Has(g, p, OpCode(op, r))
      ensures Simulates(g, p, Pos(p.b, p.i + |OpCode(op, r)|), Do(op))
    {
      OpRuns(g, p, op, r);
    }
  }

  lemma MeansThen(first: seq<Instr>, second: seq<Instr>, c1: Cmd, c2: Cmd)
    requires Means(first, c1) && Means(second, c2)
    ensures Means(first + second, Then(c1, c2))
  {
    forall g, p | Has(g, p, first + second)
      ensures Simulates(g, p, Pos(p.b, p.i + |first + second|), Then(c1, c2))
    {
      HasSplit(g, p, first, second);
      SimulatesThen(g, p, Pos(p.b, p.i + |first|), Pos(p.b, p.i + |first + second|), c1, c2);
    }
  }

  /** A block of straight-line code and a jump. */
  lemma MeansJump(g: Code, b: Label, code: seq<Instr>, to: Label, c: Cmd)
    requires b < |g| && Means(code, c) && g[b] == code + [Br(to)]
    ensures Simulates(g, Pos(b, 0), Pos(to, 0), c)
    ensures Closed(g[b])
  {
    HasSplit(g, Pos(b, 0), code, [Br(to)]);
    SimulatesJump(g, Pos(b, 0), Pos(b, |code|), to, c);
    ClosedByTail(code, [Br(to)]);
  }

  lemma ClosedByTail(code: seq<Instr>, tail: seq<Instr>)
    requires Open(code) && Closed(tail)
    ensures Closed(code + tail)
  {
    assert (code + tail)[..|code + tail| - 1] == code + tail[..|tail| - 1];
  }

  /**
   From (g, at) to (h, to): code is only appended, to the block at the insertion point and to new
   blocks; the block left behind and every new block but the last are closed by one terminator.
   */
  ghost predicate Grows(g: Code, at: Label, h: Code, to: Label) {
    && at < |g| <= |h| && to < |h|
    && Open(g[at]) && Open(h[to]) && g[at] <= h[at]
    && (forall b :: 0 <= b < |g| && b != at ==> h[b] == g[b])
    && (to != at ==> |g| <= to && Closed(h[at]))
    && (forall b :: |g| <= b < |h| && b != to ==> Closed(h[b]))
  }

  lemma GrowsExtends(g: Code, at: Label, h: Code, to: Label)
    requires Grows(g, at, h, to)
    ensures Extends(g, h)
  {
  }

  class Builder {
    var blocks: Code
    var at: Label
    var registers: Reg

    ghost predicate Valid()
      reads this
    {
      at < |blocks| && Open(blocks[at])
    }

    ghost function Here(): Pos
      reads this
      requires Valid()
    {
      Pos(at, |blocks[at]|)
    }

    constructor ()
      ensures Valid() && blocks == [[]] && at == 0
    {
      blocks, at, registers := [[]], 0, 0;
    }

    /** A new empty block, last. */
    method AppendBlock() returns (b: Label)
      modifies this`blocks
      ensures b == |old(blocks)| && |blocks| == b + 1 && blocks[b] == []
      ensures forall c :: 0 <= c < b ==> blocks[c] == old(blocks[c])
    {
      b := |blocks|;
      blocks := blocks + [[]];
    }

    method PositionAtEnd(b: Label)
      modifies this`at
      ensures at == b
    {
      at := b;
    }

    /** The effect of every append: the block at the insertion point grows by `code`. */
    twostate predicate Appended(code: seq<Instr>)
      reads this
    {
      && old(at) == at < |blocks| == |old(blocks)|
      && blocks[at] == old(blocks[at]) + code
      && forall b :: 0 <= b < |blocks| && b != at ==> blocks[b] == old(blocks[b])
    }

    method Append(i: Instr)
      requires Valid()
      modifies this`blocks
      ensures Appended([i])
    {
      blocks := blocks[at := blocks[at] + [i]];
    }

    method AppendTwo(i: Instr, j: Instr)
      requires Valid() && !IsTerminator(i)
      modifies this`blocks
      ensures Appended([i, j])
    {
      Append(i);
      Append(j);
    }

    method AppendFour(i: Instr, j: Instr, k: Instr, l: Instr)
      requires Valid() && !IsTerminator(i) && !IsTerminator(j) && !IsTerminator(k)
      modifies this`blocks
      ensures Appended([i, j, k, l])
    {
      AppendTwo(i, j);
      AppendTwo(k, l);
    }

    /** Z_ADDREF_P */
    method ZvalAddref(s: Slot) returns (ghost code: seq<Instr>)
      requires Valid()
      modifies this`blocks, this`registers
      ensures Appended(code) && Means(code, Do(AddRef(s)))
    {
      code := OpCode(AddRef(s), registers);
      OpMeans(AddRef(s), registers);
      AppendFour(LoadSlot(registers, s), LoadRefcount(registers + 1, registers), AddConst(registers + 2, registers + 1, 1), StoreRefcount(registers, registers + 2));
      registers := registers + 3;
    }

    /** Z_DELREF_P */
    method ZvalDelref(s: Slot) returns (ghost code: seq<Instr>)
      requires Valid()
      modifies this`blocks, this`registers
      ensures Appended(code) && Means(code, Do(DelRef(s)))
    {
      code := OpCode(DelRef(s), registers);
      OpMeans(DelRef(s), registers);
      AppendFour(LoadSlot(registers, s), LoadRefcount(registers + 1, registers), AddConst(registers + 2, registers + 1, -1), StoreRefcount(registers, registers + 2));
      registers := registers + 3;
    }

    /** Z_SET_REFCOUNT_P */
    method ZvalSetRefcount(s: Slot, n: nat) returns (ghost code: seq<Instr>)
      requires Valid()
      modifies this`blocks, this`registers
      ensures Appended(code) && Means(code, Do(SetRefcount(s, n)))
    {
      code := OpCode(SetRefcount(s, n), registers);
      OpMeans(SetRefcount(s, n), registers);
      AppendTwo(LoadSlot(registers, s), StoreRefcountConst(registers, n));
      registers := registers + 1;
    }

    /** Z_UNSET_ISREF_P */
    method ZvalUnsetIsref(s: Slot) returns (ghost code: seq<Instr>)
      requires Valid()
      modifies this`blocks, this`registers
      ensures Appended(code) && Means(code, Do(UnsetIsref(s)))
    {
      code := OpCode(UnsetIsref(s), registers);
      OpMeans(UnsetIsref(s), registers);
      AppendTwo(LoadSlot(registers, s), StoreIsrefZero(registers));
      registers := registers + 1;
    }

    /** ZVAL_NULL */
    method ZvalNull(s: Slot) returns (ghost code: seq<Instr>)
      requires Valid()
      modifies this`blocks, this`registers
      ensures Appended(code) && Means(code, Do(SetNull(s)))
    {
      code := OpCode(SetNull(s), registers);
      OpMeans(SetNull(s), registers);
      AppendTwo(LoadSlot(registers, s), StoreTag(registers, NullTag));
      registers := registers + 1;
    }

    /** ZVAL_LONG */
    method ZvalLong(s: Slot, n: int) returns (ghost code: seq<Instr>)
      requires Valid()
      modifies this`blocks, this`registers
      ensures Appended(code) && Means(code, Do(SetLong(s, n)))
    {
      code := OpCode(SetLong(s, n), registers);
      OpMeans(SetLong(s, n), registers);
      AppendFour(LoadSlot(registers, s), StoreTag(registers, LongTag), LoadSlot(registers + 1, s), StoreLong(registers + 1, n));
      registers := registers + 2;
    }

    /** ZVAL_DOUBLE */
    method ZvalDouble(s: Slot, d: real) returns (ghost code: seq<Instr>)
      requires Valid()
      modifies this`blocks, this`registers
      ensures Appended(code) && Means(code, Do(SetDouble(s, d)))
    {
      code := OpCode(SetDouble(s, d), registers);
      OpMeans(SetDouble(s, d), registers);
      AppendFour(LoadSlot(registers, s), StoreTag(registers, DoubleTag), LoadSlot(registers + 1, s), StoreDouble(registers + 1, d));
      registers := registers + 2;
    }

    /** ZVAL_BOOL */
    method ZvalBool(s: Slot, b: bool) returns (ghost code: seq<Instr>)
      requires Valid()
      modifies this`blocks, this`registers
      ensures Appended(code) && Means(code, Do(SetBool(s, b)))
    {
      code := OpCode(SetBool(s, b), registers);
      OpMeans(SetBool(s, b), registers);
      AppendFour(LoadSlot(registers, s), StoreTag(registers, BoolTag), LoadSlot(registers + 1, s), StoreLong(registers + 1, Extended(b)));
      registers := registers + 2;
    }

    /** The literal of an assignment. */
    method ZvalLiteral(s: Slot, v: Literal) returns (ghost code: seq<Instr>)
      requires Valid()
      modifies this`blocks, this`registers
      ensures Appended(code) && Means(code, Do(Store(s, v)))
    {
      match v
      case Boolean(b) => code := ZvalBool(s, b);
      case Integer(n) => code := ZvalLong(s, n);
      case Floating(d) => code := ZvalDouble(s, d);
    }

    /** emalloc, and store the pointer */
    method BuildEmalloc(s: Slot) returns (ghost code: seq<Instr>)
      requires Valid()
      modifies this`blocks, this`registers
      ensures Appended(code) && Means(code, Do(Emalloc(s)))
    {
      code := OpCode(Emalloc(s), registers);
      OpMeans(Emalloc(s), registers);
      AppendTwo(CallEmalloc(registers), StoreSlot(registers, s));
      registers := registers + 1;
    }

    /** zval_dtor */
    method ZvalDtor(s: Slot) returns (ghost code: seq<Instr>)
      requires Valid()
      modifies this`blocks, this`registers
      ensures Appended(code) && Means(code, Do(Dtor(s)))
    {
      code := OpCode(Dtor(s), registers);
      OpMeans(Dtor(s), registers);
      AppendTwo(LoadSlot(registers, s), CallDtor(registers));
      registers := registers + 1;
    }

    /** zval_ptr_dtor */
    method ZvalPtrDtor(s: Slot) returns (ghost code: seq<Instr>)
      requires Valid()
      modifies this`blocks, this`registers
      ensures Appended(code) && Means(code, Do(PtrDtor(s)))
    {
      code := OpCode(PtrDtor(s), registers);
      OpMeans(PtrDtor(s), registers);
      Append(CallPtrDtor(s));
    }

    /** zephirt_memory_alloc */
    method BuildMemoryAlloc(s: Slot) returns (ghost code: seq<Instr>)
      requires Valid()
      modifies this`blocks, this`registers
      ensures Appended(code) && Means(code, Do(MemoryAlloc(s)))
    {
      code := OpCode(MemoryAlloc(s), registers);
      OpMeans(MemoryAlloc(s), registers);
      Append(CallMemoryAlloc(s));
    }

    /** zephirt_memory_observe */
    method MemoryObserve(s: Slot) returns (ghost code: seq<Instr>)
      requires Valid()
      modifies this`blocks, this`registers
      ensures Appended(code) && Means(code, Do(Observe(s)))
    {
      code := OpCode(Observe(s), registers);
      OpMeans(Observe(s), registers);
      Append(CallObserve(s));
    }

    /** Copies a pointer from one slot to another */
    method StoreLoaded(dst: Slot, src: Slot) returns (ghost code: seq<Instr>)
      requires Valid()
      modifies this`blocks, this`registers
      ensures Appended(code) && Means(code, Do(Assign(dst, src)))
    {
      code := OpCode(Assign(dst, src), registers);
      OpMeans(Assign(dst, src), registers);
      AppendTwo(LoadSlot(registers, src), StoreSlot(registers, dst));
      registers := registers + 1;
    }

    /** A new stack cell holding null */
    method DeclareSlot(s: Slot) returns (ghost code: seq<Instr>)
      requires Valid()
      modifies this`blocks, this`registers
      ensures Appended(code) && Means(code, Do(Declare(s))) && code == [Alloca(s), StoreNullPointer(s)]
    {
      code := OpCode(Declare(s), registers);
      OpMeans(Declare(s), registers);
      AppendTwo(Alloca(s), StoreNullPointer(s));
    }

    /** Tests a slot for null and branches. */
    method BranchIfNotNull(s: Slot, thn: Label, els: Label) returns (ghost r: Reg)
      requires Valid()
      modifies this`blocks, this`registers
      ensures Appended(NullTest(s, r, thn, els))
    {
      r := registers;
      Append(LoadSlot(registers, s));
      Append(IsNotNull(registers + 1, registers));
      Append(CondBr(registers + 1, thn, els));
      assert blocks[at] == old(blocks[at]) + NullTest(s, r, thn, els);
      registers := registers + 2;
    }

    /** Compares a reference count with a constant and branches. */
    method BranchIfRefcountAbove(s: Slot, k: nat, thn: Label, els: Label) returns (ghost r: Reg)
      requires Valid()
      modifies this`blocks, this`registers
      ensures Appended(RefcountTest(s, k, r, thn, els))
    {
      r := registers;
      Append(LoadSlot(registers, s));
      Append(LoadRefcount(registers + 1, registers));
      Append(CmpAbove(registers + 2, registers + 1, k));
      Append(CondBr(registers + 2, thn, els));
      assert blocks[at] == old(blocks[at]) + RefcountTest(s, k, r, thn, els);
      registers := registers + 3;
    }

    /** Gives up a shared zval and takes a fresh one of count one. */
    method RenewSharedZval(s: Slot) returns (ghost code: seq<Instr>)
      requires Valid()
      modifies this`blocks, this`registers
      ensures Appended(code) && Means(code, RenewShared(s))
    {
      ghost var c1 := ZvalDelref(s);
      ghost var c2 := BuildEmalloc(s);
      ghost var c3 := ZvalSetRefcount(s, 1);
      ghost var c4 := ZvalUnsetIsref(s);
      MeansThen(c3, c4, Do(SetRefcount(s, 1)), Do(UnsetIsref(s)));
      MeansThen(c2, c3 + c4, Do(Emalloc(s)), Then(Do(SetRefcount(s, 1)), Do(UnsetIsref(s))));
      code := c1 + (c2 + (c3 + c4));
      MeansThen(c1, c2 + (c3 + c4), Do(DelRef(s)), Then(Do(Emalloc(s)), Then(Do(SetRefcount(s, 1)), Do(UnsetIsref(s)))));
      assert blocks[at] == old(blocks[at]) + code;
    }

    /** A block that renews a shared zval, and a jump. */
    method RenewBlock(b: Label, s: Slot, to: Label) returns (ghost code: seq<Instr>)
      requires b < |blocks| && blocks[b] == []
      modifies this
      ensures blocks == old(blocks)[b := code + [Br(to)]] && Means(code, RenewShared(s))
    {
      ghost var g := blocks;
      PositionAtEnd(b);
      code := RenewSharedZval(s);
      Append(Br(to));
      assert blocks[b] == code + [Br(to)];
      assert blocks == g[b := code + [Br(to)]];
    }

    /** A block that destroys the body of a zval, and a jump. */
    method DtorBlock(b: Label, s: Slot, to: Label) returns (ghost code: seq<Instr>)
      requires b < |blocks| && blocks[b] == []
      modifies this
      ensures blocks == old(blocks)[b := code + [Br(to)]] && Means(code, Do(Dtor(s)))
    {
      ghost var g := blocks;
      PositionAtEnd(b);
      code := ZvalDtor(s);
      Append(Br(to));
      assert blocks[b] == code + [Br(to)];
      assert blocks == g[b := code + [Br(to)]];
    }

    /** A block that makes a zval null, and a jump. */
    method NullBlock(b: Label, s: Slot, to: Label) returns (ghost code: seq<Instr>)
      requires b < |blocks| && blocks[b] == []
      modifies this
      ensures blocks == old(blocks)[b := code + [Br(to)]] && Means(code, Do(SetNull(s)))
    {
      ghost var g := blocks;
      PositionAtEnd(b);
      code := ZvalNull(s);
      Append(Br(to));
      assert blocks[b] == code + [Br(to)];
      assert blocks == g[b := code + [Br(to)]];
    }

    /** The part of a re-initialization for a slot that is not null. */
    method NallocNotNull(s: Slot, merge: Label)
      requires Valid() && merge < |blocks| && merge != at
      modifies this
      ensures Splits(old(blocks), old(at), blocks)
      ensures forall h :: Extends(blocks, h) ==>
        Simulates(h, old(Here()), Pos(merge, 0), RenewNotNull(s))
    {
      ghost var g, b0 := blocks, at;
      var thn := AppendBlock();
      var els := AppendBlock();
      var merge2 := AppendBlock();
      ghost var r := BranchIfRefcountAbove(s, 1, thn, els);
      ghost var shared := RenewBlock(thn, s, merge2);
      ghost var dtor := DtorBlock(els, s, merge2);
      ghost var nul := NullBlock(merge2, s, merge);
      RenewBlocks(g, b0, blocks, s, r, shared, dtor, nul, merge);
    }

    /** ZEPHIR_INIT_NVAR as six blocks, ending in an empty merge block. */
    method MemoryNalloc(s: Slot)
      requires Valid()
      modifies this
      ensures Valid() && Grows(old(blocks), old(at), blocks, at) && blocks[at] == []
      ensures Simulates(blocks, old(Here()), Here(), InitNvar(s))
    {
      ghost var g, b0 := blocks, at;
      var thn := AppendBlock();
      var els := AppendBlock();
      var merge := AppendBlock();
      ghost var r := BranchIfNotNull(s, thn, els);
      ghost var g1 := blocks;
      PositionAtEnd(thn);
      NallocNotNull(s, merge);
      ghost var g2 := blocks;
      PositionAtEnd(els);
      ghost var alloc := BuildMemoryAlloc(s);
      Append(Br(merge));
      PositionAtEnd(merge);
      assert Extends(g2, blocks);
      assert Simulates(blocks, Pos(thn, 0), Pos(merge, 0), RenewNotNull(s));
      MeansJump(blocks, els, alloc, merge, Do(MemoryAlloc(s)));
      NullBranch(g, b0, blocks, s, r, RenewNotNull(s), Do(MemoryAlloc(s)));
    }

    /** The part of a copy on write that drops what the target slot holds. */
    method DropNotNull(d: Slot, merge: Label)
      requires Valid() && merge < |blocks| && merge != at
      modifies this
      ensures Splits(old(blocks), old(at), blocks)
      ensures forall h :: Extends(blocks, h) ==> Simulates(h, old(Here()), Pos(merge, 0), DropHeld(d))
    {
      ghost var g, b0 := blocks, at;
      var thn := AppendBlock();
      var els := AppendBlock();
      var merge2 := AppendBlock();
      ghost var r := BranchIfRefcountAbove(d, 0, thn, els);
      PositionAtEnd(thn);
      ghost var dtor := ZvalPtrDtor(d);
      Append(Br(merge2));
      PositionAtEnd(els);
      Append(Br(merge2));
      PositionAtEnd(merge2);
      Append(Br(merge));
      DropBlocks(g, b0, blocks, d, r, dtor, merge);
    }

    /** ZEPHIR_CPY_WRT: drop the old value, then count and store the new one. */
    method BuildCopyOnWrite(d: Slot, v: Slot)
      requires Valid()
      modifies this
      ensures Valid() && Grows(old(blocks), old(at), blocks, at)
      ensures Simulates(blocks, old(Here()), Here(), CopyOnWrite(d, v))
    {
      ghost var g, b0 := blocks, at;
      var thn := AppendBlock();
      var els := AppendBlock();
      var merge := AppendBlock();
      ghost var r := BranchIfNotNull(d, thn, els);
      PositionAtEnd(thn);
      DropNotNull(d, merge);
      ghost var g2 := blocks;
      PositionAtEnd(els);
      ghost var observe := MemoryObserve(d);
      Append(Br(merge));
      assert Extends(g2, blocks);
      MeansJump(blocks, els, observe, merge, Do(Observe(d)));
      NullBranch(g, b0, blocks, d, r, DropHeld(d), Do(Observe(d)));
      PositionAtEnd(merge);
      TakeReference(g, b0, d, v);
    }

    /** The tail of a copy on write, in the merge block. */
    method TakeReference(ghost g: Code, ghost b0: Label, d: Slot, v: Slot)
      requires Valid() && Grows(g, b0, blocks, at) && |g| <= at && blocks[at] == []
      requires Simulates(blocks, Pos(b0, |g[b0]|), Here(), IfNotNull(d, DropHeld(d), Do(Observe(d))))
      modifies this
      ensures Valid() && Grows(g, b0, blocks, at)
      ensures Simulates(blocks, Pos(b0, |g[b0]|), Here(), CopyOnWrite(d, v))
    {
      ghost var h := blocks;
      ghost var c1 := ZvalAddref(v);
      ghost var c2 := StoreLoaded(d, v);
      MeansThen(c1, c2, Do(AddRef(v)), Do(Assign(d, v)));
      assert blocks[at] == c1 + c2;
      assert Extends(h, blocks);
      SimulatesExtended(h, blocks, Pos(b0, |g[b0]|), Pos(at, 0), IfNotNull(d, DropHeld(d), Do(Observe(d))));
      assert Has(blocks, Pos(at, 0), c1 + c2);
      SimulatesThen(blocks, Pos(b0, |g[b0]|), Pos(at, 0), Here(),
        IfNotNull(d, DropHeld(d), Do(Observe(d))), Then(Do(AddRef(v)), Do(Assign(d, v))));
    }
  }

  lemma DropBlocks(g: Code, at: Label, h: Code, d: Slot, r: Reg, dtor: seq<Instr>, merge: Label)
    requires at < |g| && |h| == |g| + 3 && Open(g[at])
    requires forall b :: 0 <= b < |g| && b != at ==> h[b] == g[b]
    requires h[at] == g[at] + RefcountTest(d, 0, r, |g|, |g| + 1)
    requires h[|g|] == dtor + [Br(|g| + 2)] && Means(dtor, Do(PtrDtor(d)))
    requires h[|g| + 1] == [Br(|g| + 2)] && h[|g| + 2] == [Br(merge)]
    ensures Splits(g, at, h)
    ensures forall k :: Extends(h, k) ==> Simulates(k, Pos(at, |g[at]|), Pos(merge, 0), DropHeld(d))
  {
    var n := |g|;
    MeansJump(h, n, dtor, n + 2, Do(PtrDtor(d)));
    SimulatesSkip(h, Pos(n + 1, 0));
    SimulatesJump(h, Pos(n + 1, 0), Pos(n + 1, 0), n + 2, Skip);
    ClosedByTail(g[at], RefcountTest(d, 0, r, n, n + 1));
    SimulatesIfAbove(h, Pos(at, |g[at]|), d, 0, r, n, n + 1, Pos(n + 2, 0), Do(PtrDtor(d)), Skip);
    SimulatesJump(h, Pos(at, |g[at]|), Pos(n + 2, 0), merge, DropHeld(d));
    forall k | Extends(h, k)
      ensures Simulates(k, Pos(at, |g[at]|), Pos(merge, 0), DropHeld(d))
    {
      SimulatesExtended(h, k, Pos(at, |g[at]|), Pos(merge, 0), DropHeld(d));
    }
  }

  /** The insertion block is closed, every new block is closed, and the others are as they were. */
  ghost predicate Splits(g: Code, at: Label, h: Code) {
    && at < |g| <= |h| && g[at] <= h[at] && Closed(h[at])
    && (forall b :: 0 <= b < |g| && b != at ==> h[b] == g[b])
    && (forall b :: |g| <= b < |h| ==> Closed(h[b]))
  }

  lemma RenewBlocks(g: Code, at: Label, h: Code, s: Slot, r: Reg,
                    shared: seq<Instr>, dtor: seq<Instr>, nul: seq<Instr>, merge: Label)
    requires at < |g| && |h| == |g| + 3 && Open(g[at])
    requires forall b :: 0 <= b < |g| && b != at ==> h[b] == g[b]
    requires h[at] == g[at] + RefcountTest(s, 1, r, |g|, |g| + 1)
    requires h[|g|] == shared + [Br(|g| + 2)] && Means(shared, RenewShared(s))
    requires h[|g| + 1] == dtor + [Br(|g| + 2)] && Means(dtor, Do(Dtor(s)))
    requires h[|g| + 2] == nul + [Br(merge)] && Means(nul, Do(SetNull(s)))
    ensures Splits(g, at, h)
    ensures forall k :: Extends(h, k) ==> Simulates(k, Pos(at, |g[at]|), Pos(merge, 0), RenewNotNull(s))
  {
    var n := |g|;
    var renew := IfRefcountAbove(s, 1, RenewShared(s), Do(Dtor(s)));
    MeansJump(h, n, shared, n + 2, RenewShared(s));
    MeansJump(h, n + 1, dtor, n + 2, Do(Dtor(s)));
    MeansJump(h, n + 2, nul, merge, Do(SetNull(s)));
    ClosedByTail(g[at], RefcountTest(s, 1, r, n, n + 1));
    SimulatesIfAbove(h, Pos(at, |g[at]|), s, 1, r, n, n + 1, Pos(n + 2, 0), RenewShared(s), Do(Dtor(s)));
    SimulatesThen(h, Pos(at, |g[at]|), Pos(n + 2, 0), Pos(merge, 0), renew, Do(SetNull(s)));
    forall k | Extends(h, k)
      ensures Simulates(k, Pos(at, |g[at]|), Pos(merge, 0), RenewNotNull(s))
    {
      SimulatesExtended(h, k, Pos(at, |g[at]|), Pos(merge, 0), RenewNotNull(s));
    }
  }

  /** A null test over two branches that meet in the block after them. */
  lemma NullBranch(g: Code, at: Label, h: Code, s: Slot, r: Reg, c1: Cmd, c2: Cmd)
    requires at < |g| && |g| + 3 <= |h| && Open(g[at])
    requires forall b :: 0 <= b < |g| && b != at ==> h[b] == g[b]
    requires h[at] == g[at] + NullTest(s, r, |g|, |g| + 1)
    requires Simulates(h, Pos(|g|, 0), Pos(|g| + 2, 0), c1) && Simulates(h, Pos(|g| + 1, 0), Pos(|g| + 2, 0), c2)
    requires h[|g| + 2] == [] && forall b :: |g| <= b < |h| && b != |g| + 2 ==> Closed(h[b])
    ensures Grows(g, at, h, |g| + 2)
    ensures Simulates(h, Pos(at, |g[at]|), Pos(|g| + 2, 0), IfNotNull(s, c1, c2))
  {
    ClosedByTail(g[at], NullTest(s, r, |g|, |g| + 1));
    SimulatesIfNotNull(h, Pos(at, |g[at]|), s, r, |g|, |g| + 1, Pos(|g| + 2, 0), c1, c2);
  }
}
