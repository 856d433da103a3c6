/** Reading a native long or double out of a slot: a tag test, two loads and a phi. */
module Conversions {
  import opened Wrappers
  import opened Zval
  import opened Ir
  import opened Helpers
  import opened Simulation
  import B = Builder

  datatype Kind = AsLong | AsDouble {
    function Matching(): Tag { if AsLong? then LongTag else DoubleTag }

    function LoadCode(dst: Reg, ptr: Reg): Instr { if AsLong? then LoadLong(dst, ptr) else LoadDouble(dst, ptr) }

    function CallCode(dst: Reg, ptr: Reg): Instr { if AsLong? then CallIntval(dst, ptr) else CallDoubleval(dst, ptr) }

    /** The stored value when the tag already matches, the library conversion otherwise. */
    function Convert(w: World, z: Zval): Value
      requires WellTagged(z)
    {
      if AsLong? then Int(if z.tag == LongTag then z.payload.n else w.intval(z))
      else Real(if z.tag == DoubleTag then z.payload.d else w.doubleval(z))
    }
  }

  /** The tag says which member of the value union is in use. */
  predicate WellTagged(z: Zval) {
    (z.tag == LongTag ==> z.payload.Long?) && (z.tag == DoubleTag ==> z.payload.Double?)
  }

  function TagTest(s: Slot, k: Kind, r: Reg, thn: Label, els: Label): seq<Instr> {
    [LoadSlot(r, s), LoadTag(r + 1, r), CmpTag(r + 2, r + 1, k.Matching()), CondBr(r + 2, thn, els)]
  }

  ghost predicate ReadsInto(w: World, g: Code, c: Conf, q: Pos, reg: Reg, v: Value, m: Memory) {
    exists prev, regs :: Reach(w, g, c, At(q.b, q.i, prev, regs, m)) && reg in regs && regs[reg] == v
  }

  /** From p to q the code puts the converted value of s in `reg` and changes no memory. */
  ghost predicate Reads(g: Code, p: Pos, q: Pos, s: Slot, k: Kind, reg: Reg) {
    forall w: World, prev: Label, regs: Regs, m: Memory ::
      ReadsFrom(w, g, At(p.b, p.i, prev, regs, m), q, s, k, reg)
  }

  ghost predicate ReadsFrom(w: World, g: Code, c: Conf, q: Pos, s: Slot, k: Kind, reg: Reg)
    requires c.At?
  {
    match Deref(c.m, s)
    case None => Reach(w, g, c, Crashed)
    case Some(a) => WellTagged(c.m.heap[a]) ==> ReadsInto(w, g, c, q, reg, k.Convert(w, c.m.heap[a]), c.m)
  }

  lemma TagTestJumps(w: World, g: Code, c0: Conf, s: Slot, k: Kind, r: Reg, thn: Label, els: Label)
    requires c0.At? && Has(g, Pos(c0.block, c0.pc), TagTest(s, k, r, thn, els))
    ensures match Deref(c0.m, s)
      case None => Reach(w, g, c0, Crashed)
      case Some(a) => Arrives(w, g, c0, Pos(if c0.m.heap[a].tag == k.Matching() then thn else els, 0), c0.m)
  {
    var load := [LoadSlot(r, s), LoadTag(r + 1, r)];
    var jump := [CmpTag(r + 2, r + 1, k.Matching()), CondBr(r + 2, thn, els)];
    assert TagTest(s, k, r, thn, els) == load + jump;
    HasSplit(g, Pos(c0.block, c0.pc), load, jump);
    LoadThen(w, g, c0, s, r, LoadTag(r + 1, r));
    var c1 := LoadedThen(w, c0, s, r, LoadTag(r + 1, r));
    if c1.At? {
      var to := if c1.regs[r + 1].tag == k.Matching() then thn else els;
      TagJump(w, g, c1, k, r, thn, els);
      ArrivesAfter(w, g, c0, c1, Pos(to, 0), c0.m);
    }
  }

  lemma TagJump(w: World, g: Code, c: Conf, k: Kind, r: Reg, thn: Label, els: Label)
    requires c.At? && Has(g, Pos(c.block, c.pc), [CmpTag(r + 2, r + 1, k.Matching()), CondBr(r + 2, thn, els)])
    requires r + 1 in c.regs && c.regs[r + 1].TagOf?
    ensures Arrives(w, g, c, Pos(if c.regs[r + 1].tag == k.Matching() then thn else els, 0), c.m)
  {
    var jump := [CmpTag(r + 2, r + 1, k.Matching()), CondBr(r + 2, thn, els)];
    assert g[c.block][c.pc + 0] == jump[0] && g[c.block][c.pc + 1] == jump[1];
    Chain(w, g, c);
    var to := if c.regs[r + 1].tag == k.Matching() then thn else els;
    assert Step(w, g, Step(w, g, c)) == At(to, 0, c.block, Step(w, g, c).regs, c.m);
  }

  /** One arm: load a pointer, get the value through it, and jump to the block that merges. */
  lemma ArmRuns(w: World, g: Code, c: Conf, s: Slot, ptr: Reg, i: Instr, dst: Reg, merge: Label, a: Addr, v: Value)
    requires c.At? && Has(g, Pos(c.block, c.pc), [LoadSlot(ptr, s), i, Br(merge)])
    requires GoesThrough(i, ptr) && Deref(c.m, s) == Some(a)
    requires StepAt(w, i, Set(c, ptr, Pointer(Some(a))), a) == Set(Set(c, ptr, Pointer(Some(a))), dst, v)
    ensures exists regs :: dst in regs && regs[dst] == v && Reach(w, g, c, At(merge, 0, c.block, regs, c.m))
  {
    assert [LoadSlot(ptr, s), i, Br(merge)] == [LoadSlot(ptr, s), i] + [Br(merge)];
    HasSplit(g, Pos(c.block, c.pc), [LoadSlot(ptr, s), i], [Br(merge)]);
    LoadThen(w, g, c, s, ptr, i);
    var c2 := LoadedThen(w, c, s, ptr, i);
    assert g[c2.block][c2.pc + 0] == [Br(merge)][0];
    Chain(w, g, c2);
    ReachTrans(w, g, c, c2, At(merge, 0, c.block, c2.regs, c.m));
  }

  lemma PhiPicks(w: World, g: Code, c: Conf, phi: Instr, v: Value, q: Pos)
    requires c.At? && phi.Phi? && Has(g, Pos(c.block, c.pc), [phi]) && q == Pos(c.block, c.pc + 1)
    requires (c.prev == phi.from1 && phi.r1 in c.regs && c.regs[phi.r1] == v)
          || (c.prev == phi.from2 != phi.from1 && phi.r2 in c.regs && c.regs[phi.r2] == v)
    ensures ReadsInto(w, g, c, q, phi.dst, v, c.m)
  {
    assert g[c.block][c.pc + 0] == [phi][0];
    Chain(w, g, c);
    assert Step(w, g, c) == Set(c, phi.dst, v);
  }

  /** The whole graph of a conversion. */
  lemma ConversionReads(g: Code, p: Pos, s: Slot, k: Kind, r: Reg, thn: Label, els: Label, merge: Label)
    requires thn != els
    requires Has(g, p, TagTest(s, k, r, thn, els))
    requires Has(g, Pos(thn, 0), [LoadSlot(r + 3, s), k.LoadCode(r + 4, r + 3), Br(merge)])
    requires Has(g, Pos(els, 0), [LoadSlot(r + 5, s), k.CallCode(r + 6, r + 5), Br(merge)])
    requires Has(g, Pos(merge, 0), [Phi(r + 7, r + 4, thn, r + 6, els)])
    ensures Reads(g, p, Pos(merge, 1), s, k, r + 7)
  {
    var q, reg := Pos(merge, 1), r + 7;
    forall w: World, prev: Label, regs: Regs, m: Memory
      ensures ReadsFrom(w, g, At(p.b, p.i, prev, regs, m), q, s, k, reg)
    {
      var c0 := At(p.b, p.i, prev, regs, m);
      TagTestJumps(w, g, c0, s, k, r, thn, els);
      if Deref(m, s).Some? && WellTagged(m.heap[m.slots[s].value]) {
        var a := m.slots[s].value;
        var v := k.Convert(w, m.heap[a]);
        var matches := m.heap[a].tag == k.Matching();
        var arm := if matches then thn else els;
        var prev1, regs1 :| Reach(w, g, c0, At(arm, 0, prev1, regs1, m));
        var c1 := At(arm, 0, prev1, regs1, m);
        if matches { ArmRuns(w, g, c1, s, r + 3, k.LoadCode(r + 4, r + 3), r + 4, merge, a, v); }
        else { ArmRuns(w, g, c1, s, r + 5, k.CallCode(r + 6, r + 5), r + 6, merge, a, v); }
        var dst: Reg := if matches then r + 4 else r + 6;
        var regs2: Regs :| dst in regs2 && regs2[dst] == v && Reach(w, g, c1, At(merge, 0, arm, regs2, m));
        var c2 := At(merge, 0, arm, regs2, m);
        ReachTrans(w, g, c0, c1, c2);
        PhiPicks(w, g, c2, Phi(r + 7, r + 4, thn, r + 6, els), v, Pos(merge, 1));
        var prev3, regs3 :| Reach(w, g, c2, At(merge, 1, prev3, regs3, m)) && r + 7 in regs3 && regs3[r + 7] == v;
        ReachTrans(w, g, c0, c2, At(merge, 1, prev3, regs3, m));
      }
    }
  }

  /** zephir_get_intval and zephir_get_doubleval: the register holding the converted value. */
  method Get(b: B.Builder, s: Slot, k: Kind) returns (value: Reg)
    requires b.Valid()
    modifies b
    ensures b.Valid() && B.Grows(old(b.blocks), old(b.at), b.blocks, b.at)
    ensures Reads(b.blocks, old(b.Here()), b.Here(), s, k, value)
  {
    ghost var g, at := b.blocks, b.at;
    var r := b.registers;
    var thn := AppendTest(b, s, k, r);
    FillArm(b, thn, s, r + 3, k.LoadCode(r + 4, r + 3), thn + 2);
    FillArm(b, thn + 1, s, r + 5, k.CallCode(r + 6, r + 5), thn + 2);
    b.PositionAtEnd(thn + 2);
    b.Append(Phi(r + 7, r + 4, thn, r + 6, thn + 1));
    b.registers := r + 8;
    value := r + 7;
    ConversionBlocks(g, at, b.blocks, s, k, r);
  }

  lemma ConversionBlocks(g: Code, at: Label, h: Code, s: Slot, k: Kind, r: Reg)
    requires at < |g| && |h| == |g| + 3 && Open(g[at])
    requires forall c :: 0 <= c < |g| && c != at ==> h[c] == g[c]
    requires h[at] == g[at] + TagTest(s, k, r, |g|, |g| + 1)
    requires h[|g|] == [LoadSlot(r + 3, s), k.LoadCode(r + 4, r + 3), Br(|g| + 2)]
    requires h[|g| + 1] == [LoadSlot(r + 5, s), k.CallCode(r + 6, r + 5), Br(|g| + 2)]
    requires h[|g| + 2] == [Phi(r + 7, r + 4, |g|, r + 6, |g| + 1)]
    ensures B.Grows(g, at, h, |g| + 2)
    ensures Reads(h, Pos(at, |g[at]|), Pos(|g| + 2, 1), s, k, r + 7)
  {
    B.ClosedByTail(g[at], TagTest(s, k, r, |g|, |g| + 1));
    ConversionReads(h, Pos(at, |g[at]|), s, k, r, |g|, |g| + 1, |g| + 2);
  }

  /** One arm of a conversion, ending in a jump to the merge block. */
  method FillArm(b: B.Builder, arm: Label, s: Slot, ptr: Reg, i: Instr, merge: Label)
    requires arm < |b.blocks| && b.blocks[arm] == [] && !IsTerminator(i)
    modifies b`blocks, b`at
    ensures |b.blocks| == |old(b.blocks)| && b.blocks[arm] == [LoadSlot(ptr, s), i, Br(merge)]
    ensures forall c :: 0 <= c < |b.blocks| && c != arm ==> b.blocks[c] == old(b.blocks[c])
  {
    b.PositionAtEnd(arm);
    b.Append(LoadSlot(ptr, s));
    b.Append(i);
    b.Append(Br(merge));
    assert b.blocks[arm] == [LoadSlot(ptr, s), i, Br(merge)];
  }

  /** The three blocks of a conversion, still empty, and the branch into them. */
  method AppendTest(b: B.Builder, s: Slot, k: Kind, r: Reg) returns (thn: Label)
    requires b.Valid()
    modifies b
    ensures b.at == old(b.at) && |b.blocks| == |old(b.blocks)| + 3 && thn == |old(b.blocks)|
    ensures var n := |old(b.blocks)|;
      && b.blocks[b.at] == old(b.blocks[b.at]) + TagTest(s, k, r, n, n + 1)
      && b.blocks[n] == b.blocks[n + 1] == b.blocks[n + 2] == []
      && forall c :: 0 <= c < n && c != b.at ==> b.blocks[c] == old(b.blocks[c])
  {
    thn := b.AppendBlock();
    var els := b.AppendBlock();
    var merge := b.AppendBlock();
    b.Append(LoadSlot(r, s));
    b.Append(LoadTag(r + 1, r));
    b.Append(CmpTag(r + 2, r + 1, k.Matching()));
    b.Append(CondBr(r + 2, thn, els));
    assert b.blocks[b.at] == old(b.blocks[b.at]) + TagTest(s, k, r, thn, els);
  }
}
