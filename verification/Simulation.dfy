/** How simulations compose: sequencing, jumps, conditionals and loops over block graphs. */
module Simulation {
  import opened Wrappers
  import opened Zval
  import opened Ir
  import opened Helpers

  lemma SimulatesExtended(g: Code, h: Code, p: Pos, q: Pos, c: Cmd)
    requires Simulates(g, p, q, c) && Extends(g, h)
    ensures Simulates(h, p, q, c)
  {
    forall w: World, prev: Label, regs: Regs, m: Memory, fuel: nat
      ensures Follows(w, h, At(p.b, p.i, prev, regs, m), q, Exec(w, c, m, fuel))
    {
      var c0 := At(p.b, p.i, prev, regs, m);
      assert Follows(w, g, c0, q, Exec(w, c, m, fuel));
      match Exec(w, c, m, fuel)
      case Done(m1) =>
        var prev1, regs1 :| Reach(w, g, c0, At(q.b, q.i, prev1, regs1, m1));
        ReachExtend(w, g, h, c0, At(q.b, q.i, prev1, regs1, m1));
      case Crash => ReachExtend(w, g, h, c0, Crashed);
      case Timeout =>
    }
  }

  lemma SimulatesSkip(g: Code, p: Pos)
    ensures Simulates(g, p, p, Skip)
  {
    forall w: World, prev: Label, regs: Regs, m: Memory, fuel: nat
      ensures Follows(w, g, At(p.b, p.i, prev, regs, m), p, Exec(w, Skip, m, fuel))
    {
      ReachSelf(w, g, At(p.b, p.i, prev, regs, m));
    }
  }

  /** What follows a run can be prefixed by the run. */
  lemma FollowsAfter(w: World, g: Code, c: Conf, d: Conf, q: Pos, r: Result)
    requires Reach(w, g, c, d) && Follows(w, g, d, q, r)
    ensures Follows(w, g, c, q, r)
  {
    match r
    case Done(m) =>
      var prev, regs :| Reach(w, g, d, At(q.b, q.i, prev, regs, m));
      ReachTrans(w, g, c, d, At(q.b, q.i, prev, regs, m));
    case Crash => ReachTrans(w, g, c, d, Crashed);
    case Timeout =>
  }

  /** Running into code that simulates c. */
  lemma FollowsInto(w: World, g: Code, c0: Conf, p: Pos, m: Memory, q: Pos, c: Cmd, fuel: nat)
    requires Arrives(w, g, c0, p, m) && Simulates(g, p, q, c)
    ensures Follows(w, g, c0, q, Exec(w, c, m, fuel))
  {
    var prev, regs :| Reach(w, g, c0, At(p.b, p.i, prev, regs, m));
    assert Follows(w, g, At(p.b, p.i, prev, regs, m), q, Exec(w, c, m, fuel));
    FollowsAfter(w, g, c0, At(p.b, p.i, prev, regs, m), q, Exec(w, c, m, fuel));
  }

  lemma SimulatesThen(g: Code, p: Pos, q: Pos, r: Pos, c1: Cmd, c2: Cmd)
    requires Simulates(g, p, q, c1) && Simulates(g, q, r, c2)
    ensures Simulates(g, p, r, Then(c1, c2))
  {
    forall w: World, prev: Label, regs: Regs, m: Memory, fuel: nat
      ensures Follows(w, g, At(p.b, p.i, prev, regs, m), r, Exec(w, Then(c1, c2), m, fuel))
    {
      var c0 := At(p.b, p.i, prev, regs, m);
      assert Follows(w, g, c0, q, Exec(w, c1, m, fuel));
      if Exec(w, c1, m, fuel).Done? {
        FollowsInto(w, g, c0, q, Exec(w, c1, m, fuel).m, r, c2, fuel);
      }
    }
  }

  lemma ArrivesJump(w: World, g: Code, c: Conf, q: Pos, m: Memory, to: Label)
    requires Arrives(w, g, c, q, m) && Has(g, q, [Br(to)])
    ensures Arrives(w, g, c, Pos(to, 0), m)
  {
    var prev, regs :| Reach(w, g, c, At(q.b, q.i, prev, regs, m));
    var d := At(q.b, q.i, prev, regs, m);
    assert g[q.b][q.i + 0] == [Br(to)][0];
    Chain(w, g, d);
    ReachTrans(w, g, c, d, At(to, 0, q.b, regs, m));
  }

  lemma SimulatesJump(g: Code, p: Pos, q: Pos, to: Label, c: Cmd)
    requires Simulates(g, p, q, c) && Has(g, q, [Br(to)])
    ensures Simulates(g, p, Pos(to, 0), c)
  {
    forall w: World, prev: Label, regs: Regs, m: Memory, fuel: nat
      ensures Follows(w, g, At(p.b, p.i, prev, regs, m), Pos(to, 0), Exec(w, c, m, fuel))
    {
      var c0 := At(p.b, p.i, prev, regs, m);
      assert Follows(w, g, c0, q, Exec(w, c, m, fuel));
      if Exec(w, c, m, fuel).Done? { ArrivesJump(w, g, c0, q, Exec(w, c, m, fuel).m, to); }
    }
  }

  function NullTest(s: Slot, r: Reg, thn: Label, els: Label): seq<Instr> {
    [LoadSlot(r, s), IsNotNull(r + 1, r), CondBr(r + 1, thn, els)]
  }

  function RefcountTest(s: Slot, k: nat, r: Reg, thn: Label, els: Label): seq<Instr> {
    [LoadSlot(r, s), LoadRefcount(r + 1, r), CmpAbove(r + 2, r + 1, k), CondBr(r + 2, thn, els)]
  }

  function TruthTest(s: Slot, r: Reg, thn: Label, els: Label): seq<Instr> {
    [LoadSlot(r, s), CallIsTrue(r + 1, r), CmpNotZero(r + 2, r + 1), CondBr(r + 2, thn, els)]
  }

  lemma NullTestJumps(w: World, g: Code, c: Conf, s: Slot, r: Reg, thn: Label, els: Label)
    requires c.At? && Has(g, Pos(c.block, c.pc), NullTest(s, r, thn, els))
    ensures s !in c.m.slots ==> Reach(w, g, c, Crashed)
    ensures s in c.m.slots ==> Arrives(w, g, c, Pos(if c.m.slots[s].Some? then thn else els, 0), c.m)
  {
    var code := NullTest(s, r, thn, els);
    assert g[c.block][c.pc] == code[0] && g[c.block][c.pc + 1] == code[1] && g[c.block][c.pc + 2] == code[2];
    Chain(w, g, c);
    if s in c.m.slots {
      var c2 := Step(w, g, Step(w, g, c));
      Chain(w, g, c2);
      ReachTrans(w, g, c, c2, At(if c.m.slots[s].Some? then thn else els, 0, c.block, c2.regs, c.m));
    }
  }

  lemma SimulatesIfNotNull(g: Code, p: Pos, s: Slot, r: Reg, thn: Label, els: Label, q: Pos, c1: Cmd, c2: Cmd)
    requires Has(g, p, NullTest(s, r, thn, els))
    requires Simulates(g, Pos(thn, 0), q, c1) && Simulates(g, Pos(els, 0), q, c2)
    ensures Simulates(g, p, q, IfNotNull(s, c1, c2))
  {
    forall w: World, prev: Label, regs: Regs, m: Memory, fuel: nat
      ensures Follows(w, g, At(p.b, p.i, prev, regs, m), q, Exec(w, IfNotNull(s, c1, c2), m, fuel))
    {
      var c0 := At(p.b, p.i, prev, regs, m);
      NullTestJumps(w, g, c0, s, r, thn, els);
      if s in m.slots {
        FollowsInto(w, g, c0, Pos(if m.slots[s].Some? then thn else els, 0), m, q, if m.slots[s].Some? then c1 else c2, fuel);
      }
    }
  }

  /** The last two instructions of a test on an integer register. */
  lemma TestJumps(w: World, g: Code, c: Conf, i: Instr, r: Reg, thn: Label, els: Label)
    requires c.At? && r + 1 in c.regs && c.regs[r + 1].Int?
    requires i.CmpAbove? || i.CmpNotZero?
    requires i.src == r + 1 && i.dst == r + 2
    requires Has(g, Pos(c.block, c.pc), [i, CondBr(r + 2, thn, els)])
    ensures Arrives(w, g, c, Pos(if (if i.CmpAbove? then c.regs[r + 1].n > i.n else c.regs[r + 1].n != 0) then thn else els, 0), c.m)
  {
    var code := [i, CondBr(r + 2, thn, els)];
    assert g[c.block][c.pc] == code[0] && g[c.block][c.pc + 1] == code[1];
    Chain(w, g, c);
    var to := if (if i.CmpAbove? then c.regs[r + 1].n > i.n else c.regs[r + 1].n != 0) then thn else els;
    assert Step(w, g, Step(w, g, c)) == At(to, 0, c.block, Step(w, g, c).regs, c.m);
  }

  lemma RefcountTestJumps(w: World, g: Code, c0: Conf, s: Slot, k: nat, r: Reg, thn: Label, els: Label)
    requires c0.At? && Has(g, Pos(c0.block, c0.pc), RefcountTest(s, k, r, thn, els))
    ensures match Deref(c0.m, s)
      case None => Reach(w, g, c0, Crashed)
      case Some(a) => Arrives(w, g, c0, Pos(if c0.m.heap[a].refcount > k then thn else els, 0), c0.m)
  {
    var code := RefcountTest(s, k, r, thn, els);
    HasPart(g, Pos(c0.block, c0.pc), code, 0, 2);
    HasPart(g, Pos(c0.block, c0.pc), code, 2, 2);
    assert code[0..2] == [LoadSlot(r, s), LoadRefcount(r + 1, r)];
    assert code[2..4] == [CmpAbove(r + 2, r + 1, k), CondBr(r + 2, thn, els)];
    LoadThen(w, g, c0, s, r, LoadRefcount(r + 1, r));
    var c1 := LoadedThen(w, c0, s, r, LoadRefcount(r + 1, r));
    if c1.At? {
      TestJumps(w, g, c1, CmpAbove(r + 2, r + 1, k), r, thn, els);
      ArrivesAfter(w, g, c0, c1, Pos(if c1.regs[r + 1].n > k then thn else els, 0), c0.m);
    }
  }

  lemma ArrivesAfter(w: World, g: Code, c: Conf, d: Conf, q: Pos, m: Memory)
    requires Reach(w, g, c, d) && Arrives(w, g, d, q, m)
    ensures Arrives(w, g, c, q, m)
  {
    var prev, regs :| Reach(w, g, d, At(q.b, q.i, prev, regs, m));
    ReachTrans(w, g, c, d, At(q.b, q.i, prev, regs, m));
  }

  lemma TruthTestJumps(w: World, g: Code, c0: Conf, s: Slot, r: Reg, thn: Label, els: Label)
    requires c0.At? && Has(g, Pos(c0.block, c0.pc), TruthTest(s, r, thn, els))
    ensures match Deref(c0.m, s)
      case None => Reach(w, g, c0, Crashed)
      case Some(a) => Arrives(w, g, c0, Pos(if w.isTrue(c0.m.heap[a]) != 0 then thn else els, 0), c0.m)
  {
    var code := TruthTest(s, r, thn, els);
    HasPart(g, Pos(c0.block, c0.pc), code, 0, 2);
    HasPart(g, Pos(c0.block, c0.pc), code, 2, 2);
    assert code[0..2] == [LoadSlot(r, s), CallIsTrue(r + 1, r)];
    assert code[2..4] == [CmpNotZero(r + 2, r + 1), CondBr(r + 2, thn, els)];
    LoadThen(w, g, c0, s, r, CallIsTrue(r + 1, r));
    var c1 := LoadedThen(w, c0, s, r, CallIsTrue(r + 1, r));
    if c1.At? {
      TestJumps(w, g, c1, CmpNotZero(r + 2, r + 1), r, thn, els);
      ArrivesAfter(w, g, c0, c1, Pos(if c1.regs[r + 1].n != 0 then thn else els, 0), c0.m);
    }
  }

  lemma SimulatesIfAbove(g: Code, p: Pos, s: Slot, k: nat, r: Reg, thn: Label, els: Label, q: Pos, c1: Cmd, c2: Cmd)
    requires Has(g, p, RefcountTest(s, k, r, thn, els))
    requires Simulates(g, Pos(thn, 0), q, c1) && Simulates(g, Pos(els, 0), q, c2)
    ensures Simulates(g, p, q, IfRefcountAbove(s, k, c1, c2))
  {
    forall w: World, prev: Label, regs: Regs, m: Memory, fuel: nat
      ensures Follows(w, g, At(p.b, p.i, prev, regs, m), q, Exec(w, IfRefcountAbove(s, k, c1, c2), m, fuel))
    {
      var c0 := At(p.b, p.i, prev, regs, m);
      RefcountTestJumps(w, g, c0, s, k, r, thn, els);
      match Deref(m, s)
      case None =>
      case Some(a) =>
        if m.heap[a].refcount > k { FollowsInto(w, g, c0, Pos(thn, 0), m, q, c1, fuel); }
        else { FollowsInto(w, g, c0, Pos(els, 0), m, q, c2, fuel); }
    }
  }

  lemma SimulatesIfTrue(g: Code, p: Pos, s: Slot, r: Reg, thn: Label, els: Label, q: Pos, c1: Cmd, c2: Cmd)
    requires Has(g, p, TruthTest(s, r, thn, els))
    requires Simulates(g, Pos(thn, 0), q, c1) && Simulates(g, Pos(els, 0), q, c2)
    ensures Simulates(g, p, q, IfTrue(s, c1, c2))
  {
    forall w: World, prev: Label, regs: Regs, m: Memory, fuel: nat
      ensures Follows(w, g, At(p.b, p.i, prev, regs, m), q, Exec(w, IfTrue(s, c1, c2), m, fuel))
    {
      var c0 := At(p.b, p.i, prev, regs, m);
      TruthTestJumps(w, g, c0, s, r, thn, els);
      match Deref(m, s)
      case None =>
      case Some(a) =>
        if w.isTrue(m.heap[a]) != 0 { FollowsInto(w, g, c0, Pos(thn, 0), m, q, c1, fuel); }
        else { FollowsInto(w, g, c0, Pos(els, 0), m, q, c2, fuel); }
    }
  }

  /** A loop: the test at `start`, whose body runs back to `start`. */
  lemma {:induction false} LoopFollows(w: World, g: Code, c0: Conf, start: Label, s: Slot, r: Reg, body: Label,
                                       merge: Label, c: Cmd, m: Memory, fuel: nat)
    requires Has(g, Pos(start, 0), TruthTest(s, r, body, merge))
    requires Simulates(g, Pos(body, 0), Pos(start, 0), c)
    requires Arrives(w, g, c0, Pos(start, 0), m)
    ensures Follows(w, g, c0, Pos(merge, 0), Exec(w, WhileTrue(s, c), m, fuel))
    decreases fuel
  {
    if fuel > 0 {
      var prev, regs :| Reach(w, g, c0, At(start, 0, prev, regs, m));
      var d := At(start, 0, prev, regs, m);
      TruthTestJumps(w, g, d, s, r, body, merge);
      match Deref(m, s)
      case None => ReachTrans(w, g, c0, d, Crashed);
      case Some(a) =>
        ArrivesAfter(w, g, c0, d, Pos(if w.isTrue(m.heap[a]) != 0 then body else merge, 0), m);
        if w.isTrue(m.heap[a]) != 0 {
          FollowsInto(w, g, c0, Pos(body, 0), m, Pos(start, 0), c, fuel - 1);
          match Exec(w, c, m, fuel - 1)
          case Done(m1) => LoopFollows(w, g, c0, start, s, r, body, merge, c, m1, fuel - 1);
          case _ =>
        }
    }
  }

  lemma SimulatesWhile(g: Code, p: Pos, start: Label, s: Slot, r: Reg, body: Label, merge: Label, c: Cmd)
    requires Has(g, p, [Br(start)]) && Has(g, Pos(start, 0), TruthTest(s, r, body, merge))
    requires Simulates(g, Pos(body, 0), Pos(start, 0), c)
    ensures Simulates(g, p, Pos(merge, 0), WhileTrue(s, c))
  {
    forall w: World, prev: Label, regs: Regs, m: Memory, fuel: nat
      ensures Follows(w, g, At(p.b, p.i, prev, regs, m), Pos(merge, 0), Exec(w, WhileTrue(s, c), m, fuel))
    {
      var c0 := At(p.b, p.i, prev, regs, m);
      ReachSelf(w, g, c0);
      ArrivesJump(w, g, c0, p, m, start);
      LoopFollows(w, g, c0, start, s, r, body, merge, c, m, fuel);
    }
  }
}
