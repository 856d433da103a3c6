/**
 Reference counts stay exact.  Every live zval counts the slots that point to it plus the
 references `ext` held elsewhere (arrays, properties, the caller).
 */
module RefCounts {
  import opened Wrappers
  import opened Zval

  ghost function Owners(slots: map<Slot, Option<Addr>>, a: Addr): set<Slot> {
    set s | s in slots && slots[s] == Some(a)
  }

  /** Counts are exact, nothing dangles, and the frame lists exactly the slots that hold a zval. */
  ghost predicate Exact(m: Memory, ext: multiset<Addr>) {
    NothingDangles(m, ext) && Counted(m, ext) && Countable(m, ext) && Tracked(m)
  }

  ghost predicate NothingDangles(m: Memory, ext: multiset<Addr>) {
    && (forall s :: s in m.slots && m.slots[s].Some? ==> m.slots[s].value in m.heap)
    && (forall a :: a in ext ==> a in m.heap)
  }

  ghost predicate Counted(m: Memory, ext: multiset<Addr>) {
    forall a :: a in m.heap ==> 0 < m.heap[a].refcount == |Owners(m.slots, a)| + ext[a]
  }

  /** No count can reach the 32-bit limit, since no zval has that many holders. */
  ghost predicate Countable(m: Memory, ext: multiset<Addr>) {
    forall a :: |m.slots| + ext[a] < WORD
  }

  ghost predicate Tracked(m: Memory) {
    && (forall s :: s in m.frame <==> s in m.slots && m.slots[s].Some?)
    && (forall i, j :: 0 <= i < j < |m.frame| ==> m.frame[i] != m.frame[j])
  }

  /** What a slot holds, ignoring who else holds it: nothing, or a tag and a payload. */
  function Held(m: Memory, s: Slot): Option<(Tag, Payload)> {
    match Deref(m, s)
    case None => None
    case Some(a) => Some((m.heap[a].tag, m.heap[a].payload))
  }

  lemma OwnersAfterStore(slots: map<Slot, Option<Addr>>, s: Slot, v: Option<Addr>, a: Addr)
    requires s in slots
    ensures |Owners(slots[s := v], a)| ==
            |Owners(slots, a)| - (if slots[s] == Some(a) then 1 else 0) + (if v == Some(a) then 1 else 0)
  {
    var rest := Owners(slots, a) - {s};
    assert Owners(slots[s := v], a) == if v == Some(a) then rest + {s} else rest;
    assert Owners(slots, a) == if slots[s] == Some(a) then rest + {s} else rest;
  }

  lemma OwnersBound(slots: map<Slot, Option<Addr>>, a: Addr)
    ensures |Owners(slots, a)| <= |slots|
  {
    Within(Owners(slots, a), slots.Keys);
  }

  lemma Within<T>(a: set<T>, b: set<T>)
    requires a <= b
    ensures |a| <= |b|
  {
    assert b == a + (b - a);
  }

  lemma KeptSlots(slots: map<Slot, Option<Addr>>, s: Slot, v: Option<Addr>)
    requires s in slots
    ensures |slots[s := v]| == |slots|
  {
    assert slots[s := v].Keys == slots.Keys;
    assert |slots[s := v]| == |slots[s := v].Keys| == |slots|;
  }

  /** Re-initialization in one formula. */
  function Renewed(w: World, m: Memory, s: Slot): Memory
    requires s in m.slots
  {
    match m.slots[s]
    case None => Allocated(w, m, s)
    case Some(a) =>
      if a !in m.heap then m
      else if m.heap[a].refcount > 1 then
        var old' := m.heap[a := m.heap[a].(refcount := (m.heap[a].refcount - 1) % WORD)];
        var b := w.alloc(old'.Keys);
        m.(heap := old'[b := FreshZval(w, b)], slots := m.slots[s := Some(b)])
      else
        m.(heap := m.heap[a := m.heap[a].(tag := NullTag, payload := w.scrap(m.heap[a]))])
  }

  function Allocated(w: World, m: Memory, s: Slot): Memory
    requires s in m.slots
  {
    var b := w.alloc(m.heap.Keys);
    Memory(m.heap[b := FreshZval(w, b)], m.slots[s := Some(b)], m.frame + [s])
  }

  lemma InitNvarIsRenewed(w: World, m: Memory, s: Slot, fuel: nat)
    requires Lawful(w) && s in m.slots
    requires m.slots[s].Some? ==> m.slots[s].value in m.heap
    requires m.slots[s].None? ==> s !in m.frame
    ensures Exec(w, InitNvar(s), m, fuel) == Done(Renewed(w, m, s))
  {
    if m.slots[s].Some? {
      if m.heap[m.slots[s].value].refcount > 1 {
        SharedIsRenewed(w, m, s, fuel);
      } else {
        SoleIsRenewed(w, m, s, fuel);
      }
    }
  }

  lemma SharedIsRenewed(w: World, m: Memory, s: Slot, fuel: nat)
    requires Lawful(w) && s in m.slots && m.slots[s].Some? && m.slots[s].value in m.heap
    requires m.heap[m.slots[s].value].refcount > 1
    ensures Exec(w, RenewNotNull(s), m, fuel) == Done(Renewed(w, m, s))
  {
    var a := m.slots[s].value;
    var shared := m.heap[a := m.heap[a].(refcount := (m.heap[a].refcount - 1) % WORD)];
    var m1 := m.(heap := shared);
    assert Apply(w, DelRef(s), m) == Some(m1);
    TakesFresh(w, m1, s, fuel);
    var b := w.alloc(shared.Keys);
    var m4 := Renewed(w, m, s).(heap := shared[b := FreshZval(w, b).(tag := w.garbage(b).tag)]);
    assert Exec(w, RenewShared(s), m, fuel) == Done(m4);
    assert Exec(w, IfRefcountAbove(s, 1, RenewShared(s), Do(Dtor(s))), m, fuel) == Done(m4);
    assert m4.heap[b := FreshZval(w, b)] == shared[b := FreshZval(w, b)];
    assert Apply(w, SetNull(s), m4) == Some(Renewed(w, m, s));
  }

  /** A new zval of count one, whatever its memory held before. */
  lemma TakesFresh(w: World, m: Memory, s: Slot, fuel: nat)
    requires s in m.slots
    ensures var b := w.alloc(m.heap.Keys);
      Exec(w, Then(Do(Emalloc(s)), Then(Do(SetRefcount(s, 1)), Do(UnsetIsref(s)))), m, fuel) ==
      Done(m.(heap := m.heap[b := FreshZval(w, b).(tag := w.garbage(b).tag)], slots := m.slots[s := Some(b)]))
  {
    var b := w.alloc(m.heap.Keys);
    var m2 := m.(heap := m.heap[b := w.garbage(b)], slots := m.slots[s := Some(b)]);
    var m3 := m2.(heap := m2.heap[b := w.garbage(b).(refcount := 1)]);
    assert Apply(w, Emalloc(s), m) == Some(m2) && Apply(w, SetRefcount(s, 1), m2) == Some(m3);
    assert Exec(w, Then(Do(SetRefcount(s, 1)), Do(UnsetIsref(s))), m2, fuel) == Done(Apply(w, UnsetIsref(s), m3).value);
  }

  lemma SoleIsRenewed(w: World, m: Memory, s: Slot, fuel: nat)
    requires Lawful(w) && s in m.slots && m.slots[s].Some? && m.slots[s].value in m.heap
    requires m.heap[m.slots[s].value].refcount <= 1
    ensures Exec(w, RenewNotNull(s), m, fuel) == Done(Renewed(w, m, s))
  {
    var m1 := Apply(w, Dtor(s), m).value;
    assert Exec(w, IfRefcountAbove(s, 1, RenewShared(s), Do(Dtor(s))), m, fuel) == Done(m1);
    assert Apply(w, SetNull(s), m1).value == Renewed(w, m, s);
  }

  lemma AllocatedExact(w: World, m: Memory, ext: multiset<Addr>, s: Slot)
    requires Lawful(w) && Exact(m, ext) && s in m.slots && m.slots[s].None?
    ensures Exact(Allocated(w, m, s), ext)
  {
    var b := w.alloc(m.heap.Keys);
    var m' := Allocated(w, m, s);
    PointsToFresh(m, ext, s, b, FreshZval(w, b), m');
  }

  /** Storing a fresh zval of count one in a slot that held nothing, or a zval others still hold. */
  lemma PointsToFresh(m: Memory, ext: multiset<Addr>, s: Slot, b: Addr, z: Zval, m': Memory)
    requires Exact(m, ext) && s in m.slots && b !in m.heap && z.refcount == 1
    requires m'.slots == m.slots[s := Some(b)]
    requires match m.slots[s]
      case None => m'.heap == m.heap[b := z] && m'.frame == m.frame + [s]
      case Some(c) =>
        && m.heap[c].refcount > 1 && m'.frame == m.frame
        && m'.heap == m.heap[c := m.heap[c].(refcount := m.heap[c].refcount - 1)][b := z]
    ensures Exact(m', ext)
  {
    KeptSlots(m.slots, s, Some(b));
    assert Owners(m.slots, b) == {};
    assert Counted(m', ext) by {
      forall a | a in m'.heap
        ensures 0 < m'.heap[a].refcount == |Owners(m'.slots, a)| + ext[a]
      {
        OwnersAfterStore(m.slots, s, Some(b), a);
      }
    }
  }

  lemma RenewedExact(w: World, m: Memory, ext: multiset<Addr>, s: Slot)
    requires Lawful(w) && Exact(m, ext) && s in m.slots
    ensures Exact(Renewed(w, m, s), ext)
  {
    match m.slots[s]
    case None => AllocatedExact(w, m, ext, s);
    case Some(c) =>
      if m.heap[c].refcount > 1 {
        var shared := m.heap[c := m.heap[c].(refcount := (m.heap[c].refcount - 1) % WORD)];
        var b := w.alloc(shared.Keys);
        CountBound(m, ext, c);
        PointsToFresh(m, ext, s, b, FreshZval(w, b), Renewed(w, m, s));
      } else {
        SameCounts(m, ext, Renewed(w, m, s));
      }
  }

  lemma CountBound(m: Memory, ext: multiset<Addr>, a: Addr)
    requires Exact(m, ext) && a in m.heap
    ensures m.heap[a].refcount < WORD
  {
    OwnersBound(m.slots, a);
  }

  lemma SameCounts(m: Memory, ext: multiset<Addr>, m': Memory)
    requires Exact(m, ext) && m'.slots == m.slots && m'.frame == m.frame && m'.heap.Keys == m.heap.Keys
    requires forall a :: a in m.heap ==> m'.heap[a].refcount == m.heap[a].refcount
    ensures Exact(m', ext)
  {
  }

  /** The slot's zval is null and no one else holds it. */
  ghost predicate OwnsNull(m: Memory, ext: multiset<Addr>, s: Slot) {
    && s in m.slots && m.slots[s].Some?
    && var a := m.slots[s].value;
    && a in m.heap && m.heap[a].refcount == 1 && m.heap[a].tag == NullTag
    && Owners(m.slots, a) == {s} && ext[a] == 0
  }

  /** Every other slot points where it did and reads the same value. */
  ghost predicate OthersKept(m: Memory, m': Memory, s: Slot) {
    && m'.slots.Keys == m.slots.Keys
    && forall t :: t in m.slots && t != s ==> m'.slots[t] == m.slots[t] && Held(m', t) == Held(m, t)
  }

  lemma RenewedOwnsNull(w: World, m: Memory, ext: multiset<Addr>, s: Slot)
    requires Lawful(w) && Exact(m, ext) && s in m.slots
    ensures OwnsNull(Renewed(w, m, s), ext, s)
  {
    RenewedExact(w, m, ext, s);
    var m' := Renewed(w, m, s);
    var a := m'.slots[s].value;
    assert s in Owners(m'.slots, a);
    assert Owners(m'.slots, a) == {s} + (Owners(m'.slots, a) - {s});
  }

  lemma RenewedKeepsOthers(w: World, m: Memory, ext: multiset<Addr>, s: Slot)
    requires Lawful(w) && Exact(m, ext) && s in m.slots
    ensures OthersKept(m, Renewed(w, m, s), s)
  {
    var m' := Renewed(w, m, s);
    assert m'.slots == m.slots[s := m'.slots[s]];
    forall t | t in m.slots && t != s
      ensures m'.slots[t] == m.slots[t] && Held(m', t) == Held(m, t)
    {
      if m.slots[t].Some? && m.slots[t] == m.slots[s] {
        var a := m.slots[t].value;
        assert {s, t} <= Owners(m.slots, a);
        Within({s, t}, Owners(m.slots, a));
      }
    }
  }

  /** Re-initialization keeps every count exact and gives the slot a null zval of its own. */
  lemma InitNvarExact(w: World, m: Memory, ext: multiset<Addr>, s: Slot, fuel: nat)
    requires Lawful(w) && Exact(m, ext) && s in m.slots
    ensures Exec(w, InitNvar(s), m, fuel).Done?
    ensures var m' := Exec(w, InitNvar(s), m, fuel).m;
      Exact(m', ext) && OwnsNull(m', ext, s) && OthersKept(m, m', s)
  {
    InitNvarIsRenewed(w, m, s, fuel);
    RenewedExact(w, m, ext, s);
    RenewedOwnsNull(w, m, ext, s);
    RenewedKeepsOthers(w, m, ext, s);
  }

  /** The plain allocation is re-initialization on a null slot, and aborts on any other. */
  lemma PlainAllocExact(w: World, m: Memory, ext: multiset<Addr>, s: Slot, fuel: nat)
    requires Lawful(w) && Exact(m, ext) && s in m.slots
    ensures Exec(w, Do(MemoryAlloc(s)), m, fuel).Crash? <==> m.slots[s].Some?
    ensures m.slots[s].None? ==> Exec(w, Do(MemoryAlloc(s)), m, fuel) == Exec(w, InitNvar(s), m, fuel)
  {
    if m.slots[s].None? { InitNvarIsRenewed(w, m, s, fuel); }
  }

  /** Giving up the reference in slot d, before d is overwritten. */
  function Dropped(m: Memory, d: Slot): Memory
    requires d in m.slots
  {
    match m.slots[d]
    case None => m.(frame := m.frame + [d])
    case Some(c) =>
      if c !in m.heap then m
      else if m.heap[c].refcount == 1 then m.(heap := m.heap - {c})
      else
        var rc := (m.heap[c].refcount - 1) % WORD;
        m.(heap := m.heap[c := m.heap[c].(refcount := rc, isref := if rc == 1 then false else m.heap[c].isref)])
  }

  function Copied(m: Memory, d: Slot, v: Slot): Memory
    requires d in m.slots && v in m.slots
  {
    var m1 := Dropped(m, d);
    match m1.slots[v]
    case None => m1
    case Some(b) =>
      if b !in m1.heap then m1
      else m1.(heap := m1.heap[b := m1.heap[b].(refcount := (m1.heap[b].refcount + 1) % WORD)],
               slots := m1.slots[d := Some(b)])
  }

  /**
   The emitted order drops the old value before counting the new one.  Copying a slot to itself is
   therefore a crash exactly when the slot is the only holder; copying from a null slot always is.
   */
  ghost predicate CopyCrashes(m: Memory, d: Slot, v: Slot)
    requires v in m.slots && (m.slots[v].Some? ==> m.slots[v].value in m.heap)
  {
    m.slots[v].None? || (d == v && m.heap[m.slots[v].value].refcount == 1)
  }

  lemma DropRuns(w: World, m: Memory, ext: multiset<Addr>, d: Slot, fuel: nat)
    requires Exact(m, ext) && d in m.slots
    ensures Exec(w, IfNotNull(d, IfRefcountAbove(d, 0, Do(PtrDtor(d)), Skip), Do(Observe(d))), m, fuel)
            == Done(Dropped(m, d))
  {
    match m.slots[d]
    case None =>
      assert m.slots[d := None] == m.slots;
      assert Apply(w, Observe(d), m) == Some(Dropped(m, d));
    case Some(c) =>
      CountBound(m, ext, c);
      assert Apply(w, PtrDtor(d), m) == Some(Dropped(m, d));
      assert Exec(w, IfRefcountAbove(d, 0, Do(PtrDtor(d)), Skip), m, fuel) == Done(Dropped(m, d));
  }

  /** What the two proofs below need to know about the counts. */
  ghost predicate CopyReady(m: Memory, d: Slot, v: Slot) {
    && d in m.slots && v in m.slots
    && (m.slots[v].Some? ==> m.slots[v].value in m.heap && m.heap[m.slots[v].value].refcount > 0)
    && (m.slots[d].Some? ==> m.slots[d].value in m.heap && 0 < m.heap[m.slots[d].value].refcount < WORD)
    && (m.slots[d].Some? && m.slots[d] == m.slots[v] && d != v ==> m.heap[m.slots[d].value].refcount > 1)
    && (m.slots[v].Some? && m.slots[v] != m.slots[d] ==> m.heap[m.slots[v].value].refcount + 1 < WORD)
  }

  lemma ExactIsCopyReady(m: Memory, ext: multiset<Addr>, d: Slot, v: Slot)
    requires Exact(m, ext) && d in m.slots && v in m.slots
    ensures CopyReady(m, d, v)
  {
    if m.slots[d].Some? {
      CountBound(m, ext, m.slots[d].value);
      if m.slots[d] == m.slots[v] && d != v {
        assert {d, v} <= Owners(m.slots, m.slots[d].value);
        Within({d, v}, Owners(m.slots, m.slots[d].value));
      }
    }
    if m.slots[v].Some? { OneMore(m, ext, d, m.slots[v].value); }
  }

  /** Counting one more reference in slot d does not overflow. */
  lemma OneMore(m: Memory, ext: multiset<Addr>, d: Slot, b: Addr)
    requires Exact(m, ext) && d in m.slots && b in m.heap
    ensures m.heap[b].refcount - (if m.slots[d] == Some(b) then 1 else 0) + 1 < WORD
  {
    OwnersBound(m.slots[d := Some(b)], b);
    OwnersAfterStore(m.slots, d, Some(b), b);
    KeptSlots(m.slots, d, Some(b));
  }

  lemma TakeRuns(w: World, m: Memory, d: Slot, v: Slot, fuel: nat)
    requires CopyReady(m, d, v)
    ensures Exec(w, Then(Do(AddRef(v)), Do(Assign(d, v))), Dropped(m, d), fuel) ==
            if CopyCrashes(m, d, v) then Crash else Done(Copied(m, d, v))
  {
    var m1 := Dropped(m, d);
    if !CopyCrashes(m, d, v) {
      var m2 := Apply(w, AddRef(v), m1).value;
      assert Apply(w, Assign(d, v), m2) == Some(Copied(m, d, v));
    }
  }

  lemma CopyRuns(w: World, m: Memory, ext: multiset<Addr>, d: Slot, v: Slot, fuel: nat)
    requires Exact(m, ext) && d in m.slots && v in m.slots
    ensures Exec(w, CopyOnWrite(d, v), m, fuel) ==
            if CopyCrashes(m, d, v) then Crash else Done(Copied(m, d, v))
  {
    DropRuns(w, m, ext, d, fuel);
    ExactIsCopyReady(m, ext, d, v);
    TakeRuns(w, m, d, v, fuel);
  }

  lemma SoleOwner(m: Memory, ext: multiset<Addr>, d: Slot)
    requires Exact(m, ext) && d in m.slots && m.slots[d].Some? && m.heap[m.slots[d].value].refcount == 1
    ensures Owners(m.slots, m.slots[d].value) == {d} && ext[m.slots[d].value] == 0
  {
    var own := Owners(m.slots, m.slots[d].value);
    assert d in own;
    assert own == {d} + (own - {d});
  }

  /** Slot d gives up its reference, if any, and takes one to b. */
  ghost predicate MovesReference(m: Memory, d: Slot, b: Addr, m': Memory)
    requires d in m.slots
  {
    && b in m.heap && m'.slots == m.slots[d := Some(b)]
    && m'.frame == (if m.slots[d].None? then m.frame + [d] else m.frame)
    && (forall a :: a in m.heap && a !in m'.heap ==> m.slots[d] == Some(a) != Some(b) && m.heap[a].refcount == 1)
    && (forall a :: a in m'.heap ==>
          && a in m.heap && m'.heap[a].tag == m.heap[a].tag && m'.heap[a].payload == m.heap[a].payload
          && (a == b || m.slots[d] != Some(a) || m.heap[a].refcount > 1)
          && m'.heap[a].refcount ==
               m.heap[a].refcount - (if m.slots[d] == Some(a) then 1 else 0) + (if a == b then 1 else 0))
  }

  lemma MovedExact(m: Memory, ext: multiset<Addr>, d: Slot, b: Addr, m': Memory)
    requires Exact(m, ext) && d in m.slots && MovesReference(m, d, b, m')
    ensures Exact(m', ext) && OthersKept(m, m', d)
  {
    KeptSlots(m.slots, d, Some(b));
    MovedCounts(m, ext, d, b, m');
    MovedOthers(m, ext, d, b, m');
  }

  lemma MovedCounts(m: Memory, ext: multiset<Addr>, d: Slot, b: Addr, m': Memory)
    requires Counted(m, ext) && d in m.slots && MovesReference(m, d, b, m')
    ensures Counted(m', ext)
  {
    forall a | a in m'.heap
      ensures 0 < m'.heap[a].refcount == |Owners(m'.slots, a)| + ext[a]
    {
      OwnersAfterStore(m.slots, d, Some(b), a);
    }
  }

  /** What is freed was held by slot d alone. */
  lemma MovedOthers(m: Memory, ext: multiset<Addr>, d: Slot, b: Addr, m': Memory)
    requires Exact(m, ext) && d in m.slots && MovesReference(m, d, b, m')
    ensures OthersKept(m, m', d) && NothingDangles(m', ext)
  {
    forall a | a in m.heap && a !in m'.heap
      ensures Owners(m.slots, a) == {d} && ext[a] == 0
    {
      SoleOwner(m, ext, d);
    }
    forall t | t in m.slots && t != d
      ensures m'.slots[t] == m.slots[t] && Held(m', t) == Held(m, t)
      ensures m.slots[t].Some? ==> m.slots[t].value in m'.heap
    {
      assert m.slots[t].Some? ==> t in Owners(m.slots, m.slots[t].value);
    }
  }

  lemma CopiedMoves(m: Memory, d: Slot, v: Slot)
    requires CopyReady(m, d, v) && !CopyCrashes(m, d, v)
    ensures MovesReference(m, d, m.slots[v].value, Copied(m, d, v))
  {
    DroppedGives(m, d);
    var b, m1 := m.slots[v].value, Dropped(m, d);
    assert m1.slots == m.slots && b in m1.heap;
  }

  lemma DroppedGives(m: Memory, d: Slot)
    requires d in m.slots && (m.slots[d].Some? ==> m.slots[d].value in m.heap && 0 < m.heap[m.slots[d].value].refcount < WORD)
    ensures forall a | a in m.heap && m.slots[d] != Some(a) :: a in Dropped(m, d).heap && Dropped(m, d).heap[a] == m.heap[a]
    ensures forall a | a in m.heap && m.slots[d] == Some(a) ::
      if m.heap[a].refcount == 1 then a !in Dropped(m, d).heap
      else a in Dropped(m, d).heap && Dropped(m, d).heap[a].refcount == m.heap[a].refcount - 1
  {
  }

  /** Copy on write between slots: who crashes, and what every slot holds afterwards. */
  lemma CopyOnWriteExact(w: World, m: Memory, ext: multiset<Addr>, d: Slot, v: Slot, fuel: nat)
    requires Exact(m, ext) && d in m.slots && v in m.slots
    ensures Exec(w, CopyOnWrite(d, v), m, fuel).Crash? <==> CopyCrashes(m, d, v)
    ensures !CopyCrashes(m, d, v) ==>
      && Exec(w, CopyOnWrite(d, v), m, fuel).Done?
      && var m' := Exec(w, CopyOnWrite(d, v), m, fuel).m;
      Exact(m', ext) && OthersKept(m, m', d) && m'.slots[d] == m.slots[v] && Held(m', d) == Held(m, v)
  {
    CopyRuns(w, m, ext, d, v, fuel);
    if !CopyCrashes(m, d, v) {
      ExactIsCopyReady(m, ext, d, v);
      CopiedMoves(m, d, v);
      MovedExact(m, ext, d, m.slots[v].value, Copied(m, d, v));
    }
  }

  /** What a slot holds after the literal is stored. */
  function Stored(v: Literal): (Tag, Payload) {
    match v
    case Boolean(b) => (BoolTag, Long(Extended(b)))
    case Integer(n) => (LongTag, Long(n))
    case Floating(d) => (DoubleTag, Double(d))
  }

  lemma ThenOp(w: World, c: Cmd, op: Op, m: Memory, m1: Memory, fuel: nat)
    requires Exec(w, c, m, fuel) == Done(m1) && Apply(w, op, m1).Some?
    ensures Exec(w, Then(c, Do(op)), m, fuel) == Done(Apply(w, op, m1).value)
  {
  }

  /** A literal assignment: re-initialize, then write the value. */
  lemma LiteralExact(w: World, m: Memory, ext: multiset<Addr>, s: Slot, v: Literal, fuel: nat)
    requires Lawful(w) && Exact(m, ext) && s in m.slots
    ensures Exec(w, Then(InitNvar(s), Do(Store(s, v))), m, fuel).Done?
    ensures var m' := Exec(w, Then(InitNvar(s), Do(Store(s, v))), m, fuel).m;
      Exact(m', ext) && OthersKept(m, m', s) && Held(m', s) == Some(Stored(v))
  {
    InitNvarExact(w, m, ext, s, fuel);
    var m1 := Exec(w, InitNvar(s), m, fuel).m;
    WrittenExact(w, m, m1, ext, s, v);
    ThenOp(w, InitNvar(s), Store(s, v), m, m1, fuel);
  }

  function Written(m: Memory, s: Slot, v: Literal): Memory
    requires Deref(m, s).Some?
  {
    var a := m.slots[s].value;
    m.(heap := m.heap[a := m.heap[a].(tag := Stored(v).0, payload := Stored(v).1)])
  }

  lemma StoreApplies(w: World, m: Memory, s: Slot, v: Literal)
    requires Deref(m, s).Some?
    ensures Apply(w, Store(s, v), m) == Some(Written(m, s, v))
  {
  }

  /** Writing to a zval that only this slot holds. */
  lemma WrittenExact(w: World, m: Memory, m1: Memory, ext: multiset<Addr>, s: Slot, v: Literal)
    requires Exact(m1, ext) && OwnsNull(m1, ext, s) && OthersKept(m, m1, s)
    ensures Apply(w, Store(s, v), m1).Some?
    ensures var m2 := Apply(w, Store(s, v), m1).value;
      Exact(m2, ext) && OthersKept(m, m2, s) && Held(m2, s) == Some(Stored(v))
  {
    StoreApplies(w, m1, s, v);
    var a, m2 := m1.slots[s].value, Written(m1, s, v);
    SameCounts(m1, ext, m2);
    forall t | t in m.slots && t != s
      ensures m2.slots[t] == m.slots[t] && Held(m2, t) == Held(m, t)
    {
      assert t !in Owners(m1.slots, a);
    }
  }

  ghost function OwnersIn(m: Memory, todo: seq<Slot>, a: Addr): set<Slot> {
    set s | s in todo && s in m.slots && m.slots[s] == Some(a)
  }

  /** Half-way through the release, counts are exact for the slots still to be visited. */
  ghost predicate ExactFor(m: Memory, todo: seq<Slot>, ext: multiset<Addr>) {
    && (forall s :: s in todo ==> s in m.slots && m.slots[s].Some? && m.slots[s].value in m.heap)
    && (forall i, j :: 0 <= i < j < |todo| ==> todo[i] != todo[j])
    && (forall a :: a in m.heap ==> 0 < m.heap[a].refcount == |OwnersIn(m, todo, a)| + ext[a] < WORD)
    && (forall a :: a in ext ==> a in m.heap)
  }

  /** One slot gives its reference back. */
  function Given(m: Memory, a: Addr): Memory
    requires a in m.heap
  {
    if m.heap[a].refcount == 1 then m.(heap := m.heap - {a})
    else m.(heap := m.heap[a := m.heap[a].(refcount := (m.heap[a].refcount - 1) % WORD)])
  }

  lemma OwnersAfterVisit(m: Memory, todo: seq<Slot>, b: Addr)
    requires todo != [] && todo[0] in m.slots && forall j :: 0 < j < |todo| ==> todo[0] != todo[j]
    ensures |OwnersIn(m, todo[1..], b)| == |OwnersIn(m, todo, b)| - (if m.slots[todo[0]] == Some(b) then 1 else 0)
  {
    var s, rest := todo[0], todo[1..];
    assert forall t :: t in todo <==> t == s || t in rest;
    var own := OwnersIn(m, todo, b);
    assert OwnersIn(m, rest, b) == own - {s};
    if m.slots[s] == Some(b) { assert own == (own - {s}) + {s}; } else { assert own - {s} == own; }
  }

  lemma GivenExactFor(m: Memory, todo: seq<Slot>, ext: multiset<Addr>)
    requires todo != [] && ExactFor(m, todo, ext)
    ensures ExactFor(Given(m, m.slots[todo[0]].value), todo[1..], ext)
  {
    var rest := todo[1..];
    var a := m.slots[todo[0]].value;
    var m1 := Given(m, a);
    assert todo[0] in OwnersIn(m, todo, a);
    forall b | b in m1.heap
      ensures 0 < m1.heap[b].refcount == |OwnersIn(m1, rest, b)| + ext[b] < WORD
    {
      OwnersAfterVisit(m, todo, b);
      assert OwnersIn(m1, rest, b) == OwnersIn(m, rest, b);
    }
    forall t | t in rest
      ensures t in m1.slots && m1.slots[t].Some? && m1.slots[t].value in m1.heap
    {
      OwnersAfterVisit(m, todo, a);
      assert m.slots[t] == Some(a) ==> t in OwnersIn(m, rest, a);
    }
  }

  lemma {:induction false} ReleaseVisits(m: Memory, todo: seq<Slot>, ext: multiset<Addr>)
    requires ExactFor(m, todo, ext)
    ensures Release(m, todo).Some?
    ensures var m' := Release(m, todo).value;
      forall a :: (a in m'.heap <==> a in ext) && (a in ext ==> m'.heap[a].refcount == ext[a])
    decreases |todo|
  {
    if todo == [] {
      forall a | a in m.heap ensures OwnersIn(m, todo, a) == {} {}
    } else {
      GivenExactFor(m, todo, ext);
      ReleaseVisits(Given(m, m.slots[todo[0]].value), todo[1..], ext);
    }
  }

  /** No leak and no double free: what is left is exactly what others hold, with their counts. */
  lemma ReleaseLeavesOnlyExternal(m: Memory, ext: multiset<Addr>)
    requires Exact(m, ext)
    ensures Release(m, m.frame).Some?
    ensures var m' := Release(m, m.frame).value;
      forall a :: (a in m'.heap <==> a in ext) && (a in ext ==> m'.heap[a].refcount == ext[a])
  {
    forall a | a in m.heap
      ensures OwnersIn(m, m.frame, a) == Owners(m.slots, a) && m.heap[a].refcount < WORD
    {
      CountBound(m, ext, a);
    }
    ReleaseVisits(m, m.frame, ext);
  }
}
