/**
 The heap of reference-counted values that emitted code works on.

 A slot is a stack cell holding a zval pointer; slots are what the builder calls a value
 reference.  The helpers called by emitted code (allocation, destructors, the memory frame)
 appear here as their contracts.
 */
module Zval {
  import opened Wrappers

  type Addr = nat
  type Slot = nat

  /** Reference counts are unsigned 32-bit words. */
  const WORD := 0x1_0000_0000

  datatype Tag = NullTag | BoolTag | LongTag | DoubleTag | OtherTag(code: nat)

  /** The value union, by the member last written. */
  datatype Payload = Long(n: int) | Double(d: real) | Bytes(bits: nat)

  datatype Zval = Zval(refcount: nat, isref: bool, tag: Tag, payload: Payload)

  /** `frame` lists the slots observed by the active memory frame, oldest first. */
  datatype Memory = Memory(heap: map<Addr, Zval>, slots: map<Slot, Option<Addr>>, frame: seq<Slot>)

  /**
   What the library decides: which address the allocator hands out given the live ones, the
   stale contents of that address, what a destroyed body leaves behind, and the conversions.
   */
  datatype World = World(
    alloc: set<Addr> -> Addr,
    garbage: Addr -> Zval,
    scrap: Zval -> Payload,
    intval: Zval -> int,
    doubleval: Zval -> real,
    isTrue: Zval -> int)

  /** The allocator never hands out an address that is in use. */
  ghost predicate Lawful(w: World) {
    forall used: set<Addr> :: w.alloc(used) !in used
  }

  /** One helper emission: everything between two branch instructions is made of these. */
  datatype Op =
    | AddRef(s: Slot)
    | DelRef(s: Slot)
    | SetRefcount(s: Slot, n: nat)
    | UnsetIsref(s: Slot)
    | SetNull(s: Slot)
    | SetBool(s: Slot, flag: bool)
    | SetLong(s: Slot, long: int)
    | SetDouble(s: Slot, double: real)
    | Emalloc(s: Slot)
    | Dtor(s: Slot)
    | PtrDtor(s: Slot)
    | MemoryAlloc(s: Slot)
    | Observe(s: Slot)
    | Assign(dst: Slot, src: Slot)
    | Declare(s: Slot)

  /** The literals of assignments, null apart. */
  datatype Literal = Boolean(b: bool) | Integer(n: int) | Floating(d: real)

  function Store(s: Slot, v: Literal): Op {
    match v
    case Boolean(b) => SetBool(s, b)
    case Integer(n) => SetLong(s, n)
    case Floating(d) => SetDouble(s, d)
  }

  /** A Boolean is extended with zeros to fill the long of the value union. */
  function Extended(b: bool): int {
    if b then 1 else 0
  }

  /** The live zval a slot points to, if any. */
  function Deref(m: Memory, s: Slot): Option<Addr> {
    if s in m.slots && m.slots[s].Some? && m.slots[s].value in m.heap then m.slots[s] else None
  }

  /** Registers a slot in the memory frame; registering a slot twice aborts the process. */
  function ObserveSlot(m: Memory, s: Slot): Option<Memory> {
    if s !in m.slots || s in m.frame then None else Some(m.(frame := m.frame + [s]))
  }

  function FreshZval(w: World, a: Addr): Zval {
    Zval(1, false, NullTag, w.garbage(a).payload)
  }

  /** The effect of one helper; None is a crash: a null or dangling dereference, or an abort. */
  function Apply(w: World, op: Op, m: Memory): Option<Memory> {
    match op
    case Emalloc(s) =>
      if s !in m.slots then None else
      var a := w.alloc(m.heap.Keys);
      Some(m.(heap := m.heap[a := w.garbage(a)], slots := m.slots[s := Some(a)]))
    case MemoryAlloc(s) =>
      (match ObserveSlot(m, s)
       case None => None
       case Some(m1) =>
         var a := w.alloc(m1.heap.Keys);
         Some(m1.(heap := m1.heap[a := FreshZval(w, a)], slots := m1.slots[s := Some(a)])))
    case Observe(s) =>
      (match ObserveSlot(m, s)
       case None => None
       case Some(m1) => Some(m1.(slots := m1.slots[s := None])))
    case Assign(dst, src) =>
      if dst !in m.slots || src !in m.slots then None
      else Some(m.(slots := m.slots[dst := m.slots[src]]))
    case Declare(s) =>
      Some(m.(slots := m.slots[s := None]))
    case _ =>
      (match Deref(m, op.s)
       case None => None
       case Some(a) => ApplyAt(w, op, m, a))
  }

  /** The helpers that work on the zval a slot points to. */
  function ApplyAt(w: World, op: Op, m: Memory, a: Addr): Option<Memory>
    requires a in m.heap
  {
    var z := m.heap[a];
    match op
    case AddRef(_) => Some(m.(heap := m.heap[a := z.(refcount := (z.refcount + 1) % WORD)]))
    case DelRef(_) => Some(m.(heap := m.heap[a := z.(refcount := (z.refcount - 1) % WORD)]))
    case SetRefcount(_, n) => Some(m.(heap := m.heap[a := z.(refcount := n)]))
    case UnsetIsref(_) => Some(m.(heap := m.heap[a := z.(isref := false)]))
    case SetNull(_) => Some(m.(heap := m.heap[a := z.(tag := NullTag)]))
    case SetBool(_, b) => Some(m.(heap := m.heap[a := z.(tag := BoolTag, payload := Long(Extended(b)))]))
    case SetLong(_, n) => Some(m.(heap := m.heap[a := z.(tag := LongTag, payload := Long(n))]))
    case SetDouble(_, d) => Some(m.(heap := m.heap[a := z.(tag := DoubleTag, payload := Double(d))]))
    case Dtor(_) => Some(m.(heap := m.heap[a := z.(payload := w.scrap(z))]))
    case PtrDtor(_) =>
      var rc := (z.refcount - 1) % WORD;
      if rc == 0 then Some(m.(heap := m.heap - {a}))
      else Some(m.(heap := m.heap[a := z.(refcount := rc, isref := if rc == 1 then false else z.isref)]))
    case _ => None
  }

  /** Leaving the method: every observed slot gives its reference back, in order. */
  function Release(m: Memory, todo: seq<Slot>): Option<Memory>
    decreases |todo|
  {
    if todo == [] then Some(m)
    else if todo[0] !in m.slots then None
    else match m.slots[todo[0]]
      case None => Release(m, todo[1..])
      case Some(a) =>
        if a !in m.heap then None
        else if m.heap[a].refcount == 1 then Release(m.(heap := m.heap - {a}), todo[1..])
        else
          var z := m.heap[a].(refcount := (m.heap[a].refcount - 1) % WORD);
          Release(m.(heap := m.heap[a := z]), todo[1..])
  }

  /** Structured commands over slots: what the emitted block graphs stand for. */
  datatype Cmd =
    | Skip
    | Do(op: Op)
    | Then(first: Cmd, second: Cmd)
    | IfNotNull(s: Slot, thn: Cmd, els: Cmd)
    | IfRefcountAbove(s: Slot, k: nat, thn: Cmd, els: Cmd)
    | IfTrue(s: Slot, thn: Cmd, els: Cmd)
    | WhileTrue(s: Slot, body: Cmd)

  datatype Result = Done(m: Memory) | Crash | Timeout

  function Exec(w: World, c: Cmd, m: Memory, fuel: nat): Result
    decreases fuel, c
  {
    match c
    case Skip => Done(m)
    case Do(op) => (match Apply(w, op, m) case None => Crash case Some(m1) => Done(m1))
    case Then(c1, c2) =>
      (match Exec(w, c1, m, fuel)
       case Done(m1) => Exec(w, c2, m1, fuel)
       case r => r)
    case IfNotNull(s, c1, c2) =>
      if s !in m.slots then Crash
      else if m.slots[s].Some? then Exec(w, c1, m, fuel) else Exec(w, c2, m, fuel)
    case IfRefcountAbove(s, k, c1, c2) =>
      (match Deref(m, s)
       case None => Crash
       case Some(a) => if m.heap[a].refcount > k then Exec(w, c1, m, fuel) else Exec(w, c2, m, fuel))
    case IfTrue(s, c1, c2) =>
      (match Deref(m, s)
       case None => Crash
       case Some(a) => if w.isTrue(m.heap[a]) != 0 then Exec(w, c1, m, fuel) else Exec(w, c2, m, fuel))
    case WhileTrue(s, body) =>
      if fuel == 0 then Timeout else
      (match Deref(m, s)
       case None => Crash
       case Some(a) =>
         if w.isTrue(m.heap[a]) == 0 then Done(m) else
         match Exec(w, body, m, fuel - 1)
         case Done(m1) => Exec(w, c, m1, fuel - 1)
         case r => r)
  }

  /** The macro ZEPHIR_INIT_NVAR. */
  function InitNvar(s: Slot): Cmd {
    IfNotNull(s, RenewNotNull(s), Do(MemoryAlloc(s)))
  }

  /** Its branch for a slot that holds a zval. */
  function RenewNotNull(s: Slot): Cmd {
    Then(IfRefcountAbove(s, 1, RenewShared(s), Do(Dtor(s))), Do(SetNull(s)))
  }

  /** For a zval that others hold: leave it to them and take a new one. */
  function RenewShared(s: Slot): Cmd {
    Then(Do(DelRef(s)), Then(Do(Emalloc(s)), Then(Do(SetRefcount(s, 1)), Do(UnsetIsref(s)))))
  }

  /** The macro ZEPHIR_CPY_WRT. */
  function CopyOnWrite(d: Slot, v: Slot): Cmd {
    Then(
      IfNotNull(d, DropHeld(d), Do(Observe(d))),
      Then(Do(AddRef(v)), Do(Assign(d, v))))
  }

  function DropHeld(d: Slot): Cmd {
    IfRefcountAbove(d, 0, Do(PtrDtor(d)), Skip)
  }
}
