/**
 What every part of the compile walk keeps: the place, the discipline of initialization macros, the
 records of initializing branches, and what those records prove about the emitted code.
 */
module Walks {
  import opened Wrappers
  import opened Branches
  import opened Variables
  import opened Statements

  // Summaries of code

  /** The macros that code applies to x. */
  function Ops(code: seq<Code>, x: string): set<Op> {
    if code == [] then {} else OpsOf(code[0], x) + Ops(code[1..], x)
  }

  function OpsOf(c: Code, x: string): set<Op> {
    match c
    case Emit(Init(y, op)) => if y == x then {op} else {}
    case Emit(_) => {}
    case MayThrow => {}
    case Either(yes, no) => Ops(yes, x) + Ops(no, x)
    case Forever(b) => Ops(b, x)
    case Repeat(b, t) => Ops(b, x) + Ops(t, x)
    case Each(b) => Ops(b, x)
    case Once(b) => Ops(b, x)
    case Guarded(b, h) => Ops(b, x) + Ops(h, x)
    case Leave(_) => {}
  }

  predicate SomeFirst(ops: set<Op>) {
    exists op <- ops :: First(op)
  }

  predicate SomeCounted(ops: set<Op>) {
    exists op <- ops :: Counted(op)
  }

  /** No first-time macro of x where one of its counted macros may have run before. */
  predicate Ordered(code: seq<Code>, x: string) {
    code == [] ||
    (&& OrderedIn(code[0], x) && Ordered(code[1..], x)
     && !(SomeCounted(OpsOf(code[0], x)) && SomeFirst(Ops(code[1..], x))))
  }

  predicate OrderedIn(c: Code, x: string) {
    match c
    case Emit(_) => true
    case MayThrow => true
    case Either(yes, no) => Ordered(yes, x) && Ordered(no, x)
    case Forever(b) => !SomeFirst(Ops(b, x))
    case Repeat(b, t) => !SomeFirst(Ops(b, x) + Ops(t, x))
    case Each(b) => !SomeFirst(Ops(b, x))
    case Once(b) => Ordered(b, x)
    case Guarded(b, h) => Ordered(b, x) && Ordered(h, x) && !(SomeCounted(Ops(b, x)) && SomeFirst(Ops(h, x)))
    case Leave(_) => true
  }

  /** The variables that straight-line code assigns. */
  function Sure(code: seq<Code>): set<string> {
    if code == [] then {} else SureOf(code[0]) + Sure(code[1..])
  }

  function SureOf(c: Code): set<string> {
    if c.Emit? && c.event.Assigned? then {c.event.name} else {}
  }

  /** Accepted on more than declarations, targets, and assignments of a variable to itself. */
  predicate SomeGuaranteed(vias: set<MarkKind>) {
    exists k <- vias :: Guaranteed(k)
  }

  /** Where the variables in `known` are assigned, every guaranteed read finds its variable assigned. */
  predicate Covered(code: seq<Code>, known: set<string>) {
    code == [] || (CoveredIn(code[0], known) && Covered(code[1..], known + SureOf(code[0])))
  }

  predicate CoveredIn(c: Code, known: set<string>) {
    match c
    case Emit(Reading(x, vias)) => SomeGuaranteed(vias) ==> x in known
    case Emit(_) => true
    case MayThrow => true
    case Either(yes, no) => Covered(yes, known) && Covered(no, known)
    case Forever(b) => Covered(b, known)
    case Repeat(b, t) => Covered(b, known) && Covered(t, known)
    case Each(b) => Covered(b, known)
    case Once(b) => Covered(b, known)
    case Guarded(b, h) => Covered(b, known) && Covered(h, known)
    case Leave(_) => true
  }

  /** The exits that leave the code. */
  function Exits(code: seq<Code>): set<Exit> {
    if code == [] then {} else ExitsOf(code[0]) + Exits(code[1..])
  }

  function ExitsOf(c: Code): set<Exit> {
    match c
    case Emit(_) => {}
    case MayThrow => {Throws}
    case Either(yes, no) => Exits(yes) + Exits(no)
    case Forever(b) => Exits(b) - {Breaks, Continues}
    case Repeat(b, t) => (Exits(b) - {Breaks, Continues}) + Exits(t)
    case Each(b) => Exits(b) - {Breaks, Continues}
    case Once(b) => Exits(b) - {Breaks, Continues}
    case Guarded(b, h) => Exits(b) + Exits(h)
    case Leave(e) => {e}
  }

  lemma Single(c: Code, x: string, known: set<string>)
    ensures Ops([c], x) == OpsOf(c, x) && (Ordered([c], x) <==> OrderedIn(c, x))
    ensures Sure([c]) == SureOf(c) && (Covered([c], known) <==> CoveredIn(c, known))
    ensures Exits([c]) == ExitsOf(c)
  {
    assert [c][1..] == [];
    assert Ordered([c][1..], x) && Covered([c][1..], known + SureOf(c));
  }

  lemma {:induction false} OpsThen(a: seq<Code>, b: seq<Code>, x: string)
    ensures Ops(a + b, x) == Ops(a, x) + Ops(b, x)
  {
    if a == [] {
      assert a + b == b;
    } else {
      OpsThen(a[1..], b, x);
      assert (a + b)[1..] == a[1..] + b;
    }
  }

  lemma {:induction false} OrderedThen(a: seq<Code>, b: seq<Code>, x: string)
    requires Ordered(a, x) && Ordered(b, x) && !(SomeCounted(Ops(a, x)) && SomeFirst(Ops(b, x)))
    ensures Ordered(a + b, x)
  {
    if a == [] {
      assert a + b == b;
    } else {
      OrderedThen(a[1..], b, x);
      OpsThen(a[1..], b, x);
      assert (a + b)[1..] == a[1..] + b;
    }
  }

  lemma {:induction false} SureThen(a: seq<Code>, b: seq<Code>)
    ensures Sure(a + b) == Sure(a) + Sure(b)
  {
    if a == [] {
      assert a + b == b;
    } else {
      SureThen(a[1..], b);
      assert (a + b)[1..] == a[1..] + b;
    }
  }

  lemma {:induction false} ExitsThen(a: seq<Code>, b: seq<Code>)
    ensures Exits(a + b) == Exits(a) + Exits(b)
  {
    if a == [] {
      assert a + b == b;
    } else {
      ExitsThen(a[1..], b);
      assert (a + b)[1..] == a[1..] + b;
    }
  }

  lemma {:induction false} CoveredMore(code: seq<Code>, known: set<string>, more: set<string>)
    requires Covered(code, known) && known <= more
    ensures Covered(code, more)
    decreases code, 0
  {
    if code != [] {
      CoveredInMore(code[0], known, more);
      CoveredMore(code[1..], known + SureOf(code[0]), more + SureOf(code[0]));
    }
  }

  lemma {:induction false} CoveredInMore(c: Code, known: set<string>, more: set<string>)
    requires CoveredIn(c, known) && known <= more
    ensures CoveredIn(c, more)
    decreases c, 1
  {
    match c
    case Either(yes, no) => CoveredMore(yes, known, more); CoveredMore(no, known, more);
    case Forever(b) => CoveredMore(b, known, more);
    case Repeat(b, t) => CoveredMore(b, known, more); CoveredMore(t, known, more);
    case Each(b) => CoveredMore(b, known, more);
    case Once(b) => CoveredMore(b, known, more);
    case Guarded(b, h) => CoveredMore(b, known, more); CoveredMore(h, known, more);
    case _ =>
  }

  lemma {:induction false} CoveredThen(a: seq<Code>, b: seq<Code>, known: set<string>)
    requires Covered(a, known) && Covered(b, known + Sure(a))
    ensures Covered(a + b, known)
  {
    if a == [] {
      assert a + b == b;
      assert known + Sure(a) == known;
    } else {
      assert known + Sure(a) == known + SureOf(a[0]) + Sure(a[1..]);
      CoveredThen(a[1..], b, known + SureOf(a[0]));
      assert (a + b)[1..] == a[1..] + b;
    }
  }

  // What the walk keeps

  ghost predicate Inv(st: State) {
    var p := st.place;
    && p.branch.Some? && History(st.log) && Recorded(st.log, p.branch.value) && p.level == p.branch.value.level + 1
    && p.cycle >= 0 && st.inSwitch >= 0 && p.depth >= 0
    && (forall x <- st.vars :: Placed(st.vars[x], st.log))
  }

  ghost predicate Placed(v: VarState, log: seq<Branch>) {
    Sound(v) && MarksRecorded(v.marks, log) && Recorded(log, v.home)
  }

  ghost predicate MarksRecorded(marks: seq<Mark>, log: seq<Branch>) {
    forall m <- marks :: Recorded(log, m.branch)
  }

  /** Place and log. */
  ghost predicate Restores(st: State, to: State) {
    && to.place == st.place && to.checks == st.checks && st.log <= to.log && st.inSwitch <= to.inSwitch
    && (forall x <- st.vars :: x in to.vars && Later(st.vars[x], to.vars[x]))
  }

  predicate SettledIn(st: State, x: string) {
    x in st.vars && Settled(st.vars[x])
  }

  predicate Null(st: State, x: string) {
    x in st.vars && st.vars[x].mustInitNull
  }

  function Marks(st: State, x: string): seq<Mark> {
    if x in st.vars then st.vars[x].marks else []
  }

  /** The macros of x that the code may run, against its counters before and after. */
  ghost predicate Initializes(x: string, st: State, code: seq<Code>, to: State) {
    && ((SettledIn(st, x) || st.place.cycle > 0) ==> !SomeFirst(Ops(code, x)))
    && (SomeCounted(Ops(code, x)) ==> SettledIn(to, x))
    && (forall op <- Ops(code, x) :: op != InitBnvar && (First(op) || Null(to, x)))
    && Ordered(code, x)
  }

  /** A branch that cannot vouch for a read outside of the code compiled from st on. */
  predicate Inner(b: Branch, st: State) {
    b.id > |st.log| && !Safe(b.kind)
  }

  /** New records are made for the current branch, or for branches opened meanwhile. */
  ghost predicate Records(x: string, st: State, to: State) {
    && Marks(st, x) <= Marks(to, x)
    && (forall i :: |Marks(st, x)| <= i < |Marks(to, x)| ==>
          var b := Marks(to, x)[i].branch; Some(b) == st.place.branch || Inner(b, st))
    && (x !in st.vars && x in to.vars ==> Some(to.vars[x].home) == st.place.branch || Inner(to.vars[x].home, st))
  }

  /** The variables that a guaranteed record vouches for. */
  function Known(st: State): set<string> {
    set x <- st.vars | VouchedFor(st.vars[x].marks, st.place.branch)
  }

  predicate VouchedFor(marks: seq<Mark>, current: Option<Branch>) {
    exists m <- marks :: Guaranteed(m.kind) && Vouches(m, current)
  }

  /** Jumps that leave the code are inside a loop or a `switch`. */
  predicate Jumps(st: State, code: seq<Code>, to: State) {
    && (Breaks in Exits(code) ==> st.place.cycle > 0 || to.inSwitch > 0)
    && (Continues in Exits(code) ==> st.place.cycle > 0)
  }

  ghost predicate Facts(st: State, code: seq<Code>, to: State) {
    && Inv(to) && Restores(st, to)
    && (forall x :: Initializes(x, st, code, to))
    && (forall x :: Records(x, st, to))
    && Covered(code, Known(st))
    && Jumps(st, code, to)
  }

  /** Straight-line code: what it assigns is known afterwards. */
  ghost predicate Kept(st: State, code: seq<Code>, to: State) {
    Facts(st, code, to) && Known(to) <= Known(st) + Sure(code)
  }

  /** Code that may or may not run to its end: nothing more is known afterwards. */
  ghost predicate KeptBlock(st: State, code: seq<Code>, to: State) {
    Facts(st, code, to) && Known(to) <= Known(st)
  }

  lemma Nothing(st: State)
    requires Inv(st)
    ensures Kept(st, [], st) && KeptBlock(st, [], st)
  {
  }

  lemma InitializesThen(x: string, a: State, c: seq<Code>, b: State, d: seq<Code>, e: State)
    requires Initializes(x, a, c, b) && Initializes(x, b, d, e) && Restores(a, b) && Restores(b, e)
    ensures Initializes(x, a, c + d, e)
  {
    OpsThen(c, d, x);
    OrderedThen(c, d, x);
  }

  lemma RecordsThen(x: string, a: State, b: State, e: State)
    requires Records(x, a, b) && Records(x, b, e) && Restores(a, b) && Restores(b, e)
    ensures Records(x, a, e)
  {
  }

  lemma FactsThen(a: State, c: seq<Code>, b: State, d: seq<Code>, e: State)
    requires Facts(a, c, b) && Facts(b, d, e) && Known(b) <= Known(a) + Sure(c)
    ensures Facts(a, c + d, e)
  {
    forall x ensures Initializes(x, a, c + d, e) && Records(x, a, e) {
      InitializesThen(x, a, c, b, d, e);
      RecordsThen(x, a, b, e);
    }
    CoveredMore(d, Known(b), Known(a) + Sure(c));
    CoveredThen(c, d, Known(a));
    ExitsThen(c, d);
  }

  lemma KeptThen(a: State, c: seq<Code>, b: State, d: seq<Code>, e: State)
    requires Kept(a, c, b) && Kept(b, d, e)
    ensures Kept(a, c + d, e)
  {
    FactsThen(a, c, b, d, e);
    SureThen(c, d);
  }

  lemma KeptBlockThen(a: State, c: seq<Code>, b: State, d: seq<Code>, e: State)
    requires KeptBlock(a, c, b) && KeptBlock(b, d, e)
    ensures KeptBlock(a, c + d, e)
  {
    FactsThen(a, c, b, d, e);
  }

  // Single actions

  function Put(st: State, x: string, w: VarState): State {
    st.(vars := st.vars[x := w])
  }

  lemma PutInv(st: State, x: string, w: VarState)
    requires Inv(st) && x in st.vars && Sound(w) && Later(st.vars[x], w) && MarksRecorded(w.marks, st.log)
    ensures Inv(Put(st, x, w)) && Restores(st, Put(st, x, w))
  {
  }

  lemma PutKnown(st: State, x: string, w: VarState, more: set<string>)
    requires x in st.vars && Later(st.vars[x], w)
    requires VouchedFor(w.marks, st.place.branch) ==> x in Known(st) + more
    ensures Known(Put(st, x, w)) <= Known(st) + more
  {
  }

  /** Emitting about x alone while updating x alone. */
  lemma Touch(st: State, x: string, w: VarState, code: seq<Code>)
    requires Inv(st) && x in st.vars && Sound(w) && Later(st.vars[x], w) && MarksRecorded(w.marks, st.log)
    requires forall y :: y != x ==> Ops(code, y) == {} && Ordered(code, y)
    requires Initializes(x, st, code, Put(st, x, w))
    requires forall i :: |st.vars[x].marks| <= i < |w.marks| ==> Some(w.marks[i].branch) == st.place.branch
    requires Covered(code, Known(st)) && Exits(code) <= {Throws}
    requires VouchedFor(w.marks, st.place.branch) ==> x in Known(st) + Sure(code)
    ensures Kept(st, code, Put(st, x, w))
  {
    PutInv(st, x, w);
    PutKnown(st, x, w, Sure(code));
    var to := Put(st, x, w);
    forall y ensures Initializes(y, st, code, to) && Records(y, st, to) {
      if y != x {
        assert SettledIn(st, y) == SettledIn(to, y) && Marks(to, y) == Marks(st, y);
      }
    }
  }

  /** One event about x. */
  predicate Careful(st: State, x: string, w: VarState, e: Event) {
    match e
    case Init(y, op) =>
      && y == x && op != InitBnvar
      && (if First(op) then !SettledIn(st, x) && st.place.cycle == 0 else w.mustInitNull)
      && (Counted(op) ==> Settled(w))
    case Assigned(y) => y == x
    case Reading(y, vias) => SomeGuaranteed(vias) ==> y in Known(st)
  }

  lemma TouchAtom(st: State, x: string, w: VarState, c: Code)
    requires Inv(st) && x in st.vars && Sound(w) && Later(st.vars[x], w) && w.marks == st.vars[x].marks
    requires (c.Emit? && Careful(st, x, w, c.event)) || c == MayThrow
    ensures Kept(st, [c], Put(st, x, w))
  {
    forall y ensures Ops([c], y) == OpsOf(c, y) && Ordered([c], y) {
      Single(c, y, Known(st));
    }
    Single(c, x, Known(st));
    Touch(st, x, w, [c]);
  }

  lemma TouchOnce(st: State, x: string, w: VarState, e: Event)
    requires Inv(st) && x in st.vars && Sound(w) && Later(st.vars[x], w) && w.marks == st.vars[x].marks
    requires Careful(st, x, w, e)
    ensures Kept(st, [Emit(e)], Put(st, x, w))
  {
    TouchAtom(st, x, w, Emit(e));
  }

  lemma TouchSilently(st: State, x: string, w: VarState)
    requires Inv(st) && x in st.vars && Sound(w) && Later(st.vars[x], w) && w.marks == st.vars[x].marks
    ensures Kept(st, [], Put(st, x, w))
  {
    Touch(st, x, w, []);
  }
}
