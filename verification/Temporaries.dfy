/**
 The allocator of temporary variables: pools by branch, location and type, from which idle temporaries
 are reused.
 */
module Temporaries {
  import opened Wrappers
  import opened Branches
  import opened Names
  import opened Scopes

  datatype Location = Heap | NonTracked | NonTrackedUninitialized | HeapLiteral | Stack | Observe | ObserveNullify

  datatype Pool = Pool(branch: nat, location: Location, typeName: string)

  datatype Temp = Temp(name: string, idle: bool, reusable: bool, doublePointer: bool)

  type Pools = map<Pool, seq<Temp>>

  function PoolOf(pools: Pools, p: Pool): seq<Temp> {
    if p in pools then pools[p] else []
  }

  /** A temporary that cannot be reused is never idle. */
  function SetIdle(t: Temp, idle: bool): Temp {
    t.(idle := t.reusable && idle)
  }

  predicate Reusable(t: Temp) {
    t.idle && !t.doublePointer
  }

  /** The first temporary that may be reused, or the length. */
  function FirstIdle(s: seq<Temp>): (i: nat)
    ensures i <= |s| && (i < |s| ==> Reusable(s[i])) && forall j :: 0 <= j < i ==> !Reusable(s[j])
  {
    if s == [] || Reusable(s[0]) then 0 else 1 + FirstIdle(s[1..])
  }

  datatype Handed = Handed(pools: Pools, count: nat, name: string, reused: bool)

  /** reuseTempVariable, and a fresh temporary if it finds none. */
  function Request(pools: Pools, count: nat, location: Location, typeName: string, b: Branch): Handed {
    var p := Pool(b.id, location, typeName);
    var s := PoolOf(pools, p);
    var i := FirstIdle(s);
    if i < |s| then Handed(pools[p := s[i := SetIdle(s[i], false)]], count, s[i].name, true)
    else
      var name := NameFor(TempName(count), typeName, b);
      Handed(pools[p := s + [Temp(name, false, true, false)]], count + 1, name, false)
  }

  /** The branch that the name of a temporary says it belongs to; the external branch if it says nothing. */
  function OwnerOf(name: string): int {
    match NamedBranch(name)
    case None => 1
    case Some(id) => id
  }

  function Idled(t: Temp, id: int): Temp {
    if OwnerOf(t.name) == id then SetIdle(t, true) else t
  }

  function IdleIn(s: seq<Temp>, id: int): seq<Temp> {
    seq(|s|, i requires 0 <= i < |s| => Idled(s[i], id))
  }

  /** markTemporalVariablesIdle, for the current branch */
  function MarkIdle(pools: Pools, id: int): Pools {
    map p | p in pools :: if p.branch == id then IdleIn(pools[p], id) else pools[p]
  }

  /** Something done by the holder of a temporary. */
  datatype Change = BecomeIdle(idle: bool) | BecomeReusable(reusable: bool) | BecomeDouble(double: bool)

  function Changed(t: Temp, c: Change): Temp {
    match c
    case BecomeIdle(idle) => SetIdle(t, idle)
    case BecomeReusable(reusable) => t.(reusable := reusable)
    case BecomeDouble(double) => t.(doublePointer := double)
  }

  function ChangeIn(s: seq<Temp>, name: string, c: Change): seq<Temp> {
    seq(|s|, i requires 0 <= i < |s| => if s[i].name == name then Changed(s[i], c) else s[i])
  }

  function ChangeTemp(pools: Pools, name: string, c: Change): Pools {
    map p | p in pools :: ChangeIn(pools[p], name, c)
  }

  // Runs

  datatype State = State(pools: Pools, count: nat, branch: Branch, log: seq<Branch>)

  datatype Step =
    | Ask(location: Location, typeName: string)
    | Do(name: string, change: Change)
    | Open(kind: BranchType)
    | Close

  function After(s: Step, st: State): State {
    match s
    case Ask(location, typeName) =>
      var h := Request(st.pools, st.count, location, typeName, st.branch);
      st.(pools := h.pools, count := h.count)
    case Do(name, change) => st.(pools := ChangeTemp(st.pools, name, change))
    case Open(kind) =>
      var b := Branch(Some(st.branch), st.branch.level + 1, |st.log| + 1, kind, None);
      st.(branch := b, log := st.log + [b])
    case Close =>
      if st.branch.parent == None then st
      else st.(pools := MarkIdle(st.pools, st.branch.id), branch := st.branch.parent.value)
  }

  function HandedOut(s: Step, st: State): Option<string> {
    match s
    case Ask(location, typeName) => Some(Request(st.pools, st.count, location, typeName, st.branch).name)
    case _ => None
  }

  function StateAt(steps: seq<Step>, st: State, k: nat): State
    requires k <= |steps|
  {
    if k == 0 then st else After(steps[k - 1], StateAt(steps, st, k - 1))
  }

  // What every run keeps

  /** Whether a temporary of that name is in some pool, and whether it is idle there. */
  ghost predicate Known(pools: Pools, name: string) {
    exists p, i :: p in pools && 0 <= i < |pools[p]| && pools[p][i].name == name
  }

  ghost predicate Idle(pools: Pools, name: string) {
    exists p, i :: p in pools && 0 <= i < |pools[p]| && pools[p][i].name == name && pools[p][i].idle
  }

  /** Temporaries have different names, numbered below the counter. */
  ghost predicate Distinct(pools: Pools, count: nat) {
    && (forall p, i :: p in pools && 0 <= i < |pools[p]| ==> NumberOf(pools[p][i].name) < count)
    && (forall p, i, q, j ::
          p in pools && 0 <= i < |pools[p]| && q in pools && 0 <= j < |pools[q]| && pools[p][i].name == pools[q][j].name ==>
            p == q && i == j)
  }

  /** Names say the branch of their pool, except in the root branch and for call caches. */
  ghost predicate Owned(pools: Pools, log: seq<Branch>) {
    forall p <- pools :: p.branch <= |log| && AllOwned(pools[p], Owner(p, log))
  }

  predicate AllOwned(s: seq<Temp>, owner: int) {
    forall i :: 0 <= i < |s| ==> OwnerOf(s[i].name) == owner
  }

  function Owner(p: Pool, log: seq<Branch>): int {
    if p.typeName == CACHE_ENTRY || Plain(log, p.branch) then 1 else p.branch
  }

  ghost predicate Inv(st: State) {
    && History(st.log) && Recorded(st.log, st.branch)
    && Distinct(st.pools, st.count) && Owned(st.pools, st.log)
  }

  /** Asking for a temporary of a type that is not a superglobal's name. */
  lemma FreshName(count: nat, typeName: string, b: Branch)
    ensures NumberOf(NameFor(TempName(count), typeName, b)) == count
    ensures OwnerOf(NameFor(TempName(count), typeName, b)) ==
            if typeName == CACHE_ENTRY || b.id <= 1 || b.kind == Root then 1 else b.id
  {
    var name := TempName(count);
    var id := KeyFor(name, typeName, b);
    var plain := id <= 1 || b.kind == Root;
    TempNamesAreNumbered(count, id, plain);
    GeneratedNamesAreReadBack(name, id, plain);
    assert IsDigit(Decimal(count)[0]) && name[1] == Decimal(count)[0];
  }

  ghost predicate SameNames(pools: Pools, to: Pools) {
    && pools.Keys == to.Keys
    && (forall p <- pools :: |to[p]| == |pools[p]|)
    && (forall p, i :: p in pools && 0 <= i < |pools[p]| ==> to[p][i].name == pools[p][i].name)
  }

  lemma SameNamesKeep(pools: Pools, to: Pools, count: nat, log: seq<Branch>)
    requires Distinct(pools, count) && Owned(pools, log) && SameNames(pools, to)
    ensures Distinct(to, count) && Owned(to, log)
  {
    forall p <- to ensures p.branch <= |log| && AllOwned(to[p], Owner(p, log)) {
      assert AllOwned(pools[p], Owner(p, log));
    }
    forall p, i | p in to && 0 <= i < |to[p]| ensures NumberOf(to[p][i].name) < count {
      assert to[p][i].name == pools[p][i].name;
    }
    forall p, i, q, j | p in to && 0 <= i < |to[p]| && q in to && 0 <= j < |to[q]| && to[p][i].name == to[q][j].name
      ensures p == q && i == j
    {
      assert to[p][i].name == pools[p][i].name && to[q][j].name == pools[q][j].name;
    }
  }

  /** Adding a temporary with the next number. */
  lemma AppendKeeps(pools: Pools, count: nat, p: Pool, t: Temp, log: seq<Branch>)
    requires Distinct(pools, count) && Owned(pools, log)
    requires NumberOf(t.name) == count && p.branch <= |log| && OwnerOf(t.name) == Owner(p, log)
    ensures var to := pools[p := PoolOf(pools, p) + [t]]; Distinct(to, count + 1) && Owned(to, log)
  {
    var to: Pools := pools[p := PoolOf(pools, p) + [t]];
    forall q <- to ensures q.branch <= |log| && AllOwned(to[q], Owner(q, log)) {
      assert q in pools ==> AllOwned(pools[q], Owner(q, log));
    }
    forall q, i | q in to && 0 <= i < |to[q]|
      ensures (q in pools && i < |pools[q]| && to[q][i] == pools[q][i]) || (q == p && i == |to[p]| - 1 && to[q][i] == t)
      ensures NumberOf(to[q][i].name) < count + 1
    {
    }
  }

  lemma ReuseKeepsNames(pools: Pools, p: Pool, i: nat)
    requires p in pools && i < |pools[p]|
    ensures SameNames(pools, pools[p := pools[p][i := SetIdle(pools[p][i], false)]])
  {
  }

  lemma RequestKeeps(pools: Pools, count: nat, location: Location, typeName: string, b: Branch, log: seq<Branch>)
    requires Distinct(pools, count) && Owned(pools, log) && Recorded(log, b)
    ensures var h := Request(pools, count, location, typeName, b);
      Distinct(h.pools, h.count) && Owned(h.pools, log)
  {
    var h := Request(pools, count, location, typeName, b);
    var p := Pool(b.id, location, typeName);
    if h.reused {
      ReuseKeepsNames(pools, p, FirstIdle(pools[p]));
      SameNamesKeep(pools, h.pools, count, log);
    } else {
      MadeKeeps(pools, count, p, b, log);
    }
  }

  lemma MadeKeeps(pools: Pools, count: nat, p: Pool, b: Branch, log: seq<Branch>)
    requires Distinct(pools, count) && Owned(pools, log) && Recorded(log, b) && p.branch == b.id
    ensures var t := Temp(NameFor(TempName(count), p.typeName, b), false, true, false);
      var to := pools[p := PoolOf(pools, p) + [t]];
      Distinct(to, count + 1) && Owned(to, log)
  {
    FreshName(count, p.typeName, b);
    AppendKeeps(pools, count, p, Temp(NameFor(TempName(count), p.typeName, b), false, true, false), log);
  }

  lemma OpeningKeeps(st: State, b: Branch)
    requires Inv(st) && b == Branch(Some(st.branch), st.branch.level + 1, |st.log| + 1, b.kind, None)
    ensures Inv(st.(branch := b, log := st.log + [b]))
  {
    RecordedIsWellFormed(st.log, st.branch);
    HistoryExtends(st.log, b);
    forall p <- st.pools ensures p.branch <= |st.log + [b]| && AllOwned(st.pools[p], Owner(p, st.log + [b])) {
      assert AllOwned(st.pools[p], Owner(p, st.log)) && p.branch <= |st.log|;
    }
  }

  lemma ClosingKeeps(st: State)
    requires Inv(st) && st.branch.parent.Some?
    ensures Inv(st.(pools := MarkIdle(st.pools, st.branch.id), branch := st.branch.parent.value))
  {
    SameNamesKeep(st.pools, MarkIdle(st.pools, st.branch.id), st.count, st.log);
    AncestorsAreRecorded(st.log, st.branch.parent.value, st.branch);
  }

  lemma StepKeeps(s: Step, st: State)
    requires Inv(st)
    ensures Inv(After(s, st))
  {
    match s
    case Ask(location, typeName) => RequestKeeps(st.pools, st.count, location, typeName, st.branch, st.log);
    case Do(name, change) => SameNamesKeep(st.pools, ChangeTemp(st.pools, name, change), st.count, st.log);
    case Open(_) => OpeningKeeps(st, After(s, st).branch);
    case Close =>
      if st.branch.parent.Some? {
        ClosingKeeps(st);
      }
  }

  lemma {:induction false} RunKeeps(steps: seq<Step>, st: State, k: nat)
    requires Inv(st) && k <= |steps|
    ensures Inv(StateAt(steps, st, k))
  {
    if k > 0 {
      RunKeeps(steps, st, k - 1);
      StepKeeps(steps[k - 1], StateAt(steps, st, k - 1));
    }
  }

  // A temporary in use is never handed out

  lemma {:induction false} KnownStays(steps: seq<Step>, st: State, k: nat, n: nat, name: string)
    requires k <= n <= |steps| && Known(StateAt(steps, st, k).pools, name)
    ensures Known(StateAt(steps, st, n).pools, name)
  {
    if k < n {
      KnownStays(steps, st, k, n - 1, name);
      KnownStep(steps[n - 1], StateAt(steps, st, n - 1), name);
    }
  }

  lemma KnownStep(s: Step, st: State, name: string)
    requires Known(st.pools, name)
    ensures Known(After(s, st).pools, name)
  {
    var p, i :| p in st.pools && 0 <= i < |st.pools[p]| && st.pools[p][i].name == name;
    var to: Pools := After(s, st).pools;
    assert p in to && i < |to[p]| && to[p][i].name == name;
  }

  /** What a request hands out is busy afterwards, and was either unknown or idle before. */
  lemma HandedOutIsBusy(s: Step, st: State)
    requires Inv(st) && s.Ask?
    ensures var name := HandedOut(s, st).value;
      && Known(After(s, st).pools, name) && !Idle(After(s, st).pools, name)
      && (Known(st.pools, name) ==> Idle(st.pools, name))
  {
    StepKeeps(s, st);
    var h := Request(st.pools, st.count, s.location, s.typeName, st.branch);
    var p := Pool(st.branch.id, s.location, s.typeName);
    var i := FirstIdle(PoolOf(st.pools, p));
    assert p in h.pools && i < |h.pools[p]| && h.pools[p][i].name == h.name && !h.pools[p][i].idle;
    if h.reused {
      assert p in st.pools && st.pools[p][i].name == h.name && st.pools[p][i].idle;
    } else {
      FreshName(st.count, s.typeName, st.branch);
    }
  }

  /** The temporary of that name becomes idle between two moments of a run. */
  ghost predicate BecomesIdle(steps: seq<Step>, st: State, name: string, from: nat, to: nat)
    requires to <= |steps|
  {
    exists k :: from <= k < to && !Idle(StateAt(steps, st, k).pools, name) && Idle(StateAt(steps, st, k + 1).pools, name)
  }

  lemma {:induction false} SomeFlip(flags: seq<bool>, from: nat, to: nat) returns (k: nat)
    requires from <= to < |flags| && !flags[from] && flags[to]
    ensures from <= k < to && !flags[k] && flags[k + 1]
  {
    if flags[to - 1] {
      k := SomeFlip(flags, from, to - 1);
    } else {
      k := to - 1;
    }
  }

  lemma SomeStepIdles(steps: seq<Step>, st: State, name: string, from: nat, to: nat)
    requires from <= to <= |steps|
    requires !Idle(StateAt(steps, st, from).pools, name) && Idle(StateAt(steps, st, to).pools, name)
    ensures BecomesIdle(steps, st, name, from, to)
  {
    var flags := seq(|steps| + 1, k requires 0 <= k <= |steps| => Idle(StateAt(steps, st, k).pools, name));
    var k := SomeFlip(flags, from, to);
  }

  /** In every run, a temporary that is handed out twice became idle in between. */
  lemma NeverSharedWhileBusy(steps: seq<Step>, st: State, i: nat, j: nat)
    requires Inv(st) && i < j < |steps| && steps[i].Ask? && steps[j].Ask?
    requires HandedOut(steps[i], StateAt(steps, st, i)) == HandedOut(steps[j], StateAt(steps, st, j))
    ensures BecomesIdle(steps, st, HandedOut(steps[i], StateAt(steps, st, i)).value, i + 1, j)
  {
    var name := HandedOut(steps[i], StateAt(steps, st, i)).value;
    RunKeeps(steps, st, i);
    RunKeeps(steps, st, j);
    HandedOutIsBusy(steps[i], StateAt(steps, st, i));
    assert StateAt(steps, st, i + 1) == After(steps[i], StateAt(steps, st, i));
    KnownStays(steps, st, i + 1, j, name);
    HandedOutIsBusy(steps[j], StateAt(steps, st, j));
    SomeStepIdles(steps, st, name, i + 1, j);
  }

  lemma AskingIdlesNothing(s: Step, st: State, p: Pool, i: nat)
    requires s.Ask? && p in After(s, st).pools && i < |After(s, st).pools[p]| && After(s, st).pools[p][i].idle
    ensures p in st.pools && i < |st.pools[p]| && st.pools[p][i] == After(s, st).pools[p][i]
  {
  }

  /** Only marking it, or closing the block it belongs to, makes a temporary idle. */
  lemma WhatMakesIdle(s: Step, st: State, name: string)
    requires !Idle(st.pools, name) && Idle(After(s, st).pools, name)
    ensures s == Do(name, BecomeIdle(true)) || (s.Close? && st.branch.id == OwnerOf(name))
  {
    var to: Pools := After(s, st).pools;
    var p, i :| p in to && 0 <= i < |to[p]| && to[p][i].name == name && to[p][i].idle;
    match s
    case Ask(_, _) => AskingIdlesNothing(s, st, p, i);
    case Open(_) =>
    case Do(_, change) => assert st.pools[p][i].name == name && !st.pools[p][i].idle;
    case Close => assert st.pools[p][i].name == name && !st.pools[p][i].idle;
  }

  /** A request reuses a temporary of the very same branch, location and type, and only makes one if none is idle. */
  lemma RequestsReuse(s: Step, st: State)
    requires s.Ask?
    ensures var h := Request(st.pools, st.count, s.location, s.typeName, st.branch);
      var own := PoolOf(st.pools, Pool(st.branch.id, s.location, s.typeName));
      && (h.reused <==> exists t <- own :: Reusable(t))
      && (h.reused ==> exists t <- own :: Reusable(t) && t.name == h.name)
      && (h.reused ==> h.count == st.count)
  {
    var own := PoolOf(st.pools, Pool(st.branch.id, s.location, s.typeName));
    var i := FirstIdle(own);
    if i < |own| {
      assert own[i] in own;
    }
  }

  /**
   Closing an inner block makes exactly its reusable temporaries idle, except those of call caches;
   closing the root block leaves all temporaries as they are.
   */
  lemma ClosingIdles(st: State, p: Pool, i: nat)
    requires Inv(st) && st.branch.parent.Some? && p in st.pools && i < |st.pools[p]|
    ensures var t := st.pools[p][i];
      After(Close, st).pools[p][i] ==
      if p.branch == st.branch.id && st.branch.kind != Root && p.typeName != CACHE_ENTRY then SetIdle(t, true) else t
  {
    InnerIds(st.log, st.branch);
    IdledPool(st.pools[p], p, st.log, st.branch, i);
  }

  lemma IdledPool(s: seq<Temp>, p: Pool, log: seq<Branch>, b: Branch, i: nat)
    requires i < |s| && 1 < b.id <= |log| && log[b.id - 1] == b && p.branch <= |log| && AllOwned(s, Owner(p, log))
    ensures (if p.branch == b.id then IdleIn(s, b.id) else s)[i] ==
            if p.branch == b.id && b.kind != Root && p.typeName != CACHE_ENTRY then SetIdle(s[i], true) else s[i]
  {
    assert OwnerOf(s[i].name) == Owner(p, log);
  }

  lemma InnerIds(log: seq<Branch>, b: Branch)
    requires History(log) && Recorded(log, b) && b.parent.Some?
    ensures b.id > 1 && log[b.id - 1] == b
  {
    assert OpenedAt(log, b.id - 1);
  }
}
