/**
 The symbol table of a method: variables by branch, and the temporaries that can be reused.
 */
module SymbolTable {
  import opened Wrappers
  import opened Branches
  import opened Names
  import opened Scopes
  import opened Variables
  import T = Temporaries

  function TempOf(v: Variable): T.Temp
    reads v
  {
    T.Temp(v.name, v.idle, v.reusable, v.doublePointer)
  }

  function TempsOf(s: seq<Variable>): seq<T.Temp>
    reads s
  {
    seq(|s|, i requires 0 <= i < |s| reads s => TempOf(s[i]))
  }

  method SomeKey<K(==)>(keys: set<K>) returns (k: K)
    requires keys != {}
    ensures k in keys
  {
    k :| k in keys;
  }

  ghost function Registered(pools: map<T.Pool, seq<Variable>>): set<Variable> {
    set p, i | p in pools && 0 <= i < |pools[p]| :: pools[p][i]
  }

  lemma RegisteredThen(pools: map<T.Pool, seq<Variable>>, p: T.Pool, v: Variable)
    ensures var own := if p in pools then pools[p] else []; Registered(pools[p := own + [v]]) == Registered(pools) + {v}
  {
    var own := if p in pools then pools[p] else [];
    var to: map<T.Pool, seq<Variable>> := pools[p := own + [v]];
    forall w | w in Registered(pools) + {v} ensures w in Registered(to) {
      if w == v {
        assert to[p][|own|] == v;
      } else {
        var q, i :| q in pools && 0 <= i < |pools[q]| && pools[q][i] == w;
        assert q in to && to[q][i] == w;
      }
    }
  }

  method NewSymbol(typeName: string, name: string, home: Branch, localOnly: bool) returns (v: Variable)
    ensures fresh(v) && v.name == name && !v.idle && v.reusable && !v.doublePointer
    ensures v.State() == VarState(0, None, false, 0, localOnly, false, false, DataTypeOf(typeName), false, home, Reserved(name), [])
  {
    v := new Variable(typeName, name, home);
    if localOnly {
      v.SetLocalOnly(true);
    }
  }

  /** Every variable carries the name generated for its branch. */
  ghost predicate Named(t: Table<Variable>, log: seq<Branch>) {
    forall id, n :: n in Scope(t, id) ==> 0 < id <= |log| && t[id][n].name == NameOf(log, id, n)
  }

  /** Adding a variable in a recorded branch keeps the names right, and so does opening a branch. */
  lemma AddingKeepsNames(t: Table<Variable>, log: seq<Branch>, name: string, typeName: string, b: Branch, v: Variable)
    requires Named(t, log) && History(log) && Recorded(log, b) && v.name == NameFor(name, typeName, b)
    ensures Named(Added(t, KeyFor(name, typeName, b), name, v), log)
  {
    var key := KeyFor(name, typeName, b);
    var to: Table<Variable> := Added(t, key, name, v);
    forall id, n | n in Scope(to, id) ensures 0 < id <= |log| && to[id][n].name == NameOf(log, id, n) {
      assert id != key || n != name ==> n in Scope(t, id) && to[id][n] == t[id][n];
    }
  }

  lemma OpeningKeepsNames(t: Table<Variable>, log: seq<Branch>, b: Branch)
    requires Named(t, log)
    ensures Named(t, log + [b])
  {
    forall id, n | n in Scope(t, id) ensures 0 < id <= |log + [b]| && t[id][n].name == NameOf(log + [b], id, n) {
      assert Plain(log + [b], id) == Plain(log, id);
    }
  }

  /** A variable of an inner branch is found by the name it carries, from every branch. */
  lemma VariablesAreFound(t: Table<Variable>, log: seq<Branch>, id: nat, n: string, from: Branch)
    requires Named(t, log) && n in Scope(t, id) && DollarFree(n) && id > 1 && log[id - 1].kind != Root
    ensures Find(t, t[id][n].name, from) == Some(t[id][n])
  {
    GeneratedNamesAreFound(t, log, id, n, from);
  }

  /**
   getVariables loses no variable exactly when no name is declared both in the external and in a root
   branch (whose variables keep their plain names).
   */
  lemma NoVariableIsLost(t: Table<Variable>, log: seq<Branch>)
    requires Named(t, log) && forall id, n :: n in Scope(t, id) ==> DollarFree(n)
    ensures (forall id, n, id', n' :: n in Scope(t, id) && n' in Scope(t, id') && t[id][n].name == t[id'][n'].name ==> id == id' && n == n')
       <==> (forall n, id, id' :: n in Scope(t, id) && n in Scope(t, id') && Plain(log, id) && Plain(log, id') ==> id == id')
  {
    NamesAreUnique(t, log);
    assert forall id, n :: n in Scope(t, id) ==> t[id][n].name == NameOf(log, id, n);
  }

  ghost predicate Lists(t: Table<Variable>, v: Variable) {
    exists id, n :: n in Scope(t, id) && t[id][n] == v
  }

  ghost predicate NamesDecide(t: Table<Variable>) {
    forall id, n, id', n' :: n in Scope(t, id) && n' in Scope(t, id') && t[id][n].name == t[id'][n'].name ==> t[id][n] == t[id'][n']
  }

  class SymbolTable {
    const branchManager: BranchManager
    const localNames: set<string>
    var branchVariables: Table<Variable>
    var branchTempVariables: map<T.Pool, seq<Variable>>
    var tempVarCount: nat

    constructor (branchManager: BranchManager, localNames: set<string>)
      ensures this.branchManager == branchManager && branchVariables == map[] && branchTempVariables == map[] && tempVarCount == 0
    {
      this.branchManager, this.localNames := branchManager, localNames;
      branchVariables, branchTempVariables, tempVarCount := map[], map[], 0;
    }

    ghost function Temporaries(): set<Variable>
      reads this
    {
      Registered(branchTempVariables)
    }

    /** Some branch is open, and no temporary is registered twice. */
    ghost predicate Valid()
      reads this, branchManager
    {
      && branchManager.currentBranch.Some?
      && (forall p, i, q, j ::
            (&& p in branchTempVariables && 0 <= i < |branchTempVariables[p]|
             && q in branchTempVariables && 0 <= j < |branchTempVariables[q]|
             && branchTempVariables[p][i] == branchTempVariables[q][j]) ==> p == q && i == j)
    }

    ghost function Pools(): T.Pools
      reads this, Temporaries()
    {
      map p | p in branchTempVariables :: TempsOf(branchTempVariables[p])
    }

    /** resolveVariableToBranch */
    method ResolveVariableToBranch(name: string) returns (found: Option<Branch>)
      requires branchManager.currentBranch.Some?
      ensures found == Resolve(branchVariables, name, branchManager.currentBranch.value)
    {
      var b := branchManager.currentBranch.value;
      while true
        invariant Resolve(branchVariables, name, branchManager.currentBranch.value) == Resolve(branchVariables, name, b)
        decreases b
      {
        if b.id in branchVariables && name in branchVariables[b.id] {
          return Some(b);
        }
        if b.parent == None {
          return None;
        }
        b := b.parent.value;
      }
    }

    /** getVariable */
    method GetVariable(name: string) returns (v: Option<Variable>)
      requires branchManager.currentBranch.Some?
      ensures v == Find(branchVariables, name, branchManager.currentBranch.value)
    {
      var pos := MagicAt(name);
      var id, base := 0, name;
      if pos.Some? {
        id := Intval(name[pos.value + |MAGIC|..]);
        base := name[..pos.value];
      } else {
        var b := ResolveVariableToBranch(name);
        if b == None {
          return None;
        }
        id := b.value.id;
      }
      if id !in branchVariables || base !in branchVariables[id] {
        return None;
      }
      v := Some(branchVariables[id][base]);
    }

    /** addVariable */
    method AddVariable(typeName: string, name: string) returns (v: Variable)
      requires branchManager.currentBranch.Some?
      modifies `branchVariables
      ensures fresh(v)
      ensures var b := branchManager.currentBranch.value;
        && branchVariables == Added(old(branchVariables), KeyFor(name, typeName, b), name, v)
        && v.name == NameFor(name, typeName, b)
        && v.State() == VarState(0, None, false, 0, typeName == "variable" && name in localNames, false, false,
                                 DataTypeOf(typeName), false, b, Reserved(NameFor(name, typeName, b)), [])
      ensures !v.idle && v.reusable && !v.doublePointer
    {
      var current := branchManager.currentBranch.value;
      var branchId: nat := current.id;
      if IsSuperGlobal(name) || typeName == CACHE_ENTRY {
        branchId := 1;
      }
      var varName := name;
      if branchId > 1 && current.kind != Root {
        varName := name + MAGIC + Decimal(branchId);
      }
      v := NewSymbol(typeName, varName, current, typeName == "variable" && name in localNames);
      if branchId !in branchVariables {
        branchVariables := branchVariables[branchId := map[]];
      }
      branchVariables := branchVariables[branchId := branchVariables[branchId][name := v]];
    }

    /** getVariables: every variable, by generated name; none is lost if names decide. */
    method GetVariables() returns (all: map<string, Variable>)
      ensures forall x <- all :: Lists(branchVariables, all[x]) && all[x].name == x
      ensures forall id, n :: n in Scope(branchVariables, id) ==> branchVariables[id][n].name in all
      ensures NamesDecide(branchVariables) ==>
                forall id, n :: n in Scope(branchVariables, id) ==> all[branchVariables[id][n].name] == branchVariables[id][n]
    {
      all := map[];
      var ids := branchVariables.Keys;
      while ids != {}
        invariant ids <= branchVariables.Keys
        invariant forall x <- all :: Lists(branchVariables, all[x]) && all[x].name == x
        invariant forall id, n :: id !in ids && n in Scope(branchVariables, id) ==> branchVariables[id][n].name in all
        decreases |ids|
      {
        var id := SomeKey(ids);
        var names := branchVariables[id].Keys;
        while names != {}
          invariant names <= branchVariables[id].Keys
          invariant forall x <- all :: Lists(branchVariables, all[x]) && all[x].name == x
          invariant forall k, n :: k !in ids && n in Scope(branchVariables, k) ==> branchVariables[k][n].name in all
          invariant forall n :: n in branchVariables[id] && n !in names ==> branchVariables[id][n].name in all
          decreases |names|
        {
          var n := SomeKey(names);
          var v := branchVariables[id][n];
          assert n in Scope(branchVariables, id);
          all := all[v.name := v];
          names := names - {n};
        }
        ids := ids - {id};
      }
    }

    /** Marks one temporary; all others stay as they are. */
    method SetIdleAt(p: T.Pool, i: nat, idle: bool)
      requires Valid() && p in branchTempVariables && i < |branchTempVariables[p]|
      modifies Temporaries()`idle
      ensures Valid() && Pools() == old(Pools())[p := old(Pools())[p][i := T.SetIdle(old(Pools())[p][i], idle)]]
    {
      assert branchTempVariables[p][i] in Temporaries();
      ghost var was := Pools();
      branchTempVariables[p][i].SetIdle(idle);
      forall q <- branchTempVariables ensures Pools()[q] == was[p := was[p][i := T.SetIdle(was[p][i], idle)]][q] {
        forall j | 0 <= j < |branchTempVariables[q]| ensures q != p || j != i ==> TempOf(branchTempVariables[q][j]) == was[q][j] {
        }
      }
    }

    /** reuseTempVariable: the first idle one of the pool, which stops being idle. */
    method ReuseTempVariable(typeName: string, location: T.Location) returns (found: Option<Variable>)
      requires Valid()
      modifies Temporaries()`idle
      ensures Valid()
      ensures var p := T.Pool(branchManager.currentBranch.value.id, location, typeName);
        var own := T.PoolOf(old(Pools()), p);
        var i := T.FirstIdle(own);
        && (found.Some? <==> i < |own|)
        && (found.Some? ==> found.value in Temporaries() && found.value == branchTempVariables[p][i])
        && Pools() == if i < |own| then old(Pools())[p := own[i := T.SetIdle(own[i], false)]] else old(Pools())
    {
      var p := T.Pool(branchManager.currentBranch.value.id, location, typeName);
      if p !in branchTempVariables {
        return None;
      }
      var pool := branchTempVariables[p];
      ghost var own := Pools()[p];
      var i := 0;
      while i < |pool|
        invariant 0 <= i <= |pool|
        invariant forall j :: 0 <= j < i ==> !T.Reusable(own[j])
      {
        if !pool[i].doublePointer && pool[i].idle {
          FirstIdleIs(own, i);
          assert branchTempVariables[p][i] in Temporaries();
          SetIdleAt(p, i, false);
          return Some(pool[i]);
        }
        i := i + 1;
      }
      return None;
    }

    /** registerTempVariable */
    method RegisterTempVariable(typeName: string, location: T.Location, v: Variable)
      requires Valid() && v !in Temporaries()
      modifies `branchTempVariables
      ensures Valid()
      ensures var p := T.Pool(branchManager.currentBranch.value.id, location, typeName);
        Pools() == old(Pools())[p := T.PoolOf(old(Pools()), p) + [TempOf(v)]]
      ensures Temporaries() == old(Temporaries()) + {v}
    {
      var p := T.Pool(branchManager.currentBranch.value.id, location, typeName);
      var own := if p in branchTempVariables then branchTempVariables[p] else [];
      RegisteredThen(branchTempVariables, p, v);
      branchTempVariables := branchTempVariables[p := own + [v]];
      assert Pools()[p] == T.PoolOf(old(Pools()), p) + [TempOf(v)];
    }

    /** The state of a temporary that was just made. */
    ghost function NewTemp(typeName: string, name: string, b: Branch): VarState
      reads this
    {
      VarState(0, None, false, 0, typeName == "variable" && name in localNames, true, false, DataTypeOf(typeName), false, b,
               Reserved(NameFor(name, typeName, b)), [Mark(b, Assignment)])
    }

    /** A temporary that is not registered yet. */
    method MakeTemp(typeName: string) returns (v: Variable)
      requires Valid()
      modifies `branchVariables, `tempVarCount
      ensures Valid() && fresh(v) && tempVarCount == old(tempVarCount) + 1
      ensures Pools() == old(Pools()) && Temporaries() == old(Temporaries())
      ensures TempOf(v) == T.Temp(NameFor(TempName(old(tempVarCount)), typeName, branchManager.currentBranch.value), false, true, false)
      ensures v.State() == NewTemp(typeName, TempName(old(tempVarCount)), branchManager.currentBranch.value)
    {
      var name := "_" + Decimal(tempVarCount);
      tempVarCount := tempVarCount + 1;
      v := AddVariable(typeName, name);
      v.SetIsInitialized(branchManager.currentBranch, Assignment);
    }

    method NewRegisteredTemp(typeName: string, location: T.Location) returns (v: Variable, ghost before: VarState)
      requires Valid()
      modifies `branchVariables, `branchTempVariables, `tempVarCount
      ensures Valid() && fresh(v) && v in Temporaries() && tempVarCount == old(tempVarCount) + 1
      ensures var b := branchManager.currentBranch.value;
        var p := T.Pool(b.id, location, typeName);
        var name := NameFor(TempName(old(tempVarCount)), typeName, b);
        && v.name == name && v.State() == before == NewTemp(typeName, TempName(old(tempVarCount)), b)
        && Pools() == old(Pools())[p := T.PoolOf(old(Pools()), p) + [T.Temp(name, false, true, false)]]
    {
      v := MakeTemp(typeName);
      before := v.State();
      RegisterTempVariable(typeName, location, v);
    }

    /** What every request for a temporary does; `before` is its state when it was taken. */
    twostate predicate Took(typeName: string, location: T.Location, new v: Variable, reused: bool, before: VarState)
      reads this, branchManager, Temporaries()
    {
      var b := branchManager.currentBranch;
      && Valid() && v in Temporaries()
      && (var h := T.Request(old(Pools()), old(tempVarCount), location, typeName, b.value);
          Pools() == h.pools && tempVarCount == h.count && v.name == h.name && reused == h.reused)
      && (reused ==> v in old(Temporaries()) && before == old(v.State()))
      && (!reused ==> fresh(v) && before == NewTemp(typeName, TempName(old(tempVarCount)), b.value))
    }

    /** The part that all requests for a temporary share: reuse one, or make and register one. */
    method TakeTemp(typeName: string, location: T.Location) returns (v: Variable, reused: bool, ghost before: VarState)
      requires Valid()
      modifies `branchVariables, `branchTempVariables, `tempVarCount, Temporaries()
      ensures Took(typeName, location, v, reused, before) && v.State() == before
    {
      var found := ReuseTempVariable(typeName, location);
      if found.Some? {
        return found.value, true, found.value.State();
      }
      reused := false;
      assert Pools() == old(Pools());
      v, before := NewRegisteredTemp(typeName, location);
    }

    predicate IsZval(typeName: string) {
      typeName == "variable" || typeName == "string" || typeName == "array"
    }

    /** Initializing a temporary changes no pool. */
    twostate lemma SamePools()
      requires unchanged(this) && unchanged(branchManager) && old(Valid())
      requires forall w <- old(Temporaries()) :: TempOf(w) == old(TempOf(w))
      ensures Valid() && Pools() == old(Pools()) && Temporaries() == old(Temporaries())
    {
      forall p <- branchTempVariables ensures TempsOf(branchTempVariables[p]) == old(TempsOf(branchTempVariables[p])) {
        forall i | 0 <= i < |branchTempVariables[p]| ensures TempOf(branchTempVariables[p][i]) == old(TempOf(branchTempVariables[p][i])) {
          assert branchTempVariables[p][i] in old(Temporaries());
        }
      }
    }

    method GetTempVariableForWrite(typeName: string, init: bool, insideCycle: int, depth: int)
      returns (v: Variable, op: Option<Op>, reused: bool, ghost before: VarState)
      requires Valid()
      modifies `branchVariables, `branchTempVariables, `tempVarCount, Temporaries()
      ensures Took(typeName, T.Heap, v, reused, before)
      ensures Emission(v.State(), op) ==
              if (typeName == "variable" || typeName == "string" || typeName == "array") && (init || !reused)
              then VariantInitialized(before, insideCycle, depth) else Emission(before, None)
    {
      v, reused, before := TakeTemp(typeName, T.Heap);
      op := None;
      if IsZval(typeName) && (init || !reused) {
        label Taken:
        op := v.InitVariant(insideCycle, depth);
        SamePools@Taken();
      }
    }

    method GetTempComplexLiteralVariableForWrite(typeName: string, insideCycle: int, depth: int)
      returns (v: Variable, op: Option<Op>, reused: bool, ghost before: VarState)
      requires Valid()
      modifies `branchVariables, `branchTempVariables, `tempVarCount, Temporaries()
      ensures Took(typeName, T.HeapLiteral, v, reused, before)
      ensures Emission(v.State(), op) ==
              if (typeName == "variable" || typeName == "string" || typeName == "array")
              then LiteralInitialized(before, insideCycle, depth) else Emission(before, None)
    {
      v, reused, before := TakeTemp(typeName, T.HeapLiteral);
      op := None;
      if IsZval(typeName) {
        label Taken:
        op := v.InitComplexLiteralVariant(insideCycle, depth);
        SamePools@Taken();
      }
    }

    /** The temporary is put on the stack, and initialized there if it is a zval. */
    method InitOnStack(v: Variable, typeName: string, insideCycle: int, depth: int) returns (op: Option<Op>)
      modifies v`localOnly, v`variantInits, v`initBranch, v`mustInitNull, v`numberSkips
      ensures var local := old(v.State()).(localOnly := true);
        Emission(v.State(), op) ==
        if (typeName == "variable" || typeName == "string" || typeName == "array")
        then VariantInitialized(local, insideCycle, depth) else Emission(local, None)
      ensures (typeName == "variable" || typeName == "string" || typeName == "array") && !Swallowed(old(v.State())) ==>
                op == Some(if FirstTime(old(v.State()), insideCycle) then SinitVar else SinitNvar)
    {
      if !Swallowed(v.State()) {
        StackVariantIs(v.State(), insideCycle, depth);
      }
      v.SetLocalOnly(true);
      op := None;
      if IsZval(typeName) {
        op := v.InitVariant(insideCycle, depth);
      }
    }

    method GetTempLocalVariableForWrite(typeName: string, insideCycle: int, depth: int)
      returns (v: Variable, op: Option<Op>, reused: bool, ghost before: VarState)
      requires Valid()
      modifies `branchVariables, `branchTempVariables, `tempVarCount, Temporaries()
      ensures Took(typeName, T.Stack, v, reused, before)
      ensures var local := before.(localOnly := true);
        Emission(v.State(), op) ==
        if (typeName == "variable" || typeName == "string" || typeName == "array")
        then VariantInitialized(local, insideCycle, depth) else Emission(local, None)
      ensures (typeName == "variable" || typeName == "string" || typeName == "array") && !Swallowed(before) ==>
                op == Some(if FirstTime(before, insideCycle) then SinitVar else SinitNvar)
    {
      v, reused, before := TakeTemp(typeName, T.Stack);
      label Taken:
      op := InitOnStack(v, typeName, insideCycle, depth);
      SamePools@Taken();
    }

    method GetTempVariableForObserve(typeName: string, insideCycle: int, depth: int)
      returns (v: Variable, op: Option<Op>, reused: bool, ghost before: VarState)
      requires Valid()
      modifies `branchVariables, `branchTempVariables, `tempVarCount, Temporaries()
      ensures Took(typeName, T.Observe, v, reused, before)
      ensures Emission(v.State(), op) == VariantObserved(before, insideCycle, depth)
    {
      v, reused, before := TakeTemp(typeName, T.Observe);
      label Taken:
      op := v.ObserveVariant(insideCycle, depth);
      SamePools@Taken();
    }

    method GetTempVariableForObserveOrNullify(typeName: string, insideCycle: int, depth: int)
      returns (v: Variable, reused: bool, ghost before: VarState)
      requires Valid()
      modifies `branchVariables, `branchTempVariables, `tempVarCount, Temporaries()
      ensures Took(typeName, T.ObserveNullify, v, reused, before)
      ensures Emission(v.State(), None) == VariantNullified(before, insideCycle, depth)
    {
      v, reused, before := TakeTemp(typeName, T.ObserveNullify);
      label Taken:
      v.ObserveOrNullifyVariant(insideCycle, depth);
      SamePools@Taken();
    }

    /** `nref`: ZEPHIR_INIT_ZVAL_NREF is emitted, which no counter notices. */
    method GetTempNonTrackedVariable(typeName: string, initNonReferenced: bool)
      returns (v: Variable, nref: bool, reused: bool, ghost before: VarState)
      requires Valid()
      modifies `branchVariables, `branchTempVariables, `tempVarCount, Temporaries()
      ensures Took(typeName, T.NonTracked, v, reused, before)
      ensures v.State() == before && nref == initNonReferenced
    {
      v, reused, before := TakeTemp(typeName, T.NonTracked);
      nref := false;
      if initNonReferenced {
        nref := true;
      }
    }

    method GetTempNonTrackedUninitializedVariable(typeName: string)
      returns (v: Variable, reused: bool, ghost before: VarState)
      requires Valid()
      modifies `branchVariables, `branchTempVariables, `tempVarCount, Temporaries()
      ensures Took(typeName, T.NonTrackedUninitialized, v, reused, before)
      ensures v.State() == before
    {
      v, reused, before := TakeTemp(typeName, T.NonTrackedUninitialized);
    }

    /** One temporary: idle if its name says this branch. */
    method MarkOneIdle(p: T.Pool, i: nat, id: int)
      requires Valid() && p in branchTempVariables && i < |branchTempVariables[p]|
      modifies Temporaries()`idle
      ensures Valid() && Pools() == old(Pools())[p := old(Pools())[p][i := T.Idled(old(Pools())[p][i], id)]]
    {
      var owner := OwnerBranch(branchTempVariables[p][i].name);
      ghost var was := Pools();
      if owner == id {
        SetIdleAt(p, i, true);
      } else {
        assert was[p][i := was[p][i]] == was[p] && was[p := was[p]] == was;
      }
    }

    /** One pool of the current branch. */
    method MarkPoolIdle(p: T.Pool, id: int)
      requires Valid() && p in branchTempVariables
      modifies Temporaries()`idle
      ensures Valid() && Pools() == old(Pools())[p := T.IdleIn(old(Pools())[p], id)]
    {
      ghost var was, n := Pools(), |branchTempVariables[p]|;
      NoneIdled(was, p, id);
      var i := 0;
      while i < |branchTempVariables[p]|
        invariant 0 <= i <= n == |branchTempVariables[p]| == |was[p]| && Valid() && Pools() == IdledUpTo(was, p, id, i)
      {
        IdleOneMore(was, p, id, i);
        MarkOneIdle(p, i, id);
        i := i + 1;
      }
      AllIdled(was, p, id);
    }

    /** One more pool, if it belongs to the branch. */
    method MarkNext(p: T.Pool, id: int, ghost was: T.Pools, ghost done: set<T.Pool>)
      requires Valid() && p in branchTempVariables && p !in done && Pools() == MarkSome(was, id, done)
      modifies Temporaries()`idle
      ensures Valid() && Pools() == MarkSome(was, id, done + {p})
    {
      assert p in was;
      MarkSomeThen(was, id, done, p);
      if p.branch == id {
        MarkPoolIdle(p, id);
      }
    }

    /** markTemporalVariablesIdle */
    method MarkTemporalVariablesIdle()
      requires Valid()
      modifies Temporaries()`idle
      ensures Valid() && Pools() == T.MarkIdle(old(Pools()), branchManager.currentBranch.value.id)
    {
      var id := branchManager.currentBranch.value.id;
      var keys := branchTempVariables.Keys;
      ghost var was := Pools();
      MarkedNone(was, id);
      ghost var done: set<T.Pool> := {};
      while keys != {}
        invariant forall p <- keys :: p in branchTempVariables && p !in done
        invariant forall p <- branchTempVariables :: p in keys || p in done
        invariant Valid() && Pools() == MarkSome(was, id, done)
        decreases |keys|
      {
        var p := SomeKey(keys);
        MarkNext(p, id, was, done);
        done := done + {p};
        keys := keys - {p};
      }
      MarkedAll(was, id, done);
    }
  }

  /** The branch that the name of a temporary refers to; the external branch if it refers to none. */
  method OwnerBranch(name: string) returns (id: int)
    ensures id == T.OwnerOf(name)
  {
    var pos := MagicAt(name);
    id := 1;
    if pos.Some? {
      id := Intval(name[pos.value + |MAGIC|..]);
    }
  }

  ghost function IdleFirst(s: seq<T.Temp>, id: int, n: nat): seq<T.Temp> {
    seq(|s|, i requires 0 <= i < |s| => if i < n then T.Idled(s[i], id) else s[i])
  }

  ghost function IdledUpTo(pools: T.Pools, p: T.Pool, id: int, n: nat): T.Pools
    requires p in pools
  {
    pools[p := IdleFirst(pools[p], id, n)]
  }

  lemma NoneIdled(pools: T.Pools, p: T.Pool, id: int)
    requires p in pools
    ensures IdledUpTo(pools, p, id, 0) == pools
  {
    assert IdleFirst(pools[p], id, 0) == pools[p];
  }

  lemma AllIdled(pools: T.Pools, p: T.Pool, id: int)
    requires p in pools
    ensures IdledUpTo(pools, p, id, |pools[p]|) == pools[p := T.IdleIn(pools[p], id)]
  {
    assert IdleFirst(pools[p], id, |pools[p]|) == T.IdleIn(pools[p], id);
  }

  lemma IdleOneMore(pools: T.Pools, p: T.Pool, id: int, n: nat)
    requires p in pools && n < |pools[p]|
    ensures var m := IdledUpTo(pools, p, id, n);
      p in m && n < |m[p]| && IdledUpTo(pools, p, id, n + 1) == m[p := m[p][n := T.Idled(m[p][n], id)]]
  {
    var s := pools[p];
    var t, u := IdleFirst(s, id, n), IdleFirst(s, id, n + 1);
    forall j | 0 <= j < |s| ensures u[j] == t[n := T.Idled(s[n], id)][j] {
    }
    assert u == t[n := T.Idled(t[n], id)];
  }

  ghost function MarkSome(pools: T.Pools, id: int, done: set<T.Pool>): T.Pools {
    map p | p in pools :: if p in done && p.branch == id then T.IdleIn(pools[p], id) else pools[p]
  }

  lemma MarkedNone(pools: T.Pools, id: int)
    ensures MarkSome(pools, id, {}) == pools
  {
  }

  lemma MarkedAll(pools: T.Pools, id: int, done: set<T.Pool>)
    requires forall p <- pools :: p in done
    ensures MarkSome(pools, id, done) == T.MarkIdle(pools, id)
  {
  }

  lemma MarkSomeThen(pools: T.Pools, id: int, done: set<T.Pool>, p: T.Pool)
    requires p in pools && p !in done
    ensures var m := MarkSome(pools, id, done);
      p in m && m[p] == pools[p] && MarkSome(pools, id, done + {p}) == if p.branch == id then m[p := T.IdleIn(m[p], id)] else m
  {
    var m := MarkSome(pools, id, done);
    if p.branch == id {
      assert MarkSome(pools, id, done + {p}) == m[p := T.IdleIn(m[p], id)];
    } else {
      assert MarkSome(pools, id, done + {p}) == m;
    }
  }

  lemma {:induction false} FirstIdleIs(s: seq<T.Temp>, i: nat)
    requires i < |s| && T.Reusable(s[i]) && forall j :: 0 <= j < i ==> !T.Reusable(s[j])
    ensures T.FirstIdle(s) == i
  {
  }
}
