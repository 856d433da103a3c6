/**
 Variables and their initialization counters.  Every method of the class is described by a function
 on the variable's state that also tells which macro is emitted, if any.
 */
module Variables {
  import opened Wrappers
  import opened Branches

  /** The macro that gives a variable its zval, or that reads the pointer it holds. */
  datatype Op =
    | InitVar      // ZEPHIR_INIT_VAR: allocate, the pointer must be null
    | InitNvar     // ZEPHIR_INIT_NVAR: allocate or reuse
    | InitBnvar    // ZEPHIR_INIT_BNVAR: reuse without testing for null
    | SinitVar     // ZEPHIR_SINIT_VAR
    | SinitNvar    // ZEPHIR_SINIT_NVAR
    | InitLnvar    // ZEPHIR_INIT_LNVAR
    | SinitLnvar   // ZEPHIR_SINIT_LNVAR
    | ObsVar       // ZEPHIR_OBS_VAR: observe, the pointer must be null
    | ObsNvar      // ZEPHIR_OBS_NVAR
    | CallResult   // the call that follows trackVariant
    | CopyOnWrite  // ZEPHIR_CPY_WRT for an assignment between variables
    | KeyInit      // ZEPHIR_GET_HMKEY
    | ValueInit    // ZEPHIR_GET_HVALUE
    | CatchCopy    // ZEPHIR_CPY_WRT of the caught exception
    | CheckPointer // ZEPHIR_CHECK_POINTER

  /** First-time operations assume that the pointer is still null. */
  predicate First(op: Op) {
    op == InitVar || op == SinitVar || op == ObsVar
  }

  /** Operations that the compiler counts in `variantInits`. */
  predicate Counted(op: Op) {
    op != KeyInit && op != CatchCopy && op != CheckPointer
  }

  /**
   How a branch came to be recorded as initializing a variable: a parameter, an assignment, the
   declaration of a scalar that the method's prologue sets to zero, any other declaration, the
   target of a `for` or `catch`, or an assignment of the variable to itself, which emits nothing.
   */
  datatype MarkKind = Parameter | Assignment | Zeroed | Announced | Target | Itself

  /** The records that are only made where the variable gets a value. */
  predicate Guaranteed(kind: MarkKind) {
    kind == Parameter || kind == Assignment || kind == Zeroed
  }

  datatype Mark = Mark(branch: Branch, kind: MarkKind)

  datatype DataType = VariableType | StringOrArray | ScalarType

  function DataTypeOf(typeName: string): DataType {
    if typeName == "variable" || typeName == "callable" || typeName == "object" || typeName == "resource" then VariableType
    else if typeName == "string" || typeName == "array" then StringOrArray
    else ScalarType
  }

  /**
   `home`: the branch where the variable is declared.  `reserved`: this_ptr and return_value.
   `zeroed`: declared with the value zero, if it is a scalar.
   */
  datatype VarState = VarState(
    inits: nat,
    initDepth: Option<int>,
    mustInitNull: bool,
    skips: nat,
    localOnly: bool,
    initialized: bool,
    external: bool,
    dataType: DataType,
    zeroed: bool,
    home: Branch,
    reserved: bool,
    marks: seq<Mark>)

  /** What a method of Variable did: the new state, and the macro it emitted. */
  datatype Emission = Emission(after: VarState, op: Option<Op>)

  function Enter(v: VarState, depth: int): VarState {
    if v.initDepth == None then v.(initDepth := Some(depth)) else v
  }

  function VariantInitialized(v: VarState, cycle: int, depth: int): Emission {
    if v.skips > 0 then Emission(v.(skips := v.skips - 1), None)
    else if v.reserved then Emission(v, None)
    else
      var w := Enter(v, depth);
      var again := w.inits > 0;
      var op :=
        if w.localOnly then (if again || cycle > 0 then SinitNvar else SinitVar)
        else if cycle > 0 then InitNvar
        else if !again then InitVar
        else if w.initDepth == Some(0) then InitBnvar
        else InitNvar;
      Emission(w.(inits := w.inits + 1, mustInitNull := w.mustInitNull || op == SinitNvar || op == InitNvar), Some(op))
  }

  function VariantTracked(v: VarState, cycle: int, depth: int): Emission {
    if v.skips > 0 then Emission(v.(skips := v.skips - 1), None)
    else if v.reserved then Emission(v, None)
    else
      var w := Enter(v, depth);
      var force := cycle > 0 || (w.inits > 0 && (w.localOnly || w.initDepth != Some(1)));
      Emission(w.(inits := w.inits + 1, mustInitNull := w.mustInitNull || force), None)
  }

  function LiteralInitialized(v: VarState, cycle: int, depth: int): Emission {
    if v.skips > 0 then Emission(v.(skips := v.skips - 1), None)
    else if v.reserved then Emission(v, None)
    else
      var w := Enter(v, depth);
      var again := w.inits > 0 || cycle > 0;
      var op :=
        if w.localOnly then (if again then SinitLnvar else SinitVar)
        else if again then InitLnvar else InitVar;
      Emission(w.(inits := w.inits + 1, mustInitNull := w.mustInitNull || again), Some(op))
  }

  function VariantObserved(v: VarState, cycle: int, depth: int): Emission {
    if v.skips > 0 then Emission(v.(skips := v.skips - 1), None)
    else if v.reserved then Emission(v, None)
    else
      var w := Enter(v, depth);
      var again := w.inits > 0 || cycle > 0;
      Emission(w.(inits := w.inits + 1, mustInitNull := w.mustInitNull || again), Some(if again then ObsNvar else ObsVar))
  }

  function VariantNullified(v: VarState, cycle: int, depth: int): Emission {
    if v.skips > 0 then Emission(v.(skips := v.skips - 1), None)
    else if v.reserved then Emission(v, None)
    else
      var w := Enter(v, depth);
      Emission(w.(inits := w.inits + 1, mustInitNull := true), None)
  }

  function MarkedInitialized(v: VarState, branch: Option<Branch>, kind: MarkKind): VarState {
    if branch.Some? then v.(initialized := true, marks := v.marks + [Mark(branch.value, kind)]) else v.(initialized := true)
  }

  function DefaultEnabled(v: VarState): VarState {
    if v.dataType != ScalarType then v.(mustInitNull := true, localOnly := false) else v.(zeroed := true)
  }

  predicate Reserved(name: string) {
    name == "this_ptr" || name == "return_value"
  }

  /** Reserved variables are never initialized; all others are once their counter moves. */
  predicate Settled(v: VarState) {
    v.reserved || v.inits > 0
  }

  /** What the counters of a variable compiled inside statements (depth at least 1) satisfy. */
  predicate Sound(v: VarState) {
    && (v.skips > 0 ==> Settled(v))
    && (v.initDepth.Some? ==> v.initDepth.value >= 1)
  }

  /** A later state of the same variable. */
  predicate Later(v: VarState, w: VarState) {
    && v.inits <= w.inits && w.reserved == v.reserved && w.dataType == v.dataType && w.home == v.home
    && (v.mustInitNull ==> w.mustInitNull) && (v.initialized ==> w.initialized) && (v.zeroed ==> w.zeroed)
    && v.marks <= w.marks
  }

  /**
   The discipline of one initialization: a first-time macro is only chosen for a variable that was
   never counted before, outside loops; any other macro forces the declaration to null; the macro
   that skips the null test is never chosen.
   */
  predicate Disciplined(v: VarState, cycle: int, e: Emission) {
    && Sound(e.after) && Later(v, e.after) && e.after.marks == v.marks
    && (e.op.Some? ==>
          && e.op.value != InitBnvar && Counted(e.op.value) && e.after.inits == v.inits + 1 && !v.reserved
          && (First(e.op.value) ==> v.inits == 0 && cycle <= 0)
          && (!First(e.op.value) ==> e.after.mustInitNull))
    && (v.skips == 0 ==> Settled(e.after))
  }

  lemma VariantInitializedDisciplined(v: VarState, cycle: int, depth: int)
    requires Sound(v) && depth >= 1
    ensures Disciplined(v, cycle, VariantInitialized(v, cycle, depth))
  {
    if v.skips > 0 {
    } else if v.reserved {
    } else {
    }
  }

  lemma VariantTrackedDisciplined(v: VarState, cycle: int, depth: int)
    requires Sound(v) && depth >= 1
    ensures Disciplined(v, cycle, VariantTracked(v, cycle, depth))
  {
    if v.skips > 0 {
    } else if v.reserved {
    } else {
    }
  }

  lemma LiteralInitializedDisciplined(v: VarState, cycle: int, depth: int)
    requires Sound(v) && depth >= 1
    ensures Disciplined(v, cycle, LiteralInitialized(v, cycle, depth))
  {
    if v.skips > 0 {
    } else if v.reserved {
    } else {
    }
  }

  lemma VariantObservedDisciplined(v: VarState, cycle: int, depth: int)
    requires Sound(v) && depth >= 1
    ensures Disciplined(v, cycle, VariantObserved(v, cycle, depth))
    ensures Disciplined(v, cycle, VariantNullified(v, cycle, depth))
  {
    if v.skips > 0 {
    } else if v.reserved {
    } else {
    }
  }

  // Which macro is chosen, and what is remembered, by the fields alone

  /** The initialization is swallowed: it was done in front of an `if`, or the variable is this_ptr or return_value. */
  predicate Swallowed(v: VarState) {
    v.skips > 0 || v.reserved
  }

  /** Never counted before, outside cycles. */
  predicate FirstTime(v: VarState, cycle: int) {
    v.inits == 0 && cycle <= 0
  }

  /** The depth of the first initialization. */
  predicate FirstDepthIs(v: VarState, depth: int, d: int) {
    if v.initDepth == None then depth == d else v.initDepth == Some(d)
  }

  /** Counted once, the first depth remembered, everything else but `mustInitNull` kept. */
  predicate CountedOnce(v: VarState, depth: int, w: VarState) {
    && w.inits == v.inits + 1 && w.initDepth == (if v.initDepth == None then Some(depth) else v.initDepth)
    && w == v.(inits := w.inits, initDepth := w.initDepth, mustInitNull := w.mustInitNull)
  }

  /** One skip is used up, if there is one, and nothing else changes. */
  predicate OnlySkips(v: VarState, e: Emission) {
    e.op == None && e.after == v.(skips := if v.skips > 0 then v.skips - 1 else 0)
  }

  /** ZEPHIR_INIT_VAR and its like: stack macros for stack variables, first-time macros the first time. */
  predicate VariantRule(v: VarState, cycle: int, depth: int, e: Emission) {
    if Swallowed(v) then OnlySkips(v, e)
    else
      && CountedOnce(v, depth, e.after) && e.op.Some?
      && (v.localOnly ==> e.op.value == if FirstTime(v, cycle) then SinitVar else SinitNvar)
      && (!v.localOnly ==> e.op.value in {InitVar, InitNvar, InitBnvar} && (e.op.value == InitVar <==> FirstTime(v, cycle)))
      && (e.op.value == InitBnvar <==> !v.localOnly && cycle <= 0 && v.inits > 0 && FirstDepthIs(v, depth, 0))
      && (e.after.mustInitNull <==> v.mustInitNull || e.op.value in {InitNvar, SinitNvar})
  }

  lemma VariantInitializedIs(v: VarState, cycle: int, depth: int)
    ensures VariantRule(v, cycle, depth, VariantInitialized(v, cycle, depth))
  {
  }

  lemma StackVariantIs(v: VarState, cycle: int, depth: int)
    requires !Swallowed(v)
    ensures VariantInitialized(v.(localOnly := true), cycle, depth).op == Some(if FirstTime(v, cycle) then SinitVar else SinitNvar)
  {
  }

  /** A tracked call result emits nothing; the declaration is forced to null in cycles and for most repetitions. */
  predicate TrackRule(v: VarState, cycle: int, depth: int, e: Emission) {
    if Swallowed(v) then OnlySkips(v, e)
    else
      && CountedOnce(v, depth, e.after) && e.op == None
      && (e.after.mustInitNull <==> v.mustInitNull || cycle > 0 || (v.inits > 0 && !(FirstDepthIs(v, depth, 1) && !v.localOnly)))
  }

  lemma VariantTrackedIs(v: VarState, cycle: int, depth: int)
    ensures TrackRule(v, cycle, depth, VariantTracked(v, cycle, depth))
  {
  }

  /** ZEPHIR_INIT_LNVAR and its like, for literals. */
  predicate LiteralRule(v: VarState, cycle: int, depth: int, e: Emission) {
    if Swallowed(v) then OnlySkips(v, e)
    else
      && CountedOnce(v, depth, e.after) && e.op.Some?
      && (v.localOnly ==> e.op.value == if FirstTime(v, cycle) then SinitVar else SinitLnvar)
      && (!v.localOnly ==> e.op.value == if FirstTime(v, cycle) then InitVar else InitLnvar)
      && (e.after.mustInitNull <==> v.mustInitNull || !FirstTime(v, cycle))
  }

  lemma LiteralInitializedIs(v: VarState, cycle: int, depth: int)
    ensures LiteralRule(v, cycle, depth, LiteralInitialized(v, cycle, depth))
  {
  }

  /** ZEPHIR_OBS_VAR and ZEPHIR_OBS_NVAR, on the stack or not. */
  predicate ObserveRule(v: VarState, cycle: int, depth: int, e: Emission) {
    if Swallowed(v) then OnlySkips(v, e)
    else
      && CountedOnce(v, depth, e.after) && e.op == Some(if FirstTime(v, cycle) then ObsVar else ObsNvar)
      && (e.after.mustInitNull <==> v.mustInitNull || !FirstTime(v, cycle))
  }

  lemma VariantObservedIs(v: VarState, cycle: int, depth: int)
    ensures ObserveRule(v, cycle, depth, VariantObserved(v, cycle, depth))
  {
  }

  /** Observe or nullify emits nothing and always forces the declaration to null. */
  predicate NullifyRule(v: VarState, cycle: int, depth: int, e: Emission) {
    if Swallowed(v) then OnlySkips(v, e)
    else CountedOnce(v, depth, e.after) && e.op == None && e.after.mustInitNull
  }

  lemma VariantNullifiedIs(v: VarState, cycle: int, depth: int)
    ensures NullifyRule(v, cycle, depth, VariantNullified(v, cycle, depth))
  {
  }

  /** A default value: zero for scalars; dynamic variables are null, and never on the stack. */
  lemma DefaultEnabledIs(v: VarState)
    ensures var w := DefaultEnabled(v);
      && (v.dataType == ScalarType ==> w == v.(zeroed := true))
      && (v.dataType != ScalarType ==> w == v.(mustInitNull := true, localOnly := false))
  {
  }

  class Variable {
    const name: string
    const dataType: DataType
    const home: Branch
    const reserved: bool
    var variantInits: nat
    var initBranch: Option<int>
    var mustInitNull: bool
    var numberSkips: nat
    var localOnly: bool
    var initialized: bool
    var isExternal: bool
    var defaultInitValue: Option<int>
    var initBranches: seq<Mark>
    var idle: bool
    var reusable: bool
    var doublePointer: bool

    constructor (typeName: string, name: string, home: Branch)
      ensures this.name == name && !idle && reusable && !doublePointer
      ensures State() == VarState(0, None, false, 0, false, false, false, DataTypeOf(typeName), false, home, Reserved(name), [])
      ensures reserved == (name == "this_ptr" || name == "return_value")
      ensures dataType == VariableType <==> typeName in {"variable", "callable", "object", "resource"}
      ensures dataType == StringOrArray <==> typeName in {"string", "array"}
    {
      this.name, this.dataType, this.home, this.reserved := name, DataTypeOf(typeName), home, Reserved(name);
      variantInits, initBranch, mustInitNull, numberSkips := 0, None, false, 0;
      localOnly, initialized, isExternal, defaultInitValue, initBranches := false, false, false, None, [];
      idle, reusable, doublePointer := false, true, false;
    }

    /** A temporary that cannot be reused never becomes idle. */
    method SetIdle(idle: bool)
      modifies `idle
      ensures this.idle == (reusable && idle)
    {
      if reusable {
        this.idle := idle;
      } else {
        this.idle := false;
      }
    }

    ghost function State(): VarState
      reads this
    {
      VarState(variantInits, initBranch, mustInitNull, numberSkips, localOnly, initialized, isExternal, dataType,
               defaultInitValue.Some?, home, reserved, initBranches)
    }

    method SetIsInitialized(branch: Option<Branch>, kind: MarkKind)
      modifies `initialized, `initBranches
      ensures State() == MarkedInitialized(old(State()), branch, kind)
    {
      if branch.Some? {
        initBranches := initBranches + [Mark(branch.value, kind)];
      }
      initialized := true;
    }

    method SetIsExternal()
      modifies `isExternal, `variantInits
      ensures State() == old(State()).(external := true, inits := 1)
    {
      isExternal := true;
      variantInits := 1;
    }

    method SetLocalOnly(localOnly: bool)
      modifies `localOnly
      ensures State() == old(State()).(localOnly := localOnly)
    {
      this.localOnly := localOnly;
    }

    method SetMustInitNull()
      modifies `mustInitNull
      ensures State() == old(State()).(mustInitNull := true)
    {
      mustInitNull := true;
    }

    method SkipInitVariant(skips: nat)
      modifies `numberSkips
      ensures State() == old(State()).(skips := old(numberSkips) + skips)
    {
      numberSkips := numberSkips + skips;
    }

    method IncreaseVariantIfNull()
      modifies `variantInits
      ensures State() == old(State()).(inits := old(variantInits) + 1)
    {
      variantInits := variantInits + 1;
    }

    method EnableDefaultAutoInitValue()
      modifies `mustInitNull, `localOnly, `defaultInitValue
      ensures State() == DefaultEnabled(old(State()))
      ensures dataType == ScalarType ==> defaultInitValue == Some(0)
    {
      if dataType == ScalarType {
        defaultInitValue := Some(0);
      } else {
        mustInitNull := true;
        localOnly := false;
      }
    }

    method InitVariant(insideCycle: int, currentDepth: int) returns (op: Option<Op>)
      modifies `variantInits, `initBranch, `mustInitNull, `numberSkips
      ensures Emission(State(), op) == VariantInitialized(old(State()), insideCycle, currentDepth)
      ensures VariantRule(old(State()), insideCycle, currentDepth, Emission(State(), op))
    {
      VariantInitializedIs(State(), insideCycle, currentDepth);
      op := None;
      if numberSkips > 0 {
        numberSkips := numberSkips - 1;
        return;
      }
      if !reserved {
        if initBranch == None {
          initBranch := Some(currentDepth);
        }
        if !localOnly {
          if insideCycle > 0 {
            mustInitNull := true;
            op := Some(InitNvar);
          } else if variantInits > 0 {
            if initBranch == Some(0) {
              op := Some(InitBnvar);
            } else {
              mustInitNull := true;
              op := Some(InitNvar);
            }
          } else {
            op := Some(InitVar);
          }
        } else if variantInits > 0 || insideCycle > 0 {
          mustInitNull := true;
          op := Some(SinitNvar);
        } else {
          op := Some(SinitVar);
        }
        variantInits := variantInits + 1;
      }
    }

    method TrackVariant(insideCycle: int, currentDepth: int)
      modifies `variantInits, `initBranch, `mustInitNull, `numberSkips
      ensures Emission(State(), None) == VariantTracked(old(State()), insideCycle, currentDepth)
      ensures TrackRule(old(State()), insideCycle, currentDepth, Emission(State(), None))
    {
      VariantTrackedIs(State(), insideCycle, currentDepth);
      if numberSkips > 0 {
        numberSkips := numberSkips - 1;
        return;
      }
      if !reserved {
        if initBranch == None {
          initBranch := Some(currentDepth);
        }
        if !localOnly {
          if insideCycle > 0 {
            mustInitNull := true;
          } else if variantInits > 0 {
            if initBranch != Some(1) {
              mustInitNull := true;
            }
          }
        } else if variantInits > 0 || insideCycle > 0 {
          mustInitNull := true;
        }
        variantInits := variantInits + 1;
      }
    }

    method InitComplexLiteralVariant(insideCycle: int, currentDepth: int) returns (op: Option<Op>)
      modifies `variantInits, `initBranch, `mustInitNull, `numberSkips
      ensures Emission(State(), op) == LiteralInitialized(old(State()), insideCycle, currentDepth)
      ensures LiteralRule(old(State()), insideCycle, currentDepth, Emission(State(), op))
    {
      LiteralInitializedIs(State(), insideCycle, currentDepth);
      op := None;
      if numberSkips > 0 {
        numberSkips := numberSkips - 1;
        return;
      }
      if !reserved {
        if initBranch == None {
          initBranch := Some(currentDepth);
        }
        if !localOnly {
          if variantInits > 0 || insideCycle > 0 {
            mustInitNull := true;
            op := Some(InitLnvar);
          } else {
            op := Some(InitVar);
          }
        } else if variantInits > 0 || insideCycle > 0 {
          mustInitNull := true;
          op := Some(SinitLnvar);
        } else {
          op := Some(SinitVar);
        }
        variantInits := variantInits + 1;
      }
    }

    method ObserveVariant(insideCycle: int, currentDepth: int) returns (op: Option<Op>)
      modifies `variantInits, `initBranch, `mustInitNull, `numberSkips
      ensures Emission(State(), op) == VariantObserved(old(State()), insideCycle, currentDepth)
      ensures ObserveRule(old(State()), insideCycle, currentDepth, Emission(State(), op))
    {
      VariantObservedIs(State(), insideCycle, currentDepth);
      op := None;
      if numberSkips > 0 {
        numberSkips := numberSkips - 1;
        return;
      }
      if !reserved {
        if initBranch == None {
          initBranch := Some(currentDepth);
        }
        if variantInits > 0 || insideCycle > 0 {
          mustInitNull := true;
          op := Some(ObsNvar);
        } else {
          op := Some(ObsVar);
        }
        variantInits := variantInits + 1;
      }
    }

    method ObserveOrNullifyVariant(insideCycle: int, currentDepth: int)
      modifies `variantInits, `initBranch, `mustInitNull, `numberSkips
      ensures Emission(State(), None) == VariantNullified(old(State()), insideCycle, currentDepth)
      ensures NullifyRule(old(State()), insideCycle, currentDepth, Emission(State(), None))
    {
      VariantNullifiedIs(State(), insideCycle, currentDepth);
      if numberSkips > 0 {
        numberSkips := numberSkips - 1;
        return;
      }
      if !reserved {
        if initBranch == None {
          initBranch := Some(currentDepth);
        }
        if variantInits > 0 || insideCycle > 0 {
          mustInitNull := true;
        }
        variantInits := variantInits + 1;
        mustInitNull := true;
      }
    }
  }
}
