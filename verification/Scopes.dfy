/**
 Variables by branch: lookup through the enclosing branches, and what blocks do to it.
 */
module Scopes {
  import opened Wrappers
  import opened Branches
  import opened Names

  /** Branch id, then declared name. */
  type Table<V> = map<int, map<string, V>>

  function Scope<V>(t: Table<V>, id: int): map<string, V> {
    if id in t then t[id] else map[]
  }

  function Entry<V>(t: Table<V>, id: int, name: string): Option<V> {
    if name in Scope(t, id) then Some(t[id][name]) else None
  }

  /** The innermost enclosing branch that declares the name. */
  function Resolve<V>(t: Table<V>, name: string, b: Branch): Option<Branch> {
    if name in Scope(t, b.id) then Some(b)
    else
      match b.parent
      case None => None
      case Some(p) => Resolve(t, name, p)
  }

  /** getVariable: a generated name says its branch, any other name is resolved. */
  function Find<V>(t: Table<V>, name: string, current: Branch): Option<V> {
    match NamedBranch(name)
    case Some(id) => Entry(t, id, BaseName(name))
    case None =>
      match Resolve(t, name, current)
      case None => None
      case Some(b) => Entry(t, b.id, name)
  }

  predicate IsSuperGlobal(name: string) {
    name == "_GET" || name == "_POST" || name == "_COOKIE" || name == "_SERVER" || name == "_SESSION" || name == "_REQUEST" ||
    name == "_FILES"
  }

  const CACHE_ENTRY := "zephir_fcall_cache_entry"

  /** Superglobals and call caches always belong to the external branch. */
  predicate Global(name: string, typeName: string) {
    IsSuperGlobal(name) || typeName == CACHE_ENTRY
  }

  function KeyFor(name: string, typeName: string, current: Branch): nat {
    if Global(name, typeName) then 1 else current.id
  }

  function NameFor(name: string, typeName: string, current: Branch): string {
    var id := KeyFor(name, typeName, current);
    Generated(name, id, id <= 1 || current.kind == Root)
  }

  /** The table and the name that a new variable gets. */
  lemma NamesGiven(name: string, typeName: string, current: Branch)
    ensures var shared := typeName == "zephir_fcall_cache_entry" ||
                          name in {"_GET", "_POST", "_COOKIE", "_SERVER", "_SESSION", "_REQUEST", "_FILES"};
      && KeyFor(name, typeName, current) == (if shared then 1 else current.id)
      && (NameFor(name, typeName, current) == name <==> shared || current.id <= 1 || current.kind == Root)
      && (NameFor(name, typeName, current) != name ==> NameFor(name, typeName, current) == name + "$$" + Decimal(current.id))
  {
  }

  function Added<V>(t: Table<V>, id: int, name: string, v: V): Table<V> {
    t[id := Scope(t, id)[name := v]]
  }

  // A stack of scopes

  function Stack<V>(t: Table<V>, b: Branch): seq<map<string, V>> {
    [Scope(t, b.id)] + match b.parent case None => [] case Some(p) => Stack(t, p)
  }

  function Innermost<V>(scopes: seq<map<string, V>>, name: string): Option<V> {
    if scopes == [] then None
    else if name in scopes[0] then Some(scopes[0][name])
    else Innermost(scopes[1..], name)
  }

  /** Lookup through parent branches is lookup in a stack of scopes: the innermost declaration wins. */
  lemma {:induction false} FindIsInnermost<V>(t: Table<V>, name: string, b: Branch)
    requires NamedBranch(name) == None
    ensures Find(t, name, b) == Innermost(Stack(t, b), name)
    decreases b
  {
    assert Stack(t, b)[1..] == match b.parent case None => [] case Some(p) => Stack(t, p);
    if name !in Scope(t, b.id) && b.parent.Some? {
      FindIsInnermost(t, name, b.parent.value);
    }
  }

  lemma {:induction false} ResolvedEncloses<V>(t: Table<V>, name: string, b: Branch)
    requires Resolve(t, name, b).Some?
    ensures Encloses(Resolve(t, name, b).value, b) && name in Scope(t, Resolve(t, name, b).value.id)
    decreases b
  {
    if name !in Scope(t, b.id) {
      ResolvedEncloses(t, name, b.parent.value);
    }
  }

  /** Whatever an inner branch declares is found by its generated name, from every branch and in every table. */
  lemma GeneratedNamesAreFound<V>(t: Table<V>, log: seq<Branch>, id: nat, name: string, from: Branch)
    requires name in Scope(t, id) && DollarFree(name) && !Plain(log, id)
    ensures Find(t, NameOf(log, id, name), from) == Some(t[id][name])
  {
    GeneratedNamesAreReadBack(name, id, false);
  }

  // Blocks

  /** What happens while a branch is current: variables are added, inner blocks are opened and closed. */
  datatype Item<V> = Add(name: string, typeName: string, v: V) | Inner(kind: BranchType, items: seq<Item<V>>)

  datatype After<V> = After(table: Table<V>, next: nat)

  /** `next` is the next branch id. */
  function Perform<V>(items: seq<Item<V>>, t: Table<V>, b: Branch, next: nat): After<V>
    decreases items
  {
    if items == [] then After(t, next)
    else
      var first := PerformOne(items[0], t, b, next);
      Perform(items[1..], first.table, b, first.next)
  }

  function PerformOne<V>(item: Item<V>, t: Table<V>, b: Branch, next: nat): After<V>
    decreases item
  {
    match item
    case Add(name, typeName, v) => After(Added(t, KeyFor(name, typeName, b), name, v), next)
    case Inner(kind, items) => Perform(items, t, Branch(Some(b), b.level + 1, next, kind, None), next + 1)
  }

  /** The names added to the external branch, whatever branch is current. */
  function Globals<V>(items: seq<Item<V>>): set<string>
    decreases items
  {
    if items == [] then {}
    else
      (match items[0]
       case Add(name, typeName, _) => if Global(name, typeName) then {name} else {}
       case Inner(_, inner) => Globals(inner)) + Globals(items[1..])
  }

  /** Only the current branch, branches opened meanwhile, and the external branch change. */
  ghost predicate Touches<V>(t: Table<V>, to: Table<V>, id: int, next: nat, globals: set<string>) {
    && (forall k :: k != 1 && k != id && k < next ==> Scope(to, k) == Scope(t, k))
    && (id != 1 ==> forall x :: x !in globals ==> Entry(to, 1, x) == Entry(t, 1, x))
  }

  lemma {:induction false} ItemsTouch<V>(items: seq<Item<V>>, t: Table<V>, b: Branch, next: nat)
    requires b.id < next && next > 1
    ensures var r := Perform(items, t, b, next);
      next <= r.next && Touches(t, r.table, b.id, next, Globals(items))
    decreases items
  {
    if items != [] {
      var first := PerformOne(items[0], t, b, next);
      if items[0].Inner? {
        ItemsTouch(items[0].items, t, Branch(Some(b), b.level + 1, next, items[0].kind, None), next + 1);
      }
      ItemsTouch(items[1..], first.table, b, first.next);
    }
  }

  /**
   Closing a block restores what every name meant, except for names that were added to the external
   branch meanwhile.
   */
  lemma BlocksRestoreNames<V>(items: seq<Item<V>>, kind: BranchType, t: Table<V>, b: Branch, next: nat, x: string)
    requires WellFormed(b) && b.id < next && NamedBranch(x) == None && x !in Globals(items)
    ensures var r := PerformOne(Inner(kind, items), t, b, next);
      Resolve(r.table, x, b) == Resolve(t, x, b) && Find(r.table, x, b) == Find(t, x, b)
  {
    var inner := Branch(Some(b), b.level + 1, next, kind, None);
    ItemsTouch(items, t, inner, next + 1);
    SameResolution(t, PerformOne(Inner(kind, items), t, b, next).table, x, b, next);
  }

  lemma {:induction false} SameResolution<V>(t: Table<V>, to: Table<V>, x: string, b: Branch, next: nat)
    requires WellFormed(b) && b.id < next && NamedBranch(x) == None
    requires forall k :: 0 < k < next ==> Entry(to, k, x) == Entry(t, k, x)
    ensures Resolve(to, x, b) == Resolve(t, x, b) && Find(to, x, b) == Find(t, x, b)
    decreases b
  {
    assert Entry(to, b.id, x) == Entry(t, b.id, x);
    if x !in Scope(t, b.id) && b.parent.Some? {
      SameResolution(t, to, x, b.parent.value, next);
    }
  }

  // All variables

  /** The name under which the variable declared as `name` in branch `id` was generated. */
  function NameOf(log: seq<Branch>, id: int, name: string): string {
    Generated(name, if id >= 0 then id else 0, Plain(log, id))
  }

  predicate Plain(log: seq<Branch>, id: int) {
    id <= 1 || (id <= |log| && log[id - 1].kind == Root)
  }

  /**
   Generated names are unique exactly when no name is declared in two branches with plain names: the
   external branch and the root branch.
   */
  lemma NamesAreUnique<V>(t: Table<V>, log: seq<Branch>)
    requires forall id, n :: n in Scope(t, id) ==> id > 0 && DollarFree(n)
    ensures (forall id, n, id', n' :: n in Scope(t, id) && n' in Scope(t, id') && NameOf(log, id, n) == NameOf(log, id', n') ==> id == id' && n == n')
       <==> (forall n, id, id' :: n in Scope(t, id) && n in Scope(t, id') && Plain(log, id) && Plain(log, id') ==> id == id')
  {
    if forall n, id, id' :: n in Scope(t, id) && n in Scope(t, id') && Plain(log, id) && Plain(log, id') ==> id == id' {
      forall id, n, id', n' | n in Scope(t, id) && n' in Scope(t, id') && NameOf(log, id, n) == NameOf(log, id', n')
        ensures id == id' && n == n'
      {
        assert id > 0 && id' > 0;
        GeneratedNamesDiffer(n, id, Plain(log, id), n', id', Plain(log, id'));
      }
    } else {
      var n, id, id' :| n in Scope(t, id) && n in Scope(t, id') && Plain(log, id) && Plain(log, id') && id != id';
      assert NameOf(log, id, n) == NameOf(log, id', n);
    }
  }
}
