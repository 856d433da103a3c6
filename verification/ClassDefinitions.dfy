/**
 Class and interface definitions.
 */
module ClassDefinitions {
  import opened Wrappers

  /** The default value of a property, with its place in the source. */
  datatype Default = Default(value: string, line: int, column: int)

  /** `if this.name === null { let this.name = default; }` */
  datatype Initializer = Initializer(name: string, default: Default)

  /** What a class extends or implements: a definition with a rank, or a class of PHP itself. */
  datatype Reference = Defined(name: string) | Native(name: string)

  /** Only definitions have ranks. */
  function RankedNames(refs: seq<Reference>): seq<string> {
    if refs == [] then []
    else (if refs[0].Defined? then [refs[0].name] else []) + RankedNames(refs[1..])
  }

  lemma {:induction false} RankedNamesAre(refs: seq<Reference>, d: string)
    ensures multiset(RankedNames(refs))[d] == multiset(refs)[Defined(d)]
    ensures d in RankedNames(refs) <==> Defined(d) in refs
  {
    if refs != [] {
      RankedNamesAre(refs[1..], d);
      assert refs == [refs[0]] + refs[1..];
      if refs[0].Defined? {
        assert multiset(RankedNames(refs)) == multiset{refs[0].name} + multiset(RankedNames(refs[1..]));
      } else {
        assert RankedNames(refs) == RankedNames(refs[1..]);
      }
    }
  }

  /** Names keep the order of the references. */
  lemma {:induction false} RankedNamesKeepOrder(refs: seq<Reference>, i: nat, j: nat) returns (k: nat, l: nat)
    requires i < j < |refs| && refs[i].Defined? && refs[j].Defined?
    ensures k < l < |RankedNames(refs)| && RankedNames(refs)[k] == refs[i].name && RankedNames(refs)[l] == refs[j].name
  {
    var head := if refs[0].Defined? then 1 else 0;
    if i == 0 {
      k := 0;
      RankedNamesAre(refs[1..], refs[j].name);
      assert refs[1..][j - 1] == refs[j];
      l :| 0 <= l < |RankedNames(refs[1..])| && RankedNames(refs[1..])[l] == refs[j].name;
      l := l + 1;
    } else {
      k, l := RankedNamesKeepOrder(refs[1..], i - 1, j - 1);
      k, l := k + head, l + head;
    }
  }

  /** One definition extends or implements another. */
  predicate Needs(c: ClassDefinition, d: string) {
    c.extendsDefinition == Some(Defined(d)) || Defined(d) in c.implementedInterfaces
  }

  /**
   The dependencies of a definition are the parent and the interfaces that have ranks, as often as they
   are named; classes of PHP itself are none.
   */
  lemma DependenciesAre(c: ClassDefinition, d: string)
    ensures d in c.Dependencies() <==> Needs(c, d)
    ensures multiset(c.Dependencies())[d] ==
            (if c.extendsDefinition == Some(Defined(d)) then 1 else 0) + multiset(c.implementedInterfaces)[Defined(d)]
  {
    var parent := if c.extendsDefinition.Some? then [c.extendsDefinition.value] else [];
    RankedNamesAre(parent + c.implementedInterfaces, d);
    assert multiset(parent + c.implementedInterfaces) == multiset(parent) + multiset(c.implementedInterfaces);
  }

  lemma ParentIsFirst(c: ClassDefinition)
    requires c.extendsDefinition.Some? && c.extendsDefinition.value.Defined?
    ensures c.Dependencies() != [] && c.Dependencies()[0] == c.extendsDefinition.value.name
  {
  }

  /** The interfaces follow in their order. */
  lemma DependenciesInOrder(c: ClassDefinition, i: nat, j: nat)
    requires i < j < |c.implementedInterfaces| && c.implementedInterfaces[i].Defined? && c.implementedInterfaces[j].Defined?
    ensures exists k, l :: 0 <= k < l < |c.Dependencies()| && c.Dependencies()[k] == c.implementedInterfaces[i].name &&
              c.Dependencies()[l] == c.implementedInterfaces[j].name
  {
    var parent := if c.extendsDefinition.Some? then [c.extendsDefinition.value] else [];
    var refs := parent + c.implementedInterfaces;
    assert refs[|parent| + i] == c.implementedInterfaces[i] && refs[|parent| + j] == c.implementedInterfaces[j];
    var k, l := RankedNamesKeepOrder(refs, |parent| + i, |parent| + j);
    assert c.Dependencies()[k] == c.implementedInterfaces[i].name && c.Dependencies()[l] == c.implementedInterfaces[j].name;
  }

  class ClassDefinition {
    const name: string
    const cName: string
    const isInterface: bool
    const extendsDefinition: Option<Reference>
    const implementedInterfaces: seq<Reference>
    var dependencyRank: nat
    /** The method that initializes properties, if there is one, and its statements, if it has a block. */
    var initMethod: Option<Option<seq<Initializer>>>

    constructor (name: string, cName: string, isInterface: bool, extendsDefinition: Option<Reference>,
                 implementedInterfaces: seq<Reference>)
      ensures this.name == name && this.cName == cName && this.isInterface == isInterface && dependencyRank == 0 && initMethod == None
      ensures this.extendsDefinition == extendsDefinition && this.implementedInterfaces == implementedInterfaces
    {
      this.name, this.cName, this.isInterface := name, cName, isInterface;
      this.extendsDefinition, this.implementedInterfaces := extendsDefinition, implementedInterfaces;
      dependencyRank, initMethod := 0, None;
    }

    /** The parent, then the interfaces. */
    function Dependencies(): seq<string> {
      RankedNames((if extendsDefinition.Some? then [extendsDefinition.value] else []) + implementedInterfaces)
    }

    method GetDependencies() returns (dependencies: seq<string>)
      ensures dependencies == Dependencies()
    {
      dependencies := [];
      ghost var refs := (if extendsDefinition.Some? then [extendsDefinition.value] else []) + implementedInterfaces;
      if extendsDefinition.Some? {
        assert refs[1..] == implementedInterfaces;
        if extendsDefinition.value.Defined? {
          dependencies := dependencies + [extendsDefinition.value.name];
        }
      } else {
        assert refs == implementedInterfaces;
      }
      var i := 0;
      assert implementedInterfaces[0..] == implementedInterfaces;
      while i < |implementedInterfaces|
        invariant 0 <= i <= |implementedInterfaces|
        invariant RankedNames(refs) == dependencies + RankedNames(implementedInterfaces[i..])
      {
        var interface := implementedInterfaces[i];
        assert implementedInterfaces[i..][1..] == implementedInterfaces[i + 1..];
        if interface.Defined? {
          dependencies := dependencies + [interface.name];
        }
        i := i + 1;
      }
    }

    method IncreaseDependencyRank(rank: nat)
      modifies `dependencyRank
      ensures dependencyRank == old(dependencyRank) + rank + 1
    {
      dependencyRank := dependencyRank + (rank + 1);
    }

    /** addInitMethod: only a block with statements makes a method. */
    method AddInitMethod(statements: seq<Initializer>)
      requires initMethod == None
      modifies `initMethod
      ensures initMethod == if statements == [] then None else Some(Some(statements))
    {
      if statements != [] {
        initMethod := Some(Some(statements));
      }
    }

    /** updateMethod, for the initialization method. */
    method UpdateInitMethod(statements: seq<Initializer>)
      requires initMethod.Some?
      modifies `initMethod
      ensures initMethod == Some(Some(statements))
    {
      initMethod := Some(Some(statements));
    }
  }
}
