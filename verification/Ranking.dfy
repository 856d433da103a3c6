/**
 Class definitions, the walk that raises their ranks, and the orders in which files and initializers
 are emitted.
 */
module Ranking {
  import opened ClassDefinitions
  import opened Dependencies
  import opened RankSort

  class CompilerFile {
    const isExternal: bool
    const classDefinition: ClassDefinition

    constructor (isExternal: bool, classDefinition: ClassDefinition)
      ensures this.isExternal == isExternal && this.classDefinition == classDefinition
    {
      this.isExternal, this.classDefinition := isExternal, classDefinition;
    }
  }

  function InitCall(c: ClassDefinition): Init {
    Init("ZEPHIR_INIT(" + c.cName + ");", c.name)
  }

  /** The calls that initialize the non-external interfaces, or the non-external classes. */
  function InitsOf(files: seq<CompilerFile>, interfaces: bool): seq<Init> {
    if files == [] then []
    else
      var init, last := files[..|files| - 1], files[|files| - 1];
      InitsOf(init, interfaces) +
      if !last.isExternal && last.classDefinition.isInterface == interfaces then [InitCall(last.classDefinition)] else []
  }

  /** dependencyTree */
  function TreeOf(files: seq<CompilerFile>): Tree {
    if files == [] then map[]
    else
      var init, last := files[..|files| - 1], files[|files| - 1];
      if last.isExternal then TreeOf(init)
      else TreeOf(init)[last.classDefinition.name := last.classDefinition.Dependencies()]
  }

  /** The definition of some non-external file extends or implements d, and is called c. */
  ghost predicate Link(files: seq<CompilerFile>, c: string, d: string) {
    exists f <- files :: !f.isExternal && f.classDefinition.name == c && Needs(f.classDefinition, d)
  }

  /** Each definition of the chain extends or implements the next; all but the last are not external. */
  ghost predicate Chain(files: seq<CompilerFile>, chain: seq<string>) {
    |chain| >= 2 && forall k :: 0 <= k < |chain| - 1 ==> Link(files, chain[k], chain[k + 1])
  }

  /** What is extended or implemented, directly or through non-external definitions, comes first. */
  ghost predicate NeededFirst(files: seq<CompilerFile>, names: seq<string>) {
    forall i, j, chain ::
      (0 <= i < |names| && 0 <= j < |names| && Chain(files, chain) && chain[0] == names[i] && chain[|chain| - 1] == names[j]) ==>
        j < i
  }

  function NamesOf(files: seq<CompilerFile>): seq<string> {
    seq(|files|, i requires 0 <= i < |files| => files[i].classDefinition.name)
  }

  function InitNames(inits: seq<Init>): seq<string> {
    seq(|inits|, i requires 0 <= i < |inits| => inits[i].name)
  }

  function NonExternal(files: seq<CompilerFile>): nat {
    if files == [] then 0 else NonExternal(files[1..]) + if files[0].isExternal then 0 else 1
  }

  /** Each non-external definition has its call in the list of its kind, and there are no other calls. */
  lemma {:induction false} InitsAre(files: seq<CompilerFile>, interfaces: bool, x: Init)
    ensures x in InitsOf(files, interfaces) <==>
            exists f <- files :: !f.isExternal && f.classDefinition.isInterface == interfaces && x.name == f.classDefinition.name &&
                                 x.call == "ZEPHIR_INIT(" + f.classDefinition.cName + ");"
  {
    if files != [] {
      var init, last := files[..|files| - 1], files[|files| - 1];
      assert files == init + [last];
      InitsAre(init, interfaces, x);
    }
  }

  lemma {:induction false} NonExternalThen(init: seq<CompilerFile>, last: CompilerFile)
    ensures NonExternal(init + [last]) == NonExternal(init) + if last.isExternal then 0 else 1
  {
    if init == [] {
      assert [] + [last] == [last] && [last][1..] == [];
    } else {
      assert (init + [last])[1..] == init[1..] + [last];
      NonExternalThen(init[1..], last);
    }
  }

  lemma {:induction false} InitsAreCounted(files: seq<CompilerFile>)
    ensures |InitsOf(files, true)| + |InitsOf(files, false)| == NonExternal(files)
  {
    if files != [] {
      var init, last := files[..|files| - 1], files[|files| - 1];
      assert files == init + [last];
      InitsAreCounted(init);
      NonExternalThen(init, last);
    }
  }

  class Compiler {
    /** All definitions that may be depended on, by complete name. */
    const definitions: map<string, ClassDefinition>

    constructor (definitions: map<string, ClassDefinition>)
      ensures this.definitions == definitions
    {
      this.definitions := definitions;
    }

    ghost predicate Valid() {
      forall n <- definitions :: definitions[n].name == n
    }

    /** Every dependency has a definition. */
    ghost predicate Resolved(t: Tree) {
      forall a, d :: a in t && d in t[a] ==> d in definitions
    }

    ghost function Rank(n: string): nat
      requires n in definitions
      reads definitions.Values
    {
      definitions[n].dependencyRank
    }

    /** Raises one dependency, and then its own dependencies. */
    method Raise(t: Tree, d: string, ghost h: map<string, nat>)
      requires Valid() && Acyclic(t, h) && Resolved(t) && d in definitions
      modifies definitions.Values
      ensures forall n <- definitions :: Rank(n) == old(Rank(n)) + |Paths(t, h, d, n)|
      decreases Height(h, d), 1, 0
    {
      definitions[d].IncreaseDependencyRank(0);
      assert forall n <- definitions :: Rank(n) == old(Rank(n)) + if n == d then 1 else 0;
      CalculateFrom(t, d, h);
    }

    /** The recursive part of calculateDependencies. */
    method CalculateFrom(t: Tree, dependency: string, ghost h: map<string, nat>)
      requires Valid() && Acyclic(t, h) && Resolved(t)
      modifies definitions.Values
      ensures forall n <- definitions :: Rank(n) == old(Rank(n)) + |NonemptyPaths(t, h, dependency, n)|
      decreases Height(h, dependency), 0, 0
    {
      if dependency in t {
        var dependencies := t[dependency];
        var i := 0;
        while i < |dependencies|
          invariant 0 <= i <= |dependencies|
          invariant forall n <- definitions :: Rank(n) == old(Rank(n)) + |PathsVia(t, h, dependency, i, n)|
        {
          label Before:
          var d := dependencies[i];
          assert d in t[dependency];
          Raise(t, d, h);
          i := i + 1;
          assert forall n <- definitions :: |PathsVia(t, h, dependency, i, n)| == |PathsVia(t, h, dependency, i - 1, n)| + |Paths(t, h, d, n)|;
        }
      }
    }

    /** The dependency tree of a list of files, and its keys in order of arrival. */
    method BuildTree(files: seq<CompilerFile>) returns (t: Tree, order: seq<string>)
      ensures t == TreeOf(files) && !Repeats(order) && forall a :: a in order <==> a in t
    {
      t, order := map[], [];
      var i := 0;
      while i < |files|
        invariant 0 <= i <= |files| && t == TreeOf(files[..i])
        invariant !Repeats(order) && forall a :: a in order <==> a in t
      {
        assert files[..i + 1][..i] == files[..i];
        if !files[i].isExternal {
          var c := files[i].classDefinition;
          var dependencies := c.GetDependencies();
          if c.name !in t {
            order := order + [c.name];
          }
          t := t[c.name := dependencies];
        }
        i := i + 1;
      }
      assert files[..i] == files;
    }

    /** calculateDependencies */
    method CalculateDependencies(files: seq<CompilerFile>, ghost h: map<string, nat>) returns (ghost order: seq<string>)
      requires Valid() && Acyclic(TreeOf(files), h) && Resolved(TreeOf(files))
      modifies definitions.Values
      ensures !Repeats(order) && forall a :: a in order <==> a in TreeOf(files)
      ensures forall n <- definitions :: Rank(n) == old(Rank(n)) + |PathsInto(TreeOf(files), h, order, n)|
    {
      var t, keys := BuildTree(files);
      order := keys;
      CalculateAll(t, keys, h);
    }

    /** Every definition of the tree, in turn. */
    method CalculateAll(t: Tree, keys: seq<string>, ghost h: map<string, nat>)
      requires Valid() && Acyclic(t, h) && Resolved(t)
      modifies definitions.Values
      ensures forall n <- definitions :: Rank(n) == old(Rank(n)) + |PathsInto(t, h, keys, n)|
    {
      var k := 0;
      while k < |keys|
        invariant 0 <= k <= |keys|
        invariant forall n <- definitions :: Rank(n) == old(Rank(n)) + |PathsInto(t, h, keys[..k], n)|
      {
        forall n <- definitions
          ensures |PathsInto(t, h, keys[..k + 1], n)| == |PathsInto(t, h, keys[..k], n)| + |NonemptyPaths(t, h, keys[k], n)|
        {
          PathsIntoThen(t, h, keys, k, n);
        }
        CalculateFrom(t, keys[k], h);
        k := k + 1;
      }
      assert keys[..k] == keys;
    }

    ghost function Ranks(): map<string, nat>
      reads definitions.Values
    {
      map n | n in definitions :: definitions[n].dependencyRank
    }

    /** The definitions of the files are the ones that are depended on. */
    ghost predicate Owns(files: seq<CompilerFile>) {
      forall f <- files :: f.classDefinition.name in definitions && definitions[f.classDefinition.name] == f.classDefinition
    }

    /** The files with the ranks of their definitions, in order of arrival. */
    ghost function WithRanks(files: seq<CompilerFile>): seq<Ranked<CompilerFile>>
      requires Owns(files)
      reads definitions.Values
    {
      seq(|files|, i requires 0 <= i < |files| reads definitions.Values =>
        assert files[i] in files;
        Ranked(files[i].classDefinition.dependencyRank, files[i]))
    }

    method RankEach(files: seq<CompilerFile>) returns (ranked: seq<Ranked<CompilerFile>>)
      requires Owns(files)
      ensures ranked == WithRanks(files) && Items(ranked) == files
    {
      ranked := [];
      var k := 0;
      while k < |files|
        invariant 0 <= k <= |files| && |ranked| == k
        invariant forall i :: 0 <= i < k ==> ranked[i] == WithRanks(files)[i]
      {
        assert files[k] in files;
        ranked := ranked + [Ranked(files[k].classDefinition.dependencyRank, files[k])];
        k := k + 1;
      }
    }

    /**
     The order of files in generate: after the walk, every file comes after all files that its definition
     extends or implements, directly or through other non-external definitions.  Ranks go down, and files
     of one rank stay in order of arrival.
     */
    method RankFiles(files: seq<CompilerFile>, ghost h: map<string, nat>)
      returns (sorted: seq<CompilerFile>, ghost ranked: seq<Ranked<CompilerFile>>)
      requires Valid() && Owns(files) && Acyclic(TreeOf(files), h) && Resolved(TreeOf(files)) && Level(TreeOf(files), Ranks())
      modifies definitions.Values
      ensures multiset(sorted) == multiset(files)
      ensures DependenciesFirst(TreeOf(files), sorted) && NeededFirst(files, NamesOf(sorted))
      ensures sorted == Items(ranked) && Descending(ranked) && forall r :: Bucket(ranked, r) == Bucket(WithRanks(files), r)
      ensures Owns(sorted) && TreeOf(sorted) == TreeOf(files) && Level(TreeOf(sorted), Ranks())
    {
      ghost var before := Ranks();
      ghost var order := CalculateDependencies(files, h);
      var arrived := RankEach(files);
      var result := SortByRank(arrived);
      sorted, ranked := Items(result), result;
      SamePermutation(arrived, result);
      SamePermutationOfItems(arrived, result);
      Ordered(files, h, order, before, result, arrived);
      SameTree(files, sorted);
    }

    lemma Ordered(files: seq<CompilerFile>, h: map<string, nat>, order: seq<string>, before: map<string, nat>,
                  result: seq<Ranked<CompilerFile>>, arrived: seq<Ranked<CompilerFile>>)
      requires Valid() && Owns(files) && Resolved(TreeOf(files)) && Counted(TreeOf(files), h, order, before, Ranks())
      requires Descending(result) && multiset(result) == multiset(arrived) && arrived == WithRanks(files)
      ensures DependenciesFirst(TreeOf(files), Items(result)) && NeededFirst(files, NamesOf(Items(result)))
      ensures Level(TreeOf(files), Ranks())
    {
      forall i | 0 <= i < |files| ensures files[i].classDefinition.name in Ranks() && arrived[i].rank == Ranks()[files[i].classDefinition.name] {
        assert files[i] in files;
      }
      RankedFirst(TreeOf(files), h, order, before, Ranks(), result, arrived, files);
      StaysLevel(TreeOf(files), h, order, before, Ranks());
      ChainsFollowPaths(files, NamesOf(Items(result)));
    }

    /** The initializations of interfaces or of classes, with their ranks. */
    method RankedInits(files: seq<CompilerFile>, interfaces: bool) returns (ranked: seq<Ranked<Init>>)
      requires Owns(files)
      ensures Items(ranked) == InitsOf(files, interfaces)
      ensures forall x <- ranked :: Placed(x, interfaces)
    {
      ranked := [];
      var k := 0;
      while k < |files|
        invariant 0 <= k <= |files| && Items(ranked) == InitsOf(files[..k], interfaces)
        invariant forall x <- ranked :: Placed(x, interfaces)
      {
        assert files[..k + 1][..k] == files[..k];
        var c := files[k].classDefinition;
        assert files[k] in files;
        if !files[k].isExternal && c.isInterface == interfaces {
          ranked := ranked + [Ranked(c.dependencyRank, InitCall(c))];
        }
        k := k + 1;
      }
      assert files[..k] == files;
    }

    /** A ranked initialization has the rank of its definition. */
    ghost predicate Placed(x: Ranked<Init>, interfaces: bool)
      reads definitions.Values
    {
      && x.item.name in definitions && x.rank == definitions[x.item.name].dependencyRank
      && definitions[x.item.name].isInterface == interfaces
    }

    /** Interfaces depend on interfaces only. */
    ghost predicate InterfacesApart(t: Tree) {
      forall a, d :: a in t && d in t[a] && a in definitions && d in definitions && definitions[a].isInterface ==>
        definitions[d].isInterface
    }

    /**
     The ZEPHIR_INIT sequence: interfaces by rank, then classes by rank, by string inside a rank.  Every
     non-external definition is initialized after all its dependencies.
     */
    method InitSequence(files: seq<CompilerFile>, ghost h: map<string, nat>)
      returns (inits: seq<Init>, ghost first: seq<Ranked<Init>>, ghost second: seq<Ranked<Init>>)
      requires Valid() && Owns(files) && Acyclic(TreeOf(files), h) && Resolved(TreeOf(files)) && Level(TreeOf(files), Ranks())
      requires InterfacesApart(TreeOf(files))
      modifies definitions.Values
      ensures multiset(inits) == multiset(InitsOf(files, true)) + multiset(InitsOf(files, false))
      ensures InitializedFirst(TreeOf(files), inits) && NeededFirst(files, InitNames(inits)) && Level(TreeOf(files), Ranks())
      ensures |inits| == NonExternal(files)
      ensures forall f <- files :: !f.isExternal ==> Init("ZEPHIR_INIT(" + f.classDefinition.cName + ");", f.classDefinition.name) in inits
      ensures inits == Items(first) + Items(second) && multiset(Items(first)) == multiset(InitsOf(files, true))
      ensures Descending(first) && Descending(second) && (forall x <- first :: Placed(x, true)) && (forall x <- second :: Placed(x, false))
      ensures forall r :: InOrder(Bucket(first, r)) && InOrder(Bucket(second, r))
    {
      ghost var t, before := TreeOf(files), Ranks();
      ghost var order := CalculateDependencies(files, h);
      var interfaces := SortedInits(files, true);
      var classes := SortedInits(files, false);
      inits := Items(interfaces) + Items(classes);
      first, second := interfaces, classes;
      InterfacesThenClasses(t, h, order, before, Ranks(), first, second);
      Initialized(files, h, order, before, inits);
    }

    lemma Initialized(files: seq<CompilerFile>, h: map<string, nat>, order: seq<string>, before: map<string, nat>, inits: seq<Init>)
      requires Owns(files) && Counted(TreeOf(files), h, order, before, Ranks()) && InitializedFirst(TreeOf(files), inits)
      requires multiset(inits) == multiset(InitsOf(files, true)) + multiset(InitsOf(files, false))
      ensures NeededFirst(files, InitNames(inits)) && Level(TreeOf(files), Ranks()) && |inits| == NonExternal(files)
      ensures forall f <- files :: !f.isExternal ==> Init("ZEPHIR_INIT(" + f.classDefinition.cName + ");", f.classDefinition.name) in inits
    {
      StaysLevel(TreeOf(files), h, order, before, Ranks());
      ChainsFollowPaths(files, InitNames(inits));
      AllAreInitialized(files, inits);
    }

    method SortedInits(files: seq<CompilerFile>, interfaces: bool) returns (sorted: seq<Ranked<Init>>)
      requires Owns(files)
      ensures Descending(sorted) && multiset(Items(sorted)) == multiset(InitsOf(files, interfaces))
      ensures forall r :: InOrder(Bucket(sorted, r))
      ensures forall x <- sorted :: Placed(x, interfaces)
    {
      var ranked := RankedInits(files, interfaces);
      sorted := SortInits(ranked);
      SameElements(ranked, sorted);
      SamePermutationOfItems(ranked, sorted);
      forall x <- sorted ensures Placed(x, interfaces) {
        assert x in multiset(sorted);
      }
    }

    lemma InterfacesThenClasses(t: Tree, h: map<string, nat>, order: seq<string>, before: map<string, nat>, after: map<string, nat>,
                                first: seq<Ranked<Init>>, second: seq<Ranked<Init>>)
      requires Counted(t, h, order, before, after) && Resolved(t) && after == Ranks() && InterfacesApart(t)
      requires Descending(first) && Descending(second)
      requires (forall x <- first :: Placed(x, true)) && (forall x <- second :: Placed(x, false))
      ensures InitializedFirst(t, Items(first) + Items(second))
    {
      var inits := Items(first) + Items(second);
      forall i, j, p | 0 <= i < |inits| && 0 <= j < |inits| && p != [] && IsPath(t, inits[i].name, p, inits[j].name)
        ensures j < i
      {
        var x := if i < |first| then first[i] else second[i - |first|];
        var y := if j < |first| then first[j] else second[j - |first|];
        assert x in (if i < |first| then first else second) && y in (if j < |first| then first else second);
        RanksGrow(t, h, order, before, after, x.item.name, p, y.item.name);
        if i < |first| {
          InterfacesStayApart(t, x.item.name, p, y.item.name);
        }
      }
    }

    lemma {:induction false} InterfacesStayApart(t: Tree, a: string, p: seq<nat>, b: string)
      requires Resolved(t) && InterfacesApart(t) && IsPath(t, a, p, b) && a in definitions && definitions[a].isInterface
      ensures b in definitions && definitions[b].isInterface
      decreases p
    {
      if p != [] {
        assert t[a][p[0]] in t[a];
        InterfacesStayApart(t, t[a][p[0]], p[1..], b);
      }
    }

    lemma AllAreInitialized(files: seq<CompilerFile>, inits: seq<Init>)
      requires multiset(inits) == multiset(InitsOf(files, true)) + multiset(InitsOf(files, false))
      ensures |inits| == NonExternal(files)
      ensures forall f <- files :: !f.isExternal ==> Init("ZEPHIR_INIT(" + f.classDefinition.cName + ");", f.classDefinition.name) in inits
    {
      InitsAreCounted(files);
      assert |multiset(inits)| == |inits|;
      forall f <- files ensures !f.isExternal ==> Init("ZEPHIR_INIT(" + f.classDefinition.cName + ");", f.classDefinition.name) in inits {
        var x := Init("ZEPHIR_INIT(" + f.classDefinition.cName + ");", f.classDefinition.name);
        InitsAre(files, f.classDefinition.isInterface, x);
        assert !f.isExternal ==> x in multiset(inits);
      }
    }

    lemma LinkIsEdge(files: seq<CompilerFile>, c: string, d: string) returns (i: nat)
      requires Owns(files) && Link(files, c, d)
      ensures c in TreeOf(files) && i < |TreeOf(files)[c]| && TreeOf(files)[c][i] == d
    {
      var f :| f in files && !f.isExternal && f.classDefinition.name == c && Needs(f.classDefinition, d);
      TreeIs(files);
      DependenciesAre(f.classDefinition, d);
      i :| 0 <= i < |TreeOf(files)[c]| && TreeOf(files)[c][i] == d;
    }

    /** A chain of definitions is a path in the tree of their dependencies. */
    lemma {:induction false} ChainIsPath(files: seq<CompilerFile>, chain: seq<string>) returns (p: seq<nat>)
      requires Owns(files) && Chain(files, chain)
      ensures p != [] && IsPath(TreeOf(files), chain[0], p, chain[|chain| - 1])
      decreases |chain|
    {
      assert Link(files, chain[0], chain[0 + 1]);
      var i := LinkIsEdge(files, chain[0], chain[1]);
      var rest := [];
      if |chain| > 2 {
        forall k | 0 <= k < |chain[1..]| - 1 ensures Link(files, chain[1..][k], chain[1..][k + 1]) {
          assert Link(files, chain[k + 1], chain[k + 1 + 1]);
        }
        rest := ChainIsPath(files, chain[1..]);
      }
      p := [i] + rest;
      assert p[1..] == rest;
    }

    lemma ChainsFollowPaths(files: seq<CompilerFile>, names: seq<string>)
      requires Owns(files)
      requires forall i, j, p :: 0 <= i < |names| && 0 <= j < |names| && p != [] && IsPath(TreeOf(files), names[i], p, names[j]) ==> j < i
      ensures NeededFirst(files, names)
    {
      forall i, j, chain | 0 <= i < |names| && 0 <= j < |names| && Chain(files, chain) && chain[0] == names[i] && chain[|chain| - 1] == names[j]
        ensures j < i
      {
        var p := ChainIsPath(files, chain);
      }
    }

    /** The tree only depends on which definitions there are. */
    lemma {:induction false} TreeIs(files: seq<CompilerFile>)
      requires Owns(files)
      ensures forall a :: a in TreeOf(files) <==> exists f <- files :: !f.isExternal && f.classDefinition.name == a
      ensures forall a <- TreeOf(files) :: a in definitions && TreeOf(files)[a] == definitions[a].Dependencies()
    {
      if files != [] {
        var init, last := files[..|files| - 1], files[|files| - 1];
        assert files == init + [last] && last in files;
        TreeIs(init);
      }
    }

    lemma SameTree(files: seq<CompilerFile>, sorted: seq<CompilerFile>)
      requires Owns(files) && multiset(sorted) == multiset(files)
      ensures Owns(sorted) && TreeOf(sorted) == TreeOf(files)
    {
      assert forall f :: f in sorted <==> f in multiset(sorted);
      assert forall f :: f in files <==> f in multiset(files);
      TreeIs(files);
      TreeIs(sorted);
      assert TreeOf(sorted).Keys == TreeOf(files).Keys;
    }

    /** A list of files by rank, if ranks count paths, puts dependencies first. */
    lemma RankedFirst(t: Tree, h: map<string, nat>, order: seq<string>, before: map<string, nat>, after: map<string, nat>,
                      result: seq<Ranked<CompilerFile>>, ranked: seq<Ranked<CompilerFile>>, files: seq<CompilerFile>)
      requires Counted(t, h, order, before, after) && Owns(files) && Resolved(t) && definitions.Keys == after.Keys
      requires Descending(result) && multiset(result) == multiset(ranked)
      requires |ranked| == |files|
      requires forall i :: 0 <= i < |files| ==> ranked[i].item == files[i]
      requires forall i :: 0 <= i < |files| ==> files[i].classDefinition.name in after && ranked[i].rank == after[files[i].classDefinition.name]
      ensures DependenciesFirst(t, Items(result))
    {
      var sorted := Items(result);
      forall i | 0 <= i < |result| ensures result[i].item.classDefinition.name in after && result[i].rank == after[result[i].item.classDefinition.name] {
        assert result[i] in multiset(result);
        assert result[i] in ranked;
      }
      forall i, j, p | 0 <= i < |sorted| && 0 <= j < |sorted| && p != [] &&
        IsPath(t, sorted[i].classDefinition.name, p, sorted[j].classDefinition.name)
        ensures j < i
      {
        RanksGrow(t, h, order, before, after, sorted[i].classDefinition.name, p, sorted[j].classDefinition.name);
      }
    }
  }

  /** Before the walk, no dependency ranks below the definition that depends on it. */
  ghost predicate Level(t: Tree, ranks: map<string, nat>) {
    forall a, d :: a in t && d in t[a] && a in ranks && d in ranks ==> ranks[a] <= ranks[d]
  }

  /** The walk over a tree: every rank grew by the number of paths into the definition. */
  ghost predicate Counted(t: Tree, h: map<string, nat>, order: seq<string>, before: map<string, nat>, after: map<string, nat>) {
    && Acyclic(t, h) && Level(t, before) && !Repeats(order) && (forall a :: a in order <==> a in t)
    && before.Keys == after.Keys
    && (forall a, d :: a in t && d in t[a] ==> d in after)
    && (forall n <- after :: after[n] == before[n] + |PathsInto(t, h, order, n)|)
  }

  /** Ranks grow along paths. */
  lemma {:induction false} RanksGrow(t: Tree, h: map<string, nat>, order: seq<string>, before: map<string, nat>,
                                     after: map<string, nat>, a: string, p: seq<nat>, b: string)
    requires Counted(t, h, order, before, after) && p != [] && IsPath(t, a, p, b) && a in after
    ensures b in after && after[a] < after[b]
    decreases p
  {
    var d := t[a][p[0]];
    assert d in t[a];
    EdgesRaise(t, h, order, a, p[0]);
    if p[1..] != [] {
      RanksGrow(t, h, order, before, after, d, p[1..], b);
    }
  }

  /** What the walk leaves is fit for another walk. */
  lemma StaysLevel(t: Tree, h: map<string, nat>, order: seq<string>, before: map<string, nat>, after: map<string, nat>)
    requires Counted(t, h, order, before, after)
    ensures Level(t, after)
  {
    forall a, d | a in t && d in t[a] && a in after && d in after ensures after[a] <= after[d] {
      var i :| 0 <= i < |t[a]| && t[a][i] == d;
      EdgesRaise(t, h, order, a, i);
    }
  }

  ghost predicate DependenciesFirst(t: Tree, sorted: seq<CompilerFile>) {
    forall i, j, p ::
      (&& 0 <= i < |sorted| && 0 <= j < |sorted| && p != []
       && IsPath(t, sorted[i].classDefinition.name, p, sorted[j].classDefinition.name)) ==> j < i
  }

  ghost predicate InitializedFirst(t: Tree, inits: seq<Init>) {
    forall i, j, p ::
      (0 <= i < |inits| && 0 <= j < |inits| && p != [] && IsPath(t, inits[i].name, p, inits[j].name)) ==> j < i
  }

  function Items<T>(s: seq<Ranked<T>>): seq<T> {
    seq(|s|, i requires 0 <= i < |s| => s[i].item)
  }

  lemma SamePermutation<T>(a: seq<Ranked<T>>, b: seq<Ranked<T>>)
    requires forall r :: Bucket(b, r) == Bucket(a, r)
    ensures multiset(a) == multiset(b)
  {
    forall x | x in a || x in b ensures multiset(a)[x] == multiset(b)[x] {
      BucketsDecide(a, x);
      BucketsDecide(b, x);
    }
    assert multiset(a) <= multiset(b) && multiset(b) <= multiset(a);
  }

  function Removed<T>(s: seq<T>, k: nat): (r: seq<T>)
    requires k < |s|
    ensures |r| == |s| - 1
  {
    s[..k] + s[k + 1..]
  }

  lemma WithoutOne<T>(s: seq<Ranked<T>>, k: nat)
    requires k < |s|
    ensures multiset(Removed(s, k)) == multiset(s) - multiset{s[k]}
    ensures multiset(Items(s)) == multiset(Items(Removed(s, k))) + multiset{s[k].item}
  {
    assert s == s[..k] + [s[k]] + s[k + 1..];
    assert Items(s) == Items(s[..k]) + [s[k].item] + Items(s[k + 1..]);
    assert Items(Removed(s, k)) == Items(s[..k]) + Items(s[k + 1..]);
  }

  lemma {:induction false} SamePermutationOfItems<T>(a: seq<Ranked<T>>, b: seq<Ranked<T>>)
    requires multiset(a) == multiset(b)
    ensures multiset(Items(a)) == multiset(Items(b))
    decreases |a|
  {
    if a == [] {
      assert b == [];
    } else {
      assert a[0] in multiset(b);
      var k :| 0 <= k < |b| && b[k] == a[0];
      WithoutOne(a, 0);
      WithoutOne(b, k);
      SamePermutationOfItems(Removed(a, 0), Removed(b, k));
    }
  }
}
