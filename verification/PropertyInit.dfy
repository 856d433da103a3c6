/**
 Array defaults of properties: the list of initializers that every new object runs.
 */
module PropertyInit {
  import opened Wrappers
  import opened ClassDefinitions

  // Lists of initializers

  /** removeInitializationStatements */
  function Without(s: seq<Initializer>, name: string): seq<Initializer> {
    if s == [] then [] else (if s[0].name == name then [] else [s[0]]) + Without(s[1..], name)
  }

  lemma {:induction false} WithoutHas(s: seq<Initializer>, name: string)
    ensures forall i :: i in Without(s, name) <==> i in s && i.name != name
  {
    if s != [] {
      WithoutHas(s[1..], name);
      assert s == [s[0]] + s[1..];
    }
  }

  predicate Unique(s: seq<Initializer>) {
    forall i, j :: 0 <= i < j < |s| ==> s[i].name != s[j].name
  }

  function Names(s: seq<Initializer>): set<string> {
    set i <- s :: i.name
  }

  /** The list after one more property; `inherited` is the list of the parent class. */
  function Initialized(own: Option<Option<seq<Initializer>>>, inherited: seq<Initializer>, p: Initializer): seq<Initializer> {
    match own
    case None => Without(inherited, p.name) + [p]
    case Some(None) => [p]
    case Some(Some(s)) => if p in s then s else [p] + Without(s, p.name)
  }

  class ClassProperty {
    const name: string
    const default: Default
    const classDefinition: ClassDefinition

    constructor (name: string, default: Default, classDefinition: ClassDefinition)
      ensures this.name == name && this.default == default && this.classDefinition == classDefinition
    {
      this.name, this.default, this.classDefinition := name, default, classDefinition;
    }

    function LetStatement(): Initializer {
      Initializer(name, default)
    }

    method RemoveInitializationStatements(statements: seq<Initializer>) returns (kept: seq<Initializer>)
      ensures kept == Without(statements, name)
    {
      kept := [];
      var i := 0;
      assert statements[0..] == statements;
      ghost var goal, rest := Without(statements, name), Without(statements, name);
      while i < |statements|
        invariant 0 <= i <= |statements| && rest == Without(statements[i..], name)
        invariant goal == kept + rest
      {
        assert statements[i..][1..] == statements[i + 1..];
        rest := Without(statements[i + 1..], name);
        if statements[i].name != name {
          assert kept + ([statements[i]] + rest) == kept + [statements[i]] + rest;
          kept := kept + [statements[i]];
        }
        i := i + 1;
      }
    }

    /** initializeArray, for a property that is not static. */
    method InitializeArray(parent: ClassDefinition?)
      requires parent != null && parent.initMethod.Some? ==> parent.initMethod.value.Some?
      modifies classDefinition`initMethod
      ensures var inherited := if parent == null || old(parent.initMethod) == None then [] else old(parent.initMethod).value.value;
        classDefinition.initMethod == Some(Some(Initialized(old(classDefinition.initMethod), inherited, LetStatement())))
    {
      var letStatement := LetStatement();
      if classDefinition.initMethod.Some? {
        if classDefinition.initMethod.value.Some? {
          var statements := classDefinition.initMethod.value.value;
          var needLetStatementAdded := true;
          var i := 0;
          while i < |statements| && needLetStatementAdded
            invariant 0 <= i <= |statements|
            invariant needLetStatementAdded == (letStatement !in statements[..i])
          {
            if statements[i] == letStatement {
              needLetStatementAdded := false;
            }
            i := i + 1;
          }
          assert needLetStatementAdded == (letStatement !in statements) by {
            if needLetStatementAdded {
              assert statements[..i] == statements;
            }
          }
          var kept := RemoveInitializationStatements(statements);
          if needLetStatementAdded {
            classDefinition.UpdateInitMethod([letStatement] + kept);
          }
        } else {
          classDefinition.UpdateInitMethod([letStatement]);
        }
      } else {
        var statements := [];
        if parent != null && parent.initMethod.Some? {
          statements := parent.initMethod.value.value;
        }
        var kept := RemoveInitializationStatements(statements);
        classDefinition.AddInitMethod(kept + [letStatement]);
      }
    }
  }

  // The list of a whole class

  /** The list after compiling properties in order. */
  function Compiled(own: Option<Option<seq<Initializer>>>, inherited: seq<Initializer>, ps: seq<Initializer>): Option<Option<seq<Initializer>>> {
    if ps == [] then own
    else Some(Some(Initialized(Compiled(own, inherited, ps[..|ps| - 1]), inherited, ps[|ps| - 1])))
  }

  /** The last property compiled under a name. */
  function LastOf(ps: seq<Initializer>, name: string): Option<Initializer> {
    if ps == [] then None
    else if ps[|ps| - 1].name == name then Some(ps[|ps| - 1])
    else LastOf(ps[..|ps| - 1], name)
  }

  function Statements(own: Option<Option<seq<Initializer>>>): seq<Initializer> {
    match own
    case Some(Some(s)) => s
    case _ => []
  }

  lemma {:induction false} WithoutUnique(s: seq<Initializer>, name: string)
    requires Unique(s)
    ensures Unique(Without(s, name))
  {
    if s != [] {
      WithoutUnique(s[1..], name);
      WithoutHas(s[1..], name);
      assert forall i :: 0 <= i < |s| - 1 ==> s[1..][i] == s[i + 1];
      forall x <- Without(s[1..], name) ensures x.name != s[0].name {
        assert x in s[1..];
      }
    }
  }

  /**
   After compiling any sequence of properties of a class without initialization method: one initializer
   per name; the last compiled one for each compiled name; the parent's for every other name.
   */
  lemma {:induction false} ClassInitializers(inherited: seq<Initializer>, ps: seq<Initializer>)
    requires Unique(inherited) && ps != []
    ensures var s := Statements(Compiled(None, inherited, ps));
      && Unique(s)
      && forall i :: i in s <==> if LastOf(ps, i.name).Some? then i == LastOf(ps, i.name).value else i in inherited
    decreases |ps|
  {
    var init, p := ps[..|ps| - 1], ps[|ps| - 1];
    if init == [] {
      WithoutUnique(inherited, p.name);
      WithoutHas(inherited, p.name);
      forall i <- Without(inherited, p.name) ensures i.name != p.name {
      }
    } else {
      ClassInitializers(inherited, init);
      var s := Statements(Compiled(None, inherited, init));
      WithoutUnique(s, p.name);
      WithoutHas(s, p.name);
      if p in s {
        forall i | i in s && i.name == p.name ensures i == p {
        }
      }
    }
  }

  // Running the list

  /** A property of an object: null, or some value. */
  datatype Value = Null | Is(default: Default) | Other(id: int)

  function ValueOf(object': map<string, Value>, name: string): Value {
    if name in object' then object'[name] else Null
  }

  function Run(s: seq<Initializer>, object': map<string, Value>): map<string, Value> {
    if s == [] then object'
    else Run(s[1..], if ValueOf(object', s[0].name) == Null then object'[s[0].name := Is(s[0].default)] else object')
  }

  /** Running a list with unique names: nulls become the default of their initializer, nothing else changes. */
  lemma {:induction false} RunIs(s: seq<Initializer>, object': map<string, Value>, name: string)
    requires Unique(s)
    ensures forall i <- s :: i.name == name && ValueOf(object', name) == Null ==> ValueOf(Run(s, object'), name) == Is(i.default)
    ensures name !in Names(s) || ValueOf(object', name) != Null ==> ValueOf(Run(s, object'), name) == ValueOf(object', name)
  {
    if s != [] {
      var next := if ValueOf(object', s[0].name) == Null then object'[s[0].name := Is(s[0].default)] else object';
      assert forall i, j :: 0 <= i < j < |s[1..]| ==> s[1..][i] == s[i + 1] && s[1..][j] == s[j + 1];
      RunIs(s[1..], next, name);
      assert name in Names(s[1..]) ==> name in Names(s);
      assert s == [s[0]] + s[1..];
      forall i | i in s[1..] ensures i.name != s[0].name {
      }
      assert s[0] in s && s[0].name in Names(s);
    }
  }

  /** The order does not matter, and running the list twice is running it once. */
  lemma OrderAndRepetitionDoNotMatter(s: seq<Initializer>, t: seq<Initializer>, object': map<string, Value>, name: string)
    requires Unique(s) && Unique(t) && forall i :: i in s <==> i in t
    ensures ValueOf(Run(s, object'), name) == ValueOf(Run(t, object'), name)
    ensures ValueOf(Run(s, Run(s, object')), name) == ValueOf(Run(s, object'), name)
  {
    RunIs(s, object', name);
    RunIs(t, object', name);
    RunIs(s, Run(s, object'), name);
    if name in Names(s) {
      var i :| i in s && i.name == name;
      assert i in t;
    } else {
      assert forall i <- t :: i in s;
    }
  }

  /** A new object: its own default wins over the parent's, and the parent's is used for all other names. */
  lemma NewObjectsGetDefaults(inherited: seq<Initializer>, ps: seq<Initializer>, object': map<string, Value>, name: string)
    requires Unique(inherited) && ps != [] && ValueOf(object', name) == Null
    ensures ValueOf(Run(Statements(Compiled(None, inherited, ps)), object'), name) ==
            if LastOf(ps, name).Some? then Is(LastOf(ps, name).value.default) else ValueOf(Run(inherited, object'), name)
  {
    var s := Statements(Compiled(None, inherited, ps));
    ClassInitializers(inherited, ps);
    RunIs(s, object', name);
    RunIs(inherited, object', name);
    if LastOf(ps, name).Some? {
      LastHasName(ps, name);
      assert LastOf(ps, name).value in s;
    } else if name in Names(inherited) {
      var i :| i in inherited && i.name == name;
      assert i in s;
    } else {
      assert name !in Names(s);
    }
  }

  lemma {:induction false} LastHasName(ps: seq<Initializer>, name: string)
    requires LastOf(ps, name).Some?
    ensures LastOf(ps, name).value.name == name
  {
    if ps[|ps| - 1].name != name {
      LastHasName(ps[..|ps| - 1], name);
    }
  }
}
