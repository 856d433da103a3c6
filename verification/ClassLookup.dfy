/**
 Members of a class, looked up through its ancestors.  A definition is a value that holds its ancestors,
 so that hierarchies are acyclic.
 */
module ClassLookup {
  import opened Wrappers

  /** `native`: a class of PHP itself; methods are keyed by their lower-case names. */
  datatype Definition<V> = Definition(
    native: bool,
    parent: Option<Definition<V>>,
    interfaces: seq<Definition<V>>,
    properties: map<string, V>,
    constants: map<string, V>,
    methods: map<string, V>)

  function LowerChar(c: char): char {
    if 'A' <= c <= 'Z' then (c as int + 32) as char else c
  }

  /** strtolower */
  function Lower(s: string): (r: string)
    ensures |r| == |s|
  {
    if s == [] then [] else [LowerChar(s[0])] + Lower(s[1..])
  }

  // Lookups, as the compiler does them

  predicate HasProperty<V>(c: Definition<V>, name: string) {
    name in c.properties || (c.parent.Some? && HasProperty(c.parent.value, name))
  }

  function GetProperty<V>(c: Definition<V>, name: string): Option<V> {
    if name in c.properties then Some(c.properties[name])
    else if c.parent.Some? && HasProperty(c.parent.value, name) then GetProperty(c.parent.value, name)
    else None
  }

  predicate HasConstant<V>(c: Definition<V>, name: string)
    decreases c
  {
    || name in c.constants
    || (c.parent.Some? && HasConstant(c.parent.value, name))
    || HasConstantFromInterfaces(c.interfaces, name)
  }

  predicate HasConstantFromInterfaces<V>(interfaces: seq<Definition<V>>, name: string)
    decreases interfaces
  {
    interfaces != [] && (HasConstant(interfaces[0], name) || HasConstantFromInterfaces(interfaces[1..], name))
  }

  /** Constant names must not be empty, in the sense of PHP. */
  datatype Constant<V> = Found(value: V) | Missing | InvalidName

  function GetConstant<V>(c: Definition<V>, name: string): Constant<V>
    decreases c
  {
    if name == "" || name == "0" then InvalidName
    else if name in c.constants then Found(c.constants[name])
    else if c.parent.Some? && HasConstant(c.parent.value, name) then GetConstant(c.parent.value, name)
    else GetConstantFromInterfaces(c.interfaces, name)
  }

  function GetConstantFromInterfaces<V>(interfaces: seq<Definition<V>>, name: string): Constant<V>
    decreases interfaces
  {
    if interfaces == [] then Missing
    else if HasConstant(interfaces[0], name) then GetConstant(interfaces[0], name)
    else GetConstantFromInterfaces(interfaces[1..], name)
  }

  /** Method lookup does not continue in classes of PHP itself. */
  predicate HasMethod<V>(c: Definition<V>, name: string) {
    Lower(name) in c.methods || (c.parent.Some? && !c.parent.value.native && HasMethod(c.parent.value, name))
  }

  function GetMethod<V>(c: Definition<V>, name: string, checkExtends: bool): Option<V> {
    if Lower(name) in c.methods then Some(c.methods[Lower(name)])
    else if checkExtends && c.parent.Some? && !c.parent.value.native && HasMethod(c.parent.value, name) then
      GetMethod(c.parent.value, name, true)
    else None
  }

  // One table for all members, built from the ancestors upwards

  function AllProperties<V>(c: Definition<V>): map<string, V> {
    (if c.parent.Some? then AllProperties(c.parent.value) else map[]) + c.properties
  }

  function AllMethods<V>(c: Definition<V>): map<string, V> {
    (if c.parent.Some? && !c.parent.value.native then AllMethods(c.parent.value) else map[]) + c.methods
  }

  /** Own constants, then those of the parent and its interfaces, then those of the own interfaces in order. */
  function AllConstants<V>(c: Definition<V>): map<string, V>
    decreases c
  {
    AllFromInterfaces(c.interfaces) + (if c.parent.Some? then AllConstants(c.parent.value) else map[]) + c.constants
  }

  function AllFromInterfaces<V>(interfaces: seq<Definition<V>>): map<string, V>
    decreases interfaces
  {
    if interfaces == [] then map[] else AllFromInterfaces(interfaces[1..]) + AllConstants(interfaces[0])
  }

  function Entry<V>(table: map<string, V>, name: string): Option<V> {
    if name in table then Some(table[name]) else None
  }

  /** Both property lookups are lookups in the table. */
  lemma {:induction false} PropertiesAreInTable<V>(c: Definition<V>, name: string)
    ensures GetProperty(c, name) == Entry(AllProperties(c), name)
    ensures HasProperty(c, name) <==> GetProperty(c, name).Some?
    decreases c
  {
    if c.parent.Some? {
      PropertiesAreInTable(c.parent.value, name);
    }
  }

  lemma {:induction false} ConstantsAreInTable<V>(c: Definition<V>, name: string)
    requires name != "" && name != "0"
    ensures GetConstant(c, name) == match Entry(AllConstants(c), name) case Some(v) => Found(v) case None => Missing
    ensures HasConstant(c, name) <==> GetConstant(c, name).Found?
    decreases c
  {
    if c.parent.Some? {
      ConstantsAreInTable(c.parent.value, name);
    }
    InterfaceConstantsAreInTable(c.interfaces, name);
  }

  lemma {:induction false} InterfaceConstantsAreInTable<V>(interfaces: seq<Definition<V>>, name: string)
    requires name != "" && name != "0"
    ensures GetConstantFromInterfaces(interfaces, name) ==
            match Entry(AllFromInterfaces(interfaces), name) case Some(v) => Found(v) case None => Missing
    ensures HasConstantFromInterfaces(interfaces, name) <==> GetConstantFromInterfaces(interfaces, name).Found?
    decreases interfaces
  {
    if interfaces != [] {
      ConstantsAreInTable(interfaces[0], name);
      InterfaceConstantsAreInTable(interfaces[1..], name);
    }
  }

  /** Method names are found whatever their case. */
  lemma {:induction false} MethodsAreInTable<V>(c: Definition<V>, name: string, name': string)
    requires Lower(name) == Lower(name')
    ensures GetMethod(c, name, true) == Entry(AllMethods(c), Lower(name)) == GetMethod(c, name', true)
    ensures HasMethod(c, name) <==> GetMethod(c, name, true).Some?
    ensures GetMethod(c, name, false) == Entry(c.methods, Lower(name))
    decreases c
  {
    if c.parent.Some? {
      MethodsAreInTable(c.parent.value, name, name');
    }
  }

  /** The calls only differ where the empty name is rejected: hasConstant accepts it as any other name. */
  lemma InvalidConstantNames<V>(c: Definition<V>, name: string)
    ensures GetConstant(c, name).InvalidName? <==> name == "" || name == "0"
    decreases c
  {
    if name != "" && name != "0" {
      ConstantsAreInTable(c, name);
    }
  }
}
