/**
 Generated variable names: a name declared in an inner branch is followed by `$$` and the branch id.
 */
module Names {
  import opened Wrappers

  /** Variable::BRANCH_MAGIC */
  const MAGIC := "$$"

  predicate IsDigit(c: char) {
    '0' <= c <= '9'
  }

  function Digit(n: nat): char
    requires n < 10
  {
    ('0' as int + n) as char
  }

  function Decimal(n: nat): (s: string)
    ensures s != [] && forall c <- s :: IsDigit(c)
  {
    if n < 10 then [Digit(n)] else Decimal(n / 10) + [Digit(n % 10)]
  }

  function Value(s: string): nat
    requires forall c <- s :: IsDigit(c)
  {
    if s == [] then 0
    else
      assert IsDigit(s[|s| - 1]);
      Value(s[..|s| - 1]) * 10 + (s[|s| - 1] as int - '0' as int)
  }

  function LeadingDigits(s: string): (d: string)
    ensures forall c <- d :: IsDigit(c)
  {
    if s == [] || !IsDigit(s[0]) then [] else [s[0]] + LeadingDigits(s[1..])
  }

  predicate IsBlank(c: char) {
    c == ' ' || c == '\t' || c == '\n' || c == '\r' || c as int == 11 || c as int == 12
  }

  /** intval: blanks, a sign, and the digits that follow. */
  function Intval(s: string): int {
    if s == [] then 0
    else if IsBlank(s[0]) then Intval(s[1..])
    else if s[0] == '-' then 0 - Value(LeadingDigits(s[1..])) as int
    else if s[0] == '+' then Value(LeadingDigits(s[1..]))
    else Value(LeadingDigits(s))
  }

  /** strpos of the magic. */
  function MagicAt(s: string): (p: Option<nat>)
    ensures p.Some? ==> p.value + 2 <= |s|
  {
    if |s| < 2 then None
    else if s[0] == '$' && s[1] == '$' then Some(0)
    else
      match MagicAt(s[1..])
      case None => None
      case Some(p) => Some(p + 1)
  }

  predicate DollarFree(s: string) {
    '$' !in s
  }

  lemma {:induction false} ValueOfDecimal(n: nat)
    ensures Value(Decimal(n)) == n
  {
    var s := Decimal(n);
    if n < 10 {
      assert s[..|s| - 1] == [];
    } else {
      ValueOfDecimal(n / 10);
      assert s[..|s| - 1] == Decimal(n / 10);
    }
  }

  /** Decimal numerals without leading zeros are the ones that Decimal writes. */
  lemma {:induction false} DecimalOfValue(s: string)
    requires s != [] && (forall c <- s :: IsDigit(c)) && (s[0] != '0' || |s| == 1)
    ensures s == Decimal(Value(s))
    ensures |s| > 1 ==> Value(s) >= 10
  {
    var init, last := s[..|s| - 1], s[|s| - 1];
    assert last in s;
    assert s == init + [last];
    if init != [] {
      assert init[0] == s[0];
      DecimalOfValue(init);
      assert init != ['0'];
    }
  }

  lemma {:induction false} LeadingDigitsOf(s: string, rest: string)
    requires forall c <- s :: IsDigit(c)
    requires rest == [] || !IsDigit(rest[0])
    ensures LeadingDigits(s + rest) == s
  {
    if s == [] {
      assert s + rest == rest;
    } else {
      LeadingDigitsOf(s[1..], rest);
      assert (s + rest)[1..] == s[1..] + rest;
    }
  }

  lemma IntvalOfDecimal(n: nat)
    ensures Intval(Decimal(n)) == n
  {
    var s := Decimal(n);
    assert IsDigit(s[0]);
    LeadingDigitsOf(s, []);
    assert s + [] == s;
    ValueOfDecimal(n);
  }

  lemma {:induction false} MagicAfter(base: string, rest: string)
    requires DollarFree(base)
    ensures MagicAt(base + MAGIC + rest) == Some(|base|)
  {
    var s := base + MAGIC + rest;
    if base == [] {
      assert s == MAGIC + rest;
    } else {
      assert s[0] == base[0] && base[0] != '$';
      assert s[1..] == base[1..] + MAGIC + rest;
      MagicAfter(base[1..], rest);
    }
  }

  lemma {:induction false} NoMagic(base: string)
    requires DollarFree(base)
    ensures MagicAt(base) == None
  {
    if |base| >= 2 {
      NoMagic(base[1..]);
    }
  }

  /** The name of a variable kept in the branch `id`; `plain`: in the external or the root branch. */
  function Generated(name: string, id: nat, plain: bool): string {
    if plain then name else name + MAGIC + Decimal(id)
  }

  /** The branch that a name refers to, if it says so. */
  function NamedBranch(s: string): Option<int> {
    match MagicAt(s)
    case None => None
    case Some(p) => Some(Intval(s[p + 2..]))
  }

  function BaseName(s: string): string {
    match MagicAt(s)
    case None => s
    case Some(p) => s[..p]
  }

  /** A generated name says where its variable is, and what it was called there. */
  lemma GeneratedNamesAreReadBack(name: string, id: nat, plain: bool)
    requires DollarFree(name)
    ensures BaseName(Generated(name, id, plain)) == name
    ensures NamedBranch(Generated(name, id, plain)) == if plain then None else Some(id)
  {
    if plain {
      NoMagic(name);
    } else {
      var s := Generated(name, id, plain);
      MagicAfter(name, Decimal(id));
      IntvalOfDecimal(id);
      assert s[|name| + 2..] == Decimal(id);
      assert s[..|name|] == name;
    }
  }

  /** Different variables get different generated names, unless both names are plain. */
  lemma GeneratedNamesDiffer(name: string, id: nat, plain: bool, name': string, id': nat, plain': bool)
    requires DollarFree(name) && DollarFree(name') && Generated(name, id, plain) == Generated(name', id', plain')
    ensures name == name' && plain == plain' && (!plain ==> id == id')
  {
    GeneratedNamesAreReadBack(name, id, plain);
    GeneratedNamesAreReadBack(name', id', plain');
  }

  /** Temporaries are numbered. */
  function TempName(number: nat): string {
    "_" + Decimal(number)
  }

  function NumberOf(s: string): nat {
    if s == [] then 0 else Value(LeadingDigits(s[1..]))
  }

  lemma TempNamesAreNumbered(number: nat, id: nat, plain: bool)
    ensures DollarFree(TempName(number)) && NumberOf(Generated(TempName(number), id, plain)) == number
  {
    var s := Generated(TempName(number), id, plain);
    var rest := if plain then "" else MAGIC + Decimal(id);
    assert s[1..] == Decimal(number) + rest;
    LeadingDigitsOf(Decimal(number), rest);
    ValueOfDecimal(number);
  }
}
