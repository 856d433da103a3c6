/**
 Command lines as lists of tokens: what each form of an option means, written down token by token, and the
 proof that the parser reads every command line that way.
 */
module ArgumentTokens {
  import opened Wrappers
  import opened Names
  import opened Arguments

  datatype Token =
    | LongValue(key: string, value: string)        // --key=value
    | LongNext(key: string, value: string)         // --key value
    | LongFlag(key: string)                        // --key
    | ShortValue(letter: char, value: string)      // -k=value
    | Bundle(letters: string)                      // -abc
    | BundleNext(letters: string, value: string)   // -abc value
    | Positional(value: string)

  function Render(t: Token): (args: seq<string>)
    ensures args != []
  {
    match t
    case LongValue(key, value) => ["--" + key + "=" + value]
    case LongNext(key, value) => ["--" + key, value]
    case LongFlag(key) => ["--" + key]
    case ShortValue(letter, value) => ["-" + [letter] + "=" + value]
    case Bundle(letters) => ["-" + letters]
    case BundleNext(letters, value) => ["-" + letters, value]
    case Positional(value) => [value]
  }

  function RenderAll(ts: seq<Token>): seq<string> {
    if ts == [] then [] else Render(ts[0]) + RenderAll(ts[1..])
  }

  // What tokens mean

  /** `$out[$key] = $value`: an integer key moves the next index behind it. */
  function Assigned(p: Parsed, key: string, value: Argument): Parsed {
    match KeyOf(key)
    case StrKey(s) => Parsed(p.out[StrKey(s) := value], p.next)
    case IntKey(n) => Parsed(p.out[IntKey(n) := value], if n < p.next then p.next else n + 1)
  }

  /** A flag is true, unless the key has a value already. */
  function Flagged(p: Parsed, key: string): Parsed {
    if KeyOf(key) in p.out then Assigned(p, key, p.out[KeyOf(key)]) else Assigned(p, key, Flag)
  }

  /** One flag per letter; a single dash is a flag without a name. */
  function EachFlagged(p: Parsed, letters: string): Parsed
    decreases letters
  {
    if letters == "" then p else EachFlagged(Flagged(p, [letters[0]]), letters[1..])
  }

  function BundleFlagged(p: Parsed, letters: string): Parsed {
    if letters == "" then Flagged(p, "") else EachFlagged(p, letters)
  }

  function LastKey(letters: string): string {
    if letters == "" then "" else [letters[|letters| - 1]]
  }

  function Means(t: Token, p: Parsed): Parsed {
    match t
    case LongValue(key, value) => Assigned(p, key, Text(value))
    case LongNext(key, value) => Assigned(p, key, Text(value))
    case LongFlag(key) => Flagged(p, key)
    case ShortValue(letter, value) => Assigned(p, [letter], Text(value))
    case Bundle(letters) => BundleFlagged(p, letters)
    case BundleNext(letters, value) => Assigned(BundleFlagged(p, letters), LastKey(letters), Text(value))
    case Positional(value) => Parsed(p.out[IntKey(p.next) := Text(value)], p.next + 1)
  }

  function MeansAll(ts: seq<Token>, p: Parsed): Parsed
    decreases ts
  {
    if ts == [] then p else MeansAll(ts[1..], Means(ts[0], p))
  }

  // Which tokens can be told apart

  predicate Dashed(arg: string) {
    arg != "" && arg[0] == '-'
  }

  predicate IsBundle(letters: string) {
    (letters != "" ==> letters[0] != '-') && (|letters| > 1 ==> letters[1] != '=')
  }

  predicate Clear(t: Token) {
    match t
    case LongValue(key, _) => '=' !in key
    case LongNext(key, value) => '=' !in key && !Dashed(value)
    case LongFlag(key) => '=' !in key
    case ShortValue(letter, _) => letter != '-'
    case Bundle(letters) => IsBundle(letters)
    case BundleNext(letters, value) => IsBundle(letters) && !Dashed(value)
    case Positional(value) => !Dashed(value)
  }

  /** A flag may not be followed by what it would take as its value. */
  predicate ClearAll(ts: seq<Token>) {
    ts == [] ||
    (&& Clear(ts[0]) && ClearAll(ts[1..])
     && (ts[0].LongFlag? || ts[0].Bundle? ==> ts[1..] == [] || Dashed(Render(ts[1])[0])))
  }

  // The parser reads tokens

  lemma AssignedIsPut(p: Parsed, key: string, value: Argument)
    ensures Put(p, key, value) == Assigned(p, key, value) && SetFlag(p, key) == Flagged(p, key)
  {
  }

  lemma {:induction false} FlagsAreSet(p: Parsed, letters: string)
    ensures SetEach(p, Split(letters)) == EachFlagged(p, letters)
    decreases letters
  {
    if letters != "" {
      assert letters[..1] == [letters[0]] && Split(letters)[1..] == Split(letters[1..]);
      AssignedIsPut(p, letters[..1], Flag);
      FlagsAreSet(Flagged(p, letters[..1]), letters[1..]);
    }
  }

  lemma BundleIsSet(p: Parsed, letters: string)
    ensures SetEach(p, Letters("-" + letters)) == BundleFlagged(p, letters)
    ensures Letters("-" + letters)[|Letters("-" + letters)| - 1] == LastKey(letters)
  {
    if letters == "" {
      assert Letters("-") == [""] && [""][1..] == [];
      assert SetEach(p, [""]) == SetEach(SetFlag(p, ""), []) == SetFlag(p, "");
      AssignedIsPut(p, "", Flag);
    } else {
      LettersAreSplit(letters);
      FlagsAreSet(p, letters);
      SplitAt(letters, |letters| - 1);
    }
  }

  /** One token in front of others. */
  lemma ReadsToken(t: Token, rest: seq<string>, p: Parsed)
    requires Clear(t) && (t.LongFlag? || t.Bundle? ==> rest == [] || Dashed(rest[0]))
    ensures Parse(Render(t) + rest, p) == Parse(rest, Means(t, p))
  {
    var args := Render(t) + rest;
    match t
    case LongValue(key, value) =>
      EqualsAfter("--" + key, value);
      assert args[0][2..|key| + 2] == key && args[0][|key| + 3..] == value && args[1..] == rest;
      AssignedIsPut(p, key, Text(value));
    case LongNext(key, value) => ReadsLongNext(key, value, rest, p);
    case LongFlag(key) =>
      NoEquals("--" + key);
      assert args[0][2..] == key && args[1..] == rest;
      AssignedIsPut(p, key, Flag);
    case ShortValue(letter, value) =>
      assert args[0][1..2] == [letter] && args[0][3..] == value && args[1..] == rest;
      AssignedIsPut(p, [letter], Text(value));
    case Bundle(letters) => ReadsBundle(letters, rest, p);
    case BundleNext(letters, value) => ReadsBundleNext(letters, value, rest, p);
    case Positional(value) => assert args[1..] == rest;
  }

  lemma ReadsLongNext(key: string, value: string, rest: seq<string>, p: Parsed)
    requires '=' !in key && !Dashed(value)
    ensures Parse(["--" + key, value] + rest, p) == Parse(rest, Assigned(p, key, Text(value)))
  {
    var args := ["--" + key, value] + rest;
    NoEquals("--" + key);
    assert args[0][2..] == key && args[1..] == [value] + rest && args[1..][1..] == rest;
    AssignedIsPut(p, key, Text(value));
  }

  lemma BundleIsShort(letters: string)
    requires IsBundle(letters)
    ensures var arg := "-" + letters; !IsLong(arg) && IsShort(arg) && !(|arg| >= 3 && arg[2] == '=')
  {
  }

  lemma ReadsBundle(letters: string, rest: seq<string>, p: Parsed)
    requires IsBundle(letters) && (rest == [] || Dashed(rest[0]))
    ensures Parse(["-" + letters] + rest, p) == Parse(rest, BundleFlagged(p, letters))
  {
    BundleIsShort(letters);
    BundleIsSet(p, letters);
    assert (["-" + letters] + rest)[1..] == rest;
  }

  lemma ReadsBundleNext(letters: string, value: string, rest: seq<string>, p: Parsed)
    requires IsBundle(letters) && !Dashed(value)
    ensures Parse(["-" + letters, value] + rest, p) ==
            Parse(rest, Assigned(BundleFlagged(p, letters), LastKey(letters), Text(value)))
  {
    var args := ["-" + letters, value] + rest;
    BundleIsShort(letters);
    BundleIsSet(p, letters);
    assert args[1..] == [value] + rest && args[1..][1..] == rest;
    AssignedIsPut(BundleFlagged(p, letters), LastKey(letters), Text(value));
  }

  /** The parser gives tokens their meaning, one after the other. */
  lemma {:induction false} ReadsTokens(ts: seq<Token>, p: Parsed)
    requires ClearAll(ts)
    ensures Parse(RenderAll(ts), p) == MeansAll(ts, p)
    decreases ts
  {
    if ts != [] {
      assert ts[1..] != [] ==> RenderAll(ts[1..])[0] == Render(ts[1])[0];
      ReadsToken(ts[0], RenderAll(ts[1..]), p);
      ReadsTokens(ts[1..], Means(ts[0], p));
    }
  }

  // Every command line is made of tokens

  lemma FirstToken(args: seq<string>) returns (t: Token)
    requires args != []
    ensures Clear(t) && Render(t) <= args
    ensures t.LongFlag? || t.Bundle? ==> |args| == 1 || Dashed(args[1])
  {
    var arg := args[0];
    var takes := |args| > 1 && !Dashed(args[1]);
    if |arg| >= 2 && arg[..2] == "--" {
      if '=' in arg {
        var e := FirstEquals(arg);
        t := LongValue(arg[2..e], arg[e + 1..]);
        assert arg == "--" + arg[2..e] + "=" + arg[e + 1..];
      } else {
        t := if takes then LongNext(arg[2..], args[1]) else LongFlag(arg[2..]);
        assert arg == "--" + arg[2..];
      }
    } else if Dashed(arg) {
      if |arg| >= 3 && arg[2] == '=' {
        t := ShortValue(arg[1], arg[3..]);
        assert arg == "-" + [arg[1]] + "=" + arg[3..];
      } else {
        t := if takes then BundleNext(arg[1..], args[1]) else Bundle(arg[1..]);
        assert arg == "-" + arg[1..];
      }
    } else {
      t := Positional(arg);
    }
  }

  lemma FirstEquals(arg: string) returns (e: nat)
    requires |arg| >= 2 && arg[..2] == "--" && '=' in arg
    ensures 2 <= e < |arg| && arg[e] == '=' && '=' !in arg[2..e]
  {
    assert arg[0] == '-' && arg[1] == '-';
    e := 2;
    while arg[e] != '='
      invariant 2 <= e < |arg| && '=' !in arg[2..e] && '=' in arg[e..]
      decreases |arg| - e
    {
      assert arg[e..] == [arg[e]] + arg[e + 1..] && arg[2..e + 1] == arg[2..e] + [arg[e]];
      e := e + 1;
    }
  }

  /** So the tokens describe the parser completely. */
  lemma {:induction false} EveryLineIsTokens(args: seq<string>) returns (ts: seq<Token>)
    ensures ClearAll(ts) && RenderAll(ts) == args
    decreases |args|
  {
    if args == [] {
      ts := [];
    } else {
      var t := FirstToken(args);
      var n := |Render(t)|;
      var rest := EveryLineIsTokens(args[n..]);
      ts := [t] + rest;
      assert ts[1..] == rest && Render(t) + args[n..] == args;
      if t.LongFlag? || t.Bundle? {
        assert n == 1 && rest != [] ==> Render(rest[0])[0] == args[1];
      }
    }
  }

  // Integer keys

  function Signed(n: int): string {
    if n >= 0 then Decimal(n) else "-" + Decimal(0 - n)
  }

  /** The strings that are stored as integer keys: decimal numbers of 64 bits, without leading zeros or plus. */
  lemma IntegerKeysAre(s: string)
    ensures KeyOf(s).IntKey? <==> exists n: int :: -0x8000_0000_0000_0000 <= n < 0x8000_0000_0000_0000 && s == Signed(n)
    ensures KeyOf(s).IntKey? ==> s == Signed(KeyOf(s).n)
    ensures KeyOf(s).StrKey? ==> KeyOf(s).s == s
  {
    if KeyOf(s).IntKey? {
      IntegerKeysReadBack(s);
      assert s == Signed(KeyOf(s).n);
    }
    forall n: int | -0x8000_0000_0000_0000 <= n < 0x8000_0000_0000_0000 && s == Signed(n)
      ensures KeyOf(s).IntKey?
    {
      DecimalIsPlain(if n >= 0 then n else 0 - n);
      if n < 0 {
        assert s[1..] == Decimal(0 - n);
        assert !IsDigit('-') && s[0] == '-';
        assert !Plain(s);
      }
    }
  }

  lemma {:induction false} DecimalIsPlain(n: nat)
    ensures Plain(Decimal(n)) && Value(Decimal(n)) == n
    ensures n > 0 ==> Decimal(n)[0] != '0'
  {
    ValueOfDecimal(n);
    if n >= 10 {
      DecimalIsPlain(n / 10);
    }
  }
}
