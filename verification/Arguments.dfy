/**
 The command line option parser.
 */
module Arguments {
  import opened Wrappers
  import opened Names

  /** Array keys: decimal integers are integer keys. */
  datatype Key = IntKey(n: int) | StrKey(s: string)

  datatype Argument = Flag | Text(s: string)

  /** `next` is the index of the next positional argument. */
  datatype Parsed = Parsed(out: map<Key, Argument>, next: int)

  const MAX_INT := 9223372036854775807

  predicate Digits(s: string) {
    forall c <- s :: IsDigit(c)
  }

  /** Digits without leading zeros. */
  predicate Plain(s: string) {
    s != [] && Digits(s) && (s[0] != '0' || |s| == 1)
  }

  /** How PHP stores a string key. */
  function KeyOf(s: string): Key {
    if Plain(s) && Value(s) <= MAX_INT then IntKey(Value(s))
    else if |s| > 1 && s[0] == '-' && Plain(s[1..]) && s[1] != '0' && Value(s[1..]) <= MAX_INT + 1 then IntKey(0 - Value(s[1..]) as int)
    else StrKey(s)
  }

  function Put(p: Parsed, key: string, value: Argument): Parsed {
    var k := KeyOf(key);
    Parsed(p.out[k := value], if k.IntKey? && k.n >= p.next then k.n + 1 else p.next)
  }

  /** $out[] = value */
  function Append(p: Parsed, value: string): Parsed {
    Parsed(p.out[IntKey(p.next) := Text(value)], p.next + 1)
  }

  /** Sets a flag, keeping a value that is there already. */
  function SetFlag(p: Parsed, key: string): Parsed {
    Put(p, key, if KeyOf(key) in p.out then p.out[KeyOf(key)] else Flag)
  }

  /** strpos of '=' */
  function EqualsAt(s: string): (p: Option<nat>)
    ensures p.Some? ==> p.value < |s| && s[p.value] == '='
  {
    if s == [] then None
    else if s[0] == '=' then Some(0)
    else
      match EqualsAt(s[1..])
      case None => None
      case Some(p) => Some(p + 1)
  }

  /** An argument that an option may take as its value; the empty string is one. */
  predicate IsValue(arg: string) {
    arg == [] || arg[0] != '-'
  }

  predicate IsLong(arg: string) {
    |arg| >= 2 && arg[0] == '-' && arg[1] == '-'
  }

  predicate IsShort(arg: string) {
    !IsLong(arg) && |arg| >= 1 && arg[0] == '-'
  }

  /** str_split of the empty string gives one empty key. */
  function Letters(arg: string): seq<string>
    requires |arg| >= 1
  {
    if |arg| == 1 then [""] else seq(|arg| - 1, i requires 0 <= i < |arg| - 1 => [arg[i + 1]])
  }

  function SetEach(p: Parsed, keys: seq<string>): Parsed
    decreases keys
  {
    if keys == [] then p else SetEach(SetFlag(p, keys[0]), keys[1..])
  }

  /** What the arguments add to what was parsed before. */
  function Parse(args: seq<string>, p: Parsed): Parsed {
    if args == [] then p
    else
      var arg, rest := args[0], args[1..];
      if IsLong(arg) then
        match EqualsAt(arg)
        case Some(e) => Parse(rest, Put(p, arg[2..e], Text(arg[e + 1..])))
        case None =>
          if rest != [] && IsValue(rest[0]) then Parse(rest[1..], Put(p, arg[2..], Text(rest[0])))
          else Parse(rest, SetFlag(p, arg[2..]))
      else if IsShort(arg) then
        if |arg| >= 3 && arg[2] == '=' then Parse(rest, Put(p, arg[1..2], Text(arg[3..])))
        else
          var q := SetEach(p, Letters(arg));
          if rest != [] && IsValue(rest[0]) then Parse(rest[1..], Put(q, Letters(arg)[|Letters(arg)| - 1], Text(rest[0])))
          else Parse(rest, q)
      else Parse(rest, Append(p, arg))
  }

  const NOTHING := Parsed(map[], 0)

  /** parseArgs without the name of the program; an empty list stands for the arguments of the process. */
  function ParseArgs(argv: seq<string>, process: seq<string>): Parsed {
    var args := if argv == [] then process else argv;
    Parse(if args == [] then [] else args[1..], NOTHING)
  }

  class CommandArgumentParser {
    var args: map<Key, Argument>

    constructor ()
      ensures args == map[]
    {
      args := map[];
    }

    method ParseArguments(argv: seq<string>, process: seq<string>) returns (out: map<Key, Argument>)
      modifies this
      ensures out == args == ParseArgs(argv, process).out
    {
      var list := if argv == [] then process else argv;
      list := if list == [] then [] else list[1..];
      var p := NOTHING;
      var i := 0;
      ghost var goal := Parse(list, NOTHING);
      assert list[0..] == list;
      while i < |list|
        invariant 0 <= i <= |list| && Parse(list[i..], p) == goal
      {
        var arg := list[i];
        ghost var here, rest := list[i..], list[i + 1..];
        assert here[0] == arg && here[1..] == rest;
        assert rest != [] ==> rest[0] == list[i + 1] && rest[1..] == list[i + 2..];
        if IsLong(arg) {
          var eqPos := EqualsAt(arg);
          if eqPos == None {
            if i + 1 < |list| && IsValue(list[i + 1]) {
              p := Put(p, arg[2..], Text(list[i + 1]));
              i := i + 1;
            } else {
              p := SetFlag(p, arg[2..]);
            }
          } else {
            p := Put(p, arg[2..eqPos.value], Text(arg[eqPos.value + 1..]));
          }
        } else if IsShort(arg) {
          if |arg| >= 3 && arg[2] == '=' {
            p := Put(p, arg[1..2], Text(arg[3..]));
          } else {
            var letters := Letters(arg);
            p := SetAll(p, letters);
            if i + 1 < |list| && IsValue(list[i + 1]) {
              p := Put(p, letters[|letters| - 1], Text(list[i + 1]));
              i := i + 1;
            }
          }
        } else {
          p := Append(p, arg);
        }
        i := i + 1;
      }
      out := p.out;
      args := out;
    }
  }

  method SetAll(p: Parsed, keys: seq<string>) returns (q: Parsed)
    ensures q == SetEach(p, keys)
  {
    q := p;
    var i := 0;
    assert keys[0..] == keys;
    while i < |keys|
      invariant 0 <= i <= |keys| && SetEach(q, keys[i..]) == SetEach(p, keys)
    {
      assert keys[i..][1..] == keys[i + 1..];
      q := SetFlag(q, keys[i]);
      i := i + 1;
    }
  }

  // Round trips

  /** The keys and values of a map, in some order. */
  datatype Setting = Setting(key: string, value: string)

  function WithEquals(options: seq<Setting>): seq<string> {
    if options == [] then [] else ["--" + options[0].key + "=" + options[0].value] + WithEquals(options[1..])
  }

  function Separated(options: seq<Setting>): seq<string> {
    if options == [] then [] else ["--" + options[0].key, options[0].value] + Separated(options[1..])
  }

  function PutAll(p: Parsed, options: seq<Setting>): Parsed
    decreases options
  {
    if options == [] then p else PutAll(Put(p, options[0].key, Text(options[0].value)), options[1..])
  }

  lemma {:induction false} NoEquals(s: string)
    requires '=' !in s
    ensures EqualsAt(s) == None
  {
    if s != [] {
      NoEquals(s[1..]);
    }
  }

  lemma {:induction false} EqualsAfter(s: string, rest: string)
    requires '=' !in s
    ensures EqualsAt(s + "=" + rest) == Some(|s|)
  {
    var t := s + "=" + rest;
    if s == [] {
      assert t[0] == '=';
    } else {
      EqualsAfter(s[1..], rest);
      assert t[1..] == s[1..] + "=" + rest;
    }
  }

  /** Options with `=` give back what they were made of, whatever was parsed before. */
  lemma {:induction false} WithEqualsParses(options: seq<Setting>, p: Parsed)
    requires forall o <- options :: '=' !in o.key
    ensures Parse(WithEquals(options), p) == PutAll(p, options)
    decreases options
  {
    if options != [] {
      var o := options[0];
      var arg := "--" + o.key + "=" + o.value;
      EqualsAfter("--" + o.key, o.value);
      assert arg[2..|o.key| + 2] == o.key && arg[|o.key| + 3..] == o.value;
      assert WithEquals(options)[1..] == WithEquals(options[1..]);
      WithEqualsParses(options[1..], Put(p, o.key, Text(o.value)));
    }
  }

  /** So do options followed by their values, if no value looks like an option. */
  lemma {:induction false} SeparatedParses(options: seq<Setting>, p: Parsed)
    requires forall o <- options :: '=' !in o.key && IsValue(o.value)
    ensures Parse(Separated(options), p) == PutAll(p, options)
    decreases options
  {
    if options != [] {
      var o := options[0];
      var arg := "--" + o.key;
      NoEquals(arg);
      assert arg[2..] == o.key;
      var args := Separated(options);
      assert args[1..] == [o.value] + Separated(options[1..]) && args[1..][1..] == Separated(options[1..]);
      SeparatedParses(options[1..], Put(p, o.key, Text(o.value)));
    }
  }

  /** An integer key can be read back. */
  lemma IntegerKeysReadBack(s: string)
    requires KeyOf(s).IntKey?
    ensures var n := KeyOf(s).n; s == if n >= 0 then Decimal(n) else "-" + Decimal(0 - n)
  {
    if Plain(s) {
      assert s[0] in s;
      DecimalOfValue(s);
    } else {
      DecimalOfValue(s[1..]);
      assert Decimal(0) == "0";
      assert s == "-" + s[1..];
    }
  }

  /** Different strings are different keys. */
  lemma KeysDiffer(s: string, t: string)
    requires KeyOf(s) == KeyOf(t)
    ensures s == t
  {
    if KeyOf(s).IntKey? {
      IntegerKeysReadBack(s);
      IntegerKeysReadBack(t);
    }
  }

  predicate DistinctKeys(options: seq<Setting>) {
    forall i, j :: 0 <= i < j < |options| ==> options[i].key != options[j].key
  }

  /** The parsed map is the map that was written down. */
  lemma {:induction false} PutAllIs(p: Parsed, options: seq<Setting>, k: Key)
    requires DistinctKeys(options)
    ensures k in PutAll(p, options).out <==> k in p.out || exists o <- options :: KeyOf(o.key) == k
    ensures forall o <- options :: KeyOf(o.key) == k ==> PutAll(p, options).out[k] == Text(o.value)
    ensures k in p.out && (forall o <- options :: KeyOf(o.key) != k) ==> PutAll(p, options).out[k] == p.out[k]
    decreases options
  {
    if options != [] {
      var o, rest := options[0], options[1..];
      assert forall i :: 0 <= i < |rest| ==> rest[i] == options[i + 1];
      PutAllIs(Put(p, o.key, Text(o.value)), rest, k);
      assert options == [o] + rest;
      forall q <- rest ensures KeyOf(q.key) != KeyOf(o.key) {
        if KeyOf(q.key) == KeyOf(o.key) {
          KeysDiffer(q.key, o.key);
        }
      }
    }
  }

  /** Both renderings of a map parse to the map. */
  lemma OptionsRoundTrip(options: seq<Setting>, k: Key)
    requires DistinctKeys(options) && forall o <- options :: '=' !in o.key
    ensures var out := Parse(WithEquals(options), NOTHING).out;
      && (k in out <==> exists o <- options :: KeyOf(o.key) == k)
      && (forall o <- options :: KeyOf(o.key) == k ==> out[k] == Text(o.value))
      && ((forall o <- options :: IsValue(o.value)) ==> Parse(Separated(options), NOTHING).out == out)
  {
    WithEqualsParses(options, NOTHING);
    PutAllIs(NOTHING, options, k);
    if forall o <- options :: IsValue(o.value) {
      SeparatedParses(options, NOTHING);
    }
  }

  // Bundles

  /** An option in front of which the parser never looks back. */
  lemma {:induction false} ParseThen(pre: seq<string>, rest: seq<string>, p: Parsed)
    requires rest == [] || !IsValue(rest[0])
    ensures Parse(pre + rest, p) == Parse(rest, Parse(pre, p))
    decreases |pre|
  {
    if pre == [] {
      assert pre + rest == rest;
    } else {
      var arg, more := pre[0], pre[1..];
      assert (pre + rest)[0] == arg && (pre + rest)[1..] == more + rest;
      if more == [] {
        assert more + rest == rest;
      } else {
        assert (more + rest)[0] == more[0] && (more + rest)[1..] == more[1..] + rest;
      }
      if IsLong(arg) && EqualsAt(arg).Some? {
        var e := EqualsAt(arg).value;
        ParseThen(more, rest, Put(p, arg[2..e], Text(arg[e + 1..])));
      } else if IsLong(arg) {
        if more != [] && IsValue(more[0]) {
          ParseThen(more[1..], rest, Put(p, arg[2..], Text(more[0])));
        } else {
          ParseThen(more, rest, SetFlag(p, arg[2..]));
        }
      } else if IsShort(arg) && |arg| >= 3 && arg[2] == '=' {
        ParseThen(more, rest, Put(p, arg[1..2], Text(arg[3..])));
      } else if IsShort(arg) {
        var q := SetEach(p, Letters(arg));
        if more != [] && IsValue(more[0]) {
          ParseThen(more[1..], rest, Put(q, Letters(arg)[|Letters(arg)| - 1], Text(more[0])));
        } else {
          ParseThen(more, rest, q);
        }
      } else {
        ParseThen(more, rest, Append(p, arg));
      }
    }
  }

  /** `-a`, `-b`, ... for the letters of a bundle. */
  function Singles(letters: string): seq<string> {
    if letters == [] then [] else ["-" + letters[..1]] + Singles(letters[1..])
  }

  /** One letter per key. */
  function Split(letters: string): seq<string> {
    if letters == [] then [] else [letters[..1]] + Split(letters[1..])
  }

  lemma {:induction false} SplitAt(letters: string, i: nat)
    requires i < |letters|
    ensures |Split(letters)| == |letters| && Split(letters)[i] == [letters[i]]
  {
    if i > 0 {
      SplitAt(letters[1..], i - 1);
    } else if |letters| > 1 {
      SplitAt(letters[1..], 0);
    } else {
      assert Split(letters[1..]) == [];
    }
  }

  lemma LettersAreSplit(letters: string)
    requires letters != []
    ensures Letters("-" + letters) == Split(letters)
  {
    var a, b := Letters("-" + letters), Split(letters);
    SplitAt(letters, 0);
    assert |a| == |b| == |letters|;
    forall i | 0 <= i < |letters| ensures a[i] == b[i] {
      SplitAt(letters, i);
      LetterAt(letters, i);
    }
  }

  lemma LetterAt(letters: string, i: nat)
    requires i < |letters|
    ensures Letters("-" + letters)[i] == [letters[i]]
  {
    assert ("-" + letters)[i + 1] == letters[i];
  }

  lemma {:induction false} SinglesParse(letters: string, post: seq<string>, p: Parsed)
    requires letters != [] && '-' !in letters
    ensures Parse(Singles(letters) + post, p) ==
            var q := SetEach(p, Split(letters));
            if post != [] && IsValue(post[0]) then Parse(post[1..], Put(q, letters[|letters| - 1..], Text(post[0])))
            else Parse(post, q)
    decreases letters
  {
    var args := Singles(letters) + post;
    var q := SetFlag(p, letters[..1]);
    assert args[0] == "-" + letters[..1] && args[1..] == Singles(letters[1..]) + post;
    OneLetter(letters[..1], args, p);
    assert Split(letters)[1..] == Split(letters[1..]);
    if |letters| == 1 {
      assert Singles(letters[1..]) + post == post && letters[0..] == letters[..1];
      assert SetEach(p, Split(letters)) == q;
    } else {
      assert args[1] == "-" + letters[1..][..1] && !IsValue(args[1]);
      SinglesParse(letters[1..], post, q);
      assert letters[1..][|letters| - 2..] == letters[|letters| - 1..];
    }
  }

  /** A single letter sets one flag, and may take a value. */
  lemma OneLetter(letter: string, args: seq<string>, p: Parsed)
    requires |letter| == 1 && letter[0] != '-' && args != [] && args[0] == "-" + letter
    ensures var q, rest := SetFlag(p, letter), args[1..];
      Parse(args, p) == if rest != [] && IsValue(rest[0]) then Parse(rest[1..], Put(q, letter, Text(rest[0]))) else Parse(rest, q)
  {
    LettersAreSplit(letter);
    assert letter[1..] == [] && letter[..1] == letter && Split(letter) == [letter];
    assert args[0][1] == letter[0] && [letter][1..] == [];
    assert Letters(args[0]) == [letter];
    assert SetEach(p, [letter]) == SetEach(SetFlag(p, letter), []) == SetFlag(p, letter);
  }

  /**
   A bundle of letters means the same as its letters one by one, anywhere among the arguments, unless it
   has a dash, or reads as an assignment.
   */
  lemma BundlesSplit(pre: seq<string>, letters: string, post: seq<string>, p: Parsed)
    requires letters != [] && '-' !in letters && (|letters| > 1 ==> letters[1] != '=')
    ensures Parse(pre + ["-" + letters] + post, p) == Parse(pre + Singles(letters) + post, p)
  {
    var arg := "-" + letters;
    var bundled, split := [arg] + post, Singles(letters) + post;
    assert pre + [arg] + post == pre + bundled && pre + Singles(letters) + post == pre + split;
    var q := Parse(pre, p);
    ParseThen(pre, bundled, p);
    ParseThen(pre, split, p);
    SinglesParse(letters, post, q);
    LettersAreSplit(letters);
    assert arg[1] == letters[0] && letters[0] in letters && bundled[1..] == post;
    SplitAt(letters, |letters| - 1);
    assert letters[|letters| - 1..] == [letters[|letters| - 1]];
  }

  // Positional arguments

  /** How many arguments the first one takes up. */
  function Taken(args: seq<string>): (n: nat)
    requires args != []
    ensures 1 <= n <= |args|
  {
    var arg := args[0];
    var mayTake := (IsLong(arg) && EqualsAt(arg) == None) || (IsShort(arg) && !(|arg| >= 3 && arg[2] == '='));
    if mayTake && |args| > 1 && IsValue(args[1]) then 2 else 1
  }

  /** The keys that an option sets. */
  function OptionKeys(arg: string): seq<string> {
    if IsLong(arg) then
      match EqualsAt(arg)
      case Some(e) => [arg[2..e]]
      case None => [arg[2..]]
    else if IsShort(arg) then
      if |arg| >= 3 && arg[2] == '=' then [arg[1..2]] else Letters(arg)
    else []
  }

  function Positionals(args: seq<string>): seq<string> {
    if args == [] then []
    else (if IsLong(args[0]) || IsShort(args[0]) then [] else [args[0]]) + Positionals(args[Taken(args)..])
  }

  /** No option has a number for a key. */
  predicate NamedOptions(args: seq<string>) {
    args == [] || ((forall k <- OptionKeys(args[0]) :: KeyOf(k).StrKey?) && NamedOptions(args[Taken(args)..]))
  }

  ghost predicate SameNumbers(p: Parsed, q: Parsed) {
    q.next == p.next && forall n :: (IntKey(n) in q.out <==> IntKey(n) in p.out) && (IntKey(n) in p.out ==> q.out[IntKey(n)] == p.out[IntKey(n)])
  }

  lemma {:induction false} SetEachKeepsNumbers(p: Parsed, keys: seq<string>)
    requires forall k <- keys :: KeyOf(k).StrKey?
    ensures SameNumbers(p, SetEach(p, keys))
    decreases keys
  {
    if keys != [] {
      SetEachKeepsNumbers(SetFlag(p, keys[0]), keys[1..]);
    }
  }

  /** One option, with its value if it takes one. */
  lemma OptionKeepsNumbers(args: seq<string>, p: Parsed) returns (q: Parsed)
    requires args != [] && (IsLong(args[0]) || IsShort(args[0])) && forall k <- OptionKeys(args[0]) :: KeyOf(k).StrKey?
    ensures Parse(args, p) == Parse(args[Taken(args)..], q) && SameNumbers(p, q)
  {
    var arg, rest := args[0], args[1..];
    if |args| > 1 {
      assert rest[1..] == args[2..];
    }
    var last := OptionKeys(arg)[|OptionKeys(arg)| - 1];
    assert last in OptionKeys(arg);
    if IsLong(arg) {
      match EqualsAt(arg)
      case Some(e) => q := Put(p, arg[2..e], Text(arg[e + 1..]));
      case None => q := if rest != [] && IsValue(rest[0]) then Put(p, arg[2..], Text(rest[0])) else SetFlag(p, arg[2..]);
    } else if |arg| >= 3 && arg[2] == '=' {
      q := Put(p, arg[1..2], Text(arg[3..]));
    } else {
      SetEachKeepsNumbers(p, Letters(arg));
      q := SetEach(p, Letters(arg));
      q := if rest != [] && IsValue(rest[0]) then Put(q, last, Text(rest[0])) else q;
    }
  }

  /** After p, the positional arguments got the next numbers, in order; smaller numbers are as before. */
  ghost predicate Numbered(p: Parsed, positionals: seq<string>, r: Parsed) {
    && r.next == p.next + |positionals|
    && (forall i :: 0 <= i < |positionals| ==> Entry(r, p.next + i) == Some(Text(positionals[i])))
    && (forall n :: n < p.next ==> Entry(r, n) == Entry(p, n))
  }

  lemma NumberedAfterOption(p: Parsed, q: Parsed, positionals: seq<string>, r: Parsed)
    requires SameNumbers(p, q) && Numbered(q, positionals, r)
    ensures Numbered(p, positionals, r)
  {
    assert forall n :: Entry(q, n) == Entry(p, n);
  }

  lemma NumberedAfterPositional(p: Parsed, arg: string, positionals: seq<string>, r: Parsed)
    requires Numbered(Append(p, arg), positionals, r)
    ensures Numbered(p, [arg] + positionals, r)
  {
    var q := Append(p, arg);
    assert Entry(q, p.next) == Some(Text(arg));
    forall i | 0 <= i < |[arg] + positionals| ensures Entry(r, p.next + i) == Some(Text(([arg] + positionals)[i])) {
      if i > 0 {
        assert Entry(r, q.next + (i - 1)) == Some(Text(positionals[i - 1]));
      }
    }
    assert forall n :: n < p.next ==> Entry(q, n) == Entry(p, n);
  }

  /** Positional arguments are numbered in order, if no option has a number for a key. */
  lemma {:induction false} PositionalsInOrder(args: seq<string>, p: Parsed)
    requires NamedOptions(args)
    ensures Numbered(p, Positionals(args), Parse(args, p))
    decreases |args|
  {
    if args != [] {
      if IsLong(args[0]) || IsShort(args[0]) {
        var q := OptionKeepsNumbers(args, p);
        PositionalsInOrder(args[Taken(args)..], q);
        NumberedAfterOption(p, q, Positionals(args), Parse(args, p));
      } else {
        PositionalsInOrder(args[1..], Append(p, args[0]));
        NumberedAfterPositional(p, args[0], Positionals(args[1..]), Parse(args, p));
      }
    }
  }

  function Entry(p: Parsed, n: int): Option<Argument> {
    if IntKey(n) in p.out then Some(p.out[IntKey(n)]) else None
  }
}
