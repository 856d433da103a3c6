/**
 Strings as the contents of C string literals.
 */
module Slashes {
  import opened Wrappers

  const VTAB := 11 as char

  /** The letter after the backslash, for the characters that must not appear raw. */
  function Letter(c: char): Option<char> {
    if c == '"' then Some('"')
    else if c == '\n' then Some('n')
    else if c == '\t' then Some('t')
    else if c == '\r' then Some('r')
    else if c == VTAB then Some('v')
    else None
  }

  /** What may follow a backslash for the pair to be copied. */
  predicate Recognized(c: char) {
    c == 'n' || c == 'v' || c == 't' || c == 'r' || c == '"' || c == '\\'
  }

  predicate StartsPair(s: string) {
    |s| >= 2 && s[0] == '\\' && Recognized(s[1])
  }

  function Escaped(s: string): string {
    if s == [] then []
    else if StartsPair(s) then s[..2] + Escaped(s[2..])
    else if s[0] == '\\' then "\\\\" + Escaped(s[1..])
    else
      match Letter(s[0])
      case Some(l) => ['\\', l] + Escaped(s[1..])
      case None => [s[0]] + Escaped(s[1..])
  }

  predicate IsPiece(ch: char, after: Option<char>, piece: string, pair: bool) {
    && (pair <==> ch == '\\' && after.Some? && Recognized(after.value))
    && piece == if pair then [ch, after.value]
      else if ch == '\\' then "\\\\"
      else if Letter(ch).Some? then ['\\', Letter(ch).value] else [ch]
  }

  /** The part of the string that one round of the loop handles, and what it appends. */
  lemma OneStep(s: string, i: nat, piece: string, pair: bool)
    requires i < |s| && IsPiece(s[i], if i != |s| - 1 then Some(s[i + 1]) else None, piece, pair)
    ensures i + (if pair then 2 else 1) <= |s|
    ensures Escaped(s[i..]) == piece + Escaped(s[i + (if pair then 2 else 1)..])
  {
    assert s[i..][1..] == s[i + 1..];
    if pair {
      assert s[i..][2..] == s[i + 2..] && s[i..][..2] == piece;
    }
  }

  /** What one round appends, and whether it also handles the next character. */
  method Piece(ch: char, after: Option<char>) returns (piece: string, pair: bool)
    ensures IsPiece(ch, after, piece, pair)
  {
    piece, pair := [ch], false;
    if ch == '"' {
      piece := "\\" + "\"";
    } else if ch == '\n' {
      piece := "\\" + "n";
    } else if ch == '\t' {
      piece := "\\" + "t";
    } else if ch == '\r' {
      piece := "\\" + "r";
    } else if ch == VTAB {
      piece := "\\" + "v";
    } else if ch == '\\' {
      // `continue` in the inner switch only leaves that switch
      if after.Some? && Recognized(after.value) {
        piece, pair := [ch, after.value], true;
      } else {
        piece := "\\\\";
      }
    }
  }

  /** addSlashes */
  method AddSlashes(str: string) returns (newstr: string)
    ensures newstr == Escaped(str)
  {
    newstr := "";
    var length := |str|;
    var i := 0;
    assert str[0..] == str;
    ghost var goal, rest := Escaped(str), Escaped(str);
    while i < length
      invariant 0 <= i <= length && rest == Escaped(str[i..])
      invariant newstr + rest == goal
    {
      var after := if i != length - 1 then Some(str[i + 1]) else None;
      var piece, pair := Piece(str[i], after);
      OneStep(str, i, piece, pair);
      ghost var next := i + if pair then 2 else 1;
      assert newstr + (piece + Escaped(str[next..])) == (newstr + piece) + Escaped(str[next..]);
      newstr, rest := newstr + piece, Escaped(str[next..]);
      if pair {
        i := i + 1;
      }
      i := i + 1;
    }
  }

  // What a C compiler makes of it

  /** Simple escape sequences, section 6.4.4.4 of ISO/IEC 9899:2011. */
  function Simple(c: char): Option<char> {
    if c == '\'' || c == '"' || c == '?' || c == '\\' then Some(c)
    else if c == 'a' then Some(7 as char)
    else if c == 'b' then Some(8 as char)
    else if c == 'f' then Some(12 as char)
    else if c == 'n' then Some('\n')
    else if c == 'r' then Some('\r')
    else if c == 't' then Some('\t')
    else if c == 'v' then Some(VTAB)
    else None
  }

  /** The characters of a literal; None if it is not one, or has octal or hexadecimal sequences. */
  function Decoded(s: string): Option<string> {
    if s == [] then Some([])
    else if s[0] == '"' || s[0] == '\n' then None
    else if s[0] == '\\' then
      if |s| < 2 || Simple(s[1]) == None then None
      else
        match Decoded(s[2..])
        case None => None
        case Some(t) => Some([Simple(s[1]).value] + t)
    else
      match Decoded(s[1..])
      case None => None
      case Some(t) => Some([s[0]] + t)
  }

  /** The six characters that make a pair with a backslash in front of them. */
  predicate Pairs(c: char) {
    c in {'n', 'v', 't', 'r', '"', '\\'}
  }

  /** The input with those pairs decoded and all other backslashes taken literally. */
  function Meant(s: string): string {
    if s == [] then []
    else if |s| >= 2 && s[0] == '\\' && Pairs(s[1]) then [Simple(s[1]).value] + Meant(s[2..])
    else [s[0]] + Meant(s[1..])
  }

  lemma DecodedPair(c: char, rest: string)
    requires Simple(c).Some?
    ensures Decoded(['\\', c] + rest) == match Decoded(rest) case None => None case Some(t) => Some([Simple(c).value] + t)
  {
    assert (['\\', c] + rest)[2..] == rest;
  }

  lemma DecodedPlain(c: char, rest: string)
    requires c != '"' && c != '\n' && c != '\\'
    ensures Decoded([c] + rest) == match Decoded(rest) case None => None case Some(t) => Some([c] + t)
  {
    assert ([c] + rest)[1..] == rest;
  }

  lemma {:induction false} DecodesToMeaning(s: string)
    ensures Decoded(Escaped(s)) == Some(Meant(s))
  {
    if s == [] {
    } else if StartsPair(s) {
      DecodesToMeaning(s[2..]);
      assert s[..2] == ['\\', s[1]];
      DecodedPair(s[1], Escaped(s[2..]));
    } else {
      DecodesToMeaning(s[1..]);
      if s[0] == '\\' {
        assert "\\\\" == ['\\', '\\'];
        DecodedPair('\\', Escaped(s[1..]));
      } else if Letter(s[0]).Some? {
        DecodedPair(Letter(s[0]).value, Escaped(s[1..]));
      } else {
        DecodedPlain(s[0], Escaped(s[1..]));
      }
    }
  }

  /** A pair somewhere in the string. */
  predicate HasPair(s: string) {
    exists i :: 0 <= i < |s| - 1 && s[i] == '\\' && Pairs(s[i + 1])
  }

  lemma {:induction false} MeantLength(s: string)
    ensures |Meant(s)| <= |s|
    ensures |Meant(s)| == |s| <==> !HasPair(s)
    ensures !HasPair(s) ==> Meant(s) == s
  {
    if s == [] {
    } else if StartsPair(s) {
      MeantLength(s[2..]);
      assert s[0] == '\\' && Pairs(s[0 + 1]);
    } else {
      MeantLength(s[1..]);
      if HasPair(s) {
        var i :| 0 <= i < |s| - 1 && s[i] == '\\' && Pairs(s[i + 1]);
        assert s[1..][i - 1] == '\\' && Pairs(s[1..][i - 1 + 1]);
      }
      if HasPair(s[1..]) {
        var i :| 0 <= i < |s[1..]| - 1 && s[1..][i] == '\\' && Pairs(s[1..][i + 1]);
        assert s[i + 1] == '\\' && Pairs(s[i + 1 + 1]);
      }
    }
  }

  /** The literal stands for the string itself exactly when the string has no recognized pair. */
  lemma RoundTrip(s: string)
    ensures Decoded(Escaped(s)) == Some(s) <==> !HasPair(s)
  {
    DecodesToMeaning(s);
    MeantLength(s);
  }

  // The shape of the result

  /** The characters that must not appear outside pairs. */
  predicate Raw(c: char) {
    c in {'"', '\n', '\t', '\r', 11 as char}
  }

  /** Every backslash starts a pair; outside pairs there is no quote and no raw control character. */
  predicate WellEscaped(s: string) {
    s == [] ||
    if s[0] == '\\' then |s| >= 2 && Pairs(s[1]) && WellEscaped(s[2..])
    else !Raw(s[0]) && WellEscaped(s[1..])
  }

  lemma {:induction false} ResultIsWellEscaped(s: string)
    ensures WellEscaped(Escaped(s))
    ensures |s| <= |Escaped(s)| <= 2 * |s|
  {
    var r := Escaped(s);
    if s == [] {
    } else if StartsPair(s) {
      ResultIsWellEscaped(s[2..]);
      assert r[2..] == Escaped(s[2..]);
    } else {
      ResultIsWellEscaped(s[1..]);
      if s[0] == '\\' || Letter(s[0]).Some? {
        assert r[2..] == Escaped(s[1..]);
      } else {
        assert r[1..] == Escaped(s[1..]);
      }
    }
  }

  /** Exactly the well-escaped strings are left alone. */
  lemma {:induction false} WellEscapedIsFixed(s: string)
    ensures WellEscaped(s) <==> Escaped(s) == s
  {
    if s == [] {
    } else if StartsPair(s) {
      WellEscapedIsFixed(s[2..]);
      assert s == s[..2] + s[2..];
      if Escaped(s) == s {
        assert Escaped(s)[2..] == Escaped(s[2..]);
      }
    } else {
      WellEscapedIsFixed(s[1..]);
      assert s == [s[0]] + s[1..];
      if Escaped(s) == s {
        if s[0] != '\\' && Letter(s[0]) == None {
          assert Escaped(s)[1..] == Escaped(s[1..]);
        }
      }
    }
  }

  /** Escaping twice is escaping once. */
  lemma Idempotent(s: string)
    ensures Escaped(Escaped(s)) == Escaped(s)
  {
    ResultIsWellEscaped(s);
    WellEscapedIsFixed(Escaped(s));
  }
}
