/**
 * The meaning the database gives to `column ILIKE $k`: a pattern in which
 * `%` matches any run of characters, `_` any single character and a
 * backslash makes the next character literal, compared case-insensitively.
 */
module Like {
  import opened StdStr

  datatype Token = AnyString | AnyChar | Literal(c: char)

  /** Reads a LIKE pattern; a lone backslash at the very end is read as a literal backslash. */
  function ParsePattern(p: string): seq<Token>
    decreases |p|
  {
    if |p| == 0 then []
    else if p[0] == '\\' && |p| >= 2 then [Literal(p[1])] + ParsePattern(p[2..])
    else if p[0] == '%' then [AnyString] + ParsePattern(p[1..])
    else if p[0] == '_' then [AnyChar] + ParsePattern(p[1..])
    else [Literal(p[0])] + ParsePattern(p[1..])
  }

  predicate SameLetter(a: char, b: char) {
    AsciiLowerChar(a) == AsciiLowerChar(b)
  }

  predicate MatchTokens(toks: seq<Token>, s: string)
    decreases |s|, |toks|
  {
    if |toks| == 0 then |s| == 0
    else match toks[0]
      case AnyString => MatchTokens(toks[1..], s) || (|s| > 0 && MatchTokens(toks, s[1..]))
      case AnyChar => |s| > 0 && MatchTokens(toks[1..], s[1..])
      case Literal(c) => |s| > 0 && SameLetter(s[0], c) && MatchTokens(toks[1..], s[1..])
  }

  /** `value ILIKE pattern` */
  predicate ILike(value: string, pattern: string) {
    MatchTokens(ParsePattern(pattern), value)
  }

  function Literals(s: string): (r: seq<Token>)
    ensures |r| == |s|
    ensures forall i :: 0 <= i < |s| ==> r[i] == Literal(s[i])
  {
    if |s| == 0 then [] else [Literal(s[0])] + Literals(s[1..])
  }

  /** `sub` is a case-insensitive prefix of `s`. */
  predicate PrefixCI(sub: string, s: string) {
    |sub| <= |s| && forall i :: 0 <= i < |sub| ==> SameLetter(sub[i], s[i])
  }

  /** `sub` occurs in `s`, letters compared case-insensitively. */
  predicate ContainsCI(s: string, sub: string)
    decreases |s|
  {
    PrefixCI(sub, s) || (|s| > 0 && ContainsCI(s[1..], sub))
  }

  // ---------------------------------------------------------------------
  // Lemmas

  lemma {:induction false} AnyStringMatchesAll(s: string)
    ensures MatchTokens([AnyString], s)
    decreases |s|
  {
    if |s| > 0 {
      AnyStringMatchesAll(s[1..]);
    }
  }

  /** Literals followed by `%` match exactly the strings that start with those letters. */
  lemma {:induction false} LiteralsThenAnyMeansPrefix(sub: string, s: string)
    ensures MatchTokens(Literals(sub) + [AnyString], s) <==> PrefixCI(sub, s)
    decreases |sub|
  {
    var toks := Literals(sub) + [AnyString];
    if |sub| == 0 {
      assert toks == [AnyString];
      AnyStringMatchesAll(s);
    } else {
      assert toks[0] == Literal(sub[0]);
      assert toks[1..] == Literals(sub[1..]) + [AnyString];
      if |s| > 0 {
        LiteralsThenAnyMeansPrefix(sub[1..], s[1..]);
        assert PrefixCI(sub, s) <==> SameLetter(sub[0], s[0]) && PrefixCI(sub[1..], s[1..]) by {
          if SameLetter(sub[0], s[0]) && PrefixCI(sub[1..], s[1..]) {
            forall i | 0 <= i < |sub| ensures SameLetter(sub[i], s[i]) {
              if i > 0 { assert sub[1..][i - 1] == sub[i] && s[1..][i - 1] == s[i]; }
            }
          }
          if PrefixCI(sub, s) {
            forall i | 0 <= i < |sub| - 1 ensures SameLetter(sub[1..][i], s[1..][i]) {
              assert sub[1..][i] == sub[i + 1] && s[1..][i] == s[i + 1];
            }
          }
        }
      }
    }
  }

  /** `%literals%` matches exactly the strings that contain those letters. */
  lemma {:induction false} SurroundedMeansContains(sub: string, s: string)
    ensures MatchTokens([AnyString] + Literals(sub) + [AnyString], s) <==> ContainsCI(s, sub)
    decreases |s|
  {
    var inner := Literals(sub) + [AnyString];
    var toks := [AnyString] + Literals(sub) + [AnyString];
    assert toks == [AnyString] + inner;
    assert toks[1..] == inner;
    LiteralsThenAnyMeansPrefix(sub, s);
    if |s| > 0 {
      SurroundedMeansContains(sub, s[1..]);
    }
  }
}
