/**
 * The `string_utils` submodule of src/utils.rs: the ILIKE search pattern,
 * truncation and log sanitisation.
 */
module StringUtils {
  import opened Wrappers
  import opened StdStr
  import Like

  // ---------------------------------------------------------------------
  // to_search_pattern

  /** `to_search_pattern`: `*` becomes `%`; otherwise escape `%` then `_`, and wrap in `%`. */
  function ToSearchPattern(input: string): string {
    if input == "*" then "%"
    else "%" + Replace(Replace(input, "%", "\\%"), "_", "\\_") + "%"
  }

  /** Escaping character by character: what the two chained `replace` calls amount to. */
  function EscapeWildcards(s: string): string
    decreases |s|
  {
    if |s| == 0 then []
    else (if s[0] == '%' then "\\%" else if s[0] == '_' then "\\_" else [s[0]])
         + EscapeWildcards(s[1..])
  }

  lemma {:induction false} TwoReplacesEscapeEachChar(s: string)
    ensures Replace(Replace(s, "%", "\\%"), "_", "\\_") == EscapeWildcards(s)
    decreases |s|
  {
    if |s| > 0 {
      TwoReplacesEscapeEachChar(s[1..]);
      if s[0] == '%' {
        PercentHead(s);
      } else if s[0] == '_' {
        UnderscoreHead(s);
      } else {
        PlainHead(s);
      }
    }
  }

  /** A leading `%` is escaped by the first `replace` and left alone by the second. */
  lemma PercentHead(s: string)
    requires |s| > 0 && s[0] == '%'
    ensures Replace(Replace(s, "%", "\\%"), "_", "\\_") == "\\%" + Replace(Replace(s[1..], "%", "\\%"), "_", "\\_")
  {
    var tail := Replace(s[1..], "%", "\\%");
    assert IsPrefix("%", s);
    var mid := ['%'] + tail;
    var once := ['\\'] + mid;
    assert once == "\\%" + tail;
    assert Replace(s, "%", "\\%") == once;
    assert !IsPrefix("_", once) && once[1..] == mid;
    assert !IsPrefix("_", mid) && mid[1..] == tail;
    var rest := Replace(tail, "_", "\\_");
    assert Replace(mid, "_", "\\_") == ['%'] + rest;
    assert Replace(once, "_", "\\_") == ['\\'] + (['%'] + rest);
    assert ['\\'] + (['%'] + rest) == "\\%" + rest;
  }

  /** A leading `_` passes the first `replace` and is escaped by the second. */
  lemma UnderscoreHead(s: string)
    requires |s| > 0 && s[0] == '_'
    ensures Replace(Replace(s, "%", "\\%"), "_", "\\_") == "\\_" + Replace(Replace(s[1..], "%", "\\%"), "_", "\\_")
  {
    var tail := Replace(s[1..], "%", "\\%");
    assert !IsPrefix("%", s);
    var once := [s[0]] + tail;
    assert Replace(s, "%", "\\%") == once;
    assert IsPrefix("_", once) && once[1..] == tail;
  }

  /** Any other leading character passes both. */
  lemma PlainHead(s: string)
    requires |s| > 0 && s[0] != '%' && s[0] != '_'
    ensures Replace(Replace(s, "%", "\\%"), "_", "\\_") == [s[0]] + Replace(Replace(s[1..], "%", "\\%"), "_", "\\_")
  {
    var tail := Replace(s[1..], "%", "\\%");
    assert !IsPrefix("%", s);
    var once := [s[0]] + tail;
    assert Replace(s, "%", "\\%") == once;
    assert !IsPrefix("_", once) && once[1..] == tail;
  }

  lemma {:induction false} EscapedParsesToLiterals(s: string)
    requires '\\' !in s
    ensures Like.ParsePattern(EscapeWildcards(s) + "%") == Like.Literals(s) + [Like.AnyString]
    decreases |s|
  {
    if |s| == 0 {
      assert EscapeWildcards(s) + "%" == "%";
    } else {
      var rest := EscapeWildcards(s[1..]) + "%";
      EscapedParsesToLiterals(s[1..]);
      assert Like.Literals(s) == [Like.Literal(s[0])] + Like.Literals(s[1..]);
      if s[0] == '%' || s[0] == '_' {
        var p := [('\\' as char), s[0]] + rest;
        assert EscapeWildcards(s) + "%" == p;
        assert p[2..] == rest;
      } else {
        var p := [s[0]] + rest;
        assert EscapeWildcards(s) + "%" == p;
        assert p[1..] == rest;
      }
    }
  }

  /**
   * For a search value with no backslash (every value `is_safe_string`
   * accepts), `column ILIKE to_search_pattern(v)` holds exactly when `v`
   * occurs in the column, case-insensitively, with `%` and `_` in `v` taken
   * literally.
   */
  lemma SearchPatternMeansSubstring(input: string, value: string)
    requires input != "*" && '\\' !in input
    ensures Like.ILike(value, ToSearchPattern(input)) <==> Like.ContainsCI(value, input)
  {
    TwoReplacesEscapeEachChar(input);
    var body := EscapeWildcards(input) + "%";
    assert ToSearchPattern(input) == "%" + body;
    assert ("%" + body)[1..] == body;
    EscapedParsesToLiterals(input);
    assert Like.ParsePattern(ToSearchPattern(input))
      == [Like.AnyString] + Like.Literals(input) + [Like.AnyString];
    Like.SurroundedMeansContains(input, value);
  }

  /** The `*` pattern matches every value. */
  lemma StarPatternMatchesEverything(value: string)
    ensures Like.ILike(value, ToSearchPattern("*"))
  {
    assert Like.ParsePattern("%") == [Like.AnyString];
    Like.AnyStringMatchesAll(value);
  }

  lemma {:induction false} EscapeLength(s: string)
    ensures |EscapeWildcards(s)| == |s| + Count(s, '%') + Count(s, '_')
    decreases |s|
  {
    if |s| > 0 {
      EscapeLength(s[1..]);
    }
  }

  /** Each `%` and `_` gains one escape character, and the two wrapping `%` are added. */
  lemma SearchPatternLength(input: string)
    requires input != "*"
    ensures |ToSearchPattern(input)| == |input| + Count(input, '%') + Count(input, '_') + 2
  {
    TwoReplacesEscapeEachChar(input);
    EscapeLength(input);
  }

  // ---------------------------------------------------------------------
  // truncate

  /** A byte of the UTF-8 encoding Rust keeps a `&str` in. */
  newtype byte = x: int | 0 <= x < 256

  const Ellipsis: seq<byte> := [46, 46, 46]

  /** `saturating_sub`: the least natural number that, added to `b`, reaches `a`. */
  function SaturatingSub(a: nat, b: nat): (r: nat)
    ensures a <= b + r
    ensures r == 0 || b + r == a
  {
    if a >= b then a - b else 0
  }

  /** `str::is_char_boundary`: index `i` does not fall on a UTF-8 continuation byte. */
  predicate IsCharBoundary(s: seq<byte>, i: nat) {
    i == 0 || i == |s| || (i < |s| && (s[i] < 0x80 || s[i] >= 0xC0))
  }

  /**
   * `truncate`, on the UTF-8 bytes of the input: `len()` and the slice
   * `[..k]` count bytes, and the slice panics (here `None`) when `k` falls
   * inside a multi-byte character.
   */
  function Truncate(input: seq<byte>, maxLen: nat): (r: Option<seq<byte>>)
    ensures |input| <= maxLen ==> r == Some(input)
    ensures r.Some? && |input| > maxLen ==>
      |r.value| >= 3 && r.value[..|r.value| - 3] <= input && r.value[|r.value| - 3..] == Ellipsis
    ensures r.Some? ==> |r.value| <= maxLen || |r.value| == 3
    ensures |input| > maxLen ==> (r.Some? <==> IsCharBoundary(input, SaturatingSub(maxLen, 3)))
    ensures r.Some? && |input| > maxLen ==> |r.value| == SaturatingSub(maxLen, 3) + 3
  {
    if |input| <= maxLen then Some(input)
    else
      var k := SaturatingSub(maxLen, 3);
      if IsCharBoundary(input, k) then Some(input[..k] + Ellipsis) else None
  }

  /** The largest character boundary at or below `k`. */
  function FloorCharBoundary(s: seq<byte>, k: nat): (r: nat)
    requires k <= |s|
    ensures r <= k && IsCharBoundary(s, r)
    ensures forall j :: r < j <= k ==> !IsCharBoundary(s, j)
    decreases k
  {
    if IsCharBoundary(s, k) then k else FloorCharBoundary(s, k - 1)
  }

  /** Truncation that cuts at the last character boundary that fits, and never panics. */
  function TruncateAtCharBoundary(input: seq<byte>, maxLen: nat): (r: seq<byte>)
    ensures |input| <= maxLen ==> r == input
    ensures |input| > maxLen ==>
      exists k :: 0 <= k <= SaturatingSub(maxLen, 3) && IsCharBoundary(input, k)
        && (forall j :: k < j <= SaturatingSub(maxLen, 3) ==> !IsCharBoundary(input, j))
        && r == input[..k] + Ellipsis
  {
    if |input| <= maxLen then input
    else
      var k := FloorCharBoundary(input, SaturatingSub(maxLen, 3));
      input[..k] + Ellipsis
  }

  /** Whenever `truncate` does not panic, the boundary-respecting version returns the same bytes. */
  lemma TruncateAtCharBoundaryAgrees(input: seq<byte>, maxLen: nat)
    requires Truncate(input, maxLen).Some?
    ensures Truncate(input, maxLen) == Some(TruncateAtCharBoundary(input, maxLen))
  {
  }

  /** ASCII input never panics, and a long input keeps `max_len - 3` bytes (saturating) plus `...`. */
  lemma TruncateAscii(input: seq<byte>, maxLen: nat)
    requires forall i :: 0 <= i < |input| ==> input[i] < 0x80
    ensures Truncate(input, maxLen).Some?
    ensures |input| > maxLen ==> |Truncate(input, maxLen).value| == SaturatingSub(maxLen, 3) + 3
    ensures maxLen >= 3 ==> |Truncate(input, maxLen).value| <= maxLen
  {
  }

  /** Found: `truncate` panics on "ééé" with `max_len` 4, since byte 1 is inside the first `é`. */
  lemma TruncatePanicsInsideCharacter()
    ensures Truncate([0xC3, 0xA9, 0xC3, 0xA9, 0xC3, 0xA9], 4).None?
    ensures TruncateAtCharBoundary([0xC3, 0xA9, 0xC3, 0xA9, 0xC3, 0xA9], 4) == Ellipsis
  {
    var s: seq<byte> := [0xC3, 0xA9, 0xC3, 0xA9, 0xC3, 0xA9];
    assert !IsCharBoundary(s, 1);
    assert FloorCharBoundary(s, 1) == 0;
  }

  // ---------------------------------------------------------------------
  // sanitize_for_log

  /** `sanitize_for_log`: `password`, then `token`, then `secret` replaced by `***`. */
  function SanitizeForLog(input: string): string {
    Replace(Replace(Replace(input, "password", "***"), "token", "***"), "secret", "***")
  }

  /** None of the three words survives sanitisation. */
  lemma SanitizeRemovesSecrets(input: string)
    ensures var r := SanitizeForLog(input);
      !Contains(r, "password") && !Contains(r, "token") && !Contains(r, "secret")
  {
    assert Disjoint("password", "***") && Disjoint("token", "***") && Disjoint("secret", "***");
    var s1 := Replace(input, "password", "***");
    var s2 := Replace(s1, "token", "***");
    var s3 := Replace(s2, "secret", "***");
    ReplaceRemoves(input, "password", "***");
    ReplaceRemoves(s1, "token", "***");
    ReplaceRemoves(s2, "secret", "***");
    if Contains(s3, "token") {
      ContainsThroughReplace(s2, "secret", "***", "token");
    }
    if Contains(s3, "password") {
      ContainsThroughReplace(s2, "secret", "***", "password");
      ContainsThroughReplace(s1, "token", "***", "password");
    }
  }

  /** Text without any of the three words is logged unchanged. */
  lemma SanitizeKeepsCleanInput(input: string)
    requires !Contains(input, "password") && !Contains(input, "token") && !Contains(input, "secret")
    ensures SanitizeForLog(input) == input
  {
    ReplaceNoOccurrence(input, "password", "***");
    ReplaceNoOccurrence(input, "token", "***");
    ReplaceNoOccurrence(input, "secret", "***");
  }
}
