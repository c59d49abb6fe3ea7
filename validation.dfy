/**
 * Input predicates and parse-and-validate helpers (the `validation`
 * submodule of src/utils.rs). Every string-typed query value goes
 * through these before it reaches a repository.
 */
module Validation {
  import opened Wrappers
  import opened StdStr

  /**
   * The library parsers the code calls after its own character checks:
   * `str::parse::<i32>`, `Decimal::from_str` and `str::parse::<DateTime<Utc>>`.
   * Their grammars are not part of this model; they are passed in as
   * partial functions. Decimals are exact, so they are `real`; a timestamp
   * is an `int`.
   */
  datatype Parsers = Parsers(
    i32: string -> Option<int>,
    decimal: string -> Option<real>,
    datetime: string -> Option<int>)

  predicate IsAsciiDigit(c: char) {
    '0' <= c <= '9'
  }

  predicate IsAsciiAlphanumeric(c: char) {
    IsAsciiDigit(c) || 'a' <= c <= 'z' || 'A' <= c <= 'Z'
  }

  /** `char::is_whitespace` restricted to ASCII: tab, LF, VT, FF, CR and space. */
  predicate IsAsciiWhitespace(c: char) {
    '\t' <= c <= '\r' || c == ' '
  }

  /** `is_safe_integer` */
  predicate IsSafeInteger(input: string) {
    && |input| > 0
    && (forall i :: 0 <= i < |input| ==> IsAsciiDigit(input[i]) || input[i] == '-')
    && Count(input, '-') <= 1
    && !IsPrefix("--", input)
  }

  /** `is_safe_decimal` */
  predicate IsSafeDecimal(input: string) {
    && |input| > 0
    && (forall i :: 0 <= i < |input| ==> IsAsciiDigit(input[i]) || input[i] == '.' || input[i] == '-')
    && Count(input, '.') <= 1
    && Count(input, '-') <= 1
    && !IsPrefix("--", input)
    && input[|input| - 1] != '.'
    && input[0] != '.'
  }

  /**
   * `is_safe_datetime`. Rust measures `len()` in bytes; the length tests are
   * reached only after every character has been found to be ASCII, so bytes
   * and characters coincide there.
   */
  predicate IsSafeDatetime(input: string) {
    && |input| > 0
    && (forall i :: 0 <= i < |input| ==> IsAsciiAlphanumeric(input[i]) || input[i] in "-:TZ+.")
    && |input| >= 10
    && |input| <= 30
  }

  /** The substrings `is_safe_string` rejects, in the order it tests them. */
  const DangerousPatterns: seq<string> := [
    "select", "insert", "update", "delete", "drop", "alter", "create",
    "union", "script", "--", "/*", "*/", "'", "\"", ";", "\\",
    "exec", "execute", "sp_", "xp_"
  ]

  predicate HasDangerousPattern(lower: string) {
    exists k :: 0 <= k < |DangerousPatterns| && Contains(lower, DangerousPatterns[k])
  }

  /** The characters `is_safe_string` admits; every code point above 127 is admitted. */
  predicate IsAllowedChar(c: char) {
    || IsAsciiAlphanumeric(c)
    || IsAsciiWhitespace(c)
    || c in ".-_*()[]+/@#:&!?,%"
    || c as int > 127
  }

  /** `is_safe_string`: the early returns and the final `all` check. */
  predicate IsSafeString(input: string) {
    if |input| == 0 then false
    else if input == "*" then true
    else if HasDangerousPattern(AsciiLower(input)) then false
    else forall i :: 0 <= i < |input| ==> IsAllowedChar(input[i])
  }

  /** `parse_safe_integer` */
  function ParseSafeInteger(input: string, fieldName: string, parsers: Parsers): (r: Result<int, string>)
    ensures r.Ok? <==> IsSafeInteger(input) && parsers.i32(input).Some?
    ensures r.Ok? ==> parsers.i32(input) == Some(r.value)
    ensures !IsSafeInteger(input) ==> r == Err("Invalid " + fieldName + " format")
    ensures IsSafeInteger(input) && parsers.i32(input).None? ==> r == Err("Invalid integer format for " + fieldName)
  {
    if !IsSafeInteger(input) then Err("Invalid " + fieldName + " format")
    else match parsers.i32(input)
      case Some(v) => Ok(v)
      case None => Err("Invalid integer format for " + fieldName)
  }

  /** `parse_safe_decimal` */
  function ParseSafeDecimal(input: string, fieldName: string, parsers: Parsers): (r: Result<real, string>)
    ensures r.Ok? <==> IsSafeDecimal(input) && parsers.decimal(input).Some?
    ensures r.Ok? ==> parsers.decimal(input) == Some(r.value)
    ensures !IsSafeDecimal(input) ==> r == Err("Invalid " + fieldName + " format")
    ensures IsSafeDecimal(input) && parsers.decimal(input).None? ==> r == Err("Invalid decimal format for " + fieldName)
  {
    if !IsSafeDecimal(input) then Err("Invalid " + fieldName + " format")
    else match parsers.decimal(input)
      case Some(v) => Ok(v)
      case None => Err("Invalid decimal format for " + fieldName)
  }

  /** `parse_safe_datetime` */
  function ParseSafeDatetime(input: string, fieldName: string, parsers: Parsers): (r: Result<int, string>)
    ensures r.Ok? <==> IsSafeDatetime(input) && parsers.datetime(input).Some?
    ensures r.Ok? ==> parsers.datetime(input) == Some(r.value)
    ensures !IsSafeDatetime(input) ==> r == Err("Invalid " + fieldName + " format")
    ensures IsSafeDatetime(input) && parsers.datetime(input).None? ==>
      r == Err("Invalid datetime format for " + fieldName + ". Use ISO 8601 format (e.g., 2024-12-31T23:59:59Z)")
  {
    if !IsSafeDatetime(input) then Err("Invalid " + fieldName + " format")
    else match parsers.datetime(input)
      case Some(v) => Ok(v)
      case None => Err("Invalid datetime format for " + fieldName
                       + ". Use ISO 8601 format (e.g., 2024-12-31T23:59:59Z)")
  }

  /** `validate_safe_string`: the empty string gets its own message. */
  function ValidateSafeString(input: string, fieldName: string): (r: Result<(), string>)
    ensures r.Ok? <==> IsSafeString(input)
    ensures |input| == 0 ==> r == Err(fieldName + " cannot be empty")
    ensures |input| > 0 && !IsSafeString(input) ==> r == Err("Invalid " + fieldName)
  {
    if |input| == 0 then Err(fieldName + " cannot be empty")
    else if !IsSafeString(input) then Err("Invalid " + fieldName)
    else Ok(())
  }

  // ---------------------------------------------------------------------
  // Lemmas

  lemma {:induction false} CountPositive(s: string, i: nat, c: char)
    requires i < |s| && s[i] == c
    ensures Count(s, c) >= 1
    decreases i
  {
    if i > 0 {
      CountPositive(s[1..], i - 1, c);
    }
  }

  lemma {:induction false} CountZero(s: string, c: char)
    requires c !in s
    ensures Count(s, c) == 0
    decreases |s|
  {
    if |s| > 0 {
      CountZero(s[1..], c);
    }
  }

  /**
   * The `starts_with("--")` test of `is_safe_integer` is implied by the
   * count test: a safe integer is exactly a non-empty string of digits and
   * `-` with at most one `-`.
   */
  lemma SafeIntegerCharacterization(input: string)
    ensures IsSafeInteger(input) <==>
      && |input| > 0
      && (forall i :: 0 <= i < |input| ==> IsAsciiDigit(input[i]) || input[i] == '-')
      && Count(input, '-') <= 1
  {
    if IsPrefix("--", input) {
      assert input[0] == '-' && input[1] == '-';
      CountPositive(input[1..], 0, '-');
      assert Count(input, '-') == 1 + Count(input[1..], '-');
    }
  }

  /** Every string `is_safe_integer` accepts is also accepted by `is_safe_decimal`. */
  lemma SafeIntegerIsSafeDecimal(input: string)
    requires IsSafeInteger(input)
    ensures IsSafeDecimal(input)
  {
    forall i | 0 <= i < |input|
      ensures input[i] != '.'
    {
      assert IsAsciiDigit(input[i]) || input[i] == '-';
    }
    CountZero(input, '.');
  }

  /**
   * A string accepted by `is_safe_string` holds none of the characters used
   * to quote or escape SQL text: no `'`, `"`, `;` or backslash. In
   * particular the ILIKE escape character never reaches a search pattern.
   */
  lemma {:induction false} SafeStringHasNoQuoteOrEscape(input: string)
    requires IsSafeString(input)
    ensures '\\' !in input && '\'' !in input && '"' !in input && ';' !in input
  {
    if input != "*" {
      var lower := AsciiLower(input);
      assert !HasDangerousPattern(lower);
      assert DangerousPatterns[12] == "'" && DangerousPatterns[13] == "\""
        && DangerousPatterns[14] == ";" && DangerousPatterns[15] == "\\";
      assert !Contains(lower, "'") && !Contains(lower, "\"")
        && !Contains(lower, ";") && !Contains(lower, "\\");
      forall i | 0 <= i < |input|
        ensures input[i] !in "\\'\";"
      {
        ContainsCharAt(lower, i);
        assert lower[i] == AsciiLowerChar(input[i]);
      }
    }
  }

  /**
   * An admitted timestamp string is pure ASCII, 10 to 30 characters long,
   * and holds no quote, semicolon or backslash.
   */
  lemma SafeDatetimeIsShortAscii(input: string)
    requires IsSafeDatetime(input)
    ensures 10 <= |input| <= 30
    ensures forall i :: 0 <= i < |input| ==> input[i] as int < 128
    ensures '\\' !in input && '\'' !in input && '"' !in input && ';' !in input
  {
    forall c | c in input
      ensures c as int < 128 && c !in "\\'\";"
    {
      var i :| 0 <= i < |input| && input[i] == c;
      assert IsAsciiAlphanumeric(input[i]) || input[i] in "-:TZ+.";
    }
  }

  /** Two characters with the same ASCII lower case are both admitted or both refused. */
  lemma AllowedCharIgnoresCase(c: char, d: char)
    requires AsciiLowerChar(c) == AsciiLowerChar(d)
    ensures IsAllowedChar(c) <==> IsAllowedChar(d)
  {
  }

  /**
   * `is_safe_string` ignores ASCII case: two strings that lower-case to the
   * same text are both accepted or both rejected. In particular a keyword is
   * rejected in every spelling of its letters.
   */
  lemma {:induction false} SafeStringIgnoresCase(s: string, t: string)
    requires AsciiLower(s) == AsciiLower(t)
    ensures IsSafeString(s) <==> IsSafeString(t)
  {
    assert |s| == |t|;
    if s == "*" || t == "*" {
      assert AsciiLower(s)[0] == AsciiLower(t)[0];
    } else {
      forall i | 0 <= i < |s|
        ensures IsAllowedChar(s[i]) <==> IsAllowedChar(t[i])
      {
        assert AsciiLower(s)[i] == AsciiLower(t)[i];
        AllowedCharIgnoresCase(s[i], t[i]);
      }
    }
  }

  /** Upper-case spellings are caught too: `SeLeCt` is rejected like `select`. */
  lemma KeywordRejectedInAnyCase()
    ensures !IsSafeString("SeLeCt")
  {
    var input := "SeLeCt";
    var lower := AsciiLower(input);
    assert lower == [AsciiLowerChar('S')] + AsciiLower("eLeCt");
    assert IsPrefix(DangerousPatterns[0], lower);
    assert Contains(lower, DangerousPatterns[0]);
  }
}
