/**
 * The pieces of Rust's `str` API that the utilities rely on: `starts_with`,
 * `contains`, `replace`, `matches(c).count()`, string concatenation and the
 * decimal rendering of an unsigned integer by `format!("{}")`.
 */
module StdStr {

  predicate IsPrefix(p: string, s: string) {
    |p| <= |s| && s[..|p|] == p
  }

  /** `s.contains(p)`, written so that induction follows the string. */
  predicate Contains(s: string, p: string)
    decreases |s|
  {
    IsPrefix(p, s) || (|s| > 0 && Contains(s[1..], p))
  }

  /** `s.replace(from, to)`: leftmost, non-overlapping occurrences. */
  function Replace(s: string, from: string, to: string): string
    requires |from| > 0
    decreases |s|
  {
    if |s| == 0 then []
    else if IsPrefix(from, s) then to + Replace(s[|from|..], from, to)
    else [s[0]] + Replace(s[1..], from, to)
  }

  /** `s.matches(c).count()` */
  function Count(s: string, c: char): nat
    decreases |s|
  {
    if |s| == 0 then 0 else (if s[0] == c then 1 else 0) + Count(s[1..], c)
  }

  /** `iter.join("")` */
  function Concat(parts: seq<string>): string {
    if |parts| == 0 then [] else parts[0] + Concat(parts[1..])
  }

  predicate IsDigitChar(c: char) {
    '0' <= c <= '9'
  }

  function DigitChar(d: nat): (c: char)
    requires d < 10
    ensures IsDigitChar(c)
  {
    (48 + d) as char
  }

  /** `format!("{}", n)` for an unsigned integer. */
  function NatToString(n: nat): (r: string)
    ensures |r| >= 1
    ensures forall i :: 0 <= i < |r| ==> IsDigitChar(r[i])
  {
    if n < 10 then [DigitChar(n)] else NatToString(n / 10) + [DigitChar(n % 10)]
  }

  /** `char::to_ascii_lowercase` */
  function AsciiLowerChar(c: char): char {
    if 'A' <= c <= 'Z' then (c as int + 32) as char else c
  }

  /** `to_lowercase`, on the ASCII letters. */
  function AsciiLower(s: string): (r: string)
    ensures |r| == |s|
    ensures forall i :: 0 <= i < |s| ==> r[i] == AsciiLowerChar(s[i])
  {
    if |s| == 0 then [] else [AsciiLowerChar(s[0])] + AsciiLower(s[1..])
  }

  /** No character of `p` occurs in `t`. */
  predicate Disjoint(p: string, t: string) {
    forall i :: 0 <= i < |p| ==> p[i] !in t
  }

  // ---------------------------------------------------------------------
  // Lemmas

  /** Distinct numbers render differently, so `$k` names exactly one placeholder. */
  lemma {:induction false} NatToStringInjective(a: nat, b: nat)
    requires NatToString(a) == NatToString(b)
    ensures a == b
  {
    if a < 10 && b < 10 {
    } else if a < 10 || b < 10 {
    } else {
      var sa, sb := NatToString(a), NatToString(b);
      assert sa[..|sa| - 1] == NatToString(a / 10);
      assert sb[..|sb| - 1] == NatToString(b / 10);
      NatToStringInjective(a / 10, b / 10);
      assert DigitChar(a % 10) == sa[|sa| - 1] == sb[|sb| - 1] == DigitChar(b % 10);
    }
  }

  lemma {:induction false} ContainsCharAt(s: string, i: nat)
    requires i < |s|
    ensures Contains(s, [s[i]])
    decreases i
  {
    if i > 0 {
      ContainsCharAt(s[1..], i - 1);
    }
  }

  /** An occurrence found in a suffix is an occurrence in the whole string. */
  lemma {:induction false} ContainsInSuffix(s: string, k: nat, p: string)
    requires k <= |s| && Contains(s[k..], p)
    ensures Contains(s, p)
    decreases k
  {
    if k > 0 {
      assert s[1..][k - 1..] == s[k..];
      ContainsInSuffix(s[1..], k - 1, p);
    }
  }

  /** A string containing `p` has at least the characters of `p`. */
  lemma {:induction false} ContainsHasFirstChar(s: string, p: string)
    requires |p| > 0 && Contains(s, p)
    ensures p[0] in s
    decreases |s|
  {
    if !IsPrefix(p, s) {
      ContainsHasFirstChar(s[1..], p);
    }
  }

  /** An occurrence of `p` cannot start inside `u` when `u` lacks `p[0]`. */
  lemma {:induction false} ContainsSkipsPrefix(u: string, v: string, p: string)
    requires |p| > 0 && p[0] !in u && Contains(u + v, p)
    ensures Contains(v, p)
    decreases |u|
  {
    if |u| > 0 {
      assert !IsPrefix(p, u + v) by { assert (u + v)[0] == u[0]; }
      assert (u + v)[1..] == u[1..] + v;
      ContainsSkipsPrefix(u[1..], v, p);
    } else {
      assert u + v == v;
    }
  }

  lemma {:induction false} ReplaceNoOccurrence(s: string, from: string, to: string)
    requires |from| > 0 && !Contains(s, from)
    ensures Replace(s, from, to) == s
    decreases |s|
  {
    if |s| > 0 {
      ReplaceNoOccurrence(s[1..], from, to);
    }
  }

  /** Where `q` starts the input, the output starts with `r`, so no `x` disjoint from `r` can start it. */
  lemma ReplacementStartsWithTo(x: string, t: string, q: string, r: string)
    requires |q| > 0 && |r| > 0 && |x| > 0 && Disjoint(x, r) && IsPrefix(q, t)
    ensures !IsPrefix(x, Replace(t, q, r))
  {
    assert Replace(t, q, r)[0] == r[0];
  }

  /** A prefix of `Replace(t, q, r)` that shares no character with `r` was already a prefix of `t`. */
  lemma {:induction false} PrefixThroughReplace(x: string, t: string, q: string, r: string)
    requires |q| > 0 && |r| > 0 && Disjoint(x, r)
    requires IsPrefix(x, Replace(t, q, r))
    ensures IsPrefix(x, t)
    decreases |t|
  {
    if |x| == 0 || |t| == 0 {
    } else if IsPrefix(q, t) {
      ReplacementStartsWithTo(x, t, q, r);
      assert false;
    } else {
      var rest := Replace(t[1..], q, r);
      assert Replace(t, q, r) == [t[0]] + rest;
      assert x[0] == t[0];
      assert IsPrefix(x[1..], rest) by {
        assert rest[..|x| - 1] == Replace(t, q, r)[1..|x|];
      }
      PrefixThroughReplace(x[1..], t[1..], q, r);
      assert t[..|x|] == [t[0]] + t[1..][..|x| - 1];
    }
  }

  /** Replacing with text that shares no character with `p` creates no new occurrence of `p`. */
  lemma {:induction false} ContainsThroughReplace(s: string, q: string, r: string, p: string)
    requires |q| > 0 && |r| > 0 && |p| > 0 && Disjoint(p, r)
    requires Contains(Replace(s, q, r), p)
    ensures Contains(s, p)
    decreases |s|
  {
    var out := Replace(s, q, r);
    if IsPrefix(p, out) {
      PrefixThroughReplace(p, s, q, r);
    } else if IsPrefix(q, s) {
      var rest := Replace(s[|q|..], q, r);
      assert out[1..] == r[1..] + rest;
      assert p[0] !in r[1..];
      ContainsSkipsPrefix(r[1..], rest, p);
      ContainsThroughReplace(s[|q|..], q, r, p);
      ContainsInSuffix(s, |q|, p);
    } else {
      assert out[1..] == Replace(s[1..], q, r);
      ContainsThroughReplace(s[1..], q, r, p);
    }
  }

  /** After `replace(p, r)` no occurrence of `p` is left, when `r` shares no character with `p`. */
  lemma {:induction false} ReplaceRemoves(s: string, p: string, r: string)
    requires |p| > 0 && |r| > 0 && Disjoint(p, r)
    ensures !Contains(Replace(s, p, r), p)
    decreases |s|
  {
    var out := Replace(s, p, r);
    if |s| == 0 {
    } else if IsPrefix(p, s) {
      var rest := Replace(s[|p|..], p, r);
      assert !IsPrefix(p, out) by { assert out[0] == r[0]; }
      ReplaceRemoves(s[|p|..], p, r);
      if Contains(out[1..], p) {
        assert out[1..] == r[1..] + rest;
        ContainsSkipsPrefix(r[1..], rest, p);
      }
    } else {
      var rest := Replace(s[1..], p, r);
      assert out == [s[0]] + rest;
      if IsPrefix(p, out) {
        assert IsPrefix(p[1..], rest) by {
          assert rest[..|p| - 1] == out[1..|p|];
        }
        PrefixThroughReplace(p[1..], s[1..], p, r);
        assert false;
      }
      assert out[1..] == rest;
      ReplaceRemoves(s[1..], p, r);
    }
  }
}
