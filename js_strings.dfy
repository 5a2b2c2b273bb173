/**
 * The JavaScript string operations the health checker relies on:
 * `toLowerCase`, a case-insensitive prefix test as the regular expression
 * flag `i` performs it, `includes` and `split(sep)[0]`.
 */
module JsStrings {

  /** Lower-cases an ASCII capital letter and leaves every other character alone. */
  function LowerChar(c: char): char {
    if 'A' <= c <= 'Z' then (c as int - 'A' as int + 'a' as int) as char else c
  }

  /** Lower-casing maps capitals to small letters and fixes everything else. */
  lemma LowerCharCases(c: char)
    ensures 'A' <= c <= 'Z' ==> 'a' <= LowerChar(c) <= 'z'
    ensures !('A' <= c <= 'Z') ==> LowerChar(c) == c
  {
  }

  /** `s.toLowerCase()`, restricted to ASCII letters. */
  function ToLower(s: string): string {
    seq(|s|, i requires 0 <= i < |s| => LowerChar(s[i]))
  }

  lemma ToLowerIdempotent(s: string)
    ensures ToLower(ToLower(s)) == ToLower(s)
  {
    assert forall i :: 0 <= i < |s| ==> LowerChar(LowerChar(s[i])) == LowerChar(s[i]);
  }

  /**
   * True when `s` begins with the lower-case `prefix`, comparing letters
   * without regard to case. With the `i` flag and no `u` flag, a regular
   * expression folds case by upper-casing and never lets a non-ASCII
   * character match an ASCII one, so for an ASCII prefix this comparison
   * is exact.
   */
  predicate StartsWithIgnoringCase(s: string, prefix: string) {
    prefix == [] || (s != [] && LowerChar(s[0]) == prefix[0] && StartsWithIgnoringCase(s[1..], prefix[1..]))
  }

  /** The case-insensitive prefix test is `toLowerCase` of the head compared with the prefix. */
  lemma {:induction false} StartsWithIgnoringCaseLowers(s: string, prefix: string)
    ensures StartsWithIgnoringCase(s, prefix) <==> |prefix| <= |s| && ToLower(s[..|prefix|]) == prefix
  {
    if prefix != [] && s != [] {
      StartsWithIgnoringCaseLowers(s[1..], prefix[1..]);
      if |prefix| <= |s| {
        assert ToLower(s[..|prefix|]) == [LowerChar(s[0])] + ToLower(s[1..][..|prefix| - 1]);
      }
    }
  }

  /** A string starts with any lower-case prefix it was built from. */
  lemma {:induction false} StartsWithOwnPrefix(prefix: string, rest: string)
    requires forall i :: 0 <= i < |prefix| ==> LowerChar(prefix[i]) == prefix[i]
    ensures StartsWithIgnoringCase(prefix + rest, prefix)
  {
    if prefix != [] {
      assert (prefix + rest)[1..] == prefix[1..] + rest;
      StartsWithOwnPrefix(prefix[1..], rest);
    }
  }

  /** Where the prefix has no letter, a case-insensitive match is an exact one. */
  lemma {:induction false} MatchedNonLetter(s: string, prefix: string, j: nat)
    requires StartsWithIgnoringCase(s, prefix)
    requires j < |prefix| && !('a' <= prefix[j] <= 'z')
    ensures j < |s| && s[j] == prefix[j]
  {
    if j == 0 {
      LowerCharCases(s[0]);
    } else {
      MatchedNonLetter(s[1..], prefix[1..], j - 1);
    }
  }

  /** `s.includes(part)`. */
  predicate Includes(s: string, part: string) {
    part <= s || (s != [] && Includes(s[1..], part))
  }

  lemma {:induction false} IncludesAt(s: string, part: string, i: nat)
    requires i + |part| <= |s| && s[i..i + |part|] == part
    ensures Includes(s, part)
  {
    if i == 0 {
      assert part <= s;
    } else {
      assert s[1..][i - 1..i - 1 + |part|] == s[i..i + |part|];
      IncludesAt(s[1..], part, i - 1);
    }
  }

  /**
   * `s.split(sep)[0]`: everything before the first `sep`, or all of `s` when
   * it holds none.
   */
  function BeforeFirst(s: string, sep: char): string {
    if s == [] then []
    else if s[0] == sep then []
    else [s[0]] + BeforeFirst(s[1..], sep)
  }

  /** The part before the first separator is a prefix free of it, followed by the separator if anything follows. */
  lemma {:induction false} BeforeFirstSplits(s: string, sep: char)
    ensures BeforeFirst(s, sep) <= s && sep !in BeforeFirst(s, sep)
    ensures |BeforeFirst(s, sep)| < |s| ==> s[|BeforeFirst(s, sep)|] == sep
  {
    if s != [] && s[0] != sep {
      BeforeFirstSplits(s[1..], sep);
    }
  }
}
