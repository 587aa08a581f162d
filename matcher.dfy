/**
 * The match test of the Rust search loop (src/main.rs:225-231): prefix,
 * suffix, minimum count of '0' and an optional regular expression, all on
 * the 40-character address text without "0x", case-sensitively. The regex
 * engine is the parameter `isMatch(pattern, text)`.
 */
module Matcher {
  import opened Wrappers
  import opened Strings
  import opened Eip55

  /** What a candidate must satisfy. */
  datatype Criteria = Criteria(prefix: string, suffix: string, minZeros: nat, regex: Option<string>)

  predicate Matches(c: Criteria, isMatch: (string, string) -> bool, address: string) {
    && StartsWith(address, c.prefix)
    && EndsWith(address, c.suffix)
    && Count(address, '0') >= c.minZeros
    && (c.regex.None? || isMatch(c.regex.value, address))
  }

  /** Empty prefix and suffix, no minimum and no regex accept every address. */
  lemma PermissiveCriteriaAcceptAll(isMatch: (string, string) -> bool, address: string)
    ensures Matches(Criteria("", "", 0, None), isMatch, address)
  {
  }

  /** Prefix and suffix constraints hold of any text that begins with the prefix and ends with the suffix. */
  lemma {:induction false} SurroundedTextMatches(isMatch: (string, string) -> bool, prefix: string, middle: string, suffix: string)
    ensures Matches(Criteria(prefix, suffix, 0, None), isMatch, prefix + middle + suffix)
  {
    var a := prefix + middle + suffix;
    assert a[..|prefix|] == prefix;
    assert a[|a| - |suffix|..] == suffix;
  }

  /** Matching is case-sensitive: an upper-case "A" does not satisfy the prefix "a". */
  lemma MatchIsCaseSensitive(isMatch: (string, string) -> bool)
    ensures !Matches(Criteria("a", "", 0, None), isMatch, "A")
    ensures Matches(Criteria("a", "", 0, None), isMatch, "a")
  {
  }

  /** A weaker criterion (a prefix of the prefix, a suffix of the suffix, fewer zeros, no regex) still matches. */
  lemma MatchWeakens(isMatch: (string, string) -> bool, c: Criteria, address: string, prefix: string, suffix: string, minZeros: nat)
    requires Matches(c, isMatch, address)
    requires StartsWith(c.prefix, prefix) && EndsWith(c.suffix, suffix) && minZeros <= c.minZeros
    ensures Matches(Criteria(prefix, suffix, minZeros, None), isMatch, address)
  {
    assert address[..|prefix|] == c.prefix[..|prefix|];
    assert address[|address| - |suffix|..] == c.suffix[|c.suffix| - |suffix|..];
  }

  /** The zero-count test gives the same answer with checksum casing on or off. */
  lemma ZeroTestIgnoresChecksum(address: string, hash: Digest, minZeros: nat)
    requires WithinDigest(address)
    ensures Count(Checksum(address, hash), '0') >= minZeros <==> Count(address, '0') >= minZeros
  {
    ChecksumKeepsZeros(address, hash);
  }
}
