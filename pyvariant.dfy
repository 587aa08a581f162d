/**
 * The helpers of the Python generator (src/main.py): the palindrome test,
 * `to_checksum_address`, the rarity score, the placeholder
 * `verify_address` and the custom prefix/suffix match. Python's exceptions
 * are `Err` values; FIPS 202 SHA3-256 is the parameter `sha3`.
 */
module PyVariant {
  import opened Wrappers
  import opened Strings
  import opened Bytes
  import Hex
  import opened Eip55
  import Address

  /** The exceptions these helpers can raise. */
  datatype PyError = IndexError | ZeroDivisionError

  /** `is_palindrome(s)`: `s == s[::-1]`. */
  predicate IsPalindrome(s: string) {
    s == Reverse(s)
  }

  /** A palindrome reads the same from both ends, character by character. */
  lemma PalindromeMirror(s: string)
    ensures IsPalindrome(s) <==> forall i :: 0 <= i < |s| ==> s[i] == s[|s| - 1 - i]
  {
    if forall i :: 0 <= i < |s| ==> s[i] == s[|s| - 1 - i] {
      assert forall i :: 0 <= i < |s| ==> Reverse(s)[i] == s[i];
    }
  }

  lemma PalindromeExamples()
    ensures IsPalindrome("1221") && IsPalindrome("abba")
    ensures !IsPalindrome("1234") && !IsPalindrome("12345")
  {
    PalindromeMirror("1221");
    PalindromeMirror("abba");
    assert Reverse("1234")[0] == '4';
    assert Reverse("12345")[0] == '5';
  }

  /** Python `s.replace(pat, "")`: every occurrence, found left to right without overlap, removed. */
  function RemoveAll(s: string, pat: string): (r: string)
    requires |pat| > 0
    ensures |r| <= |s|
    decreases |s|
  {
    if |s| < |pat| then s
    else if s[..|pat|] == pat then RemoveAll(s[|pat|..], pat)
    else [s[0]] + RemoveAll(s[1..], pat)
  }

  /** Text without an 'x' holds no "0x" and is left as it is. */
  lemma {:induction false} RemoveAllWithoutX(s: string)
    requires forall i :: 0 <= i < |s| ==> s[i] != 'x'
    ensures RemoveAll(s, "0x") == s
  {
    if |s| >= 2 {
      assert s[..2] != "0x" by { assert s[1] != 'x'; }
      RemoveAllWithoutX(s[1..]);
      assert [s[0]] + s[1..] == s;
    }
  }

  /** Removal only drops characters, so lower-case text stays lower-case. */
  lemma {:induction false} RemoveAllKeepsLowerCase(s: string, pat: string)
    requires |pat| > 0 && IsLowerCase(s)
    ensures IsLowerCase(RemoveAll(s, pat))
    decreases |s|
  {
    if |s| >= |pat| {
      if s[..|pat|] == pat {
        RemoveAllKeepsLowerCase(s[|pat|..], pat);
      } else {
        RemoveAllKeepsLowerCase(s[1..], pat);
      }
    }
  }

  /** Every "0x" goes, not only a leading one. */
  lemma RemoveAllEverywhere()
    ensures RemoveAll("0xab0xcd", "0x") == "abcd"
  {
    var cd := RemoveAll("cd", "0x");
    assert cd == "cd" by { RemoveAllWithoutX("cd"); }
    assert "0xcd"[..2] == "0x" && "0xcd"[2..] == "cd";
    assert RemoveAll("0xcd", "0x") == "cd";
    assert "b0xcd"[..2] != "0x" && "b0xcd"[1..] == "0xcd";
    assert RemoveAll("b0xcd", "0x") == "bcd";
    assert "ab0xcd"[..2] != "0x" && "ab0xcd"[1..] == "b0xcd";
    assert RemoveAll("ab0xcd", "0x") == "abcd";
    assert "0xab0xcd"[..2] == "0x" && "0xab0xcd"[2..] == "ab0xcd";
  }

  /** A single pass: removing the inner "0x" of "00xx" brings a new "0x" together, which stays. */
  lemma RemoveAllSinglePass()
    ensures RemoveAll("00xx", "0x") == "0x"
  {
    assert "0xx"[..2] == "0x" && "0xx"[2..] == "x";
    assert RemoveAll("0xx", "0x") == "x";
    assert "00xx"[..2] != "0x" && "00xx"[1..] == "0xx";
  }

  /** The text `to_checksum_address` cases: lower-cased, every "0x" removed. */
  function Normalized(address: string): string {
    RemoveAll(Lower(address), "0x")
  }

  /** `hashlib.sha3_256(...).hexdigest()` of a digest: 64 lower-case base16 digits. */
  function HexDigest(d: Digest): (h: string)
    ensures |h| == 64
  {
    Hex.Encode(d)
  }

  predicate IsHexText(h: string) {
    forall j :: 0 <= j < |h| ==> IsHexDigit(h[j])
  }

  lemma HexDigestIsHex(d: Digest)
    ensures IsHexText(HexDigest(d))
  {
    Hex.EncodeIsLowerHex(d);
  }

  /** The first `n` characters can be cased without indexing past the digest text. */
  predicate InRange(address: string, hexd: string, n: nat)
    requires n <= |address|
  {
    forall j :: 0 <= j < n && !IsDigit(address[j]) ==> j < |hexd|
  }

  /** Character `i` as the loop appends it: kept when a digit or when hex digit `i` is below 8, upper-cased otherwise. */
  function PyCaseAt(address: string, hexd: string, i: nat): char
    requires i < |address| && (IsDigit(address[i]) || i < |hexd|) && IsHexText(hexd)
  {
    var c := address[i];
    if IsDigit(c) || Hex.DigitValue(hexd[i]).value < 8 then c else ToUpper(c)
  }

  /** The first `n` characters after casing. */
  function PyCased(address: string, hexd: string, n: nat): (r: string)
    requires n <= |address| && InRange(address, hexd, n) && IsHexText(hexd)
    ensures |r| == n
  {
    seq(n, j requires 0 <= j < n => PyCaseAt(address, hexd, j))
  }

  /** `to_checksum_address(address)`; IndexError when a non-digit lies beyond the 64 digest digits. */
  function PyChecksum(address: string, sha3: seq<byte> -> Digest): Result<string, PyError> {
    var a := Normalized(address);
    var hexd := HexDigest(sha3(Utf8(a)));
    HexDigestIsHex(sha3(Utf8(a)));
    if InRange(a, hexd, |a|) then Ok("0x" + PyCased(a, hexd, |a|)) else Err(IndexError)
  }

  /** `to_checksum_address` (src/main.py:78-89), appending to `checksum_address` in a loop. */
  method ToChecksumAddress(address: string, sha3: seq<byte> -> Digest) returns (r: Result<string, PyError>)
    ensures r == PyChecksum(address, sha3)
  {
    var a := RemoveAll(Lower(address), "0x");
    var hashBytes := HexDigest(sha3(Utf8(a)));
    HexDigestIsHex(sha3(Utf8(a)));
    var checksumAddress := "0x";
    var i := 0;
    while i < |a|
      invariant 0 <= i <= |a|
      invariant InRange(a, hashBytes, i)
      invariant checksumAddress == "0x" + PyCased(a, hashBytes, i)
    {
      var c := a[i];
      if !IsDigit(c) && i >= |hashBytes| {
        return Err(IndexError);
      }
      if IsDigit(c) || Hex.DigitValue(hashBytes[i]).value < 8 {
        checksumAddress := checksumAddress + [c];
      } else {
        checksumAddress := checksumAddress + [ToUpper(c)];
      }
      assert PyCased(a, hashBytes, i + 1) == PyCased(a, hashBytes, i) + [PyCaseAt(a, hashBytes, i)];
      i := i + 1;
    }
    r := Ok(checksumAddress);
  }

  /**
   * Reading hex digit `i` of the digest text selects the same nibble as the
   * Rust code, so the Python casing is EIP-55 under SHA3-256: it succeeds
   * exactly when the Rust casing would not panic, and agrees with it.
   */
  lemma PyChecksumIsEip55(address: string, sha3: seq<byte> -> Digest)
    ensures var a := Normalized(address);
      PyChecksum(address, sha3) == if WithinDigest(a) then Ok("0x" + Checksum(a, sha3(Utf8(a)))) else Err(IndexError)
  {
    var a := Normalized(address);
    var d := sha3(Utf8(a));
    var hexd := HexDigest(d);
    HexDigestIsHex(d);
    assert InRange(a, hexd, |a|) <==> WithinDigest(a);
    if WithinDigest(a) {
      forall i | 0 <= i < |a| ensures PyCased(a, hexd, |a|)[i] == Checksum(a, d)[i] {
        if !IsDigit(a[i]) {
          Hex.DigitValueAt(d, i);
        }
      }
      assert PyCased(a, hexd, |a|) == Checksum(a, d);
    }
  }

  /** A successful result is "0x" and one character per normalized character, and lower-cases back to that text. */
  lemma PyChecksumShape(address: string, sha3: seq<byte> -> Digest)
    requires PyChecksum(address, sha3).Ok?
    ensures var a := Normalized(address); var r := PyChecksum(address, sha3).value;
      && |r| == 2 + |a| && r[..2] == "0x"
      && Lower(r[2..]) == a
  {
    var a := Normalized(address);
    PyChecksumIsEip55(address, sha3);
    RemoveAllKeepsLowerCase(Lower(address), "0x");
    ChecksumLowersBack(a, sha3(Utf8(a)));
    assert PyChecksum(address, sha3).value[2..] == Checksum(a, sha3(Utf8(a)));
  }

  function Zeros(n: nat): (z: string)
    ensures |z| == n && forall i :: 0 <= i < n ==> z[i] == '0'
  {
    seq(n, _ => '0')
  }

  /** The all-zero address comes back unchanged, whatever the digest. */
  lemma AllZeroAddressFixed(sha3: seq<byte> -> Digest)
    ensures PyChecksum("0x" + Zeros(40), sha3) == Ok("0x" + Zeros(40))
  {
    var s := "0x" + Zeros(40);
    assert Lower(s) == s;
    assert s[..2] == "0x";
    assert s[2..] == Zeros(40);
    RemoveAllWithoutX(Zeros(40));
    assert Normalized(s) == Zeros(40);
    PyChecksumIsEip55(s, sha3);
    var c := Checksum(Zeros(40), sha3(Utf8(Zeros(40))));
    assert forall i :: 0 <= i < 40 ==> c[i] == CaseAt(Zeros(40), sha3(Utf8(Zeros(40))), i);
    assert c == Zeros(40);
  }

  /** Sixty-five letters overrun the 64 digest digits: IndexError. */
  lemma OverlongRaises(sha3: seq<byte> -> Digest)
    ensures PyChecksum(seq(65, _ => 'a'), sha3) == Err(IndexError)
  {
    var s := seq(65, _ => 'a');
    assert Lower(s) == s;
    RemoveAllWithoutX(s);
    PyChecksumIsEip55(s, sha3);
    SixtyFiveLettersOverrun();
  }

  /** The distinct characters of `s`: the keys of `char_counts`. */
  function Distinct(s: string): set<char> {
    set i | 0 <= i < |s| :: s[i]
  }

  /** The largest count among the first `n` characters' counts in `s`. */
  function MaxCountUpTo(s: string, n: nat): (m: nat)
    requires n <= |s|
    ensures forall i :: 0 <= i < n ==> Count(s, s[i]) <= m
    ensures n > 0 ==> exists i :: 0 <= i < n && Count(s, s[i]) == m
    ensures n == 0 ==> m == 0
  {
    if n == 0 then 0
    else
      var m := MaxCountUpTo(s, n - 1);
      var c := Count(s, s[n - 1]);
      if c > m then c else m
  }

  /** `max(char_counts.values(), default=0)`: the largest character frequency. */
  function MaxCount(s: string): (m: nat)
    ensures forall i :: 0 <= i < |s| ==> Count(s, s[i]) <= m
    ensures |s| > 0 ==> exists i :: 0 <= i < |s| && Count(s, s[i]) == m
    ensures |s| == 0 ==> m == 0
  {
    MaxCountUpTo(s, |s|)
  }

  /**
   * `calculate_rarity_score(address)`: the number of distinct characters
   * over 16, times one plus the largest frequency over the length; the
   * empty text divides by zero. Real arithmetic stands for floats.
   */
  function RarityScore(s: string): (r: Result<real, PyError>)
    ensures r.Err? <==> |s| == 0
  {
    if |s| == 0 then Err(ZeroDivisionError)
    else Ok(Score(|Distinct(s)|, MaxCount(s), |s|))
  }

  /** The score formula: `unique / 16 * (1 + max_count / length)`. */
  function Score(unique: nat, maxCount: nat, length: nat): real
    requires length > 0
  {
    (unique as real / 16.0) * (1.0 + maxCount as real / length as real)
  }

  /** A character absent from `s` is counted zero times. */
  lemma {:induction false} CountAbsent(s: string, c: char)
    requires c !in Distinct(s)
    ensures Count(s, c) == 0
  {
    if |s| > 0 {
      assert Distinct(s[..|s| - 1]) <= Distinct(s) by {
        forall x | x in Distinct(s[..|s| - 1]) ensures x in Distinct(s) {
          var i :| 0 <= i < |s| - 1 && s[..|s| - 1][i] == x;
          assert s[i] == x;
        }
      }
      CountAbsent(s[..|s| - 1], c);
    }
  }

  /** One more character: its count goes up by one and it joins the distinct set. */
  lemma CountExtend(s: string, i: nat, c: char)
    requires i < |s|
    ensures Count(s[..i + 1], c) == Count(s[..i], c) + (if s[i] == c then 1 else 0)
    ensures Distinct(s[..i + 1]) == Distinct(s[..i]) + {s[i]}
  {
    assert s[..i + 1][..i] == s[..i];
    var a, b := s[..i + 1], s[..i];
    forall x | x in Distinct(a) ensures x in Distinct(b) + {s[i]} {
      var j :| 0 <= j < |a| && a[j] == x;
      if j < i { assert b[j] == x; }
    }
    forall x | x in Distinct(b) + {s[i]} ensures x in Distinct(a) {
      if x != s[i] {
        var j :| 0 <= j < |b| && b[j] == x;
        assert a[j] == x;
      } else {
        assert a[i] == x;
      }
    }
  }

  /** The frequency map of `s`: `char_counts` after the counting loop. */
  method CountChars(s: string) returns (charCounts: map<char, nat>)
    ensures charCounts.Keys == Distinct(s)
    ensures forall c :: c in charCounts ==> charCounts[c] == Count(s, c)
  {
    charCounts := map[];
    var i := 0;
    while i < |s|
      invariant 0 <= i <= |s|
      invariant charCounts.Keys == Distinct(s[..i])
      invariant forall c :: c in charCounts ==> charCounts[c] == Count(s[..i], c)
    {
      var c := s[i];
      if c !in charCounts {
        CountAbsent(s[..i], c);
      }
      var current := if c in charCounts then charCounts[c] else 0;
      forall x {
        CountExtend(s, i, x);
      }
      charCounts := charCounts[c := current + 1];
      i := i + 1;
    }
    assert s[..i] == s;
  }

  /** `max(char_counts.values(), default=0)`, visiting the keys in some order. */
  method MaxValue(charCounts: map<char, nat>) returns (maxCount: nat)
    ensures forall c :: c in charCounts ==> charCounts[c] <= maxCount
    ensures maxCount == 0 || exists c :: c in charCounts && charCounts[c] == maxCount
    ensures |charCounts| == 0 ==> maxCount == 0
  {
    maxCount := 0;
    var rest := charCounts.Keys;
    while rest != {}
      invariant rest <= charCounts.Keys
      invariant forall c :: c in charCounts && c !in rest ==> charCounts[c] <= maxCount
      invariant maxCount == 0 || exists c :: c in charCounts && charCounts[c] == maxCount
      decreases |rest|
    {
      var c :| c in rest;
      if charCounts[c] > maxCount {
        maxCount := charCounts[c];
      }
      rest := rest - {c};
    }
  }

  /** The maximum of the frequency map of a non-empty text is its largest character frequency. */
  lemma MaxValueIsMaxCount(s: string, charCounts: map<char, nat>, maxCount: nat)
    requires |s| > 0
    requires charCounts.Keys == Distinct(s)
    requires forall c :: c in charCounts ==> charCounts[c] == Count(s, c)
    requires forall c :: c in charCounts ==> charCounts[c] <= maxCount
    requires maxCount == 0 || exists c :: c in charCounts && charCounts[c] == maxCount
    ensures maxCount == MaxCount(s)
  {
    var m := MaxCount(s);
    var i :| 0 <= i < |s| && Count(s, s[i]) == m;
    assert s[i] in Distinct(s);
    assert m <= maxCount;
    if maxCount != 0 {
      var c :| c in charCounts && charCounts[c] == maxCount;
      var j :| 0 <= j < |s| && s[j] == c;
      assert maxCount <= m;
    }
  }

  /** The number of distinct characters and the largest frequency, from the frequency map. */
  method Frequencies(address: string) returns (uniqueChars: nat, maxCount: nat)
    ensures uniqueChars == |Distinct(address)|
    ensures maxCount == MaxCount(address)
  {
    var charCounts := CountChars(address);
    uniqueChars := |charCounts|;
    maxCount := MaxValue(charCounts);
    if |address| > 0 {
      MaxValueIsMaxCount(address, charCounts, maxCount);
    }
  }

  /** `calculate_rarity_score` (src/main.py:60-71): the counting loop, then the maximum. */
  method CalculateRarityScore(address: string) returns (r: Result<real, PyError>)
    ensures r == RarityScore(address)
  {
    var uniqueChars, maxCount := Frequencies(address);
    if |address| == 0 {
      return Err(ZeroDivisionError);
    }
    var repetitionFactor := maxCount as real / |address| as real;
    var rarityScore := (uniqueChars as real / 16.0) * (1.0 + repetitionFactor);
    assert rarityScore == Score(uniqueChars, maxCount, |address|);
    r := Ok(rarityScore);
  }

  /** `n` copies of a character. */
  function Repeat(c: char, n: nat): (s: string)
    ensures |s| == n && forall i :: 0 <= i < n ==> s[i] == c
  {
    seq(n, _ => c)
  }

  lemma {:induction false} CountRepeat(c: char, n: nat)
    ensures Count(Repeat(c, n), c) == n
  {
    if n > 0 {
      assert Repeat(c, n)[..n - 1] == Repeat(c, n - 1);
      CountRepeat(c, n - 1);
    }
  }

  /** Any non-empty run of one character scores 1/16 times 2: 0.125, whatever its length. */
  lemma RarityOfRepeated(c: char, n: nat)
    requires n > 0
    ensures RarityScore(Repeat(c, n)) == Ok(0.125)
  {
    var s := Repeat(c, n);
    assert Distinct(s) == {c} by {
      assert s[0] == c;
    }
    CountRepeat(c, n);
    assert MaxCount(s) == n;
    ScoreOfOneCharacter(n);
  }

  lemma ScoreOfOneCharacter(n: nat)
    requires n > 0
    ensures Score(1, n, n) == 0.125
  {
    assert n as real / n as real == 1.0;
  }

  /** Pairwise different characters. */
  predicate AllDifferent(s: string) {
    forall i, j :: 0 <= i < j < |s| ==> s[i] != s[j]
  }

  lemma {:induction false} DistinctOfAllDifferent(s: string)
    requires AllDifferent(s)
    ensures |Distinct(s)| == |s|
    ensures forall i :: 0 <= i < |s| ==> Count(s, s[i]) == 1
  {
    if |s| > 0 {
      var n := |s| - 1;
      var p := s[..n];
      DistinctOfAllDifferent(p);
      CountExtend(s, n, s[n]);
      assert s[..n + 1] == s;
      assert s[n] !in Distinct(p);
      forall i | 0 <= i < |s| ensures Count(s, s[i]) == 1 {
        CountExtend(s, n, s[i]);
        if i < n {
          assert p[i] == s[i];
        } else {
          CountAbsent(p, s[n]);
        }
      }
    }
  }

  /**
   * `n` pairwise different characters score n/16 times (1 + 1/n): for the
   * sixteen digits "1234567890abcdef" that is 17/16, not the 1.0 the
   * Python test expects.
   */
  lemma RarityOfAllDifferent(s: string)
    requires |s| > 0 && AllDifferent(s)
    ensures RarityScore(s) == Ok((|s| as real / 16.0) * (1.0 + 1.0 / |s| as real))
  {
    DistinctOfAllDifferent(s);
    assert MaxCount(s) == 1 by {
      var i :| 0 <= i < |s| && Count(s, s[i]) == MaxCount(s);
    }
  }

  lemma RarityOfSixteenDigits()
    ensures RarityScore("1234567890abcdef") == Ok(17.0 / 16.0)
  {
    var s := "1234567890abcdef";
    assert AllDifferent(s);
    RarityOfAllDifferent(s);
  }

  /** `verify_address` of the Python variant: a placeholder that accepts everything. */
  function PyVerifyAddress(address: string, privateKey: string): bool {
    true
  }

  /**
   * The placeholder accepts pairs that a real check rejects: a valid key
   * with any address other than the one derived from it, in any casing.
   */
  lemma PlaceholderAcceptsMismatch(crypto: Address.Crypto, secret: seq<byte>, address: string)
    requires Address.ValidSecret(secret)
    requires Lower(address) != "0x" + Address.RawAddress(crypto, secret)
    ensures PyVerifyAddress(address, Hex.Encode(secret))
    ensures !Address.VerifyAddress(crypto, address, Hex.Encode(secret))
  {
    Address.PrivateKeyHexDecodes(secret);
    Address.VerifyValidKey(crypto, address, Hex.Encode(secret));
  }

  /**
   * `matches_custom` (src/main.py:159-161), with the patterns lower-cased as
   * `main` does (lines 102-103): the lower-cased address starts with "0x"
   * and the prefix, and ends with the suffix.
   */
  predicate MatchesCustom(finalAddress: string, startPattern: string, endPattern: string) {
    var a := Lower(finalAddress);
    StartsWith(a, "0x" + Lower(startPattern)) && EndsWith(a, Lower(endPattern))
  }

  lemma LowerTwice(s: string)
    ensures Lower(Lower(s)) == Lower(s)
  {
  }

  lemma LowerOfLowerCase(s: string)
    requires IsLowerCase(s)
    ensures Lower(s) == s
  {
  }

  /** The custom match sees the same text with checksum casing on or off. */
  lemma MatchesCustomIgnoresChecksum(address: string, hash: Digest, startPattern: string, endPattern: string)
    requires IsLowerCase(address) && WithinDigest(address)
    ensures MatchesCustom("0x" + Checksum(address, hash), startPattern, endPattern)
      == MatchesCustom("0x" + address, startPattern, endPattern)
  {
    ChecksumLowersBack(address, hash);
    LowerOfLowerCase(address);
    assert Lower("0x" + Checksum(address, hash)) == "0x" + Lower(Checksum(address, hash));
    assert Lower("0x" + address) == "0x" + Lower(address);
  }

  /** Patterns are compared case-insensitively: upper-case patterns select the same addresses. */
  lemma MatchesCustomIgnoresPatternCase(finalAddress: string, startPattern: string, endPattern: string)
    ensures MatchesCustom(finalAddress, startPattern, endPattern)
      == MatchesCustom(finalAddress, Lower(startPattern), Lower(endPattern))
  {
    LowerTwice(startPattern);
    LowerTwice(endPattern);
  }

  /** With the default empty patterns, every address that begins with "0x" (either case) matches. */
  lemma DefaultPatternsMatchAll(finalAddress: string)
    requires StartsWith(Lower(finalAddress), "0x")
    ensures MatchesCustom(finalAddress, "", "")
  {
    assert Lower("") == "";
    assert "0x" + "" == "0x";
  }

  /** An address that does not begin with "0x" in either case never matches. */
  lemma MatchesCustomNeedsPrefix(finalAddress: string, startPattern: string, endPattern: string)
    requires MatchesCustom(finalAddress, startPattern, endPattern)
    ensures |finalAddress| >= 2 && ToLower(finalAddress[0]) == '0' && ToLower(finalAddress[1]) == 'x'
  {
    var a := Lower(finalAddress);
    var p := "0x" + Lower(startPattern);
    assert a[..|p|] == p;
    assert a[0] == p[0] && a[1] == p[1];
  }
}
