/**
 * The entropy figure of `print_entropy_estimation` (src/main.rs:488-490):
 * four bits per UTF-8 byte (Rust's `str::len`) left after
 * `trim_start_matches("0x")`, which strips every leading repetition of "0x".
 */
module Entropy {
  import opened Strings
  import opened Bytes

  /** Rust `s.trim_start_matches(pat)`. */
  function TrimStartMatches(s: string, pat: string): (r: string)
    requires |pat| > 0
    ensures |r| <= |s| && r == s[|s| - |r|..]
    ensures !StartsWith(r, pat)
    decreases |s|
  {
    if StartsWith(s, pat) then TrimStartMatches(s[|pat|..], pat) else s
  }

  /** The estimate in bits: four per byte of the text after the prefixes. */
  function EntropyBits(address: string): nat {
    |Utf8(TrimStartMatches(address, "0x"))| * 4
  }

  /** A leading "0x" adds nothing to the estimate. */
  lemma PrefixAddsNothing(s: string)
    ensures EntropyBits("0x" + s) == EntropyBits(s)
  {
    assert StartsWith("0x" + s, "0x");
    assert ("0x" + s)[2..] == s;
  }

  /** An address "0x" + text, where the text does not itself begin with "0x", rates 4 bits per UTF-8 byte of the text. */
  lemma PrefixedAddressBits(text: string)
    requires !StartsWith(text, "0x")
    ensures EntropyBits("0x" + text) == 4 * |Utf8(text)|
  {
    PrefixAddsNothing(text);
  }

  /** For ASCII text that is 4 bits per character. */
  lemma AsciiAddressBits(text: string)
    requires !StartsWith(text, "0x")
    requires forall i :: 0 <= i < |text| ==> text[i] as int < 0x80
    ensures EntropyBits("0x" + text) == 4 * |text|
  {
    PrefixedAddressBits(text);
    Utf8OfAscii(text);
  }

  /** A character outside ASCII counts for every byte of its encoding: "0x" and 'é' rate 8 bits. */
  lemma NonAsciiCountsBytes()
    ensures EntropyBits("0x\U{E9}") == 8
  {
    assert "0x\U{E9}" == "0x" + "\U{E9}";
    PrefixedAddressBits("\U{E9}");
  }

  /** Any stored result ("0x" and 40 base16 digits) rates 160 bits. */
  lemma ResultAddressBits(text: string)
    requires |text| == 40 && forall i :: 0 <= i < 40 ==> IsHexDigit(text[i])
    ensures EntropyBits("0x" + text) == 160
  {
    assert text[1] != 'x';
    AsciiAddressBits(text);
  }

  /** Sixteen characters after the prefix rate 64 bits. */
  lemma SixteenCharactersBits()
    ensures EntropyBits("0x1234567890abcdef") == 64
  {
    assert "0x1234567890abcdef" == "0x" + "1234567890abcdef";
    assert "1234567890abcdef"[1] != 'x';
    AsciiAddressBits("1234567890abcdef");
  }
}
