# hash_hunter in Dafny

hash_hunter searches for Ethereum vanity addresses. Each worker draws a
random secp256k1 secret key and derives the address: the last 20 bytes of
the Keccak-256 hash of the uncompressed public key, written as 40 base16
digits. The Rust generator always applies the EIP-55 mixed-case checksum,
because its command-line flag cannot be turned off. It then
tests the address against a prefix, a suffix, a minimum number of '0'
characters and an optional regular expression. The first match is stored
with its private key and an attempt count, and is checked again by
`verify_address`.

Settings come from the command line and a configuration file. The Python
tools score saved wallets by their zero count (`wallet_scoring.py`) and
lower-case the first letter of source comments (`linter.py`). A Python
variant of the generator (`src/main.py`) supplies the rarity score, the
palindrome test, its own checksum routine and a prefix/suffix match.

The project is split into modules:

- `Wrappers`, `Strings`, `Bytes`, `Hex`: helpers.
  - Option/Result types.
  - ASCII case mapping.
  - Python's whitespace set.
  - `str.find`/`split`/`strip`.
  - UTF-8 encoding.
  - Base16 encoding and decoding as the `hex` crate does them (section 8 of RFC 4648).
- `Eip55`: `to_checksum_address_into`, written as a method over the output string and proved against a checksum function.
- `Address`: address derivation, `verify_address`, and the private-key text stored for a match.
- `Matcher`: the candidate test.
- `Settings`: merging arguments with the configuration, the thread count and the pool size.
- `Entropy`: the entropy estimate.
- `Search`: the worker loop.
  - It is a method over a shared `SearchState` object (found flag, attempt total, result slot).
  - The method is proved against a functional description, `WorkerRun`.
  - A second method runs a pool of workers and reports the outcome.
- `PyVariant`: the helpers of `src/main.py`.
  - The checksum and the rarity score are loops, proved against their functions.
- `WalletScoring`: `calculate_score` and `run_wallet_check`.
  - The per-file loop is a method proved against a function over the generated files.
- `Linter`: both comment rules, as functions, and both per-file line loops, as methods.

Secp256k1 scalar multiplication, Keccak-256 and SHA3-256 are parameters
(the `Crypto` datatype and function-typed arguments). The same goes for
the regular-expression engine of the search, the operating system's
random source, the CPU count and the JSON parser. Everything else is
concrete.

## Model

| member | source | states |
|---|---|---|
| Bytes.Utf8Char | src/main.rs:504 | UTF-8 encoding of one character is 1 to 4 bytes, and a single byte equal to the code point exactly for ASCII |
| Hex.DigitValue | src/main.rs:415 | a base16 digit of either case has a value below 16; any other character has none |
| Hex.Encode | src/main.rs:215 | `hex::encode` produces two characters per byte |
| Hex.Decode | src/main.rs:415 | `hex::decode` of a text, when it succeeds, yields half as many bytes as characters |
| Hex.EncodeAt | src/main.rs:215 | character i of the encoding is the digit of nibble i (high nibble first) |
| Hex.DigitValueAt | src/main.py:84 | reading hex digit i of a digest text gives nibble i of the digest |
| Hex.EncodeIsLowerHex | src/main.rs:215 | every character of an encoding is a lower-case base16 digit |
| Hex.DecodeEncode | src/main.rs:415 | decoding an encoding gives the bytes back |
| Hex.EncodeDecode | src/main.rs:415 | re-encoding what decodes gives the lower-cased text |
| Eip55.Checksum | src/main.rs:503-523 | casing keeps the length of the address |
| Eip55.CaseAt | src/main.rs:509-519 | definition of one character's casing from its digest nibble; see Eip55.ChecksumInto, Eip55.ChecksumLowersBack and Eip55.ChecksumIdempotent |
| Eip55.ChecksumInto | src/main.rs:503-523 | the loop appends to `out` exactly the checksum of the address under the Keccak digest of its UTF-8 bytes, keeping what `out` held |
| Eip55.ChecksumLowersBack | src/main.rs:503-523 | lower-casing the checksummed form of a lower-case address gives the address back |
| Eip55.ChecksumKeepsZeros | src/main.rs:506-507 | digits are copied, so the count of '0' is unchanged by casing |
| Eip55.ChecksumIdempotent | src/main.rs:503-523 | casing an already cased address under the same digest changes nothing |
| Eip55.FortyCharactersFit | src/main.rs:509 | a 40-character address never indexes past the 32-byte digest |
| Eip55.SixtyFiveLettersOverrun | src/main.rs:509 | a 65-letter input would index past the digest (the Rust panic) |
| Address.AddressBytes | src/main.rs:209-211 | the address is 20 bytes: the tail of the hash of the 64 coordinate bytes |
| Address.RawAddress | src/main.rs:214-215 | the raw address text has 40 characters |
| Address.RawAddressIsLowerHex | src/main.rs:214-215 | the raw address is 40 lower-case base16 digits that decode to the 20 address bytes |
| Address.VerifyAddress | src/main.rs:413-429 | definition of `verify_address`; see the Address.Verify* rows below |
| Address.VerifyRejectsBadKey | src/main.rs:415-421 | a key that is not base16 or not a valid secp256k1 scalar fails verification for every address |
| Address.VerifyRejectsEmptyKey | src/main.rs:415-421 | the empty key text never verifies |
| Address.VerifyValidKey | src/main.rs:413-429 | for a valid key, verification holds iff the lower-cased address equals "0x" and the derived text |
| Address.VerifyIgnoresCase | src/main.rs:428 | verification depends only on the lower-cased address |
| Address.VerifyNeedsPrefix | src/main.rs:426-428 | an address that does not begin with "0x" (either case) never verifies |
| Address.VerifyDerived | src/main.rs:413-429 | the address derived from a valid key verifies against the base16 text of that key, in any casing |
| Address.EncodeToSlice | src/main.rs:234-237 | `hex::encode_to_slice` succeeds iff the buffer is twice the input length, and then writes a decodable encoding of the input |
| Address.StoredKeyAsWritten | src/main.rs:233-243 | definition: clear the text, encode into a copy of its bytes, discard the outcome, store the cleared text; see Address.AsWrittenKeyNeverVerifies |
| Address.AsWrittenKeyNeverVerifies | src/main.rs:233-243 | the encoding into the copy of the cleared text (zero bytes) fails, the stored key is empty, and the stored result never verifies whatever its address |
| Address.PrivateKeyHex | src/main.rs:234-237 | definition: `hex::encode` of the secret, the key text evidently intended; see Address.PrivateKeyHexDecodes and Address.IntendedKeyVerifies |
| Address.PrivateKeyHexDecodes | src/main.rs:234-237 | the intended key text is 64 digits that decode back to the secret |
| Address.IntendedKeyVerifies | src/main.rs:285 | with the intended key text, "0x" and any casing of the derived address verifies |
| Matcher.Matches | src/main.rs:225-231 | definition of the candidate test; see the Matcher rows below and Search.TestCandidate |
| Matcher.PermissiveCriteriaAcceptAll | src/main.rs:225-231 | empty patterns, no minimum and no regex accept every address |
| Matcher.SurroundedTextMatches | src/main.rs:225-226 | any text that begins with the prefix and ends with the suffix passes those two tests |
| Matcher.MatchIsCaseSensitive | src/main.rs:225 | the prefix test is case-sensitive |
| Matcher.MatchWeakens | src/main.rs:225-231 | a match still holds under a shorter prefix, a shorter suffix, fewer zeros and no regex |
| Matcher.ZeroTestIgnoresChecksum | src/main.rs:227 | the zero-count test gives the same answer with checksum casing on or off |
| Entropy.TrimStartMatches | src/main.rs:489 | the result is a suffix of the input that no longer starts with the pattern |
| Entropy.EntropyBits | src/main.rs:489-490 | definition: four bits per UTF-8 byte after the trimmed prefixes; see the Entropy rows below |
| Entropy.PrefixAddsNothing | src/main.rs:489-490 | a leading "0x" does not change the estimate |
| Entropy.PrefixedAddressBits | src/main.rs:489-490 | "0x" followed by text not itself starting with "0x" rates 4 bits per UTF-8 byte of the text |
| Bytes.Utf8OfAscii | src/main.rs:490 | ASCII text has one byte per character |
| Entropy.AsciiAddressBits | src/main.rs:489-490 | for ASCII text that is 4 bits per character |
| Entropy.NonAsciiCountsBytes | src/main.rs:490 | "0x" and 'é' rate 8 bits: `len` counts bytes, not characters |
| Entropy.ResultAddressBits | src/main.rs:489-490 | every stored result ("0x" and 40 hex digits) rates 160 bits |
| Entropy.SixteenCharactersBits | src/main.rs:489-490 | "0x" and sixteen digits rate 64 bits |
| Settings.ParseUsize | src/main.rs:81 | a parsed `usize` is at most 2^64 - 1 |
| Settings.ParseDecimal | src/main.rs:81 | parsing the decimal text of any `usize` gives it back |
| Settings.ThreadCount | src/main.rs:79-82 | "auto" or an unparsable setting gives the CPU count; otherwise the parsed number |
| Settings.ThreadCountExplicit | src/main.rs:79-82 | the decimal text of a number selects that number |
| Settings.Merge | src/main.rs:79-115 | the merge fails iff the regex chosen (command line first, then configuration) does not compile |
| Settings.ChosenRegex | src/main.rs:104-114 | definition of the regex choice, argument first; see Settings.MergePatterns |
| Settings.MergeLimits | src/main.rs:99-115 | every numeric limit is the larger of argument and configuration; the checksum and skip flags are on iff either source sets them |
| Settings.MergePatterns | src/main.rs:87-112 | a pattern argument equal to its default defers to the configuration; the regex is the argument's if non-empty, else the configuration's if non-empty, else none |
| Settings.DefaultArgumentsDeferToConfig | src/main.rs:22-58 | with default arguments the configuration decides the patterns and minimum zeros, checksum casing is on, and the limits are at least the defaults |
| Settings.ChecksumAlwaysOn | src/main.rs:31-32 | for every argument record the parser can produce (`checksum` is always true), the merged settings have checksum casing on |
| Settings.PoolSizeAsWritten | src/main.rs:180 | definition: the CPU count; see Settings.ConfiguredThreadsIgnored |
| Settings.ConfiguredThreadsIgnored | src/main.rs:79-183 | a configured count of 4 on an 8-CPU machine still gives 8 workers |
| Settings.PoolSize | src/main.rs:79-183 | definition: the selected thread count, the pool size evidently intended; see Settings.PoolSizeHonoursConfig |
| Settings.PoolSizeHonoursConfig | src/main.rs:79-183 | with the intended pool size, a configured number is used as given and "auto" uses every CPU |
| Search.SearchState.constructor | src/main.rs:150-153 | a fresh shared state: not found, zero attempts, no result |
| Search.FinalAddress | src/main.rs:213-222 | the tested text has 40 characters |
| Search.FinalAddressShape | src/main.rs:213-222 | the tested text lower-cases to the raw address and holds as many '0's |
| Search.Winner | src/main.rs:239-246 | definition of the stored `VanityResult`, with the intended key text; see Search.WinnerIsSound |
| Search.WinnerIsSound | src/main.rs:225-246 | a stored result is "0x" and 40 characters that meet the criteria and verify against the intended key text (the source stores "") |
| Search.BatchSize | src/main.rs:252 | a step of 0 still flushes after every attempt |
| Search.Flushed | src/main.rs:251-257 | the flushed count lies within one batch below the number of unmatched iterations |
| Search.FlushStep | src/main.rs:251-257 | one more iteration either completes a batch, which is added whole, or leaves the shared total alone |
| Search.Budget | src/main.rs:202-203 | definition of how many unmatched iterations a worker runs; see Search.BudgetGate and Search.BudgetIsLeastBatches |
| Search.BudgetGate | src/main.rs:202-203 | the ceiling test passes after n unmatched iterations iff n is below the worker's budget |
| Search.BudgetIsLeastBatches | src/main.rs:202-257 | the budget is whole batches, reaches the ceiling, and overshoots it by less than one batch |
| Search.FirstHit | src/main.rs:202-249 | the first draw below the bound that hits, with no hit before it; none when no draw hits |
| Search.WorkerRun | src/main.rs:192-265 | definition of one worker's effect on the shared state; see Search.RunWorker, Search.WorkerRunOnHit, Search.WorkerMissEnd and Search.WorkerKeepsConsistent |
| Search.WorkerRunOnHit | src/main.rs:225-248 | a worker whose first hit is at k stores that winner, records the total as of its last flush, and adds k attempts |
| Search.WorkerHitEnd | src/main.rs:225-248 | a worker that hits at i after misses, within budget, ends in that state |
| Search.WorkerMissEnd | src/main.rs:202-264 | a worker that stops without a hit after i draws has added exactly i attempts |
| Search.DeriveCandidate | src/main.rs:206-222 | the derived and cased text is the candidate of the drawn secret |
| Search.TestCandidate | src/main.rs:206-231 | the match flag is exactly the criteria applied to the candidate |
| Search.Attempt | src/main.rs:206-257 | on a match it stores the winner (with the intended key text) with the current total and sets found; otherwise it counts one attempt and flushes whole batches |
| Search.ScanDraws | src/main.rs:202-258 | the loop stops at the first hit, at the end of the draws or at the ceiling, with the flushed total and local count that many misses give |
| Search.RunWorker | src/main.rs:192-265 | the shared state afterwards is what `WorkerRun` describes, the final flush included |
| Search.PoolRun | src/main.rs:180-267 | definition of the pool, workers run one after another; see Search.PoolSound, Search.PoolZeroCeiling, Search.PoolFirstDraw and Search.PoolExhausted |
| Search.WorkerKeepsConsistent | src/main.rs:192-265 | a worker drawing valid secrets keeps found iff a result is stored, keeps that result sound against the intended key text, and keeps the total below the ceiling plus one batch |
| Search.PoolSound | src/main.rs:180-267 | every state the pool passes through is consistent in that sense, with the intended key text stored |
| Search.PoolZeroCeiling | src/main.rs:202-203 | with a ceiling of 0 nothing is tested or counted |
| Search.PoolFirstDraw | src/main.rs:239-246 | when the very first draw hits, it is the result, with 0 attempts recorded |
| Search.PoolExhausted | src/main.rs:202-264 | a search without a result, whose first worker had draws enough, counts exactly the budget |
| Search.Search | src/main.rs:150-295 | a reported result, stored with the intended key text, verifies, meets the criteria and records no more attempts than the total; the total stays below the ceiling plus one batch; the two edge cases above |
| PyVariant.IsPalindrome | src/main.py:74-75 | definition of `is_palindrome`; see PyVariant.PalindromeMirror |
| PyVariant.PalindromeMirror | src/main.py:74-75 | `s == s[::-1]` iff each character equals its mirror |
| PyVariant.PalindromeExamples | src/main.py:74-75 | "1221" and "abba" are palindromes; "1234" and "12345" are not |
| PyVariant.RemoveAll | src/main.py:79 | `replace("0x", "")` never lengthens the text |
| PyVariant.RemoveAllWithoutX | src/main.py:79 | text without an 'x' is left as it is |
| PyVariant.RemoveAllKeepsLowerCase | src/main.py:79 | removal keeps lower-case text lower-case |
| PyVariant.RemoveAllEverywhere | src/main.py:79 | every "0x" is removed, not only a leading one |
| PyVariant.RemoveAllSinglePass | src/main.py:79 | one pass: "00xx" becomes "0x" |
| PyVariant.HexDigest | src/main.py:80 | `hexdigest()` is 64 characters |
| PyVariant.HexDigestIsHex | src/main.py:80 | `hexdigest()` is base16 text |
| PyVariant.Normalized | src/main.py:79 | definition of the lower-cased address with every "0x" removed; see PyVariant.PyChecksumIsEip55 and PyVariant.PyChecksumShape |
| PyVariant.PyCaseAt | src/main.py:83-87 | definition of one character's casing from the digest text; see PyVariant.PyChecksumIsEip55 |
| PyVariant.PyCased | src/main.py:83-87 | the first n cased characters are n characters |
| PyVariant.PyChecksum | src/main.py:78-89 | definition of `to_checksum_address`, IndexError as `Err`; see PyVariant.PyChecksumIsEip55 and PyVariant.ToChecksumAddress |
| PyVariant.ToChecksumAddress | src/main.py:78-89 | the append loop gives the functional result, or IndexError |
| PyVariant.PyChecksumIsEip55 | src/main.py:78-89 | the Python casing succeeds iff the Rust casing would not panic, and then equals "0x" and the EIP-55 checksum under SHA3-256 |
| PyVariant.PyChecksumShape | src/main.py:78-89 | a result is "0x" and one character per normalized character, and lower-cases back to the normalized text |
| PyVariant.AllZeroAddressFixed | src/main.py:78-89 | the all-zero address comes back unchanged whatever the digest |
| PyVariant.OverlongRaises | src/main.py:84 | sixty-five letters raise IndexError |
| PyVariant.MaxCount | src/main.py:66 | the largest character frequency: no character occurs more often, and some character occurs that often |
| PyVariant.RarityScore | src/main.py:60-71 | the score fails (ZeroDivisionError) iff the text is empty |
| PyVariant.CountExtend | src/main.py:62-63 | one more character raises its count by one and joins the distinct set |
| PyVariant.CountChars | src/main.py:61-63 | the counting loop builds a map whose keys are the distinct characters and whose values are their counts |
| PyVariant.MaxValue | src/main.py:66 | `max(values, default=0)` is an upper bound attained by some value, 0 for the empty map |
| PyVariant.MaxValueIsMaxCount | src/main.py:61-66 | the maximum of the frequency map is the largest character frequency |
| PyVariant.Frequencies | src/main.py:61-66 | the number of distinct characters and the largest frequency |
| PyVariant.CalculateRarityScore | src/main.py:60-71 | the loop computes the rarity score, ZeroDivisionError on empty text |
| PyVariant.RarityOfRepeated | src/main.py:60-71 | a non-empty run of one character scores 0.125 |
| PyVariant.RarityOfAllDifferent | src/main.py:60-71 | n pairwise different characters score n/16 times (1 + 1/n) |
| PyVariant.RarityOfSixteenDigits | src/main.py:60-71 | "1234567890abcdef" scores 17/16 |
| PyVariant.PyVerifyAddress | src/main.py:93-96 | definition: the placeholder returns True; see PyVariant.PlaceholderAcceptsMismatch |
| PyVariant.PlaceholderAcceptsMismatch | src/main.py:93-96 | the placeholder accepts a valid key with any address not derived from it, a pair the Rust `verify_address` rejects |
| PyVariant.MatchesCustom | src/main.py:159-161 | definition of `matches_custom`; see the PyVariant.MatchesCustom* rows below |
| PyVariant.MatchesCustomIgnoresChecksum | src/main.py:159-161 | the custom match gives the same answer with checksum casing on or off |
| PyVariant.MatchesCustomIgnoresPatternCase | src/main.py:159-161 | patterns are compared case-insensitively |
| PyVariant.DefaultPatternsMatchAll | src/main.py:159-161 | empty patterns match every address that begins with "0x" |
| PyVariant.MatchesCustomNeedsPrefix | src/main.py:159-161 | a matching address begins with "0x" in either case |
| WalletScoring.LStripChar | wallet_scoring.py:17 | `lstrip("0")` yields a suffix that does not begin with '0' |
| WalletScoring.LeadingZeroes | wallet_scoring.py:17 | the leading-zero count is at most the length |
| WalletScoring.CalculateScore | wallet_scoring.py:7-23 | ValueError iff the length is not 42 or the lower-cased text does not begin with "0x" |
| WalletScoring.LeadingWithinTotal | wallet_scoring.py:16-17 | leading zeroes never exceed total zeroes |
| WalletScoring.ScoreBounds | wallet_scoring.py:7-23 | leading ≤ total ≤ 40, the score is total/41 × 100, and it lies in [0, 100) |
| WalletScoring.ZeroScoreBelowHundred | wallet_scoring.py:20-22 | with at most 40 zeros the score stays below 100 |
| WalletScoring.ZeroScoreMonotone | wallet_scoring.py:22 | more zeros never score lower |
| WalletScoring.UpperPrefixAccepted | wallet_scoring.py:9 | "0X" is accepted like "0x" |
| WalletScoring.AllZeroScore | wallet_scoring.py:7-23 | the all-zero address scores 4000/41 with 40 total and 40 leading zeroes |
| WalletScoring.TxtAddresses | wallet_scoring.py:64-70 | definition of the TXT branch; see WalletScoring.TxtRoundTrip |
| WalletScoring.SplitBody | wallet_scoring.py:65 | splitting the newline-joined lines at "\n" gives the lines back |
| WalletScoring.AddressLineValue | wallet_scoring.py:67 | the value of an "Address: " line is the address |
| WalletScoring.WalletLines | src/main.py:175-179 | definition of the four lines the generator writes; see WalletScoring.WalletLinesTagged and WalletScoring.WalletLinesPlain |
| WalletScoring.WalletFile | src/main.py:175-179 | definition of the generated wallet file; see WalletScoring.TxtRoundTrip |
| WalletScoring.WalletLinesTagged | src/main.py:175-179 | the first line the generator writes begins with "Address:" and its value, read as `run_wallet_check` reads it, is the address; no other line begins with "Address:" |
| WalletScoring.WalletLinesPlain | src/main.py:175-179 | every line the generator writes is non-empty and holds no newline; the first line begins with a non-blank and the last ends with one, so `strip` of the file body removes nothing from them |
| WalletScoring.TxtRoundTrip | wallet_scoring.py:64-70 | reading a generated wallet file back gives exactly its address |
| WalletScoring.ObjectAddresses | wallet_scoring.py:54-58 | the list comprehension keeps at most one value per item |
| WalletScoring.ObjectAddressesOfObjects | wallet_scoring.py:54-58 | a list of dicts yields each dict's address, in order |
| WalletScoring.Truthy | wallet_scoring.py:72-77 | definition of Python truthiness of a JSON value; see WalletScoring.Judge |
| WalletScoring.GetAddress | wallet_scoring.py:72-77 | definition of `item.get("address")`, None when absent; see WalletScoring.ObjectAddressesOfObjects and WalletScoring.JsonWalletListed |
| WalletScoring.FileValues | wallet_scoring.py:43-70 | definition of the values read from one file; see WalletScoring.OtherFilesIgnored, WalletScoring.TxtIsNotJson, WalletScoring.TxtWalletListed and WalletScoring.JsonWalletListed |
| WalletScoring.JsonAddresses | wallet_scoring.py:51-61 | a dict or a list gives values; any other JSON value gives none |
| WalletScoring.Judge | wallet_scoring.py:72-88 | an added wallet is a valid 42-character text with its score; every valid non-empty text is added; the loop crashes iff the value is truthy and a bool, a number, or a list or dict of size 42 |
| WalletScoring.Step | wallet_scoring.py:72-92 | definition of one value's effect on the check; see WalletScoring.Judge and WalletScoring.RunSound |
| WalletScoring.Feed | wallet_scoring.py:72-92 | definition of one file's values fed in order; see WalletScoring.FeedValues and WalletScoring.CheckCrashed |
| WalletScoring.FeedFile | wallet_scoring.py:72-92 | definition of one file's effect, none when it yields no values; see WalletScoring.OtherFilesIgnored |
| WalletScoring.Run | wallet_scoring.py:72-92 | definition of the check over every file in order; see WalletScoring.RunWalletCheck, WalletScoring.RunSound and WalletScoring.CheckCrashed |
| WalletScoring.FeedValues | wallet_scoring.py:72-88 | the loop over one file's values gives the functional result, stopping at the first crash |
| WalletScoring.RunWalletCheck | wallet_scoring.py:39-92 | the loop over the files gives the functional result of the whole check |
| WalletScoring.CheckCrashed | wallet_scoring.py:72-88 | once a value crashes, the whole check has crashed |
| WalletScoring.RunSound | wallet_scoring.py:72-88 | every listed wallet is 42 characters, begins with "0x", and carries the score `calculate_score` gives it |
| WalletScoring.WalletCheck | wallet_scoring.py:39-92 | definition of the whole check over the generated files; see WalletScoring.RunWalletCheck and WalletScoring.CheckSound |
| WalletScoring.CheckSound | wallet_scoring.py:39-92 | every wallet the check lists is well scored |
| WalletScoring.OtherFilesIgnored | wallet_scoring.py:44 | a file that is neither .txt nor .json changes nothing |
| WalletScoring.TxtIsNotJson | wallet_scoring.py:44-48 | a .txt name is never also read as JSON |
| WalletScoring.SingleWalletListed | wallet_scoring.py:72-86 | a single file whose only value is a well-formed address lists exactly that address, scored by its zeros |
| WalletScoring.TxtWalletListed | wallet_scoring.py:62-86 | a wallet file written by the generator lists its address with its zero score |
| WalletScoring.JsonWalletListed | wallet_scoring.py:48-86 | a JSON dict whose "address" is a valid address lists it with its zero score |
| WalletScoring.NumberAddressCrashes | wallet_scoring.py:72-77 | a JSON dict whose address is a nonzero number ends the check with an uncaught error |
| Linter.LowerAt | linter.py:26-27 | lower-casing one position changes that character only |
| Linter.HashPrefix | linter.py:15-18 | the left-stripped line starts with '#' iff a comment position exists, and the stripped comment is the line from there |
| Linter.BeforeCommentText | linter.py:15-18 | before the comment text stand only blanks and the '#' |
| Linter.FirstOccurrenceIsComment | linter.py:27 | the comment text first occurs in the line at the comment position |
| Linter.ReplaceAtComment | linter.py:26-27 | replacing the first occurrence of the comment lowers exactly the comment's first letter |
| Linter.HashRule | linter.py:15-27 | definition of the '#' rule, step by step as the source; see Linter.HashRuleEffect |
| Linter.HashRuleEffect | linter.py:15-27 | a line whose comment begins with an upper-case letter and not "SAFETY:" gets that letter lowered; every other line is unchanged |
| Linter.HashRuleIdempotent | linter.py:15-27 | linting a linted line changes nothing |
| Linter.HashSafetyExempt | linter.py:23 | a comment beginning with "SAFETY:" is left alone |
| Linter.SlashRunSpans | linter.py:48 | the slash run is all '/' |
| Linter.BlankRunSpans | linter.py:48 | the blank run is all whitespace |
| Linter.SlashMatches | linter.py:48 | definition of a match of the '//' pattern; see Linter.PatternIsSlashMatch and Linter.SlashMatchIsPattern |
| Linter.SlashLetterAt | linter.py:48 | the captured letter position lies inside the line |
| Linter.PatternIsSlashMatch | linter.py:48 | any literal match of the pattern is the modelled match, at the same letter |
| Linter.SlashMatchIsPattern | linter.py:48 | the modelled match is a literal match of the pattern |
| Linter.SlashRule | linter.py:45-55 | definition of the '//' rule; see Linter.SlashRuleEffect |
| Linter.SlashRuleEffect | linter.py:45-55 | a line without "SAFETY:" that matches gets the captured letter lowered; every other line is unchanged |
| Linter.SlashRuleIdempotent | linter.py:45-55 | applying the rule twice is applying it once |
| Linter.LoweredKeepsSlashLetter | linter.py:48-54 | lowering the captured letter keeps the pattern's letter position |
| Linter.ExemptionsDiffer | linter.py:15-55 | "SAFETY:" later in a comment exempts a '//' line but not a '#' line |
| Linter.SlashRewritesComment | linter.py:45-55 | "//X" becomes "//x" |
| Linter.UncapitalizeHashComment | linter.py:15-27 | one turn of the loop: a line whose comment begins with an upper-case letter, not under "SAFETY:", gets exactly that letter lowered; every other line comes out unchanged |
| Linter.EffectIsHashRule | linter.py:15-27 | any text with that effect is the '#' rule's result for the line |
| Linter.LintHashComments | linter.py:5-34 | the output has one line per input line, each the '#' rule applied to it |
| Linter.LowercaseSlashComments | linter.py:37-58 | the written lines are one per input line, each the '//' rule applied to it |

## Left out

- Cryptography: secp256k1 public keys, Keccak-256 and SHA3-256 are parameters. Their correctness is not modelled.
- Randomness: `OsRng` and `Account.create` become a finite sequence of secrets per worker. A worker also stops when its sequence runs out, which the source has no equivalent of.
- Concurrency: workers run one after another on the shared state. Interleavings of the relaxed atomic flag and the `DashMap` updates are not modelled. Neither are several workers finding results at once (the last insert wins in the source), nor the progress-reporting thread.
- Regular expressions: the search regex is a parameter `isMatch(pattern, text)`, and `Regex::new` is a parameter `compiles`. The Python generator's colour patterns (src/main.py:136, 152-157) only log and are not modelled. The linter's pattern (linter.py:48) is modelled concretely.
- Floating point: scores are exact reals. The float rounding of `/` and `*` is not modelled, and neither is `calculate_years_to_crack` (src/main.rs:497-501).
- Integer width: counts and limits are unbounded; `u64` overflow of the attempt total is not modelled. `usize` parsing does bound its result to 2^64 - 1.
- Text: case mapping, `is_ascii_digit`, `isdigit` and `isupper` are modelled on ASCII only. `isspace` is Python's exact set. File text is a `seq<char>`; a `UnicodeDecodeError` is a file whose content is `None`.
- JSON: `json.load` is a parameter `parse`. A `JSONDecodeError` is its `None`.
- I/O and output:
  - Printing, progress bars and the confirmation prompt.
  - Writing `gen/*.json` and the Python wallet file. The wallet file's four lines are modelled only to read them back.
  - `plot_wallet_scores`, and `os.listdir`/`os.walk` (the files become a sequence).
  - The linter's file reading and writing: lines become a sequence, and `readlines` keeps each line's newline in the text.
  - The messages printed for rejected wallet values.
- `process_directory` (linter.py:61-68): the line that should assign `file_path` for Python files sits inside a comment (line 67). The `.py` branch would raise NameError, or reuse a stale path. Only the two per-file drivers are modelled.
- The Python `generate_address` loop (src/main.py:138-186): lines 165-167 put code behind comments, leaving an unbalanced parenthesis, so the file does not parse. Its helpers (palindrome, checksum, rarity, `verify_address`, the custom match) and the wallet file layout are modelled. The loop is not.
- `_verify_checksum` (src/main.rs:431-459), `salty_sailor`, `orchestrator.py`, `notifications.py`, the benchmark and the configuration file loader `src/config.rs` are not part of this model. The configuration is a record of the fields the search reads.
- Settings.Parsable: the command line's `checksum` flag (src/main.rs:31-32) is a clap `bool` flag whose default is true, so it is always true and casing is always on (`Settings.ChecksumAlwaysOn`). The model keeps the field so that `Settings.Merge` reads as the source does, and the unreachable uncased branch (src/main.rs:220-221) remains in `Search.FinalAddress`.
- Search.Search: `attempts` on a result is bounded by the total, and the total overshoots the ceiling by less than one batch. This holds for workers run one after another. With concurrent workers each may hold up to `step - 1` unflushed attempts.
- Search.WorkerRun stores the winner with the intended key text (`Address.PrivateKeyHex`), not the empty text the source stores; see Findings.
- Search.Winner builds the stored result with the intended key text, not the empty text stored at src/main.rs:233-243.
- Search.WinnerIsSound proves verification against the intended key text; the key the source stores ("") never verifies (`Address.AsWrittenKeyNeverVerifies`).
- Search.Attempt stores the winner with the intended key text, not the empty text.
- Search.WorkerKeepsConsistent keeps results sound against the intended key text, not the empty text the source stores.
- Search.PoolSound keeps results sound against the intended key text, not the empty text the source stores.
- Search.Search reports results stored with the intended key text (`Address.PrivateKeyHex`), so `verified` holds; the source stores "" and its verification at src/main.rs:285 fails for every result (`Address.AsWrittenKeyNeverVerifies`); see Findings.
- Search.Search spawns `Settings.PoolSize` workers, the intended count, rather than the CPU count; see Findings.

### Where the model follows the code rather than its description or tests

- A hit on the very first candidate records 0 attempts, because a matching iteration is never counted (`Search.PoolFirstDraw`); counting the matching draw as well would give 1.
- `print_entropy_estimation` rates "0x" and sixteen characters at 64 bits (`Entropy.SixteenCharactersBits`). The test table in rust_tests.rs:29-31 expects 60.
- `calculate_rarity_score("1234567890abcdef")` is 17/16 (`PyVariant.RarityOfSixteenDigits`). test_python.py:14 expects 1.0.
- A wallet score never reaches 100: an address holds at most 40 zeros after "0x", while the divisor is 41 (`WalletScoring.ScoreBounds`).
- In `run_wallet_check`, an address value that is a nonzero number, `true`, or a list or dict of length 42 ends the whole check with an uncaught exception (`WalletScoring.Judge`, `WalletScoring.CheckCrashed`). Only `ValueError`, `UnicodeDecodeError` and `JSONDecodeError` are caught.

## Findings

| source | as written | input that shows it | evidently intended | confidence | as-written member | corrected member |
|---|---|---|---|---|---|---|
| src/main.rs:233-243 | `priv_key_hex` is cleared, then `hex::encode_to_slice` writes into a temporary `BytesMut` copied from it (length 0); the `InvalidStringLength` error is discarded and the empty string is stored as the private key | any match: the stored `priv_key` is "" and `verify_address` (src/main.rs:285) reports FAILED | store `hex::encode(secret)`, 64 digits, which verifies against the address | not executed | Address.AsWrittenKeyNeverVerifies | Address.IntendedKeyVerifies |
| src/main.rs:79-183 | `thread_count` is computed from the configuration and printed, but the pool spawns `num_cpus::get()` workers | `threads = "4"` on an 8-CPU machine: 8 workers | spawn `thread_count` workers | not executed | Settings.ConfiguredThreadsIgnored | Settings.PoolSizeHonoursConfig |
