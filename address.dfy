/**
 * Address derivation and `verify_address` of src/main.rs. Scalar
 * multiplication on secp256k1 and the two hash functions are parameters
 * (`Crypto`); the byte slicing, base16 text, "0x" prefix, key validity range
 * and case-insensitive comparison are concrete.
 */
module Address {
  import opened Wrappers
  import opened Strings
  import opened Bytes
  import Hex
  import opened Eip55

  /** SEC 1 (section 2.3.3) uncompressed point: marker 0x04, then X and Y, 32 bytes each. */
  type UncompressedKey = k: seq<byte> | |k| == 65 && k[0] == 4
    witness [4] + seq(64, _ => 0)

  /** The primitives the program takes from libraries. */
  datatype Crypto = Crypto(
    keccak256: seq<byte> -> Digest,
    sha3_256: seq<byte> -> Digest,
    publicKey: seq<byte> -> UncompressedKey)

  /** The order n of the secp256k1 group. */
  const CurveOrder: nat := 0xFFFFFFFFFFFFFFFFFFFFFFFFFFFFFFFEBAAEDCE6AF48A03BBFD25E8CD0364141

  /** `SecretKey::from_slice` succeeds: 32 bytes holding a scalar in [1, n). */
  predicate ValidSecret(bs: seq<byte>) {
    |bs| == 32 && 0 < BigEndian(bs) < CurveOrder
  }

  /** The 20 address bytes: the last 20 of the hash of the 64 coordinate bytes. */
  function AddressBytes(crypto: Crypto, secret: seq<byte>): (r: seq<byte>)
    ensures |r| == 20
  {
    var point := crypto.publicKey(secret);
    crypto.keccak256(point[1..])[12..]
  }

  /** `hex::encode(&hash[12..])`: the raw address text, without "0x". */
  function RawAddress(crypto: Crypto, secret: seq<byte>): (a: string)
    ensures |a| == 40
  {
    Hex.Encode(AddressBytes(crypto, secret))
  }

  /** The raw address is 40 lower-case base16 digits that decode to the 20 address bytes. */
  lemma RawAddressIsLowerHex(crypto: Crypto, secret: seq<byte>)
    ensures forall i :: 0 <= i < 40 ==> IsLowerHexDigit(RawAddress(crypto, secret)[i])
    ensures IsLowerCase(RawAddress(crypto, secret))
    ensures Hex.Decode(RawAddress(crypto, secret)) == Some(AddressBytes(crypto, secret))
  {
    Hex.EncodeIsLowerHex(AddressBytes(crypto, secret));
    Hex.DecodeEncode(AddressBytes(crypto, secret));
  }

  /** `verify_address(address, private_key)`. */
  function VerifyAddress(crypto: Crypto, address: string, privateKey: string): bool {
    match Hex.Decode(privateKey)
    case None => false
    case Some(bytes) =>
      if !ValidSecret(bytes) then false
      else Lower(address) == Lower("0x" + RawAddress(crypto, bytes))
  }

  lemma LowerHexIsLower(s: string)
    requires forall i :: 0 <= i < |s| ==> IsLowerHexDigit(s[i]) || s[i] == 'x'
    ensures Lower(s) == s
  {
  }

  /** A key that is not base16 or not a valid scalar is rejected whatever the address. */
  lemma VerifyRejectsBadKey(crypto: Crypto, address: string, privateKey: string)
    requires Hex.Decode(privateKey).None? || !ValidSecret(Hex.Decode(privateKey).value)
    ensures !VerifyAddress(crypto, address, privateKey)
  {
  }

  /** The empty key decodes to no bytes, which is not a scalar: it never verifies. */
  lemma VerifyRejectsEmptyKey(crypto: Crypto, address: string)
    ensures !VerifyAddress(crypto, address, "")
  {
    assert Hex.Decode("") == Some([]);
  }

  /** For a valid key, verification holds exactly when the lower-cased address is "0x" and the derived text. */
  lemma VerifyValidKey(crypto: Crypto, address: string, privateKey: string)
    requires Hex.Decode(privateKey).Some? && ValidSecret(Hex.Decode(privateKey).value)
    ensures VerifyAddress(crypto, address, privateKey)
      <==> Lower(address) == "0x" + RawAddress(crypto, Hex.Decode(privateKey).value)
  {
    var raw := RawAddress(crypto, Hex.Decode(privateKey).value);
    RawAddressIsLowerHex(crypto, Hex.Decode(privateKey).value);
    LowerHexIsLower("0x" + raw);
  }

  /** Verification ignores the case of the address. */
  lemma VerifyIgnoresCase(crypto: Crypto, a: string, b: string, privateKey: string)
    requires Lower(a) == Lower(b)
    ensures VerifyAddress(crypto, a, privateKey) == VerifyAddress(crypto, b, privateKey)
  {
  }

  /** An address whose lower-cased form does not begin with "0x" never verifies. */
  lemma VerifyNeedsPrefix(crypto: Crypto, address: string, privateKey: string)
    requires !StartsWith(Lower(address), "0x")
    ensures !VerifyAddress(crypto, address, privateKey)
  {
  }

  /** The address derived from any valid key verifies against that key's base16 text, in either case. */
  lemma VerifyDerived(crypto: Crypto, secret: seq<byte>, address: string)
    requires ValidSecret(secret)
    requires Lower(address) == "0x" + RawAddress(crypto, secret)
    ensures VerifyAddress(crypto, address, Hex.Encode(secret))
  {
    Hex.DecodeEncode(secret);
    VerifyValidKey(crypto, address, Hex.Encode(secret));
  }

  /** The hex crate's error for `encode_to_slice` into a buffer of the wrong size. */
  datatype HexError = InvalidStringLength

  /** `hex::encode_to_slice`: writes the encoding only into a buffer of exactly twice the input length. */
  function EncodeToSlice(input: seq<byte>, bufferLength: nat): (r: Result<string, HexError>)
    ensures r.Ok? <==> bufferLength == 2 * |input|
    ensures r.Ok? ==> Hex.Decode(r.value) == Some(input)
  {
    Hex.DecodeEncode(input);
    if bufferLength != 2 * |input| then Err(InvalidStringLength) else Ok(Hex.Encode(input))
  }

  /**
   * The private-key text stored for a match, as written (src/main.rs:233-243):
   * `priv_key_hex` is cleared, the encoding is attempted into a temporary
   * buffer copied from its bytes, the outcome is discarded, and the cleared
   * string is what gets stored. `AsWrittenKeyNeverVerifies` states what
   * this means for the stored result.
   */
  function StoredKeyAsWritten(secret: seq<byte>): string
    requires |secret| == 32
  {
    var cleared: string := [];
    var buffer := Utf8(cleared);
    var _ := EncodeToSlice(secret, |buffer|);
    cleared
  }

  /** As written, the encoding into the copy of the cleared text fails, and the found result never verifies, whatever its address. */
  lemma AsWrittenKeyNeverVerifies(crypto: Crypto, address: string, secret: seq<byte>)
    requires |secret| == 32
    ensures EncodeToSlice(secret, |Utf8([])|).Err?
    ensures StoredKeyAsWritten(secret) == []
    ensures !VerifyAddress(crypto, address, StoredKeyAsWritten(secret))
  {
    VerifyRejectsEmptyKey(crypto, address);
  }

  /** The private-key text evidently intended: `hex::encode` of the secret. */
  function PrivateKeyHex(secret: seq<byte>): string {
    Hex.Encode(secret)
  }

  /** The intended key text of a valid secret is 64 digits that decode back to the secret. */
  lemma PrivateKeyHexDecodes(secret: seq<byte>)
    requires ValidSecret(secret)
    ensures |PrivateKeyHex(secret)| == 64
    ensures Hex.Decode(PrivateKeyHex(secret)) == Some(secret)
  {
    Hex.DecodeEncode(secret);
  }

  /** With the intended key text, "0x" and any casing of the derived address verifies. */
  lemma IntendedKeyVerifies(crypto: Crypto, secret: seq<byte>, cased: string)
    requires ValidSecret(secret)
    requires Lower(cased) == RawAddress(crypto, secret)
    ensures VerifyAddress(crypto, "0x" + cased, PrivateKeyHex(secret))
  {
    assert Lower("0x" + cased) == "0x" + Lower(cased);
    PrivateKeyHexDecodes(secret);
    VerifyDerived(crypto, secret, "0x" + cased);
  }
}
