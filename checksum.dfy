/**
 * EIP-55 mixed-case checksum as `to_checksum_address_into` applies it
 * (src/main.rs): digits are copied, every other character at index i is
 * upper-cased when nibble i of the 32-byte digest of the address text is
 * 8 or more.
 */
module Eip55 {
  import opened Strings
  import opened Bytes
  import opened Hex

  /** A 256-bit digest. */
  type Digest = d: seq<byte> | |d| == 32 witness seq(32, _ => 0)

  /**
   * The address can be cased without a panic: a non-digit at index 64 or
   * beyond would read `hash[i / 2]` past the 32-byte digest.
   */
  predicate WithinDigest(address: string) {
    forall i :: 0 <= i < |address| && !IsDigit(address[i]) ==> i < 64
  }

  /** The cased character at index `i`. */
  function CaseAt(address: string, hash: Digest, i: nat): char
    requires i < |address| && WithinDigest(address)
  {
    var c := address[i];
    if IsDigit(c) then c
    else if Nibble(hash, i) >= 8 then ToUpper(c)
    else c
  }

  /** The checksummed form of `address` under digest `hash`. */
  function Checksum(address: string, hash: Digest): (r: string)
    requires WithinDigest(address)
    ensures |r| == |address|
  {
    seq(|address|, i requires 0 <= i < |address| => CaseAt(address, hash, i))
  }

  /**
   * `to_checksum_address_into`: hashes the UTF-8 bytes of `address` with
   * `keccak256` and pushes one cased character per input character onto
   * `out`, leaving what `out` already held in front.
   */
  method ChecksumInto(address: string, keccak256: seq<byte> -> Digest, out: string) returns (res: string)
    requires WithinDigest(address)
    ensures |res| == |out| + |address| && res[..|out|] == out
    ensures res == out + Checksum(address, keccak256(Utf8(address)))
  {
    var hash := keccak256(Utf8(address));
    res := out;
    var i := 0;
    while i < |address|
      invariant 0 <= i <= |address|
      invariant res == out + Checksum(address, hash)[..i]
    {
      var c := address[i];
      if IsDigit(c) {
        res := res + [c];
      } else {
        var hashByte := hash[i / 2];
        var nibble := if i % 2 == 0 then hashByte / 16 else hashByte % 16;
        if nibble >= 8 {
          res := res + [ToUpper(c)];
        } else {
          res := res + [c];
        }
      }
      assert Checksum(address, hash)[..i + 1] == Checksum(address, hash)[..i] + [CaseAt(address, hash, i)];
      i := i + 1;
    }
    assert Checksum(address, hash)[..i] == Checksum(address, hash);
  }

  /** Lower-casing the checksummed form of a lower-case address gives the address back. */
  lemma ChecksumLowersBack(address: string, hash: Digest)
    requires WithinDigest(address) && IsLowerCase(address)
    ensures Lower(Checksum(address, hash)) == address
  {
    var r := Checksum(address, hash);
    forall i | 0 <= i < |address| ensures Lower(r)[i] == address[i] {
      assert r[i] == CaseAt(address, hash, i);
    }
  }

  /** Two strings of equal length with '0' at the same positions hold equally many '0's. */
  lemma {:induction false} SameZeroPositions(a: string, b: string)
    requires |a| == |b|
    requires forall i :: 0 <= i < |a| ==> (a[i] == '0' <==> b[i] == '0')
    ensures Count(a, '0') == Count(b, '0')
  {
    if |a| > 0 {
      var n := |a| - 1;
      SameZeroPositions(a[..n], b[..n]);
    }
  }

  /** Casing keeps every digit where it was, so the count of '0' is unchanged. */
  lemma ChecksumKeepsZeros(address: string, hash: Digest)
    requires WithinDigest(address)
    ensures Count(Checksum(address, hash), '0') == Count(address, '0')
  {
    var r := Checksum(address, hash);
    forall i | 0 <= i < |address| ensures (r[i] == '0' <==> address[i] == '0') {
      assert r[i] == CaseAt(address, hash, i);
    }
    SameZeroPositions(r, address);
  }

  /** Casing an already cased address again under the same digest changes nothing. */
  lemma ChecksumIdempotent(address: string, hash: Digest)
    requires WithinDigest(address)
    ensures WithinDigest(Checksum(address, hash))
    ensures Checksum(Checksum(address, hash), hash) == Checksum(address, hash)
  {
    var r := Checksum(address, hash);
    forall i | 0 <= i < |r| && !IsDigit(r[i]) ensures i < 64 {
      assert r[i] == CaseAt(address, hash, i);
    }
    forall i | 0 <= i < |r| ensures Checksum(r, hash)[i] == r[i] {
      assert r[i] == CaseAt(address, hash, i);
    }
  }

  /** Any 40-character address (the only length the search produces) can be cased. */
  lemma FortyCharactersFit(address: string)
    requires |address| == 40
    ensures WithinDigest(address)
  {
  }

  /** A 65-letter input cannot: its last letter would need nibble 64 of a 64-nibble digest. */
  lemma SixtyFiveLettersOverrun()
    ensures !WithinDigest(seq(65, _ => 'a'))
  {
    var a := seq(65, _ => 'a');
    assert !IsDigit(a[64]);
  }
}
