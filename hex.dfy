/**
 * Base16 as the `hex` crate writes and reads it (section 8 of RFC 4648):
 * `hex::encode` emits lower-case digits, `hex::decode` accepts either case
 * and fails on an odd length or a non-hex character. Python's
 * `hexdigest()` produces the same text as `Encode`.
 */
module Hex {
  import opened Wrappers
  import opened Strings
  import opened Bytes

  /** The lower-case digit for a nibble, `0123456789abcdef`. */
  function DigitChar(n: nat): (c: char)
    requires n < 16
    ensures IsLowerHexDigit(c)
  {
    if n < 10 then ('0' as int + n) as char else ('a' as int + n - 10) as char
  }

  /** The value of one base16 digit, either case; `None` for any other character. */
  function DigitValue(c: char): (r: Option<nat>)
    ensures r.Some? <==> IsHexDigit(c)
    ensures r.Some? ==> r.value < 16
  {
    if IsDigit(c) then Some(c as int - '0' as int)
    else if 'a' <= c <= 'f' then Some(c as int - 'a' as int + 10)
    else if 'A' <= c <= 'F' then Some(c as int - 'A' as int + 10)
    else None
  }

  /** Nibble `i` of `bs`: the high half of byte i/2 for even i, the low half for odd i. */
  function Nibble(bs: seq<byte>, i: nat): (n: nat)
    requires i < 2 * |bs|
    ensures n < 16
  {
    if i % 2 == 0 then bs[i / 2] / 16 else bs[i / 2] % 16
  }

  /** `hex::encode`: two lower-case digits per byte, high nibble first. */
  function Encode(bs: seq<byte>): (s: string)
    ensures |s| == 2 * |bs|
  {
    if bs == [] then [] else [DigitChar(bs[0] / 16), DigitChar(bs[0] % 16)] + Encode(bs[1..])
  }

  /** `hex::decode`. */
  function Decode(s: string): (r: Option<seq<byte>>)
    ensures r.Some? ==> 2 * |r.value| == |s|
  {
    if |s| == 0 then Some([])
    else if |s| == 1 then None
    else
      match (DigitValue(s[0]), DigitValue(s[1]), Decode(s[2..]))
      case (Some(h), Some(l), Some(rest)) => Some([h * 16 + l] + rest)
      case _ => None
  }

  /** Character `i` of the encoding is the digit of nibble `i`. */
  lemma {:induction false} EncodeAt(bs: seq<byte>, i: nat)
    requires i < 2 * |bs|
    ensures Encode(bs)[i] == DigitChar(Nibble(bs, i))
  {
    if i >= 2 {
      EncodeAt(bs[1..], i - 2);
      assert Encode(bs)[i] == Encode(bs[1..])[i - 2];
    }
  }

  /** Reading digit `i` of the encoding back gives nibble `i` (Python's `int(hexdigest[i], 16)`). */
  lemma DigitValueAt(bs: seq<byte>, i: nat)
    requires i < 2 * |bs|
    ensures DigitValue(Encode(bs)[i]) == Some(Nibble(bs, i))
  {
    EncodeAt(bs, i);
    DigitRoundTrip(Nibble(bs, i));
  }

  /** Reading a digit back gives its nibble. */
  lemma DigitRoundTrip(n: nat)
    requires n < 16
    ensures DigitValue(DigitChar(n)) == Some(n)
  {
  }

  /** Every character of an encoding is a lower-case base16 digit. */
  lemma EncodeIsLowerHex(bs: seq<byte>)
    ensures forall i :: 0 <= i < |Encode(bs)| ==> IsLowerHexDigit(Encode(bs)[i])
  {
    forall i | 0 <= i < |Encode(bs)| ensures IsLowerHexDigit(Encode(bs)[i]) {
      EncodeAt(bs, i);
    }
  }

  /** Round trip: decoding an encoding gives the bytes back. */
  lemma {:induction false} DecodeEncode(bs: seq<byte>)
    ensures Decode(Encode(bs)) == Some(bs)
  {
    if bs != [] {
      var s := Encode(bs);
      DecodeEncode(bs[1..]);
      assert s[2..] == Encode(bs[1..]);
      assert DigitValue(s[0]) == Some(bs[0] / 16);
      assert DigitValue(s[1]) == Some(bs[0] % 16);
      assert [bs[0]] + bs[1..] == bs;
    }
  }

  /** Round trip the other way: what decodes re-encodes to its lower-case form. */
  lemma {:induction false} EncodeDecode(s: string)
    requires Decode(s).Some?
    ensures Encode(Decode(s).value) == Lower(s)
  {
    if |s| >= 2 {
      var bs := Decode(s).value;
      EncodeDecode(s[2..]);
      assert bs[1..] == Decode(s[2..]).value;
      var h, l := DigitValue(s[0]).value, DigitValue(s[1]).value;
      assert bs[0] / 16 == h && bs[0] % 16 == l;
      assert DigitChar(h) == ToLower(s[0]);
      assert DigitChar(l) == ToLower(s[1]);
      assert Lower(s) == [ToLower(s[0]), ToLower(s[1])] + Lower(s[2..]);
    }
  }
}
