/** The ISO-8859-1 step of the replay path: response bytes are stored as
    `new String(bytes, ISO_8859_1)` and read back with
    `getBytes(ISO_8859_1)`. Bytes are the unsigned view 0..255 of Java's
    signed `byte` (the charset decodes `b & 0xff`). */
module Latin1 {

  newtype byte = x: int | 0 <= x < 256

  type Bytes = seq<byte>

  /** The ISO-8859-1 code of a character, or none above U+00FF. */
  predicate InRange(c: char) {
    c as int < 256
  }

  /** `new String(bytes, ISO_8859_1)`: byte b becomes the character U+00b. */
  function Decode(bs: Bytes): (s: string)
    ensures |s| == |bs|
    ensures forall i :: 0 <= i < |bs| ==> s[i] as int == bs[i] as int
  {
    if bs == [] then [] else [(bs[0] as int) as char] + Decode(bs[1..])
  }

  /** `s.getBytes(ISO_8859_1)`: a character above U+00FF cannot be mapped
      and becomes the charset's replacement byte '?' (0x3F). */
  function Encode(s: string): (bs: Bytes)
    ensures |bs| == |s|
    ensures forall i :: 0 <= i < |s| ==> bs[i] as int == if InRange(s[i]) then s[i] as int else 0x3F
  {
    if s == [] then [] else [if InRange(s[0]) then (s[0] as int) as byte else 0x3F] + Encode(s[1..])
  }

  /** Every decoded string is in range, so nothing is replaced on the way back. */
  lemma DecodeInRange(bs: Bytes)
    ensures forall i :: 0 <= i < |Decode(bs)| ==> InRange(Decode(bs)[i])
  {
  }

  /** Bytes survive the trip through the string exactly. */
  lemma {:induction false} RoundTrip(bs: Bytes)
    ensures Encode(Decode(bs)) == bs
  {
    if bs != [] {
      RoundTrip(bs[1..]);
      assert Decode(bs) == [(bs[0] as int) as char] + Decode(bs[1..]);
      assert Encode(Decode(bs)) == [bs[0]] + Encode(Decode(bs[1..]));
    }
  }

  /** A string of ISO-8859-1 characters survives the trip through bytes. */
  lemma {:induction false} RoundTripString(s: string)
    requires forall i :: 0 <= i < |s| ==> InRange(s[i])
    ensures Decode(Encode(s)) == s
  {
    if s != [] {
      RoundTripString(s[1..]);
      assert Encode(s) == [(s[0] as int) as byte] + Encode(s[1..]);
      assert Decode(Encode(s)) == [s[0]] + Decode(Encode(s[1..]));
    }
  }

  /** A character outside ISO-8859-1 is lost: the trip is not injective on strings. */
  lemma OutOfRangeIsLost()
    ensures Encode("\U{4E2D}") == Encode("?")
  {
  }
}
