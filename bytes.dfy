/** Byte strings as the socket sees them (Qt's QByteArray). */
module Bytes {

  newtype Byte = b: int | 0 <= b < 256

  type Bytes = seq<Byte>

  /** The bytes of a text literal: each character contributes its low eight bits,
      which for the ASCII literals of the protocols is the character code itself. */
  function Ascii(s: string): Bytes
  {
    seq(|s|, i requires 0 <= i < |s| => (s[i] as int % 256) as Byte)
  }

  /** Every character of `s` fits in one byte. */
  predicate IsByteText(s: string)
  {
    forall i :: 0 <= i < |s| ==> s[i] as int < 256
  }

  /** Literals made of one-byte characters keep their identity as bytes: two
      different such literals are never the same byte string. */
  lemma AsciiInjective(s: string, t: string)
    requires IsByteText(s) && IsByteText(t)
    ensures Ascii(s) == Ascii(t) <==> s == t
  {
    if Ascii(s) == Ascii(t) {
      assert |s| == |Ascii(s)| == |t|;
      forall i | 0 <= i < |s|
        ensures s[i] == t[i]
      {
        assert Ascii(s)[i] == Ascii(t)[i];
      }
    }
  }

  /** QByteArray::startsWith for a non-empty prefix: the leading bytes of `data` are `prefix`. */
  predicate StartsWith(data: Bytes, prefix: Bytes)
  {
    |prefix| <= |data| && data[..|prefix|] == prefix
  }
}
