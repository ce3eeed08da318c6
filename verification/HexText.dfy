/** Bytes written as hex digits, two a byte, and read back from digits of either case. */
module HexText {
  import opened Wrappers

  newtype byte = n: int | 0 <= n < 256

  /** A digit's character, as the byte it is in the text. */
  function Digit(n: nat): byte
    requires n < 16
  {
    (if n < 10 then 48 + n else 87 + n) as byte
  }

  /** What a digit of either case stands for. */
  function Value(c: byte): Option<nat> {
    if 48 <= c <= 57 then Some(c as nat - 48)
    else if 97 <= c <= 102 then Some(c as nat - 87)
    else if 65 <= c <= 70 then Some(c as nat - 55)
    else None
  }

  function Lower(c: byte): byte { if 65 <= c <= 90 then c + 32 else c }

  function Encoded(bytes: seq<byte>): seq<byte> {
    if bytes == [] then []
    else Encoded(bytes[..|bytes| - 1]) + Pair(bytes[|bytes| - 1])
  }

  /** A byte's two digits, the high one first. */
  function Pair(b: byte): seq<byte> { [Digit(b as nat / 16), Digit(b as nat % 16)] }

  method Encode(bytes: seq<byte>) returns (text: seq<byte>)
    ensures text == Encoded(bytes)
  {
    text := [];
    for i := 0 to |bytes|
      invariant text == Encoded(bytes[..i])
    {
      assert bytes[..i + 1][..i] == bytes[..i];
      text := text + [Digit(bytes[i] as nat / 16)];
      text := text + [Digit(bytes[i] as nat % 16)];
    }
    assert bytes[..|bytes|] == bytes;
  }

  /** The bytes of a text of pairs of digits; none for any other text. */
  function Decode(text: seq<byte>): Option<seq<byte>> {
    if text == [] then Some([])
    else if |text| == 1 then None
    else match (Value(text[0]), Value(text[1]))
      case (Some(high), Some(low)) =>
        (match Decode(text[2..])
         case Some(rest) => Some([(16 * high + low) as byte] + rest)
         case None => None)
      case _ => None
  }

  lemma PairDecodes(b: byte)
    ensures Decode(Pair(b)) == Some([b])
  {
    assert Pair(b)[2..] == [];
    assert Decode([]) == Some([]) && [b] + [] == [b];
  }

  lemma {:induction false} DecodeAppends(text: seq<byte>, b: byte)
    requires Decode(text).Some?
    ensures Decode(text + Pair(b)) == Some(Decode(text).value + [b])
  {
    if text == [] {
      assert text + Pair(b) == Pair(b) && Decode(text).value + [b] == [b];
      PairDecodes(b);
    } else {
      assert (text + Pair(b))[2..] == text[2..] + Pair(b);
      DecodeAppends(text[2..], b);
      var first := [Decode(text).value[0]];
      assert first + (Decode(text[2..]).value + [b]) == first + Decode(text[2..]).value + [b];
    }
  }

  const DIGITS: seq<byte> := [48, 49, 50, 51, 52, 53, 54, 55, 56, 57, 97, 98, 99, 100, 101, 102]

  lemma DigitIsListed(n: nat)
    requires n < 16
    ensures Digit(n) == DIGITS[n]
  {
  }

  lemma SplitsAt16(high: nat, low: nat)
    requires high < 16 && low < 16
    ensures (16 * high + low) / 16 == high && (16 * high + low) % 16 == low
  {
  }

  /** A byte is written as the digits of its sixteens and of what is left, in that order. */
  lemma SixteensComeFirst(high: nat, low: nat)
    requires high < 16 && low < 16
    ensures Encoded([(16 * high + low) as byte]) == [DIGITS[high], DIGITS[low]]
  {
    var bytes := [(16 * high + low) as byte];
    assert bytes[..0] == [] && Encoded([]) == [];
    SplitsAt16(high, low);
    DigitIsListed(high);
    DigitIsListed(low);
    assert Encoded(bytes) == [] + Pair(bytes[0]);
  }

  /** A digit of a text, of either case. */
  predicate IsHexDigit(c: byte) { 48 <= c <= 57 || 97 <= c <= 102 || 65 <= c <= 70 }

  /** What is written is read back. */
  lemma {:induction false} RoundTrip(bytes: seq<byte>)
    ensures Decode(Encoded(bytes)) == Some(bytes)
  {
    if bytes != [] {
      RoundTrip(bytes[..|bytes| - 1]);
      DecodeAppends(Encoded(bytes[..|bytes| - 1]), bytes[|bytes| - 1]);
      assert bytes[..|bytes| - 1] + [bytes[|bytes| - 1]] == bytes;
    }
  }

  /** A text is read exactly if it is an even count of hex digits. */
  lemma {:induction false} ReadsExactlyHex(text: seq<byte>)
    ensures Decode(text).Some? <==> |text| % 2 == 0 && forall i :: 0 <= i < |text| ==> IsHexDigit(text[i])
  {
    if |text| >= 2 {
      ReadsExactlyHex(text[2..]);
      assert forall i :: 2 <= i < |text| ==> text[i] == text[2..][i - 2];
    }
  }

  lemma {:induction false} EncodedFirst(first: byte, rest: seq<byte>)
    ensures Encoded([first] + rest) == Pair(first) + Encoded(rest)
  {
    var all := [first] + rest;
    if rest == [] {
      assert all[..0] == [];
    } else {
      assert all[..|all| - 1] == [first] + rest[..|rest| - 1];
      EncodedFirst(first, rest[..|rest| - 1]);
    }
  }

  lemma LowerIsWritten(c: byte, d: byte)
    requires Value(c).Some? && Value(d).Some?
    ensures Pair((16 * Value(c).value + Value(d).value) as byte) == [Lower(c), Lower(d)]
  {
  }

  /** What is read is written back in lower case. */
  lemma {:induction false} WritesBackLower(text: seq<byte>)
    requires Decode(text).Some?
    ensures |Encoded(Decode(text).value)| == |text|
    ensures forall i :: 0 <= i < |text| ==> Encoded(Decode(text).value)[i] == Lower(text[i])
  {
    if text != [] {
      var rest := Decode(text[2..]).value;
      WritesBackLower(text[2..]);
      LowerIsWritten(text[0], text[1]);
      EncodedFirst(Decode(text).value[0], rest);
      assert forall i :: 2 <= i < |text| ==> text[i] == text[2..][i - 2];
    }
  }
}
