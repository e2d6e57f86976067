/**
 * Percent-encoding of UTF-8 bytes with the NON_ALPHANUMERIC set: every byte that
 * is not an ASCII letter or digit becomes `%` followed by two upper-case hex
 * digits (section 2.1 of RFC 3986). `Decode` is the strict inverse used by the
 * reference router.
 */
module PercentEncoding {
  import opened Wrappers

  predicate IsAlnumByte(b: u8) {
    48 <= b <= 57 || 65 <= b <= 90 || 97 <= b <= 122
  }

  predicate IsAlnumChar(c: char) {
    '0' <= c <= '9' || 'A' <= c <= 'Z' || 'a' <= c <= 'z'
  }

  /** A character that can occur in encoded text: a letter, a digit or `%`. */
  predicate IsEncodedChar(c: char) {
    IsAlnumChar(c) || c == '%'
  }

  function HexDigit(n: int): (c: char)
    requires 0 <= n < 16
    ensures IsAlnumChar(c)
  {
    "0123456789ABCDEF"[n]
  }

  /** The value of a hex digit of either case. */
  function HexValue(c: char): (r: Option<int>)
    ensures r.Some? ==> 0 <= r.value < 16
  {
    if '0' <= c <= '9' then Some(c as int - '0' as int)
    else if 'A' <= c <= 'F' then Some(c as int - 'A' as int + 10)
    else if 'a' <= c <= 'f' then Some(c as int - 'a' as int + 10)
    else None
  }

  lemma HexValueOfDigit(n: int)
    requires 0 <= n < 16
    ensures HexValue(HexDigit(n)) == Some(n)
  {
  }

  function EncodeByte(b: u8): (s: string)
    ensures forall i :: 0 <= i < |s| ==> IsEncodedChar(s[i])
  {
    if IsAlnumByte(b) then [(b as int) as char]
    else ['%', HexDigit(b as int / 16), HexDigit(b as int % 16)]
  }

  /** `utf8_percent_encode(_, NON_ALPHANUMERIC)` on the UTF-8 bytes of a string. */
  function Encode(bs: seq<u8>): string {
    if bs == [] then "" else EncodeByte(bs[0]) + Encode(bs[1..])
  }

  /** Encoded text is made of letters, digits and `%` only. */
  lemma {:induction false} EncodeChars(bs: seq<u8>)
    ensures forall i :: 0 <= i < |Encode(bs)| ==> IsEncodedChar(Encode(bs)[i])
  {
    if bs != [] {
      EncodeChars(bs[1..]);
      var head, tail := EncodeByte(bs[0]), Encode(bs[1..]);
      assert Encode(bs) == head + tail;
      assert forall i :: |head| <= i < |head| + |tail| ==> (head + tail)[i] == tail[i - |head|];
    }
  }

  /** Decodes text made of letters, digits and `%XX` escapes; anything else fails. */
  function Decode(s: string): (r: Option<seq<u8>>)
    decreases |s|
  {
    if s == [] then Some([])
    else if s[0] == '%' then
      if |s| >= 3 && HexValue(s[1]).Some? && HexValue(s[2]).Some? then
        match Decode(s[3..])
        case None => None
        case Some(rest) => Some([(HexValue(s[1]).value * 16 + HexValue(s[2]).value) as u8] + rest)
      else None
    else if IsAlnumChar(s[0]) then
      match Decode(s[1..])
      case None => None
      case Some(rest) => Some([(s[0] as int) as u8] + rest)
    else None
  }

  lemma DecodeEncodeByte(b: u8, t: string)
    ensures Decode(EncodeByte(b) + t) ==
      match Decode(t)
      case None => None
      case Some(rest) => Some([b] + rest)
  {
    var s := EncodeByte(b) + t;
    if IsAlnumByte(b) {
      assert s[0] == (b as int) as char && s[1..] == t;
    } else {
      HexValueOfDigit(b as int / 16);
      HexValueOfDigit(b as int % 16);
      assert s[0] == '%' && s[3..] == t;
    }
  }

  /** Decoding undoes encoding, so `Encode` is injective. */
  lemma {:induction false} DecodeEncode(bs: seq<u8>)
    ensures Decode(Encode(bs)) == Some(bs)
  {
    if bs != [] {
      DecodeEncode(bs[1..]);
      DecodeEncodeByte(bs[0], Encode(bs[1..]));
      assert [bs[0]] + bs[1..] == bs;
    }
  }

  lemma EncodeInjective(a: seq<u8>, b: seq<u8>)
    requires Encode(a) == Encode(b)
    ensures a == b
  {
    DecodeEncode(a);
    DecodeEncode(b);
  }

  /** Encoded text holds neither the path separator `/` nor the query marker `?`. */
  lemma EncodeHasNoSeparator(bs: seq<u8>)
    ensures '/' !in Encode(bs) && '?' !in Encode(bs)
  {
    EncodeChars(bs);
  }
}
