/**
 * The canonical text form of a UUID (section 3 of RFC 4122): 32 hexadecimal
 * digits in groups of 8-4-4-4-12 separated by hyphens. `Format` is what the
 * gofrs `UUID.String` method produces (lower-case digits) and `Parse` is the
 * 36-character branch of its `FromString`, which accepts digits of either case.
 */
module Uuid {
  import opened Wrappers

  type Byte = x: int | 0 <= x < 256

  /** The 16 bytes of a UUID, as `UUID.Bytes` returns them. */
  type UUID = s: seq<Byte> | |s| == 16 witness [0, 0, 0, 0, 0, 0, 0, 0, 0, 0, 0, 0, 0, 0, 0, 0]

  /** Lower-case hexadecimal digit of a nibble. */
  function HexDigit(n: nat): (c: char)
    requires n < 16
    ensures '0' <= c <= '9' || 'a' <= c <= 'f'
  {
    if n < 10 then (48 + n) as char else (87 + n) as char
  }

  /** Value of a hexadecimal digit of either case; None for any other character. */
  function HexValue(c: char): (r: Option<nat>)
    ensures r.Some? <==> ('0' <= c <= '9' || 'a' <= c <= 'f' || 'A' <= c <= 'F')
    ensures r.Some? ==> r.value < 16
  {
    if '0' <= c <= '9' then Some(c as int - 48)
    else if 'a' <= c <= 'f' then Some(c as int - 87)
    else if 'A' <= c <= 'F' then Some(c as int - 55)
    else None
  }

  /** Two digits per byte, high nibble first. */
  function HexEncode(bs: seq<Byte>): (s: string)
    ensures |s| == 2 * |bs|
    ensures forall i :: 0 <= i < |s| ==> HexValue(s[i]).Some?
  {
    if bs == [] then []
    else [HexDigit(bs[0] / 16), HexDigit(bs[0] % 16)] + HexEncode(bs[1..])
  }

  /** Inverse of HexEncode on digit strings of even length; None on any non-digit or an odd length. */
  function HexDecode(s: string): (r: Option<seq<Byte>>)
    ensures r.Some? ==> 2 * |r.value| == |s|
    // every even-length string of hexadecimal digits, of either case, decodes
    ensures r.Some? <==> |s| % 2 == 0 && forall i :: 0 <= i < |s| ==> HexValue(s[i]).Some?
  {
    if |s| == 0 then Some([])
    else if |s| == 1 then None
    else
      match (HexValue(s[0]), HexValue(s[1]), HexDecode(s[2..]))
      case (Some(hi), Some(lo), Some(rest)) => Some([hi * 16 + lo] + rest)
      case _ => None
  }

  /** Decoding what was encoded gives back the bytes. */
  lemma {:induction false} HexRoundTrip(bs: seq<Byte>)
    ensures HexDecode(HexEncode(bs)) == Some(bs)
  {
    if bs != [] {
      var s := HexEncode(bs);
      assert s[2..] == HexEncode(bs[1..]);
      HexRoundTrip(bs[1..]);
      assert HexValue(s[0]) == Some(bs[0] / 16);
      assert HexValue(s[1]) == Some(bs[0] % 16);
      assert [bs[0]] + bs[1..] == bs;
    }
  }

  /** The canonical 8-4-4-4-12 text of a UUID. */
  function Format(id: UUID): (s: string)
    ensures |s| == 36
    ensures s[8] == '-' && s[13] == '-' && s[18] == '-' && s[23] == '-'
  {
    var h := HexEncode(id);
    h[..8] + "-" + h[8..12] + "-" + h[12..16] + "-" + h[16..20] + "-" + h[20..]
  }

  predicate HyphensInPlace(s: string)
    requires |s| == 36
  {
    s[8] == '-' && s[13] == '-' && s[18] == '-' && s[23] == '-'
  }

  /** The 32 digit positions of a 36-character canonical text, hyphens removed. */
  function Digits(s: string): (d: string)
    requires |s| == 36
    ensures |d| == 32
  {
    s[..8] + s[9..13] + s[14..18] + s[19..23] + s[24..]
  }

  /** A 36-character text with hyphens at 8, 13, 18 and 23 and a hexadecimal digit, of either case, everywhere else. */
  predicate CanonicalText(s: string)
  {
    && |s| == 36
    && HyphensInPlace(s)
    && forall i :: 0 <= i < 36 && i != 8 && i != 13 && i != 18 && i != 23 ==> HexValue(s[i]).Some?
  }

  /** The digit positions of a text hold digits exactly when the hyphen-free digit string does. */
  lemma DigitsAreHex(s: string)
    requires |s| == 36 && HyphensInPlace(s)
    ensures (forall k :: 0 <= k < 32 ==> HexValue(Digits(s)[k]).Some?) <==> CanonicalText(s)
  {
    var d := Digits(s);
    forall i | 0 <= i < 36 && i != 8 && i != 13 && i != 18 && i != 23
      ensures exists k :: 0 <= k < 32 && d[k] == s[i]
    {
      var k := if i < 8 then i else if i < 13 then i - 1 else if i < 18 then i - 2 else if i < 23 then i - 3 else i - 4;
      assert d[k] == s[i];
    }
    forall k | 0 <= k < 32
      ensures exists i :: 0 <= i < 36 && i != 8 && i != 13 && i != 18 && i != 23 && d[k] == s[i]
    {
      var i := if k < 8 then k else if k < 12 then k + 1 else if k < 16 then k + 2 else if k < 20 then k + 3 else k + 4;
      assert d[k] == s[i];
    }
  }

  /** Parses the canonical text; fails on any other length, a misplaced hyphen or a non-digit. */
  function Parse(s: string): (r: Option<UUID>)
    // exactly the canonical texts parse, in either case
    ensures r.Some? <==> CanonicalText(s)
    ensures r.Some? ==> HexDecode(Digits(s)) == Some(r.value)
  {
    if |s| != 36 || !HyphensInPlace(s) then None
    else
      DigitsAreHex(s);
      match HexDecode(Digits(s))
      case Some(bs) => Some(bs)
      case None => None
  }

  /** The text that `Format` produces always parses, and to the same UUID. */
  lemma ParseFormat(id: UUID)
    ensures Parse(Format(id)) == Some(id)
  {
    var h := HexEncode(id);
    var s := Format(id);
    assert s[..8] == h[..8];
    assert s[9..13] == h[8..12];
    assert s[14..18] == h[12..16];
    assert s[19..23] == h[16..20];
    assert s[24..] == h[20..];
    assert h[..8] + h[8..12] + h[12..16] + h[16..20] + h[20..] == h;
    HexRoundTrip(id);
  }

  /** Lower-case form of a hexadecimal letter; every other character is kept. */
  function LowerHex(c: char): char
  {
    if 'A' <= c <= 'F' then (c as int + 32) as char else c
  }

  function Lower(s: string): (t: string)
    ensures |t| == |s|
  {
    seq(|s|, i requires 0 <= i < |s| => LowerHex(s[i]))
  }

  /** Encoding what was decoded gives back the digits, in lower case. */
  lemma {:induction false} HexEncodeDecode(s: string)
    requires HexDecode(s).Some?
    ensures HexEncode(HexDecode(s).value) == Lower(s)
  {
    if |s| != 0 {
      var bs := HexDecode(s).value;
      var hi, lo := HexValue(s[0]).value, HexValue(s[1]).value;
      HexEncodeDecode(s[2..]);
      assert bs[0] == hi * 16 + lo && bs[1..] == HexDecode(s[2..]).value;
      assert bs[0] / 16 == hi && bs[0] % 16 == lo;
      assert Lower(s) == [LowerHex(s[0]), LowerHex(s[1])] + Lower(s[2..]);
    }
  }

  /** A parsed text is the canonical text of its UUID, up to the case of its digits. */
  lemma FormatParse(s: string)
    requires Parse(s).Some?
    ensures Format(Parse(s).value) == Lower(s)
  {
    var d := Digits(s);
    HexEncodeDecode(d);
    var h := HexEncode(Parse(s).value);
    assert h == Lower(d);
    var f := Format(Parse(s).value);
    forall k | 0 <= k < 36
      ensures f[k] == Lower(s)[k]
    {
      if k < 8 { assert f[k] == h[k] && d[k] == s[k]; }
      else if k == 8 || k == 13 || k == 18 || k == 23 { }
      else if k < 13 { assert f[k] == h[k - 1] && d[k - 1] == s[k]; }
      else if k < 18 { assert f[k] == h[k - 2] && d[k - 2] == s[k]; }
      else if k < 23 { assert f[k] == h[k - 3] && d[k - 3] == s[k]; }
      else { assert f[k] == h[k - 4] && d[k - 4] == s[k]; }
    }
  }
}
