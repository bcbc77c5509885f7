/** The two encodings Node's `Buffer` offers and the services use: standard
    base64 with '=' padding (section 4 of RFC 4648) and unpadded base64url
    (section 5 of RFC 4648), plus base64url decoding of canonical input. */
module Base64 {
  import opened Wrappers

  type byte = b: int | 0 <= b < 256

  /** The 64-character alphabets differ only in the last two characters */
  datatype Alphabet = Standard | UrlSafe

  /** Character `i` of an alphabet */
  function CharOf(a: Alphabet, i: nat): char
    requires i < 64
  {
    if i < 26 then ('A' as int + i) as char
    else if i < 52 then ('a' as int + (i - 26)) as char
    else if i < 62 then ('0' as int + (i - 52)) as char
    else if i == 62 then (if a == UrlSafe then '-' else '+')
    else (if a == UrlSafe then '_' else '/')
  }

  /** Position of `c` in the base64url alphabet, if it is there */
  function UrlIndex(c: char): Option<nat> {
    if 'A' <= c <= 'Z' then Some(c as int - 'A' as int)
    else if 'a' <= c <= 'z' then Some(c as int - 'a' as int + 26)
    else if '0' <= c <= '9' then Some(c as int - '0' as int + 52)
    else if c == '-' then Some(62)
    else if c == '_' then Some(63)
    else None
  }

  predicate IsUrlChar(c: char) {
    UrlIndex(c).Some?
  }

  predicate IsStandardChar(c: char) {
    ('A' <= c <= 'Z') || ('a' <= c <= 'z') || ('0' <= c <= '9') || c == '+' || c == '/' || c == '='
  }

  /** Three bytes become four characters; a final one or two bytes become two
      or three characters, followed by "==" or "=" when padding is on. */
  function Encode(a: Alphabet, pad: bool, d: seq<byte>): string
    decreases |d|
  {
    if |d| == 0 then ""
    else if |d| == 1 then
      [CharOf(a, d[0] / 4), CharOf(a, (d[0] % 4) * 16)] + (if pad then "==" else "")
    else if |d| == 2 then
      [CharOf(a, d[0] / 4), CharOf(a, (d[0] % 4) * 16 + d[1] / 16), CharOf(a, (d[1] % 16) * 4)]
      + (if pad then "=" else "")
    else
      [CharOf(a, d[0] / 4), CharOf(a, (d[0] % 4) * 16 + d[1] / 16),
       CharOf(a, (d[1] % 16) * 4 + d[2] / 64), CharOf(a, d[2] % 64)]
      + Encode(a, pad, d[3..])
  }

  /** `Buffer.toString('base64url')` */
  function EncodeUrl(d: seq<byte>): string {
    Encode(UrlSafe, false, d)
  }

  /** `Buffer.toString('base64')` */
  function EncodeStandard(d: seq<byte>): string {
    Encode(Standard, true, d)
  }

  /** Base64url decoding of unpadded input; None for a character outside the
      alphabet or a length of the form 4k + 1, which no byte string encodes to. */
  function DecodeUrl(s: string): Option<seq<byte>>
    decreases |s|
  {
    if |s| == 0 then Some([])
    else if |s| == 1 then None
    else if UrlIndex(s[0]).None? || UrlIndex(s[1]).None? then None
    else
      var i0, i1 := UrlIndex(s[0]).value, UrlIndex(s[1]).value;
      var b0: byte := i0 * 4 % 256 + i1 / 16;
      if |s| == 2 then Some([b0])
      else if UrlIndex(s[2]).None? then None
      else
        var i2 := UrlIndex(s[2]).value;
        var b1: byte := (i1 % 16) * 16 + i2 / 4;
        if |s| == 3 then Some([b0, b1])
        else if UrlIndex(s[3]).None? then None
        else
          var i3 := UrlIndex(s[3]).value;
          var b2: byte := (i2 % 4) * 64 + i3;
          match DecodeUrl(s[4..])
          case None => None
          case Some(rest) => Some([b0, b1, b2] + rest)
  }

  // ---------------------------------------------------------------------
  // Lemmas

  lemma UrlIndexOfCharOf(i: nat)
    requires i < 64
    ensures UrlIndex(CharOf(UrlSafe, i)) == Some(i)
  {
  }

  /** Every character of a base64url text is in the base64url alphabet, so
      none of them is '.' */
  lemma {:induction false} EncodeUrlAlphabet(d: seq<byte>)
    ensures forall k :: 0 <= k < |EncodeUrl(d)| ==> IsUrlChar(EncodeUrl(d)[k])
    ensures '.' !in EncodeUrl(d)
    decreases |d|
  {
    var e := EncodeUrl(d);
    if |d| >= 3 {
      EncodeUrlAlphabet(d[3..]);
      forall k | 0 <= k < |e| ensures IsUrlChar(e[k]) {
        if k >= 4 {
          assert e[k] == EncodeUrl(d[3..])[k - 4];
        }
      }
    }
    assert !IsUrlChar('.');
  }

  /** Every character of a standard base64 text is in the standard alphabet
      or is padding */
  lemma {:induction false} EncodeStandardAlphabet(d: seq<byte>)
    ensures forall k :: 0 <= k < |EncodeStandard(d)| ==> IsStandardChar(EncodeStandard(d)[k])
    decreases |d|
  {
    var e := EncodeStandard(d);
    if |d| >= 3 {
      EncodeStandardAlphabet(d[3..]);
      forall k | 0 <= k < |e| ensures IsStandardChar(e[k]) {
        if k >= 4 {
          assert e[k] == EncodeStandard(d[3..])[k - 4];
        }
      }
    }
  }

  lemma {:induction false} EncodeLength(a: Alphabet, pad: bool, d: seq<byte>)
    ensures !pad ==> |Encode(a, pad, d)| == (4 * |d| + 2) / 3
    ensures pad ==> |Encode(a, pad, d)| == 4 * ((|d| + 2) / 3)
    decreases |d|
  {
    if |d| >= 3 {
      EncodeLength(a, pad, d[3..]);
    }
  }

  /** The padded and the unpadded encodings of the same bytes differ whenever
      the byte count is not a multiple of three: the unpadded one is then not
      a multiple of four characters long. */
  lemma EncodingsDiffer(d: seq<byte>)
    requires |d| % 3 != 0
    ensures EncodeUrl(d) != EncodeStandard(d)
    ensures |EncodeUrl(d)| < |EncodeStandard(d)|
  {
    EncodeLength(UrlSafe, false, d);
    EncodeLength(Standard, true, d);
    var q, r := |d| / 3, |d| % 3;
    assert |d| == 3 * q + r;
    if r == 1 {
      assert (4 * |d| + 2) / 3 == 4 * q + 2;
      assert 4 * ((|d| + 2) / 3) == 4 * q + 4;
    } else {
      assert (4 * |d| + 2) / 3 == 4 * q + 3;
      assert 4 * ((|d| + 2) / 3) == 4 * q + 4;
    }
  }

  lemma DecodeGroup(b0: byte, b1: byte, b2: byte)
    ensures (b0 / 4) * 4 % 256 + ((b0 % 4) * 16 + b1 / 16) / 16 == b0
    ensures (((b0 % 4) * 16 + b1 / 16) % 16) * 16 + ((b1 % 16) * 4 + b2 / 64) / 4 == b1
    ensures (((b1 % 16) * 4 + b2 / 64) % 4) * 64 + b2 % 64 == b2
  {
  }

  lemma DecodeOneByte(b0: byte)
    ensures DecodeUrl(EncodeUrl([b0])) == Some([b0])
  {
    var e := EncodeUrl([b0]);
    UrlIndexOfCharOf(b0 / 4);
    UrlIndexOfCharOf((b0 % 4) * 16);
    DecodeGroup(b0, 0, 0);
    assert e == [CharOf(UrlSafe, b0 / 4), CharOf(UrlSafe, (b0 % 4) * 16)];
  }

  lemma DecodeTwoBytes(b0: byte, b1: byte)
    ensures DecodeUrl(EncodeUrl([b0, b1])) == Some([b0, b1])
  {
    var e := EncodeUrl([b0, b1]);
    UrlIndexOfCharOf(b0 / 4);
    UrlIndexOfCharOf((b0 % 4) * 16 + b1 / 16);
    UrlIndexOfCharOf((b1 % 16) * 4);
    DecodeGroup(b0, b1, 0);
    assert e == [CharOf(UrlSafe, b0 / 4), CharOf(UrlSafe, (b0 % 4) * 16 + b1 / 16),
                 CharOf(UrlSafe, (b1 % 16) * 4)];
  }

  /** Decoding a full group of four characters gives back its three bytes
      and continues with the rest of the text */
  lemma DecodeFullGroup(d: seq<byte>)
    requires |d| >= 3
    ensures DecodeUrl(EncodeUrl(d)) ==
      match DecodeUrl(EncodeUrl(d[3..]))
      case None => None
      case Some(rest) => Some([d[0], d[1], d[2]] + rest)
  {
    var e := EncodeUrl(d);
    UrlIndexOfCharOf(d[0] / 4);
    UrlIndexOfCharOf((d[0] % 4) * 16 + d[1] / 16);
    UrlIndexOfCharOf((d[1] % 16) * 4 + d[2] / 64);
    UrlIndexOfCharOf(d[2] % 64);
    DecodeGroup(d[0], d[1], d[2]);
    assert e[4..] == EncodeUrl(d[3..]);
  }

  /** Base64url decoding inverts base64url encoding */
  lemma {:induction false} DecodeEncodeUrl(d: seq<byte>)
    ensures DecodeUrl(EncodeUrl(d)) == Some(d)
    decreases |d|
  {
    if |d| == 0 {
    } else if |d| == 1 {
      DecodeOneByte(d[0]);
      assert d == [d[0]];
    } else if |d| == 2 {
      DecodeTwoBytes(d[0], d[1]);
      assert d == [d[0], d[1]];
    } else {
      DecodeFullGroup(d);
      DecodeEncodeUrl(d[3..]);
      assert d == [d[0], d[1], d[2]] + d[3..];
    }
  }

  /** Different byte strings have different base64url texts */
  lemma EncodeUrlInjective(d1: seq<byte>, d2: seq<byte>)
    requires EncodeUrl(d1) == EncodeUrl(d2)
    ensures d1 == d2
  {
    DecodeEncodeUrl(d1);
    DecodeEncodeUrl(d2);
  }
}
