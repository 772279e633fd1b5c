/** UTF-8 encoding of Unicode scalar values (`str.encode('utf-8')`), as in
    section 3 of RFC 3629. */
module Utf8 {
  import opened Bytes

  /** The bytes of one scalar value: one byte below U+0080, otherwise a lead
      byte of 0xC0 or more followed by continuation bytes 0x80-0xBF. */
  function EncodeChar(c: char): (r: seq<byte>)
    ensures 1 <= |r| <= 4
    ensures (|r| == 1) == (c as int < 0x80)
    ensures |r| == 1 ==> r[0] == c as int
    ensures |r| > 1 ==> r[0] >= 0xC0 && forall i :: 1 <= i < |r| ==> 0x80 <= r[i] < 0xC0
  {
    var n := c as int;
    if n < 0x80 then [n]
    else if n < 0x800 then [0xC0 + n / 64, 0x80 + n % 64]
    else if n < 0x10000 then [0xE0 + n / 4096, 0x80 + (n / 64) % 64, 0x80 + n % 64]
    else [0xF0 + n / 262144, 0x80 + (n / 4096) % 64, 0x80 + (n / 64) % 64, 0x80 + n % 64]
  }

  /** `s.encode('utf-8')`: ASCII text is encoded byte for byte. */
  function Encode(s: string): (r: seq<byte>)
    ensures |s| <= |r| <= 4 * |s|
    ensures (forall i :: 0 <= i < |s| ==> s[i] as int < 0x80) ==>
      |r| == |s| && forall i :: 0 <= i < |s| ==> r[i] == s[i] as int
  {
    if s == [] then [] else EncodeChar(s[0]) + Encode(s[1..])
  }

  lemma EncodeAppend(s: string, t: string)
    ensures Encode(s + t) == Encode(s) + Encode(t)
  {
    if s != [] {
      assert (s + t)[0] == s[0] && (s + t)[1..] == s[1..] + t;
      EncodeAppend(s[1..], t);
    } else {
      assert s + t == t;
    }
  }

  /** An ASCII byte such as ':' (0x3A) occurs in the encoding of a string
      exactly when that character occurs in the string: multi-byte sequences
      consist of bytes of 0x80 and above. */
  lemma {:induction false} AsciiByteIffChar(s: string, c: char)
    requires c as int < 0x80
    ensures (c as int in Encode(s)) <==> (c in s)
  {
    if s != [] {
      AsciiByteIffChar(s[1..], c);
      var e := EncodeChar(s[0]);
      assert Encode(s) == e + Encode(s[1..]);
      assert (c as int in e) <==> (c == s[0]);
      assert (c in s) <==> (c == s[0] || c in s[1..]);
    }
  }
}
