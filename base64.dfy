/** Base64 encoding with the standard alphabet and `=` padding, as in
    section 4 of RFC 4648 (Python's `base64.b64encode`), and its inverse. */
module Base64 {
  import opened Bytes
  import opened Py

  /** A 6-bit group: an index into the alphabet. */
  type sextet = x: int | 0 <= x < 64

  /** Table 1 of RFC 4648: A-Z, a-z, 0-9, '+', '/'. */
  function IndexChar(i: sextet): char {
    if i < 26 then ('A' as int + i) as char
    else if i < 52 then ('a' as int + i - 26) as char
    else if i < 62 then ('0' as int + i - 52) as char
    else if i == 62 then '+'
    else '/'
  }

  predicate IsAlphabetChar(c: char) {
    'A' <= c <= 'Z' || 'a' <= c <= 'z' || '0' <= c <= '9' || c == '+' || c == '/'
  }

  function CharIndex(c: char): (i: sextet)
    requires IsAlphabetChar(c)
    ensures IndexChar(i) == c
  {
    if 'A' <= c <= 'Z' then c as int - 'A' as int
    else if 'a' <= c <= 'z' then c as int - 'a' as int + 26
    else if '0' <= c <= '9' then c as int - '0' as int + 52
    else if c == '+' then 62
    else 63
  }

  lemma IndexCharInAlphabet(i: sextet)
    ensures IsAlphabetChar(IndexChar(i)) && CharIndex(IndexChar(i)) == i
  {
  }

  /** Three octets become four characters. */
  function EncodeTriple(b0: byte, b1: byte, b2: byte): string {
    [IndexChar(b0 / 4), IndexChar((b0 % 4) * 16 + b1 / 16),
     IndexChar((b1 % 16) * 4 + b2 / 64), IndexChar(b2 % 64)]
  }

  /** `base64.b64encode`: whole groups of three octets, then a final group of
      one or two octets padded with `=` (section 4 of RFC 4648). */
  function Encode(b: seq<byte>): (s: string)
    ensures |s| == 4 * ((|b| + 2) / 3)
    decreases |b|
  {
    if |b| == 0 then []
    else if |b| == 1 then [IndexChar(b[0] / 4), IndexChar((b[0] % 4) * 16), '=', '=']
    else if |b| == 2 then
      [IndexChar(b[0] / 4), IndexChar((b[0] % 4) * 16 + b[1] / 16), IndexChar((b[1] % 16) * 4), '=']
    else EncodeTriple(b[0], b[1], b[2]) + Encode(b[3..])
  }

  /** Number of `=` characters that close an encoding of n octets. */
  function PadCount(n: nat): nat {
    (3 - n % 3) % 3
  }

  lemma AlphabetChars()
    ensures forall i: sextet :: IsAlphabetChar(IndexChar(i)) && CharIndex(IndexChar(i)) == i
  {
    forall i: sextet ensures IsAlphabetChar(IndexChar(i)) && CharIndex(IndexChar(i)) == i {
      IndexCharInAlphabet(i);
    }
  }

  /** Every character of an encoding is in the alphabet, except the final
      padding, which has exactly PadCount(|b|) `=` characters. */
  lemma {:induction false} EncodeAlphabet(b: seq<byte>)
    ensures var s := Encode(b);
      PadCount(|b|) <= |s| &&
      (forall i :: 0 <= i < |s| - PadCount(|b|) ==> IsAlphabetChar(s[i])) &&
      (forall i :: |s| - PadCount(|b|) <= i < |s| ==> s[i] == '=')
    decreases |b|
  {
    if |b| >= 3 {
      EncodeAlphabet(b[3..]);
      TripleRoundTrip(b[0], b[1], b[2]);
      PadCountShift(|b[3..]|);
      PaddedAfterQuad(EncodeTriple(b[0], b[1], b[2]), Encode(b[3..]), PadCount(|b|));
    } else if |b| == 2 {
      IndexCharInAlphabet(b[0] / 4);
      IndexCharInAlphabet((b[0] % 4) * 16 + b[1] / 16);
      IndexCharInAlphabet((b[1] % 16) * 4);
    } else if |b| == 1 {
      IndexCharInAlphabet(b[0] / 4);
      IndexCharInAlphabet((b[0] % 4) * 16);
    }
  }

  lemma PadCountShift(n: nat)
    ensures PadCount(n + 3) == PadCount(n)
  {
    assert (n + 3) % 3 == n % 3;
  }

  /** Alphabet characters followed by p `=`, behind a group of four alphabet
      characters, are still alphabet characters followed by p `=`. */
  lemma PaddedAfterQuad(q: string, t: string, p: nat)
    requires |q| == 4 && AllAlphabet(q) && p <= |t|
    requires forall i :: 0 <= i < |t| - p ==> IsAlphabetChar(t[i])
    requires forall i :: |t| - p <= i < |t| ==> t[i] == '='
    ensures var s := q + t;
      (forall i :: 0 <= i < |s| - p ==> IsAlphabetChar(s[i])) &&
      (forall i :: |s| - p <= i < |s| ==> s[i] == '=')
  {
    var s := q + t;
    forall i | 0 <= i < |s| - p ensures IsAlphabetChar(s[i]) {
      if i >= 4 {
        assert s[i] == t[i - 4];
      } else {
        assert s[i] == q[i];
      }
    }
    forall i | |s| - p <= i < |s| ensures s[i] == '=' {
      assert s[i] == t[i - 4];
    }
  }

  /** Euclidean division undoes a shift by k when the low part is below k. */
  lemma Unshift(hi: int, lo: int, k: int)
    requires k == 4 || k == 16 || k == 64
    requires 0 <= lo < k
    ensures (hi * k + lo) / k == hi && (hi * k + lo) % k == lo
  {
  }

  /** Four alphabet characters become three octets. */
  function DecodeQuad(c0: sextet, c1: sextet, c2: sextet, c3: sextet): seq<byte> {
    [c0 * 4 + c1 / 16, (c1 % 16) * 16 + c2 / 4, (c2 % 4) * 64 + c3]
  }

  /** A final group `xx==` becomes one octet. */
  function DecodeSingle(c0: sextet, c1: sextet): seq<byte> {
    [c0 * 4 + c1 / 16]
  }

  /** A final group `xxx=` becomes two octets. */
  function DecodeDouble(c0: sextet, c1: sextet, c2: sextet): seq<byte> {
    [c0 * 4 + c1 / 16, (c1 % 16) * 16 + c2 / 4]
  }

  predicate AllAlphabet(s: string) {
    forall i :: 0 <= i < |s| ==> IsAlphabetChar(s[i])
  }

  /** The inverse of Encode: Some octets exactly for well-formed input.
      A final group may carry one or two `=`. */
  function Decode(s: string): Option<seq<byte>>
    decreases |s|
  {
    if |s| == 0 then Some([])
    else if |s| < 4 then None
    else if |s| == 4 && s[2] == '=' && s[3] == '=' then
      if IsAlphabetChar(s[0]) && IsAlphabetChar(s[1]) then
        Some(DecodeSingle(CharIndex(s[0]), CharIndex(s[1])))
      else None
    else if |s| == 4 && s[3] == '=' then
      if IsAlphabetChar(s[0]) && IsAlphabetChar(s[1]) && IsAlphabetChar(s[2]) then
        Some(DecodeDouble(CharIndex(s[0]), CharIndex(s[1]), CharIndex(s[2])))
      else None
    else if IsAlphabetChar(s[0]) && IsAlphabetChar(s[1]) && IsAlphabetChar(s[2]) && IsAlphabetChar(s[3]) then
      match Decode(s[4..])
      case Some(rest) =>
        Some(DecodeQuad(CharIndex(s[0]), CharIndex(s[1]), CharIndex(s[2]), CharIndex(s[3])) + rest)
      case None => None
    else None
  }

  lemma TripleRoundTrip(b0: byte, b1: byte, b2: byte)
    ensures var s := EncodeTriple(b0, b1, b2);
      AllAlphabet(s) &&
      DecodeQuad(CharIndex(s[0]), CharIndex(s[1]), CharIndex(s[2]), CharIndex(s[3])) == [b0, b1, b2]
  {
    var c0, c1, c2, c3 := b0 / 4, (b0 % 4) * 16 + b1 / 16, (b1 % 16) * 4 + b2 / 64, b2 % 64;
    AlphabetChars();
    Unshift(b0 % 4, b1 / 16, 16);
    Unshift(b1 % 16, b2 / 64, 4);
    assert c0 * 4 + c1 / 16 == b0;
    assert (c1 % 16) * 16 + c2 / 4 == b1;
    assert (c2 % 4) * 64 + c3 == b2;
  }

  lemma DecodeEncodeOne(b: seq<byte>)
    requires |b| == 1
    ensures Decode(Encode(b)) == Some(b)
  {
    var x0, x1 := b[0] / 4, (b[0] % 4) * 16;
    var s := Encode(b);
    assert s == [IndexChar(x0), IndexChar(x1), '=', '='];
    IndexCharInAlphabet(x0);
    IndexCharInAlphabet(x1);
    Unshift(b[0] % 4, 0, 16);
    assert x0 * 4 + x1 / 16 == b[0];
    DecodeSingleGroup(s);
    assert b == [b[0]];
  }

  /** Two alphabet characters and two `=` decode to one octet. */
  lemma DecodeSingleGroup(s: string)
    requires |s| == 4 && s[2] == '=' && s[3] == '=' && IsAlphabetChar(s[0]) && IsAlphabetChar(s[1])
    ensures Decode(s) == Some([CharIndex(s[0]) * 4 + CharIndex(s[1]) / 16])
  {
  }

  lemma DecodeEncodeTwo(b: seq<byte>)
    requires |b| == 2
    ensures Decode(Encode(b)) == Some(b)
  {
    var x0, x1, x2 := b[0] / 4, (b[0] % 4) * 16 + b[1] / 16, (b[1] % 16) * 4;
    var s := Encode(b);
    assert s == [IndexChar(x0), IndexChar(x1), IndexChar(x2), '='];
    IndexCharInAlphabet(x0);
    IndexCharInAlphabet(x1);
    IndexCharInAlphabet(x2);
    assert CharIndex(s[0]) == x0 && CharIndex(s[1]) == x1 && CharIndex(s[2]) == x2;
    DecodePair(s);
    PairRoundTrip(b[0], b[1]);
    assert DecodeDouble(x0, x1, x2) == [b[0], b[1]];
    assert b == [b[0], b[1]];
  }

  /** The arithmetic of a final group of two octets. */
  lemma PairRoundTrip(b0: byte, b1: byte)
    ensures var x0, x1, x2 := b0 / 4, (b0 % 4) * 16 + b1 / 16, (b1 % 16) * 4;
      x0 * 4 + x1 / 16 == b0 && (x1 % 16) * 16 + x2 / 4 == b1
  {
    Unshift(b0 % 4, b1 / 16, 16);
    Unshift(b1 % 16, 0, 4);
  }

  /** Three alphabet characters and one `=` decode to two octets. */
  lemma DecodePair(s: string)
    requires |s| == 4 && s[3] == '=' && IsAlphabetChar(s[0]) && IsAlphabetChar(s[1]) && IsAlphabetChar(s[2])
    ensures Decode(s) == Some(DecodeDouble(CharIndex(s[0]), CharIndex(s[1]), CharIndex(s[2])))
  {
    assert s[2] != '=';
  }

  /** A leading group of four alphabet characters decodes on its own. */
  lemma DecodeLeadingQuad(q: string, t: string)
    requires |q| == 4 && AllAlphabet(q)
    ensures Decode(q + t) ==
      match Decode(t)
      case Some(rest) => Some(DecodeQuad(CharIndex(q[0]), CharIndex(q[1]), CharIndex(q[2]), CharIndex(q[3])) + rest)
      case None => None
  {
    var s := q + t;
    assert s[..4] == q && s[4..] == t;
    assert s[3] == q[3] && IsAlphabetChar(q[3]);
  }

  lemma SplitThree(b: seq<byte>)
    requires |b| >= 3
    ensures b == [b[0], b[1], b[2]] + b[3..]
  {
    assert b[..3] == [b[0], b[1], b[2]];
    assert b == b[..3] + b[3..];
  }

  lemma DecodeEncodeMany(b: seq<byte>)
    requires |b| >= 3 && Decode(Encode(b[3..])) == Some(b[3..])
    ensures Decode(Encode(b)) == Some(b)
  {
    var q, t := EncodeTriple(b[0], b[1], b[2]), Encode(b[3..]);
    assert Encode(b) == q + t;
    TripleRoundTrip(b[0], b[1], b[2]);
    DecodeLeadingQuad(q, t);
    SplitThree(b);
  }

  /** Decoding an encoding gives back the octets. */
  lemma {:induction false} DecodeEncode(b: seq<byte>)
    ensures Decode(Encode(b)) == Some(b)
    decreases |b|
  {
    if |b| == 1 {
      DecodeEncodeOne(b);
    } else if |b| == 2 {
      DecodeEncodeTwo(b);
    } else if |b| >= 3 {
      DecodeEncode(b[3..]);
      DecodeEncodeMany(b);
    }
  }
}
