/**
 * The unpadded base64url encoding of section 5 of RFC 4648, as Node's
 * `Buffer.toString("base64url")` produces it: every three bytes become four
 * symbols of the alphabet `A-Z a-z 0-9 - _`, a final single byte becomes
 * two symbols and a final pair of bytes three, and no `=` padding is added.
 */
module Base64Url {
  import opened Wrappers
  import opened Crypto

  /** The characters of the URL- and filename-safe alphabet. */
  predicate IsUrlSafe(c: char) {
    'A' <= c <= 'Z' || 'a' <= c <= 'z' || '0' <= c <= '9' || c == '-' || c == '_'
  }

  predicate AllUrlSafe(s: string) {
    forall i :: 0 <= i < |s| ==> IsUrlSafe(s[i])
  }

  /** The symbol for a six-bit value. */
  function Symbol(v: int): (c: char)
    requires 0 <= v < 64
    ensures IsUrlSafe(c)
  {
    if v < 26 then ('A' as int + v) as char
    else if v < 52 then ('a' as int + v - 26) as char
    else if v < 62 then ('0' as int + v - 52) as char
    else if v == 62 then '-'
    else '_'
  }

  /** The six-bit value of a symbol; the partner of `Symbol`. */
  function SymbolValue(c: char): (r: Option<int>)
    ensures r.Some? <==> IsUrlSafe(c)
    ensures r.Some? ==> 0 <= r.value < 64 && Symbol(r.value) == c
  {
    if 'A' <= c <= 'Z' then Some(c as int - 'A' as int)
    else if 'a' <= c <= 'z' then Some(c as int - 'a' as int + 26)
    else if '0' <= c <= '9' then Some(c as int - '0' as int + 52)
    else if c == '-' then Some(62)
    else if c == '_' then Some(63)
    else None
  }

  type Sextet = v: int | 0 <= v < 64

  /** The length of the unpadded encoding of `n` bytes. */
  function EncodedLength(n: nat): nat {
    4 * (n / 3) + (if n % 3 == 0 then 0 else n % 3 + 1)
  }

  /** Regroups bytes into six-bit values, most significant bits first. */
  function Sextets(b: seq<Byte>): (v: seq<Sextet>)
    ensures |v| == EncodedLength(|b|)
  {
    if |b| == 0 then []
    else if |b| == 1 then [b[0] / 4, b[0] % 4 * 16]
    else if |b| == 2 then [b[0] / 4, b[0] % 4 * 16 + b[1] / 16, b[1] % 16 * 4]
    else [b[0] / 4, b[0] % 4 * 16 + b[1] / 16, b[1] % 16 * 4 + b[2] / 64, b[2] % 64] + Sextets(b[3..])
  }

  /** The three bytes a group of four six-bit values carries. */
  function Byte0(x: Sextet, y: Sextet): Byte { x as int * 4 + y as int / 16 }
  function Byte1(y: Sextet, z: Sextet): Byte { y as int % 16 * 16 + z as int / 4 }
  function Byte2(z: Sextet, w: Sextet): Byte { z as int % 4 * 64 + w as int }

  /** Regroups six-bit values into bytes; the partner of `Sextets`. A single value left over is rejected. */
  function Unpack(v: seq<Sextet>): Option<seq<Byte>>
  {
    if |v| == 0 then Some([])
    else if |v| == 1 then None
    else if |v| == 2 then Some([Byte0(v[0], v[1])])
    else if |v| == 3 then Some([Byte0(v[0], v[1]), Byte1(v[1], v[2])])
    else
      match Unpack(v[4..])
      case None => None
      case Some(rest) => Some([Byte0(v[0], v[1]), Byte1(v[1], v[2]), Byte2(v[2], v[3])] + rest)
  }

  function Encode(b: seq<Byte>): (s: string)
    ensures |s| == EncodedLength(|b|)
    ensures AllUrlSafe(s)
  {
    var v := Sextets(b);
    seq(|v|, i requires 0 <= i < |v| => Symbol(v[i]))
  }

  /** The six-bit values of a text, if every character is in the alphabet. */
  function Values(s: string): (r: Option<seq<Sextet>>)
    ensures r.Some? <==> AllUrlSafe(s)
  {
    if s == [] then Some([])
    else
      var x := SymbolValue(s[0]);
      var rest := Values(s[1..]);
      if x.Some? && rest.Some? then Some([x.value] + rest.value) else None
  }

  /**
   * Reads an unpadded base64url text back into bytes. A length that leaves
   * one symbol over, or a character outside the alphabet, is rejected; the
   * unused low bits of a final partial group are ignored.
   */
  function Decode(s: string): Option<seq<Byte>> {
    match Values(s)
    case None => None
    case Some(v) => Unpack(v)
  }

  lemma {:induction false} ValuesOfSymbols(v: seq<Sextet>)
    ensures Values(seq(|v|, i requires 0 <= i < |v| => Symbol(v[i]))) == Some(v)
  {
    var s := seq(|v|, i requires 0 <= i < |v| => Symbol(v[i]));
    if v != [] {
      assert s[1..] == seq(|v[1..]|, i requires 0 <= i < |v[1..]| => Symbol(v[1..][i]));
      ValuesOfSymbols(v[1..]);
      assert [v[0]] + v[1..] == v;
    }
  }

  /** Six-bit arithmetic of one group: the values `Sextets` makes carry the bytes back. */
  lemma GroupArithmetic(b0: Byte, b1: Byte, b2: Byte)
    ensures Byte0(b0 / 4, b0 % 4 * 16 + b1 / 16) == b0
    ensures Byte1(b0 % 4 * 16 + b1 / 16, b1 % 16 * 4 + b2 / 64) == b1
    ensures Byte2(b1 % 16 * 4 + b2 / 64, b2 % 64) == b2
  {
  }

  lemma {:induction false} UnpackSextets(b: seq<Byte>)
    ensures Unpack(Sextets(b)) == Some(b)
  {
    if |b| == 1 {
      GroupArithmetic(b[0], 0, 0);
      assert [b[0]] == b;
    } else if |b| == 2 {
      GroupArithmetic(b[0], b[1], 0);
      assert [b[0], b[1]] == b;
    } else if |b| >= 3 {
      GroupArithmetic(b[0], b[1], b[2]);
      var v := Sextets(b);
      assert v[4..] == Sextets(b[3..]);
      UnpackSextets(b[3..]);
      assert [b[0], b[1], b[2]] + b[3..] == b;
    }
  }

  /** Decoding undoes encoding: no two byte strings share an encoding. */
  lemma DecodeEncode(b: seq<Byte>)
    ensures Decode(Encode(b)) == Some(b)
  {
    ValuesOfSymbols(Sextets(b));
    UnpackSextets(b);
  }
}
