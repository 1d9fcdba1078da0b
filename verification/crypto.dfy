/**
 * The cryptographic primitives the session core relies on, as abstract
 * functions. The bcrypt library and SHA-256 are foreign code: the model
 * takes them as function values and states, as predicates, the properties
 * the rest of the model may assume of them. The hexadecimal rendering of a
 * digest (`digest("hex")`) is ordinary code and is defined here.
 */
module Crypto {
  import opened Wrappers

  type Byte = x: int | 0 <= x < 256

  /** A SHA-256 digest: always exactly 32 bytes. */
  type Digest32 = d: seq<Byte> | |d| == 32 witness seq(32, _ => 0)

  /**
   * SHA-256 over the text of a string. A function value is deterministic by
   * construction: the same input always gives the same digest.
   */
  type Sha256 = string -> Digest32

  /**
   * The bcrypt library: `hash(plain, salt)` stands for `bcrypt.hash`, whose
   * random salt is made a parameter; `compare(plain, hashed)` for
   * `bcrypt.compare`.
   */
  datatype Bcrypt = Bcrypt(hash: (string, string) -> string, compare: (string, string) -> bool)

  /** What the model assumes of bcrypt: a password always matches its own hash, whatever the salt. */
  ghost predicate BcryptSound(b: Bcrypt) {
    forall plain: string, salt: string :: b.compare(plain, b.hash(plain, salt))
  }

  // ---------------------------------------------------------------------
  // Lower-case hexadecimal rendering of a digest

  predicate IsLowerHexChar(c: char) {
    '0' <= c <= '9' || 'a' <= c <= 'f'
  }

  predicate IsLowerHex(s: string) {
    forall i :: 0 <= i < |s| ==> IsLowerHexChar(s[i])
  }

  function HexDigit(v: int): (c: char)
    requires 0 <= v < 16
    ensures IsLowerHexChar(c)
  {
    if v < 10 then ('0' as int + v) as char else ('a' as int + v - 10) as char
  }

  /** The value of a lower-case hexadecimal digit; the partner of `HexDigit`. */
  function HexValue(c: char): (r: Option<int>)
    ensures r.Some? <==> IsLowerHexChar(c)
    ensures r.Some? ==> 0 <= r.value < 16 && HexDigit(r.value) == c
  {
    if '0' <= c <= '9' then Some(c as int - '0' as int)
    else if 'a' <= c <= 'f' then Some(c as int - 'a' as int + 10)
    else None
  }

  /** `digest("hex")`: two lower-case digits per byte, high nibble first. */
  function Hex(d: seq<Byte>): (s: string)
    ensures |s| == 2 * |d|
    ensures IsLowerHex(s)
  {
    if d == [] then "" else [HexDigit(d[0] / 16), HexDigit(d[0] % 16)] + Hex(d[1..])
  }

  /** Reads back a hexadecimal rendering; fails on an odd length or a foreign character. */
  function Unhex(s: string): (r: Option<seq<Byte>>)
    decreases |s|
  {
    if s == [] then Some([])
    else if |s| == 1 then None
    else
      match (HexValue(s[0]), HexValue(s[1]), Unhex(s[2..]))
      case (Some(hi), Some(lo), Some(rest)) => Some([hi * 16 + lo] + rest)
      case _ => None
  }

  /** The hexadecimal rendering loses nothing: it reads back to the bytes it came from. */
  lemma {:induction false} UnhexHex(d: seq<Byte>)
    ensures Unhex(Hex(d)) == Some(d)
  {
    if d != [] {
      var s := Hex(d);
      assert s[2..] == Hex(d[1..]);
      UnhexHex(d[1..]);
      assert HexValue(s[0]) == Some(d[0] / 16);
      assert HexValue(s[1]) == Some(d[0] % 16);
      assert [d[0]] + d[1..] == d;
    }
  }

  /** Distinct digests have distinct renderings. */
  lemma HexInjective(a: seq<Byte>, b: seq<Byte>)
    ensures Hex(a) == Hex(b) <==> a == b
  {
    if Hex(a) == Hex(b) {
      UnhexHex(a);
      UnhexHex(b);
    }
  }
}
