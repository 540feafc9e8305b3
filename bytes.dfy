/** Bytes and the XOR obfuscation applied to search patterns and to returned
    snippets, so that a raw signature never travels in clear. */
module Bytes {
  import opened Common

  type Byte = bv8

  /** The XOR obfuscation with a one-byte key, applied byte by byte. */
  function Xor(s: seq<Byte>, key: Byte): (r: seq<Byte>)
    ensures |r| == |s|
    ensures forall i :: 0 <= i < |s| ==> r[i] == s[i] ^ key
  {
    seq(|s|, i requires 0 <= i < |s| => s[i] ^ key)
  }

  /** The transform is its own inverse: the receiver undoes it with the same key. */
  lemma XorInvolution(s: seq<Byte>, key: Byte)
    ensures Xor(Xor(s, key), key) == s
  {
  }

  /** Key 0 leaves the bytes alone. */
  lemma XorZero(s: seq<Byte>)
    ensures Xor(s, 0) == s
  {
  }

  /** XOR commutes with slicing, so a snippet cut from obfuscated bytes is the
      obfuscation of the snippet. */
  lemma XorSlice(s: seq<Byte>, key: Byte, i: nat, j: nat)
    requires i <= j <= |s|
    ensures Xor(s, key)[i..j] == Xor(s[i..j], key)
  {
  }

  /** The byte a character stands for (characters beyond one byte, which
      the literals here never contain, give 0). */
  function ByteOf(c: char): Byte
  {
    if c as int < 256 then c as int as Byte else 0
  }

  /** The bytes of a string literal, one byte per character. */
  function Ascii(s: string): (r: seq<Byte>)
    ensures |r| == |s|
    ensures forall i :: 0 <= i < |s| ==> r[i] == ByteOf(s[i])
  {
    seq(|s|, i requires 0 <= i < |s| => ByteOf(s[i]))
  }

  /** The one-character string a byte denotes (a Python 2 `str` of length 1). */
  function CharOf(b: Byte): char
  {
    b as int as char
  }
}
