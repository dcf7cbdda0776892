/** Octets and the fixed-width unsigned integers the ELF header structs hold,
    read least significant byte first (the model fixes a little-endian host). */
module Bytes {

  /** One octet of the input file. */
  type byte = b: int | 0 <= b < 0x100
  /** C `uint16_t`. */
  type u16 = v: int | 0 <= v < 0x1_0000
  /** C `uint32_t`. */
  type u32 = v: int | 0 <= v < 0x1_0000_0000
  /** C `uint64_t`. */
  type u64 = v: int | 0 <= v < 0x1_0000_0000_0000_0000

  /** 256^n: the number of values an n-byte unsigned field can hold. */
  function Pow256(n: nat): (p: nat)
    ensures p >= 1
  {
    if n == 0 then 1 else 256 * Pow256(n - 1)
  }

  /** The ranges of the 2-, 4- and 8-byte fields are those of u16, u32 and u64. */
  lemma Pow256Widths()
    ensures Pow256(2) == 0x1_0000
    ensures Pow256(4) == 0x1_0000_0000
    ensures Pow256(8) == 0x1_0000_0000_0000_0000
  {
    assert Pow256(4) == 256 * 256 * Pow256(2);
    assert Pow256(8) == 256 * 256 * 256 * 256 * Pow256(4);
  }

  /** The unsigned integer whose little-endian representation is s. */
  function Le(s: seq<byte>): (v: nat)
    ensures v < Pow256(|s|)
  {
    if |s| == 0 then 0 else s[0] + 256 * Le(s[1..])
  }

  /** The w-byte little-endian representation of v. */
  function EncodeLe(v: nat, w: nat): (s: seq<byte>)
    requires v < Pow256(w)
    ensures |s| == w
  {
    if w == 0 then [] else [v % 256] + EncodeLe(v / 256, w - 1)
  }

  /** Decoding undoes encoding: a w-byte field reads back the value written. */
  lemma {:induction false} LeEncodeLe(v: nat, w: nat)
    requires v < Pow256(w)
    ensures Le(EncodeLe(v, w)) == v
  {
    if w > 0 {
      var s := EncodeLe(v, w);
      assert s[1..] == EncodeLe(v / 256, w - 1);
      LeEncodeLe(v / 256, w - 1);
    }
  }

  /** Encoding undoes decoding: a byte string is the encoding of its own value. */
  lemma {:induction false} EncodeLeLe(s: seq<byte>)
    ensures EncodeLe(Le(s), |s|) == s
  {
    if |s| > 0 {
      EncodeLeLe(s[1..]);
      assert Le(s) % 256 == s[0] && Le(s) / 256 == Le(s[1..]);
    }
  }

  /** Two byte strings of one width with the same value are the same string. */
  lemma LeInjective(s: seq<byte>, t: seq<byte>)
    requires |s| == |t| && Le(s) == Le(t)
    ensures s == t
  {
    EncodeLeLe(s);
    EncodeLeLe(t);
  }
}
