/** Fixed-width upper-case hexadecimal, as `printf("%02X")` and `printf("%08X")`
    render unsigned values, and the parse that reads such text back. */
module HexText {

  const Digits: string := "0123456789ABCDEF"

  /** 16^n: the number of values n hex digits can show. */
  function Pow16(n: nat): (p: nat)
    ensures p >= 1
  {
    if n == 0 then 1 else 16 * Pow16(n - 1)
  }

  /** Two digits show any byte; eight show any 32-bit value. */
  lemma Pow16Widths()
    ensures Pow16(2) == 0x100
    ensures Pow16(4) == 0x1_0000
    ensures Pow16(8) == 0x1_0000_0000
  {
    assert Pow16(8) == 16 * 16 * 16 * 16 * Pow16(4);
  }

  /** True of the characters `%X` may print. */
  predicate IsUpperHexDigit(c: char) {
    '0' <= c <= '9' || 'A' <= c <= 'F'
  }

  /** The digit character for d. */
  function DigitChar(d: nat): (c: char)
    requires d < 16
    ensures IsUpperHexDigit(c)
    ensures DigitValue(c) == d
  {
    Digits[d]
  }

  /** The value of a hex digit character; characters that are not digits read as 0. */
  function DigitValue(c: char): (d: nat)
    ensures d < 16
    ensures !IsUpperHexDigit(c) ==> d == 0
  {
    if '0' <= c <= '9' then (c - '0') as nat
    else if 'A' <= c <= 'F' then (c - 'A') as nat + 10
    else 0
  }

  /** v as exactly n upper-case hex digits, most significant first, zero-padded on the left. */
  function Hex(v: nat, n: nat): (s: string)
    requires v < Pow16(n)
    ensures |s| == n
  {
    if n == 0 then "" else Hex(v / 16, n - 1) + [DigitChar(v % 16)]
  }

  /** `%X` prints only the digits 0-9 and the upper-case letters A-F. */
  lemma {:induction false} HexIsUpperHex(v: nat, n: nat)
    requires v < Pow16(n)
    ensures forall i :: 0 <= i < n ==> IsUpperHexDigit(Hex(v, n)[i])
  {
    if n > 0 {
      HexIsUpperHex(v / 16, n - 1);
    }
  }

  /** The value of a string of hex digits, most significant first. */
  function ParseHex(s: string): (v: nat)
    ensures v < Pow16(|s|)
  {
    if |s| == 0 then 0 else ParseHex(s[..|s| - 1]) * 16 + DigitValue(s[|s| - 1])
  }

  /** Reading the rendered digits back gives the rendered value. */
  lemma {:induction false} ParseHexOfHex(v: nat, n: nat)
    requires v < Pow16(n)
    ensures ParseHex(Hex(v, n)) == v
  {
    if n > 0 {
      var s := Hex(v, n);
      assert s[..|s| - 1] == Hex(v / 16, n - 1);
      ParseHexOfHex(v / 16, n - 1);
    }
  }

  /** Distinct values render as distinct text. */
  lemma HexInjective(v: nat, w: nat, n: nat)
    requires v < Pow16(n) && w < Pow16(n)
    requires Hex(v, n) == Hex(w, n)
    ensures v == w
  {
    ParseHexOfHex(v, n);
    ParseHexOfHex(w, n);
  }

  /** Widening the field only adds leading zeros: `%08X` of a 16-bit value is
      "0000" followed by its four-digit form. */
  lemma {:induction false} HexPadding(v: nat, n: nat, k: nat)
    requires v < Pow16(n)
    ensures v < Pow16(n + k)
    ensures Hex(v, n + k) == seq(k, _ => '0') + Hex(v, n)
  {
    PowMonotone(n, n + k);
    if n == 0 {
      HexZero(k);
    } else {
      HexPadding(v / 16, n - 1, k);
    }
  }

  /** Zero renders as a run of '0' digits. */
  lemma {:induction false} HexZero(k: nat)
    ensures Hex(0, k) == seq(k, _ => '0')
  {
    if k > 0 {
      HexZero(k - 1);
    }
  }

  lemma {:induction false} PowMonotone(m: nat, n: nat)
    requires m <= n
    ensures Pow16(m) <= Pow16(n)
    decreases n
  {
    if m < n {
      PowMonotone(m, n - 1);
    }
  }
}
