/** The magic check as the source writes it. `main` copies the first four
    identification bytes into a five-byte buffer whose fifth byte is never
    set, then compares that buffer with the NUL-terminated string
    "\x7FELF" using `strcmp`. The model takes the unset byte as a parameter.
    The reader itself uses the intended four-byte comparison `HasMagic`. */
module MagicCheck {
  import opened Bytes
  import opened ElfReader

  /** `strcmp(a + i, b + i) == 0` for a string a whose only NUL is its last
      byte and a buffer b of the same length: comparison stops at the first
      difference or at a's NUL, so it reports equality exactly when the
      buffers agree from i on. */
  function CStrEqual(a: seq<byte>, b: seq<byte>, i: nat): (eq: bool)
    requires |a| == |b| && 0 < |a| && a[|a| - 1] == 0 && i < |a|
    requires forall k :: 0 <= k < |a| - 1 ==> a[k] != 0
    ensures eq <==> a[i..] == b[i..]
    decreases |a| - i
  {
    if a[i] != b[i] then false
    else if a[i] == 0 then true
    else CStrEqual(a, b, i + 1)
  }

  /** `correctmagicbytes`: the magic followed by a NUL. */
  const CorrectMagic: seq<byte> := ElfMagic + [0]

  /** The check as written accepts the identification block, given the byte
      `junk` that happens to sit in the unset fifth byte of `magicbytes`. It
      accepts exactly the blocks with the right magic AND a zero in that byte,
      so whether a genuine ELF file passes depends on uninitialised memory. */
  function MagicCheckAsWritten(ident: seq<byte>, junk: byte): (accepted: bool)
    requires |ident| >= 4
    ensures accepted <==> HasMagic(ident) && junk == 0
  {
    var magicBytes := ident[..4] + [junk];
    assert magicBytes[..4] == ident[..4] && magicBytes[4] == junk;
    assert CorrectMagic[..4] == ElfMagic && CorrectMagic[4] == 0;
    CStrEqual(CorrectMagic, magicBytes, 0)
  }

  /** A genuine ELF identification block that the check as written rejects
      when the unset byte holds 1. */
  lemma MagicCheckAsWrittenRejectsElf()
    ensures var ident := ElfMagic + [1, 1, 1, 0] + seq(8, _ => 0);
            HasMagic(ident) && !MagicCheckAsWritten(ident, 1)
  {
    var ident := ElfMagic + [1, 1, 1, 0] + seq(8, _ => 0);
    assert ident[..4] == ElfMagic;
  }
}
