/** Concrete files and the lines the model gives for them. */
module Scenarios {
  import opened Bytes
  import opened HexText
  import opened Layout
  import opened Labels
  import opened ElfReader

  /** An identification block with the given class, data encoding, version and OS/ABI bytes. */
  function Ident(cls: byte, data: byte, version: byte, osabi: byte): (ident: seq<byte>)
    ensures |ident| == IdentSize && HasMagic(ident)
  {
    ElfMagic + [cls, data, version, osabi] + seq(8, _ => 0)
  }

  /** A header whose first four bytes hold e_type and e_machine, little-endian. */
  function HeaderBytes(eType: u16, eMachine: u16, size: nat): (raw: seq<byte>)
    requires size >= 4
    ensures |raw| == size
  {
    [eType % 256, eType / 256, eMachine % 256, eMachine / 256] + seq(size - 4, _ => 0)
  }

  /** A 32-bit little-endian file with OS/ABI 0 gives the four identification
      lines of the usual report. */
  lemma IdentLinesOfPlain32BitFile()
    ensures var file := Ident(1, 1, 1, 0) + HeaderBytes(0, 0, 36);
            && Run(file).exitCode == 0
            && Run(file).stdout[1] == "Class: " + "01" + ", " + "32-bit"
            && Run(file).stdout[2] == "Data encoding: " + "01" + ", " + "Two's complement, little-endian"
            && Run(file).stdout[3] == "EI version: " + "01" + ", " + "Current"
            && Run(file).stdout[4] == "OSABI: " + "00" + ", " + "No extension or unspecified"
  {
    var file := Ident(1, 1, 1, 0) + HeaderBytes(0, 0, 36);
    assert file[..4] == ElfMagic;
    assert file[4..8] == [1, 1, 1, 0];
    ReportShowsIdentFields(file);
    ClassLine1();
    DataLine1();
    VersionLine1();
    OsAbiLine0();
  }

  lemma ClassLine1()
    ensures "Class: " + Hex(1, 2) + ", " + ClassLabel(1) == "Class: " + "01" + ", " + "32-bit"
  {
    Pow16Widths();
    assert Hex(1, 2) == "01";
  }

  lemma DataLine1()
    ensures "Data encoding: " + Hex(1, 2) + ", " + DataLabel(1)
         == "Data encoding: " + "01" + ", " + "Two's complement, little-endian"
  {
    Pow16Widths();
    assert Hex(1, 2) == "01";
  }

  lemma VersionLine1()
    ensures "EI version: " + Hex(1, 2) + ", " + VersionLabel(1) == "EI version: " + "01" + ", " + "Current"
  {
    Pow16Widths();
    assert Hex(1, 2) == "01";
  }

  lemma OsAbiLine0()
    ensures "OSABI: " + Hex(0, 2) + ", " + OsAbiLabel(0) == "OSABI: " + "00" + ", " + "No extension or unspecified"
  {
    Pow16Widths();
    assert Hex(0, 2) == "00";
  }

  /** OS/ABI 0x03 is labelled Linux. */
  lemma OsAbiLineLinux()
    ensures FieldLine("OSABI: ", 0x03, 2, OsAbiLabel(0x03)) == "OSABI: " + "03" + ", " + "Linux"
  {
    Pow16Widths();
    assert Hex(3, 2) == "03";
  }

  /** OS/ABI 0x99 shows its code and no label. */
  lemma OsAbiLineUnlabelled()
    ensures FieldLine("OSABI: ", 0x99, 2, OsAbiLabel(0x99)) == "OSABI: " + "99" + ", "
  {
    Pow16Widths();
    assert Hex(9, 1) == "9";
    assert Hex(0x99, 2) == "99";
    assert OsAbiLabel(0x99) == "";
  }

  /** e_type 0x0102 has low byte 2: the line shows all eight digits and the
      executable label. The 64-bit layout gives the same line. */
  lemma TypeLineUsesLowByte(c: Class)
    ensures var file := Ident(if c == Elf32 then 1 else 2, 1, 1, 0) + HeaderBytes(0x0102, 3, Size(c));
            && Run(file).exitCode == 0
            && Run(file).stdout[6] == "Type: " + "00000102" + ", " + "Executable file"
            && Run(file).stdout[7] == "Machine: " + "00000003" + ", " + "Intel 80386"
  {
    var raw := HeaderBytes(0x0102, 3, Size(c));
    var file := Ident(if c == Elf32 then 1 else 2, 1, 1, 0) + raw;
    ReadsFileOfClass(c, raw);
    HeaderBytesRead(0x0102, 3, Size(c));
    TypeLine0102();
    MachineLine3();
  }

  /** A file made of a valid identification block and a full header passes
      every check, and the header bytes are those read. */
  lemma ReadsFileOfClass(c: Class, raw: seq<byte>)
    requires |raw| == Size(c)
    ensures var file := Ident(if c == Elf32 then 1 else 2, 1, 1, 0) + raw;
            ReadElf(file).Ok? && ReadElf(file).value.raw == raw
  {
    var file := Ident(if c == Elf32 then 1 else 2, 1, 1, 0) + raw;
    assert file[..4] == ElfMagic;
    assert file[IdentSize .. IdentSize + Size(c)] == raw;
  }

  /** The 32-bit view reads back the e_type and e_machine written by HeaderBytes. */
  lemma HeaderBytesRead(eType: u16, eMachine: u16, size: nat)
    requires size >= Size(Elf32)
    ensures Read(HeaderBytes(eType, eMachine, size), Elf32, Type) == eType
    ensures Read(HeaderBytes(eType, eMachine, size), Elf32, Machine) == eMachine
  {
    var raw := HeaderBytes(eType, eMachine, size);
    assert raw[0..2] == [eType % 256, eType / 256];
    assert raw[2..4] == [eMachine % 256, eMachine / 256];
    assert Le(raw[0..2]) == eType % 256 + 256 * Le([eType / 256]);
    assert Le(raw[2..4]) == eMachine % 256 + 256 * Le([eMachine / 256]);
  }

  lemma TypeLine0102()
    ensures "Type: " + Hex(0x0102, 8) + ", " + TypeLabel(0x0102) == "Type: " + "00000102" + ", " + "Executable file"
  {
    Pow16Widths();
    assert Hex(1, 1) == "1";
    assert Hex(0x10, 2) == Hex(1, 1) + "0";
    assert Hex(0x0102, 3) == Hex(0x10, 2) + "2";
    HexPadding(0x0102, 3, 5);
    assert seq(5, _ => '0') == "00000";
    assert Hex(0x0102, 8) == "00000102";
  }

  lemma MachineLine3()
    ensures "Machine: " + Hex(3, 8) + ", " + MachineLabel(3) == "Machine: " + "00000003" + ", " + "Intel 80386"
  {
    Pow16Widths();
    HexPadding(3, 1, 7);
    assert seq(7, _ => '0') == "0000000";
    assert Hex(3, 8) == "00000003";
  }

  /** Machine 11 is RS6000; 50 is past the table. */
  lemma MachineLines()
    ensures MachineLabel(11) == "RS6000"
    ensures MachineLabel(50) == "Unknown machine*"
    ensures MachineLabel(0) != MachineLabel(50)
  {
  }

  /** A 10-byte file stops at the identification read: one diagnostic, no report, status 1. */
  lemma TenByteFile()
    ensures Run(seq(10, _ => 0x7F)) == Outcome([], ["Fatal error while reading magic bytes"], 1)
  {
  }

  /** One header byte short fails for either class; the exact size and any
      longer file succeed, the extra bytes unread. */
  lemma HeaderLengthBoundary(c: Class, extra: nat)
    ensures var ident := Ident(if c == Elf32 then 1 else 2, 1, 1, 0);
            && ReadElf(ident + seq(Size(c) - 1, _ => 0)) == Fail(TruncatedHeader)
            && ReadElf(ident + seq(Size(c) + extra, _ => 0)).Ok?
  {
    var ident := Ident(if c == Elf32 then 1 else 2, 1, 1, 0);
    assert (ident + seq(Size(c) - 1, _ => 0))[..4] == ElfMagic;
    assert (ident + seq(Size(c) + extra, _ => 0))[..4] == ElfMagic;
  }
}
