/** The reader itself: identification check, class dispatch, header read and
    the text report, with the file abstracted as its byte contents and the
    program's observable behaviour as its standard output lines, its
    diagnostic and its exit status. */
module ElfReader {
  import opened Bytes
  import opened HexText
  import opened Layout
  import opened Labels

  /** Length of the identification block (`EI_NIDENT`). */
  const IdentSize: nat := 16

  /** 0x7F 'E' 'L' 'F'. */
  const ElfMagic: seq<byte> := [0x7F, 0x45, 0x4C, 0x46]

  /** Why the reader gave up; each is reported on standard error with exit status 1. */
  datatype Err = TruncatedIdent | BadMagic | BadClass | TruncatedHeader

  datatype Result<T> = Ok(value: T) | Fail(err: Err)

  /** Everything the checks let through: the identification block, the class
      byte 4 selected, and the header bytes read for that class. */
  datatype Elf = Elf(ident: seq<byte>, cls: Class, raw: seq<byte>)

  /** The identification block starts with the ELF magic, compared byte for byte. */
  function HasMagic(ident: seq<byte>): (ok: bool)
    requires |ident| >= 4
    ensures ok <==> ident[0] == 0x7F && ident[1] == 'E' as byte
                    && ident[2] == 'L' as byte && ident[3] == 'F' as byte
  {
    ident[..4] == ElfMagic
  }

  /** The layout identification byte 4 selects, if any. */
  function ClassOf(b: byte): (c: Result<Class>)
    ensures c.Ok? <==> b == 1 || b == 2
    ensures c.Ok? ==> (c.value == Elf32 <==> b == 1)
    ensures c.Fail? ==> c.err == BadClass
  {
    if 0x01 == b then Ok(Elf32) else if 0x02 == b then Ok(Elf64) else Fail(BadClass)
  }

  /** The checks and reads of `main`, in their order: 16 identification bytes,
      the magic, the class byte, then `sizeof` the selected header. Bytes past
      the header are never read. */
  function ReadElf(file: seq<byte>): (r: Result<Elf>)
    ensures r == Fail(TruncatedIdent) <==> |file| < IdentSize
    ensures r == Fail(BadMagic) <==> IdentSize <= |file| && !HasMagic(file)
    ensures r == Fail(BadClass) <==>
      IdentSize <= |file| && HasMagic(file) && file[4] != 1 && file[4] != 2
    ensures r == Fail(TruncatedHeader) <==>
      IdentSize <= |file| && HasMagic(file)
      && ((file[4] == 1 && |file| < IdentSize + 36) || (file[4] == 2 && |file| < IdentSize + 48))
    ensures r.Ok? ==>
      && r.value.ident == file[..IdentSize]
      && (r.value.cls == Elf32 <==> file[4] == 1)
      && (r.value.cls == Elf64 <==> file[4] == 2)
      && r.value.raw == file[IdentSize .. IdentSize + Size(r.value.cls)]
  {
    if |file| < IdentSize then Fail(TruncatedIdent)
    else
      var ident := file[..IdentSize];
      if !HasMagic(ident) then Fail(BadMagic)
      else
        match ClassOf(ident[4])
        case Fail(e) => Fail(e)
        case Ok(c) =>
          if |file| - IdentSize < Size(c) then Fail(TruncatedHeader)
          else Ok(Elf(ident, c, file[IdentSize .. IdentSize + Size(c)]))
  }

  /** An identification block and header bytes that every check of `main`
      accepts. */
  predicate WellFormed(e: Elf) {
    && |e.ident| == IdentSize
    && HasMagic(e.ident)
    && ClassOf(e.ident[4]) == Ok(e.cls)
    && |e.raw| == Size(e.cls)
  }

  /** A file that starts with a well-formed identification block and header
      reads back as exactly those, whatever follows them. */
  lemma ReadElfAcceptsWellFormed(e: Elf, trailing: seq<byte>)
    requires WellFormed(e)
    ensures ReadElf(e.ident + e.raw + trailing) == Ok(e)
  {
    var file := e.ident + e.raw + trailing;
    assert file[..IdentSize] == e.ident;
    assert file[..IdentSize][..4] == file[..4];
    assert file[IdentSize .. IdentSize + Size(e.cls)] == e.raw;
  }

  /** Whatever `main` accepts is well-formed, and the file is its
      identification block, its header bytes and bytes never read. */
  lemma ReadElfYieldsWellFormed(file: seq<byte>)
    requires ReadElf(file).Ok?
    ensures var e := ReadElf(file).value;
            && WellFormed(e)
            && file == e.ident + e.raw + file[IdentSize + Size(e.cls)..]
  {
    var e := ReadElf(file).value;
    assert e.ident[..4] == file[..4];
    assert file == file[..IdentSize] + file[IdentSize .. IdentSize + Size(e.cls)]
                   + file[IdentSize + Size(e.cls)..];
  }

  /** The header decoded with the layout the class selected. */
  function Header(e: Elf): FileHeader
    requires Size(e.cls) <= |e.raw|
  {
    Decode(e.raw, e.cls)
  }

  /** Characters 3i to 3i+2 of s: the i-th group of the ident dump. */
  function Group(s: string, i: nat): string
    requires 3 * i + 3 <= |s|
  {
    s[3 * i .. 3 * i + 3]
  }

  /** Prefixing one three-character group moves every later group up by one. */
  lemma GroupsShift(h: string, rest: string)
    requires |h| == 3 && |rest| % 3 == 0
    ensures forall i :: 1 <= i <= |rest| / 3 ==> Group(h + rest, i) == Group(rest, i - 1)
  {
    forall i | 1 <= i <= |rest| / 3
      ensures Group(h + rest, i) == Group(rest, i - 1)
    {
      assert (h + rest)[3 * i .. 3 * i + 3] == rest[3 * (i - 1) .. 3 * (i - 1) + 3];
    }
  }

  /** The identification bytes as `printf(" %02X")` prints each in turn:
      group i of the dump is a space and the two upper-case hex digits of byte i. */
  function IdentHex(bs: seq<byte>): (s: string)
    ensures |s| == 3 * |bs|
    ensures forall i :: 0 <= i < |bs| ==> bs[i] < Pow16(2) && Group(s, i) == " " + Hex(bs[i], 2)
  {
    Pow16Widths();
    if |bs| == 0 then ""
    else
      var rest := IdentHex(bs[1..]);
      var h := " " + Hex(bs[0], 2);
      GroupsShift(h, rest);
      assert Group(h + rest, 0) == h;
      h + rest
  }

  /** The line shows field `name` with value v: the name, then v in `digits`
      hex digits, then ", " and the label. */
  predicate ShowsField(line: string, name: string, v: nat, digits: nat, text: string) {
    && v < Pow16(digits)
    && |line| == |name| + digits + 2 + |text|
    && line[..|name|] == name
    && line[|name| .. |name| + digits] == Hex(v, digits)
    && line[|name| + digits .. |name| + digits + 2] == ", "
    && line[|name| + digits + 2 ..] == text
  }

  /** One report line: the field name, its value in `digits` hex digits, and its label. */
  function FieldLine(name: string, v: nat, digits: nat, text: string): (line: string)
    requires v < Pow16(digits)
    ensures ShowsField(line, name, v, digits, text)
  {
    name + Hex(v, digits) + ", " + text
  }

  /** The report `print_header` writes, one field per line. */
  datatype Report = Report(
    identLine: string, classLine: string, dataLine: string, versionLine: string,
    osAbiLine: string, typeLine: string, machineLine: string)
  {
    /** The report as standard output lines, in the source's order; the blank
        line is the second newline written after the OS/ABI line. */
    function Lines(): (lines: seq<string>)
      ensures |lines| == 8 && lines[5] == ""
      ensures lines[0] == identLine && lines[1] == classLine && lines[2] == dataLine
      ensures lines[3] == versionLine && lines[4] == osAbiLine
      ensures lines[6] == typeLine && lines[7] == machineLine
    {
      [identLine, classLine, dataLine, versionLine, osAbiLine, "", typeLine, machineLine]
    }
  }

  /** What `print_header` prints. Type and machine are read through the
      32-bit view of the header bytes whatever the class: e_type is header
      bytes 0-1 and e_machine bytes 2-3, least significant first. */
  function PrintHeader(ident: seq<byte>, cls: byte, raw: seq<byte>): (r: Report)
    requires |ident| == IdentSize && Size(Elf32) <= |raw|
    ensures |r.identLine| == 6 + 3 * IdentSize && r.identLine[..6] == "Ident:"
    ensures forall i :: 0 <= i < IdentSize ==>
      ident[i] < Pow16(2) && Group(r.identLine[6..], i) == " " + Hex(ident[i], 2)
    ensures ShowsField(r.classLine, "Class: ", cls, 2, ClassLabel(cls))
    ensures ShowsField(r.dataLine, "Data encoding: ", ident[5], 2, DataLabel(ident[5]))
    ensures ShowsField(r.versionLine, "EI version: ", ident[6], 2, VersionLabel(ident[6]))
    ensures ShowsField(r.osAbiLine, "OSABI: ", ident[7], 2, OsAbiLabel(ident[7]))
    ensures ShowsField(r.typeLine, "Type: ", Le(raw[0..2]), 8, TypeLabel(Le(raw[0..2])))
    ensures ShowsField(r.machineLine, "Machine: ", Le(raw[2..4]), 8, MachineLabel(Le(raw[2..4])))
  {
    var eType := Read(raw, Elf32, Type);
    var eMachine := Read(raw, Elf32, Machine);
    Pow256Widths();
    Pow16Widths();
    assert eType == Le(raw[0..2]) && eMachine == Le(raw[2..4]);
    var identLine := "Ident:" + IdentHex(ident);
    assert identLine[..6] == "Ident:" && identLine[6..] == IdentHex(ident);
    Report(
      identLine,
      FieldLine("Class: ", cls, 2, ClassLabel(cls)),
      FieldLine("Data encoding: ", ident[5], 2, DataLabel(ident[5])),
      FieldLine("EI version: ", ident[6], 2, VersionLabel(ident[6])),
      FieldLine("OSABI: ", ident[7], 2, OsAbiLabel(ident[7])),
      FieldLine("Type: ", eType, 8, TypeLabel(eType)),
      FieldLine("Machine: ", eMachine, 8, MachineLabel(eMachine)))
  }

  /** The line `main` writes to standard error before exiting with status 1. */
  function Diagnostic(e: Err): (msg: string)
    ensures msg != ""
  {
    match e
    case TruncatedIdent => "Fatal error while reading magic bytes"
    case BadMagic => "Supplied file is NOT an elf file. (wrong magicbytes)"
    case BadClass => "Invalid efl file: class is invalid"
    case TruncatedHeader => "Fatal error while reading elfheader"
  }

  /** What one run of the program on a file's contents shows. */
  datatype Outcome = Outcome(stdout: seq<string>, stderr: seq<string>, exitCode: int)

  /** The whole program on the contents of its argument file: either the
      report and status 0, or one diagnostic, no report and status 1. */
  function Run(file: seq<byte>): (o: Outcome)
    ensures o.exitCode == 0 || o.exitCode == 1
    ensures o.exitCode == 0 <==> ReadElf(file).Ok?
    ensures o.exitCode == 0 ==> |o.stdout| == 8 && o.stderr == []
    ensures o.exitCode == 1 ==> o.stdout == [] && |o.stderr| == 1
  {
    match ReadElf(file)
    case Fail(e) => Outcome([], [Diagnostic(e)], 1)
    case Ok(elf) => Outcome(PrintHeader(elf.ident, elf.ident[4], elf.raw).Lines(), [], 0)
  }

  /** The type and machine lines show the e_type and e_machine of the layout
      the class selected, though `print_header` reads them through the 32-bit
      view: both layouts put those fields at offsets 0 and 2. */
  lemma ReportShowsSelectedHeader(file: seq<byte>)
    requires ReadElf(file).Ok?
    ensures var e := ReadElf(file).value;
            var h := Header(e);
            var lines := Run(file).stdout;
            && lines[6] == "Type: " + Hex(h.EType(), 8) + ", " + TypeLabel(h.EType())
            && lines[7] == "Machine: " + Hex(h.EMachine(), 8) + ", " + MachineLabel(h.EMachine())
  {
    var e := ReadElf(file).value;
    Pow16Widths();
    View32ReadsTypeAndMachine(e.raw, e.cls);
  }

  /** The report opens with the dump of the 16 identification bytes; the
      lines between it and the blank line show bytes 4 to 7 of the file, in
      that order, each with its label. */
  lemma ReportShowsIdentFields(file: seq<byte>)
    requires ReadElf(file).Ok?
    ensures var lines := Run(file).stdout;
            && lines[0] == "Ident:" + IdentHex(file[..IdentSize])
            && lines[5] == ""
            && lines[1] == "Class: " + Hex(file[4], 2) + ", " + ClassLabel(file[4])
            && lines[2] == "Data encoding: " + Hex(file[5], 2) + ", " + DataLabel(file[5])
            && lines[3] == "EI version: " + Hex(file[6], 2) + ", " + VersionLabel(file[6])
            && lines[4] == "OSABI: " + Hex(file[7], 2) + ", " + OsAbiLabel(file[7])
  {
    Pow16Widths();
    var e := ReadElf(file).value;
    assert e.ident[4..8] == file[4..8];
  }

  /** Only the two known classes get past the dispatch, so the class line of
      any report is one of two texts. */
  lemma ReportClassLine(file: seq<byte>)
    requires ReadElf(file).Ok?
    ensures || Run(file).stdout[1] == "Class: " + "01" + ", " + "32-bit"
            || Run(file).stdout[1] == "Class: " + "02" + ", " + "64-bit"
  {
    ReportShowsIdentFields(file);
    ClassTexts();
  }

  lemma ClassTexts()
    ensures FieldLine("Class: ", 1, 2, ClassLabel(1)) == "Class: " + "01" + ", " + "32-bit"
    ensures FieldLine("Class: ", 2, 2, ClassLabel(2)) == "Class: " + "02" + ", " + "64-bit"
  {
    Pow16Widths();
    assert Hex(0, 1) == "0";
    assert Hex(1, 2) == "01";
    assert Hex(2, 2) == "02";
  }
}
