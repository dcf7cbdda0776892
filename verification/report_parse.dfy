/** Reading the report back. The hex columns of the report are a lossless
    rendering: the identification bytes, bytes 4 to 7 and the decoded e_type
    and e_machine can all be recovered from the text. */
module ReportParse {
  import opened Bytes
  import opened HexText
  import opened Layout
  import opened ElfReader

  /** The bytes of a run of " XX" groups. */
  function ParseIdentBytes(s: string): (bs: seq<byte>)
    ensures |bs| == |s| / 3
  {
    Pow16Widths();
    if |s| < 3 then [] else [ParseHex(s[1..3])] + ParseIdentBytes(s[3..])
  }

  /** The value of the `digits` hex digits that start at column `start`, or 0
      when the line is too short to hold them. */
  function HexField(line: string, start: nat, digits: nat): (v: nat)
    ensures v < Pow16(digits)
  {
    if start + digits <= |line| then ParseHex(line[start .. start + digits]) else 0
  }

  /** The identification bytes shown on the first line of a report. */
  function IdentOfReport(lines: seq<string>): seq<byte> {
    if |lines| > 0 && |lines[0]| >= 6 then ParseIdentBytes(lines[0][6..]) else []
  }

  /** The ident dump reads back as the bytes it shows. */
  lemma {:induction false} ParseIdentBytesOfIdentHex(bs: seq<byte>)
    ensures ParseIdentBytes(IdentHex(bs)) == bs
  {
    if |bs| > 0 {
      Pow16Widths();
      var s := IdentHex(bs);
      assert s == " " + Hex(bs[0], 2) + IdentHex(bs[1..]);
      assert s[1..3] == Hex(bs[0], 2);
      assert s[3..] == IdentHex(bs[1..]);
      ParseHexOfHex(bs[0], 2);
      ParseIdentBytesOfIdentHex(bs[1..]);
    }
  }

  /** The value field of a report line reads back as the value rendered. */
  lemma FieldLineHex(name: string, v: nat, digits: nat, text: string)
    requires v < Pow16(digits)
    ensures HexField(FieldLine(name, v, digits, text), |name|, digits) == v
  {
    var line := FieldLine(name, v, digits, text);
    assert line[|name| .. |name| + digits] == Hex(v, digits);
    ParseHexOfHex(v, digits);
  }

  /** Every hex column of a successful report reads back as the value it
      stands for: the 16 identification bytes, bytes 4 to 7, and e_type and
      e_machine of the header the class selected. */
  lemma ReportRecoversValues(file: seq<byte>)
    requires ReadElf(file).Ok?
    ensures var lines := Run(file).stdout;
            var h := Header(ReadElf(file).value);
            && IdentOfReport(lines) == file[..IdentSize]
            && HexField(lines[1], 7, 2) == file[4]
            && HexField(lines[2], 15, 2) == file[5]
            && HexField(lines[3], 12, 2) == file[6]
            && HexField(lines[4], 7, 2) == file[7]
            && HexField(lines[6], 6, 8) == h.EType()
            && HexField(lines[7], 9, 8) == h.EMachine()
  {
    var e := ReadElf(file).value;
    var lines := Run(file).stdout;
    var h := Header(e);
    Pow16Widths();
    Pow256Widths();
    ReportShowsIdentFields(file);
    ReportShowsSelectedHeader(file);
    assert lines[0][6..] == IdentHex(e.ident);
    ParseIdentBytesOfIdentHex(e.ident);
    FieldLineHex("Class: ", file[4], 2, Labels.ClassLabel(file[4]));
    FieldLineHex("Data encoding: ", file[5], 2, Labels.DataLabel(file[5]));
    FieldLineHex("EI version: ", file[6], 2, Labels.VersionLabel(file[6]));
    FieldLineHex("OSABI: ", file[7], 2, Labels.OsAbiLabel(file[7]));
    FieldLineHex("Type: ", h.EType(), 8, Labels.TypeLabel(h.EType()));
    FieldLineHex("Machine: ", h.EMachine(), 8, Labels.MachineLabel(h.EMachine()));
  }
}
