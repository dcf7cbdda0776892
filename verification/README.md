# elfreader, modelled in Dafny

`elfreader` reads the 16-byte identification block and the file header of an
ELF binary and prints them as text. It follows the "ELF Identification" and
"ELF Header" parts of chapter 4 (Object Files) of the System V Application
Binary Interface. It checks the magic bytes `7F 45 4C 46`. Byte 4 (the class)
selects the 32-bit header `elfhdr32` (36 bytes) or the 64-bit header
`elfhdr64` (48 bytes). The program reads that many bytes after the block and
prints a report. The report has the identification bytes in hex, the class,
data encoding, version and OS/ABI bytes with their labels, and the e_type and
e_machine fields with their labels.

The model is a set of pure functions over the file's contents (`seq<byte>`):

- `bytes.dfy` (`Bytes`): bytes and fixed-width unsigned integers. Little-endian
  decoding `Le` and its inverse `EncodeLe`.
- `hex.dfy` (`HexText`): fixed-width upper-case hex as `%02X` and `%08X` print
  it. `ParseHex` is its inverse.
- `layout.dfy` (`Layout`): the two header layouts as offset/width tables. It
  holds the header records, decoding by slot, and encoding as the inverse of
  decoding.
- `labels.dfy` (`Labels`): the six code-to-label switches. The data
  encoding, OS/ABI, type and machine labels are each related to a separate
  table of the same names. The class and version labels are stated directly.
- `elfreader.dfy` (`ElfReader`): `ReadElf`, which runs the checks of `main` in
  order and returns `Ok(Elf)` or one of four errors. `PrintHeader` is the
  report of `print_header`. `Run` gives the whole program's standard output,
  standard error and exit status.
- `report_parse.dfy` (`ReportParse`): reads the hex columns back out of a
  report, which shows the rendering loses nothing.
- `magic.dfy` (`MagicCheck`): the magic comparison as the source writes it
  (see Findings).
- `scenarios.dfy` (`Scenarios`): concrete files and the exact lines they produce.

All of these are functions of the file's bytes. Reading the same file twice
therefore gives the same report, by construction.

Three facts about elfreader.c that the model keeps:

- The header read succeeds when *at least* 36 or 48 bytes follow the
  identification block: `fread` reads that many and never looks at the rest
  of the file.
- Labels are the source's exact strings. This includes "Unknown data format"
  and the machine-0 label "Unknowe machine". OS/ABI codes 0x04 and 0x05 have
  no label, because the switch has no case for them.
- e_type and e_machine are 16-bit fields. `%08X` prints them as eight digits,
  so the first four digits are always zero.

## Model

| member | source | states |
|---|---|---|
| `Bytes.Le` | elfreader.c:12-42 | a field of w bytes decodes to a value below 256^w, so it fits its C type |
| `Bytes.LeEncodeLe` | elfreader.c:12-42 | decoding a w-byte little-endian encoding gives back the encoded value |
| `Bytes.EncodeLeLe` | elfreader.c:12-42 | re-encoding the decoded value gives back the original bytes, so decoding loses nothing |
| `Layout.LayoutIsPacked` | elfreader.c:12-42 | in both layouts the fields are contiguous in declaration order from offset 0 and end at 36 or 48 bytes; each offset is a multiple of its width, and the size is a multiple of the widest field, so the structs have no padding between fields or at the end |
| `Layout.FieldsDisjoint` | elfreader.c:12-42 | no two fields of one layout overlap |
| `Layout.SharedPrefix` | elfreader.c:12-42 | e_type, e_machine and e_version have the same offset and width in both layouts |
| `Layout.Read` | elfreader.c:12-42 | a field read from its slot is below 256^width |
| `Layout.Decode32Encode32` | elfreader.c:12-26 | decoding the bytes of any `elfhdr32` gives back that header |
| `Layout.Encode32Decode32` | elfreader.c:12-26 | the 36 bytes a 32-bit header is read from are exactly the encoding of the decoded header |
| `Layout.Decode64Encode64` | elfreader.c:28-42 | decoding the bytes of any `elfhdr64` gives back that header |
| `Layout.Encode64Decode64` | elfreader.c:28-42 | the 48 bytes a 64-bit header is read from are exactly the encoding of the decoded header |
| `Layout.View32ReadsTypeAndMachine` | elfreader.c:131-153 | reading e_type and e_machine through the 32-bit view gives the values of the header of whichever class was selected |
| `Labels.ClassLabel` | elfreader.c:51-60 | the label is non-empty exactly for classes 1 and 2, which are "32-bit" and "64-bit" |
| `Labels.DataLabel` | elfreader.c:62-74 | the label is non-empty exactly for encodings 0, 1 and 2, and agrees with the encoding table |
| `Labels.VersionLabel` | elfreader.c:76-82 | "Current" exactly when the version byte is 1, otherwise "Invalid" |
| `Labels.OsAbiLabel` | elfreader.c:84-129 | the label is non-empty exactly for 0x00-0x03, 0x06-0x0d, 0x61 and 0xff, and agrees with the OS/ABI table; it is empty for all other codes |
| `Labels.TypeLabel` | elfreader.c:132-150 | the label is non-empty exactly when the low byte of e_type is 0..4, and then it is that entry of the type table |
| `Labels.TypeLabelLowByteOnly` | elfreader.c:133 | two type values with the same low byte get the same label |
| `Labels.MachineLabel` | elfreader.c:152-193 | the label is never empty: codes 1..11 use the machine table, 0 gives "Unknowe machine", and every code above 11 gives "Unknown machine*" |
| `HexText.Hex` | elfreader.c:47 | the value is rendered in exactly the requested number of digits |
| `HexText.HexIsUpperHex` | elfreader.c:47 | every rendered character is 0-9 or A-F |
| `HexText.ParseHexOfHex` | elfreader.c:47 | reading the rendered digits back gives the value, so the rendering is lossless |
| `HexText.HexInjective` | elfreader.c:47 | distinct values render as distinct text |
| `HexText.HexPadding` | elfreader.c:132 | a wider field only adds leading zeros, so `%08X` of a 16-bit value is "0000" plus its four digits |
| `ElfReader.HasMagic` | elfreader.c:218-224 | the block is accepted exactly when bytes 0..3 are 0x7F 'E' 'L' 'F', compared byte by byte |
| `ElfReader.ClassOf` | elfreader.c:226-250 | class 1 selects the 32-bit layout and class 2 the 64-bit layout; any other value fails with the bad-class error |
| `ElfReader.ReadElf` | elfreader.c:211-250 | fewer than 16 bytes gives the truncated-ident error; otherwise a bad magic gives the bad-magic error; otherwise a class other than 1 or 2 gives the bad-class error; otherwise fewer than 36 or 48 bytes after the block gives the truncated-header error. Each error happens exactly in its case. On success the result is the block, the selected class and the next 36 or 48 bytes |
| `ElfReader.ReadElfAcceptsWellFormed` | elfreader.c:211-250 | a valid block followed by a full header for its class is accepted and read back unchanged, whatever bytes follow it |
| `ElfReader.ReadElfYieldsWellFormed` | elfreader.c:211-250 | everything accepted is a valid block and a full header, and the file is those followed by bytes never read |
| `ElfReader.IdentHex` | elfreader.c:45-49 | the dump has three characters per identification byte: group i is a space followed by the two upper-case hex digits of byte i |
| `ElfReader.FieldLine` | elfreader.c:51-193 | a field line is the field name, then the value in the given number of hex digits, then ", " and the label, each at its own columns |
| `ElfReader.PrintHeader` | elfreader.c:44-193 | the ident line is "Ident:" and one group per identification byte. The class, data, version and OS/ABI lines show bytes 4-7 in two digits with their labels. The type and machine lines show header bytes 0-1 and 2-3, read least significant first, in eight digits with their labels, whatever the class |
| `ElfReader.Run` | elfreader.c:211-255 | exit status is 0 exactly when every check passes, and then standard output has the 8 report lines; otherwise status is 1, there is one diagnostic, and no report line is printed |
| `ElfReader.ReportShowsIdentFields` | elfreader.c:45-129 | line 0 is the ident dump, lines 1-4 are class, data encoding, version and OS/ABI in that order (two hex digits and the label), and line 5 is blank |
| `ElfReader.ReportClassLine` | elfreader.c:51-60 | the class line of any report is "Class: 01, 32-bit" or "Class: 02, 64-bit" |
| `ElfReader.ReportShowsSelectedHeader` | elfreader.c:131-153 | the type and machine lines show the e_type and e_machine of the selected layout in 8 hex digits, each with its label |
| `ReportParse.ParseIdentBytesOfIdentHex` | elfreader.c:45-49 | the ident dump reads back as the bytes it shows |
| `ReportParse.ReportRecoversValues` | elfreader.c:44-193 | every hex column of a report reads back as its value: the 16 ident bytes, bytes 4-7, and e_type and e_machine of the selected header |
| `MagicCheck.CStrEqual` | elfreader.c:221 | `strcmp` against a string whose only NUL is its last byte reports equality exactly when the buffers are equal |
| `MagicCheck.MagicCheckAsWritten` | elfreader.c:218-224 | the check as written accepts exactly when the magic is right AND the unset fifth byte of `magicbytes` is 0 |
| `MagicCheck.MagicCheckAsWrittenRejectsElf` | elfreader.c:218-224 | a genuine ELF identification block is rejected when the unset byte holds 1 |
| `Scenarios.IdentLinesOfPlain32BitFile` | elfreader.c:51-129 | for class 1, little-endian, version 1 and OS/ABI 0, lines 1-4 are "Class: 01, 32-bit", "Data encoding: 01, Two's complement, little-endian", "EI version: 01, Current" and "OSABI: 00, No extension or unspecified" |
| `Scenarios.OsAbiLineLinux` | elfreader.c:84-97 | OS/ABI 0x03 prints "OSABI: 03, Linux" |
| `Scenarios.OsAbiLineUnlabelled` | elfreader.c:84-129 | OS/ABI 0x99 prints its code and no label |
| `Scenarios.TypeLineUsesLowByte` | elfreader.c:131-164 | for either class, e_type 0x0102 prints "Type: 00000102, Executable file", and e_machine 3 prints "Machine: 00000003, Intel 80386" |
| `Scenarios.MachineLines` | elfreader.c:152-192 | machine 11 is "RS6000"; machine 50 is "Unknown machine*", which differs from the label of machine 0 |
| `Scenarios.TenByteFile` | elfreader.c:211-216 | a 10-byte file gives the diagnostic "Fatal error while reading magic bytes", no report and status 1 |
| `Scenarios.HeaderLengthBoundary` | elfreader.c:229-246 | one byte short of the header fails with the truncated-header error for either class; the full header, with any number of extra bytes, is accepted |

## Left out

- Argument count check, `fopen` and its `perror` (elfreader.c:200-209): I/O plumbing. The model starts from the file's contents.
- The global `FILE*`, `malloc`/`free` and `exit`: the model replaces them with a byte sequence, immutable values, and an exit status in `Outcome`.
- Host byte order of the struct overlay: the model fixes little-endian decoding. Identification byte 5 is reported but never used to swap bytes, and the source does the same.
- The dead `header64` assignment (elfreader.c:195-197): it has no observable effect.
- Header fields other than e_type and e_machine: the model decodes them, but it states no output property about them because nothing prints them.
- `printf` mechanics: the model keeps the exact label strings, the fixed-width upper-case hex and the line structure. The output stream is a sequence of lines, and each is printed followed by a newline.
- `ElfReader.Diagnostic`: its contract says only that every error has a message. The exact texts are those of the source's `fprintf` calls and are fixed by `Scenarios.TenByteFile` for one case.
- Uninitialised memory in the magic check: the reader uses the intended comparison. The as-written check is modelled with the unset byte as a parameter (see Findings).

## Findings

| source | as written | input that shows it | evidently intended | confidence | as-written member | corrected member |
|---|---|---|---|---|---|---|
| elfreader.c:218-224 | `magicbytes[4]` is never set before `strcmp` compares `magicbytes` with the NUL-terminated "\x7FELF", so acceptance also needs that uninitialised byte to be 0 | identification block `7F 45 4C 46 01 01 01 00` + 8 zero bytes, with 1 in the unset byte: rejected as "NOT an elf file" | accept exactly when bytes 0..3 equal `7F 45 4C 46` | high; not executed | `MagicCheck.MagicCheckAsWrittenRejectsElf` | `ElfReader.HasMagic` |
