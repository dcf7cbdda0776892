/** The code-to-text tables of the report. Each label function follows the
    `switch` of the source case for case. Each contract states the codes that
    get a label. For data encoding, OS/ABI, type and machine it also relates
    the label to a separate table of the same names; the class and version
    labels are pinned to their texts directly. */
module Labels {
  import opened Bytes

  /** Label of identification byte 4 (class). */
  function ClassLabel(c: byte): (r: string)
    ensures r != "" <==> c == 1 || c == 2
    ensures c == 1 ==> r == "32-bit"
    ensures c == 2 ==> r == "64-bit"
  {
    match c
    case 1 => "32-bit"
    case 2 => "64-bit"
    case _ => ""
  }

  /** Label of identification byte 5 (data encoding). */
  function DataLabel(d: byte): (r: string)
    ensures r != "" <==> d <= 2
    ensures d in DataNames ==> r == DataNames[d]
  {
    match d
    case 1 => "Two's complement, little-endian"
    case 2 => "Two's complement, big-endian"
    case 0 => "Unknown data format"
    case _ => ""
  }

  const DataNames: map<byte, string> := map[
    0 := "Unknown data format",
    1 := "Two's complement, little-endian",
    2 := "Two's complement, big-endian"]

  /** Label of identification byte 6 (EI version): only version 1 is current. */
  function VersionLabel(v: byte): (r: string)
    ensures r == "Current" <==> v == 1
    ensures r == "Invalid" <==> v != 1
  {
    if 1 == v then "Current" else "Invalid"
  }

  /** The OS/ABI codes that carry a name: 0x00-0x03, 0x06-0x0d, 0x61 and 0xff.
      Codes 0x04 and 0x05 have none. */
  const OsAbiCodes: set<byte> := {0x00, 0x01, 0x02, 0x03, 0x06, 0x07, 0x08, 0x09,
                                  0x0a, 0x0b, 0x0c, 0x0d, 0x61, 0xff}

  const OsAbiNames: map<byte, string> := map[
    0x00 := "No extension or unspecified",
    0x01 := "HP-UX",
    0x02 := "NetBSD",
    0x03 := "Linux",
    0x06 := "Sun Solaris",
    0x07 := "AIX",
    0x08 := "IRIX",
    0x09 := "FreeBSD",
    0x0a := "TRU64 UNIX",
    0x0b := "Novell Modesto",
    0x0c := "Open BSD",
    0x0d := "Open VMS",
    0x61 := "ARM",
    0xff := "Standalone (embedded) application"]

  /** Label of identification byte 7 (OS/ABI). */
  function OsAbiLabel(b: byte): (r: string)
    ensures r != "" <==> b in OsAbiCodes
    ensures b in OsAbiNames ==> r == OsAbiNames[b]
    ensures b !in OsAbiNames ==> r == ""
  {
    match b
    case 0x00 => "No extension or unspecified"
    case 0x01 => "HP-UX"
    case 0x02 => "NetBSD"
    case 0x03 => "Linux"
    case 0x06 => "Sun Solaris"
    case 0x07 => "AIX"
    case 0x08 => "IRIX"
    case 0x09 => "FreeBSD"
    case 0x0a => "TRU64 UNIX"
    case 0x0b => "Novell Modesto"
    case 0x0c => "Open BSD"
    case 0x0d => "Open VMS"
    case 0x61 => "ARM"
    case 0xff => "Standalone (embedded) application"
    case _ => ""
  }

  const TypeNames: map<byte, string> := map[
    0 := "Unknown file",
    1 := "Relocatable file",
    2 := "Executable file",
    3 := "Shared object",
    4 := "Core file"]

  /** Label of e_type. The source casts the field to `uint8_t` before the
      switch, so only its low byte decides the label. */
  function TypeLabel(t: u16): (r: string)
    ensures r != "" <==> t % 256 <= 4
    ensures t % 256 in TypeNames ==> r == TypeNames[t % 256]
  {
    match t % 256
    case 0 => "Unknown file"
    case 1 => "Relocatable file"
    case 2 => "Executable file"
    case 3 => "Shared object"
    case 4 => "Core file"
    case _ => ""
  }

  /** Types with the same low byte get the same label. */
  lemma TypeLabelLowByteOnly(t: u16, t': u16)
    requires t % 256 == t' % 256
    ensures TypeLabel(t) == TypeLabel(t')
  {
  }

  const MachineNames: map<u16, string> := map[
    1 := "AT&T WE 32100",
    2 := "Sun Microsystems SPARC",
    3 := "Intel 80386",
    4 := "Motorola 68000",
    5 := "Motorola 88000",
    6 := "Intel 80860",
    7 := "Intel i860",
    8 := "MIPS RS3000 Big-Endian",
    9 := "IBM System/370 Processor",
    10 := "MIPS RS3000 Little-Endian",
    11 := "RS6000"]

  /** Label of e_machine; every code gets one. Code 0 keeps the source's
      spelling "Unknowe machine". */
  function MachineLabel(m: u16): (r: string)
    ensures r != ""
    ensures 1 <= m <= 11 ==> m in MachineNames && r == MachineNames[m]
    ensures m == 0 ==> r == "Unknowe machine"
    ensures m > 11 ==> r == "Unknown machine*"
  {
    match m
    case 0 => "Unknowe machine"
    case 1 => "AT&T WE 32100"
    case 2 => "Sun Microsystems SPARC"
    case 3 => "Intel 80386"
    case 4 => "Motorola 68000"
    case 5 => "Motorola 88000"
    case 6 => "Intel 80860"
    case 7 => "Intel i860"
    case 8 => "MIPS RS3000 Big-Endian"
    case 9 => "IBM System/370 Processor"
    case 10 => "MIPS RS3000 Little-Endian"
    case 11 => "RS6000"
    case _ => "Unknown machine*"
  }
}
