/** The two ELF file-header layouts that follow the 16-byte identification
    block (`elfhdr32` and `elfhdr64`), as explicit offset/width tables, and the
    fixed-offset decoding of raw header bytes into records. */
module Layout {
  import opened Bytes

  /** The word-size class named by identification byte 4. */
  datatype Class = Elf32 | Elf64

  /** The header fields, in declaration order. */
  datatype Field =
    | Type | Machine | Version | Entry | PhOff | ShOff | Flags
    | EhSize | PhEntSize | PhNum | ShEntSize | ShNum | ShStrNdx

  /** Every field, in the order the structs declare them. */
  const Fields: seq<Field> :=
    [Type, Machine, Version, Entry, PhOff, ShOff, Flags,
     EhSize, PhEntSize, PhNum, ShEntSize, ShNum, ShStrNdx]

  /** Width in bytes of a field: the address-sized fields widen from 4 to 8 in
      the 64-bit layout; version and flags stay 32-bit; the rest are 16-bit. */
  function Width(c: Class, f: Field): nat {
    match f
    case Type | Machine | EhSize | PhEntSize | PhNum | ShEntSize | ShNum | ShStrNdx => 2
    case Version | Flags => 4
    case Entry | PhOff | ShOff => if c == Elf32 then 4 else 8
  }

  /** Byte offset of a field from the start of the header. */
  function Offset(c: Class, f: Field): nat {
    match c
    case Elf32 =>
      (match f
       case Type => 0  case Machine => 2  case Version => 4  case Entry => 8
       case PhOff => 12  case ShOff => 16  case Flags => 20  case EhSize => 24
       case PhEntSize => 26  case PhNum => 28  case ShEntSize => 30  case ShNum => 32
       case ShStrNdx => 34)
    case Elf64 =>
      (match f
       case Type => 0  case Machine => 2  case Version => 4  case Entry => 8
       case PhOff => 16  case ShOff => 24  case Flags => 32  case EhSize => 36
       case PhEntSize => 38  case PhNum => 40  case ShEntSize => 42  case ShNum => 44
       case ShStrNdx => 46)
  }

  /** `sizeof(elfhdr32)` and `sizeof(elfhdr64)`. */
  function Size(c: Class): nat {
    if c == Elf32 then 36 else 48
  }

  /** The tables describe C structs without padding: fields follow each other
      with no gap, the first at offset 0 and the last ending at the struct
      size, every field sits at a multiple of its own width, and the size is a
      multiple of the widest field, so a compiler following the System V ABI
      alignment rules inserts no padding between fields or at the end. */
  lemma LayoutIsPacked(c: Class)
    ensures Offset(c, Fields[0]) == 0
    ensures forall i :: 0 <= i < |Fields| - 1 ==>
      Offset(c, Fields[i + 1]) == Offset(c, Fields[i]) + Width(c, Fields[i])
    ensures Offset(c, Fields[|Fields| - 1]) + Width(c, Fields[|Fields| - 1]) == Size(c)
    ensures forall f :: Offset(c, f) % Width(c, f) == 0
    ensures forall f :: Width(c, f) <= Width(c, Entry)
    ensures Size(c) % Width(c, Entry) == 0
  {
  }

  /** No two fields of one layout share a byte. */
  lemma FieldsDisjoint(c: Class, f: Field, g: Field)
    requires f != g
    ensures Offset(c, f) + Width(c, f) <= Offset(c, g) || Offset(c, g) + Width(c, g) <= Offset(c, f)
  {
  }

  /** The two layouts agree on the first three fields: e_type at 0, e_machine at
      2 and e_version at 4, with the same widths. */
  lemma SharedPrefix(f: Field)
    requires f in {Type, Machine, Version}
    ensures Offset(Elf32, f) == Offset(Elf64, f)
    ensures Width(Elf32, f) == Width(Elf64, f)
  {
  }

  /** The unsigned value of field f read from raw header bytes laid out as class c. */
  function Read(raw: seq<byte>, c: Class, f: Field): (v: nat)
    requires Size(c) <= |raw|
    ensures v < Pow256(Width(c, f))
  {
    Le(raw[Offset(c, f) .. Offset(c, f) + Width(c, f)])
  }

  /** `elfhdr32`. */
  datatype Header32 = Header32(
    eType: u16, eMachine: u16, eVersion: u32, eEntry: u32, ePhOff: u32, eShOff: u32,
    eFlags: u32, eEhSize: u16, ePhEntSize: u16, ePhNum: u16, eShEntSize: u16,
    eShNum: u16, eShStrNdx: u16)

  /** `elfhdr64`. */
  datatype Header64 = Header64(
    eType: u16, eMachine: u16, eVersion: u32, eEntry: u64, ePhOff: u64, eShOff: u64,
    eFlags: u32, eEhSize: u16, ePhEntSize: u16, ePhNum: u16, eShEntSize: u16,
    eShNum: u16, eShStrNdx: u16)

  /** The header of one class or the other, never both. */
  datatype FileHeader = H32(h32: Header32) | H64(h64: Header64)
  {
    function Class(): Class {
      if H32? then Elf32 else Elf64
    }

    function EType(): u16 {
      if H32? then h32.eType else h64.eType
    }

    function EMachine(): u16 {
      if H32? then h32.eMachine else h64.eMachine
    }
  }

  /** The value of field f in a 32-bit header. */
  function Get32(h: Header32, f: Field): (v: nat)
    ensures v < Pow256(Width(Elf32, f))
  {
    Pow256Widths();
    match f
    case Type => h.eType  case Machine => h.eMachine  case Version => h.eVersion
    case Entry => h.eEntry  case PhOff => h.ePhOff  case ShOff => h.eShOff
    case Flags => h.eFlags  case EhSize => h.eEhSize  case PhEntSize => h.ePhEntSize
    case PhNum => h.ePhNum  case ShEntSize => h.eShEntSize  case ShNum => h.eShNum
    case ShStrNdx => h.eShStrNdx
  }

  /** The value of field f in a 64-bit header. */
  function Get64(h: Header64, f: Field): (v: nat)
    ensures v < Pow256(Width(Elf64, f))
  {
    Pow256Widths();
    match f
    case Type => h.eType  case Machine => h.eMachine  case Version => h.eVersion
    case Entry => h.eEntry  case PhOff => h.ePhOff  case ShOff => h.eShOff
    case Flags => h.eFlags  case EhSize => h.eEhSize  case PhEntSize => h.ePhEntSize
    case PhNum => h.ePhNum  case ShEntSize => h.eShEntSize  case ShNum => h.eShNum
    case ShStrNdx => h.eShStrNdx
  }

  /** The 32-bit header overlaid on the first 36 raw bytes. */
  function Decode32(raw: seq<byte>): (h: Header32)
    requires Size(Elf32) <= |raw|
  {
    Pow256Widths();
    Header32(
      Read(raw, Elf32, Type), Read(raw, Elf32, Machine), Read(raw, Elf32, Version),
      Read(raw, Elf32, Entry), Read(raw, Elf32, PhOff), Read(raw, Elf32, ShOff),
      Read(raw, Elf32, Flags), Read(raw, Elf32, EhSize), Read(raw, Elf32, PhEntSize),
      Read(raw, Elf32, PhNum), Read(raw, Elf32, ShEntSize), Read(raw, Elf32, ShNum),
      Read(raw, Elf32, ShStrNdx))
  }

  /** The 64-bit header overlaid on the first 48 raw bytes. */
  function Decode64(raw: seq<byte>): (h: Header64)
    requires Size(Elf64) <= |raw|
  {
    Pow256Widths();
    Header64(
      Read(raw, Elf64, Type), Read(raw, Elf64, Machine), Read(raw, Elf64, Version),
      Read(raw, Elf64, Entry), Read(raw, Elf64, PhOff), Read(raw, Elf64, ShOff),
      Read(raw, Elf64, Flags), Read(raw, Elf64, EhSize), Read(raw, Elf64, PhEntSize),
      Read(raw, Elf64, PhNum), Read(raw, Elf64, ShEntSize), Read(raw, Elf64, ShNum),
      Read(raw, Elf64, ShStrNdx))
  }

  /** Every field of the decoded 32-bit header is the value in its slot. */
  lemma Decode32Fields(raw: seq<byte>, f: Field)
    requires Size(Elf32) <= |raw|
    ensures Get32(Decode32(raw), f) == Read(raw, Elf32, f)
  {
  }

  /** Every field of the decoded 64-bit header is the value in its slot. */
  lemma Decode64Fields(raw: seq<byte>, f: Field)
    requires Size(Elf64) <= |raw|
    ensures Get64(Decode64(raw), f) == Read(raw, Elf64, f)
  {
  }

  /** The header of class c read from raw bytes: the layout the class selects. */
  function Decode(raw: seq<byte>, c: Class): (h: FileHeader)
    requires Size(c) <= |raw|
    ensures h.Class() == c
  {
    if c == Elf32 then H32(Decode32(raw)) else H64(Decode64(raw))
  }

  /** The bytes of a 32-bit header, fields in declaration order. */
  function Encode32(h: Header32): (raw: seq<byte>)
    ensures |raw| == Size(Elf32)
  {
    EncodeLe(h.eType, 2) + EncodeLe(h.eMachine, 2) + EncodeLe(h.eVersion, 4)
    + EncodeLe(h.eEntry, 4) + EncodeLe(h.ePhOff, 4) + EncodeLe(h.eShOff, 4)
    + EncodeLe(h.eFlags, 4) + EncodeLe(h.eEhSize, 2) + EncodeLe(h.ePhEntSize, 2)
    + EncodeLe(h.ePhNum, 2) + EncodeLe(h.eShEntSize, 2) + EncodeLe(h.eShNum, 2)
    + EncodeLe(h.eShStrNdx, 2)
  }

  /** The bytes of a 64-bit header, fields in declaration order. */
  function Encode64(h: Header64): (raw: seq<byte>)
    ensures |raw| == Size(Elf64)
  {
    EncodeLe(h.eType, 2) + EncodeLe(h.eMachine, 2) + EncodeLe(h.eVersion, 4)
    + EncodeLe(h.eEntry, 8) + EncodeLe(h.ePhOff, 8) + EncodeLe(h.eShOff, 8)
    + EncodeLe(h.eFlags, 4) + EncodeLe(h.eEhSize, 2) + EncodeLe(h.ePhEntSize, 2)
    + EncodeLe(h.ePhNum, 2) + EncodeLe(h.eShEntSize, 2) + EncodeLe(h.eShNum, 2)
    + EncodeLe(h.eShStrNdx, 2)
  }

  /** Each field occupies its own slot of the encoded 32-bit header. */
  lemma Encode32Slot(h: Header32, f: Field)
    ensures Encode32(h)[Offset(Elf32, f) .. Offset(Elf32, f) + Width(Elf32, f)]
         == EncodeLe(Get32(h, f), Width(Elf32, f))
  {
    Pow256Widths();
  }

  /** Each field occupies its own slot of the encoded 64-bit header. */
  lemma Encode64Slot(h: Header64, f: Field)
    ensures Encode64(h)[Offset(Elf64, f) .. Offset(Elf64, f) + Width(Elf64, f)]
         == EncodeLe(Get64(h, f), Width(Elf64, f))
  {
    Pow256Widths();
  }

  /** Two 32-bit headers with equal fields are equal. */
  lemma Header32Ext(h: Header32, k: Header32)
    requires forall f :: Get32(h, f) == Get32(k, f)
    ensures h == k
  {
    assert Get32(h, Type) == Get32(k, Type) && Get32(h, Machine) == Get32(k, Machine);
    assert Get32(h, Version) == Get32(k, Version) && Get32(h, Entry) == Get32(k, Entry);
    assert Get32(h, PhOff) == Get32(k, PhOff) && Get32(h, ShOff) == Get32(k, ShOff);
    assert Get32(h, Flags) == Get32(k, Flags) && Get32(h, EhSize) == Get32(k, EhSize);
    assert Get32(h, PhEntSize) == Get32(k, PhEntSize) && Get32(h, PhNum) == Get32(k, PhNum);
    assert Get32(h, ShEntSize) == Get32(k, ShEntSize) && Get32(h, ShNum) == Get32(k, ShNum);
    assert Get32(h, ShStrNdx) == Get32(k, ShStrNdx);
  }

  /** Two 64-bit headers with equal fields are equal. */
  lemma Header64Ext(h: Header64, k: Header64)
    requires forall f :: Get64(h, f) == Get64(k, f)
    ensures h == k
  {
    assert Get64(h, Type) == Get64(k, Type) && Get64(h, Machine) == Get64(k, Machine);
    assert Get64(h, Version) == Get64(k, Version) && Get64(h, Entry) == Get64(k, Entry);
    assert Get64(h, PhOff) == Get64(k, PhOff) && Get64(h, ShOff) == Get64(k, ShOff);
    assert Get64(h, Flags) == Get64(k, Flags) && Get64(h, EhSize) == Get64(k, EhSize);
    assert Get64(h, PhEntSize) == Get64(k, PhEntSize) && Get64(h, PhNum) == Get64(k, PhNum);
    assert Get64(h, ShEntSize) == Get64(k, ShEntSize) && Get64(h, ShNum) == Get64(k, ShNum);
    assert Get64(h, ShStrNdx) == Get64(k, ShStrNdx);
  }

  /** Reading the 32-bit layout back from the bytes of a header gives that header:
      the offset/width table and the declaration order describe the same struct. */
  lemma Decode32Encode32(h: Header32)
    ensures Decode32(Encode32(h)) == h
  {
    var raw := Encode32(h);
    forall f
      ensures Get32(Decode32(raw), f) == Get32(h, f)
    {
      Decode32Fields(raw, f);
      Encode32Slot(h, f);
      LeEncodeLe(Get32(h, f), Width(Elf32, f));
    }
    Header32Ext(Decode32(raw), h);
  }

  /** Reading the 64-bit layout back from the bytes of a header gives that header. */
  lemma Decode64Encode64(h: Header64)
    ensures Decode64(Encode64(h)) == h
  {
    var raw := Encode64(h);
    forall f
      ensures Get64(Decode64(raw), f) == Get64(h, f)
    {
      Decode64Fields(raw, f);
      Encode64Slot(h, f);
      LeEncodeLe(Get64(h, f), Width(Elf64, f));
    }
    Header64Ext(Decode64(raw), h);
  }

  /** Decoding a 32-bit header loses nothing: re-encoding it gives back the 36
      bytes it was read from. */
  lemma Encode32Decode32(raw: seq<byte>)
    requires Size(Elf32) <= |raw|
    ensures Encode32(Decode32(raw)) == raw[..Size(Elf32)]
  {
    var h := Decode32(raw);
    var enc := Encode32(h);
    forall f
      ensures enc[Offset(Elf32, f) .. Offset(Elf32, f) + Width(Elf32, f)]
           == raw[Offset(Elf32, f) .. Offset(Elf32, f) + Width(Elf32, f)]
    {
      Decode32Fields(raw, f);
      Encode32Slot(h, f);
      EncodeLeLe(raw[Offset(Elf32, f) .. Offset(Elf32, f) + Width(Elf32, f)]);
    }
    SlotsCover(Elf32, enc, raw);
  }

  /** Decoding a 64-bit header loses nothing: re-encoding it gives back the 48
      bytes it was read from. */
  lemma Encode64Decode64(raw: seq<byte>)
    requires Size(Elf64) <= |raw|
    ensures Encode64(Decode64(raw)) == raw[..Size(Elf64)]
  {
    var h := Decode64(raw);
    var enc := Encode64(h);
    forall f
      ensures enc[Offset(Elf64, f) .. Offset(Elf64, f) + Width(Elf64, f)]
           == raw[Offset(Elf64, f) .. Offset(Elf64, f) + Width(Elf64, f)]
    {
      Decode64Fields(raw, f);
      Encode64Slot(h, f);
      EncodeLeLe(raw[Offset(Elf64, f) .. Offset(Elf64, f) + Width(Elf64, f)]);
    }
    SlotsCover(Elf64, enc, raw);
  }

  /** Byte strings that agree on every field slot agree on the whole header. */
  lemma SlotsCover(c: Class, a: seq<byte>, b: seq<byte>)
    requires |a| == Size(c) <= |b|
    requires forall f :: a[Offset(c, f) .. Offset(c, f) + Width(c, f)]
                      == b[Offset(c, f) .. Offset(c, f) + Width(c, f)]
    ensures a == b[..Size(c)]
  {
    forall i | 0 <= i < Size(c)
      ensures a[i] == b[i]
    {
      var f := FieldAt(c, i);
      assert a[Offset(c, f) .. Offset(c, f) + Width(c, f)][i - Offset(c, f)] == a[i];
      assert b[Offset(c, f) .. Offset(c, f) + Width(c, f)][i - Offset(c, f)] == b[i];
    }
  }

  /** The field whose slot holds byte i of the header. */
  function FieldAt(c: Class, i: nat): (f: Field)
    requires i < Size(c)
    ensures Offset(c, f) <= i < Offset(c, f) + Width(c, f)
  {
    if i < 2 then Type else if i < 4 then Machine else if i < 8 then Version
    else if i < Offset(c, PhOff) then Entry else if i < Offset(c, ShOff) then PhOff
    else if i < Offset(c, Flags) then ShOff else if i < Offset(c, EhSize) then Flags
    else if i < Offset(c, PhEntSize) then EhSize else if i < Offset(c, PhNum) then PhEntSize
    else if i < Offset(c, ShEntSize) then PhNum else if i < Offset(c, ShNum) then ShEntSize
    else if i < Offset(c, ShStrNdx) then ShNum else ShStrNdx
  }

  /** The 32-bit view of the header bytes reads e_type and e_machine exactly as
      the layout the class selects does, for either class: both fields sit at
      offsets 0 and 2 with width 2 in both structs. */
  lemma View32ReadsTypeAndMachine(raw: seq<byte>, c: Class)
    requires Size(c) <= |raw|
    ensures Read(raw, Elf32, Type) == Decode(raw, c).EType()
    ensures Read(raw, Elf32, Machine) == Decode(raw, c).EMachine()
  {
    var t := raw[0..2];
    var m := raw[2..4];
    assert Read(raw, Elf32, Type) == Le(t) == Read(raw, c, Type);
    assert Read(raw, Elf32, Machine) == Le(m) == Read(raw, c, Machine);
    if c == Elf32 {
      assert Decode(raw, c).EType() == Decode32(raw).eType;
      assert Decode(raw, c).EMachine() == Decode32(raw).eMachine;
    } else {
      assert Decode(raw, c).EType() == Decode64(raw).eType;
      assert Decode(raw, c).EMachine() == Decode64(raw).eMachine;
    }
  }
}
