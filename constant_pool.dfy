/** The constant pool of a class file (section 4.4 of the Java Virtual
    Machine Specification): the tag table, the decoding of one entry, the
    slot-filling loop with its Long/Double double slots, and the lazy
    resolution of Utf8, Class and NameAndType indices. */
module Pool {
  import opened Wrappers
  import opened Reader

  const TagUtf8: nat := 1
  const TagInteger: nat := 3
  const TagFloat: nat := 4
  const TagLong: nat := 5
  const TagDouble: nat := 6
  const TagClass: nat := 7
  const TagString: nat := 8
  const TagFieldref: nat := 9
  const TagMethodref: nat := 10
  const TagInterfaceMethodref: nat := 11
  const TagNameAndType: nat := 12
  const TagMethodHandle: nat := 15
  const TagMethodType: nat := 16
  const TagInvokeDynamic: nat := 18

  /** The closed set of tags the decoder knows. */
  const Tags: set<nat> := {1, 3, 4, 5, 6, 7, 8, 9, 10, 11, 12, 15, 16, 18}

  /** One constant-pool entry. Index fields are pool indices; numeric
      entries keep their raw 32-bit words; Utf8 keeps its raw bytes. */
  datatype Entry =
    | Utf8(bytes: seq<byte>)
    | Integer(bits: nat)
    | Float(bits: nat)
    | Long(highBits: nat, lowBits: nat)
    | Double(highBits: nat, lowBits: nat)
    | Class(nameIndex: nat)
    | String(stringIndex: nat)
    | Fieldref(classIndex: nat, nameAndTypeIndex: nat)
    | Methodref(classIndex: nat, nameAndTypeIndex: nat)
    | InterfaceMethodref(classIndex: nat, nameAndTypeIndex: nat)
    | NameAndType(nameIndex: nat, descriptorIndex: nat)
    | MethodHandle(referenceKind: nat, referenceIndex: nat)
    | MethodType(descriptorIndex: nat)
    | InvokeDynamic(bootstrapMethodAttrIndex: nat, nameAndTypeIndex: nat)
  {
    /** Long and Double entries take two slots of the pool. */
    predicate IsWide() {
      Long? || Double?
    }
  }

  /** The tag that introduces each kind of entry. */
  function TagOf(e: Entry): (t: nat)
    ensures t in Tags && t < 0x100
    ensures e.IsWide() <==> t == TagLong || t == TagDouble
  {
    match e
    case Utf8(_) => TagUtf8
    case Integer(_) => TagInteger
    case Float(_) => TagFloat
    case Long(_, _) => TagLong
    case Double(_, _) => TagDouble
    case Class(_) => TagClass
    case String(_) => TagString
    case Fieldref(_, _) => TagFieldref
    case Methodref(_, _) => TagMethodref
    case InterfaceMethodref(_, _) => TagInterfaceMethodref
    case NameAndType(_, _) => TagNameAndType
    case MethodHandle(_, _) => TagMethodHandle
    case MethodType(_) => TagMethodType
    case InvokeDynamic(_, _) => TagInvokeDynamic
  }

  /** The empty entry of the kind a tag names; any other tag is fatal. */
  function NewConstantPoolInfo(tag: nat): (r: Result<Entry>)
    ensures r.Ok? <==> tag in Tags
    ensures r.Ok? ==> TagOf(r.value) == tag
    ensures r.Err? ==> r.error == InvalidConstantTag(tag)
  {
    if tag == TagClass then Ok(Class(0))
    else if tag == TagFieldref then Ok(Fieldref(0, 0))
    else if tag == TagMethodref then Ok(Methodref(0, 0))
    else if tag == TagInterfaceMethodref then Ok(InterfaceMethodref(0, 0))
    else if tag == TagString then Ok(String(0))
    else if tag == TagInteger then Ok(Integer(0))
    else if tag == TagFloat then Ok(Float(0))
    else if tag == TagLong then Ok(Long(0, 0))
    else if tag == TagDouble then Ok(Double(0, 0))
    else if tag == TagNameAndType then Ok(NameAndType(0, 0))
    else if tag == TagUtf8 then Ok(Utf8([]))
    else if tag == TagMethodHandle then Ok(MethodHandle(0, 0))
    else if tag == TagMethodType then Ok(MethodType(0))
    else if tag == TagInvokeDynamic then Ok(InvokeDynamic(0, 0))
    else Err(InvalidConstantTag(tag))
  }

  /** The field widths section 4.4 of the Java Virtual Machine
      Specification gives each kind of entry. */
  predicate WellFormedEntry(e: Entry) {
    match e
    case Utf8(b) => |b| < 0x1_0000
    case Integer(v) => v < 0x1_0000_0000
    case Float(v) => v < 0x1_0000_0000
    case Long(h, l) => h < 0x1_0000_0000 && l < 0x1_0000_0000
    case Double(h, l) => h < 0x1_0000_0000 && l < 0x1_0000_0000
    case Class(n) => n < 0x1_0000
    case String(n) => n < 0x1_0000
    case Fieldref(c, n) => c < 0x1_0000 && n < 0x1_0000
    case Methodref(c, n) => c < 0x1_0000 && n < 0x1_0000
    case InterfaceMethodref(c, n) => c < 0x1_0000 && n < 0x1_0000
    case NameAndType(n, d) => n < 0x1_0000 && d < 0x1_0000
    case MethodHandle(k, n) => k < 0x100 && n < 0x1_0000
    case MethodType(d) => d < 0x1_0000
    case InvokeDynamic(b, n) => b < 0x1_0000 && n < 0x1_0000
  }

  /** Two big-endian 16-bit fields in a row. */
  function DecodeU16Pair(data: seq<byte>, pos: nat): (r: Result<Decoded<(nat, nat)>>)
    ensures r.Ok? ==> r.value.value.0 < 0x1_0000 && r.value.value.1 < 0x1_0000 && r.value.next == pos + 4 <= |data|
    ensures r.Err? ==> r.error == UnexpectedEof
  {
    var first :- DecodeU16(data, pos);
    var second :- DecodeU16(data, first.next);
    Ok(Decoded((first.value, second.value), second.next))
  }

  /** A 16-bit length followed by that many raw bytes. */
  function DecodeLengthPrefixed(data: seq<byte>, pos: nat): (r: Result<Decoded<seq<byte>>>)
    ensures r.Ok? ==> |r.value.value| < 0x1_0000 && r.value.next == pos + 2 + |r.value.value| <= |data|
    ensures r.Err? ==> r.error == UnexpectedEof
  {
    var length :- DecodeU16(data, pos);
    DecodeBytes(data, length.next, length.value)
  }

  /** Two big-endian 32-bit fields in a row. */
  function DecodeU32Pair(data: seq<byte>, pos: nat): (r: Result<Decoded<(nat, nat)>>)
    ensures r.Ok? ==> r.value.value.0 < 0x1_0000_0000 && r.value.value.1 < 0x1_0000_0000 && r.value.next == pos + 8 <= |data|
    ensures r.Err? ==> r.error == UnexpectedEof
  {
    var first :- DecodeU32(data, pos);
    var second :- DecodeU32(data, first.next);
    Ok(Decoded((first.value, second.value), second.next))
  }

  /** The payload of the entry whose empty form is `blank`, read from `pos`. */
  function DecodeInfo(data: seq<byte>, pos: nat, blank: Entry): (r: Result<Decoded<Entry>>)
  {
    match blank
    case Utf8(_) =>
      var bytes :- DecodeLengthPrefixed(data, pos);
      Ok(Decoded(Utf8(bytes.value), bytes.next))
    case Integer(_) =>
      var v :- DecodeU32(data, pos);
      Ok(Decoded(Integer(v.value), v.next))
    case Float(_) =>
      var v :- DecodeU32(data, pos);
      Ok(Decoded(Float(v.value), v.next))
    case Long(_, _) =>
      var p :- DecodeU32Pair(data, pos);
      Ok(Decoded(Long(p.value.0, p.value.1), p.next))
    case Double(_, _) =>
      var p :- DecodeU32Pair(data, pos);
      Ok(Decoded(Double(p.value.0, p.value.1), p.next))
    case Class(_) =>
      var name :- DecodeU16(data, pos);
      Ok(Decoded(Class(name.value), name.next))
    case String(_) =>
      var s :- DecodeU16(data, pos);
      Ok(Decoded(String(s.value), s.next))
    case Fieldref(_, _) =>
      var p :- DecodeU16Pair(data, pos);
      Ok(Decoded(Fieldref(p.value.0, p.value.1), p.next))
    case Methodref(_, _) =>
      var p :- DecodeU16Pair(data, pos);
      Ok(Decoded(Methodref(p.value.0, p.value.1), p.next))
    case InterfaceMethodref(_, _) =>
      var p :- DecodeU16Pair(data, pos);
      Ok(Decoded(InterfaceMethodref(p.value.0, p.value.1), p.next))
    case NameAndType(_, _) =>
      var p :- DecodeU16Pair(data, pos);
      Ok(Decoded(NameAndType(p.value.0, p.value.1), p.next))
    case MethodHandle(_, _) =>
      var kind :- DecodeU8(data, pos);
      var reference :- DecodeU16(data, kind.next);
      Ok(Decoded(MethodHandle(kind.value, reference.value), reference.next))
    case MethodType(_) =>
      var d :- DecodeU16(data, pos);
      Ok(Decoded(MethodType(d.value), d.next))
    case InvokeDynamic(_, _) =>
      var p :- DecodeU16Pair(data, pos);
      Ok(Decoded(InvokeDynamic(p.value.0, p.value.1), p.next))
  }

  /** A decoded payload is an entry of the kind asked for, within the field
      widths, ending inside the data; the only way to fail is running out. */
  lemma DecodeInfoShape(data: seq<byte>, pos: nat, blank: Entry)
    ensures var r := DecodeInfo(data, pos, blank);
      && (r.Ok? ==> TagOf(r.value.value) == TagOf(blank) && WellFormedEntry(r.value.value))
      && (r.Ok? ==> pos < r.value.next <= |data|)
      && (r.Err? ==> r.error == UnexpectedEof)
  {
  }

  /** The decoded pool: slot 0 and the slot after each Long or Double stay empty. */
  datatype ConstantPool = ConstantPool(slots: seq<Option<Entry>>)

  /** One entry as the decoder loop reads it: a tag byte, the empty entry
      of that kind, then its payload. */
  function DecodeEntry(data: seq<byte>, pos: nat): (r: Result<Decoded<Entry>>)
    ensures r.Ok? ==> pos < |data| && TagOf(r.value.value) == data[pos] && WellFormedEntry(r.value.value)
    ensures r.Ok? ==> pos + 1 < r.value.next <= |data|
    ensures r.Err? ==> r.error == UnexpectedEof || (pos < |data| && r.error == InvalidConstantTag(data[pos]))
  {
    var tag :- DecodeU8(data, pos);
    var blank :- NewConstantPoolInfo(tag.value);
    DecodeInfoShape(data, tag.next, blank);
    DecodeInfo(data, tag.next, blank)
  }

  /** The loop of the decoder from iteration index `i` on: decode an entry
      into slot `i`, and step over one more slot after a Long or Double. */
  function FillSlots(data: seq<byte>, pos: nat, i: nat, slots: seq<Option<Entry>>): (r: Result<Decoded<seq<Option<Entry>>>>)
    requires 1 <= i <= |slots| + 1 && pos <= |data|
    ensures r.Ok? ==> |r.value.value| == |slots| && pos <= r.value.next <= |data|
    decreases |slots| + 1 - i
  {
    if i >= |slots| then Ok(Decoded(slots, pos))
    else
      var entry :- DecodeEntry(data, pos);
      FillSlots(data, entry.next, if entry.value.IsWide() then i + 2 else i + 1, slots[i := Some(entry.value)])
  }

  /** One turn of the loop: the entry decoded at `pos` goes into slot `i`,
      and the loop goes on after it. */
  lemma FillSlotsStep(data: seq<byte>, pos: nat, i: nat, slots: seq<Option<Entry>>, e: Entry, next: nat)
    requires 1 <= i < |slots| && pos <= |data|
    requires DecodeEntry(data, pos) == Ok(Decoded(e, next))
    ensures FillSlots(data, pos, i, slots) ==
            FillSlots(data, next, if e.IsWide() then i + 2 else i + 1, slots[i := Some(e)])
  {
  }

  /** A 16-bit slot count followed by the entries that fill the slots. */
  function DecodeConstantPool(data: seq<byte>, pos: nat): (r: Result<Decoded<ConstantPool>>)
    requires pos <= |data|
    ensures r.Ok? ==> pos + 2 <= r.value.next <= |data|
  {
    var count :- DecodeU16(data, pos);
    var filled :- FillSlots(data, count.next, 1, seq(count.value, _ => None));
    Ok(Decoded(ConstantPool(filled.value), filled.next))
  }

  /** Reads two 16-bit fields in a row. */
  method ReadU16Pair(reader: ClassReader) returns (r: Result<(nat, nat)>)
    requires reader.Valid()
    modifies reader`pos
    ensures reader.Valid() && reader.Consumed(r, DecodeU16Pair(reader.data, old(reader.pos)))
  {
    var first :- reader.ReadUint16();
    var second :- reader.ReadUint16();
    r := Ok((first, second));
  }

  /** Reads a 16-bit length and then that many raw bytes. */
  method ReadLengthPrefixed(reader: ClassReader) returns (r: Result<seq<byte>>)
    requires reader.Valid()
    modifies reader`pos
    ensures reader.Valid() && reader.Consumed(r, DecodeLengthPrefixed(reader.data, old(reader.pos)))
  {
    var length :- reader.ReadUint16();
    r := reader.ReadBytes(length);
  }

  /** Reads two 32-bit fields in a row. */
  method ReadU32Pair(reader: ClassReader) returns (r: Result<(nat, nat)>)
    requires reader.Valid()
    modifies reader`pos
    ensures reader.Valid() && reader.Consumed(r, DecodeU32Pair(reader.data, old(reader.pos)))
  {
    var first :- reader.ReadUint32();
    var second :- reader.ReadUint32();
    r := Ok((first, second));
  }

  /** Reads the payload of an entry whose kind `blank` names. */
  method ReadInfo(reader: ClassReader, blank: Entry) returns (r: Result<Entry>)
    requires reader.Valid()
    modifies reader`pos
    ensures reader.Valid() && reader.Consumed(r, DecodeInfo(reader.data, old(reader.pos), blank))
  {
    match blank
    case Utf8(_) =>
      var bytes :- ReadLengthPrefixed(reader);
      r := Ok(Utf8(bytes));
    case Integer(_) =>
      var v :- reader.ReadUint32();
      r := Ok(Integer(v));
    case Float(_) =>
      var v :- reader.ReadUint32();
      r := Ok(Float(v));
    case Long(_, _) =>
      var p :- ReadU32Pair(reader);
      r := Ok(Long(p.0, p.1));
    case Double(_, _) =>
      var p :- ReadU32Pair(reader);
      r := Ok(Double(p.0, p.1));
    case Class(_) =>
      var name :- reader.ReadUint16();
      r := Ok(Class(name));
    case String(_) =>
      var s :- reader.ReadUint16();
      r := Ok(String(s));
    case Fieldref(_, _) =>
      var p :- ReadU16Pair(reader);
      r := Ok(Fieldref(p.0, p.1));
    case Methodref(_, _) =>
      var p :- ReadU16Pair(reader);
      r := Ok(Methodref(p.0, p.1));
    case InterfaceMethodref(_, _) =>
      var p :- ReadU16Pair(reader);
      r := Ok(InterfaceMethodref(p.0, p.1));
    case NameAndType(_, _) =>
      var p :- ReadU16Pair(reader);
      r := Ok(NameAndType(p.0, p.1));
    case MethodHandle(_, _) =>
      var kind :- reader.ReadUint8();
      var reference :- reader.ReadUint16();
      r := Ok(MethodHandle(kind, reference));
    case MethodType(_) =>
      var d :- reader.ReadUint16();
      r := Ok(MethodType(d));
    case InvokeDynamic(_, _) =>
      var p :- ReadU16Pair(reader);
      r := Ok(InvokeDynamic(p.0, p.1));
  }

  /** Reads one tag and the payload of the entry it introduces; `tag` is
      the tag byte whenever one was read. */
  method ReadEntry(reader: ClassReader) returns (tag: nat, r: Result<Entry>)
    requires reader.Valid()
    modifies reader`pos
    ensures reader.Valid() && reader.Consumed(r, DecodeEntry(reader.data, old(reader.pos)))
    ensures r.Ok? ==> (r.value.IsWide() <==> tag == TagDouble || tag == TagLong)
  {
    var t := reader.ReadUint8();
    if t.Err? {
      return 0, Err(t.error);
    }
    tag := t.value;
    var blank := NewConstantPoolInfo(tag);
    if blank.Err? {
      return tag, Err(blank.error);
    }
    r := ReadInfo(reader, blank.value);
  }

  /** Reads the slot count, allocates that many slots and fills them in
      place from index 1, skipping the slot after each Long or Double. */
  method ReadConstantPool(reader: ClassReader) returns (r: Result<ConstantPool>)
    requires reader.Valid()
    modifies reader`pos
    ensures reader.Valid() && reader.Consumed(r, DecodeConstantPool(reader.data, old(reader.pos)))
  {
    var count :- reader.ReadUint16();
    var slots := new Option<Entry>[count](_ => None);
    assert slots[..] == seq(count, _ => None);
    ghost var spec := FillSlots(reader.data, reader.pos, 1, slots[..]);
    var i := 1;
    while i < slots.Length
      invariant reader.Valid() && 1 <= i <= slots.Length + 1
      invariant FillSlots(reader.data, reader.pos, i, slots[..]) == spec
      decreases slots.Length + 1 - i
    {
      var tag, entry := ReadEntry(reader);
      var info :- entry;
      slots[i] := Some(info);
      if tag == TagDouble || tag == TagLong {
        i := i + 1;
      }
      i := i + 1;
    }
    return Ok(ConstantPool(slots[..]));
  }

  // The slot layout of a decoded pool.

  /** Slot `k` holds a Long or a Double. */
  predicate WideAt(slots: seq<Option<Entry>>, k: int) {
    0 <= k < |slots| && slots[k].Some? && slots[k].value.IsWide()
  }

  /** Slot 0 is empty, and every later slot is empty exactly when the slot
      before it holds a Long or a Double. */
  predicate SlotLayout(slots: seq<Option<Entry>>) {
    && (|slots| > 0 ==> slots[0].None?)
    && forall k :: 0 <= k < |slots| - 1 ==> (slots[k + 1].None? <==> WideAt(slots, k))
  }

  /** The layout of the slots up to iteration index `i`, with everything from
      `i` on still empty and slot `i - 1` not a Long or Double. */
  ghost predicate LayoutBelow(slots: seq<Option<Entry>>, i: nat) {
    && (|slots| > 0 ==> slots[0].None?)
    && (forall k :: 0 <= k < |slots| - 1 && k + 1 < i ==> (slots[k + 1].None? <==> WideAt(slots, k)))
    && (forall k :: i <= k < |slots| ==> slots[k].None?)
    && (i >= 1 ==> !WideAt(slots, i - 1))
  }

  lemma {:induction false} FillSlotsLayout(data: seq<byte>, pos: nat, i: nat, slots: seq<Option<Entry>>)
    requires 1 <= i <= |slots| + 1 && pos <= |data|
    requires LayoutBelow(slots, i)
    ensures FillSlots(data, pos, i, slots).Ok? ==> SlotLayout(FillSlots(data, pos, i, slots).value.value)
    decreases |slots| + 1 - i
  {
    if i < |slots| {
      var entry := DecodeEntry(data, pos);
      if entry.Ok? {
            var e := entry.value.value;
            var wide := e.IsWide();
            var next := if wide then i + 2 else i + 1;
            var slots' := slots[i := Some(e)];
            assert LayoutBelow(slots', next) by {
              forall k | 0 <= k < |slots'| - 1 && k + 1 < next
                ensures slots'[k + 1].None? <==> WideAt(slots', k)
              {
                if k + 1 < i {
                  assert WideAt(slots', k) == WideAt(slots, k);
                } else if k + 1 == i {
                  assert WideAt(slots', k) == WideAt(slots, k);
                } else {
                  assert k == i && slots[i + 1].None?;
                }
              }
              if wide && i + 1 < |slots| {
                assert slots[i + 1].None?;
              }
            }
            FillSlotsLayout(data, entry.value.next, next, slots');
      }
    }
  }

  /** A decoded pool has exactly as many slots as the count read; slot 0 is
      empty, the slot after each Long or Double is empty, and every other
      slot holds an entry. */
  lemma DecodedPoolLayout(data: seq<byte>, pos: nat)
    requires pos <= |data|
    ensures DecodeConstantPool(data, pos).Ok? ==>
      var pool := DecodeConstantPool(data, pos).value.value;
      |pool.slots| == BigEndian16(data, pos) && SlotLayout(pool.slots)
  {
    var count := DecodeU16(data, pos);
    if count.Ok? {
      FillSlotsLayout(data, count.value.next, 1, seq(count.value.value, _ => None));
    }
  }

  // Resolution of indices. Every failure is fatal: an index out of range or
  // on an empty slot is InvalidIndex, an entry of another kind TypeMismatch.

  /** The content of slot `index`, which may be empty. */
  function GetConstantInfo(pool: ConstantPool, index: nat): (r: Result<Option<Entry>>)
    ensures r.Ok? <==> index < |pool.slots|
    ensures r.Ok? ==> r.value == pool.slots[index]
    ensures r.Err? ==> r.error == InvalidIndex(index)
  {
    if index < |pool.slots| then Ok(pool.slots[index]) else Err(InvalidIndex(index))
  }

  /** Slot `index` exists and holds an entry. */
  predicate Occupied(pool: ConstantPool, index: nat) {
    index < |pool.slots| && pool.slots[index].Some?
  }

  function GetUtf8(pool: ConstantPool, index: nat): (r: Result<seq<byte>>)
    ensures r.Ok? <==> Occupied(pool, index) && pool.slots[index].value.Utf8?
    ensures r.Ok? ==> pool.slots[index] == Some(Utf8(r.value))
    ensures !Occupied(pool, index) ==> r == Err(InvalidIndex(index))
    ensures Occupied(pool, index) && !pool.slots[index].value.Utf8? ==> r == Err(TypeMismatch(index))
  {
    var info :- GetConstantInfo(pool, index);
    match info
    case None => Err(InvalidIndex(index))
    case Some(Utf8(bytes)) => Ok(bytes)
    case Some(_) => Err(TypeMismatch(index))
  }

  /** The internal name of the class at `index`: one hop to the Class entry,
      one more to the Utf8 entry its name index points at. */
  function GetClassName(pool: ConstantPool, index: nat): (r: Result<seq<byte>>)
    ensures r.Ok? ==> Occupied(pool, index) && pool.slots[index].value.Class?
    ensures Occupied(pool, index) && pool.slots[index].value.Class? ==>
              r == GetUtf8(pool, pool.slots[index].value.nameIndex)
    ensures !Occupied(pool, index) ==> r == Err(InvalidIndex(index))
    ensures Occupied(pool, index) && !pool.slots[index].value.Class? ==> r == Err(TypeMismatch(index))
  {
    var info :- GetConstantInfo(pool, index);
    match info
    case None => Err(InvalidIndex(index))
    case Some(Class(nameIndex)) => GetUtf8(pool, nameIndex)
    case Some(_) => Err(TypeMismatch(index))
  }

  /** Slot `index` holds a Class entry whose name index reaches the Utf8 entry `name`. */
  predicate NamesClass(pool: ConstantPool, index: nat, name: seq<byte>) {
    && Occupied(pool, index) && pool.slots[index].value.Class?
    && var n := pool.slots[index].value.nameIndex;
       n < |pool.slots| && pool.slots[n] == Some(Utf8(name))
  }

  /** A class name resolves to `name` exactly when two hops through the pool reach it. */
  lemma ClassNameResolution(pool: ConstantPool, index: nat, name: seq<byte>)
    ensures GetClassName(pool, index) == Ok(name) <==> NamesClass(pool, index, name)
  {
  }

  /** The name and the descriptor of the NameAndType entry at `index`,
      each resolved through its Utf8 entry, the name first. */
  function GetNameAndType(pool: ConstantPool, index: nat): (r: Result<(seq<byte>, seq<byte>)>)
    ensures r.Ok? ==> Occupied(pool, index) && pool.slots[index].value.NameAndType?
    ensures Occupied(pool, index) && pool.slots[index].value.NameAndType? ==>
              var nt := pool.slots[index].value;
              match GetUtf8(pool, nt.nameIndex)
              case Err(e) => r == Err(e)
              case Ok(name) =>
                match GetUtf8(pool, nt.descriptorIndex)
                case Err(e) => r == Err(e)
                case Ok(descriptor) => r == Ok((name, descriptor))
    ensures !Occupied(pool, index) ==> r == Err(InvalidIndex(index))
    ensures Occupied(pool, index) && !pool.slots[index].value.NameAndType? ==> r == Err(TypeMismatch(index))
  {
    var info :- GetConstantInfo(pool, index);
    match info
    case None => Err(InvalidIndex(index))
    case Some(NameAndType(nameIndex, descriptorIndex)) =>
      var name :- GetUtf8(pool, nameIndex);
      var descriptor :- GetUtf8(pool, descriptorIndex);
      Ok((name, descriptor))
    case Some(_) => Err(TypeMismatch(index))
  }

  /** In a decoded pool, index 0 never resolves. */
  lemma SlotZeroNeverResolves(data: seq<byte>, pos: nat)
    requires pos <= |data| && DecodeConstantPool(data, pos).Ok?
    ensures var pool := DecodeConstantPool(data, pos).value.value;
      && GetUtf8(pool, 0) == Err(InvalidIndex(0))
      && GetClassName(pool, 0) == Err(InvalidIndex(0))
      && GetNameAndType(pool, 0) == Err(InvalidIndex(0))
  {
    DecodedPoolLayout(data, pos);
  }

  /** In a decoded pool, the slot after a Long or Double never resolves. */
  lemma ShadowSlotNeverResolves(data: seq<byte>, pos: nat, k: nat)
    requires pos <= |data| && DecodeConstantPool(data, pos).Ok?
    requires WideAt(DecodeConstantPool(data, pos).value.value.slots, k)
    ensures var pool := DecodeConstantPool(data, pos).value.value;
      && GetUtf8(pool, k + 1) == Err(InvalidIndex(k + 1))
      && GetClassName(pool, k + 1) == Err(InvalidIndex(k + 1))
      && GetNameAndType(pool, k + 1) == Err(InvalidIndex(k + 1))
  {
    DecodedPoolLayout(data, pos);
    var slots := DecodeConstantPool(data, pos).value.value.slots;
    if k + 1 < |slots| {
      assert slots[k + 1].None?;
    }
  }

  // Encoding: the inverse of decoding, which fixes the byte layout the
  // decoder accepts.

  function EncodeInfo(e: Entry): (b: seq<byte>)
    requires WellFormedEntry(e)
  {
    match e
    case Utf8(bytes) => EncodeU16(|bytes|) + bytes
    case Integer(v) => EncodeU32(v)
    case Float(v) => EncodeU32(v)
    case Long(h, l) => EncodeU32(h) + EncodeU32(l)
    case Double(h, l) => EncodeU32(h) + EncodeU32(l)
    case Class(n) => EncodeU16(n)
    case String(n) => EncodeU16(n)
    case Fieldref(c, n) => EncodeU16(c) + EncodeU16(n)
    case Methodref(c, n) => EncodeU16(c) + EncodeU16(n)
    case InterfaceMethodref(c, n) => EncodeU16(c) + EncodeU16(n)
    case NameAndType(n, d) => EncodeU16(n) + EncodeU16(d)
    case MethodHandle(k, n) => [k] + EncodeU16(n)
    case MethodType(d) => EncodeU16(d)
    case InvokeDynamic(b, n) => EncodeU16(b) + EncodeU16(n)
  }

  /** The tag byte followed by the payload. */
  function EncodeEntry(e: Entry): (b: seq<byte>)
    requires WellFormedEntry(e)
  {
    [TagOf(e)] + EncodeInfo(e)
  }

  lemma U16PairRoundTrip(data: seq<byte>, pos: nat, a: nat, b: nat)
    requires a < 0x1_0000 && b < 0x1_0000 && pos + 4 <= |data|
    requires data[pos..pos + 4] == EncodeU16(a) + EncodeU16(b)
    ensures DecodeU16Pair(data, pos) == Ok(Decoded((a, b), pos + 4))
  {
    SplitAt(data, pos, EncodeU16(a), EncodeU16(b));
    U16RoundTrip(data, pos, a);
    U16RoundTrip(data, pos + 2, b);
  }

  lemma U32PairRoundTrip(data: seq<byte>, pos: nat, a: nat, b: nat)
    requires a < 0x1_0000_0000 && b < 0x1_0000_0000 && pos + 8 <= |data|
    requires data[pos..pos + 8] == EncodeU32(a) + EncodeU32(b)
    ensures DecodeU32Pair(data, pos) == Ok(Decoded((a, b), pos + 8))
  {
    SplitAt(data, pos, EncodeU32(a), EncodeU32(b));
    U32RoundTrip(data, pos, a);
    U32RoundTrip(data, pos + 4, b);
  }

  /** The empty entry of the same kind as `e`. */
  function Blank(e: Entry): Entry {
    match e
    case Utf8(_) => Utf8([])
    case Integer(_) => Integer(0)
    case Float(_) => Float(0)
    case Long(_, _) => Long(0, 0)
    case Double(_, _) => Double(0, 0)
    case Class(_) => Class(0)
    case String(_) => String(0)
    case Fieldref(_, _) => Fieldref(0, 0)
    case Methodref(_, _) => Methodref(0, 0)
    case InterfaceMethodref(_, _) => InterfaceMethodref(0, 0)
    case NameAndType(_, _) => NameAndType(0, 0)
    case MethodHandle(_, _) => MethodHandle(0, 0)
    case MethodType(_) => MethodType(0)
    case InvokeDynamic(_, _) => InvokeDynamic(0, 0)
  }

  /** The tag of an entry makes the decoder start from the empty entry of its kind. */
  lemma BlankOfTag(e: Entry)
    ensures NewConstantPoolInfo(TagOf(e)) == Ok(Blank(e))
  {
  }

  /** An encoded payload reads back as the entry it encodes. */
  lemma InfoRoundTrip(data: seq<byte>, p: nat, e: Entry)
    requires WellFormedEntry(e) && p + |EncodeInfo(e)| <= |data|
    requires data[p..p + |EncodeInfo(e)|] == EncodeInfo(e)
    ensures DecodeInfo(data, p, Blank(e)) == Ok(Decoded(e, p + |EncodeInfo(e)|))
  {
    match e
    case Utf8(bytes) =>
      SplitAt(data, p, EncodeU16(|bytes|), bytes);
      U16RoundTrip(data, p, |bytes|);
    case Integer(v) => U32RoundTrip(data, p, v);
    case Float(v) => U32RoundTrip(data, p, v);
    case Long(h, l) => U32PairRoundTrip(data, p, h, l);
    case Double(h, l) => U32PairRoundTrip(data, p, h, l);
    case Class(n) => U16RoundTrip(data, p, n);
    case String(n) => U16RoundTrip(data, p, n);
    case Fieldref(c, n) => U16PairRoundTrip(data, p, c, n);
    case Methodref(c, n) => U16PairRoundTrip(data, p, c, n);
    case InterfaceMethodref(c, n) => U16PairRoundTrip(data, p, c, n);
    case NameAndType(n, d) => U16PairRoundTrip(data, p, n, d);
    case MethodHandle(k, n) =>
      SplitAt(data, p, [k], EncodeU16(n));
      U16RoundTrip(data, p + 1, n);
    case MethodType(d) => U16RoundTrip(data, p, d);
    case InvokeDynamic(b, n) => U16PairRoundTrip(data, p, b, n);
  }

  /** An encoded entry reads back as its tag and then as the same entry. */
  lemma EntryRoundTrip(data: seq<byte>, pos: nat, e: Entry)
    requires WellFormedEntry(e) && pos + |EncodeEntry(e)| <= |data|
    requires data[pos..pos + |EncodeEntry(e)|] == EncodeEntry(e)
    ensures DecodeEntry(data, pos) == Ok(Decoded(e, pos + |EncodeEntry(e)|))
  {
    var info := EncodeInfo(e);
    assert EncodeEntry(e) == [TagOf(e)] + info;
    SplitAt(data, pos, [TagOf(e)], info);
    assert data[pos] == data[pos..pos + 1][0] == TagOf(e);
    BlankOfTag(e);
    InfoRoundTrip(data, pos + 1, e);
  }
}
