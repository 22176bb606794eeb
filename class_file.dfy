/** A parsed class file: the fixed-order decoding of the header, constant
    pool, access flags, this/super class indices and interface indices, the
    hand-off of fields, methods and attributes to their own readers, and the
    accessors that resolve class names through the pool. */
module ClassFiles {
  import opened Wrappers
  import opened Reader
  import opened Pool
  import opened AccessFlags

  /** A field or method as its reader returns it; its structure is not part of this model. */
  datatype MemberInfo = MemberInfo(raw: seq<byte>)

  /** An attribute as its reader returns it; its structure is not part of this model. */
  datatype AttributeInfo = AttributeInfo(raw: seq<byte>)

  /** A reader the class-file decoder hands the rest of the buffer to: it
      returns what it decoded and how many bytes of `rest` it consumed. */
  type SubReader<T> = (seq<byte>, ConstantPool) -> Result<Decoded<T>>

  /** A sub-reader never consumes more bytes than it was given. */
  ghost predicate Advances<T>(f: SubReader<T>) {
    forall rest, pool :: f(rest, pool).Ok? ==> f(rest, pool).value.next <= |rest|
  }

  /** The readers of fields/methods and of attributes. */
  datatype Collaborators = Collaborators(readMembers: SubReader<seq<MemberInfo>>, readAttributes: SubReader<seq<AttributeInfo>>)
  {
    ghost predicate WellBehaved() {
      Advances(readMembers) && Advances(readAttributes)
    }
  }

  /** What sub-reader `f` decodes from `pos` on, with the position after it. */
  function Delegate<T>(f: SubReader<T>, data: seq<byte>, pos: nat, pool: ConstantPool): (r: Result<Decoded<T>>)
    requires pos <= |data| && Advances(f)
    ensures r.Ok? ==> pos <= r.value.next <= |data|
  {
    var d :- f(data[pos..], pool);
    Ok(Decoded(d.value, pos + d.next))
  }

  /** A 16-bit count followed by that many 16-bit class indices. */
  function DecodeInterfaces(data: seq<byte>, pos: nat): (r: Result<Decoded<seq<nat>>>)
    ensures r.Ok? <==> pos + 2 <= |data| && pos + 2 + 2 * BigEndian16(data, pos) <= |data|
    ensures r.Ok? ==> |r.value.value| == BigEndian16(data, pos) && r.value.next == pos + 2 + 2 * |r.value.value|
    ensures r.Ok? ==> forall k :: 0 <= k < |r.value.value| ==> r.value.value[k] == BigEndian16(data, pos + 2 + 2 * k)
    ensures r.Err? ==> r.error == UnexpectedEof
  {
    var count :- DecodeU16(data, pos);
    var end := count.next + 2 * count.value;
    if end <= |data| then
      Ok(Decoded(seq(count.value, k requires 0 <= k < count.value => BigEndian16(data, count.next + 2 * k)), end))
    else
      Err(UnexpectedEof)
  }

  /** The encoding of a list of 16-bit indices, without its count. */
  function EncodeU16s(xs: seq<nat>): (b: seq<byte>)
    requires forall k :: 0 <= k < |xs| ==> xs[k] < 0x1_0000
    ensures |b| == 2 * |xs|
  {
    if xs == [] then [] else EncodeU16(xs[0]) + EncodeU16s(xs[1..])
  }

  /** Index `k` of an encoded list sits `2 * k` bytes after its start. */
  lemma {:induction false} EncodeU16sAt(data: seq<byte>, pos: nat, xs: seq<nat>, k: nat, at: nat)
    requires forall j :: 0 <= j < |xs| ==> xs[j] < 0x1_0000
    requires pos + 2 * |xs| <= |data| && data[pos..pos + 2 * |xs|] == EncodeU16s(xs)
    requires k < |xs| && at == pos + 2 * k
    ensures at + 2 <= |data| && BigEndian16(data, at) == xs[k]
    decreases k
  {
    SplitAt(data, pos, EncodeU16(xs[0]), EncodeU16s(xs[1..]));
    if k == 0 {
      U16RoundTrip(data, pos, xs[0]);
    } else {
      EncodeU16sAt(data, pos + 2, xs[1..], k - 1, at);
    }
  }

  /** An encoded interface list reads back as the same list. */
  lemma {:induction false} InterfacesRoundTrip(data: seq<byte>, pos: nat, xs: seq<nat>)
    requires |xs| < 0x1_0000 && forall k :: 0 <= k < |xs| ==> xs[k] < 0x1_0000
    requires pos + 2 + 2 * |xs| <= |data|
    requires data[pos..pos + 2] == EncodeU16(|xs|) && data[pos + 2..pos + 2 + 2 * |xs|] == EncodeU16s(xs)
    ensures DecodeInterfaces(data, pos) == Ok(Decoded(xs, pos + 2 + 2 * |xs|))
  {
    assert BigEndian16(data, pos) == |xs| by {
      U16RoundTrip(data, pos, |xs|);
    }
    EncodedIndices(data, pos + 2, xs);
    InterfacesAt(data, pos, pos + 2, xs);
  }

  /** The indices of an encoded list, read back one by one. */
  lemma {:induction false} EncodedIndices(data: seq<byte>, pos: nat, xs: seq<nat>)
    requires forall j :: 0 <= j < |xs| ==> xs[j] < 0x1_0000
    requires pos + 2 * |xs| <= |data| && data[pos..pos + 2 * |xs|] == EncodeU16s(xs)
    ensures forall k :: 0 <= k < |xs| ==> BigEndian16(data, pos + 2 * k) == xs[k]
  {
    forall k | 0 <= k < |xs|
      ensures BigEndian16(data, pos + 2 * k) == xs[k]
    {
      EncodeU16sAt(data, pos, xs, k, pos + 2 * k);
    }
  }

  /** A count equal to `|xs|` followed by the indices of `xs` decodes as `xs`. */
  lemma InterfacesAt(data: seq<byte>, pos: nat, start: nat, xs: seq<nat>)
    requires start == pos + 2 && start + 2 * |xs| <= |data| && BigEndian16(data, pos) == |xs|
    requires forall k :: 0 <= k < |xs| ==> BigEndian16(data, start + 2 * k) == xs[k]
    ensures DecodeInterfaces(data, pos) == Ok(Decoded(xs, pos + 2 + 2 * |xs|))
  {
    var d := DecodeInterfaces(data, pos);
    assert d.value.value == xs;
  }

  /** The values a parsed class file holds, field for field. */
  datatype ClassContents = ClassContents(
    size: nat,
    magic: nat,
    minorVersion: nat,
    majorVersion: nat,
    constantPool: ConstantPool,
    accessFlags: ClassAccessFlag,
    thisClass: nat,
    superClass: nat,
    interfaces: seq<nat>,
    fields: seq<MemberInfo>,
    methods: seq<MemberInfo>,
    attributes: seq<AttributeInfo>)

  /** The magic number, then the minor and the major version. */
  function DecodeVersions(data: seq<byte>, pos: nat): (r: Result<Decoded<(nat, nat, nat)>>)
    ensures r.Ok? <==> pos + 8 <= |data|
    ensures r.Ok? ==> r.value.next == pos + 8 && r.value.value.0 < 0x1_0000_0000
    ensures r.Ok? ==> r.value.value.0 == BigEndian32(data, pos)
    ensures r.Ok? ==> r.value.value.1 == BigEndian16(data, pos + 4) && r.value.value.2 == BigEndian16(data, pos + 6)
    ensures r.Err? ==> r.error == UnexpectedEof
  {
    var magic :- DecodeU32(data, pos);
    var minor :- DecodeU16(data, magic.next);
    var major :- DecodeU16(data, minor.next);
    Ok(Decoded((magic.value, minor.value, major.value), major.next))
  }

  /** The access flags, then the this-class and super-class indices. */
  function DecodeClassRefs(data: seq<byte>, pos: nat): (r: Result<Decoded<(nat, nat, nat)>>)
    ensures r.Ok? <==> pos + 6 <= |data|
    ensures r.Ok? ==> r.value.next == pos + 6 && r.value.value.0 < 0x1_0000
    ensures r.Ok? ==> r.value.value.0 == BigEndian16(data, pos)
    ensures r.Ok? ==> r.value.value.1 == BigEndian16(data, pos + 2) && r.value.value.2 == BigEndian16(data, pos + 4)
    ensures r.Err? ==> r.error == UnexpectedEof
  {
    var flags :- DecodeU16(data, pos);
    var thisClass :- DecodeU16(data, flags.next);
    var superClass :- DecodeU16(data, thisClass.next);
    Ok(Decoded((flags.value, thisClass.value, superClass.value), superClass.next))
  }

  /** Fields, methods and attributes, each handed to its reader in turn. */
  function DecodeBody(data: seq<byte>, pos: nat, pool: ConstantPool, c: Collaborators)
    : (r: Result<Decoded<(seq<MemberInfo>, seq<MemberInfo>, seq<AttributeInfo>)>>)
    requires pos <= |data| && c.WellBehaved()
    ensures r.Ok? ==> pos <= r.value.next <= |data|
  {
    var fields :- Delegate(c.readMembers, data, pos, pool);
    var methods :- Delegate(c.readMembers, data, fields.next, pool);
    var attributes :- Delegate(c.readAttributes, data, methods.next, pool);
    Ok(Decoded((fields.value, methods.value, attributes.value), attributes.next))
  }

  /** The class file that starts at `pos`, read in the fixed order of the
      format; the magic number and the versions are kept as read. */
  function DecodeClassFile(data: seq<byte>, pos: nat, c: Collaborators): (r: Result<Decoded<ClassContents>>)
    requires pos <= |data| && c.WellBehaved()
    ensures r.Ok? ==> r.value.value.size == |data| && pos + 18 <= r.value.next <= |data|
  {
    var versions :- DecodeVersions(data, pos);
    var pool :- DecodeConstantPool(data, versions.next);
    var refs :- DecodeClassRefs(data, pool.next);
    var interfaces :- DecodeInterfaces(data, refs.next);
    var body :- DecodeBody(data, interfaces.next, pool.value, c);
    Ok(Decoded(ClassContents(|data|, versions.value.0, versions.value.1, versions.value.2, pool.value,
                             refs.value.0 as bv16, refs.value.1, refs.value.2, interfaces.value,
                             body.value.0, body.value.1, body.value.2), body.next))
  }

  /** A class file whose stages all decode, each where the previous one
      ended, decodes to the values of those stages. */
  lemma DecodeClassFileStages(data: seq<byte>, pos: nat, c: Collaborators,
                              versions: (nat, nat, nat), pool: ConstantPool, refs: (nat, nat, nat), interfaces: seq<nat>,
                              body: (seq<MemberInfo>, seq<MemberInfo>, seq<AttributeInfo>),
                              poolAt: nat, refsAt: nat, interfacesAt: nat, bodyAt: nat, end: nat)
    requires pos <= |data| && c.WellBehaved()
    requires DecodeVersions(data, pos) == Ok(Decoded(versions, poolAt)) && poolAt <= |data|
    requires DecodeConstantPool(data, poolAt) == Ok(Decoded(pool, refsAt))
    requires DecodeClassRefs(data, refsAt) == Ok(Decoded(refs, interfacesAt))
    requires DecodeInterfaces(data, interfacesAt) == Ok(Decoded(interfaces, bodyAt)) && bodyAt <= |data|
    requires DecodeBody(data, bodyAt, pool, c) == Ok(Decoded(body, end))
    ensures refs.0 < 0x1_0000
    ensures DecodeClassFile(data, pos, c) ==
              Ok(Decoded(ClassContents(|data|, versions.0, versions.1, versions.2, pool, refs.0 as bv16, refs.1, refs.2,
                                       interfaces, body.0, body.1, body.2), end))
  {
  }

  /** Where each header field of a parsed class file was read from: magic at
      `pos`, minor and major version after it, the pool from `pos + 8`, then
      access flags, this class, super class and the interfaces back to back
      from where the pool ends. */
  lemma HeaderLayout(data: seq<byte>, pos: nat, c: Collaborators)
    requires pos <= |data| && c.WellBehaved() && DecodeClassFile(data, pos, c).Ok?
    ensures pos + 8 <= |data| && DecodeConstantPool(data, pos + 8).Ok?
    ensures var cf := DecodeClassFile(data, pos, c).value.value;
      && cf.magic == BigEndian32(data, pos)
      && cf.minorVersion == BigEndian16(data, pos + 4)
      && cf.majorVersion == BigEndian16(data, pos + 6)
      && cf.constantPool == DecodeConstantPool(data, pos + 8).value.value
    ensures var cf := DecodeClassFile(data, pos, c).value.value;
      var q := DecodeConstantPool(data, pos + 8).value.next;
      && q + 6 <= |data|
      && cf.accessFlags == BigEndian16(data, q) as bv16
      && cf.thisClass == BigEndian16(data, q + 2)
      && cf.superClass == BigEndian16(data, q + 4)
    ensures var cf := DecodeClassFile(data, pos, c).value.value;
      var q := DecodeConstantPool(data, pos + 8).value.next;
      DecodeInterfaces(data, q + 6) == Ok(Decoded(cf.interfaces, q + 8 + 2 * |cf.interfaces|))
  {
    var versions := DecodeVersions(data, pos);
    var pool := DecodeConstantPool(data, pos + 8);
    var refs := DecodeClassRefs(data, pool.value.next);
  }

  /** A parsed class file: the twelve fields the parse fills. */
  class ClassFile {
    var size: nat
    var magic: nat
    var minorVersion: nat
    var majorVersion: nat
    var constantPool: ConstantPool
    var accessFlags: ClassAccessFlag
    var thisClass: nat
    var superClass: nat
    var interfaces: seq<nat>
    var fields: seq<MemberInfo>
    var methods: seq<MemberInfo>
    var attributes: seq<AttributeInfo>

    /** The pool has the layout the decoder gives it. */
    ghost predicate Valid()
      reads this
    {
      SlotLayout(constantPool.slots)
    }

    ghost function Contents(): ClassContents
      reads this
    {
      ClassContents(size, magic, minorVersion, majorVersion, constantPool, accessFlags,
                    thisClass, superClass, interfaces, fields, methods, attributes)
    }

    /** The zero value of every field. */
    constructor ()
      ensures Contents() == ClassContents(0, 0, 0, 0, ConstantPool([]), 0, 0, 0, [], [], [], [])
      ensures Valid()
    {
      size := 0;
      magic := 0;
      minorVersion := 0;
      majorVersion := 0;
      constantPool := ConstantPool([]);
      accessFlags := 0;
      thisClass := 0;
      superClass := 0;
      interfaces := [];
      fields := [];
      methods := [];
      attributes := [];
    }

    /** Stores decoded values in the fields; the interface list is already in place. */
    method Store(contents: ClassContents)
      requires contents.interfaces == interfaces
      modifies this
      ensures Contents() == contents
    {
      size := contents.size;
      magic := contents.magic;
      minorVersion := contents.minorVersion;
      majorVersion := contents.majorVersion;
      constantPool := contents.constantPool;
      accessFlags := contents.accessFlags;
      thisClass := contents.thisClass;
      superClass := contents.superClass;
      fields := contents.fields;
      methods := contents.methods;
      attributes := contents.attributes;
    }

    /** Reads the interface count, sizes the list to it and fills it in
        place, one 16-bit index at a time. */
    method ReadInterfaces(reader: ClassReader) returns (o: Outcome)
      requires reader.Valid()
      modifies this`interfaces, reader`pos
      ensures reader.Valid()
      ensures match DecodeInterfaces(reader.data, old(reader.pos))
              case Ok(d) => o == Pass && interfaces == d.value && reader.pos == d.next
              case Err(e) => o == Fail(e)
    {
      ghost var start := reader.pos;
      var count := reader.ReadUint16();
      if count.Err? {
        return Fail(count.error);
      }
      var n := count.value;
      interfaces := seq(n, _ => 0);
      var i := 0;
      while i < n
        invariant 0 <= i <= n && |interfaces| == n
        invariant reader.Valid() && reader.pos == start + 2 + 2 * i
        invariant forall k :: 0 <= k < i ==> interfaces[k] == BigEndian16(reader.data, start + 2 + 2 * k)
      {
        var index := reader.ReadUint16();
        if index.Err? {
          return Fail(index.error);
        }
        interfaces := interfaces[i := index.value];
        i := i + 1;
      }
      o := Pass;
    }

    function Size(): nat
      reads this
    {
      size
    }

    function Magic(): nat
      reads this
    {
      magic
    }

    function MajorVersion(): nat
      reads this
    {
      majorVersion
    }

    function MinorVersion(): nat
      reads this
    {
      minorVersion
    }

    function GetConstantPool(): ConstantPool
      reads this
    {
      constantPool
    }

    function AccessFlags(): ClassAccessFlag
      reads this
    {
      accessFlags
    }

    /** The internal name of this class, resolved through the pool. */
    function ThisClass(): (r: Result<seq<byte>>)
      reads this
      ensures forall name :: r == Ok(name) <==> NamesClass(constantPool, thisClass, name)
    {
      var r := GetClassName(constantPool, thisClass);
      forall name
        ensures r == Ok(name) <==> NamesClass(constantPool, thisClass, name)
      {
        ClassNameResolution(constantPool, thisClass, name);
      }
      r
    }

    /** The internal name of the superclass, resolved through the pool. */
    function SuperClass(): (r: Result<seq<byte>>)
      reads this
      ensures forall name :: r == Ok(name) <==> NamesClass(constantPool, superClass, name)
    {
      var r := GetClassName(constantPool, superClass);
      forall name
        ensures r == Ok(name) <==> NamesClass(constantPool, superClass, name)
      {
        ClassNameResolution(constantPool, superClass, name);
      }
      r
    }

    /** The names of the interfaces, in the order of their indices. */
    method Interfaces() returns (r: Result<seq<seq<byte>>>)
      ensures r == ClassNames(constantPool, interfaces)
    {
      var names := [];
      for i := 0 to |interfaces|
        invariant ClassNames(constantPool, interfaces[..i]) == Ok(names)
      {
        var name := GetClassName(constantPool, interfaces[i]);
        if name.Err? {
          assert interfaces[..i + 1][..i] == interfaces[..i];
          FirstFailure(constantPool, interfaces, i);
          return Err(name.error);
        }
        assert interfaces[..i + 1][..i] == interfaces[..i];
        names := names + [name.value];
      }
      assert interfaces[..|interfaces|] == interfaces;
      return Ok(names);
    }

    function Fields(): seq<MemberInfo>
      reads this
    {
      fields
    }

    function Methods(): seq<MemberInfo>
      reads this
    {
      methods
    }

    function Attributes(): seq<AttributeInfo>
      reads this
    {
      attributes
    }
  }

  /** The class names of `ids`, resolved in order; the first index that does
      not resolve decides the error. */
  function ClassNames(pool: ConstantPool, ids: seq<nat>): (r: Result<seq<seq<byte>>>)
    ensures r.Ok? <==> forall k :: 0 <= k < |ids| ==> GetClassName(pool, ids[k]).Ok?
    ensures r.Ok? ==> |r.value| == |ids| && forall k :: 0 <= k < |ids| ==> GetClassName(pool, ids[k]) == Ok(r.value[k])
    ensures r.Err? ==> exists k :: 0 <= k < |ids| && GetClassName(pool, ids[k]) == Err(r.error) &&
                                   forall j :: 0 <= j < k ==> GetClassName(pool, ids[j]).Ok?
  {
    if ids == [] then Ok([])
    else
      var init := ids[..|ids| - 1];
      var names :- ClassNames(pool, init);
      var last :- GetClassName(pool, ids[|ids| - 1]);
      Ok(names + [last])
  }

  /** When every index before `i` resolves and index `i` does not, the list
      fails with the error of index `i`. */
  lemma FirstFailure(pool: ConstantPool, ids: seq<nat>, i: nat)
    requires i < |ids| && ClassNames(pool, ids[..i]).Ok? && GetClassName(pool, ids[i]).Err?
    ensures ClassNames(pool, ids) == Err(GetClassName(pool, ids[i]).error)
  {
    assert forall j :: 0 <= j < i ==> GetClassName(pool, ids[..i][j]).Ok?;
  }

  /** Hands the rest of the buffer to a sub-reader and moves past what it consumed. */
  method ReadDelegated<T>(reader: ClassReader, f: SubReader<T>, pool: ConstantPool) returns (r: Result<T>)
    requires reader.Valid() && Advances(f)
    modifies reader`pos
    ensures reader.Valid() && reader.Consumed(r, Delegate(f, reader.data, old(reader.pos), pool))
  {
    var d :- f(reader.data[reader.pos..], pool);
    reader.Skip(d.next);
    r := Ok(d.value);
  }

  method ReadVersions(reader: ClassReader) returns (r: Result<(nat, nat, nat)>)
    requires reader.Valid()
    modifies reader`pos
    ensures reader.Valid() && reader.Consumed(r, DecodeVersions(reader.data, old(reader.pos)))
  {
    var magic :- reader.ReadUint32();
    var minor :- reader.ReadUint16();
    var major :- reader.ReadUint16();
    r := Ok((magic, minor, major));
  }

  method ReadClassRefs(reader: ClassReader) returns (r: Result<(nat, nat, nat)>)
    requires reader.Valid()
    modifies reader`pos
    ensures reader.Valid() && reader.Consumed(r, DecodeClassRefs(reader.data, old(reader.pos)))
  {
    var flags :- reader.ReadUint16();
    var thisClass :- reader.ReadUint16();
    var superClass :- reader.ReadUint16();
    r := Ok((flags, thisClass, superClass));
  }

  method ReadBody(reader: ClassReader, pool: ConstantPool, c: Collaborators)
    returns (r: Result<(seq<MemberInfo>, seq<MemberInfo>, seq<AttributeInfo>)>)
    requires reader.Valid() && c.WellBehaved()
    modifies reader`pos
    ensures reader.Valid() && reader.Consumed(r, DecodeBody(reader.data, old(reader.pos), pool, c))
  {
    var fields :- ReadDelegated(reader, c.readMembers, pool);
    var methods :- ReadDelegated(reader, c.readMembers, pool);
    var attributes :- ReadDelegated(reader, c.readAttributes, pool);
    r := Ok((fields, methods, attributes));
  }

  /** Fills `cf` from the reader's position: reads each stage in the order of
      the format into a local, fills the interface list in place, then
      stores the other fields together. */
  method ReadClassFile(cf: ClassFile, reader: ClassReader, c: Collaborators) returns (o: Outcome)
    requires reader.Valid() && c.WellBehaved()
    modifies cf, reader`pos
    ensures reader.Valid()
    ensures match DecodeClassFile(reader.data, old(reader.pos), c)
            case Ok(d) => o == Pass && cf.Contents() == d.value && cf.Valid() && reader.pos == d.next
            case Err(e) => o == Fail(e)
  {
    ghost var start := reader.pos;
    var versions := ReadVersions(reader);
    if versions.Err? {
      return Fail(versions.error);
    }
    ghost var poolAt := reader.pos;
    var pool := ReadConstantPool(reader);
    if pool.Err? {
      return Fail(pool.error);
    }
    ghost var refsAt := reader.pos;
    DecodedPoolLayout(reader.data, poolAt);
    var refs := ReadClassRefs(reader);
    if refs.Err? {
      return Fail(refs.error);
    }
    ghost var interfacesAt := reader.pos;
    o := cf.ReadInterfaces(reader);
    if o.Fail? {
      return;
    }
    ghost var bodyAt := reader.pos;
    var body := ReadBody(reader, pool.value, c);
    if body.Err? {
      return Fail(body.error);
    }
    DecodeClassFileStages(reader.data, start, c, versions.value, pool.value, refs.value, cf.interfaces, body.value,
                          poolAt, refsAt, interfacesAt, bodyAt, reader.pos);
    cf.Store(ClassContents(reader.Length(), versions.value.0, versions.value.1, versions.value.2, pool.value,
                           refs.value.0 as bv16, refs.value.1, refs.value.2, cf.interfaces,
                           body.value.0, body.value.1, body.value.2));
  }

  /** Parses a class file from the reader's position into a new object. */
  method ParseFromClassReader(reader: ClassReader, c: Collaborators) returns (r: Result<ClassFile>)
    requires reader.Valid() && c.WellBehaved()
    modifies reader`pos
    ensures reader.Valid()
    ensures match DecodeClassFile(reader.data, old(reader.pos), c)
            case Ok(d) => r.Ok? && fresh(r.value) && r.value.Contents() == d.value && r.value.Valid() && reader.pos == d.next
            case Err(e) => r == Err(e)
  {
    var cf := new ClassFile();
    var o := ReadClassFile(cf, reader, c);
    if o.Fail? {
      return Err(o.error);
    }
    return Ok(cf);
  }

  /** Parses a class file from raw bytes, starting at the first byte. */
  method Parse(bytes: seq<byte>, c: Collaborators) returns (r: Result<ClassFile>)
    requires c.WellBehaved()
    ensures match DecodeClassFile(bytes, 0, c)
            case Ok(d) => r.Ok? && fresh(r.value) && r.value.Contents() == d.value && r.value.Valid()
            case Err(e) => r == Err(e)
  {
    var reader := new ClassReader(bytes);
    r := ParseFromClassReader(reader, c);
  }

  /** In a pool with the decoded layout, index 0 never names a class, so a
      class file whose super class index is 0 has no superclass name. */
  lemma SuperClassOfRootFails(cf: ClassFile)
    requires cf.Valid() && cf.superClass == 0
    ensures cf.SuperClass() == Err(InvalidIndex(0))
  {
    if |cf.constantPool.slots| > 0 {
      assert cf.constantPool.slots[0].None?;
    }
  }

  /** A sub-reader that reads nothing. */
  function NoMembers(): SubReader<seq<MemberInfo>> {
    (rest, pool) => Ok(Decoded([], 0))
  }

  function NoAttributes(): SubReader<seq<AttributeInfo>> {
    (rest, pool) => Ok(Decoded([], 0))
  }

  /** Sub-readers that read nothing leave the body empty, wherever it starts. */
  lemma QuietBody(data: seq<byte>, pos: nat, pool: ConstantPool)
    requires pos <= |data|
    ensures Collaborators(NoMembers(), NoAttributes()).WellBehaved()
    ensures DecodeBody(data, pos, pool, Collaborators(NoMembers(), NoAttributes())) == Ok(Decoded(([], [], []), pos))
  {
  }

  /** The 16-bit value 0x20 read as an access-flag mask is the super flag. */
  lemma SuperFlagMask(v: nat)
    requires v == 0x20
    ensures v as bv16 == ClassAccessFlagSuper
  {
  }

  /** The smallest class file: magic 0, versions 0, a pool of one (empty)
      slot, the super flag, this and super class 0, no interfaces, and
      collaborators that read nothing. */
  const MinimalClass: seq<byte> := [0, 0, 0, 0, 0, 0, 0, 0, 0, 1, 0, 0x20, 0, 0, 0, 0, 0, 0]

  /** The magic number is not checked: a file whose magic is 0 rather than
      0xCAFEBABE parses, and keeps 0. */
  lemma MagicNotChecked()
    ensures Collaborators(NoMembers(), NoAttributes()).WellBehaved()
    ensures DecodeClassFile(MinimalClass, 0, Collaborators(NoMembers(), NoAttributes())) ==
            Ok(Decoded(ClassContents(18, 0, 0, 0, ConstantPool([None]), ClassAccessFlagSuper, 0, 0, [], [], [], []), 18))
  {
    var c := Collaborators(NoMembers(), NoAttributes());
    var data := MinimalClass;
    var refs := (0x20, 0, 0);
    MinimalHeader();
    MinimalPool();
    QuietBody(data, 18, ConstantPool([None]));
    SuperFlagMask(refs.0);
    DecodeClassFileStages(data, 0, c, (0, 0, 0), ConstantPool([None]), refs, [], ([], [], []), 8, 10, 16, 18, 18);
  }

  /** The fixed-width stages of the smallest class file. */
  lemma MinimalHeader()
    ensures DecodeVersions(MinimalClass, 0) == Ok(Decoded((0, 0, 0), 8))
    ensures DecodeClassRefs(MinimalClass, 10) == Ok(Decoded((0x20, 0, 0), 16))
    ensures DecodeInterfaces(MinimalClass, 16) == Ok(Decoded([], 18))
  {
  }

  /** The pool of the smallest class file: a count of 1, so slot 0 alone. */
  lemma MinimalPool()
    ensures DecodeConstantPool(MinimalClass, 8) == Ok(Decoded(ConstantPool([None]), 10))
  {
    assert DecodeU16(MinimalClass, 8) == Ok(Decoded(1, 10));
    var empty: Option<Entry> := None;
    assert seq(1, _ => empty) == [empty];
  }

  /** A 27-byte class file named "Foo": Utf8 "Foo" in slot 1, a Class entry
      naming it in slot 2, the super flag, this class 2, super class 0 and no
      interfaces. */
  const FooClass: seq<byte> := [
    0xCA, 0xFE, 0xBA, 0xBE, 0, 0, 0, 52,
    0, 3, 1, 0, 3, 70, 111, 111, 7, 0, 1,
    0, 0x20, 0, 2, 0, 0, 0, 0]

  /** The two entries of the pool of "Foo", as the decoder reads them. */
  lemma FooEntries()
    ensures DecodeEntry(FooClass, 10) == Ok(Decoded(Utf8([70, 111, 111]), 16))
    ensures DecodeEntry(FooClass, 16) == Ok(Decoded(Class(1), 19))
  {
    var data := FooClass;
    assert DecodeU16(data, 11) == Ok(Decoded(3, 13));
    assert data[13..16] == [70, 111, 111];
  }

  /** The pool of "Foo": an empty slot 0, then the two entries. */
  lemma FooPool()
    ensures DecodeConstantPool(FooClass, 8) ==
            Ok(Decoded(ConstantPool([None, Some(Utf8([70, 111, 111])), Some(Class(1))]), 19))
  {
    var data := FooClass;
    var empty: Option<Entry> := None;
    var foo := Utf8([70, 111, 111]);
    FooEntries();
    assert DecodeU16(data, 8) == Ok(Decoded(3, 10));
    assert seq(3, _ => empty) == [None, None, None];
    FillSlotsStep(data, 10, 1, [None, None, None], foo, 16);
    assert [None, None, None][1 := Some(foo)] == [None, Some(foo), None];
    FillSlotsStep(data, 16, 2, [None, Some(foo), None], Class(1), 19);
    assert [None, Some(foo), None][2 := Some(Class(1))] == [None, Some(foo), Some(Class(1))];
  }

  /** The fixed-width stages of "Foo" around its pool. */
  lemma FooHeader()
    ensures DecodeVersions(FooClass, 0) == Ok(Decoded((0xCAFEBABE, 0, 52), 8))
    ensures DecodeClassRefs(FooClass, 19) == Ok(Decoded((0x20, 2, 0), 25))
    ensures DecodeInterfaces(FooClass, 25) == Ok(Decoded([], 27))
  {
  }

  /** Parsing the bytes of "Foo" yields a class whose name resolves through
      the decoded pool and whose super-class index 0 does not. */
  lemma ParsedClassNames()
    ensures Collaborators(NoMembers(), NoAttributes()).WellBehaved()
    ensures var r := DecodeClassFile(FooClass, 0, Collaborators(NoMembers(), NoAttributes()));
      && r.Ok? && r.value.next == 27
      && r.value.value.magic == 0xCAFEBABE && r.value.value.majorVersion == 52
      && r.value.value.accessFlags == ClassAccessFlagSuper && r.value.value.interfaces == []
      && GetClassName(r.value.value.constantPool, r.value.value.thisClass) == Ok([70, 111, 111])
      && GetClassName(r.value.value.constantPool, r.value.value.superClass) == Err(InvalidIndex(0))
  {
    var c := Collaborators(NoMembers(), NoAttributes());
    var pool := ConstantPool([None, Some(Utf8([70, 111, 111])), Some(Class(1))]);
    FooPool();
    FooHeader();
    var refs := (0x20, 2, 0);
    QuietBody(FooClass, 27, pool);
    SuperFlagMask(refs.0);
    DecodeClassFileStages(FooClass, 0, c, (0xCAFEBABE, 0, 52), pool, refs, [], ([], [], []),
                          8, 19, 25, 27, 27);
  }

  /** A pool of four slots holding a Long in slot 1 and Utf8 "A" after it. */
  const WidePoolBytes: seq<byte> := EncodeU16(4) + EncodeEntry(Long(0, 7)) + EncodeEntry(Utf8([65]))

  /** The count and the two entries of the wide pool, read back through the
      round trips of the encoders. */
  lemma WidePoolEntries()
    ensures |WidePoolBytes| == 15
    ensures DecodeU16(WidePoolBytes, 0) == Ok(Decoded(4, 2))
    ensures DecodeEntry(WidePoolBytes, 2) == Ok(Decoded(Long(0, 7), 11))
    ensures DecodeEntry(WidePoolBytes, 11) == Ok(Decoded(Utf8([65]), 15))
  {
    var data := WidePoolBytes;
    var count, long, a := EncodeU16(4), EncodeEntry(Long(0, 7)), EncodeEntry(Utf8([65]));
    assert |long| == 9 && |a| == 4;
    assert data[0..15] == count + (long + a);
    SplitAt(data, 0, count, long + a);
    SplitAt(data, 2, long, a);
    U16RoundTrip(data, 0, 4);
    EntryRoundTrip(data, 2, Long(0, 7));
    EntryRoundTrip(data, 11, Utf8([65]));
  }

  /** The slot after the Long stays empty and the Utf8 entry lands in slot 3. */
  lemma WidePoolSkipsSlot()
    ensures DecodeConstantPool(WidePoolBytes, 0) ==
            Ok(Decoded(ConstantPool([None, Some(Long(0, 7)), None, Some(Utf8([65]))]), 15))
    ensures GetUtf8(DecodeConstantPool(WidePoolBytes, 0).value.value, 2) == Err(InvalidIndex(2))
    ensures GetUtf8(DecodeConstantPool(WidePoolBytes, 0).value.value, 3) == Ok([65])
  {
    var data := WidePoolBytes;
    var empty: Option<Entry> := None;
    var long := Long(0, 7);
    var a := Utf8([65]);
    WidePoolEntries();
    assert seq(4, _ => empty) == [None, None, None, None];
    FillSlotsStep(data, 2, 1, [None, None, None, None], long, 11);
    assert [None, None, None, None][1 := Some(long)] == [None, Some(long), None, None];
    FillSlotsStep(data, 11, 3, [None, Some(long), None, None], a, 15);
    assert [None, Some(long), None, None][3 := Some(a)] == [None, Some(long), None, Some(a)];
  }

  /** A pool shaped like that of a class with a superclass and two
      interfaces: Class entries at 2, 4, 6 and 8 naming the Utf8 entries
      "A", "B", "I" and "J" just before them. */
  const SamplePool: ConstantPool := ConstantPool([
    None, Some(Utf8([65])), Some(Class(1)), Some(Utf8([66])), Some(Class(3)),
    Some(Utf8([73])), Some(Class(5)), Some(Utf8([74])), Some(Class(7))])

  /** This and super class resolve to their names, and the interfaces
      resolve in the order of their indices. */
  lemma SamplePoolResolution()
    ensures GetClassName(SamplePool, 2) == Ok([65])
    ensures GetClassName(SamplePool, 4) == Ok([66])
    ensures ClassNames(SamplePool, [6, 8]) == Ok([[73], [74]])
    ensures ClassNames(SamplePool, [8, 6]) == Ok([[74], [73]])
  {
    assert GetClassName(SamplePool, 6) == Ok([73]);
    assert GetClassName(SamplePool, 8) == Ok([74]);
    var forward := ClassNames(SamplePool, [6, 8]);
    assert forward.Ok? && forward.value[0] == [73] && forward.value[1] == [74];
    assert forward.value == [[73], [74]];
    var backward := ClassNames(SamplePool, [8, 6]);
    assert backward.Ok? && backward.value[0] == [74] && backward.value[1] == [73];
    assert backward.value == [[74], [73]];
  }

  /** A Class entry whose name index points at a Class entry rather than a
      Utf8 entry is a type mismatch at the name index. */
  lemma ClassNameThroughNonUtf8()
    ensures GetClassName(ConstantPool([None, Some(Class(1))]), 1) == Err(TypeMismatch(1))
    ensures GetClassName(ConstantPool([None, Some(Utf8([65]))]), 1) == Err(TypeMismatch(1))
    ensures GetClassName(ConstantPool([None, Some(Class(5))]), 1) == Err(InvalidIndex(5))
  {
  }
}
