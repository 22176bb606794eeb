# Java class-file parser, modelled in Dafny

This project models the `classfile` package of go-java-class-parser. That package
parses the binary Java class-file format into a `ClassFile` object. Parsing reads
the fixed-order header, then the magic number and the versions, then the constant
pool with its tagged entries and its double slots for Long and Double. After the
pool come the access flags, the this-class and super-class indices and the
interface indices. The fields, methods and attributes are read last. The package
also resolves class names through the pool and turns access-flag masks into
their names.

The model has five modules:

- `Wrappers`: the error kinds, `Option`, `Result` and `Outcome`. Every place
  where the Go code panics (an unknown tag, an index out of range, an empty
  slot, an entry of the wrong kind, reading past the end of the buffer) returns
  an error value here instead.
- `Reader`: a minimal byte cursor. The class `ClassReader` holds an immutable
  buffer and a position. Its big-endian 8, 16 and 32-bit reads are proved
  against the pure functions `DecodeU8`, `DecodeU16` and `DecodeU32` through
  the predicate `Consumed(r, spec)`: on success the read returns the spec's
  value and moves the position to the spec's `next`; on failure it returns the
  same error.
- `Pool`: the constant pool. It has the tag table, the empty entry for each tag,
  the decoding of one entry, and the loop that fills the slots of an array in
  place. It also resolves Utf8, Class and NameAndType indices.
- `AccessFlags`: the class and method flag tables and the loop that turns a mask
  into flag names.
- `ClassFiles`: the `ClassFile` class with its twelve fields. It holds the
  parse and the accessors. The parse reads each stage into a local, fills the
  interface list of the object in place, and then stores the other fields
  together.

Each method that reads from the buffer is proved equal to a pure decoding
function: `DecodeConstantPool`, `DecodeInterfaces`, `DecodeClassFile` and the
others. The properties are then proved about those functions.

## Model

| member | source | states |
|---|---|---|
| Pool.TagOf | classfile/constant_pool.go:5-20 | each kind of entry has one of the fourteen known tags; Long and Double are exactly the kinds whose tag is 5 or 6 |
| Pool.NewConstantPoolInfo | classfile/constant_pool.go:68-101 | succeeds exactly for the fourteen known tags and gives an entry of that tag; any other tag is the error InvalidConstantTag(tag) |
| Pool.BlankOfTag | classfile/constant_pool.go:68-101 | the tag of any entry makes the factory return the empty entry of that entry's kind |
| Pool.DecodeInfoShape | classfile/constant_pool.go:53-56 | a decoded payload is an entry of the kind asked for, fits the field widths, and ends strictly after `pos` inside the buffer; the only failure is running out of bytes |
| Pool.ReadInfo | classfile/constant_pool.go:55 | reads exactly the payload the decoding function describes and leaves the cursor where it ends, or fails with the same error |
| Pool.DecodeEntry | classfile/constant_pool.go:52-56 | a decoded entry has the tag byte at `pos` as its tag and is well formed; failure is either running out of bytes or InvalidConstantTag of the byte at `pos` |
| Pool.ReadEntry | classfile/constant_pool.go:52-56 | reads one tag and its payload as the decoding function says; the entry is a Long or a Double exactly when the tag read is 5 or 6 |
| Pool.InfoRoundTrip | classfile/constant_pool.go:55 | the encoding of any well-formed entry decodes back to that entry and ends right after its bytes |
| Pool.EntryRoundTrip | classfile/constant_pool.go:52-56 | a tag byte followed by an encoded payload decodes back to the same entry |
| Pool.FillSlots | classfile/constant_pool.go:51-64 | the slot-filling loop keeps the number of slots and ends inside the buffer |
| Pool.FillSlotsStep | classfile/constant_pool.go:51-63 | one turn of the loop puts the entry decoded at `pos` into slot `i` and goes on two slots later after a Long or Double, one slot later otherwise |
| Pool.DecodeConstantPool | classfile/constant_pool.go:49-66 | a decoded pool ends after its 2-byte count and inside the buffer |
| Pool.ReadConstantPool | classfile/constant_pool.go:49-66 | allocates as many slots as the count read, fills them in place from index 1, steps over one extra slot after a Long or Double, and yields exactly the decoded pool, or the decoder's error |
| Pool.FillSlotsLayout | classfile/constant_pool.go:51-64 | each iteration of the loop keeps the slot layout: slot 0 empty, and a slot empty exactly when the slot before it holds a Long or a Double |
| Pool.DecodedPoolLayout | classfile/constant_pool.go:49-66 | a decoded pool has as many slots as the count read, slot 0 is empty, and each later slot is empty exactly when the slot before it holds a Long or a Double |
| Pool.GetConstantInfo | classfile/constant_pool.go:28-30 | returns slot `index`, which may be empty, exactly when the index is in range; otherwise InvalidIndex |
| Pool.GetUtf8 | classfile/constant_pool.go:44-47 | returns the bytes of the Utf8 entry at `index` exactly when there is one; an empty or missing slot is InvalidIndex, an entry of another kind TypeMismatch |
| Pool.GetClassName | classfile/constant_pool.go:39-42 | a Class entry at `index` resolves to the Utf8 entry its name index points at, with that lookup's error; an empty or missing slot is InvalidIndex, another kind TypeMismatch |
| Pool.ClassNameResolution | classfile/constant_pool.go:39-42 | a class name resolves to `name` if and only if slot `index` holds a Class entry whose name index holds Utf8 `name` |
| Pool.GetNameAndType | classfile/constant_pool.go:32-37 | a NameAndType entry resolves to its name and then its descriptor, each through its Utf8 entry, and the first failing lookup decides the error; an empty or missing slot is InvalidIndex, another kind TypeMismatch |
| Pool.SlotZeroNeverResolves | classfile/constant_pool.go:50-51 | in a decoded pool, index 0 fails with InvalidIndex(0) for Utf8, Class and NameAndType lookups |
| Pool.ShadowSlotNeverResolves | classfile/constant_pool.go:58-63 | in a decoded pool, the index after a Long or Double fails with InvalidIndex for Utf8, Class and NameAndType lookups |
| AccessFlags.SetIndices | classfile/access_flags.go:36-37 | the table positions it selects are below `n`, and there are at most `n` of them |
| AccessFlags.FlagNames | classfile/access_flags.go:34-42 | the names are those of the selected table positions, in order |
| AccessFlags.SetIndicesExact | classfile/access_flags.go:36-37 | a position is selected if and only if its flag shares a bit with the mask |
| AccessFlags.SetIndicesIncreasing | classfile/access_flags.go:36 | the selected positions come out in increasing table order |
| AccessFlags.FlagNamesMembership | classfile/access_flags.go:34-42 | with distinct names, a flag's name is in the output if and only if the flag is set in the mask |
| AccessFlags.FlagNamesDistinct | classfile/access_flags.go:34-42 | with distinct names, no name appears twice |
| AccessFlags.FlagNamesEmpty | classfile/access_flags.go:34-42 | the output is empty if and only if no flag of the table is set in the mask |
| AccessFlags.FlagNamesOnlyTabledBits | classfile/access_flags.go:37 | masks that agree on every flag of the table give the same names, so bits outside the table are ignored |
| AccessFlags.SingleFlagNames | classfile/access_flags.go:34-42 | the mask of one flag that shares no bit with the others gives that flag's name alone |
| AccessFlags.FlagNamesAtFlag | classfile/access_flags.go:34-42 | up to and including flag `j`, the mask of flag `j` gives its name alone |
| AccessFlags.FlagNamesNoneBelow | classfile/access_flags.go:34-42 | a mask that shares no bit with the first `n` flags gives no names |
| AccessFlags.ToString | classfile/access_flags.go:34-42 | the loop over the table returns exactly the names of the set flags, in table order |
| AccessFlags.ClassAccessFlagToString | classfile/access_flags.go:34-42 | a class flag's name is listed if and only if that flag is set; the names come in table order, at most eight, with no repeats |
| AccessFlags.MethodAccessFlagToString | classfile/access_flags.go:84-92 | a method flag's name is listed if and only if that flag is set; the names come in table order, at most twelve, with no repeats |
| AccessFlags.ClassFlagBits | classfile/access_flags.go:8-27 | the class table holds eight single-bit flags, no two sharing a bit, and there are eight names |
| AccessFlags.ClassFlagNamesDistinct | classfile/access_flags.go:29-31 | the eight class flag names are distinct |
| AccessFlags.MethodFlagBits | classfile/access_flags.go:49-76 | the method table holds twelve single-bit flags, no two sharing a bit, and there are twelve names |
| AccessFlags.MethodFlagsSingleBits | classfile/access_flags.go:49-60 | every method flag is a single bit |
| AccessFlags.MethodFlagNamesDistinct | classfile/access_flags.go:78-81 | the twelve method flag names are distinct |
| AccessFlags.ClassSuperNames | classfile/access_flags.go:18-31 | the super flag 0x0020 alone gives exactly ["super"] |
| AccessFlags.ClassUntabledNames | classfile/access_flags.go:34-42 | a mask with only bits outside the class table gives no names |
| ClassFiles.Delegate | classfile/class_file.go:61-63 | a sub-reader's result ends between its start and the end of the buffer |
| ClassFiles.DecodeInterfaces | classfile/class_file.go:67-72 | succeeds exactly when the count and that many 16-bit indices fit; then the list has `count` entries, entry `k` is the 16-bit value at `pos + 2 + 2k`, and decoding ends after the last one; otherwise the error is UnexpectedEof |
| ClassFiles.ClassFile.ReadInterfaces | classfile/class_file.go:67-72 | sizes the list to the count read and fills it in place, one index per step; leaves exactly the decoded list in the field and the cursor after it, or fails with the decoder's error |
| ClassFiles.InterfacesRoundTrip | classfile/class_file.go:67-72 | an encoded count followed by the encoded indices decodes back to the same list |
| ClassFiles.DecodeVersions | classfile/class_file.go:52-54 | the magic number is the 32-bit value at `pos`, the minor and major versions are the 16-bit values at `pos + 4` and `pos + 6`, and the result exists exactly when eight bytes remain |
| ClassFiles.ReadVersions | classfile/class_file.go:52-54 | reads the magic number and both versions as the decoding function says |
| ClassFiles.DecodeClassRefs | classfile/class_file.go:56-58 | the access flags, this class and super class are the 16-bit values at `pos`, `pos + 2` and `pos + 4`, and the result exists exactly when six bytes remain |
| ClassFiles.ReadClassRefs | classfile/class_file.go:56-58 | reads the access flags and both class indices as the decoding function says |
| ClassFiles.DecodeBody | classfile/class_file.go:61-63 | the fields, methods and attributes end inside the buffer |
| ClassFiles.ReadDelegated | classfile/class_file.go:61-63 | hands the rest of the buffer to a sub-reader and moves the cursor past what it consumed |
| ClassFiles.ReadBody | classfile/class_file.go:61-63 | reads fields, methods and attributes in that order as the decoding function says |
| ClassFiles.DecodeClassFile | classfile/class_file.go:49-65 | a parsed class records the size of the whole buffer, spans at least the 18 fixed header bytes, and ends inside the buffer |
| ClassFiles.DecodeClassFileStages | classfile/class_file.go:51-63 | when every stage decodes where the previous one ended, the class file is made of exactly those stage values |
| ClassFiles.HeaderLayout | classfile/class_file.go:51-59 | in a parsed class file, the magic number and versions come from `pos`, `pos + 4` and `pos + 6`; the pool is decoded from `pos + 8`; the access flags, class indices and interfaces follow the pool back to back |
| ClassFiles.ClassFile.constructor | classfile/class_file.go:50 | a new class file holds the zero value in every field and has the pool layout |
| ClassFiles.ClassFile.Store | classfile/class_file.go:51-63 | after storing, the fields hold exactly the given values |
| ClassFiles.ReadClassFile | classfile/class_file.go:50-64 | fills every field of the object with the decoded class file and leaves the cursor after it, with the pool layout holding; or fails with the decoder's error |
| ClassFiles.ParseFromClassReader | classfile/class_file.go:49-65 | returns a new object whose fields are the class file decoded from the cursor's position, with the cursor after it; or fails with the decoder's error |
| ClassFiles.Parse | classfile/class_file.go:43-46 | returns a new object whose fields are the class file decoded from the first byte; or fails with the decoder's error |
| ClassFiles.ClassFile.ThisClass | classfile/class_file.go:105-107 | resolves to `name` if and only if the this-class index holds a Class entry whose name index holds Utf8 `name` |
| ClassFiles.ClassFile.SuperClass | classfile/class_file.go:110-112 | resolves to `name` if and only if the super-class index holds a Class entry whose name index holds Utf8 `name` |
| ClassFiles.ClassNames | classfile/class_file.go:115-121 | all names resolve if and only if every index resolves; name `k` is that of index `k`; on failure the error is that of the first index that does not resolve |
| ClassFiles.FirstFailure | classfile/class_file.go:117-118 | if every index before `i` resolves and index `i` does not, the whole list fails with the error of index `i` |
| ClassFiles.ClassFile.Interfaces | classfile/class_file.go:115-121 | the loop returns the class names of the interface indices in order, or the error of the first index that does not resolve |
| ClassFiles.SuperClassOfRootFails | classfile/class_file.go:110-112 | with the decoded pool layout, a super-class index of 0 fails with InvalidIndex(0) |
| ClassFiles.MagicNotChecked | classfile/class_file.go:52 | an 18-byte file with magic 0 instead of 0xCAFEBABE still parses, and it keeps magic 0 |
| ClassFiles.SamplePoolResolution | classfile/class_file_test.go:21-26 | in a pool shaped like that of a class with a superclass and two interfaces, this class, the super class and the interfaces resolve to their names, in index order |
| ClassFiles.ParsedClassNames | classfile/class_file_test.go:18-27 | parsing 27 bytes of a class "Foo" (Utf8 "Foo" in slot 1, a Class entry naming it in slot 2, the super flag, this class 2, super class 0, no interfaces) gives magic 0xCAFEBABE, major version 52, the super flag and no interfaces; the parsed this class resolves to "Foo" and the parsed super class 0 fails with InvalidIndex(0) |
| ClassFiles.WidePoolSkipsSlot | classfile/constant_pool.go:58-63 | a decoded pool of four slots with a Long in slot 1 leaves slot 2 empty and puts the next entry in slot 3; index 2 fails with InvalidIndex(2) and index 3 resolves to its bytes |
| ClassFiles.ClassNameThroughNonUtf8 | classfile/constant_pool.go:39-46 | a name index that holds a Class entry or a missing slot makes class-name resolution fail with TypeMismatch or InvalidIndex at that index |

The accessors `Size`, `Magic`, `MajorVersion`, `MinorVersion`, `GetConstantPool`,
`AccessFlags`, `Fields`, `Methods` and `Attributes` of `ClassFiles.ClassFile`
(classfile/class_file.go:75-102 and 124-136) return a field and carry no
contract. The accessor `GetConstantPool` is named so rather than
`ConstantPool` because the datatype `ConstantPool` already uses that name.

## Left out

- `Print` (classfile/class_file.go:139-167) is console output.
- The reader implementation behind `IClassReader` is not part of this model. `Reader.ClassReader` is a minimal cursor. A read past the end returns `UnexpectedEof` instead of panicking. A failed single read (`ReadUint8`, `ReadUint16`, `ReadUint32`, `ReadBytes`) leaves the position unchanged. The position after a failed composite read (`ReadConstantPool`, `ClassFile.ReadInterfaces`, `ReadClassFile`) is left unspecified.
- `readMembers` and `readAttributes` are not part of this model. They are parameters of the parse (`Collaborators`): functions from the rest of the buffer and the pool to a result and the number of bytes consumed. The only assumption about them is that they never consume more bytes than they are given.
- The `ReadInfo` bodies of the entry types are not part of this model. The payload widths follow section 4.4 of the Java Virtual Machine Specification: a u2 length and raw bytes for Utf8, u4 for Integer and Float, two u4 for Long and Double, a u1 and a u2 for MethodHandle, and u2 for every other index.
- Modified UTF-8 decoding: Utf8 entries keep their raw bytes, and names are byte sequences, not Go strings.
- Float and Double entries keep their raw bit patterns; no floating-point value is computed.
- The back-reference from a Methodref entry to its pool (`ConstantMethodrefInfo{cp: cp}`, classfile/constant_pool.go:75) is not kept, because the pool is a value here.
- The `cpInfo != nil` test in classfile/constant_pool.go:54 is always true, because the factory panics rather than returning nil. The model has no such branch.
- ReadClassFile: Go assigns each field of the object right after reading it (classfile/class_file.go:51-63). The model reads every stage into a local, fills `interfaces` in place, and writes the other eleven fields in one `Store` call after the last read. A failed parse is discarded in both, so the order of the assignments is not observable and the model does not capture it.
- The comment about concurrency at classfile/class_file.go:60 concerns possible future work; the model reads fields, methods and attributes in sequence, as the code does.
- Go panics (an unknown tag, an index out of range, a nil slot, a failed type assertion, end of input) are modelled as `Err` results that stop the parse. A recovered panic is not modelled.
- Pool.DecodeConstantPool: no whole-pool encoder with a round-trip lemma is given. The round trip is proved entry by entry (`Pool.EntryRoundTrip`), and the layout of the slots is proved separately (`Pool.DecodedPoolLayout`).
- The magic number is not checked against 0xCAFEBABE, and neither are the versions. The model follows the code, and `ClassFiles.MagicNotChecked` shows a file with magic 0 being accepted.
- Go's fixed widths (`uint16` indices, `uint32` magic) are modelled as `nat` values bounded by the contracts of the decoding functions, and `ClassAccessFlag` as `bv16`.
