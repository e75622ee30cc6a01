# Java Card assembly linker, modelled in Dafny

This project models the linker of a JCA-to-CAP converter for Java Card. The converter
reads a parsed Java Card assembly (JCA) package and builds the components of a CAP file
as chapter 6 of the Java Card 2.1 virtual machine specification lays them out. It then
packs the converted packages into a flash filesystem image, which it writes as a raw
binary and as an Intel HEX text.

The components are built in a fixed order: static field, descriptor, import, method,
constant pool, class, reference location, then the descriptor is finished, then export,
applet, header and directory. Each later component reads what the earlier ones produced.
The model keeps that order by passing every earlier result in as a parameter.

The modules follow the converter's own structure:

- `Wrappers`: the `Result` and `Option` types. An exception the converter throws
  (`JCAConverterException`, or a `NullPointerException` the code does not guard against)
  becomes an `Err`.
- `Bytes`: Java `byte` and `short` casts, `Integer.parseInt`, decimal text and
  upper-case hexadecimal text.
- `Opcodes`: the opcode table, as data.
- `Jca`: the assembly's data holders as datatypes. Also `JCAType` rendering and
  equality, `AID.toString`, `JCAExceptionHandler.isIncludedIn`, instruction sizes and
  class record sizes.
- `Instructions`: the parameter encoders of the instructions that have them. Also
  `updateLabels` of the two switch instructions, which resolves labels to branch offsets
  in place.
- `MethodComponent`: method headers, `nargs`, native stubs, method offsets, exception
  handlers with their stop bits, and the relocation index lists. Its class holds the
  state the converter updates step by step.
- `Descriptor`: the type table with nibble-packed, deduplicated descriptors. Also the
  field, method and class descriptors, the field order and the component size.
- `StaticField`: the four-segment static field image, `array_init`, the default and
  non-default values, and the component size.
- `ConstantPool`: resolution of internal and external references into pool entries,
  and the descriptor types the pool adds.
- `Classes`: class and interface records, with their flags, super reference, instance
  layout, method tables and implemented interfaces.
- `Export`: the export rules for applets and libraries, and the export offsets.
- `ReferenceLocation`: the delta encoding of the relocation lists.
- `Components`: the package info and the header, applet, import and directory
  components.
- `Table`: the sorted row/column/value table the converter keeps static fields in.
- `Flash`: the flash form of a static field, renumbering of static references,
  generating the packages, the binary image and its package bitset.
- `IntelHex`: the Intel HEX records of the image.

Where the converter mutates a component in place, the model is a class whose methods
change its fields. Where the converter only computes, the model is a function. Each
method is proved against a specification function. The lemmas then prove what the
converter promises about that function: round trips, offsets that land on what they
designate, deduplication, order, and error cases.

## Model

| member | source | states |
|---|---|---|
| Bytes.ToByte | src/main/java/fr/gouv/ssi/rommask/jcaparser/bytecodes/CHECKCAST.java:69 | a Java `(byte)` cast keeps the value modulo 256 and leaves a value already in 0..255 unchanged |
| Bytes.ToShort | src/main/java/fr/gouv/ssi/rommask/jcaparser/bytecodes/CHECKCAST.java:70 | a Java `(short)` cast keeps the value modulo 65536 and leaves a value already in 0..65535 unchanged |
| Bytes.ByteAdd | src/main/java/fr/gouv/ssi/rommask/jcaparser/jcaconverter/ClassInfoFromJCA.java:97-135 | repeated `(byte)` truncation of a running sum equals one truncation of the exact sum |
| Bytes.ShortAdd | src/main/java/fr/gouv/ssi/rommask/jcaparser/jcaconverter/ClassInfoFromJCA.java:81-89 | repeated `(short)` truncation of a running sum equals one truncation of the exact sum |
| Bytes.SignedByte | src/main/java/fr/gouv/ssi/rommask/jcaparser/jcaconverter/MethodComponentFromJCA.java:180-187 | the signed reading of a byte lies in -128..127 and casts back to the same byte |
| Bytes.SignedShort | src/main/java/fr/gouv/ssi/rommask/jcaparser/bytecodes/SLOOKUPSWITCH.java:89-90 | the signed reading of a short lies in -32768..32767 and casts back to the same short |
| Bytes.BigEndian16 | src/main/java/fr/gouv/ssi/rommask/jcaparser/bytecodes/CHECKCAST.java:72-73 | a short is written as two bytes, high byte first, whose value is the 16-bit residue |
| Bytes.ExternalPackage | src/main/java/fr/gouv/ssi/rommask/jcaparser/jcaconverter/DescriptorComponentFromJCA.java:289 | `(byte)(packageToken \| 0x80)` sets the high bit and keeps the low seven bits of the token |
| Bytes.BigEndian32 | src/main/java/fr/gouv/ssi/rommask/jcaparser/bytecodes/InstructionWith4BytesParameter.java:69-72 | an int is written as four bytes, high byte first, whose value is the 32-bit residue |
| Bytes.ParseInt | src/main/java/fr/gouv/ssi/rommask/jcaparser/bytecodes/ITABLESWITCH.java:77-78 | `Integer.parseInt` accepts only a non-empty text and yields a 32-bit signed value |
| Bytes.ParseIntOfDecimal | src/main/java/fr/gouv/ssi/rommask/jcaparser/bytecodes/ITABLESWITCH.java:77-78 | `Integer.parseInt` reads back every 32-bit value from its decimal text |
| Bytes.DecimalValue | src/main/java/fr/gouv/ssi/rommask/jcaparser/bytecodes/ITABLESWITCH.java:77-78 | the decimal digits of a natural number read back as that number |
| Bytes.Hex2Value | src/main/java/fr/gouv/ssi/rommask/jcaparser/mask/filesystem/Filesystem.java:616-624 | `%02X` of a byte is two hexadecimal digits that read back as the byte |
| Bytes.Hex4Value | src/main/java/fr/gouv/ssi/rommask/jcaparser/mask/filesystem/Filesystem.java:616 | `%04X` of a 16-bit address is four hexadecimal digits that read back as the address |
| Jca.TypeString | src/main/java/fr/gouv/ssi/rommask/jcaparser/JCAType.java:127-165 | `toString` starts with `[` exactly for an array, is one letter (after the bracket) for a primitive and `L...;` for a reference |
| Jca.PrettyString | src/main/java/fr/gouv/ssi/rommask/jcaparser/JCAType.java:172-207 | `prettyToString` ends with `[]` for an array type and not otherwise for a primitive |
| Jca.TypeStringFaithful | src/main/java/fr/gouv/ssi/rommask/jcaparser/JCAType.java:127-165 | two types with the same `toString` are `equals` |
| Jca.SameTypeIgnoresClass | src/main/java/fr/gouv/ssi/rommask/jcaparser/JCAType.java:220-236 | `equals` compares only kind and array flag: a reference type equals itself with another class |
| Jca.AidHex | src/main/java/fr/gouv/ssi/rommask/jcaparser/AID.java:73-82 | the AID text has two characters per byte |
| Jca.AidHexAt | src/main/java/fr/gouv/ssi/rommask/jcaparser/AID.java:73-82 | character `2j` is the high nibble digit and `2j+1` the low nibble digit of byte `j` |
| Jca.AidHexDecodes | src/main/java/fr/gouv/ssi/rommask/jcaparser/AID.java:73-82 | reading the two digits of byte `j` back gives byte `j` |
| Jca.AidToString | src/main/java/fr/gouv/ssi/rommask/jcaparser/AID.java:73-82 | the character-array loop of `AID.toString` yields the two-digits-per-byte text |
| Jca.IncludedReflexive | src/main/java/fr/gouv/ssi/rommask/jcaparser/JCAExceptionHandler.java:149-152 | a handler range includes itself |
| Jca.IncludedTransitive | src/main/java/fr/gouv/ssi/rommask/jcaparser/JCAExceptionHandler.java:149-152 | inclusion of handler ranges is transitive |
| Jca.IncludedAntisymmetric | src/main/java/fr/gouv/ssi/rommask/jcaparser/JCAExceptionHandler.java:149-152 | two ranges include each other exactly when their start and end labels agree |
| Jca.InstructionSize | src/main/java/fr/gouv/ssi/rommask/jcaparser/Instruction.java:104-106 | an instruction takes its opcode byte plus one byte per parameter |
| Jca.SetParameters | src/main/java/fr/gouv/ssi/rommask/jcaparser/Instruction.java:86-88 | the new parameter list replaces the old one, the opcode stays and the size changes by the length difference |
| Jca.SizeBetween | src/main/java/fr/gouv/ssi/rommask/jcaparser/Instruction.java:104-106 | the bytes of instructions `lo..hi-1` are the difference of the prefix sizes and at least one per instruction |
| Jca.InterfacesSize | src/main/java/fr/gouv/ssi/rommask/jcaparser/JCAClass.java:118-123 | each implemented interface adds at least three bytes (reference and count) |
| Jca.ClassSizeIgnoresMembers | src/main/java/fr/gouv/ssi/rommask/jcaparser/JCAClass.java:104-126 | the record size of a class or interface does not depend on its fields, methods or shareable flag |
| Jca.IndexOfName | src/main/java/fr/gouv/ssi/rommask/jcaparser/jcaconverter/ClassInfoFromJCA.java:83-89 | the search stops at the first object with the name, and every object before it has another name |
| Jca.OwnNameFound | src/main/java/fr/gouv/ssi/rommask/jcaparser/jcaconverter/ClassInfoFromJCA.java:83-89 | an object's own name finds it, or an earlier object of the same name, and finds it exactly when the name is unique so far |
| Jca.ClassOffset | src/main/java/fr/gouv/ssi/rommask/jcaparser/jcaconverter/ClassInfoFromJCA.java:81-89 | the loop adds the record sizes of the objects before the first one with the name |
| Jca.LastSlash | src/main/java/fr/gouv/ssi/rommask/jcaparser/jcaconverter/ConstantPoolComponentFromJCA.java:184 | `lastIndexOf("/")` is a slash position with no slash after it, or -1 |
| Jca.AfterLastSlash | src/main/java/fr/gouv/ssi/rommask/jcaparser/jcaconverter/ConstantPoolComponentFromJCA.java:184-186 | the text after the last slash is a slash-free suffix of the name |
| Jca.AllFields | src/main/java/fr/gouv/ssi/rommask/jcaparser/jcaconverter/StaticFieldComponentFromJCA.java:127-128 | every field of every class and interface of the package is listed |
| Jca.NewClass | src/main/java/fr/gouv/ssi/rommask/jcaparser/JCAClass.java:92-101 | a new class is package-visible, not shareable or remote, has empty tables and a 10-byte record |
| Jca.NewInterface | src/main/java/fr/gouv/ssi/rommask/jcaparser/JCAInterface.java:52-55 | a new interface keeps its shareable and remote flags, has no superinterface and a 1-byte record |
| Opcodes.Mnemonic | src/main/java/fr/gouv/ssi/rommask/jcaparser/Instruction.java:109-111 | `toString` of an instruction is the opcode name in lower case, of the same length |
| Opcodes.MnemonicRoundTrip | src/main/java/fr/gouv/ssi/rommask/jcaparser/Instruction.java:109-111 | upper-casing the mnemonic gives back the opcode name |
| Instructions.ParseShort | src/main/java/fr/gouv/ssi/rommask/jcaparser/bytecodes/SLOOKUPSWITCH.java:89 | `(short) Integer.parseInt` succeeds exactly when the text parses and gives the signed 16-bit residue |
| Instructions.ParseLabel | src/main/java/fr/gouv/ssi/rommask/jcaparser/bytecodes/SLOOKUPSWITCH.java:73 | a label operand parses only when non-empty and gives a signed short |
| Instructions.ParseLabelOfText | src/main/java/fr/gouv/ssi/rommask/jcaparser/bytecodes/SLOOKUPSWITCH.java:73 | the label text `L<n>` reads back as `n` |
| Instructions.NewArrayParams | src/main/java/fr/gouv/ssi/rommask/jcaparser/bytecodes/NEWARRAY.java:52-98 | exactly one operand, a type code 10..13 or a primitive array name, is accepted and gives one byte in 10..13 |
| Instructions.NewArrayText | src/main/java/fr/gouv/ssi/rommask/jcaparser/bytecodes/NEWARRAY.java:102-125 | `toString` succeeds exactly when the type byte is 10..13 |
| Instructions.NewArrayRoundTrip | src/main/java/fr/gouv/ssi/rommask/jcaparser/bytecodes/NEWARRAY.java:52-125 | a type name or code encodes to its byte and `toString` shows that name again |
| Instructions.CheckcastParams | src/main/java/fr/gouv/ssi/rommask/jcaparser/bytecodes/CHECKCAST.java:52-76 | exactly two integer operands are accepted; the type byte then the index as a big-endian short |
| Instructions.CheckcastText | src/main/java/fr/gouv/ssi/rommask/jcaparser/bytecodes/CHECKCAST.java:79-113 | `toString` succeeds exactly when the type byte is 10..14 |
| Instructions.CheckcastIndexRoundTrip | src/main/java/fr/gouv/ssi/rommask/jcaparser/bytecodes/CHECKCAST.java:72-73 | the corrected `toString` index reads back the short that was encoded |
| Instructions.CheckcastIndexAsWrittenWrong | src/main/java/fr/gouv/ssi/rommask/jcaparser/bytecodes/CHECKCAST.java:107 | as written, `toString` combines byte 1 with the type byte: operands `10 1` show index 10 |
| Instructions.InstanceofParams | src/main/java/fr/gouv/ssi/rommask/jcaparser/bytecodes/INSTANCEOF.java:52-82 | exactly two integer operands are accepted; the type byte then the index as a big-endian short |
| Instructions.InstanceofText | src/main/java/fr/gouv/ssi/rommask/jcaparser/bytecodes/INSTANCEOF.java:86-113 | `toString` succeeds exactly when the type byte is 10..13 |
| Instructions.InstanceofIndexRoundTrip | src/main/java/fr/gouv/ssi/rommask/jcaparser/bytecodes/INSTANCEOF.java:86-113 | `toString` shows the signed index that was encoded |
| Instructions.InvokeInterfaceParams | src/main/java/fr/gouv/ssi/rommask/jcaparser/bytecodes/INVOKEINTERFACE.java:52-74 | exactly three integer operands are accepted: nargs byte, index short, method byte |
| Instructions.InvokeInterfaceRoundTrip | src/main/java/fr/gouv/ssi/rommask/jcaparser/bytecodes/INVOKEINTERFACE.java:52-92 | the instruction takes five bytes and `toString` shows the three operands that were encoded |
| Instructions.FourByteParamsAsWritten | src/main/java/fr/gouv/ssi/rommask/jcaparser/bytecodes/InstructionWith4BytesParameter.java:52-63 | as written, the masks before `(byte)` leave zero in the first three bytes |
| Instructions.FourByteAsWrittenRoundTrip | src/main/java/fr/gouv/ssi/rommask/jcaparser/bytecodes/InstructionWith4BytesParameter.java:52-80 | as written, `toString` gives the operand back exactly when it lies in 0..255 |
| Instructions.FourByteAsWrittenLosesHighBytes | src/main/java/fr/gouv/ssi/rommask/jcaparser/bytecodes/InstructionWith4BytesParameter.java:58-61 | as written, operand 256 is encoded as four zero bytes and shown as 0 |
| Instructions.FourByteParams | src/main/java/fr/gouv/ssi/rommask/jcaparser/bytecodes/InstructionWith4BytesParameter.java:52-63 | the corrected encoding accepts a parsable first operand and yields four bytes |
| Instructions.FourByteValue | src/main/java/fr/gouv/ssi/rommask/jcaparser/bytecodes/InstructionWith4BytesParameter.java:67-78 | the four bytes read back as a 32-bit signed int |
| Instructions.FourByteRoundTrip | src/main/java/fr/gouv/ssi/rommask/jcaparser/bytecodes/InstructionWith4BytesParameter.java:52-80 | the corrected encoding reads back as the parsed operand |
| Instructions.Put | src/main/java/fr/gouv/ssi/rommask/jcaparser/bytecodes/SLOOKUPSWITCH.java:92 | `TreeMap.put` keeps the keys ascending, maps the key to the new label and leaves the other keys alone |
| Instructions.PairMapLast | src/main/java/fr/gouv/ssi/rommask/jcaparser/bytecodes/SLOOKUPSWITCH.java:88-92 | a repeated match value maps to its last label |
| Instructions.PairMapInOrder | src/main/java/fr/gouv/ssi/rommask/jcaparser/bytecodes/SLOOKUPSWITCH.java:88-92 | with strictly ascending match values the map holds the pairs in operand order |
| Instructions.LookupSwitchParams | src/main/java/fr/gouv/ssi/rommask/jcaparser/bytecodes/SLOOKUPSWITCH.java:65-101 | the operand count must be `2*npair+2`; the bytes are a 4-byte header and 4 bytes per pair; the map is ascending |
| Instructions.PairBytesLayout | src/main/java/fr/gouv/ssi/rommask/jcaparser/bytecodes/SLOOKUPSWITCH.java:94-98 | pair `k` is its match value as a big-endian short followed by two zero bytes |
| Instructions.TableSizeCheck | src/main/java/fr/gouv/ssi/rommask/jcaparser/bytecodes/ITABLESWITCH.java:93-96 | when the 32-bit size check passes, `high - low >= -1` and the operand count is `high - low + 4` |
| Instructions.TableSwitchParams | src/main/java/fr/gouv/ssi/rommask/jcaparser/bytecodes/ITABLESWITCH.java:65-106 | the bytes are the default label, `low` and `high` as big-endian ints and two zero bytes per case label; one case label per value in `low..high` |
| Instructions.LabelOffset | src/main/java/fr/gouv/ssi/rommask/jcaparser/bytecodes/SLOOKUPSWITCH.java:111-115 | a label resolves exactly when it designates an instruction; its value is the size of the instructions before it less the method offset |
| Instructions.ResolveOffsets | src/main/java/fr/gouv/ssi/rommask/jcaparser/bytecodes/SLOOKUPSWITCH.java:122-139 | every label resolves exactly when the loop succeeds, and the values are the resolved offsets in order |
| Instructions.Write16 | src/main/java/fr/gouv/ssi/rommask/jcaparser/bytecodes/SLOOKUPSWITCH.java:135-138 | `params.set` of the two bytes writes the big-endian short and nothing else |
| Instructions.WriteSlots | src/main/java/fr/gouv/ssi/rommask/jcaparser/bytecodes/ITABLESWITCH.java:128-142 | the loop writes each value into its 2-byte slot and leaves the other bytes as they were |
| Instructions.PatchSlotsAt | src/main/java/fr/gouv/ssi/rommask/jcaparser/bytecodes/ITABLESWITCH.java:128-142 | after patching, slot `k` holds value `k` big-endian |
| Instructions.PatchSlotsElsewhere | src/main/java/fr/gouv/ssi/rommask/jcaparser/bytecodes/ITABLESWITCH.java:128-142 | a byte outside every slot keeps its value |
| Instructions.PatchLabels | src/main/java/fr/gouv/ssi/rommask/jcaparser/bytecodes/ITABLESWITCH.java:128-142 | succeeds exactly when every label resolves, and then writes each label's offset into its slot |
| Instructions.UpdateLookupLabels | src/main/java/fr/gouv/ssi/rommask/jcaparser/bytecodes/SLOOKUPSWITCH.java:105-141 | succeeds exactly when the default label and every pair label resolve; then bytes 0-1 hold the default offset and each pair's second short its label offset |
| Instructions.LookupSwitchSlotsAgree | src/main/java/fr/gouv/ssi/rommask/jcaparser/bytecodes/SLOOKUPSWITCH.java:88-141 | with ascending match values, each pair keeps its match value and gets the offset of its own label, and the npair bytes are kept |
| Instructions.UpdateTableLabels | src/main/java/fr/gouv/ssi/rommask/jcaparser/bytecodes/ITABLESWITCH.java:110-143 | succeeds exactly when the default label and every case label resolve; then bytes 0-1 hold the default offset and each case slot its label offset |
| Instructions.TableSwitchSlotsAgree | src/main/java/fr/gouv/ssi/rommask/jcaparser/bytecodes/ITABLESWITCH.java:110-143 | after the update, `low` and `high` are kept and case `k` holds the offset of label `k` |
| MethodComponent.IntCount | src/main/java/fr/gouv/ssi/rommask/jcaparser/jcaconverter/MethodComponentFromJCA.java:161-175 | the number of `int` parameters never exceeds the parameter count |
| MethodComponent.ArgWords | src/main/java/fr/gouv/ssi/rommask/jcaparser/jcaconverter/MethodComponentFromJCA.java:161-175 | the parameter words are defined exactly when no parameter is `void`, and then count one per parameter plus one more per `int` |
| MethodComponent.Nargs | src/main/java/fr/gouv/ssi/rommask/jcaparser/jcaconverter/MethodComponentFromJCA.java:161-178 | `nargs` fails exactly on a `void` parameter, is a byte, and below 255 words is the words plus one for `this` in an instance method |
| MethodComponent.ComputeNargs | src/main/java/fr/gouv/ssi/rommask/jcaparser/jcaconverter/MethodComponentFromJCA.java:161-178 | the `nargs` loop with its byte wrap-around computes `Nargs` |
| MethodComponent.NeedsExtendedAgreesBelow128 | src/main/java/fr/gouv/ssi/rommask/jcaparser/jcaconverter/MethodComponentFromJCA.java:180 | the signed test as written and the intended unsigned test agree on all values below 128 |
| MethodComponent.SignedChoiceLosesLocals | src/main/java/fr/gouv/ssi/rommask/jcaparser/jcaconverter/MethodComponentFromJCA.java:180 | as written, 200 locals keep the standard header, whose nibble then reads back 8 locals |
| MethodComponent.MethodHeader | src/main/java/fr/gouv/ssi/rommask/jcaparser/jcaconverter/MethodComponentFromJCA.java:180-199 | the header is extended exactly when stack, locals or nargs exceed 15; it keeps the three values; ACC_EXTENDED and ACC_ABSTRACT are set exactly when extended and abstract (corrected: see the Findings row for MethodComponentFromJCA.java:180) |
| MethodComponent.HeaderBytesAsWritten | src/main/java/fr/gouv/ssi/rommask/jcaparser/jcaconverter/MethodComponentFromJCA.java:321-334 | as written, an extended header takes 4 bytes and a standard one 2 |
| MethodComponent.HeaderBytes | src/main/java/fr/gouv/ssi/rommask/jcaparser/jcaconverter/MethodComponentFromJCA.java:321-334 | the corrected header bytes: 4 for an extended header, 2 otherwise |
| MethodComponent.HeaderSize | src/main/java/fr/gouv/ssi/rommask/jcaparser/jcaconverter/MethodComponentFromJCA.java:327-333 | the first bytecode follows 2 or 4 header bytes, the length of the header written |
| MethodComponent.HeaderRoundTrip | src/main/java/fr/gouv/ssi/rommask/jcaparser/jcaconverter/MethodComponentFromJCA.java:180-199 | decoding the corrected header bytes gives back flags, stack, locals and nargs |
| MethodComponent.ExtendedHeaderAsWrittenLosesMaxStack | src/main/java/fr/gouv/ssi/rommask/jcaparser/jcaconverter/MethodComponentFromJCA.java:324 | as written, an extended header for stack 16 and locals 0 decodes to stack 0 |
| MethodComponent.NativeStub | src/main/java/fr/gouv/ssi/rommask/jcaparser/jcaconverter/MethodComponentFromJCA.java:204-212 | a native body is `sspush`, the native number as a big-endian short, `impdep1` |
| MethodComponent.NativeStubInjective | src/main/java/fr/gouv/ssi/rommask/jcaparser/jcaconverter/MethodComponentFromJCA.java:204-212 | two native numbers below 65536 give different stubs |
| MethodComponent.PatchedParams | src/main/java/fr/gouv/ssi/rommask/jcaparser/jcaconverter/MethodComponentFromJCA.java:222-225 | resolving labels keeps the number of parameter bytes |
| MethodComponent.UpdateLabels | src/main/java/fr/gouv/ssi/rommask/jcaparser/jcaconverter/MethodComponentFromJCA.java:222-225 | `updateLabels` on the instruction's parameter array yields the patched parameters |
| MethodComponent.BodyBytes | src/main/java/fr/gouv/ssi/rommask/jcaparser/jcaconverter/MethodComponentFromJCA.java:213-230 | the emitted body of the first `n` instructions is as long as their sizes |
| MethodComponent.BodyOpcodeAt | src/main/java/fr/gouv/ssi/rommask/jcaparser/jcaconverter/MethodComponentFromJCA.java:213-230 | instruction `k`'s opcode lands at the sum of the sizes of the instructions before it, the offset the label arithmetic uses |
| MethodComponent.BodyBytesErr | src/main/java/fr/gouv/ssi/rommask/jcaparser/jcaconverter/MethodComponentFromJCA.java:213-230 | a failing instruction stops the emission with the same error for every longer prefix |
| MethodComponent.EmitBody | src/main/java/fr/gouv/ssi/rommask/jcaparser/jcaconverter/MethodComponentFromJCA.java:213-230 | the emission loop computes `BodyBytes` of the whole body |
| MethodComponent.MethodInfoOf | src/main/java/fr/gouv/ssi/rommask/jcaparser/jcaconverter/MethodComponentFromJCA.java:151-234 | a generated info has a valid header, the class and full name, and either the stub of its native number or the emitted body |
| MethodComponent.GenerateMethod | src/main/java/fr/gouv/ssi/rommask/jcaparser/jcaconverter/MethodComponentFromJCA.java:151-234 | the native list grows by one entry exactly for a native method that converts |
| MethodComponent.AddMethod | src/main/java/fr/gouv/ssi/rommask/jcaparser/jcaconverter/MethodComponentFromJCA.java:92-100 | one loop step appends one info and only extends the native list |
| MethodComponent.InfosBefore | src/main/java/fr/gouv/ssi/rommask/jcaparser/jcaconverter/MethodComponentFromJCA.java:92-100 | after `n` methods there are `n` valid infos and the native list only grew |
| MethodComponent.InfosBeforeFails | src/main/java/fr/gouv/ssi/rommask/jcaparser/jcaconverter/MethodComponentFromJCA.java:92-100 | the first method that fails to convert aborts the constructor with its message |
| MethodComponent.NativeNumbering | src/main/java/fr/gouv/ssi/rommask/jcaparser/jcaconverter/MethodComponentFromJCA.java:204-212 | the stub of a native method pushes the position in the native list of that very method's entry |
| MethodComponent.GenerateMethods | src/main/java/fr/gouv/ssi/rommask/jcaparser/jcaconverter/MethodComponentFromJCA.java:92-100 | the constructor's first loop computes `InfosBefore` over all class methods |
| MethodComponent.InfoBytes | src/main/java/fr/gouv/ssi/rommask/jcaparser/jcaconverter/MethodComponentFromJCA.java:321-339 | an info takes its header size plus its bytecodes |
| MethodComponent.OffsetMapLookup | src/main/java/fr/gouv/ssi/rommask/jcaparser/jcaconverter/MethodComponentFromJCA.java:311-318 | a full name has an offset exactly when some info has that name, and the offset is that of its last info |
| MethodComponent.OffsetOfLast | src/main/java/fr/gouv/ssi/rommask/jcaparser/jcaconverter/MethodComponentFromJCA.java:311-318 | the offset recorded for a name is the offset of its last info: count byte, 8 bytes per handler and the infos before it |
| MethodComponent.GeneratedAt | src/main/java/fr/gouv/ssi/rommask/jcaparser/jcaconverter/MethodComponentFromJCA.java:311-339 | byte `j` of info `k` sits right after the bytes of the infos before it |
| MethodComponent.StopBit | src/main/java/fr/gouv/ssi/rommask/jcaparser/jcaconverter/MethodComponentFromJCA.java:278-287 | the stop bit is 1 exactly when no later handler of the method encloses the range |
| MethodComponent.LastHandlerStops | src/main/java/fr/gouv/ssi/rommask/jcaparser/jcaconverter/MethodComponentFromJCA.java:278-287 | the last handler of a method always has the stop bit |
| MethodComponent.ActiveLength | src/main/java/fr/gouv/ssi/rommask/jcaparser/jcaconverter/MethodComponentFromJCA.java:272-276 | the active length is never negative |
| MethodComponent.Bitfield | src/main/java/fr/gouv/ssi/rommask/jcaparser/jcaconverter/MethodComponentFromJCA.java:289-290 | the bitfield is a short whose top bit is the stop bit and whose low 15 bits are the active length, when it fits |
| MethodComponent.HandlerInfoAt | src/main/java/fr/gouv/ssi/rommask/jcaparser/jcaconverter/MethodComponentFromJCA.java:243-303 | an entry exists only when the start and handler labels resolve; the offsets are `base` plus the sizes before those labels, with the method's catch type |
| MethodComponent.ComputeActiveLength | src/main/java/fr/gouv/ssi/rommask/jcaparser/jcaconverter/MethodComponentFromJCA.java:272-276 | the active-length loop computes `ActiveLength` |
| MethodComponent.ComputeStopBit | src/main/java/fr/gouv/ssi/rommask/jcaparser/jcaconverter/MethodComponentFromJCA.java:278-287 | the stop-bit loop computes `StopBit` |
| MethodComponent.GenerateHandler | src/main/java/fr/gouv/ssi/rommask/jcaparser/jcaconverter/MethodComponentFromJCA.java:243-303 | `generateExceptionHandler`'s loops compute `HandlerInfoAt` |
| MethodComponent.CodeBaseAsWrittenIsTwo | src/main/java/fr/gouv/ssi/rommask/jcaparser/jcaconverter/MethodComponentFromJCA.java:256-262 | as written, the test on signed bytes never exceeds 255, so the base is always the offset plus 2 |
| MethodComponent.CodeBase | src/main/java/fr/gouv/ssi/rommask/jcaparser/jcaconverter/MethodComponentFromJCA.java:249-262 | the corrected base exists exactly when the method has an offset, and is that offset plus the size of its own header |
| MethodComponent.MethodHandlers | src/main/java/fr/gouv/ssi/rommask/jcaparser/jcaconverter/MethodComponentFromJCA.java:115-117 | the first `n` handlers give `n` entries |
| MethodComponent.MethodHandlersStep | src/main/java/fr/gouv/ssi/rommask/jcaparser/jcaconverter/MethodComponentFromJCA.java:115-117 | one more handler appends its entry or fails with its message |
| MethodComponent.GenerateMethodHandlers | src/main/java/fr/gouv/ssi/rommask/jcaparser/jcaconverter/MethodComponentFromJCA.java:115-117 | the inner handler loop computes `MethodHandlers` |
| MethodComponent.HandlersBeforeErr | src/main/java/fr/gouv/ssi/rommask/jcaparser/jcaconverter/MethodComponentFromJCA.java:108-120 | once a method fails, the handler phase fails with the same error |
| MethodComponent.GenerateHandlers | src/main/java/fr/gouv/ssi/rommask/jcaparser/jcaconverter/MethodComponentFromJCA.java:108-120 | the handler phase skips abstract methods and collects every other method's entries in order (corrected: see the Findings row for MethodComponentFromJCA.java:256-262) |
| MethodComponent.CountHandlers | src/main/java/fr/gouv/ssi/rommask/jcaparser/jcaconverter/MethodComponentFromJCA.java:91-98 | the counting loop totals the handlers of every class method |
| MethodComponent.OpcodeInGenerated | src/main/java/fr/gouv/ssi/rommask/jcaparser/jcaconverter/MethodComponentFromJCA.java:311-339 | instruction `j` of info `k` has its opcode past the earlier infos, its header and the instructions before it |
| MethodComponent.HandlerStartAtOpcode | src/main/java/fr/gouv/ssi/rommask/jcaparser/jcaconverter/MethodComponentFromJCA.java:249-270 | with the corrected base, and when no later method info shares the method's full name, a handler's start offset, less the count byte and handler table, designates the opcode its start label marks |
| MethodComponent.SharedFullNameOffsetAsWritten | src/main/java/fr/gouv/ssi/rommask/jcaparser/jcaconverter/MethodComponentFromJCA.java:313-317 | offsets are keyed by the full name without the class, the last info winning: when a later info shares a method's full name, the offset found for that method lies past all of the method's bytes |
| MethodComponent.GeneratedGrows | src/main/java/fr/gouv/ssi/rommask/jcaparser/jcaconverter/MethodComponentFromJCA.java:309-330 | the infos laid out before a later info cover each earlier info's bytes |
| MethodComponent.HandlerStartFrom | src/main/java/fr/gouv/ssi/rommask/jcaparser/jcaconverter/MethodComponentFromJCA.java:264-270 | a start offset computed from the first bytecode of info `k` designates the labelled opcode |
| MethodComponent.OffsetDesignates | src/main/java/fr/gouv/ssi/rommask/jcaparser/jcaconverter/MethodComponentFromJCA.java:311-339 | an offset past info `k`'s header and `j` instructions designates instruction `j`'s opcode in the generated bytes |
| MethodComponent.TwoByteIndexShift | src/main/java/fr/gouv/ssi/rommask/jcaparser/jcaconverter/MethodComponentFromJCA.java:490-532 | a 2-byte index starts 2 bytes past `checkcast`, `instanceof` and `invokeinterface`, 1 past the other listed opcodes, and nowhere else |
| MethodComponent.IndexShift | src/main/java/fr/gouv/ssi/rommask/jcaparser/jcaconverter/MethodComponentFromJCA.java:406-428 | an index operand is at most 2 bytes past its opcode |
| MethodComponent.Sites | src/main/java/fr/gouv/ssi/rommask/jcaparser/jcaconverter/MethodComponentFromJCA.java:406-431 | there is at most one index site per instruction |
| MethodComponent.SitesInside | src/main/java/fr/gouv/ssi/rommask/jcaparser/jcaconverter/MethodComponentFromJCA.java:406-431 | every listed site is the operand of a listed instruction, that many bytes past its opcode |
| MethodComponent.MethodSites | src/main/java/fr/gouv/ssi/rommask/jcaparser/jcaconverter/MethodComponentFromJCA.java:406-431 | the instruction loop of one method computes `Sites` |
| MethodComponent.IndexBaseAsWritten | src/main/java/fr/gouv/ssi/rommask/jcaparser/jcaconverter/MethodComponentFromJCA.java:378-404 | as written, the index lists start 2 bytes past the offset of any method that has one |
| MethodComponent.IndexBaseOfInfo | src/main/java/fr/gouv/ssi/rommask/jcaparser/jcaconverter/MethodComponentFromJCA.java:378-404 | the corrected index base is the base of the method's own info past its own header |
| MethodComponent.IndexBaseAsWrittenShort | src/main/java/fr/gouv/ssi/rommask/jcaparser/jcaconverter/MethodComponentFromJCA.java:400-404 | as written, a method with an extended header has its index sites 2 bytes short |
| MethodComponent.SitesBeforeNext | src/main/java/fr/gouv/ssi/rommask/jcaparser/jcaconverter/MethodComponentFromJCA.java:371-434 | one more method appends its sites |
| MethodComponent.SitesBeforeFails | src/main/java/fr/gouv/ssi/rommask/jcaparser/jcaconverter/MethodComponentFromJCA.java:371-434 | a method without an offset or with a `void` parameter stops the list with its message |
| MethodComponent.CollectSites | src/main/java/fr/gouv/ssi/rommask/jcaparser/jcaconverter/MethodComponentFromJCA.java:371-434 | the method loop computes the sites of all class methods (corrected: see the Findings row for MethodComponentFromJCA.java:400-404) |
| MethodComponent.CatchTypeSites | src/main/java/fr/gouv/ssi/rommask/jcaparser/jcaconverter/MethodComponentFromJCA.java:445-451 | the catch type index of entry `k` is at `1 + 8k + 6` |
| MethodComponent.OneByteIndices | src/main/java/fr/gouv/ssi/rommask/jcaparser/jcaconverter/MethodComponentFromJCA.java:368-435 | `get1ByteIndices` lists the 1-byte field token sites of all methods (corrected: see the Findings row for MethodComponentFromJCA.java:400-404) |
| MethodComponent.TwoByteIndices | src/main/java/fr/gouv/ssi/rommask/jcaparser/jcaconverter/MethodComponentFromJCA.java:442-539 | `get2ByteIndices` lists the catch type sites, then the 2-byte index sites; it fails exactly when the method sites fail (corrected: see the Findings row for MethodComponentFromJCA.java:400-404) |
| MethodComponent.MethodComponent.GenerateMethodBytecodes | src/main/java/fr/gouv/ssi/rommask/jcaparser/jcaconverter/MethodComponentFromJCA.java:306-341 | the generated bytes are all infos laid end to end and each full name maps to the offset of its last info; nothing else changes |
| MethodComponent.AppendInfoStep | src/main/java/fr/gouv/ssi/rommask/jcaparser/jcaconverter/MethodComponentFromJCA.java:311-339 | one more info appends its header and bytecodes and records the offset it starts at |
| MethodComponent.AppendInfos | src/main/java/fr/gouv/ssi/rommask/jcaparser/jcaconverter/MethodComponentFromJCA.java:311-339 | the loop computes the generated bytes and the offset map |
| MethodComponent.ComponentSize | src/main/java/fr/gouv/ssi/rommask/jcaparser/jcaconverter/MethodComponentFromJCA.java:543-557 | the size counts at least the handler count byte |
| MethodComponent.Build | src/main/java/fr/gouv/ssi/rommask/jcaparser/jcaconverter/MethodComponentFromJCA.java:81-126 | the constructor fails exactly when a method or a handler fails; otherwise it holds the infos, the handler count as a byte, the generated bytes and offsets, the entries and their size (corrected: see the Findings row for MethodComponentFromJCA.java:180, :324, :256-262 and :400-404) |
| MethodComponent.MethodComponent.constructor | src/main/java/fr/gouv/ssi/rommask/jcaparser/jcaconverter/MethodComponentFromJCA.java:80-88 | a new component holds the converted method infos and the handler count, with no generated bytes, offsets, handlers or size yet |
| Descriptor.KindNibble | src/main/java/fr/gouv/ssi/rommask/jcaparser/jcaconverter/DescriptorComponentFromJCA.java:846-896 | each kind of type has its descriptor nibble 1..6 |
| Descriptor.TypeNibble | src/main/java/fr/gouv/ssi/rommask/jcaparser/jcaconverter/DescriptorComponentFromJCA.java:846-896 | a signature type's first nibble keeps the kind's nibble in its low three bits and has the array bit exactly for a non-`void` array |
| Descriptor.Pack | src/main/java/fr/gouv/ssi/rommask/jcaparser/jcaconverter/DescriptorComponentFromJCA.java:941-955 | nibbles pack two to a byte: `(n+1)/2` bytes |
| Descriptor.PackRoundTrip | src/main/java/fr/gouv/ssi/rommask/jcaparser/jcaconverter/DescriptorComponentFromJCA.java:941-955 | unpacking the packed bytes gives back every nibble |
| Descriptor.PackPadding | src/main/java/fr/gouv/ssi/rommask/jcaparser/jcaconverter/DescriptorComponentFromJCA.java:951-954 | an odd nibble count is padded with a 0 nibble |
| Descriptor.PackNibbles | src/main/java/fr/gouv/ssi/rommask/jcaparser/jcaconverter/DescriptorComponentFromJCA.java:941-955 | the packing loop computes `Pack` |
| Descriptor.MatchingNibbles | src/main/java/fr/gouv/ssi/rommask/jcaparser/jcaconverter/DescriptorComponentFromJCA.java:910-919 | the descriptor scan adds four nibbles per descriptor naming the class, and none exactly when no descriptor names it |
| Descriptor.TypeNibbles | src/main/java/fr/gouv/ssi/rommask/jcaparser/jcaconverter/DescriptorComponentFromJCA.java:846-935 | one nibble for a primitive or `void`, five for an imported reference, and `1 + 4k` for an internal one; a reference named by nothing fails |
| Descriptor.SignatureNibbles | src/main/java/fr/gouv/ssi/rommask/jcaparser/jcaconverter/DescriptorComponentFromJCA.java:846-935 | the first `n` types give at least `n` nibbles |
| Descriptor.SignatureNibblesErr | src/main/java/fr/gouv/ssi/rommask/jcaparser/jcaconverter/DescriptorComponentFromJCA.java:846-935 | a type that cannot be described makes the whole signature fail with its message |
| Descriptor.SignatureDescriptorDecodes | src/main/java/fr/gouv/ssi/rommask/jcaparser/jcaconverter/DescriptorComponentFromJCA.java:839-960 | the signature descriptor holds its nibble count as a byte, `(count+1)/2` bytes, and unpacks to the collected nibbles |
| Descriptor.GetMethodSignature | src/main/java/fr/gouv/ssi/rommask/jcaparser/jcaconverter/DescriptorComponentFromJCA.java:839-960 | `getMethodSignature`'s loops compute `SignatureDescriptor` |
| Descriptor.MatchingNibblesOf | src/main/java/fr/gouv/ssi/rommask/jcaparser/jcaconverter/DescriptorComponentFromJCA.java:910-919 | the descriptor loop collects the matching nibbles and sets `isFound` exactly when there are some |
| Descriptor.TypeNibblesOf | src/main/java/fr/gouv/ssi/rommask/jcaparser/jcaconverter/DescriptorComponentFromJCA.java:856-934 | the body of the type loop computes `TypeNibbles` |
| Descriptor.LaidNext | src/main/java/fr/gouv/ssi/rommask/jcaparser/jcaconverter/DescriptorComponentFromJCA.java:814-830 | in a laid-out table the next free offset is the start plus the spans of all stored descriptors |
| Descriptor.LaidAt | src/main/java/fr/gouv/ssi/rommask/jcaparser/jcaconverter/DescriptorComponentFromJCA.java:814-830 | each stored descriptor starts where the ones before it end |
| Descriptor.FindType | src/main/java/fr/gouv/ssi/rommask/jcaparser/jcaconverter/DescriptorComponentFromJCA.java:817-821 | the search finds nothing exactly when no stored descriptor is equal, and otherwise the offset of an equal one |
| Descriptor.AddType | src/main/java/fr/gouv/ssi/rommask/jcaparser/jcaconverter/DescriptorComponentFromJCA.java:814-830 | `addTypeDesc` keeps the old entries as a prefix and the returned offset holds the descriptor |
| Descriptor.LookupLaid | src/main/java/fr/gouv/ssi/rommask/jcaparser/jcaconverter/DescriptorComponentFromJCA.java:814-830 | in a laid-out table each entry's offset finds that entry |
| Descriptor.AddTypeWellFormed | src/main/java/fr/gouv/ssi/rommask/jcaparser/jcaconverter/DescriptorComponentFromJCA.java:814-830 | adding a descriptor keeps the table laid out and free of repeats, and never moves the free offset back |
| Descriptor.AddTypeFound | src/main/java/fr/gouv/ssi/rommask/jcaparser/jcaconverter/DescriptorComponentFromJCA.java:814-830 | the returned offset holds the descriptor that was added |
| Descriptor.AddTypeIdempotent | src/main/java/fr/gouv/ssi/rommask/jcaparser/jcaconverter/DescriptorComponentFromJCA.java:817-821 | adding the same descriptor twice returns the same offset and leaves the table as the first call left it |
| Descriptor.AddTypeStep | src/main/java/fr/gouv/ssi/rommask/jcaparser/jcaconverter/DescriptorComponentFromJCA.java:814-830 | a stored equal descriptor returns its offset and changes nothing; otherwise the descriptor goes at the free offset, which moves past it |
| Descriptor.FindOffset | src/main/java/fr/gouv/ssi/rommask/jcaparser/jcaconverter/DescriptorComponentFromJCA.java:817-821 | the search loop computes `FindType` |
| Descriptor.TypeInfoBytes | src/main/java/fr/gouv/ssi/rommask/jcaparser/jcaconverter/DescriptorComponentFromJCA.java:1002-1007 | `type_descriptor_info` is 2 bytes of count, 2 per constant pool type and the spans of the stored descriptors |
| Descriptor.TypeDescriptorLocated | src/main/java/fr/gouv/ssi/rommask/jcaparser/jcaconverter/DescriptorComponentFromJCA.java:814-830 | with descriptors laid from past the constant pool types, each offset points at that descriptor's nibble count followed by its bytes (corrected: see the Findings row for DescriptorComponentFromJCA.java:185-190) |
| Descriptor.InitialOffset | src/main/java/fr/gouv/ssi/rommask/jcaparser/jcaconverter/DescriptorComponentFromJCA.java:179-200 | the first descriptor goes past the 2-byte count and the constant pool types (corrected: see the Findings row for DescriptorComponentFromJCA.java:185-190) |
| Descriptor.FirstDescriptorMisplacedAsWritten | src/main/java/fr/gouv/ssi/rommask/jcaparser/jcaconverter/DescriptorComponentFromJCA.java:185-190 | as written, with one constant pool entry the first descriptor is recorded at offset 2, where the serialized info holds that entry's type |
| Descriptor.PrimitiveDescriptor | src/main/java/fr/gouv/ssi/rommask/jcaparser/jcaconverter/DescriptorComponentFromJCA.java:720-748 | `addPrimitive2TypeDesc` refuses exactly a reference |
| Descriptor.ClassBytesPacked | src/main/java/fr/gouv/ssi/rommask/jcaparser/jcaconverter/DescriptorComponentFromJCA.java:781-806 | the three bytes built by shifting are the packing of the type nibble and the four class nibbles |
| Descriptor.ReferenceDescriptorPacked | src/main/java/fr/gouv/ssi/rommask/jcaparser/jcaconverter/DescriptorComponentFromJCA.java:756-809 | a reference descriptor has five nibbles: the reference nibble and the class tokens or offset |
| Descriptor.ReferenceAgreesWithSignature | src/main/java/fr/gouv/ssi/rommask/jcaparser/jcaconverter/DescriptorComponentFromJCA.java:756-809 | a field's reference descriptor equals the packed signature nibbles of the same reference |
| Descriptor.ArrayAgreesWithPrimitive | src/main/java/fr/gouv/ssi/rommask/jcaparser/jcaconverter/DescriptorComponentFromJCA.java:704-748 | a primitive array gets the same descriptor from `addArrayOfPrimitive2TypeDesc` and `addPrimitive2TypeDesc` |
| Descriptor.ClassFlags | src/main/java/fr/gouv/ssi/rommask/jcaparser/jcaconverter/DescriptorComponentFromJCA.java:246-264 | a class's flags have ACC_PUBLIC, ACC_FINAL, ACC_INTERFACE and ACC_ABSTRACT exactly when public, a final class, an interface and abstract |
| Descriptor.FieldFlags | src/main/java/fr/gouv/ssi/rommask/jcaparser/jcaconverter/DescriptorComponentFromJCA.java:456-476 | a field's flags have each access bit exactly for its accessor, ACC_STATIC and ACC_FINAL exactly when static and final |
| Descriptor.MethodFlags | src/main/java/fr/gouv/ssi/rommask/jcaparser/jcaconverter/DescriptorComponentFromJCA.java:614-641 | a method's flags have each access bit exactly for its accessor, and ACC_STATIC, ACC_FINAL, ACC_ABSTRACT and ACC_INIT exactly when it is static, final, abstract and a constructor |
| Descriptor.FirstPublicNamed | src/main/java/fr/gouv/ssi/rommask/jcaparser/jcaconverter/DescriptorComponentFromJCA.java:225-237 | the token loop stops at the first non-package object with the name |
| Descriptor.ClassTokensNumbered | src/main/java/fr/gouv/ssi/rommask/jcaparser/jcaconverter/DescriptorComponentFromJCA.java:219-241 | with distinct names, the non-package classes get tokens 0, 1, 2, ... in declaration order |
| Descriptor.ComputeClassToken | src/main/java/fr/gouv/ssi/rommask/jcaparser/jcaconverter/DescriptorComponentFromJCA.java:219-241 | the token loop computes the token: 0xFF for a package class, else its rank |
| Descriptor.FieldTokenOf | src/main/java/fr/gouv/ssi/rommask/jcaparser/jcaconverter/DescriptorComponentFromJCA.java:431-448 | a private or package static field has token 0xFF; a field without a declared token takes its position, and fails exactly when that position is 128 or more, where the `byte` counter wraps and the lookup at -128 throws |
| Descriptor.MethodTokenOf | src/main/java/fr/gouv/ssi/rommask/jcaparser/jcaconverter/DescriptorComponentFromJCA.java:588-611 | a private method, a package static method and a package constructor have token 0xFF; a method without a declared token takes its position, and fails exactly when that position is 128 or more, where the `byte` counter wraps |
| Descriptor.IndexOfField | src/main/java/fr/gouv/ssi/rommask/jcaparser/jcaconverter/DescriptorComponentFromJCA.java:532 | `indexOf` finds the first equal field, or -1 when no field is equal |
| Descriptor.FieldTypeMeaning | src/main/java/fr/gouv/ssi/rommask/jcaparser/jcaconverter/DescriptorComponentFromJCA.java:538-578 | a scalar primitive field's type is `0x8000` plus its nibble and leaves the table; an array or reference field's type is the offset of its descriptor in the new table |
| Descriptor.FieldRefOf | src/main/java/fr/gouv/ssi/rommask/jcaparser/jcaconverter/DescriptorComponentFromJCA.java:484-562 | a field reference fails exactly for a static field without a static image offset |
| Descriptor.FieldDescriptorOf | src/main/java/fr/gouv/ssi/rommask/jcaparser/jcaconverter/DescriptorComponentFromJCA.java:412-581 | a static final field of a scalar primitive type gets no descriptor and every other field gets one; it fails exactly when the field is described and either its token search wraps or it is a static field without an image offset |
| Descriptor.FieldsBefore | src/main/java/fr/gouv/ssi/rommask/jcaparser/jcaconverter/DescriptorComponentFromJCA.java:341-343 | the first `n` fields give one descriptor per described field |
| Descriptor.FieldsBeforeRefused | src/main/java/fr/gouv/ssi/rommask/jcaparser/jcaconverter/DescriptorComponentFromJCA.java:341-343 | the first `n` fields fail exactly when one of them is described and either its token search wraps or it is a static field without an image offset |
| Descriptor.FieldsBeforeWellFormed | src/main/java/fr/gouv/ssi/rommask/jcaparser/jcaconverter/DescriptorComponentFromJCA.java:341-343 | describing the fields keeps the type table well formed and only appends to it |
| Descriptor.FieldDescriptorKeepsTable | src/main/java/fr/gouv/ssi/rommask/jcaparser/jcaconverter/DescriptorComponentFromJCA.java:412-581 | one field descriptor keeps the type table well formed and only appends to it |
| Descriptor.ComparatorNotReflexiveAsWritten | src/main/java/fr/gouv/ssi/rommask/jcaparser/jcaconverter/DescriptorComponentFromJCA.java:339-380 | as written, the comparator says an instance field of a class at offset 128 is smaller than itself |
| Descriptor.Insert | src/main/java/fr/gouv/ssi/rommask/jcaparser/jcaconverter/DescriptorComponentFromJCA.java:339-381 | inserting into a key-sorted list keeps it sorted and adds exactly that element |
| Descriptor.SortFields | src/main/java/fr/gouv/ssi/rommask/jcaparser/jcaconverter/DescriptorComponentFromJCA.java:339-381 | the fields are sorted by reference key and are a permutation of the input (corrected: see the Findings row for DescriptorComponentFromJCA.java:339-380) |
| Descriptor.BytecodeCount | src/main/java/fr/gouv/ssi/rommask/jcaparser/jcaconverter/DescriptorComponentFromJCA.java:668-679 | the count is that of the first method info with the method's name, as a short, or 0 when there is none |
| Descriptor.FirstHandlerOf | src/main/java/fr/gouv/ssi/rommask/jcaparser/jcaconverter/DescriptorComponentFromJCA.java:690-704 | the index is that of the method's first handler, or 0 when it has none |
| Descriptor.MethodDescriptorOf | src/main/java/fr/gouv/ssi/rommask/jcaparser/jcaconverter/DescriptorComponentFromJCA.java:585-707 | a method descriptor fails exactly when the method's token search wraps, a class method has no offset in the method component, or its signature cannot be described |
| Descriptor.MethodDescriptorMeaning | src/main/java/fr/gouv/ssi/rommask/jcaparser/jcaconverter/DescriptorComponentFromJCA.java:585-707 | a method descriptor fails exactly when its token search wraps, a class method has no offset, or its signature cannot be described; otherwise its type offset holds its signature, and interface methods have zero offset and count |
| Descriptor.MethodDescriptorKeepsTable | src/main/java/fr/gouv/ssi/rommask/jcaparser/jcaconverter/DescriptorComponentFromJCA.java:585-707 | a method descriptor keeps the type table well formed and only appends to it |
| Descriptor.MethodsBefore | src/main/java/fr/gouv/ssi/rommask/jcaparser/jcaconverter/DescriptorComponentFromJCA.java:390-393 | the first `n` methods give `n` descriptors |
| Descriptor.MethodsBeforeWellFormed | src/main/java/fr/gouv/ssi/rommask/jcaparser/jcaconverter/DescriptorComponentFromJCA.java:390-393 | describing the methods keeps the type table well formed and never shrinks it |
| Descriptor.InterfaceNames | src/main/java/fr/gouv/ssi/rommask/jcaparser/jcaconverter/DescriptorComponentFromJCA.java:268-331 | an interface names its superinterfaces and a class its implemented interfaces, in order |
| Descriptor.InterfaceRefs | src/main/java/fr/gouv/ssi/rommask/jcaparser/jcaconverter/DescriptorComponentFromJCA.java:268-331 | the corrected references: one per named interface, in order |
| Descriptor.InterfaceRefLocated | src/main/java/fr/gouv/ssi/rommask/jcaparser/jcaconverter/DescriptorComponentFromJCA.java:268-331 | with distinct names, a corrected internal reference points at the start of the named interface |
| Descriptor.InterfaceRefSelfAsWritten | src/main/java/fr/gouv/ssi/rommask/jcaparser/jcaconverter/DescriptorComponentFromJCA.java:318-329 | as written, a class implementing an interface of its own package gets a reference to itself |
| Descriptor.SuperInterfaceRefSelfAsWritten | src/main/java/fr/gouv/ssi/rommask/jcaparser/jcaconverter/DescriptorComponentFromJCA.java:293-302 | as written, an interface `J` extending an interface `I` of its own package gets a reference to `J` itself, where the intended reference is the offset of `I` |
| Descriptor.ClassDescriptorMeaning | src/main/java/fr/gouv/ssi/rommask/jcaparser/jcaconverter/DescriptorComponentFromJCA.java:213-402 | a class descriptor lists every named interface, its described fields sorted by reference, one descriptor per method, and fails whenever a field's token search wraps or a static field has no image offset (corrected: see the Findings row for DescriptorComponentFromJCA.java:293-302, :318-329 and :339-380) |
| Descriptor.ComponentSizeCoversTable | src/main/java/fr/gouv/ssi/rommask/jcaparser/jcaconverter/DescriptorComponentFromJCA.java:972-1010 | the size counts exactly the serialized `type_descriptor_info`, whose length is the next free offset |
| Descriptor.FindBytecodeCount | src/main/java/fr/gouv/ssi/rommask/jcaparser/jcaconverter/DescriptorComponentFromJCA.java:668-679 | the loop computes `BytecodeCount` |
| Descriptor.FindFirstHandler | src/main/java/fr/gouv/ssi/rommask/jcaparser/jcaconverter/DescriptorComponentFromJCA.java:690-704 | the loop computes `FirstHandlerOf` |
| Descriptor.InterfaceRefsOf | src/main/java/fr/gouv/ssi/rommask/jcaparser/jcaconverter/DescriptorComponentFromJCA.java:268-331 | the interface loop computes the corrected references |
| Descriptor.RecordSize | src/main/java/fr/gouv/ssi/rommask/jcaparser/jcaconverter/DescriptorComponentFromJCA.java:978-999 | the per-class loop counts 9 fixed bytes, 2 per interface, 7 per field and 12 per method |
| Descriptor.DescriptorComponent.constructor | src/main/java/fr/gouv/ssi/rommask/jcaparser/jcaconverter/DescriptorComponentFromJCA.java:179-200 | an empty component whose first descriptor goes past the constant pool types (corrected: see the Findings row for DescriptorComponentFromJCA.java:185-190) |
| Descriptor.DescriptorComponent.AddTypeDesc | src/main/java/fr/gouv/ssi/rommask/jcaparser/jcaconverter/DescriptorComponentFromJCA.java:814-830 | `addTypeDesc` returns `AddType`'s offset and leaves its table, keeping the layout |
| Descriptor.DescriptorComponent.AddArrayOfPrimitive | src/main/java/fr/gouv/ssi/rommask/jcaparser/jcaconverter/DescriptorComponentFromJCA.java:717-725 | adds the one-nibble array descriptor |
| Descriptor.DescriptorComponent.AddPrimitive | src/main/java/fr/gouv/ssi/rommask/jcaparser/jcaconverter/DescriptorComponentFromJCA.java:720-748 | refuses a reference and leaves the table alone; otherwise adds the primitive descriptor |
| Descriptor.DescriptorComponent.AddReference | src/main/java/fr/gouv/ssi/rommask/jcaparser/jcaconverter/DescriptorComponentFromJCA.java:756-809 | adds the five-nibble reference descriptor |
| Descriptor.DescriptorComponent.ComputeField | src/main/java/fr/gouv/ssi/rommask/jcaparser/jcaconverter/DescriptorComponentFromJCA.java:412-581 | appends the field's descriptor and updates the table as `FieldDescriptorOf` says; on failure nothing changes |
| Descriptor.DescriptorComponent.FieldTypeDesc | src/main/java/fr/gouv/ssi/rommask/jcaparser/jcaconverter/DescriptorComponentFromJCA.java:538-578 | the type switch returns `FieldType`'s value and table |
| Descriptor.DescriptorComponent.ComputeMethod | src/main/java/fr/gouv/ssi/rommask/jcaparser/jcaconverter/DescriptorComponentFromJCA.java:585-707 | appends the method's descriptor and updates the table as `MethodDescriptorOf` says; on failure nothing changes |
| Descriptor.DescriptorComponent.ComputeFields | src/main/java/fr/gouv/ssi/rommask/jcaparser/jcaconverter/DescriptorComponentFromJCA.java:341-343 | the field loop computes `FieldsBefore` |
| Descriptor.DescriptorComponent.ComputeMethods | src/main/java/fr/gouv/ssi/rommask/jcaparser/jcaconverter/DescriptorComponentFromJCA.java:390-393 | the method loop computes `MethodsBefore` |
| Descriptor.DescriptorComponent.AddClassDescriptor | src/main/java/fr/gouv/ssi/rommask/jcaparser/jcaconverter/DescriptorComponentFromJCA.java:213-402 | appends the class descriptor exactly when `ClassDescriptorOf` succeeds, with its table (corrected: see the Findings row for DescriptorComponentFromJCA.java:293-302, :318-329 and :339-380) |
| Descriptor.DescriptorComponent.ComputeComponentSize | src/main/java/fr/gouv/ssi/rommask/jcaparser/jcaconverter/DescriptorComponentFromJCA.java:972-1010 | the size is `ComponentSize` as a 16-bit value |
| Descriptor.DescriptorComponent.FinalizeDescriptorBuild | src/main/java/fr/gouv/ssi/rommask/jcaparser/jcaconverter/DescriptorComponentFromJCA.java:962-970 | sets the class count as a byte and the size as a 16-bit value |
| Descriptor.DescriptorComponent.AddConstantPoolType | src/main/java/fr/gouv/ssi/rommask/jcaparser/jcaconverter/ConstantPoolComponentFromJCA.java:91 | appends one constant pool type |
| Descriptor.DescriptorComponent.SetConstantPoolCount | src/main/java/fr/gouv/ssi/rommask/jcaparser/jcaconverter/ConstantPoolComponentFromJCA.java:134 | records the constant pool count |
| StaticField.ScalarSize | src/main/java/fr/gouv/ssi/rommask/jcaparser/jcaconverter/StaticFieldComponentFromJCA.java:344-357 | a kind has a positive size exactly when it is primitive, and no size exceeds 4 bytes |
| StaticField.ValueBytes | src/main/java/fr/gouv/ssi/rommask/jcaparser/jcaconverter/StaticFieldComponentFromJCA.java:400-422 | one value is encoded in exactly its type's size, every element a byte |
| StaticField.InitBytes | src/main/java/fr/gouv/ssi/rommask/jcaparser/jcaconverter/StaticFieldComponentFromJCA.java:400-422 | an initializer takes its value count times its type's size, all bytes |
| StaticField.ValueBytesDecode | src/main/java/fr/gouv/ssi/rommask/jcaparser/jcaconverter/StaticFieldComponentFromJCA.java:400-422 | every value of a primitive type is read back from its big-endian bytes |
| StaticField.InitBytesAt | src/main/java/fr/gouv/ssi/rommask/jcaparser/jcaconverter/StaticFieldComponentFromJCA.java:400-422 | value `i` of an initializer sits at byte `i` times the type's size |
| StaticField.InitBytesDecode | src/main/java/fr/gouv/ssi/rommask/jcaparser/jcaconverter/StaticFieldComponentFromJCA.java:400-422 | every slot of an encoded initializer decodes to the value it came from |
| StaticField.EncodeValues | src/main/java/fr/gouv/ssi/rommask/jcaparser/jcaconverter/StaticFieldComponentFromJCA.java:408-411 | the per-value loop produces the initializer's encoding |
| StaticField.ReferenceCount | src/main/java/fr/gouv/ssi/rommask/jcaparser/jcaconverter/StaticFieldComponentFromJCA.java:223-235 | there are never more references than static fields |
| StaticField.ComputeReferenceCount | src/main/java/fr/gouv/ssi/rommask/jcaparser/jcaconverter/StaticFieldComponentFromJCA.java:223-235 | the loop counts the static fields of a reference or array type |
| StaticField.ComputeDefaultValue | src/main/java/fr/gouv/ssi/rommask/jcaparser/jcaconverter/StaticFieldComponentFromJCA.java:315-363 | the loop sums the sizes of the non-final, uninitialized static primitives |
| StaticField.NonDefaultValuesAsWrittenEmpty | src/main/java/fr/gouv/ssi/rommask/jcaparser/jcaconverter/StaticFieldComponentFromJCA.java:395-397 | as written, the inverted skip leaves `non_default_values` empty for every package |
| StaticField.NonDefaultValues | src/main/java/fr/gouv/ssi/rommask/jcaparser/jcaconverter/StaticFieldComponentFromJCA.java:370-428 | the intended `non_default_values` hold only bytes |
| StaticField.ComputeNonDefaultValues | src/main/java/fr/gouv/ssi/rommask/jcaparser/jcaconverter/StaticFieldComponentFromJCA.java:370-428 | the loop, with initialized fields kept, yields the initial values of the initialized static primitives in order (corrected: see the Findings row for StaticFieldComponentFromJCA.java:395-397) |
| StaticField.NonDefaultValuesStep | src/main/java/fr/gouv/ssi/rommask/jcaparser/jcaconverter/StaticFieldComponentFromJCA.java:374-425 | each field adds its encoded initializer exactly when it is an initialized, non-final static primitive |
| StaticField.ArrayInitOf | src/main/java/fr/gouv/ssi/rommask/jcaparser/jcaconverter/StaticFieldComponentFromJCA.java:254-303 | an entry's count is its byte length, the initializer's length times the element size, and a primitive array gets type code 2 to 5 |
| StaticField.InitializedArrays | src/main/java/fr/gouv/ssi/rommask/jcaparser/jcaconverter/StaticFieldComponentFromJCA.java:246-251 | the selected fields are initialized static arrays of the package |
| StaticField.ArrayInitDecodes | src/main/java/fr/gouv/ssi/rommask/jcaparser/jcaconverter/StaticFieldComponentFromJCA.java:254-303 | each `array_init` entry carries its array's type code and each element decodes to the array's initial value |
| StaticField.GenerateArrayInit | src/main/java/fr/gouv/ssi/rommask/jcaparser/jcaconverter/StaticFieldComponentFromJCA.java:241-308 | the loop builds one entry per initialized static array and counts the primitive ones |
| StaticField.SegmentOf | src/main/java/fr/gouv/ssi/rommask/jcaparser/jcaconverter/StaticFieldComponentFromJCA.java:126-197 | only static fields that are not constants are placed in a segment |
| StaticField.SlotWidth | src/main/java/fr/gouv/ssi/rommask/jcaparser/jcaconverter/StaticFieldComponentFromJCA.java:146-196 | every placed field's slot has a positive width |
| StaticField.LayoutInvariant | src/main/java/fr/gouv/ssi/rommask/jcaparser/jcaconverter/StaticFieldComponentFromJCA.java:126-197 | placing the fields one by one keeps each segment packed from its base and within its count |
| StaticField.ImageLayoutSound | src/main/java/fr/gouv/ssi/rommask/jcaparser/jcaconverter/StaticFieldComponentFromJCA.java:108-197 | with the intended offsets, the four segments follow each other without overlap and the last ends within `image_size` |
| StaticField.ImageFindsField | src/main/java/fr/gouv/ssi/rommask/jcaparser/jcaconverter/StaticFieldComponentFromJCA.java:204-207 | every placed field is found in the merged image under its name and offset (corrected: see the Findings row for StaticFieldComponentFromJCA.java:124, :151-155 and :171-179) |
| StaticField.ImageCellsPlaced | src/main/java/fr/gouv/ssi/rommask/jcaparser/jcaconverter/StaticFieldComponentFromJCA.java:204-207 | every image entry is a placed non-constant static under its own name, its slot inside `image_size` (corrected: see the Findings row for StaticFieldComponentFromJCA.java:124, :151-155 and :171-179) |
| StaticField.PutCell | src/main/java/fr/gouv/ssi/rommask/jcaparser/jcaconverter/StaticFieldComponentFromJCA.java:146-196 | adding a cell to a segment table yields the table of the cells so far plus that one |
| StaticField.PlaceField | src/main/java/fr/gouv/ssi/rommask/jcaparser/jcaconverter/StaticFieldComponentFromJCA.java:126-197 | one iteration puts the field in its segment's table at that segment's next offset |
| StaticField.PlaceFields | src/main/java/fr/gouv/ssi/rommask/jcaparser/jcaconverter/StaticFieldComponentFromJCA.java:126-199 | the loop leaves the four tables of the layout and their merge is the image (corrected: see the Findings row for StaticFieldComponentFromJCA.java:124, :151-155 and :171-179) |
| StaticField.GenerateStaticFieldImage | src/main/java/fr/gouv/ssi/rommask/jcaparser/jcaconverter/StaticFieldComponentFromJCA.java:108-209 | the image is the merge of the layout placed from the intended segment bases (corrected: see the Findings row for StaticFieldComponentFromJCA.java:124, :151-155 and :171-179) |
| StaticField.IntArraySlotOverlapsAsWritten | src/main/java/fr/gouv/ssi/rommask/jcaparser/jcaconverter/StaticFieldComponentFromJCA.java:151-155 | as written, a second initialized `int[]` lands on the first reference's slot |
| StaticField.ByteSlotOutsideImageAsWritten | src/main/java/fr/gouv/ssi/rommask/jcaparser/jcaconverter/StaticFieldComponentFromJCA.java:171-179 | as written, the second uninitialized `byte` sits at offset 2 of a 2-byte image |
| StaticField.InitializedShortOutsideImageAsWritten | src/main/java/fr/gouv/ssi/rommask/jcaparser/jcaconverter/StaticFieldComponentFromJCA.java:122-124 | as written, an initialized `short` is placed in an image of size 0 with no value |
| StaticField.SegmentFourBaseAsWritten | src/main/java/fr/gouv/ssi/rommask/jcaparser/jcaconverter/StaticFieldComponentFromJCA.java:124 | as written, the last segment starts at twice the reference count plus twice the default-value bytes, so an initialized `short` after an uninitialized one lies at offset 4 of a 2-byte image; the intended layout puts it at offset 2 of a 4-byte image |
| StaticField.ComputeComponentSize | src/main/java/fr/gouv/ssi/rommask/jcaparser/jcaconverter/StaticFieldComponentFromJCA.java:431-446 | the size is ten bytes of counts, the non-default values, and each entry's type, count and values (corrected: see the Findings row for StaticFieldComponentFromJCA.java:395-397) |
| StaticField.SizeIsLength | src/main/java/fr/gouv/ssi/rommask/jcaparser/jcaconverter/StaticFieldComponentFromJCA.java:431-446 | the recorded size is the length of the component's serialized body |
| StaticField.Build | src/main/java/fr/gouv/ssi/rommask/jcaparser/jcaconverter/StaticFieldComponentFromJCA.java:83-101 | the component's counts, entries, values, image and size are those of the package's static fields (corrected: see the Findings row for StaticFieldComponentFromJCA.java:124, :151-155, :171-179 and :395-397) |
| ConstantPool.InternalClassMeaning | src/main/java/fr/gouv/ssi/rommask/jcaparser/jcaconverter/ConstantPoolComponentFromJCA.java:224-240 | an internal class is found exactly when some object has the name, at the summed record sizes of the objects before the first one |
| ConstantPool.ExternalClass | src/main/java/fr/gouv/ssi/rommask/jcaparser/jcaconverter/ConstantPoolComponentFromJCA.java:219-223 | an external class reference keeps the package token's low seven bits and has its top bit set |
| ConstantPool.ClassRefMeaning | src/main/java/fr/gouv/ssi/rommask/jcaparser/jcaconverter/ConstantPoolComponentFromJCA.java:216-242 | an internal class reference is the offset of the first object with its name |
| ConstantPool.ResolveClass | src/main/java/fr/gouv/ssi/rommask/jcaparser/jcaconverter/ConstantPoolComponentFromJCA.java:228-238 | the loop finds the named object's index and offset, or nothing |
| ConstantPool.SplitAtLastSlash | src/main/java/fr/gouv/ssi/rommask/jcaparser/jcaconverter/ConstantPoolComponentFromJCA.java:184-186 | splitting fails exactly when the name holds no slash |
| ConstantPool.SplitAtLastSlashRoundTrip | src/main/java/fr/gouv/ssi/rommask/jcaparser/jcaconverter/ConstantPoolComponentFromJCA.java:184-186 | the class part, a slash and the member part make up the name again, and the member part holds no slash |
| ConstantPool.RemoveAll | src/main/java/fr/gouv/ssi/rommask/jcaparser/jcaconverter/ConstantPoolComponentFromJCA.java:340 | removing every occurrence never lengthens the string |
| ConstantPool.RemovePrefix | src/main/java/fr/gouv/ssi/rommask/jcaparser/jcaconverter/ConstantPoolComponentFromJCA.java:340 | removing the class prefix from a qualified name leaves the method part when that part does not repeat the prefix |
| ConstantPool.RemoveAbsent | src/main/java/fr/gouv/ssi/rommask/jcaparser/jcaconverter/ConstantPoolComponentFromJCA.java:340 | a string without the pattern is left unchanged |
| ConstantPool.FieldTokenNamed | src/main/java/fr/gouv/ssi/rommask/jcaparser/jcaconverter/ConstantPoolComponentFromJCA.java:195-200 | a field token is a byte |
| ConstantPool.FieldTokenNamedMeaning | src/main/java/fr/gouv/ssi/rommask/jcaparser/jcaconverter/ConstantPoolComponentFromJCA.java:195-200 | the token is that of the first field with the name, or 0 when none has it |
| ConstantPool.InstanceFieldOf | src/main/java/fr/gouv/ssi/rommask/jcaparser/jcaconverter/ConstantPoolComponentFromJCA.java:172-208 | the entry is an instance field reference and, for an imported field, carries the external class and the field token (corrected: see the Findings row for ConstantPoolComponentFromJCA.java:175-179) |
| ConstantPool.ExternalInstanceFieldLostAsWritten | src/main/java/fr/gouv/ssi/rommask/jcaparser/jcaconverter/ConstantPoolComponentFromJCA.java:175-179 | as written, an imported instance field's entry has neither class nor token, while the intended entry has both |
| ConstantPool.StaticFieldOf | src/main/java/fr/gouv/ssi/rommask/jcaparser/jcaconverter/ConstantPoolComponentFromJCA.java:251-278 | an internal static field reference fails exactly when the image does not hold exactly one cell with its name |
| ConstantPool.StaticFieldLocated | src/main/java/fr/gouv/ssi/rommask/jcaparser/jcaconverter/ConstantPoolComponentFromJCA.java:262-273 | an internal static field reference holds the offset of an image cell in the field's row |
| ConstantPool.StaticMethodOf | src/main/java/fr/gouv/ssi/rommask/jcaparser/jcaconverter/ConstantPoolComponentFromJCA.java:286-315 | an internal static method reference fails exactly when the method component recorded no offset, and otherwise holds that offset |
| ConstantPool.MethodTokenNamed | src/main/java/fr/gouv/ssi/rommask/jcaparser/jcaconverter/ConstantPoolComponentFromJCA.java:348-353 | a method token is a byte |
| ConstantPool.MethodTokenNamedMeaning | src/main/java/fr/gouv/ssi/rommask/jcaparser/jcaconverter/ConstantPoolComponentFromJCA.java:348-353 | the token is that of the first method with the full name, or 0 when none has it |
| ConstantPool.ClassMethodOf | src/main/java/fr/gouv/ssi/rommask/jcaparser/jcaconverter/ConstantPoolComponentFromJCA.java:336-359 | the class-and-token lookup fails exactly when the method name holds no slash, and its token is a byte |
| ConstantPool.SuperMethodOf | src/main/java/fr/gouv/ssi/rommask/jcaparser/jcaconverter/ConstantPoolComponentFromJCA.java:323-362 | a super method reference fails exactly when it has no token and its name holds no slash; an external one holds the package and class tokens and its method token as a byte |
| ConstantPool.MaskToken | src/main/java/fr/gouv/ssi/rommask/jcaparser/jcaconverter/ConstantPoolComponentFromJCA.java:410-430 | masking keeps a byte and never touches the token's low seven bits (corrected: see the Findings row for ConstantPoolComponentFromJCA.java:419-428 and :421-424) |
| ConstantPool.MaskStep | src/main/java/fr/gouv/ssi/rommask/jcaparser/jcaconverter/ConstantPoolComponentFromJCA.java:418-428 | a method with the signature leaves the high bit set exactly when it is package-visible (corrected: see the Findings row for ConstantPoolComponentFromJCA.java:419-428 and :421-424) |
| ConstantPool.LastNamed | src/main/java/fr/gouv/ssi/rommask/jcaparser/jcaconverter/ConstantPoolComponentFromJCA.java:416-418 | the index found names a method with the signature and no later method has it |
| ConstantPool.MaskTokenLastWins | src/main/java/fr/gouv/ssi/rommask/jcaparser/jcaconverter/ConstantPoolComponentFromJCA.java:416-430 | the last method with the signature decides the high bit, and with none the token is untouched (corrected: see the Findings row for ConstantPoolComponentFromJCA.java:419-428 and :421-424) |
| ConstantPool.MaskTokenAsWritten | src/main/java/fr/gouv/ssi/rommask/jcaparser/jcaconverter/ConstantPoolComponentFromJCA.java:420-428 | the token as written stays a byte |
| ConstantPool.PublicTokenLostAsWritten | src/main/java/fr/gouv/ssi/rommask/jcaparser/jcaconverter/ConstantPoolComponentFromJCA.java:421-424 | as written, a public method's token 5 becomes 0, while the intended masking keeps 5 |
| ConstantPool.PackageTokenKeptAsWritten | src/main/java/fr/gouv/ssi/rommask/jcaparser/jcaconverter/ConstantPoolComponentFromJCA.java:419-428 | as written, no case sets the high bit, so a package-visible method's token 5 stays 5, while the intended masking gives 0x85 |
| ConstantPool.VirtualMethodOf | src/main/java/fr/gouv/ssi/rommask/jcaparser/jcaconverter/ConstantPoolComponentFromJCA.java:370-433 | a virtual method reference fails exactly when it has no token and its name holds no slash; its token is a byte, and an external one holds the package and class tokens with the low seven bits of its method token (corrected: see the Findings row for ConstantPoolComponentFromJCA.java:419-428 and :421-424) |
| ConstantPool.EntryOf | src/main/java/fr/gouv/ssi/rommask/jcaparser/jcaconverter/ConstantPoolComponentFromJCA.java:87-126 | an unknown entry fails and a class entry is its resolved class reference |
| ConstantPool.FieldTypes | src/main/java/fr/gouv/ssi/rommask/jcaparser/jcaconverter/ConstantPoolComponentFromJCA.java:149-163 | a field type adds one type unless it is `void`, which adds none |
| ConstantPool.EntryTypes | src/main/java/fr/gouv/ssi/rommask/jcaparser/jcaconverter/ConstantPoolComponentFromJCA.java:87-122 | a class entry appends 0xFFFF and a method entry exactly one type |
| ConstantPool.FoldRefused | src/main/java/fr/gouv/ssi/rommask/jcaparser/jcaconverter/ConstantPoolComponentFromJCA.java:87-126 | the loop fails exactly when one of its entries is refused |
| ConstantPool.FoldKeepsTable | src/main/java/fr/gouv/ssi/rommask/jcaparser/jcaconverter/ConstantPoolComponentFromJCA.java:87-126 | the loop keeps the type table well formed and only appends to it |
| ConstantPool.FoldTypes | src/main/java/fr/gouv/ssi/rommask/jcaparser/jcaconverter/ConstantPoolComponentFromJCA.java:87-126 | without a `void` field, the loop appends one type per entry, in order, each naming the entry's descriptor |
| ConstantPool.StepRefused | src/main/java/fr/gouv/ssi/rommask/jcaparser/jcaconverter/ConstantPoolComponentFromJCA.java:87-126 | one iteration fails exactly on a refused entry |
| ConstantPool.StepTypes | src/main/java/fr/gouv/ssi/rommask/jcaparser/jcaconverter/ConstantPoolComponentFromJCA.java:87-122 | one iteration keeps the table well formed and appends its entry's type |
| ConstantPool.EntryTypesType | src/main/java/fr/gouv/ssi/rommask/jcaparser/jcaconverter/ConstantPoolComponentFromJCA.java:87-122 | an entry appends exactly its own type, unless it is a `void` field |
| ConstantPool.PoolMeaning | src/main/java/fr/gouv/ssi/rommask/jcaparser/jcaconverter/ConstantPoolComponentFromJCA.java:87-126 | the pool is refused exactly when one entry is; otherwise it has one entry per assembly entry and the table only grows |
| ConstantPool.PoolSize | src/main/java/fr/gouv/ssi/rommask/jcaparser/jcaconverter/ConstantPoolComponentFromJCA.java:436-439 | the size is a 16-bit value equal to 2 plus 4 bytes per entry when that fits |
| ConstantPool.FindFieldToken | src/main/java/fr/gouv/ssi/rommask/jcaparser/jcaconverter/ConstantPoolComponentFromJCA.java:195-200 | the loop returns the token of the first field with the name |
| ConstantPool.FindMethodToken | src/main/java/fr/gouv/ssi/rommask/jcaparser/jcaconverter/ConstantPoolComponentFromJCA.java:348-353 | the loop returns the token of the first method with the full name |
| ConstantPool.InstanceFieldRef | src/main/java/fr/gouv/ssi/rommask/jcaparser/jcaconverter/ConstantPoolComponentFromJCA.java:172-208 | the method computes `InstanceFieldOf` (corrected: see the Findings row for ConstantPoolComponentFromJCA.java:175-179) |
| ConstantPool.ClassMethod | src/main/java/fr/gouv/ssi/rommask/jcaparser/jcaconverter/ConstantPoolComponentFromJCA.java:336-359 | the method computes `ClassMethodOf` |
| ConstantPool.MaskTokenAppend | src/main/java/fr/gouv/ssi/rommask/jcaparser/jcaconverter/ConstantPoolComponentFromJCA.java:415-430 | masking by two runs of methods is masking by the second from the token the first left |
| ConstantPool.MaskByMethods | src/main/java/fr/gouv/ssi/rommask/jcaparser/jcaconverter/ConstantPoolComponentFromJCA.java:417-429 | the inner loop masks the token by one object's methods (corrected: see the Findings row for ConstantPoolComponentFromJCA.java:419-428 and :421-424) |
| ConstantPool.MaskVirtualToken | src/main/java/fr/gouv/ssi/rommask/jcaparser/jcaconverter/ConstantPoolComponentFromJCA.java:415-430 | the loop masks the token by every method of every object, in order (corrected: see the Findings row for ConstantPoolComponentFromJCA.java:419-428 and :421-424) |
| ConstantPool.ComputeEntry | src/main/java/fr/gouv/ssi/rommask/jcaparser/jcaconverter/ConstantPoolComponentFromJCA.java:87-126 | one iteration's reference is `EntryOf` |
| ConstantPool.ConstantPoolComponent.constructor | src/main/java/fr/gouv/ssi/rommask/jcaparser/jcaconverter/ConstantPoolComponentFromJCA.java:140-141 | a new component has no entries |
| ConstantPool.ConstantPoolComponent.AddFieldType | src/main/java/fr/gouv/ssi/rommask/jcaparser/jcaconverter/ConstantPoolComponentFromJCA.java:149-163 | the field's type is added to the descriptor's table and appended to `constant_pool_types` |
| ConstantPool.ConstantPoolComponent.AddEntryTypes | src/main/java/fr/gouv/ssi/rommask/jcaparser/jcaconverter/ConstantPoolComponentFromJCA.java:87-122 | an entry's types are appended as `EntryTypes` says, and a refused entry changes nothing |
| ConstantPool.ConstantPoolComponent.ComputeStep | src/main/java/fr/gouv/ssi/rommask/jcaparser/jcaconverter/ConstantPoolComponentFromJCA.java:87-126 | one iteration yields the entry and its types, and a refused entry changes nothing (corrected: see the Findings row for ConstantPoolComponentFromJCA.java:175-179, :419-428 and :421-424) |
| ConstantPool.ConstantPoolComponent.Iterate | src/main/java/fr/gouv/ssi/rommask/jcaparser/jcaconverter/ConstantPoolComponentFromJCA.java:87-126 | one iteration is one more step of the fold |
| ConstantPool.ConstantPoolComponent.ComputeEntries | src/main/java/fr/gouv/ssi/rommask/jcaparser/jcaconverter/ConstantPoolComponentFromJCA.java:87-126 | the loop computes the fold over the entries and leaves the descriptor's types as it says |
| ConstantPool.ConstantPoolComponent.Convert | src/main/java/fr/gouv/ssi/rommask/jcaparser/jcaconverter/ConstantPoolComponentFromJCA.java:66-135 | without a pool the component is empty and the count 0; otherwise it holds the fold's entries, its count, its size, and `constant_pool_count` (corrected: see the Findings row for ConstantPoolComponentFromJCA.java:175-179, :419-428 and :421-424) |
| Classes.BitfieldNibbles | src/main/java/fr/gouv/ssi/rommask/jcaparser/jcaconverter/ClassInfoFromJCA.java:63-65 | flags below 16 come back as the high nibble and the count's low 4 bits as the low nibble of a byte |
| Classes.ClassBitfieldMeaning | src/main/java/fr/gouv/ssi/rommask/jcaparser/jcaconverter/ClassInfoFromJCA.java:63-65 | a class's bitfield has `ACC_SHAREABLE` exactly when the class is shareable, never `ACC_INTERFACE`, and the interface count's low 4 bits |
| Classes.InterfaceBitfieldMeaning | src/main/java/fr/gouv/ssi/rommask/jcaparser/jcaconverter/InterfaceInfoFromJCA.java:61-69 | an interface's bitfield has `ACC_INTERFACE`, `ACC_SHAREABLE` exactly when it is shareable, and the superinterface count's low 4 bits |
| Classes.SuperClassRefMeaning | src/main/java/fr/gouv/ssi/rommask/jcaparser/jcaconverter/ClassInfoFromJCA.java:67-94 | no superclass gives 0xFFFF, an imported one its package token with the top bit set, a package one the offset of the first object with its name |
| Classes.ComputeSuperClassRef | src/main/java/fr/gouv/ssi/rommask/jcaparser/jcaconverter/ClassInfoFromJCA.java:80-94 | the loop over the objects computes `SuperClassRef` |
| Classes.Slots | src/main/java/fr/gouv/ssi/rommask/jcaparser/jcaconverter/ClassInfoFromJCA.java:100-134 | a field takes at most two instance slots |
| Classes.FirstReference | src/main/java/fr/gouv/ssi/rommask/jcaparser/jcaconverter/ClassInfoFromJCA.java:104-130 | the index found is the first reference field, with no reference before it |
| Classes.FirstReferenceToken | src/main/java/fr/gouv/ssi/rommask/jcaparser/jcaconverter/ClassInfoFromJCA.java:138-140 | `first_reference_token` is a byte |
| Classes.InstanceSizeBounds | src/main/java/fr/gouv/ssi/rommask/jcaparser/jcaconverter/ClassInfoFromJCA.java:97-143 | the reference count is at most the instance size, which is at most two slots per field |
| Classes.ReferenceCountZero | src/main/java/fr/gouv/ssi/rommask/jcaparser/jcaconverter/ClassInfoFromJCA.java:138-143 | the reference count is zero exactly when no field is a reference |
| Classes.ComputeInstanceLayout | src/main/java/fr/gouv/ssi/rommask/jcaparser/jcaconverter/ClassInfoFromJCA.java:97-143 | the field loop yields the byte-wrapped instance size and reference count and the first reference token |
| Classes.VirtualTableMeaning | src/main/java/fr/gouv/ssi/rommask/jcaparser/jcaconverter/ClassInfoFromJCA.java:145-183 | a table fails exactly on a negative base; otherwise it has one entry per method from the base on, each the method's offset or 0xFFFF |
| Classes.ComputeVirtualTable | src/main/java/fr/gouv/ssi/rommask/jcaparser/jcaconverter/ClassInfoFromJCA.java:147-158 | the table loop computes `VirtualTable` |
| Classes.ImplementedInfosMeaning | src/main/java/fr/gouv/ssi/rommask/jcaparser/jcaconverter/ClassInfoFromJCA.java:185-220 | the records keep each interface's method indices with a byte count, one per interface, as long as `classSize` counts them |
| Classes.FindImplemented | src/main/java/fr/gouv/ssi/rommask/jcaparser/jcaconverter/ClassInfoFromJCA.java:197-211 | the search computes `ImplementedRef` |
| Classes.ComputeImplemented | src/main/java/fr/gouv/ssi/rommask/jcaparser/jcaconverter/ClassInfoFromJCA.java:186-220 | the interface loop computes `ImplementedInfos` |
| Classes.ImplementedInfosRefused | src/main/java/fr/gouv/ssi/rommask/jcaparser/jcaconverter/ClassInfoFromJCA.java:200-204 | the records fail exactly when an internal interface has no name and there is an object to compare it with |
| Classes.ClassInfoRefused | src/main/java/fr/gouv/ssi/rommask/jcaparser/jcaconverter/ClassInfoFromJCA.java:57-221 | a class is refused exactly on a negative table base or a nameless internal interface |
| Classes.NewClassInfo | src/main/java/fr/gouv/ssi/rommask/jcaparser/jcaconverter/ClassInfoFromJCA.java:57-221 | the constructor computes `ClassInfoOf` |
| Classes.SuperInterfacesLocated | src/main/java/fr/gouv/ssi/rommask/jcaparser/jcaconverter/InterfaceInfoFromJCA.java:72-95 | with distinct names, each internal superinterface reference points at the record of the interface it names, and an imported one has its top bit set (corrected: see the Findings row for InterfaceInfoFromJCA.java:80-90) |
| Classes.SuperInterfaceSelfAsWritten | src/main/java/fr/gouv/ssi/rommask/jcaparser/jcaconverter/InterfaceInfoFromJCA.java:80-90 | as written, `J extends I` refers to `J`'s own offset rather than `I`'s |
| Classes.NewInterfaceInfo | src/main/java/fr/gouv/ssi/rommask/jcaparser/jcaconverter/InterfaceInfoFromJCA.java:60-98 | the constructor computes `InterfaceInfoOf` (corrected: see the Findings row for InterfaceInfoFromJCA.java:80-90) |
| Classes.ClassInfoSizeAgrees | src/main/java/fr/gouv/ssi/rommask/jcaparser/jcaconverter/ClassInfoFromJCA.java:241-257 | a class record is as long as `classSize` says, up to a table base past its table's end |
| Classes.InterfaceInfoSizeAgrees | src/main/java/fr/gouv/ssi/rommask/jcaparser/jcaconverter/InterfaceInfoFromJCA.java:104-107 | an interface record is as long as `classSize` says |
| Classes.ComputeClassInfoSize | src/main/java/fr/gouv/ssi/rommask/jcaparser/jcaconverter/ClassInfoFromJCA.java:241-257 | the size loop computes, as a 16-bit value, the 10 fixed bytes (bitfield, 2-byte super_class_ref, seven 1-byte fields), 2 bytes per virtual table entry, and 3 bytes plus one per method index for each implemented interface |
| Classes.ClassesRefused | src/main/java/fr/gouv/ssi/rommask/jcaparser/jcaconverter/ClassComponentFromJCA.java:58-74 | the class records fail exactly when one of them does |
| Classes.FoldRecords | src/main/java/fr/gouv/ssi/rommask/jcaparser/jcaconverter/ClassComponentFromJCA.java:58-74 | the loop keeps interface records and class records each in declaration order, and fails when a record fails |
| Classes.FoldDescriptors | src/main/java/fr/gouv/ssi/rommask/jcaparser/jcaconverter/ClassComponentFromJCA.java:73 | the loop adds one class descriptor per object, after those already there |
| Classes.RecordsSizeSum | src/main/java/fr/gouv/ssi/rommask/jcaparser/jcaconverter/ClassComponentFromJCA.java:58-74 | records as long as `classSize` says take together the offset past the last object |
| Classes.ComponentMeaning | src/main/java/fr/gouv/ssi/rommask/jcaparser/jcaconverter/ClassComponentFromJCA.java:50-79 | the loop keeps the records in order, is refused when a class is, and adds one descriptor per object (corrected: see the Findings row for InterfaceInfoFromJCA.java:80-90) |
| Classes.AddRecord | src/main/java/fr/gouv/ssi/rommask/jcaparser/jcaconverter/ClassComponentFromJCA.java:59-71 | a record goes to its list and the running 16-bit size stays the size of both lists |
| Classes.ClassComponent.constructor | src/main/java/fr/gouv/ssi/rommask/jcaparser/jcaconverter/ClassComponentFromJCA.java:84-86 | a new component holds no records |
| Classes.ClassComponent.ConvertObject | src/main/java/fr/gouv/ssi/rommask/jcaparser/jcaconverter/ClassComponentFromJCA.java:59-73 | one iteration yields the object's record and adds its class descriptor (corrected: see the Findings row for InterfaceInfoFromJCA.java:80-90) |
| Classes.ClassComponent.Iterate | src/main/java/fr/gouv/ssi/rommask/jcaparser/jcaconverter/ClassComponentFromJCA.java:58-74 | one iteration is one more step of the loop's specification |
| Classes.ClassComponent.Convert | src/main/java/fr/gouv/ssi/rommask/jcaparser/jcaconverter/ClassComponentFromJCA.java:50-79 | the component holds the records and descriptors the loop's specification gives, and fails exactly when it does (corrected: see the Findings row for InterfaceInfoFromJCA.java:80-90) |
| Classes.ClassComponent.ComputeComponentSize | src/main/java/fr/gouv/ssi/rommask/jcaparser/jcaconverter/ClassComponentFromJCA.java:88-102 | the size is the 16-bit sum of the interface and class records' lengths |
| Export.ExportedFieldsMeaning | src/main/java/fr/gouv/ssi/rommask/jcaparser/jcaconverter/ExportComponentFromJCA.java:96-146 | exactly the fields the rules select are exported: in an applet package every non-final field, in a library the public or protected non-final statics |
| Export.ExportedMethodsMeaning | src/main/java/fr/gouv/ssi/rommask/jcaparser/jcaconverter/ExportComponentFromJCA.java:106-159 | exactly the methods the rules select are exported: in an applet package the statics, in a library the public or protected statics and constructors |
| Export.FieldExportsMeaning | src/main/java/fr/gouv/ssi/rommask/jcaparser/jcaconverter/ExportComponentFromJCA.java:96-146 | the field loop fails exactly when the image has no offset for an exported field, and otherwise lists each exported field with its image offset |
| Export.MethodExportsMeaning | src/main/java/fr/gouv/ssi/rommask/jcaparser/jcaconverter/ExportComponentFromJCA.java:106-159 | the method loop fails exactly when the method component has no offset for an exported method, and otherwise lists their offsets in order |
| Export.MethodExportsStep | src/main/java/fr/gouv/ssi/rommask/jcaparser/jcaconverter/ExportComponentFromJCA.java:148-159 | one more method adds its offset when it is exported, fails when that offset is missing, and else changes nothing |
| Export.ClassExportMeaning | src/main/java/fr/gouv/ssi/rommask/jcaparser/jcaconverter/ExportComponentFromJCA.java:68-170 | an object not exported has no entry; an exported one has its class offset and its exported fields' and methods' offsets with byte counts |
| Export.Present | src/main/java/fr/gouv/ssi/rommask/jcaparser/jcaconverter/ExportComponentFromJCA.java:68-170 | the positions listed are increasing and each yields an entry |
| Export.CollectMeaning | src/main/java/fr/gouv/ssi/rommask/jcaparser/jcaconverter/ExportComponentFromJCA.java:68-170 | a successful collection holds the entries of the present positions, in order |
| Export.CollectRefused | src/main/java/fr/gouv/ssi/rommask/jcaparser/jcaconverter/ExportComponentFromJCA.java:68-170 | a collection fails exactly when one of its positions throws |
| Export.ExportedObjects | src/main/java/fr/gouv/ssi/rommask/jcaparser/jcaconverter/ExportComponentFromJCA.java:77-132 | the indices listed are increasing and each names an exported object |
| Export.ExportedObjectsComplete | src/main/java/fr/gouv/ssi/rommask/jcaparser/jcaconverter/ExportComponentFromJCA.java:77-132 | every exported object's index is listed |
| Export.ClassExportPresent | src/main/java/fr/gouv/ssi/rommask/jcaparser/jcaconverter/ExportComponentFromJCA.java:77-132 | an object that does not throw has an entry exactly when it is exported |
| Export.PresentExported | src/main/java/fr/gouv/ssi/rommask/jcaparser/jcaconverter/ExportComponentFromJCA.java:68-170 | when the loop succeeds, the positions with an entry are the exported objects |
| Export.ExportsMeaning | src/main/java/fr/gouv/ssi/rommask/jcaparser/jcaconverter/ExportComponentFromJCA.java:55-175 | the component has one entry per exported object, in declaration order, at that object's class offset |
| Export.ExportsRefused | src/main/java/fr/gouv/ssi/rommask/jcaparser/jcaconverter/ExportComponentFromJCA.java:55-175 | the component is refused exactly when some object's entry is |
| Export.ExportSizeMeaning | src/main/java/fr/gouv/ssi/rommask/jcaparser/jcaconverter/ExportComponentFromJCA.java:184-197 | with no entry the size is 0; with entries that fit it is the class count byte plus every entry's bytes |
| Export.EntriesSizeListed | src/main/java/fr/gouv/ssi/rommask/jcaparser/jcaconverter/ClassExportsInfoFromJCA.java:47-53 | the entries' 16-bit sizes add up to their listed bytes, at least 4 per entry |
| Export.CloneExport | src/main/java/fr/gouv/ssi/rommask/jcaparser/jcaconverter/ClassExportsInfoFromJCA.java:74-100 | the element-by-element copy equals the entry |
| Export.ComputeFieldExports | src/main/java/fr/gouv/ssi/rommask/jcaparser/jcaconverter/ExportComponentFromJCA.java:96-104 | the field loop computes `FieldExports` |
| Export.ComputeMethodExports | src/main/java/fr/gouv/ssi/rommask/jcaparser/jcaconverter/ExportComponentFromJCA.java:106-115 | the method loop computes `MethodExports` |
| Export.ExportObject | src/main/java/fr/gouv/ssi/rommask/jcaparser/jcaconverter/ExportComponentFromJCA.java:69-169 | one iteration computes `ClassExportOf` |
| Export.ExportNext | src/main/java/fr/gouv/ssi/rommask/jcaparser/jcaconverter/ExportComponentFromJCA.java:68-170 | one iteration is one more step of the loop's specification and advances the class offset by the object's record size |
| Export.ExportComponent.constructor | src/main/java/fr/gouv/ssi/rommask/jcaparser/jcaconverter/ExportComponentFromJCA.java:180-181 | a new component holds no entries |
| Export.ExportComponent.Convert | src/main/java/fr/gouv/ssi/rommask/jcaparser/jcaconverter/ExportComponentFromJCA.java:55-175 | the component holds the loop's entries, their count as a byte and its size, and fails exactly when the loop does |
| Export.ExportComponent.ComputeComponentSize | src/main/java/fr/gouv/ssi/rommask/jcaparser/jcaconverter/ExportComponentFromJCA.java:184-197 | the size is `ExportSize` of the entries |
| ReferenceLocation.ChunksAsWrittenMeaning | src/main/java/fr/gouv/ssi/rommask/jcaparser/jcaconverter/ReferenceLocationComponentFromJCA.java:82-87 | as written, a distance becomes 255-bytes followed by a last byte of at most 255 |
| ReferenceLocation.ChunksAsWrittenSum | src/main/java/fr/gouv/ssi/rommask/jcaparser/jcaconverter/ReferenceLocationComponentFromJCA.java:82-87 | as written, a non-negative distance is the sum of its bytes |
| ReferenceLocation.ChunksMeaning | src/main/java/fr/gouv/ssi/rommask/jcaparser/jcaconverter/ReferenceLocationComponentFromJCA.java:82-87 | the intended split has 255-bytes then a last byte below 255, so only the last byte marks an index |
| ReferenceLocation.ChunksSum | src/main/java/fr/gouv/ssi/rommask/jcaparser/jcaconverter/ReferenceLocationComponentFromJCA.java:82-87 | the intended split of a non-negative distance sums to it |
| ReferenceLocation.DeltaOrdered | src/main/java/fr/gouv/ssi/rommask/jcaparser/jcaconverter/ReferenceLocationComponentFromJCA.java:76-80 | for ordered offsets, a distance is the first offset or the difference from the previous one |
| ReferenceLocation.EncodeSums | src/main/java/fr/gouv/ssi/rommask/jcaparser/jcaconverter/ReferenceLocationComponentFromJCA.java:69-91 | both encodings take at least one byte per offset and their bytes sum to the last offset |
| ReferenceLocation.DecodeChunks | src/main/java/fr/gouv/ssi/rommask/jcaparser/jcaconverter/ReferenceLocationComponentFromJCA.java:82-87 | one distance, split as intended, is read back as one index |
| ReferenceLocation.DecodeEncode | src/main/java/fr/gouv/ssi/rommask/jcaparser/jcaconverter/ReferenceLocationComponentFromJCA.java:69-91 | ordered offsets are read back exactly from their intended encoding |
| ReferenceLocation.DistanceOf255AsWritten | src/main/java/fr/gouv/ssi/rommask/jcaparser/jcaconverter/ReferenceLocationComponentFromJCA.java:82-87 | as written, a single index at 255 is encoded as one 255 byte, which reads back as no index |
| ReferenceLocation.DistanceOf255 | src/main/java/fr/gouv/ssi/rommask/jcaparser/jcaconverter/ReferenceLocationComponentFromJCA.java:82-87 | the intended encoding of that index is 255 then 0, which reads back as the index |
| ReferenceLocation.ShortArrayToByteArray | src/main/java/fr/gouv/ssi/rommask/jcaparser/jcaconverter/ReferenceLocationComponentFromJCA.java:69-91 | the loop produces the intended encoding of the offsets |
| ReferenceLocation.ComponentSizeMeaning | src/main/java/fr/gouv/ssi/rommask/jcaparser/jcaconverter/ReferenceLocationComponentFromJCA.java:94-100 | the size is the four count bytes and every entry whenever that fits in 16 bits |
| ReferenceLocation.ReferenceLocationComponent.constructor | src/main/java/fr/gouv/ssi/rommask/jcaparser/jcaconverter/ReferenceLocationComponentFromJCA.java:47-61 | both index lists are encoded, their lengths stored as 16-bit counts, and the size computed from them (corrected: see the Findings row for ReferenceLocationComponentFromJCA.java:82-87) |
| Components.PackageInfoOf | src/main/java/fr/gouv/ssi/rommask/jcaparser/jcaconverter/PackageInfoFromJCA.java:48-59 | a package info keeps the AID and stores its length as a byte |
| Components.PackageInfoSizeMeaning | src/main/java/fr/gouv/ssi/rommask/jcaparser/jcaconverter/PackageInfoFromJCA.java:62-66 | a package info takes three bytes besides its AID |
| Components.SignatureHasInt | src/main/java/fr/gouv/ssi/rommask/jcaparser/jcaconverter/HeaderComponentFromJCA.java:164-175 | a signature uses `int` exactly when its return type or a parameter is `int` |
| Components.BytecodeHasInt | src/main/java/fr/gouv/ssi/rommask/jcaparser/jcaconverter/HeaderComponentFromJCA.java:183-241 | a body uses `int` exactly when one of its instructions is among the `int` opcodes |
| Components.FieldsAreInt | src/main/java/fr/gouv/ssi/rommask/jcaparser/jcaconverter/HeaderComponentFromJCA.java:125-133 | an object's fields use `int` exactly when one field has type `int` |
| Components.MethodsHaveInt | src/main/java/fr/gouv/ssi/rommask/jcaparser/jcaconverter/HeaderComponentFromJCA.java:141-156 | an object's methods use `int` exactly when a signature does, or the body of a method that is neither native nor abstract |
| Components.HasInt | src/main/java/fr/gouv/ssi/rommask/jcaparser/jcaconverter/HeaderComponentFromJCA.java:105-117 | the package uses `int` exactly when one of its objects does |
| Components.HeaderFlagsMeaning | src/main/java/fr/gouv/ssi/rommask/jcaparser/jcaconverter/HeaderComponentFromJCA.java:69-85 | `ACC_INT`, `ACC_EXPORT` and `ACC_APPLET` are each set exactly when their condition holds, and no other bit |
| Components.HeaderSizeMeaning | src/main/java/fr/gouv/ssi/rommask/jcaparser/jcaconverter/HeaderComponentFromJCA.java:244-249 | the header takes ten bytes besides the package AID |
| Components.BuildHeader | src/main/java/fr/gouv/ssi/rommask/jcaparser/jcaconverter/HeaderComponentFromJCA.java:61-91 | the header has magic 0xDECAFFED, format 2.1, the package's flags and package info, and its size |
| Components.CapAppletsMeaning | src/main/java/fr/gouv/ssi/rommask/jcaparser/jcaconverter/CapAppletFromJCA.java:51-70 | the applets fail exactly when an applet class has no `install` method; otherwise each has its entry's AID and `install` offset |
| Components.AppletsBytesMeaning | src/main/java/fr/gouv/ssi/rommask/jcaparser/jcaconverter/AppletComponentFromJCA.java:90-94 | the applets take their AIDs and three bytes each |
| Components.ComputeAppletSize | src/main/java/fr/gouv/ssi/rommask/jcaparser/jcaconverter/AppletComponentFromJCA.java:80-97 | the size loop computes `AppletSize` |
| Components.BuildApplet | src/main/java/fr/gouv/ssi/rommask/jcaparser/jcaconverter/AppletComponentFromJCA.java:52-71 | the component holds one applet per declared entry, its count as a byte, and fails exactly when an applet does |
| Components.AppletComponentMeaning | src/main/java/fr/gouv/ssi/rommask/jcaparser/jcaconverter/AppletComponentFromJCA.java:52-97 | the component is empty exactly when no applet is declared, and otherwise takes a count byte and each applet's bytes |
| Components.PackageInfos | src/main/java/fr/gouv/ssi/rommask/jcaparser/jcaconverter/ImportComponentFromJCA.java:65-69 | one package info per imported package, in order |
| Components.ComputeImportSize | src/main/java/fr/gouv/ssi/rommask/jcaparser/jcaconverter/ImportComponentFromJCA.java:87-95 | the size loop computes `ImportSize` |
| Components.BuildImport | src/main/java/fr/gouv/ssi/rommask/jcaparser/jcaconverter/ImportComponentFromJCA.java:50-78 | without imports the component is a bare count of size 1; otherwise it holds the package infos, their count and size |
| Components.ImportSizeMeaning | src/main/java/fr/gouv/ssi/rommask/jcaparser/jcaconverter/ImportComponentFromJCA.java:87-95 | the import component takes a count byte, then three bytes and the AID per package |
| Components.ArrayInitSizeMeaning | src/main/java/fr/gouv/ssi/rommask/jcaparser/jcaconverter/StaticFieldUtilsInfoFromJCA.java:52-56 | `array_init_size` is the 16-bit sum of the initializers' counts |
| Components.BuildStaticFieldSizeInfo | src/main/java/fr/gouv/ssi/rommask/jcaparser/jcaconverter/StaticFieldUtilsInfoFromJCA.java:46-58 | the info holds the image size, the initializer count and the summed sizes |
| Components.DirectoryMeaning | src/main/java/fr/gouv/ssi/rommask/jcaparser/jcaconverter/DirectoryComponentFromJCA.java:47-104 | the directory lists each component's size at its tag's position, 0 for itself and an absent component, no custom component, and takes 31 bytes |
| Flash.Zeros | src/main/java/fr/gouv/ssi/rommask/jcaparser/mask/filesystem/FlashStaticField.java:89-120 | `n` zero bytes |
| Flash.FlashFieldOf | src/main/java/fr/gouv/ssi/rommask/jcaparser/mask/filesystem/FlashStaticField.java:73-125 | a flash static fails exactly on a type outside the switch, keeps the field's type and name, and holds its initial bytes, or zeros of its width for an uninitialized scalar and nothing for an uninitialized array |
| Flash.NewFlashStaticField | src/main/java/fr/gouv/ssi/rommask/jcaparser/mask/filesystem/FlashStaticField.java:73-125 | the constructor's loop computes `FlashFieldOf` |
| Flash.WireWidth | src/main/java/fr/gouv/ssi/rommask/jcaparser/mask/filesystem/FlashStaticField.java:81-121 | a byte or boolean takes 1 byte, a short or reference 2, an int 4 |
| Flash.FlashFieldInitValues | src/main/java/fr/gouv/ssi/rommask/jcaparser/mask/filesystem/FlashStaticField.java:85-114 | an initialized field takes one slot of its width per value, and value `i` reads back from slot `i` |
| Flash.FlashFieldsMeaning | src/main/java/fr/gouv/ssi/rommask/jcaparser/mask/filesystem/Filesystem.java:264-279 | the statics are built exactly when no row of the image holds two cells and every field has a type, one per row in row order |
| Flash.FieldIndexMeaning | src/main/java/fr/gouv/ssi/rommask/jcaparser/mask/filesystem/Filesystem.java:265-278 | exactly the statics' names are indexed, each by the last position holding it |
| Flash.FieldIndexDense | src/main/java/fr/gouv/ssi/rommask/jcaparser/mask/filesystem/Filesystem.java:265-278 | with distinct names, static `i` is indexed by `i` |
| Flash.CollectStep | src/main/java/fr/gouv/ssi/rommask/jcaparser/mask/filesystem/Filesystem.java:274-278 | row `i` adds its static to the list and indexes its name by `i` |
| Flash.CollectStops | src/main/java/fr/gouv/ssi/rommask/jcaparser/mask/filesystem/Filesystem.java:270-276 | a shared row or a field of no type at row `i` is the failure of the whole image |
| Flash.CollectStatics | src/main/java/fr/gouv/ssi/rommask/jcaparser/mask/filesystem/Filesystem.java:264-279 | the loop yields the statics and the name index, or the failure |
| Flash.CollectRow | src/main/java/fr/gouv/ssi/rommask/jcaparser/mask/filesystem/Filesystem.java:267-278 | one iteration either fails as the image does or collects row `i` and indexes it |
| Flash.RenumberPoolMeaning | src/main/java/fr/gouv/ssi/rommask/jcaparser/mask/filesystem/Filesystem.java:283-295 | renumbering succeeds exactly when every internal static reference names an indexed field, and then each is rewritten to that index and nothing else changes |
| Flash.RenumberConstantPool | src/main/java/fr/gouv/ssi/rommask/jcaparser/mask/filesystem/Filesystem.java:283-295 | the loop computes `RenumberPool` |
| Flash.RenumberOffsetsMeaning | src/main/java/fr/gouv/ssi/rommask/jcaparser/mask/filesystem/Filesystem.java:301-304 | a class's offsets are renumbered exactly when each has an indexed field beside it, each becoming that field's index |
| Flash.RenumberClassExport | src/main/java/fr/gouv/ssi/rommask/jcaparser/mask/filesystem/Filesystem.java:299-305 | the loop over one class computes `RenumberClass` |
| Flash.ExportsAsWrittenFails | src/main/java/fr/gouv/ssi/rommask/jcaparser/mask/filesystem/Filesystem.java:298-299 | as written, a package without an export component fails |
| Flash.UpdateExportsMeaning | src/main/java/fr/gouv/ssi/rommask/jcaparser/mask/filesystem/Filesystem.java:298-305 | the corrected update agrees with the written one when there is an export component, leaves an absent one absent, and renumbers every class exactly when all its offsets are known |
| Flash.RenumberExportsMeaning | src/main/java/fr/gouv/ssi/rommask/jcaparser/mask/filesystem/Filesystem.java:299-305 | every exported class is renumbered exactly when all its offsets are known |
| Flash.RenumberExportComponent | src/main/java/fr/gouv/ssi/rommask/jcaparser/mask/filesystem/Filesystem.java:299-305 | the loop over the exported classes computes `RenumberExports` |
| Flash.GeneratePackageMeaning | src/main/java/fr/gouv/ssi/rommask/jcaparser/mask/filesystem/Filesystem.java:307-327 | a generated package carries the package's name, AID and versions and the bytes of its CAP file without a static field component |
| Flash.RenumberedPoints | src/main/java/fr/gouv/ssi/rommask/jcaparser/mask/filesystem/Filesystem.java:283-295 | a renumbered pool points each internal static reference at the flash static of that name |
| Flash.GenerateAllErr | src/main/java/fr/gouv/ssi/rommask/jcaparser/mask/filesystem/Filesystem.java:250-332 | a failure on a prefix of the packages is the failure of them all |
| Flash.GenerateAllStep | src/main/java/fr/gouv/ssi/rommask/jcaparser/mask/filesystem/Filesystem.java:250-332 | one more package either fails `generating` or extends the generated list |
| Flash.Packages | src/main/java/fr/gouv/ssi/rommask/jcaparser/mask/filesystem/Filesystem.java:326-327 | one flash package per generated package |
| Flash.StaticsAfterMeaning | src/main/java/fr/gouv/ssi/rommask/jcaparser/mask/filesystem/Filesystem.java:266-268 | from an empty filesystem, package `p` has a list of statics exactly when it has at least one static |
| Flash.AfterStep | src/main/java/fr/gouv/ssi/rommask/jcaparser/mask/filesystem/Filesystem.java:267-327 | one more package appends its flash package and adds its statics under its number |
| Flash.Filesystem.constructor | src/main/java/fr/gouv/ssi/rommask/jcaparser/mask/filesystem/Filesystem.java:237-241 | the filesystem keeps its packages and starts with no flash package and no static |
| Flash.Filesystem.Generating | src/main/java/fr/gouv/ssi/rommask/jcaparser/mask/filesystem/Filesystem.java:249-333 | `generating` fails exactly when a package does, with its message, and otherwise appends every flash package and statics list in order (corrected: see the Findings row for Filesystem.java:298-299) |
| Flash.Filesystem.AddPackage | src/main/java/fr/gouv/ssi/rommask/jcaparser/mask/filesystem/Filesystem.java:267-327 | the package's flash form is appended and its statics added under its number |
| Flash.Filesystem.WriteBinary | src/main/java/fr/gouv/ssi/rommask/jcaparser/mask/filesystem/Filesystem.java:344-529 | the image written is `Binary` of the filesystem's packages and statics (corrected: see the Findings row for Filesystem.java:364-366) |
| Flash.Filesystem.WriteInIntelHexFile | src/main/java/fr/gouv/ssi/rommask/jcaparser/mask/filesystem/Filesystem.java:598-632 | the text written is the Intel HEX form of that image (corrected: see the Findings row for Filesystem.java:612-626) |
| Flash.GenerateOne | src/main/java/fr/gouv/ssi/rommask/jcaparser/mask/filesystem/Filesystem.java:251-331 | one iteration computes `GeneratePackage` (corrected: see the Findings row for Filesystem.java:298-299) |
| Flash.TypeCode | src/main/java/fr/gouv/ssi/rommask/jcaparser/mask/filesystem/Filesystem.java:405-465 | a static's type byte is between 0 and the reference code |
| Flash.ShortTestZero | src/main/java/fr/gouv/ssi/rommask/jcaparser/mask/filesystem/Filesystem.java:432-435 | the short test finds zero exactly when both bytes are zero, whatever their signs |
| Flash.IntTestZero | src/main/java/fr/gouv/ssi/rommask/jcaparser/mask/filesystem/Filesystem.java:443-446 | the int test finds zero exactly when all four bytes are zero, whatever their signs |
| Flash.ScalarIsZeroMeaning | src/main/java/fr/gouv/ssi/rommask/jcaparser/mask/filesystem/Filesystem.java:405-462 | on enough bytes the test does not throw and finds the default value exactly when every byte of the type is zero |
| Flash.StaticBlockMeaning | src/main/java/fr/gouv/ssi/rommask/jcaparser/mask/filesystem/Filesystem.java:388-477 | a flash static gets a block exactly when it has values and is an array or a non-zero scalar, tagged with its package and position, its type byte first, then its values |
| Flash.BinaryPartsMeaning | src/main/java/fr/gouv/ssi/rommask/jcaparser/mask/filesystem/Filesystem.java:368-480 | the loop fails only on a package whose statics fail, and collects each package's CAP block and, when asked, its static blocks |
| Flash.LowBitsMeaning | src/main/java/fr/gouv/ssi/rommask/jcaparser/mask/filesystem/Filesystem.java:503-505 | bit `k` of the partial byte is set exactly when `k` is below the count |
| Flash.Bitset | src/main/java/fr/gouv/ssi/rommask/jcaparser/mask/filesystem/Filesystem.java:501 | the package list is 8 bytes long |
| Flash.BitsetMeaning | src/main/java/fr/gouv/ssi/rommask/jcaparser/mask/filesystem/Filesystem.java:501-505 | package `i` is marked exactly when it is one of the first `n` |
| Flash.BitsetStep | src/main/java/fr/gouv/ssi/rommask/jcaparser/mask/filesystem/Filesystem.java:503-505 | marking package `n` in the list of the first `n` gives the list of the first `n + 1` |
| Flash.PackageList | src/main/java/fr/gouv/ssi/rommask/jcaparser/mask/filesystem/Filesystem.java:501-505 | the loop fills a fresh array with the bit set of the first `nbPkg` packages |
| Flash.Unsigned | src/main/java/fr/gouv/ssi/rommask/jcaparser/mask/filesystem/Filesystem.java:509-510 | the bytes keep their values as unsigned bytes |
| Flash.BinaryAsWrittenOverruns | src/main/java/fr/gouv/ssi/rommask/jcaparser/mask/filesystem/Filesystem.java:364-366 | as written, between 65 and 255 packages pass the guard and overrun the 8-byte list; the corrected image refuses them |
| Flash.BinaryMeaning | src/main/java/fr/gouv/ssi/rommask/jcaparser/mask/filesystem/Filesystem.java:344-529 | the image is refused exactly on more than 255 packages, more than 64 with the CAP blocks, CAP blocks over 128 KiB or a failing static, and is otherwise the CAP blocks, the package list and the static blocks, with its size (corrected: see the Findings row for Filesystem.java:364-366) |
| Flash.StaticBytesFails | src/main/java/fr/gouv/ssi/rommask/jcaparser/mask/filesystem/Filesystem.java:389-478 | a failing static is the failure of its package's static blocks |
| Flash.StaticBytesNext | src/main/java/fr/gouv/ssi/rommask/jcaparser/mask/filesystem/Filesystem.java:389-478 | one more static appends its framed block, if it has one |
| Flash.WriteStatics | src/main/java/fr/gouv/ssi/rommask/jcaparser/mask/filesystem/Filesystem.java:389-478 | the loop computes `StaticBytes` |
| Flash.BinaryPartsStep | src/main/java/fr/gouv/ssi/rommask/jcaparser/mask/filesystem/Filesystem.java:368-480 | one more package appends its CAP block, then its static blocks |
| Flash.WriteParts | src/main/java/fr/gouv/ssi/rommask/jcaparser/mask/filesystem/Filesystem.java:368-480 | the loop computes `BinaryParts` |
| Flash.WriteImage | src/main/java/fr/gouv/ssi/rommask/jcaparser/mask/filesystem/Filesystem.java:344-529 | the body computes `Binary` (corrected: see the Findings row for Filesystem.java:364-366) |
| Flash.FinishImage | src/main/java/fr/gouv/ssi/rommask/jcaparser/mask/filesystem/Filesystem.java:494-528 | CAP blocks over 128 KiB fail with the source's message; otherwise the image is the CAP blocks, the package list and the static blocks |
| Flash.BinaryBytes | src/main/java/fr/gouv/ssi/rommask/jcaparser/mask/filesystem/Filesystem.java:344-529 | with a framing of bytes, the image is bytes |
| IntelHex.Checksum | src/main/java/fr/gouv/ssi/rommask/jcaparser/mask/filesystem/Filesystem.java:623 | the checksum is a byte that brings the sum of a line's bytes to 0 modulo 256 |
| IntelHex.HexBytes | src/main/java/fr/gouv/ssi/rommask/jcaparser/mask/filesystem/Filesystem.java:620 | bytes are written as two hexadecimal digits each |
| IntelHex.ReadHexBytes | src/main/java/fr/gouv/ssi/rommask/jcaparser/mask/filesystem/Filesystem.java:616-624 | the digit pairs read back as the bytes they were written from |
| IntelHex.LineBytesMeaning | src/main/java/fr/gouv/ssi/rommask/jcaparser/mask/filesystem/Filesystem.java:613-624 | a line's bytes are its length, 16-bit address, type and data, then a checksum making them sum to 0 modulo 256 |
| IntelHex.LineReads | src/main/java/fr/gouv/ssi/rommask/jcaparser/mask/filesystem/Filesystem.java:616-624 | a line starts with a colon and reads back as its bytes |
| IntelHex.EofLine | src/main/java/fr/gouv/ssi/rommask/jcaparser/mask/filesystem/Filesystem.java:629 | the end-of-file line is the end-of-file record `:00000001FF` |
| IntelHex.ExtChecksum | src/main/java/fr/gouv/ssi/rommask/jcaparser/mask/filesystem/Filesystem.java:606-607 | the extended linear address record's bytes are its header, the two address bytes and their checksum |
| IntelHex.ExtLineRecord | src/main/java/fr/gouv/ssi/rommask/jcaparser/mask/filesystem/Filesystem.java:605-610 | the first line is the extended linear address record of the base address's upper 16 bits |
| IntelHex.RecordsFrom | src/main/java/fr/gouv/ssi/rommask/jcaparser/mask/filesystem/Filesystem.java:612-629 | the writer always emits at least the end-of-file record (corrected: see the Findings row for Filesystem.java:612-626) |
| IntelHex.RecordsWellFormed | src/main/java/fr/gouv/ssi/rommask/jcaparser/mask/filesystem/Filesystem.java:612-627 | every record written is well formed: at most 16 data bytes at a 16-bit address |
| IntelHex.HexTextRecords | src/main/java/fr/gouv/ssi/rommask/jcaparser/mask/filesystem/Filesystem.java:598-632 | every line of the file is the line of a record (corrected: see the Findings row for Filesystem.java:612-626) |
| IntelHex.NextChunk | src/main/java/fr/gouv/ssi/rommask/jcaparser/mask/filesystem/Filesystem.java:613-626 | each chunk moves forward to the next 16-byte boundary or the end, staying in its 64 KiB segment unless it starts a new one |
| IntelHex.HexRoundTrip | src/main/java/fr/gouv/ssi/rommask/jcaparser/mask/filesystem/Filesystem.java:598-632 | loading the records puts every payload byte back at its address from the base's segment (corrected: see the Findings row for Filesystem.java:612-626) |
| IntelHex.DataHeader | src/main/java/fr/gouv/ssi/rommask/jcaparser/mask/filesystem/Filesystem.java:615-616 | a data line's header digits and running sum are those of its length, address and type |
| IntelHex.LineStep | src/main/java/fr/gouv/ssi/rommask/jcaparser/mask/filesystem/Filesystem.java:618-621 | each data byte is appended as two digits and joins the running sum |
| IntelHex.DataLine | src/main/java/fr/gouv/ssi/rommask/jcaparser/mask/filesystem/Filesystem.java:613-624 | a data line written byte by byte is the line of the data record of that chunk |
| IntelHex.FirstLine | src/main/java/fr/gouv/ssi/rommask/jcaparser/mask/filesystem/Filesystem.java:605-610 | the first line written is the extended linear address line |
| IntelHex.WriteChunk | src/main/java/fr/gouv/ssi/rommask/jcaparser/mask/filesystem/Filesystem.java:612-627 | one turn of the loop writes the next chunk's records and advances to the next chunk (corrected: see the Findings row for Filesystem.java:612-626) |
| IntelHex.WriteIntelHex | src/main/java/fr/gouv/ssi/rommask/jcaparser/mask/filesystem/Filesystem.java:598-632 | the lines written are the Intel HEX text of the image (corrected: see the Findings row for Filesystem.java:612-626) |
| IntelHex.RecordsAsWrittenFail | src/main/java/fr/gouv/ssi/rommask/jcaparser/mask/filesystem/Filesystem.java:612-626 | as written, a payload of 32768 bytes or more makes the 16-bit line counter wrap negative and the write fail |
| IntelHex.HexAsWrittenFails | src/main/java/fr/gouv/ssi/rommask/jcaparser/mask/filesystem/Filesystem.java:612-626 | as written, an image of 32768 bytes or more cannot be written |
| IntelHex.HexAsWrittenAgrees | src/main/java/fr/gouv/ssi/rommask/jcaparser/mask/filesystem/Filesystem.java:598-632 | below 32768 bytes the writer as written produces exactly the corrected file |
| Table.StringLessTotal | src/main/java/fr/gouv/ssi/rommask/jcaparser/jcaconverter/StaticFieldComponentFromJCA.java:111 | the row order of the sorted table is total on names |
| Table.StringLessTransitive | src/main/java/fr/gouv/ssi/rommask/jcaparser/jcaconverter/StaticFieldComponentFromJCA.java:111 | the row order of the sorted table is transitive |
| Table.GetPresent | src/main/java/fr/gouv/ssi/rommask/jcaparser/jcaconverter/StaticFieldComponentFromJCA.java:146-196 | a cell of a sorted table is found under its own row and column |
| Table.Put | src/main/java/fr/gouv/ssi/rommask/jcaparser/jcaconverter/StaticFieldComponentFromJCA.java:146-196 | `put` keeps the table sorted, maps the key to the new value, leaves every other key as it was, and adds at most one cell |
| Table.PutAll | src/main/java/fr/gouv/ssi/rommask/jcaparser/jcaconverter/StaticFieldComponentFromJCA.java:204-207 | `putAll` keeps the table sorted and adds at most one cell per cell given |
| Table.PutAllGet | src/main/java/fr/gouv/ssi/rommask/jcaparser/jcaconverter/StaticFieldComponentFromJCA.java:204-207 | after `putAll`, a key holds the value of the last cell given with it, else its old value |
| Table.PutAllFrom | src/main/java/fr/gouv/ssi/rommask/jcaparser/jcaconverter/StaticFieldComponentFromJCA.java:204-207 | every cell after `putAll` comes from the table or from the cells given |
| Table.PutAllTake | src/main/java/fr/gouv/ssi/rommask/jcaparser/jcaconverter/StaticFieldComponentFromJCA.java:204-207 | `putAll` of a sorted table sets each of its keys to its value |
| Table.PutAllKeep | src/main/java/fr/gouv/ssi/rommask/jcaparser/jcaconverter/StaticFieldComponentFromJCA.java:204-207 | `putAll` of cells outside a column leaves that column as it was |
| Table.SharedRowAdjacent | src/main/java/fr/gouv/ssi/rommask/jcaparser/mask/filesystem/Filesystem.java:264-272 | in a sorted table two cells of one row show up as a shared row |
| Table.FirstInRow | src/main/java/fr/gouv/ssi/rommask/jcaparser/jcaconverter/ExportComponentFromJCA.java:101 | the first column of a row is absent exactly when no cell has the row, and otherwise is a column of that row |
| Table.FirstInRowSmallest | src/main/java/fr/gouv/ssi/rommask/jcaparser/jcaconverter/ConstantPoolComponentFromJCA.java:272 | the first column of a row is its smallest |
| Table.RowSize | src/main/java/fr/gouv/ssi/rommask/jcaparser/jcaconverter/ConstantPoolComponentFromJCA.java:265-266 | a row's size is zero exactly when it has no first column, and never exceeds the table's |

## Left out

- MethodComponent.HandlerStartAtOpcode: proved only when no later method info shares the method's full name. The converter keys method offsets by the full name without the class (`methodsWithOffsets`), the last info winning, and the descriptor, class and export components read the same map. So when two classes declare a method with the same name and signature, every method but the last gets the last one's offset. `MethodComponent.SharedFullNameOffsetAsWritten` shows that this offset lies past the earlier method's bytes. A map keyed by class and full name is not modelled, because every component that reads the offsets would change with it.
- Command-line handling, directory walking, console output and writing files are not modelled. The HEX writer returns its text, and the binary writer takes the CAP writer and the flash block framing (`write`, `frame`) as parameters. Those come from the external CAP library, which is not part of this model.
- `JCAConverter.converter` is not modelled as a member. It only orchestrates the library `CapFile`; the model keeps its call order by passing each earlier component to the later ones.
- `Filesystem.writeInCFile` and the writing of a package back as a CAP file are text and file output; they are not modelled.
- The zero padding that `resetOtherSectors` adds to the flash image is not modelled.
- The text of the C header for native functions is not modelled. Only the run-wide list of native methods is kept, as an explicit accumulator.
- The opcode dispatch of the instruction factory is not modelled. The opcode constants are kept as data.
- The branch instructions (`GOTO`, the `IF*` family) resolve their labels in classes that are not part of this model. Only the two switch instructions' `updateLabels` is modelled.
- When an exception interrupts the converter, the model does not keep the partial state or output written before it. This covers a failing label after earlier switch slots were overwritten, and the bytes already streamed before a failing package. The model returns an `Err` instead.
- The `clone` methods are modelled as copies of values. Sharing between a clone and its original cannot arise in the model.
- The library setters that store sizes and counts are modelled as plain field updates.
- Messages written to the standard error stream are not modelled.
- StaticField.Build: the counts the static field component casts to `short` are not wrapped at 16 bits. These are `image_size`, `reference_count`, `array_init_count` and each entry's count, and `non_default_value_count`; they stay unbounded integers. The model wraps a `short` only where a contract writes the cast out with `ToShort`. That covers the counts and sizes of the method, descriptor, constant pool, class, export, reference location, import and static field size components, and the Intel HEX line counter. Method offsets and other running offsets are not wrapped either.
- Every member that builds a component or the flash image computes the corrected behaviour of each "## Findings" row, not the behaviour as written. The as-written behaviour is kept only in the members named in the Findings table's as-written column.
- Descriptor.AddType: reusing an equal descriptor assumes that the library's `TypeDescriptor.equals` compares the nibble count and the bytes. That class is not part of this model.
- Table.StringLess: rows are ordered by character code, while `String.compareTo` compares UTF-16 code units. The two orders differ only for names with characters outside the Basic Multilingual Plane.

## Findings

| source | as written | input that shows it | evidently intended | confidence | as-written member | corrected member |
|---|---|---|---|---|---|---|
| src/main/java/fr/gouv/ssi/rommask/jcaparser/bytecodes/CHECKCAST.java:107 | `toString` builds the shown index from the type byte and the high index byte | `checkcast 10 1` (type 10, index 1) shows index 10 | the shown index is the two index bytes, high then low | not executed | Instructions.CheckcastIndexAsWrittenWrong | Instructions.CheckcastIndexRoundTrip |
| src/main/java/fr/gouv/ssi/rommask/jcaparser/bytecodes/InstructionWith4BytesParameter.java:58-61 | each byte is `(byte)(value & mask)` without a shift, so the three high bytes are always 0 | the value 256 is encoded as 0 0 0 0 and shown as 0 | the four big-endian bytes of the value | not executed | Instructions.FourByteAsWrittenLosesHighBytes | Instructions.FourByteRoundTrip |
| src/main/java/fr/gouv/ssi/rommask/jcaparser/jcaconverter/MethodComponentFromJCA.java:180 | the extended header is chosen by comparing Java bytes, which are signed | 200 locals read as -56, keep the standard header, and the nibble holds 8 | the extended header whenever a count exceeds 15 | not executed | MethodComponent.SignedChoiceLosesLocals | MethodComponent.HeaderRoundTrip |
| src/main/java/fr/gouv/ssi/rommask/jcaparser/jcaconverter/MethodComponentFromJCA.java:324 | the extended header writes `max_locals` in the byte meant for `max_stack` | a method with max_stack 16 and no locals gets an extended header that decodes to max_stack 0 | byte 1 holds `max_stack` | not executed | MethodComponent.ExtendedHeaderAsWrittenLosesMaxStack | MethodComponent.HeaderRoundTrip |
| src/main/java/fr/gouv/ssi/rommask/jcaparser/jcaconverter/MethodComponentFromJCA.java:256-262 | the handler base adds 4 only when a signed byte exceeds 255, which never holds | any method with an extended header: its handler offsets are 2 bytes short | the base is the method offset plus the header length, 2 or 4 | not executed | MethodComponent.CodeBaseAsWrittenIsTwo | MethodComponent.HandlerStartAtOpcode |
| src/main/java/fr/gouv/ssi/rommask/jcaparser/jcaconverter/MethodComponentFromJCA.java:400-404 | the relocation index lists also assume a 2-byte header | any method with an extended header: its index offsets are 2 bytes short | the base past the method's own header | not executed | MethodComponent.IndexBaseAsWrittenShort | MethodComponent.IndexBaseOfInfo |
| src/main/java/fr/gouv/ssi/rommask/jcaparser/jcaconverter/StaticFieldComponentFromJCA.java:151-155 | an `int[]` static field advances the segment offset by 4 although a reference slot is 2 bytes | two initialised `int[]` fields and an uninitialised reference: the second array and the reference share offset 4 | every reference slot is 2 bytes | not executed | StaticField.IntArraySlotOverlapsAsWritten | StaticField.ImageFindsField |
| src/main/java/fr/gouv/ssi/rommask/jcaparser/jcaconverter/StaticFieldComponentFromJCA.java:171-179 | a `boolean` or `byte` field of segment 3 takes a 2-byte slot, while the image counts 1 byte for it | two uninitialised `byte` fields: the second sits at offset 2 of a 2-byte image | every field's slot lies inside the image | not executed | StaticField.ByteSlotOutsideImageAsWritten | StaticField.ImageCellsPlaced |
| src/main/java/fr/gouv/ssi/rommask/jcaparser/jcaconverter/StaticFieldComponentFromJCA.java:124 | the last segment starts at `(reference_count + default_value_count) * 2`, but `default_value_count` already counts bytes | an uninitialized `short a` and `short b = 5`: `b` sits at offset 4 of a 2-byte image | the last segment starts right after the default values, at `2 * reference_count + default_value_count` | not executed | StaticField.SegmentFourBaseAsWritten | StaticField.ImageLayoutSound |
| src/main/java/fr/gouv/ssi/rommask/jcaparser/jcaconverter/StaticFieldComponentFromJCA.java:395-397 | the skip test is inverted, so every initialised field is skipped | one `short` field initialised to 5 gives empty `non_default_values` and a 0-byte image | the initial values of the fields in segment 4, in order | not executed | StaticField.NonDefaultValuesAsWrittenEmpty | StaticField.ComputeNonDefaultValues |
| src/main/java/fr/gouv/ssi/rommask/jcaparser/jcaconverter/DescriptorComponentFromJCA.java:185-190 | the first free descriptor offset is twice the pool entry count, ignoring the pool's own 2-byte count and the types the pool adds later | one class reference in the pool: the first descriptor is stored at offset 2, inside the pool's type table | past the pool's type offsets | not executed | Descriptor.FirstDescriptorMisplacedAsWritten | Descriptor.TypeDescriptorLocated |
| src/main/java/fr/gouv/ssi/rommask/jcaparser/jcaconverter/DescriptorComponentFromJCA.java:339-380 | the comparator casts only its first key to `short` | an instance field of a class at offset 128: the field compares below itself | both keys read the same way, a total order | not executed | Descriptor.ComparatorNotReflexiveAsWritten | Descriptor.SortFields |
| src/main/java/fr/gouv/ssi/rommask/jcaparser/jcaconverter/DescriptorComponentFromJCA.java:318-329 | an internal interface reference is the offset of the class being described | a class `C` implementing its package's interface `I`: the reference points at `C` | the offset of the implemented interface | not executed | Descriptor.InterfaceRefSelfAsWritten | Descriptor.InterfaceRefLocated |
| src/main/java/fr/gouv/ssi/rommask/jcaparser/jcaconverter/DescriptorComponentFromJCA.java:293-302 | an internal superinterface reference is the offset of the interface being described | an interface `J extends I`, both of the package: the reference points at `J` | the offset of the superinterface | not executed | Descriptor.SuperInterfaceRefSelfAsWritten | Descriptor.InterfaceRefLocated |
| src/main/java/fr/gouv/ssi/rommask/jcaparser/jcaconverter/ConstantPoolComponentFromJCA.java:175-179 | an instance field of an imported package gets no class and no token | field `token` of class `1.2` in an imported package: the entry carries neither | the external class tokens and the field token | not executed | ConstantPool.ExternalInstanceFieldLostAsWritten | ConstantPool.InstanceFieldOf |
| src/main/java/fr/gouv/ssi/rommask/jcaparser/jcaconverter/ConstantPoolComponentFromJCA.java:421-424 | a public or protected match keeps only the high bit of the token | a public virtual method with token 5 is referenced with token 0 | clear the high bit and keep the token | not executed | ConstantPool.PublicTokenLostAsWritten | ConstantPool.MaskTokenLastWins |
| src/main/java/fr/gouv/ssi/rommask/jcaparser/jcaconverter/ConstantPoolComponentFromJCA.java:419-428 | the switch has no case for a package-visible method, so nothing sets the high bit | a package-visible virtual method with token 5 is referenced with token 5 | set the high bit for a package-visible method (0x85) | not executed | ConstantPool.PackageTokenKeptAsWritten | ConstantPool.MaskStep |
| src/main/java/fr/gouv/ssi/rommask/jcaparser/jcaconverter/InterfaceInfoFromJCA.java:80-90 | an internal superinterface reference is the offset of the interface being converted | an interface `J` extending the interface `I` laid out before it refers to itself | the offset of the superinterface | not executed | Classes.SuperInterfaceSelfAsWritten | Classes.SuperInterfacesLocated |
| src/main/java/fr/gouv/ssi/rommask/jcaparser/jcaconverter/ReferenceLocationComponentFromJCA.java:82-87 | a distance of exactly 255 is written as the single byte 255 | one index 255 bytes into the code is encoded as the single byte 255, which a loader reads as no index | 255 is written as 255 then 0 | not executed | ReferenceLocation.DistanceOf255AsWritten | ReferenceLocation.DecodeEncode |
| src/main/java/fr/gouv/ssi/rommask/jcaparser/mask/filesystem/Filesystem.java:364-366 | the guard allows up to 255 packages, but the package bitset holds 64 | 65 packages whose CAP blocks fit in 128 KiB overrun the 8-byte package list | refuse more than 64 packages | not executed | Flash.BinaryAsWrittenOverruns | Flash.BinaryMeaning |
| src/main/java/fr/gouv/ssi/rommask/jcaparser/mask/filesystem/Filesystem.java:612-626 | the line counter is a Java `short` and wraps negative after 32767 | a payload of 32768 bytes or more makes the writer fail | the counter runs over the whole payload. The source fails before its payload reaches 64 KiB; past each 64 KiB of payload the corrected writer also emits an extended linear address record, which the source never writes | not executed | IntelHex.HexAsWrittenFails | IntelHex.HexRoundTrip |
| src/main/java/fr/gouv/ssi/rommask/jcaparser/mask/filesystem/Filesystem.java:298-299 | an absent export component is dereferenced | a package that exports nothing cannot be put in flash | a package without exports is left as it is | not executed | Flash.ExportsAsWrittenFails | Flash.UpdateExportsMeaning |
