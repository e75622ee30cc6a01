/**
 * The Java Card 2.1 opcodes the assembler knows, as data: each opcode has the
 * upper-case name the assembly text uses and its byte value
 * (Java Card VM Specification 2.1, chapter 7).
 */
module Opcodes {
  import opened Bytes

  datatype Opcode = Opcode(name: string, value: int)

  const NOP: Opcode := Opcode("NOP", 0x00)
  const AALOAD: Opcode := Opcode("AALOAD", 0x24)
  const AASTORE: Opcode := Opcode("AASTORE", 0x37)
  const ACONST_NULL: Opcode := Opcode("ACONST_NULL", 0x01)
  const ALOAD: Opcode := Opcode("ALOAD", 0x15)
  const ALOAD_0: Opcode := Opcode("ALOAD_0", 0x18)
  const ALOAD_1: Opcode := Opcode("ALOAD_1", 0x19)
  const ALOAD_2: Opcode := Opcode("ALOAD_2", 0x1A)
  const ALOAD_3: Opcode := Opcode("ALOAD_3", 0x1B)
  const ANEWARRAY: Opcode := Opcode("ANEWARRAY", 0x91)
  const ARETURN: Opcode := Opcode("ARETURN", 0x77)
  const ARRAYLENGTH: Opcode := Opcode("ARRAYLENGTH", 0x92)
  const ASTORE: Opcode := Opcode("ASTORE", 0x28)
  const ASTORE_0: Opcode := Opcode("ASTORE_0", 0x2B)
  const ASTORE_1: Opcode := Opcode("ASTORE_1", 0x2C)
  const ASTORE_2: Opcode := Opcode("ASTORE_2", 0x2D)
  const ASTORE_3: Opcode := Opcode("ASTORE_3", 0x2E)
  const ATHROW: Opcode := Opcode("ATHROW", 0x93)
  const BALOAD: Opcode := Opcode("BALOAD", 0x25)
  const BASTORE: Opcode := Opcode("BASTORE", 0x38)
  const BIPUSH: Opcode := Opcode("BIPUSH", 0x12)
  const BSPUSH: Opcode := Opcode("BSPUSH", 0x10)
  const CHECKCAST: Opcode := Opcode("CHECKCAST", 0x94)
  const DUP: Opcode := Opcode("DUP", 0x3D)
  const DUP_X: Opcode := Opcode("DUP_X", 0x3F)
  const DUP2: Opcode := Opcode("DUP2", 0x3E)
  const GETFIELD_A: Opcode := Opcode("GETFIELD_A", 0x83)
  const GETFIELD_B: Opcode := Opcode("GETFIELD_B", 0x84)
  const GETFIELD_S: Opcode := Opcode("GETFIELD_S", 0x85)
  const GETFIELD_I: Opcode := Opcode("GETFIELD_I", 0x86)
  const GETFIELD_A_THIS: Opcode := Opcode("GETFIELD_A_THIS", 0xAD)
  const GETFIELD_B_THIS: Opcode := Opcode("GETFIELD_B_THIS", 0xAE)
  const GETFIELD_S_THIS: Opcode := Opcode("GETFIELD_S_THIS", 0xAF)
  const GETFIELD_I_THIS: Opcode := Opcode("GETFIELD_I_THIS", 0xB0)
  const GETFIELD_A_W: Opcode := Opcode("GETFIELD_A_W", 0xA9)
  const GETFIELD_B_W: Opcode := Opcode("GETFIELD_B_W", 0xAA)
  const GETFIELD_S_W: Opcode := Opcode("GETFIELD_S_W", 0xAB)
  const GETFIELD_I_W: Opcode := Opcode("GETFIELD_I_W", 0xAC)
  const GETSTATIC_A: Opcode := Opcode("GETSTATIC_A", 0x7B)
  const GETSTATIC_B: Opcode := Opcode("GETSTATIC_B", 0x7C)
  const GETSTATIC_S: Opcode := Opcode("GETSTATIC_S", 0x7D)
  const GETSTATIC_I: Opcode := Opcode("GETSTATIC_I", 0x7E)
  const GOTO: Opcode := Opcode("GOTO", 0x70)
  const GOTO_W: Opcode := Opcode("GOTO_W", 0xA8)
  const I2B: Opcode := Opcode("I2B", 0x5D)
  const I2S: Opcode := Opcode("I2S", 0x5E)
  const IADD: Opcode := Opcode("IADD", 0x42)
  const IALOAD: Opcode := Opcode("IALOAD", 0x27)
  const IAND: Opcode := Opcode("IAND", 0x54)
  const IASTORE: Opcode := Opcode("IASTORE", 0x3A)
  const ICMP: Opcode := Opcode("ICMP", 0x5F)
  const ICONST_M1: Opcode := Opcode("ICONST_M1", 0x09)
  const ICONST_0: Opcode := Opcode("ICONST_0", 0x0A)
  const ICONST_1: Opcode := Opcode("ICONST_1", 0x0B)
  const ICONST_2: Opcode := Opcode("ICONST_2", 0x0C)
  const ICONST_3: Opcode := Opcode("ICONST_3", 0x0D)
  const ICONST_4: Opcode := Opcode("ICONST_4", 0x0E)
  const ICONST_5: Opcode := Opcode("ICONST_5", 0x0F)
  const IDIV: Opcode := Opcode("IDIV", 0x48)
  const IF_ACMPEQ: Opcode := Opcode("IF_ACMPEQ", 0x68)
  const IF_ACMPNE: Opcode := Opcode("IF_ACMPNE", 0x69)
  const IF_ACMPEQ_W: Opcode := Opcode("IF_ACMPEQ_W", 0xA0)
  const IF_ACMPNE_W: Opcode := Opcode("IF_ACMPNE_W", 0xA1)
  const IF_SCMPEQ: Opcode := Opcode("IF_SCMPEQ", 0x6A)
  const IF_SCMPNE: Opcode := Opcode("IF_SCMPNE", 0x6B)
  const IF_SCMPLT: Opcode := Opcode("IF_SCMPLT", 0x6C)
  const IF_SCMPGE: Opcode := Opcode("IF_SCMPGE", 0x6D)
  const IF_SCMPGT: Opcode := Opcode("IF_SCMPGT", 0x6E)
  const IF_SCMPLE: Opcode := Opcode("IF_SCMPLE", 0x6F)
  const IF_SCMPEQ_W: Opcode := Opcode("IF_SCMPEQ_W", 0xA2)
  const IF_SCMPNE_W: Opcode := Opcode("IF_SCMPNE_W", 0xA3)
  const IF_SCMPLT_W: Opcode := Opcode("IF_SCMPLT_W", 0xA4)
  const IF_SCMPGE_W: Opcode := Opcode("IF_SCMPGE_W", 0xA5)
  const IF_SCMPGT_W: Opcode := Opcode("IF_SCMPGT_W", 0xA6)
  const IF_SCMPLE_W: Opcode := Opcode("IF_SCMPLE_W", 0xA7)
  const IFEQ: Opcode := Opcode("IFEQ", 0x60)
  const IFNE: Opcode := Opcode("IFNE", 0x61)
  const IFLT: Opcode := Opcode("IFLT", 0x62)
  const IFGE: Opcode := Opcode("IFGE", 0x63)
  const IFGT: Opcode := Opcode("IFGT", 0x64)
  const IFLE: Opcode := Opcode("IFLE", 0x65)
  const IFEQ_W: Opcode := Opcode("IFEQ_W", 0x98)
  const IFNE_W: Opcode := Opcode("IFNE_W", 0x99)
  const IFLT_W: Opcode := Opcode("IFLT_W", 0x9A)
  const IFGE_W: Opcode := Opcode("IFGE_W", 0x9B)
  const IFGT_W: Opcode := Opcode("IFGT_W", 0x9C)
  const IFLE_W: Opcode := Opcode("IFLE_W", 0x9D)
  const IFNONNULL: Opcode := Opcode("IFNONNULL", 0x67)
  const IFNONNULL_W: Opcode := Opcode("IFNONNULL_W", 0x9F)
  const IFNULL: Opcode := Opcode("IFNULL", 0x66)
  const IFNULL_W: Opcode := Opcode("IFNULL_W", 0x9E)
  const IINC: Opcode := Opcode("IINC", 0x5A)
  const IINC_W: Opcode := Opcode("IINC_W", 0x97)
  const IIPUSH: Opcode := Opcode("IIPUSH", 0x14)
  const ILOAD: Opcode := Opcode("ILOAD", 0x17)
  const ILOAD_0: Opcode := Opcode("ILOAD_0", 0x20)
  const ILOAD_1: Opcode := Opcode("ILOAD_1", 0x21)
  const ILOAD_2: Opcode := Opcode("ILOAD_2", 0x22)
  const ILOAD_3: Opcode := Opcode("ILOAD_3", 0x23)
  const ILOOKUPSWITCH: Opcode := Opcode("ILOOKUPSWITCH", 0x76)
  const INEG: Opcode := Opcode("INEG", 0x4C)
  const INSTANCEOF: Opcode := Opcode("INSTANCEOF", 0x95)
  const INVOKEINTERFACE: Opcode := Opcode("INVOKEINTERFACE", 0x8E)
  const INVOKESPECIAL: Opcode := Opcode("INVOKESPECIAL", 0x8C)
  const INVOKESTATIC: Opcode := Opcode("INVOKESTATIC", 0x8D)
  const INVOKEVIRTUAL: Opcode := Opcode("INVOKEVIRTUAL", 0x8B)
  const IOR: Opcode := Opcode("IOR", 0x56)
  const IREM: Opcode := Opcode("IREM", 0x4A)
  const IRETURN: Opcode := Opcode("IRETURN", 0x79)
  const ISHL: Opcode := Opcode("ISHL", 0x4E)
  const IMUL: Opcode := Opcode("IMUL", 0x46)
  const ISHR: Opcode := Opcode("ISHR", 0x50)
  const ISTORE: Opcode := Opcode("ISTORE", 0x2A)
  const ISTORE_0: Opcode := Opcode("ISTORE_0", 0x33)
  const ISTORE_1: Opcode := Opcode("ISTORE_1", 0x34)
  const ISTORE_2: Opcode := Opcode("ISTORE_2", 0x35)
  const ISTORE_3: Opcode := Opcode("ISTORE_3", 0x36)
  const ISUB: Opcode := Opcode("ISUB", 0x44)
  const ITABLESWITCH: Opcode := Opcode("ITABLESWITCH", 0x74)
  const IUSHR: Opcode := Opcode("IUSHR", 0x52)
  const IXOR: Opcode := Opcode("IXOR", 0x58)
  const JSR: Opcode := Opcode("JSR", 0x71)
  const NEW: Opcode := Opcode("NEW", 0x8F)
  const NEWARRAY: Opcode := Opcode("NEWARRAY", 0x90)
  const POP: Opcode := Opcode("POP", 0x3B)
  const POP2: Opcode := Opcode("POP2", 0x3C)
  const PUTFIELD_A: Opcode := Opcode("PUTFIELD_A", 0x87)
  const PUTFIELD_B: Opcode := Opcode("PUTFIELD_B", 0x88)
  const PUTFIELD_S: Opcode := Opcode("PUTFIELD_S", 0x89)
  const PUTFIELD_I: Opcode := Opcode("PUTFIELD_I", 0x8A)
  const PUTFIELD_A_THIS: Opcode := Opcode("PUTFIELD_A_THIS", 0xB5)
  const PUTFIELD_B_THIS: Opcode := Opcode("PUTFIELD_B_THIS", 0xB6)
  const PUTFIELD_S_THIS: Opcode := Opcode("PUTFIELD_S_THIS", 0xB7)
  const PUTFIELD_I_THIS: Opcode := Opcode("PUTFIELD_I_THIS", 0xB8)
  const PUTFIELD_A_W: Opcode := Opcode("PUTFIELD_A_W", 0xB1)
  const PUTFIELD_B_W: Opcode := Opcode("PUTFIELD_B_W", 0xB2)
  const PUTFIELD_S_W: Opcode := Opcode("PUTFIELD_S_W", 0xB3)
  const PUTFIELD_I_W: Opcode := Opcode("PUTFIELD_I_W", 0xB4)
  const PUTSTATIC_A: Opcode := Opcode("PUTSTATIC_A", 0x7F)
  const PUTSTATIC_B: Opcode := Opcode("PUTSTATIC_B", 0x80)
  const PUTSTATIC_S: Opcode := Opcode("PUTSTATIC_S", 0x81)
  const PUTSTATIC_I: Opcode := Opcode("PUTSTATIC_I", 0x82)
  const RET: Opcode := Opcode("RET", 0x72)
  const RETURN: Opcode := Opcode("RETURN", 0x7A)
  const S2B: Opcode := Opcode("S2B", 0x5B)
  const S2I: Opcode := Opcode("S2I", 0x5C)
  const SADD: Opcode := Opcode("SADD", 0x41)
  const SALOAD: Opcode := Opcode("SALOAD", 0x26)
  const SAND: Opcode := Opcode("SAND", 0x53)
  const SASTORE: Opcode := Opcode("SASTORE", 0x39)
  const SCONST_M1: Opcode := Opcode("SCONST_M1", 0x02)
  const SCONST_0: Opcode := Opcode("SCONST_0", 0x03)
  const SCONST_1: Opcode := Opcode("SCONST_1", 0x04)
  const SCONST_2: Opcode := Opcode("SCONST_2", 0x05)
  const SCONST_3: Opcode := Opcode("SCONST_3", 0x06)
  const SCONST_4: Opcode := Opcode("SCONST_4", 0x07)
  const SCONST_5: Opcode := Opcode("SCONST_5", 0x08)
  const SDIV: Opcode := Opcode("SDIV", 0x47)
  const SINC: Opcode := Opcode("SINC", 0x59)
  const SINC_W: Opcode := Opcode("SINC_W", 0x96)
  const SIPUSH: Opcode := Opcode("SIPUSH", 0x13)
  const SLOAD: Opcode := Opcode("SLOAD", 0x16)
  const SLOAD_0: Opcode := Opcode("SLOAD_0", 0x1C)
  const SLOAD_1: Opcode := Opcode("SLOAD_1", 0x1D)
  const SLOAD_2: Opcode := Opcode("SLOAD_2", 0x1E)
  const SLOAD_3: Opcode := Opcode("SLOAD_3", 0x1F)
  const SLOOKUPSWITCH: Opcode := Opcode("SLOOKUPSWITCH", 0x75)
  const SMUL: Opcode := Opcode("SMUL", 0x45)
  const SNEG: Opcode := Opcode("SNEG", 0x4B)
  const SOR: Opcode := Opcode("SOR", 0x55)
  const SREM: Opcode := Opcode("SREM", 0x49)
  const SRETURN: Opcode := Opcode("SRETURN", 0x78)
  const SSHL: Opcode := Opcode("SSHL", 0x4D)
  const SSHR: Opcode := Opcode("SSHR", 0x4F)
  const SSPUSH: Opcode := Opcode("SSPUSH", 0x11)
  const SSTORE: Opcode := Opcode("SSTORE", 0x29)
  const SSTORE_0: Opcode := Opcode("SSTORE_0", 0x2F)
  const SSTORE_1: Opcode := Opcode("SSTORE_1", 0x30)
  const SSTORE_2: Opcode := Opcode("SSTORE_2", 0x31)
  const SSTORE_3: Opcode := Opcode("SSTORE_3", 0x32)
  const SSUB: Opcode := Opcode("SSUB", 0x43)
  const STABLESWITCH: Opcode := Opcode("STABLESWITCH", 0x73)
  const SUSHR: Opcode := Opcode("SUSHR", 0x51)
  const SWAP_X: Opcode := Opcode("SWAP_X", 0x40)
  const SXOR: Opcode := Opcode("SXOR", 0x57)
  const IMPDEP1: Opcode := Opcode("IMPDEP1", 0xFE)
  const IMPDEP2: Opcode := Opcode("IMPDEP2", 0xFF)

  /** Every opcode of the table, in declaration order. */
  const All: seq<Opcode> := [
    NOP,
    AALOAD,
    AASTORE,
    ACONST_NULL,
    ALOAD,
    ALOAD_0,
    ALOAD_1,
    ALOAD_2,
    ALOAD_3,
    ANEWARRAY,
    ARETURN,
    ARRAYLENGTH,
    ASTORE,
    ASTORE_0,
    ASTORE_1,
    ASTORE_2,
    ASTORE_3,
    ATHROW,
    BALOAD,
    BASTORE,
    BIPUSH,
    BSPUSH,
    CHECKCAST,
    DUP,
    DUP_X,
    DUP2,
    GETFIELD_A,
    GETFIELD_B,
    GETFIELD_S,
    GETFIELD_I,
    GETFIELD_A_THIS,
    GETFIELD_B_THIS,
    GETFIELD_S_THIS,
    GETFIELD_I_THIS,
    GETFIELD_A_W,
    GETFIELD_B_W,
    GETFIELD_S_W,
    GETFIELD_I_W,
    GETSTATIC_A,
    GETSTATIC_B,
    GETSTATIC_S,
    GETSTATIC_I,
    GOTO,
    GOTO_W,
    I2B,
    I2S,
    IADD,
    IALOAD,
    IAND,
    IASTORE,
    ICMP,
    ICONST_M1,
    ICONST_0,
    ICONST_1,
    ICONST_2,
    ICONST_3,
    ICONST_4,
    ICONST_5,
    IDIV,
    IF_ACMPEQ,
    IF_ACMPNE,
    IF_ACMPEQ_W,
    IF_ACMPNE_W,
    IF_SCMPEQ,
    IF_SCMPNE,
    IF_SCMPLT,
    IF_SCMPGE,
    IF_SCMPGT,
    IF_SCMPLE,
    IF_SCMPEQ_W,
    IF_SCMPNE_W,
    IF_SCMPLT_W,
    IF_SCMPGE_W,
    IF_SCMPGT_W,
    IF_SCMPLE_W,
    IFEQ,
    IFNE,
    IFLT,
    IFGE,
    IFGT,
    IFLE,
    IFEQ_W,
    IFNE_W,
    IFLT_W,
    IFGE_W,
    IFGT_W,
    IFLE_W,
    IFNONNULL,
    IFNONNULL_W,
    IFNULL,
    IFNULL_W,
    IINC,
    IINC_W,
    IIPUSH,
    ILOAD,
    ILOAD_0,
    ILOAD_1,
    ILOAD_2,
    ILOAD_3,
    ILOOKUPSWITCH,
    INEG,
    INSTANCEOF,
    INVOKEINTERFACE,
    INVOKESPECIAL,
    INVOKESTATIC,
    INVOKEVIRTUAL,
    IOR,
    IREM,
    IRETURN,
    ISHL,
    IMUL,
    ISHR,
    ISTORE,
    ISTORE_0,
    ISTORE_1,
    ISTORE_2,
    ISTORE_3,
    ISUB,
    ITABLESWITCH,
    IUSHR,
    IXOR,
    JSR,
    NEW,
    NEWARRAY,
    POP,
    POP2,
    PUTFIELD_A,
    PUTFIELD_B,
    PUTFIELD_S,
    PUTFIELD_I,
    PUTFIELD_A_THIS,
    PUTFIELD_B_THIS,
    PUTFIELD_S_THIS,
    PUTFIELD_I_THIS,
    PUTFIELD_A_W,
    PUTFIELD_B_W,
    PUTFIELD_S_W,
    PUTFIELD_I_W,
    PUTSTATIC_A,
    PUTSTATIC_B,
    PUTSTATIC_S,
    PUTSTATIC_I,
    RET,
    RETURN,
    S2B,
    S2I,
    SADD,
    SALOAD,
    SAND,
    SASTORE,
    SCONST_M1,
    SCONST_0,
    SCONST_1,
    SCONST_2,
    SCONST_3,
    SCONST_4,
    SCONST_5,
    SDIV,
    SINC,
    SINC_W,
    SIPUSH,
    SLOAD,
    SLOAD_0,
    SLOAD_1,
    SLOAD_2,
    SLOAD_3,
    SLOOKUPSWITCH,
    SMUL,
    SNEG,
    SOR,
    SREM,
    SRETURN,
    SSHL,
    SSHR,
    SSPUSH,
    SSTORE,
    SSTORE_0,
    SSTORE_1,
    SSTORE_2,
    SSTORE_3,
    SSUB,
    STABLESWITCH,
    SUSHR,
    SWAP_X,
    SXOR,
    IMPDEP1,
    IMPDEP2
  ]

  /** The character Java's `toLowerCase` gives for an ASCII character. */
  function LowerChar(c: char): (r: char)
  {
    if 'A' <= c <= 'Z' then (c as int - 'A' as int + 'a' as int) as char else c
  }

  /** The character Java's `toUpperCase` gives for an ASCII character. */
  function UpperChar(c: char): (r: char)
  {
    if 'a' <= c <= 'z' then (c as int - 'a' as int + 'A' as int) as char else c
  }

  /** Java's `String.toLowerCase` on ASCII text. */
  function ToLower(s: string): (r: string)
    ensures |r| == |s|
    ensures forall i :: 0 <= i < |s| ==> r[i] == LowerChar(s[i])
  {
    seq(|s|, i requires 0 <= i < |s| => LowerChar(s[i]))
  }

  function ToUpper(s: string): (r: string)
    ensures |r| == |s|
    ensures forall i :: 0 <= i < |s| ==> r[i] == UpperChar(s[i])
  {
    seq(|s|, i requires 0 <= i < |s| => UpperChar(s[i]))
  }

  /** Opcode names are upper-case letters, digits and underscores. */
  predicate IsOpcodeName(s: string)
  {
    forall i :: 0 <= i < |s| ==> ('A' <= s[i] <= 'Z') || ('0' <= s[i] <= '9') || s[i] == '_'
  }

  /** `Instruction.toString`: the opcode's name in lower case. */
  function Mnemonic(op: Opcode): (r: string)
    ensures |r| == |op.name|
    ensures forall i :: 0 <= i < |r| ==> !('A' <= r[i] <= 'Z')
  {
    ToLower(op.name)
  }

  /** The mnemonic is the opcode name, so upper-casing it gives the name back. */
  lemma MnemonicRoundTrip(op: Opcode)
    requires IsOpcodeName(op.name)
    ensures ToUpper(Mnemonic(op)) == op.name
  {
  }
}
