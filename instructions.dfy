/** The RISC-V U-type encoder (instructions.c), following section 2.2 of
    the RISC-V Unprivileged ISA (base instruction formats): `imm[31:12]`,
    `rd` in bits 11 to 7, the opcode in bits 6 to 0. */
module Instructions {
  import Compile

  /** The fields of `struct utype`, each held in 32 bits (the width the
      source computes in once `rd` is shifted); the asserts below bound
      `opcode` to 7 bits and `rd` to 5. */
  datatype Utype = Utype(opcode: bv32, rd: bv32, imm: bv32)

  /** The asserts of `utype_instruction`: a 7-bit opcode whose low two
      bits are `11` and whose bits 4 to 2 are not `111` (the 32-bit
      instruction-length rule of section 1.5 of the Unprivileged ISA), a
      5-bit `rd`, and an immediate with its low 12 bits clear. */
  predicate WellFormed(u: Utype)
  {
    u.opcode < 0x80 && u.opcode & 0x3 == 0x3 && u.opcode & 0x1C != 0x1C
    && u.rd < 0x20 && u.imm & 0xFFF == 0
  }

  /** `utype_instruction`: the fields or-ed into their positions. Each
      field reads back from its bit range, and the word is a 32-bit-length
      encoding. */
  function UtypeInstruction(u: Utype): (val: bv32)
    requires WellFormed(u)
    ensures val & 0x7F == u.opcode
    ensures (val >> 7) & 0x1F == u.rd
    ensures val & 0xFFFF_F000 == u.imm
    ensures val & 0x3 == 0x3 && val & 0x1C != 0x1C
  {
    var val: bv32 := 0;
    var val := val | u.opcode;
    var val := val | (u.rd << 7);
    val | u.imm
  }

  /** The fields of a U-type word. */
  function Decode(val: bv32): (u: Utype)
  {
    Utype(val & 0x7F, (val >> 7) & 0x1F, val & 0xFFFF_F000)
  }

  /** Encoding then decoding gives back the fields. */
  lemma DecodeEncode(u: Utype)
    requires WellFormed(u)
    ensures Decode(UtypeInstruction(u)) == u
  {
  }

  /** Decoding a U-type word and encoding it again gives back the word. */
  lemma EncodeDecode(val: bv32)
    requires val & 0x3 == 0x3 && val & 0x1C != 0x1C
    ensures WellFormed(Decode(val)) && UtypeInstruction(Decode(val)) == val
  {
  }

  /** `lui a1, 0x100` encodes to the bytes `B7 05 10 00`. */
  lemma LuiA1Example()
    ensures WellFormed(Utype(0x37, 11, 0x0010_0000))
    ensures UtypeInstruction(Utype(0x37, 11, 0x0010_0000)) == 0x0010_05B7
    ensures Compile.Le32(UtypeInstruction(Utype(0x37, 11, 0x0010_0000)) as int) == [0xB7, 0x05, 0x10, 0x00]
  {
  }
}
