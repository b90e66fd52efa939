/** The instruction encoders of DM_Pkg and a decoder for the RV32 words that the
    debug ROM and the abstract-command generator put in front of the hart. */
module Isa {
  import opened Words

  const CSR_DCSR: bv12 := 0x7b0
  const CSR_DPC: bv12 := 0x7b1
  const CSR_DSCRATCH0: bv12 := 0x7b2
  const CSR_DSCRATCH1: bv12 := 0x7b3
  const CSR_MHARTID: bv12 := 0xf14

  const S0: RegIndex := 8
  const A0: RegIndex := 10

  // ---- Encoders ----

  function EncodeJal(rd: RegIndex, imm: bv21): (w: Word)
  {
    JType(imm, rd, 0x6f)
  }

  // {imm[20], imm[10:1], imm[11], imm[19:12], rd, opcode}
  function JType(imm: bv21, rd: RegIndex, opcode: Word): (w: Word)
  {
    (((imm >> 20) as Word) << 31) | (((imm >> 1) as Word & 0x3ff) << 21) | (((imm >> 11) as Word & 1) << 20)
    | (((imm >> 12) as Word & 0xff) << 12) | ((rd as Word) << 7) | opcode
  }

  // {offset[11], offset[9:4], src2, src1, funct3, offset[3:0], offset[10], opcode}
  function EncodeBranch(src2: RegIndex, src1: RegIndex, funct3: bv3, offset: bv12): (w: Word)
  {
    (((offset >> 11) as Word) << 31) | (((offset >> 4) as Word & 0x3f) << 25) | ((src2 as Word) << 20)
    | ((src1 as Word) << 15) | ((funct3 as Word) << 12) | ((offset as Word & 0xf) << 8)
    | (((offset >> 10) as Word & 1) << 7) | 0x63
  }

  // {imm[11:0], rs1, funct3, rd, opcode}
  function IType(imm: bv12, rs1: RegIndex, funct3: bv3, rd: RegIndex, opcode: Word): (w: Word)
  {
    ((imm as Word) << 20) | ((rs1 as Word) << 15) | ((funct3 as Word) << 12) | ((rd as Word) << 7) | opcode
  }

  // {imm[11:5], rs2, rs1, funct3, imm[4:0], opcode}
  function SType(imm: bv12, rs2: RegIndex, rs1: RegIndex, funct3: bv3, opcode: Word): (w: Word)
  {
    (((imm >> 5) as Word) << 25) | ((rs2 as Word) << 20) | ((rs1 as Word) << 15) | ((funct3 as Word) << 12)
    | ((imm as Word & 0x1f) << 7) | opcode
  }

  function EncodeLoad(size: bv3, dest: RegIndex, base: RegIndex, offset: bv12): (w: Word)
  {
    IType(offset, base, size, dest, 0x03)
  }

  function EncodeFloatLoad(size: bv3, dest: RegIndex, base: RegIndex, offset: bv12): (w: Word)
  {
    IType(offset, base, size, dest, 0x07)
  }

  function EncodeStore(size: bv3, src: RegIndex, base: RegIndex, offset: bv12): (w: Word)
  {
    SType(offset, src, base, size, 0x23)
  }

  function EncodeFloatStore(size: bv3, src: RegIndex, base: RegIndex, offset: bv12): (w: Word)
  {
    SType(offset, src, base, size, 0x27)
  }

  function EncodeSlli(rd: RegIndex, rs1: RegIndex, shamt: bv6): (w: Word)
  {
    IType(shamt as bv12, rs1, 1, rd, 0x13)
  }

  function EncodeSrli(rd: RegIndex, rs1: RegIndex, shamt: bv6): (w: Word)
  {
    IType(shamt as bv12, rs1, 5, rd, 0x13)
  }

  // The package builds auipc with the bit order of a jal immediate.
  function EncodeAuipc(rd: RegIndex, imm: bv21): (w: Word)
  {
    JType(imm, rd, 0x17)
  }

  function EncodeCsrw(csr: bv12, rs1: RegIndex): (w: Word)
  {
    IType(csr, rs1, 1, 0, 0x73)
  }

  function EncodeCsrr(csr: bv12, dest: RegIndex): (w: Word)
  {
    IType(csr, 0, 2, dest, 0x73)
  }

  const EBREAK: Word := 0x0010_0073
  const NOP: Word := 0x0000_0013
  const ILLEGAL: Word := 0

  // ---- Decoded instructions; offsets and immediates are sign-extended ----

  datatype Instr =
    | Jal(rd: RegIndex, offset: Word)
    | Branch(funct3: bv3, rs1: RegIndex, rs2: RegIndex, offset: Word)
    | Load(funct3: bv3, rd: RegIndex, rs1: RegIndex, offset: Word)
    | FloatLoad(funct3: bv3, rd: RegIndex, rs1: RegIndex, offset: Word)
    | Store(funct3: bv3, rs2: RegIndex, rs1: RegIndex, offset: Word)
    | FloatStore(funct3: bv3, rs2: RegIndex, rs1: RegIndex, offset: Word)
    | Addi(rd: RegIndex, rs1: RegIndex, imm: Word)
    | Andi(rd: RegIndex, rs1: RegIndex, imm: Word)
    | Slli(rd: RegIndex, rs1: RegIndex, shamt: bv5)
    | Srli(rd: RegIndex, rs1: RegIndex, shamt: bv5)
    | Add(rd: RegIndex, rs1: RegIndex, rs2: RegIndex)
    | Auipc(rd: RegIndex, imm: Word)
    | Csrrw(csr: bv12, rd: RegIndex, rs1: RegIndex)
    | Csrrs(csr: bv12, rd: RegIndex, rs1: RegIndex)
    | Fence
    | Ebreak
    | Dret
    | Illegal

  // Two's complement extension of 12-, 13- and 21-bit immediates.
  function Extend12(x: bv12): Word { if x & 0x800 == 0 then x as Word else x as Word | 0xffff_f000 }
  function Extend13(x: bv13): Word { if x & 0x1000 == 0 then x as Word else x as Word | 0xffff_e000 }
  function Extend21(x: bv21): Word { if x & 0x10_0000 == 0 then x as Word else x as Word | 0xffe0_0000 }

  function Rd(w: Word): RegIndex { ((w >> 7) & 0x1f) as RegIndex }
  function Rs1(w: Word): RegIndex { ((w >> 15) & 0x1f) as RegIndex }
  function Rs2(w: Word): RegIndex { ((w >> 20) & 0x1f) as RegIndex }
  function Funct3(w: Word): bv3 { ((w >> 12) & 7) as bv3 }
  function ImmI(w: Word): bv12 { (w >> 20) as bv12 }
  function ImmS(w: Word): bv12 { (((w >> 25) << 5) | ((w >> 7) & 0x1f)) as bv12 }

  function ImmB(w: Word): bv13 {
    (((w >> 31) << 12) | (((w >> 7) & 1) << 11) | (((w >> 25) & 0x3f) << 5) | (((w >> 8) & 0xf) << 1)) as bv13
  }

  function ImmJ(w: Word): bv21 {
    (((w >> 31) << 20) | (((w >> 12) & 0xff) << 12) | (((w >> 20) & 1) << 11) | (((w >> 21) & 0x3ff) << 1)) as bv21
  }

  function DecodeSystem(w: Word): Instr
  {
    if w == EBREAK then Ebreak
    else if w == 0x7b20_0073 then Dret
    else if Funct3(w) == 1 then Csrrw(ImmI(w), Rd(w), Rs1(w))
    else if Funct3(w) == 2 then Csrrs(ImmI(w), Rd(w), Rs1(w))
    else Illegal
  }

  // A shift amount of 32 or more is illegal on RV32.
  function DecodeOpImm(w: Word): Instr
  {
    match Funct3(w)
    case 0 => Addi(Rd(w), Rs1(w), Extend12(ImmI(w)))
    case 7 => Andi(Rd(w), Rs1(w), Extend12(ImmI(w)))
    case 1 => if ImmI(w) < 32 then Slli(Rd(w), Rs1(w), Rs2(w)) else Illegal
    case 5 => if ImmI(w) < 32 then Srli(Rd(w), Rs1(w), Rs2(w)) else Illegal
    case _ => Illegal
  }

  function Decode(w: Word): (i: Instr)
  {
    match w & 0x7f
    case 0x6f => Jal(Rd(w), Extend21(ImmJ(w)))
    case 0x63 => Branch(Funct3(w), Rs1(w), Rs2(w), Extend13(ImmB(w)))
    case 0x03 => Load(Funct3(w), Rd(w), Rs1(w), Extend12(ImmI(w)))
    case 0x07 => FloatLoad(Funct3(w), Rd(w), Rs1(w), Extend12(ImmI(w)))
    case 0x23 => Store(Funct3(w), Rs2(w), Rs1(w), Extend12(ImmS(w)))
    case 0x27 => FloatStore(Funct3(w), Rs2(w), Rs1(w), Extend12(ImmS(w)))
    case 0x13 => DecodeOpImm(w)
    case 0x33 => if Funct3(w) == 0 && w >> 25 == 0 then Add(Rd(w), Rs1(w), Rs2(w)) else Illegal
    case 0x17 => Auipc(Rd(w), w & 0xffff_f000)
    case 0x73 => DecodeSystem(w)
    case 0x0f => if Funct3(w) == 0 then Fence else Illegal
    case _ => Illegal
  }

  // ---- Round trips ----

  // Bit 0 of a jump offset has no place in the word; every even offset comes back.
  lemma JalRoundTrip(rd: RegIndex, imm: bv21)
    ensures Decode(EncodeJal(rd, imm)) == Jal(rd, Extend21(imm & 0x1f_fffe))
  {
    assert EncodeJal(rd, imm) & 0x7f == 0x6f;
  }

  // The immediate of the auipc encoder is scrambled: it is the intended zero
  // exactly when no bit above bit 0 is set, which is how the generator uses it.
  lemma AuipcRoundTrip(rd: RegIndex, imm: bv21)
    ensures Decode(EncodeAuipc(rd, imm)).Auipc? && Decode(EncodeAuipc(rd, imm)).rd == rd
    ensures Decode(EncodeAuipc(rd, imm)).imm == 0 <==> imm < 2
  {
    assert EncodeAuipc(rd, imm) & 0x7f == 0x17;
  }

  // The argument counts halfwords: bits 12:1 of the byte offset.
  lemma BranchRoundTrip(src2: RegIndex, src1: RegIndex, funct3: bv3, offset: bv12)
    ensures Decode(EncodeBranch(src2, src1, funct3, offset))
            == Branch(funct3, src1, src2, Extend13(offset as bv13 << 1))
  {
    assert EncodeBranch(src2, src1, funct3, offset) & 0x7f == 0x63;
  }

  // The fields of an I-type word come back as they went in.
  lemma ITypeFields(imm: bv12, rs1: RegIndex, funct3: bv3, rd: RegIndex, opcode: Word)
    requires opcode < 0x80
    ensures var w := IType(imm, rs1, funct3, rd, opcode);
            w & 0x7f == opcode && Rd(w) == rd && Funct3(w) == funct3 && Rs1(w) == rs1 && ImmI(w) == imm
            && Rs2(w) == (imm & 0x1f) as RegIndex
  {
  }

  lemma STypeFields(imm: bv12, rs2: RegIndex, rs1: RegIndex, funct3: bv3, opcode: Word)
    requires opcode < 0x80
    ensures var w := SType(imm, rs2, rs1, funct3, opcode);
            w & 0x7f == opcode && Rs2(w) == rs2 && Funct3(w) == funct3 && Rs1(w) == rs1 && ImmS(w) == imm
  {
  }

  lemma LoadRoundTrip(size: bv3, dest: RegIndex, base: RegIndex, offset: bv12)
    ensures Decode(EncodeLoad(size, dest, base, offset)) == Load(size, dest, base, Extend12(offset))
    ensures Decode(EncodeFloatLoad(size, dest, base, offset)) == FloatLoad(size, dest, base, Extend12(offset))
  {
    ITypeFields(offset, base, size, dest, 0x03);
    ITypeFields(offset, base, size, dest, 0x07);
  }

  lemma StoreRoundTrip(size: bv3, src: RegIndex, base: RegIndex, offset: bv12)
    ensures Decode(EncodeStore(size, src, base, offset)) == Store(size, src, base, Extend12(offset))
    ensures Decode(EncodeFloatStore(size, src, base, offset)) == FloatStore(size, src, base, Extend12(offset))
  {
    STypeFields(offset, src, base, size, 0x23);
    STypeFields(offset, src, base, size, 0x27);
  }

  // The encoder accepts six-bit shift amounts; RV32 executes only those below 32.
  lemma ShiftRoundTrip(rd: RegIndex, rs1: RegIndex, shamt: bv6)
    ensures Decode(EncodeSlli(rd, rs1, shamt)) == if shamt < 32 then Slli(rd, rs1, shamt as bv12 as bv5) else Illegal
    ensures Decode(EncodeSrli(rd, rs1, shamt)) == if shamt < 32 then Srli(rd, rs1, shamt as bv12 as bv5) else Illegal
  {
    ITypeFields(shamt as bv12, rs1, 1, rd, 0x13);
    ITypeFields(shamt as bv12, rs1, 5, rd, 0x13);
  }

  lemma CsrRoundTrip(csr: bv12, r: RegIndex)
    ensures Decode(EncodeCsrw(csr, r)) == Csrrw(csr, 0, r)
    ensures Decode(EncodeCsrr(csr, r)) == Csrrs(csr, r, 0)
  {
    ITypeFields(csr, r, 1, 0, 0x73);
    ITypeFields(csr, 0, 2, r, 0x73);
  }
}
