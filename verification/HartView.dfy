/** The module as the hart sees it, by number: the formats of the instructions that the
    generator emits, and what stands at each offset of the window. */
module HartView {
  import opened Words
  import opened Numbers
  import opened Isa
  import MW = MemWindow
  import AC = AbstractCommand
  import CW = CommandWords

  // ---- Instruction formats ----

  lemma CutAt20(w: Word)
    ensures (w & 0xff_ffff) as int == (((w >> 20) & 0xf) as bv4) as int * 0x10_0000 + (w & 0xf_ffff) as int
  {
  }

  lemma CutAt15(w: Word)
    ensures (w & 0xf_ffff) as int == Rs1(w) as int * 0x8000 + (w & 0x7fff) as int
  {
  }

  lemma CutAt12(w: Word)
    ensures (w & 0x7fff) as int == Funct3(w) as int * 0x1000 + (w & 0xfff) as int
  {
  }

  lemma CutAt7(w: Word)
    ensures (w & 0xfff) as int == Rd(w) as int * 0x80 + (w & 0x7f) as int
  {
  }

  lemma TopLanes(w: Word)
    ensures ImmI(w) as int == Lane(w, 3) as int * 16 + (((w >> 20) & 0xf) as bv4) as int
  {
  }

  lemma CutTop(w: Word)
    ensures ImmI(w) as int == ((w >> 25) as bv7) as int * 32 + Rs2(w) as int
  {
  }

  // A word is its fields: an immediate or the two fields in its place, a register, the
  // minor operation, a register and the operation.
  lemma FieldsMakeInstruction(w: Word)
    ensures w as int == (w & 0x7f) as int + Rd(w) as int * 0x80 + Funct3(w) as int * 0x1000
                        + Rs1(w) as int * 0x8000 + ImmI(w) as int * 0x10_0000
    ensures ImmI(w) as int == ((w >> 25) as bv7) as int * 32 + Rs2(w) as int
  {
    TopLane(w);
    TopLanes(w);
    CutAt20(w);
    CutAt15(w);
    CutAt12(w);
    CutAt7(w);
    CutTop(w);
    hide Lane, Rs1, Rs2, Rd, Funct3, ImmI;
  }

  lemma IFields(imm: bv12, rs1: RegIndex, funct3: bv3, rd: RegIndex, opcode: Word)
    requires opcode < 0x80
    ensures IType(imm, rs1, funct3, rd, opcode) as int
            == opcode as int + rd as int * 0x80 + funct3 as int * 0x1000 + rs1 as int * 0x8000 + imm as int * 0x10_0000
  {
    ITypeFields(imm, rs1, funct3, rd, opcode);
    hide IType, Rs1, Rs2, Rd, Funct3, ImmI;
    FieldsMakeInstruction(IType(imm, rs1, funct3, rd, opcode));
  }

  lemma STypePlaces(imm: bv12, rs2: RegIndex, rs1: RegIndex, funct3: bv3, opcode: Word)
    requires opcode < 0x80
    ensures var w := SType(imm, rs2, rs1, funct3, opcode);
            Rd(w) == (imm & 0x1f) as RegIndex && (w >> 25) as bv7 == (imm >> 5) as bv7
  {
  }

  lemma ImmediateCut(imm: bv12)
    ensures imm as int == ((imm >> 5) as bv7) as int * 32 + ((imm & 0x1f) as RegIndex) as int
  {
  }

  lemma ImmediateParts(imm: bv12)
    ensures ((imm >> 5) as bv7) as int == imm as int / 32 && ((imm & 0x1f) as RegIndex) as int == imm as int % 32
  {
    ImmediateCut(imm);
    RegIndexRange((imm & 0x1f) as RegIndex);
    DivOf(((imm >> 5) as bv7) as int, 32, ((imm & 0x1f) as RegIndex) as int);
  }

  lemma RegIndexRange(r: RegIndex)
    ensures 0 <= r as int < 32
  {
  }

  lemma SFields(imm: bv12, rs2: RegIndex, rs1: RegIndex, funct3: bv3, opcode: Word)
    requires opcode < 0x80
    ensures SType(imm, rs2, rs1, funct3, opcode) as int
            == opcode as int + (imm as int % 32) * 0x80 + funct3 as int * 0x1000 + rs1 as int * 0x8000
               + rs2 as int * 0x10_0000 + (imm as int / 32) * 0x200_0000
  {
    STypeFields(imm, rs2, rs1, funct3, opcode);
    STypePlaces(imm, rs2, rs1, funct3, opcode);
    ImmediateParts(imm);
    hide SType, Rs1, Rs2, Rd, Funct3, ImmI, ImmS;
    FieldsMakeInstruction(SType(imm, rs2, rs1, funct3, opcode));
  }

  lemma ShiftAmount(shamt: bv6)
    ensures (shamt as bv12) as int == shamt as int
  {
  }

  lemma OperationCodes()
    ensures (0x03 as Word) as int == 0x03 && (0x07 as Word) as int == 0x07 && (0x23 as Word) as int == 0x23
    ensures (0x27 as Word) as int == 0x27 && (0x13 as Word) as int == 0x13 && (0x73 as Word) as int == 0x73
    ensures (0 as bv3) as int == 0 && (1 as bv3) as int == 1 && (2 as bv3) as int == 2 && (5 as bv3) as int == 5
    ensures (0 as RegIndex) as int == 0
  {
  }

  // The formats of loads and stores, for all operands; a store has the low five bits of
  // the offset where a load has its register.
  lemma MemoryFormats(size: bv3, r: RegIndex, base: RegIndex, offset: bv12)
    ensures var n := size as int * 0x1000 + base as int * 0x8000;
            var load := n + r as int * 0x80 + offset as int * 0x10_0000;
            var store := n + (offset as int % 32) * 0x80 + r as int * 0x10_0000 + (offset as int / 32) * 0x200_0000;
            && EncodeLoad(size, r, base, offset) as int == load + 0x03
            && EncodeFloatLoad(size, r, base, offset) as int == load + 0x07
            && EncodeStore(size, r, base, offset) as int == store + 0x23
            && EncodeFloatStore(size, r, base, offset) as int == store + 0x27
  {
    hide IType, SType;
    OperationCodes();
    IFields(offset, base, size, r, 0x03);
    IFields(offset, base, size, r, 0x07);
    SFields(offset, r, base, size, 0x23);
    SFields(offset, r, base, size, 0x27);
  }

  lemma IFormat(imm: bv12, rs1: RegIndex, funct3: bv3, rd: RegIndex, opcode: Word, minor: int, major: int)
    requires opcode < 0x80 && opcode as int == major && funct3 as int == minor
    ensures IType(imm, rs1, funct3, rd, opcode) as int
            == major + minor * 0x1000 + rd as int * 0x80 + rs1 as int * 0x8000 + imm as int * 0x10_0000
  {
    hide IType;
    IFields(imm, rs1, funct3, rd, opcode);
  }

  lemma CsrWriteFormat(csr: bv12, r: RegIndex)
    ensures EncodeCsrw(csr, r) as int == 0x1073 + r as int * 0x8000 + csr as int * 0x10_0000
  {
    hide IType;
    OperationCodes();
    IFormat(csr, r, 1, 0, 0x73, 1, 0x73);
  }

  lemma CsrReadFormat(csr: bv12, r: RegIndex)
    ensures EncodeCsrr(csr, r) as int == 0x2073 + r as int * 0x80 + csr as int * 0x10_0000
  {
    hide IType;
    OperationCodes();
    IFormat(csr, 0, 2, r, 0x73, 2, 0x73);
  }

  lemma LeftShiftFormat(rd: RegIndex, rs1: RegIndex, shamt: bv6)
    ensures EncodeSlli(rd, rs1, shamt) as int
            == 0x1013 + rd as int * 0x80 + rs1 as int * 0x8000 + shamt as int * 0x10_0000
  {
    hide IType;
    OperationCodes();
    ShiftAmount(shamt);
    IFormat(shamt as bv12, rs1, 1, rd, 0x13, 1, 0x13);
  }

  lemma RightShiftFormat(rd: RegIndex, rs1: RegIndex, shamt: bv6)
    ensures EncodeSrli(rd, rs1, shamt) as int
            == 0x5013 + rd as int * 0x80 + rs1 as int * 0x8000 + shamt as int * 0x10_0000
  {
    hide IType;
    OperationCodes();
    ShiftAmount(shamt);
    IFormat(shamt as bv12, rs1, 5, rd, 0x13, 5, 0x13);
  }

  // The jumps that stand at whereto: from offset 0x300 to the program buffer at 0x360, to
  // the generated code at 0x338, and to the resume entry of the ROM at 0x808.
  lemma WheretoByNumber(v: MW.View)
    ensures MW.FlatWord(v, 0x300)
            == if v.cmdbusy then
                 if v.cmd.cmdtype as int == 0 && !v.cmd.transfer && v.cmd.postexec then 0x0600_006f else 0x0380_006f
               else if v.resumereq then 0x5080_006f else 0
  {
    CW.TypeNumber(v.cmd.cmdtype);
  }

  // ---- The window ----

  lemma OffsetBack(off: bv12)
    ensures (off as int) as bv12 == off
  {
  }

  // What a hart reads at each offset: the ten words of code from 0x338 on, the program
  // buffer from 0x360, the data registers from 0x380, and GO and RESUME in bits 0 and 1
  // at 0x400.
  lemma CodeByNumber(v: MW.View, off: Offset, k: nat)
    requires k < 10 && off as int == 0x338 + 4 * k
    ensures MW.FlatWord(v, off) == AC.CodeWord(v.cmd, k)
  {
    hide AC.CodeWord;
    OffsetBack(off);
  }

  lemma ProgbufByNumber(v: MW.View, off: Offset, j: nat)
    requires j < 8 && off as int == 0x360 + 4 * j
    ensures MW.FlatWord(v, off) == v.progbuf[j]
  {
    OffsetBack(off);
  }

  lemma DataByNumber(v: MW.View, off: Offset, i: nat)
    requires i < 2 && off as int == 0x380 + 4 * i
    ensures MW.FlatWord(v, off) == v.data[i]
  {
    OffsetBack(off);
  }

  lemma FlagsByNumber(v: MW.View)
    ensures MW.FlatWord(v, 0x400) as int == Flag(v.go) + 2 * Flag(v.resume)
  {
  }

  // The addresses that the hart reports to.
  lemma ReportsByNumber(off: Offset)
    ensures MW.DecodeWrite(off) == match off as int
                                   case 0x100 => MW.WriteHalted
                                   case 0x108 => MW.WriteGoing
                                   case 0x110 => MW.WriteResuming
                                   case 0x118 => MW.WriteException
                                   case n => if 0x380 <= n < 0x388 then MW.WriteData else MW.NoStrobe
  {
    OffsetBack(off);
  }
}
