/** A small RV32 hart in debug mode: it executes the instructions the debug
    module feeds it, one bus transaction at a time. */
module Hart {
  import opened Words
  import opened Isa
  import opened DebugRom
  import MW = MemWindow

  // Running: executing user code. Parked: executing the debug module's own code.
  // Program: executing the program buffer, which may be any code at all.
  datatype Mode = Running | Parked | Program

  // `ir` is an instruction fetched and not yet executed. Implemented CSRs are the
  // keys of `csr`; `fpu` says whether the floating-point registers exist.
  datatype Hart = Hart(mode: Mode, pc: Pc, ir: Option<Word>, gpr: RegFile, fpr: RegFile, fpu: bool, csr: map<int, Word>)

  // The program counter, as the number of a 4 KiB page and an offset in it.
  datatype Pc = Pc(page: Page, off: Offset)

  function Addr(p: Pc): Word { PageBase(p.page) | (p.off as Word) }

  function PcOf(a: Word): Pc { Pc((a >> 12) as Page, OffsetOf(a)) }

  // pc + delta, as the hart's adder computes it on addresses.
  function PcAdd(p: Pc, delta: Word): Pc { PcOf(Sum(Addr(p), delta)) }

  lemma AddressRoundTrip(a: Word)
    ensures Addr(PcOf(a)) == a
  {
  }

  lemma PcAddIsAddition(p: Pc, delta: Word)
    ensures Addr(PcAdd(p, delta)) == Sum(Addr(p), delta)
  {
    hide Addr, PcOf, Sum;
    AddressRoundTrip(Sum(Addr(p), delta));
  }

  const DSCRATCH0: int := 0x7b2
  const DSCRATCH1: int := 0x7b3
  const MHARTID: int := 0xf14

  // The adder and shifter of the hart.
  function Sum(a: Word, b: Word): Word { a + b }
  function ShiftLeft(a: Word, n: bv5): Word { a << n }
  function ShiftRight(a: Word, n: bv5): Word { a >> n }
  function BitAnd(a: Word, b: Word): Word { a & b }

  // beq, bne, blt, bge, bltu and bgeu; the signed ones compare with the sign flipped.
  predicate Taken(funct3: bv3, a: Word, b: Word)
  {
    match funct3
    case 0 => a == b
    case 1 => a != b
    case 4 => a ^ 0x8000_0000 < b ^ 0x8000_0000
    case 5 => a ^ 0x8000_0000 >= b ^ 0x8000_0000
    case 6 => a < b
    case _ => a >= b
  }

  // CSR numbers whose top two bits are set are read-only.
  predicate ReadOnlyCsr(a: bv12) { a >> 10 == 3 }

  function CsrOr0(csr: map<int, Word>, a: int): Word
  {
    if a in csr then csr[a] else 0
  }

  predicate Misaligned(addr: Word, funct3: bv3)
  {
    (funct3 & 3 == 1 && addr & 1 != 0) || (funct3 & 3 == 2 && addr & 3 != 0)
  }

  function Address(h: Hart, rs1: RegIndex, offset: Word): Word { Sum(Get(h.gpr, rs1), offset) }

  // The instructions that raise an exception instead of completing.
  predicate Faults(h: Hart, i: Instr)
  {
    match i
    case Illegal => true
    case Branch(f3, _, _, _) => f3 == 2 || f3 == 3
    case Csrrw(a, _, _) => a as int !in h.csr || ReadOnlyCsr(a)
    case Csrrs(a, _, rs1) => a as int !in h.csr || (rs1 != 0 && ReadOnlyCsr(a))
    case Load(f3, _, rs1, off) => f3 == 3 || f3 > 5 || Misaligned(Address(h, rs1, off), f3)
    case Store(f3, _, rs1, off) => f3 > 2 || Misaligned(Address(h, rs1, off), f3)
    case FloatLoad(f3, _, rs1, off) => !h.fpu || f3 != 2 || Misaligned(Address(h, rs1, off), f3)
    case FloatStore(f3, _, rs1, off) => !h.fpu || f3 != 2 || Misaligned(Address(h, rs1, off), f3)
    case _ => false
  }

  // Store data moves to the lanes its address selects.
  function ToLanes(w: Word, at: bv2): Word
  {
    match at
    case 0 => w
    case 1 => w << 8
    case 2 => w << 16
    case _ => w << 24
  }

  function FromLane(w: Word, at: bv2): Word
  {
    match at
    case 0 => w
    case 1 => w >> 8
    case 2 => w >> 16
    case _ => w >> 24
  }

  function At(addr: Word): bv2 { (addr & 3) as bv2 }

  const QUIET: MW.BusRequest := MW.BusRequest(false, false, 0, [false, false, false, false], 0)

  function ReadOf(addr: Word): MW.BusRequest { MW.BusRequest(true, false, addr, [true, true, true, true], 0) }

  function WriteOf(addr: Word, size: bv3, w: Word): MW.BusRequest
  {
    MW.BusRequest(true, true, addr, AccessLanes(size, At(addr)), ToLanes(w, At(addr)))
  }

  // The data access an instruction makes.
  function DataAccess(h: Hart, i: Instr): MW.BusRequest
  {
    if Faults(h, i) then QUIET
    else match i
      case Load(_, _, rs1, off) => ReadOf(Address(h, rs1, off))
      case FloatLoad(_, _, rs1, off) => ReadOf(Address(h, rs1, off))
      case Store(f3, rs2, rs1, off) => WriteOf(Address(h, rs1, off), f3, Get(h.gpr, rs2))
      case FloatStore(f3, rs2, rs1, off) => WriteOf(Address(h, rs1, off), f3, h.fpr[rs2 as int])
      case _ => QUIET
  }

  // The register value a load makes of the word it got.
  function Loaded(f3: bv3, word: Word, at: bv2): Word
  {
    var w := FromLane(word, at);
    if f3 == 4 then w & 0xff else if f3 == 5 then w & 0xffff else SignExtend(w, f3)
  }

  function Advance(h: Hart): Hart { h.(pc := PcAdd(h.pc, 4), ir := None) }

  function WriteGpr(h: Hart, rd: RegIndex, v: Word): Hart { Advance(h).(gpr := Set(h.gpr, rd, v)) }

  function Jump(h: Hart, target: Pc): Hart { h.(pc := target, ir := None) }

  function WriteCsr(h: Hart, a: int, v: Word): Hart { h.(csr := h.csr[a := v]) }

  // One instruction, given the page of the debug module and the word its load got.
  function Execute(h: Hart, i: Instr, page: Page, word: Word): (h': Hart)
    ensures h'.fpu == h.fpu
  {
    if Faults(h, i) then Jump(h, Pc(page, EXCEPTION_VECTOR))
    else match i
      case Jal(rd, off) => Jump(h.(gpr := Set(h.gpr, rd, Sum(Addr(h.pc), 4))), PcAdd(h.pc, off))
      case Branch(f3, rs1, rs2, off) =>
        if Taken(f3, Get(h.gpr, rs1), Get(h.gpr, rs2)) then Jump(h, PcAdd(h.pc, off)) else Advance(h)
      case Load(f3, rd, rs1, off) => WriteGpr(h, rd, Loaded(f3, word, At(Address(h, rs1, off))))
      case FloatLoad(_, rd, _, _) => Advance(h).(fpr := h.fpr[rd as int := word])
      case Addi(rd, rs1, imm) => WriteGpr(h, rd, Sum(Get(h.gpr, rs1), imm))
      case Andi(rd, rs1, imm) => WriteGpr(h, rd, BitAnd(Get(h.gpr, rs1), imm))
      case Slli(rd, rs1, n) => WriteGpr(h, rd, ShiftLeft(Get(h.gpr, rs1), n))
      case Srli(rd, rs1, n) => WriteGpr(h, rd, ShiftRight(Get(h.gpr, rs1), n))
      case Add(rd, rs1, rs2) => WriteGpr(h, rd, Sum(Get(h.gpr, rs1), Get(h.gpr, rs2)))
      case Auipc(rd, imm) => WriteGpr(h, rd, Sum(Addr(h.pc), imm))
      case Csrrw(a, rd, rs1) => WriteCsr(WriteGpr(h, rd, CsrOr0(h.csr, a as int)), a as int, Get(h.gpr, rs1))
      case Csrrs(a, rd, rs1) =>
        var v := CsrOr0(h.csr, a as int);
        if rs1 == 0 then WriteGpr(h, rd, v)
        else WriteCsr(WriteGpr(h, rd, v), a as int, v | Get(h.gpr, rs1))
      case Ebreak => Jump(h, Pc(page, ENTRY))
      case Dret => Jump(h, PcOf(CsrOr0(h.csr, CSR_DPC as int))).(mode := Running)
      case _ => Advance(h)
  }
}
