/** The debug ROM: the assembly listing with its labels, the image words the
    hardware holds, and the registered read port. */
module DebugRom {
  import opened Words
  import opened Isa

  // Offsets in the debug module's 4 KiB window.
  const HALTED: Offset := 0x100
  const GOING: Offset := 0x108
  const RESUMING: Offset := 0x110
  const EXCEPTION: Offset := 0x118
  const WHERETO: Offset := 0x300
  const ABSTRACT: Offset := 0x338
  const PROGBUF: Offset := 0x360
  const DATA: Offset := 0x380
  const FLAGS: Offset := 0x400
  const ROM: Offset := 0x800

  // Labels of the listing.
  const ENTRY: Offset := 0x800
  const RESUME: Offset := 0x808
  const EXCEPTION_VECTOR: Offset := 0x810
  const ENTRY_BODY: Offset := 0x818
  const ENTRY_LOOP: Offset := 0x830
  const EXCEPTION_BODY: Offset := 0x860
  const GOING_BODY: Offset := 0x87c
  const RESUME_BODY: Offset := 0x88c

  function Goto(target: Offset, here: Offset): Instr { Jal(0, (target as Word) - (here as Word)) }

  function Nop(): Instr { Addi(0, 0, 0) }

  // The listing, routine by routine.

  function Vectors(off: Offset): Instr
  {
    match off
    case 0x800 => Goto(ENTRY_BODY, off)
    case 0x808 => Goto(RESUME_BODY, off)
    case 0x810 => Goto(EXCEPTION_BODY, off)
    case _ => Nop()
  }

  // _entry: save s0 and a0, compute the base of the window.
  function EntryCode(off: Offset): Instr
  {
    match off
    case 0x818 => Fence
    case 0x81c => Csrrw(CSR_DSCRATCH0, 0, S0)
    case 0x820 => Csrrw(CSR_DSCRATCH1, 0, A0)
    case 0x824 => Auipc(A0, 0)
    case 0x828 => Srli(A0, A0, 12)
    case _ => Slli(A0, A0, 12)
  }

  // entry_loop: report halted, then poll the GO flag.
  function PollGoCode(off: Offset): Instr
  {
    match off
    case 0x830 => Csrrs(CSR_MHARTID, S0, 0)
    case 0x834 => Store(2, S0, A0, HALTED as Word)
    case 0x838 => Add(S0, S0, A0)
    case 0x83c => Load(4, S0, S0, FLAGS as Word)
    case 0x840 => Andi(S0, S0, 1)
    case _ => Branch(1, S0, 0, (GOING_BODY as Word) - (off as Word))
  }

  // The second half of entry_loop polls the RESUME flag.
  function PollResumeCode(off: Offset): Instr
  {
    match off
    case 0x848 => Csrrs(CSR_MHARTID, S0, 0)
    case 0x84c => Add(S0, S0, A0)
    case 0x850 => Load(4, S0, S0, FLAGS as Word)
    case 0x854 => Andi(S0, S0, 2)
    case 0x858 => Branch(1, S0, 0, (RESUME as Word) - (off as Word))
    case _ => Goto(ENTRY_LOOP, off)
  }

  function ExceptionCode(off: Offset): Instr
  {
    match off
    case 0x860 => Auipc(A0, 0)
    case 0x864 => Srli(A0, A0, 12)
    case 0x868 => Slli(A0, A0, 12)
    case 0x86c => Store(2, 0, A0, EXCEPTION as Word)
    case 0x870 => Csrrs(CSR_DSCRATCH1, A0, 0)
    case 0x874 => Csrrs(CSR_DSCRATCH0, S0, 0)
    case _ => Ebreak
  }

  function GoingCode(off: Offset): Instr
  {
    match off
    case 0x87c => Store(2, 0, A0, GOING as Word)
    case 0x880 => Csrrs(CSR_DSCRATCH1, A0, 0)
    case 0x884 => Csrrs(CSR_DSCRATCH0, S0, 0)
    case _ => Goto(WHERETO, off)
  }

  function ResumeCode(off: Offset): Instr
  {
    match off
    case 0x88c => Csrrs(CSR_MHARTID, S0, 0)
    case 0x890 => Store(2, S0, A0, RESUMING as Word)
    case 0x894 => Csrrs(CSR_DSCRATCH1, A0, 0)
    case 0x898 => Csrrs(CSR_DSCRATCH0, S0, 0)
    case _ => Dret
  }

  // The instruction that the assembly source places at a window offset.
  function Listing(off: Offset): Instr
  {
    if off < 0x818 then Vectors(off)
    else if off < 0x830 then EntryCode(off)
    else if off < 0x848 then PollGoCode(off)
    else if off < 0x860 then PollResumeCode(off)
    else if off < 0x87c then ExceptionCode(off)
    else if off < 0x88c then GoingCode(off)
    else ResumeCode(off)
  }

  // The image: each entry as its upper and lower 32-bit words, and zero past the
  // last entry, as the output mux has it.

  function Entries0(addr: bv5): (Word, Word)
  {
    match addr
    case 0 => (0x00000013, 0x0180006f)
    case 1 => (0x00000013, 0x0840006f)
    case 2 => (0x00000013, 0x0500006f)
    case 3 => (0x7b241073, 0x0ff0000f)
    case 4 => (0x00000517, 0x7b351073)
    case _ => (0, 0)
  }

  function Entries5(addr: bv5): (Word, Word)
  {
    match addr
    case 5 => (0x00c51513, 0x00c55513)
    case 6 => (0x10852023, 0xf1402473)
    case 7 => (0x40044403, 0x00a40433)
    case 8 => (0x02041c63, 0x00147413)
    case 9 => (0x00a40433, 0xf1402473)
    case _ => (0, 0)
  }

  function Entries10(addr: bv5): (Word, Word)
  {
    match addr
    case 10 => (0x00247413, 0x40044403)
    case 11 => (0xfd5ff06f, 0xfa0418e3)
    case 12 => (0x00c55513, 0x00000517)
    case 13 => (0x10052c23, 0x00c51513)
    case 14 => (0x7b202473, 0x7b302573)
    case _ => (0, 0)
  }

  function Entries15(addr: bv5): (Word, Word)
  {
    match addr
    case 15 => (0x10052423, 0x00100073)
    case 16 => (0x7b202473, 0x7b302573)
    case 17 => (0xf1402473, 0xa79ff06f)
    case 18 => (0x7b302573, 0x10852823)
    case 19 => (0x7b200073, 0x7b202473)
    case _ => (0, 0)
  }

  function Entry(addr: bv5): (Word, Word)
  {
    if addr < 5 then Entries0(addr)
    else if addr < 10 then Entries5(addr)
    else if addr < 15 then Entries10(addr)
    else Entries15(addr)
  }

  // The 32-bit word at an offset of the ROM page; addresses alias every 256 bytes.
  function RomWord(off: Offset): Word
  {
    var e := Entry(((off >> 3) & 0x1f) as bv5);
    if off & 4 != 0 then e.0 else e.1
  }

  lemma VectorsImage(off: Offset)
    requires 0x800 <= off < 0x818 && off & 3 == 0
    ensures Decode(RomWord(off)) == Vectors(off)
  {
    match off
    case 0x800 =>
    case 0x804 =>
    case 0x808 =>
    case 0x80c =>
    case 0x810 =>
    case 0x814 =>
    case _ =>
  }

  lemma EntryImage(off: Offset)
    requires 0x818 <= off < 0x830 && off & 3 == 0
    ensures Decode(RomWord(off)) == EntryCode(off)
  {
    match off
    case 0x818 =>
    case 0x81c =>
    case 0x820 =>
    case 0x824 =>
    case 0x828 =>
    case 0x82c =>
    case _ =>
  }

  lemma PollGoImage(off: Offset)
    requires 0x830 <= off < 0x848 && off & 3 == 0
    ensures Decode(RomWord(off)) == PollGoCode(off)
  {
    match off
    case 0x830 =>
    case 0x834 =>
    case 0x838 =>
    case 0x83c =>
    case 0x840 =>
    case 0x844 =>
    case _ =>
  }

  lemma PollResumeImage(off: Offset)
    requires 0x848 <= off < 0x860 && off & 3 == 0
    ensures Decode(RomWord(off)) == PollResumeCode(off)
  {
    match off
    case 0x848 =>
    case 0x84c =>
    case 0x850 =>
    case 0x854 =>
    case 0x858 =>
    case 0x85c =>
    case _ =>
  }

  lemma ExceptionImage(off: Offset)
    requires 0x860 <= off < 0x87c && off & 3 == 0
    ensures Decode(RomWord(off)) == ExceptionCode(off)
  {
    match off
    case 0x860 =>
    case 0x864 =>
    case 0x868 =>
    case 0x86c =>
    case 0x870 =>
    case 0x874 =>
    case 0x878 =>
    case _ =>
  }

  lemma GoingImage(off: Offset)
    requires 0x87c <= off < 0x88c && off & 3 == 0
    ensures Decode(RomWord(off)) == GoingCode(off)
  {
    match off
    case 0x87c =>
    case 0x880 =>
    case 0x884 =>
    case 0x888 =>
    case _ =>
  }

  lemma ResumeImage(off: Offset)
    requires 0x88c <= off < 0x8a0 && off & 3 == 0
    ensures Decode(RomWord(off)) == ResumeCode(off)
  {
    match off
    case 0x88c =>
    case 0x890 =>
    case 0x894 =>
    case 0x898 =>
    case 0x89c =>
    case _ =>
  }

  // Every image word decodes to the instruction of the listing at its address,
  // branch and jump targets included.
  lemma ImageIsListing(off: Offset)
    requires 0x800 <= off < 0x8a0 && off & 3 == 0
    ensures Decode(RomWord(off)) == Listing(off)
  {
    if off < 0x818 { VectorsImage(off); }
    else if off < 0x830 { EntryImage(off); }
    else if off < 0x848 { PollGoImage(off); }
    else if off < 0x860 { PollResumeImage(off); }
    else if off < 0x87c { ExceptionImage(off); }
    else if off < 0x88c { GoingImage(off); }
    else { ResumeImage(off); }
  }

  /** The ROM with its registered address. */
  class Rom {
    var addrQ: bv5

    constructor ()
      ensures addrQ == 0
    {
      addrQ := 0;
    }

    function Rdata(): (Word, Word)
      reads this
    {
      Entry(addrQ)
    }

    method Clock(req: bool, addr: Word)
      modifies this
      ensures addrQ == if req then ((addr >> 3) & 0x1f) as bv5 else old(addrQ)
    {
      var addrD := if req then ((addr >> 3) & 0x1f) as bv5 else addrQ;
      addrQ := addrD;
    }
  }
}
