/** DM_ControlUnit3 and DM_Mem: the window of the debug module that the hart
    fetches, loads and stores through. */
module MemWindow {
  import opened Words
  import opened Isa
  import opened Dmi
  import opened DebugRom
  import AC = AbstractCommand
  import CR = ControlRegs

  datatype BusRequest = BusRequest(req: bool, we: bool, addr: Word, be: Lanes, wdata: Word)

  // The strobes of the address decoder. At most one is set.
  datatype Strobe =
    | NoStrobe
    | WriteHalted | WriteGoing | WriteResuming | WriteException | WriteData
    | ReadWhereto | ReadData | ReadProgbuf | ReadAbstract | ReadFlags

  function DecodeWrite(off: Offset): Strobe
  {
    if off == HALTED then WriteHalted
    else if off == GOING then WriteGoing
    else if off == RESUMING then WriteResuming
    else if off == EXCEPTION then WriteException
    else if DATA <= off <= DATA + 7 then WriteData
    else NoStrobe
  }

  function DecodeRead(off: Offset): Strobe
  {
    if off == WHERETO then ReadWhereto
    else if DATA <= off <= DATA + 7 then ReadData
    else if PROGBUF <= off < DATA then ReadProgbuf
    else if ABSTRACT <= off < PROGBUF then ReadAbstract
    else if FLAGS <= off <= 0x7ff then ReadFlags
    else NoStrobe
  }

  function DecodeBus(b: BusRequest): Strobe
  {
    if !b.req then NoStrobe
    else if b.we then DecodeWrite(OffsetOf(b.addr))
    else DecodeRead(OffsetOf(b.addr))
  }

  // What the memory side sees of the rest of the module in one cycle.
  datatype View = View(
    cmdbusy: bool, go: bool, resume: bool, resumereq: bool,
    cmd: AC.Command, data: CR.Data, progbuf: CR.Progbuf)

  // ---- Stores to the data registers ----

  predicate SelectsData(addr: Word, dc: DataIndex)
  {
    ((addr >> 2) & 0x3ff) - 0xe0 == (if dc == 0 then 0 else 1)
  }

  // The data registers after a store: byte enables apply to the addressed word.
  function Stored(data: CR.Data, addr: Word, be: Lanes, wdata: Word): (d: CR.Data)
  {
    [if SelectsData(addr, 0) then Merge(data[0], wdata, be) else data[0],
     if SelectsData(addr, 1) then Merge(data[1], wdata, be) else data[1]]
  }

  // ---- The halted and resuming flags ----

  function NextHalted(halted: bool, st: Strobe, ndmreset: bool): bool
  {
    !ndmreset && (st == WriteHalted || (halted && st != WriteResuming))
  }

  function NextResuming(resuming: bool, st: Strobe, ndmreset: bool, clearAck: bool): bool
  {
    !ndmreset && !clearAck && (st == WriteResuming || resuming)
  }

  // ---- Loads and fetches ----

  // The jump the hart finds at the whereto address.
  function WheretoWord(v: View): Word
  {
    if v.cmdbusy then
      if v.cmd.cmdtype == AC.ACCESS_REGISTER && !v.cmd.transfer && v.cmd.postexec then EncodeJal(0, 0x60)
      else EncodeJal(0, 0x38)
    else if v.resumereq then EncodeJal(0, 0x508)
    else 0
  }

  function FlagByte(v: View): Word
  {
    (if v.resume then 2 else 0) | (if v.go then 1 else 0)
  }

  // The 64-bit read multiplexer, upper half first; without a read strobe the
  // register keeps its value.
  function ReadMux(v: View, st: Strobe, addr: Word, held: (Word, Word)): (Word, Word)
  {
    match st
    case ReadWhereto => (0, WheretoWord(v))
    case ReadData => (v.data[1], v.data[0])
    case ReadProgbuf =>
      var i := ((((addr >> 3) & 0x1ff) - 0x6c) & 3) as int;
      (v.progbuf[2 * i + 1], v.progbuf[2 * i])
    case ReadAbstract =>
      var i := ((((addr >> 3) & 0x1ff) - 0x67) & 7) as int;
      (AC.CodeWord(v.cmd, 2 * i + 1), AC.CodeWord(v.cmd, 2 * i))
    case ReadFlags => (0, if OffsetOf(addr) & 0xff8 == FLAGS then FlagByte(v) else 0)
    case _ => held
  }

  // The registers of the read path; `romAddr` is the one inside the ROM.
  datatype ReadPath = ReadPath(rdata: (Word, Word), fwdRom: bool, upper: bool, romAddr: bv5)

  function NextPath(p: ReadPath, v: View, b: BusRequest): ReadPath
  {
    ReadPath(ReadMux(v, DecodeBus(b), b.addr, p.rdata),
             OffsetOf(b.addr) >= ROM,
             b.addr & 4 != 0,
             if b.req then ((b.addr >> 3) & 0x1f) as bv5 else p.romAddr)
  }

  // The word on the read bus, from the registers alone.
  function Rdata(p: ReadPath): Word
  {
    var mux := if p.fwdRom then Entry(p.romAddr) else p.rdata;
    if p.upper then mux.0 else mux.1
  }

  // ---- The window as a flat memory of words ----

  // The offsets that hold something: whereto, generated code, program buffer,
  // data registers, flags and ROM.
  predicate Mapped(off: Offset)
  {
    off & 3 == 0 && (off == WHERETO || ABSTRACT <= off <= DATA + 4 || FLAGS <= off)
  }

  function CodeIndex(off: Offset): (k: nat)
    ensures k < 16
  {
    (((off - ABSTRACT) >> 2) & 0xf) as int
  }

  function FlatWord(v: View, off: Offset): Word
  {
    if off >= ROM then RomWord(off)
    else if off >= FLAGS then (if off == FLAGS then FlagByte(v) else 0)
    else if off >= DATA then v.data[if off == DATA then 0 else 1]
    else if off >= PROGBUF then v.progbuf[(((off - PROGBUF) >> 2) & 7) as int]
    else if off >= ABSTRACT then AC.CodeWord(v.cmd, CodeIndex(off))
    else WheretoWord(v)
  }

  // Entry i and half h of a 64-bit table hold word 2i + h.
  lemma SplitIndex(j: bv4)
    ensures ((j & 0xf) as int) == 2 * ((j >> 1) as int) + (if j & 1 != 0 then 1 else 0)
  {
    var k := j as int;
    match j
    case 0 => case 1 => case 2 => case 3 => case 4 => case 5 => case 6 => case 7 =>
    case 8 => case 9 => case 10 => case 11 => case 12 => case 13 => case 14 => case _ =>
  }

  // One cycle after a word-aligned read, the read bus carries the word of the
  // flat memory, whatever the read path held before.
  lemma ReadReturnsFlatWord(p: ReadPath, v: View, b: BusRequest)
    requires b.req && !b.we && Mapped(OffsetOf(b.addr))
    ensures Rdata(NextPath(p, v, b)) == FlatWord(v, OffsetOf(b.addr))
  {
    hide AC.CodeWord;
    var off := OffsetOf(b.addr);
    if PROGBUF <= off < DATA {
      SplitIndex((((off - PROGBUF) >> 2) & 7) as bv4);
    } else if ABSTRACT <= off < PROGBUF {
      SplitIndex((((off - ABSTRACT) >> 2) & 0xf) as bv4);
    }
  }

  // The byte of the flat memory at any offset of a mapped word.
  function FlatByte(v: View, off: Offset): Byte
  {
    Lane(FlatWord(v, off & 0xffc), LaneOf(off))
  }

  function LaneOf(off: Offset): (i: nat)
    ensures i < 4
  {
    (off & 3) as int
  }

  // A store to the data registers is a byte-enabled update of the flat memory: the
  // enabled bytes of the addressed word change, and no other byte does.
  lemma StoreUpdatesFlatBytes(v: View, b: BusRequest, off: Offset)
    requires DecodeBus(b) == WriteData && Mapped(off & 0xffc)
    ensures var v' := v.(data := Stored(v.data, b.addr, b.be, b.wdata));
            FlatByte(v', off) == if off & 0xffc == OffsetOf(b.addr) & 0xffc && b.be[LaneOf(off)] then
              Lane(b.wdata, LaneOf(off))
                                 else FlatByte(v, off)
  {
    hide AC.CodeWord, RomWord;
    var w := off & 0xffc;
    if w == DATA {
      assert SelectsData(b.addr, 0) <==> OffsetOf(b.addr) & 0xffc == DATA;
    } else if w == DATA + 4 {
      assert SelectsData(b.addr, 1) <==> OffsetOf(b.addr) & 0xffc == DATA + 4;
    }
  }

  /** DM_Mem: its registers, the store loops and the ROM it instantiates. */
  class DebugMemory {
    var halted: bool
    var resuming: bool
    var rdata: (Word, Word)
    var fwdRom: bool
    var upper: bool
    const rom: Rom

    function Path(): ReadPath
      reads this, rom
    {
      ReadPath(rdata, fwdRom, upper, rom.addrQ)
    }

    constructor ()
      ensures !halted && !resuming && Path() == ReadPath((0, 0), false, false, 0)
      ensures fresh(rom)
    {
      halted, resuming, rdata, fwdRom, upper := false, false, (0, 0), false, false;
      rom := new Rom();
    }

    // The word on the read bus towards the hart.
    method Output() returns (w: Word)
      ensures w == Rdata(Path())
    {
      var r := rom.Rdata();
      var mux := if fwdRom then r else rdata;
      w := if upper then mux.0 else mux.1;
    }

    // The nested loops over data registers and byte enables.
    static method StoreBytes(data: CR.Data, addr: Word, be: Lanes, wdata: Word) returns (bits: CR.Data)
      ensures bits == Stored(data, addr, be, wdata)
    {
      bits := data;
      for dc := 0 to 2
        invariant forall j | 0 <= j < 2 :: bits[j] == if j < dc && SelectsData(addr, j) then Merge(data[j], wdata, be)
                  else data[j]
      {
        if SelectsData(addr, dc) {
          var w := data[dc];
          for i := 0 to 4
            invariant forall j: nat | j < 4 :: Lane(w, j) == if j < i && be[j] then Lane(wdata, j)
                      else Lane(data[dc], j)
          {
            if be[i] {
              w := SetLane(w, i, Lane(wdata, i));
            }
          }
          SameLanes(w, Merge(data[dc], wdata, be));
          bits := bits[dc := w];
        }
      }
    }

    method ClockFlags(st: Strobe, ndmreset: bool, clearAck: bool)
      modifies this`halted, this`resuming
      ensures halted == NextHalted(old(halted), st, ndmreset)
      ensures resuming == NextResuming(old(resuming), st, ndmreset, clearAck)
    {
      var haltedD, resumingD := halted, resuming;
      match st {
        case WriteHalted => haltedD := true;
        case WriteResuming => haltedD, resumingD := false, true;
        case _ =>
      }
      if ndmreset {
        haltedD, resumingD := false, false;
      }
      if clearAck {
        resumingD := false;
      }
      halted, resuming := haltedD, resumingD;
    }

    method ClockPath(v: View, b: BusRequest)
      modifies this`rdata, this`fwdRom, this`upper, rom
      ensures Path() == NextPath(old(Path()), v, b)
    {
      hide ReadMux, DecodeBus;
      rdata := ReadMux(v, DecodeBus(b), b.addr, rdata);
      fwdRom, upper := OffsetOf(b.addr) >= ROM, b.addr & 4 != 0;
      rom.Clock(b.req, b.addr);
    }

    method Clock(v: View, b: BusRequest, ndmreset: bool, clearAck: bool) returns (stored: Option<CR.Data>)
      modifies this, rom
      ensures halted == NextHalted(old(halted), DecodeBus(b), ndmreset)
      ensures resuming == NextResuming(old(resuming), DecodeBus(b), ndmreset, clearAck)
      ensures Path() == NextPath(old(Path()), v, b)
      ensures stored == if DecodeBus(b) == WriteData then Some(Stored(v.data, b.addr, b.be, b.wdata)) else None
    {
      hide DecodeBus, Stored, NextPath, NextHalted, NextResuming;
      stored := None;
      if DecodeBus(b) == WriteData {
        var bits := StoreBytes(v.data, b.addr, b.be, b.wdata);
        stored := Some(bits);
      }
      ClockFlags(DecodeBus(b), ndmreset, clearAck);
      ClockPath(v, b);
    }
  }
}
