/** The module as a debugger sees it: requests by address and operation number, and
    replies by what they say of earlier requests, for the module alone. */
module DmiView {
  import opened Words
  import opened Numbers
  import opened Dmi
  import F = CommandFsm
  import DC = DmiControl
  import CR = ControlRegs
  import MW = MemWindow
  import DM = DebugModule

  // The registers that carry data: data0 and data1 from address 4, the program buffer
  // from address 0x20.
  datatype Slot = D(i: DataIndex) | P(j: ProgbufIndex)

  function SlotAddress(t: Slot): bv7
  {
    match t
    case D(i) => if i == 0 then 0x04 else 0x05
    case P(j) =>
      match j
      case 0 => 0x20
      case 1 => 0x21
      case 2 => 0x22
      case 3 => 0x23
      case 4 => 0x24
      case 5 => 0x25
      case 6 => 0x26
      case _ => 0x27
  }

  lemma SlotDecodes(t: Slot)
    ensures RegisterAt(SlotAddress(t)) == match t case D(i) => Data(i) case P(j) => Progbuf(j)
  {
    match t
    case D(_) =>
    case P(j) => ProgbufDecodes(j);
  }

  lemma ProgbufDecodes(j: ProgbufIndex)
    ensures RegisterAt(SlotAddress(P(j))) == Progbuf(j)
  {
    match j
    case 0 => case 1 => case 2 => case 3 => case 4 => case 5 => case 6 => case _ =>
  }

  // ---- Data registers and program buffer ----

  function Content(d: DM.Dm, t: Slot): Word { match t case D(i) => d.regs.data[i] case P(j) => d.regs.progbuf[j] }

  // What a read of a slot brings back.
  function Shown(d: DM.Dm, t: Slot, other: Response): Response { DM.Respond(d, ReadAt(SlotAddress(t)), other) }

  lemma ShownIsContent(d: DM.Dm, t: Slot, other: Response)
    ensures Shown(d, t, other) == Response(Content(d, t), if DM.Busy(d) then 3 else 0)
  {
    SlotDecodes(t);
    hide RegisterAt;
  }

  // While the module is idle, a written slot reads back what was written, and every
  // other slot what it read before.
  lemma WriteIsShown(d: DM.Dm, t: Slot, v: Word, b: MW.BusRequest, other: Response)
    requires d.regs.dmactive && !DM.Busy(d) && MW.DecodeBus(b) != MW.WriteData
    ensures var d' := DM.Next(d, Some(WriteAt(SlotAddress(t), v)), b);
            && Shown(d', t, other) == Response(v, if DM.Busy(d') then 3 else 0)
            && forall o: Slot | o != t :: Shown(d', o, other).data == Shown(d, o, other).data
  {
    hide RegisterAt, SlotAddress, MW.DecodeBus, DM.Next, Shown;
    var req := Some(WriteAt(SlotAddress(t), v));
    SlotDecodes(t);
    NextSlots(d, req, b);
    var d' := DM.Next(d, req, b);
    ShownIsContent(d', t, other);
    forall o: Slot | o != t
      ensures Shown(d', o, other).data == Shown(d, o, other).data
    {
      ShownIsContent(d', o, other);
      ShownIsContent(d, o, other);
    }
  }

  lemma NextSlots(d: DM.Dm, req: Option<Request>, b: MW.BusRequest)
    requires d.regs.dmactive && MW.DecodeBus(b) != MW.WriteData
    ensures var d', w := DM.Next(d, req, b), req.Some? && Writes(req.value) && !DM.Busy(d);
            && d'.regs.data
               == (if w && req.value.reg.Data? then d.regs.data[req.value.reg.i := req.value.data] else d.regs.data)
            && d'.regs.progbuf == (if w && req.value.reg.Progbuf? then d.regs.progbuf[req.value.reg.j := req.value.data]
                                   else d.regs.progbuf)
            && d'.regs.dmactive == (WritesTo(req, DmControl) ==> CR.DmactiveField(req.value.data))
  {
    hide MW.DecodeBus, MW.Stored, MW.NextPath, F.Next, F.Out, DC.Next, CR.Next, CR.Written, CR.DmactiveField;
    CR.BusyGating(d.regs, DM.Busy(d), req, DM.StoredData(d, b), d.resuming);
  }

  // ---- Over any number of cycles ----

  datatype Cycle = Cycle(req: Option<Request>, bus: MW.BusRequest)

  function Run(d: DM.Dm, cs: seq<Cycle>): DM.Dm
    decreases |cs|
  {
    if cs == [] then d else Run(DM.Next(d, cs[0].req, cs[0].bus), cs[1..])
  }

  // Cycles in which neither the hart nor the debugger writes the slot, and the debugger
  // keeps the module active.
  predicate Leaves(cs: seq<Cycle>, t: Slot)
  {
    forall k | 0 <= k < |cs| ::
      && MW.DecodeBus(cs[k].bus) != MW.WriteData
      && (cs[k].req.Some? && cs[k].req.value.op == 2 ==>
            && cs[k].req.value.reg != RegisterAt(SlotAddress(t))
            && (cs[k].req.value.reg == RegisterAt(0x10) ==> Bit(cs[k].req.value.data as int, 1)))
  }

  lemma ControlBits(w: Word)
    ensures CR.HaltreqField(w) <==> Bit(w as int, 0x8000_0000)
    ensures CR.ResumereqField(w) <==> Bit(w as int, 0x4000_0000)
    ensures CR.NdmresetField(w) <==> Bit(w as int, 2)
    ensures CR.DmactiveField(w) <==> Bit(w as int, 1)
  {
    ControlMasks(w);
    hide CR.HaltreqField, CR.ResumereqField, CR.NdmresetField, CR.DmactiveField, WordBits, Power, Bit;
    EndBits(w);
  }

  lemma EndBits(w: Word)
    ensures WordBits(w)[31] <==> Bit(w as int, 0x8000_0000)
    ensures WordBits(w)[30] <==> Bit(w as int, 0x4000_0000)
    ensures WordBits(w)[1] <==> Bit(w as int, 2)
    ensures WordBits(w)[0] <==> Bit(w as int, 1)
  {
    hide WordBits, Power, Bit;
    Powers();
    WordBit(w, 31);
    WordBit(w, 30);
    WordBit(w, 1);
    WordBit(w, 0);
  }

  lemma ControlMasks(w: Word)
    ensures CR.HaltreqField(w) <==> WordBits(w)[31]
    ensures CR.ResumereqField(w) <==> WordBits(w)[30]
    ensures CR.NdmresetField(w) <==> WordBits(w)[1]
    ensures CR.DmactiveField(w) <==> WordBits(w)[0]
  {
    BitOfLane(w, 3, 7);
    BitOfLane(w, 3, 6);
    BitOfLane(w, 0, 1);
    BitOfLane(w, 0, 0);
    hide WordBits;
  }

  lemma CycleLeaves(d: DM.Dm, c: Cycle, t: Slot, other: Response)
    requires d.regs.dmactive && Leaves([c], t)
    ensures var d' := DM.Next(d, c.req, c.bus);
            d'.regs.dmactive && Shown(d', t, other).data == Shown(d, t, other).data
  {
    hide SlotAddress, MW.DecodeBus, DM.Next, Shown, CR.DmactiveField, Bit;
    assert [c][0] == c;
    SlotDecodes(t);
    NextSlots(d, c.req, c.bus);
    if c.req.Some? { ControlBits(c.req.value.data); }
    ShownIsContent(d, t, other);
    ShownIsContent(DM.Next(d, c.req, c.bus), t, other);
  }

  // So a slot reads back the last word that was written to it, however much later.
  lemma {:induction false} ShownStays(d: DM.Dm, cs: seq<Cycle>, t: Slot, other: Response)
    requires d.regs.dmactive && Leaves(cs, t)
    ensures Shown(Run(d, cs), t, other).data == Shown(d, t, other).data
    decreases |cs|
  {
    hide MW.DecodeBus, DM.Next, Shown, SlotAddress, RegisterAt, Bit;
    if cs != [] {
      assert [cs[0]][0] == cs[0];
      CycleLeaves(d, cs[0], t, other);
      assert forall k | 0 <= k < |cs[1..]| :: cs[1..][k] == cs[k + 1];
      ShownStays(DM.Next(d, cs[0].req, cs[0].bus), cs[1..], t, other);
    }
  }

  lemma ReadsBackLastWrite(d: DM.Dm, t: Slot, v: Word, b: MW.BusRequest, cs: seq<Cycle>, other: Response)
    requires d.regs.dmactive && !DM.Busy(d) && MW.DecodeBus(b) != MW.WriteData && Leaves(cs, t)
    ensures var e := Run(DM.Next(d, Some(WriteAt(SlotAddress(t), v)), b), cs);
            Shown(e, t, other) == Response(v, if DM.Busy(e) then 3 else 0)
  {
    hide MW.DecodeBus, DM.Next, Shown, SlotAddress, RegisterAt, Leaves;
    var req := Some(WriteAt(SlotAddress(t), v));
    SlotDecodes(t);
    NextSlots(d, req, b);
    WriteIsShown(d, t, v, b, other);
    ShownStays(DM.Next(d, req, b), cs, t, other);
    ShownIsContent(Run(DM.Next(d, req, b), cs), t, other);
  }

  // ---- Accesses to a busy module ----

  // Those that are refused: any access to a slot, and a write of abstractcs, command or
  // abstractauto.
  ghost predicate Guarded(r: Request)
  {
    || ((r.op == 1 || r.op == 2) && exists t: Slot :: r.reg == RegisterAt(SlotAddress(t)))
    || (r.op == 2 && (r.reg == RegisterAt(0x16) || r.reg == RegisterAt(0x17) || r.reg == RegisterAt(0x18)))
  }

  lemma GuardedNeedsIdle(r: Request)
    ensures Guarded(r) <==> NeedsIdle(r)
  {
    if r.reg.Data? { SlotDecodes(D(r.reg.i)); }
    if r.reg.Progbuf? { SlotDecodes(P(r.reg.j)); }
    if t: Slot :| r.reg == RegisterAt(SlotAddress(t)) { SlotDecodes(t); }
    hide SlotAddress;
  }

  // While the module is busy they are answered with status 3, change no register, and
  // set cmderr to 1 if it is 0. While it is idle they are answered with status 0.
  lemma BusyRefuses(d: DM.Dm, r: Request, b: MW.BusRequest, other: Response)
    requires d.regs.dmactive && Guarded(r)
    ensures DM.Respond(d, r, other).resp == if DM.Busy(d) then 3 else 0
    ensures DM.Busy(d) && MW.DecodeBus(b) != MW.WriteData ==>
              var n := DM.Next(d, Some(r), b).regs;
              n.data == d.regs.data && n.progbuf == d.regs.progbuf && n.command == d.regs.command
                && n.autoData == d.regs.autoData
    ensures DM.Busy(d) && d.dmi.cmderr == 0 ==> DM.Next(d, Some(r), b).dmi == DC.Regs(1, false)
  {
    hide MW.DecodeBus, MW.Stored, MW.NextPath, F.Next, F.Out, CR.Next, CR.Written, CR.DmactiveField, Guarded;
    hide RegisterAt;
    GuardedNeedsIdle(r);
    CR.BusyGating(d.regs, DM.Busy(d), Some(r), DM.StoredData(d, b), d.resuming);
  }

  // ---- The control and status registers ----

  // dmcontrol takes haltreq, resumereq, ndmreset and dmactive from bits 31, 30, 1 and 0,
  // except that an acknowledged resumereq is dropped.
  lemma ControlWritten(d: DM.Dm, w: Word, b: MW.BusRequest)
    requires d.regs.dmactive
    ensures var n, r := w as int, DM.Next(d, Some(WriteAt(0x10, w)), b).regs;
            && (r.haltreq <==> Bit(n, 0x8000_0000)) && (r.ndmreset <==> Bit(n, 2)) && (r.dmactive <==> Bit(n, 1))
            && (r.resumereq <==> Bit(n, 0x4000_0000) && !(d.regs.resumereq && d.resuming))
  {
    hide MW.DecodeBus, MW.Stored, MW.NextPath, F.Next, F.Out, CR.Next, CR.Written, DC.Next, Bit;
    hide CR.HaltreqField, CR.ResumereqField, CR.NdmresetField, CR.DmactiveField;
    var req := Some(WriteAt(0x10, w));
    CR.BusyGating(d.regs, DM.Busy(d), req, DM.StoredData(d, b), d.resuming);
    CR.RequestBits(d.regs, DM.Busy(d), req, DM.StoredData(d, b), d.resuming);
    ControlBits(w);
  }

  lemma ControlLanes(s: CR.Regs)
    ensures var w := CR.ControlWord(s);
            && Lane(w, 3) as int == 128 * Flag(s.haltreq) + 64 * Flag(s.resumereq) && Lane(w, 2) as int == 0
            && Lane(w, 0) as int == 2 * Flag(s.ndmreset) + Flag(s.dmactive) && Lane(w, 1) as int == 0
  {
    var w := CR.ControlWord(s);
    ByteIsBits(Lane(w, 3));
    ByteIsBits(Lane(w, 2));
    ByteIsBits(Lane(w, 1));
    ByteIsBits(Lane(w, 0));
  }

  // And a read shows the four bits in these places, and nothing else.
  lemma ControlShown(d: DM.Dm, other: Response)
    ensures var r := DM.Respond(d, ReadAt(0x10), other);
            && r.resp == 0
            && r.data as int == Flag(d.regs.haltreq) * 0x8000_0000 + Flag(d.regs.resumereq) * 0x4000_0000
                                + Flag(d.regs.ndmreset) * 2 + Flag(d.regs.dmactive)
  {
    ControlLanes(d.regs);
    WordIsLanes(CR.ControlWord(d.regs));
    hide CR.ControlWord, Lane;
  }

  lemma StatusLanes(e: bv3)
    ensures var w := CR.StatusWord(e); Lane(w, 0) == 2 && Lane(w, 1) == e as Byte && Lane(w, 2) == 0 && Lane(w, 3) == 8
    ensures (e as Byte) as int == e as int
  {
  }

  lemma SmallBytes()
    ensures (0 as Byte) as int == 0 && (2 as Byte) as int == 2 && (8 as Byte) as int == 8
  {
  }

  // abstractcs shows two data registers, eight program-buffer words, and cmderr from
  // bit 8.
  lemma StatusShown(d: DM.Dm, other: Response)
    ensures var r := DM.Respond(d, ReadAt(0x16), other);
            r.resp == 0 && r.data as int == 2 + 0x100 * (d.dmi.cmderr as int) + 8 * 0x100_0000
  {
    StatusLanes(d.dmi.cmderr);
    SmallBytes();
    WordIsLanes(CR.StatusWord(d.dmi.cmderr));
    hide CR.StatusWord, Lane;
  }

  lemma ErrorBits(e: bv3)
    ensures Bit(e as int, 1) <==> e & 1 != 0
    ensures Bit(e as int, 2) <==> e & 2 != 0
    ensures Bit(e as int, 4) <==> e & 4 != 0
  {
    match e
    case 0 => case 1 => case 2 => case 3 => case 4 => case 5 => case 6 => case _ =>
  }

  lemma ClearMasks(w: Word, e: bv3)
    ensures var e' := !DC.ClearField(w) & e;
            && (e' & 1 != 0 <==> e & 1 != 0 && !WordBits(w)[8])
            && (e' & 2 != 0 <==> e & 2 != 0 && !WordBits(w)[9])
            && (e' & 4 != 0 <==> e & 4 != 0 && !WordBits(w)[10])
  {
  }

  // Writing ones to bits 8 to 10 of abstractcs clears these bits of cmderr and no other.
  lemma StatusCleared(d: DM.Dm, w: Word, b: MW.BusRequest)
    requires !DM.Busy(d)
    ensures var n, e, e' := w as int, d.dmi.cmderr as int, DM.Next(d, Some(WriteAt(0x16, w)), b).dmi.cmderr as int;
            && (Bit(e', 1) <==> Bit(e, 1) && !Bit(n, 0x100))
            && (Bit(e', 2) <==> Bit(e, 2) && !Bit(n, 0x200))
            && (Bit(e', 4) <==> Bit(e, 4) && !Bit(n, 0x400))
  {
    hide MW.DecodeBus, MW.Stored, MW.NextPath, F.Next, F.Out, CR.Next, CR.Written, Bit, DC.ClearField, WordBits, Power;
    ErrorBits(d.dmi.cmderr);
    ErrorBits(!DC.ClearField(w) & d.dmi.cmderr);
    ClearMasks(w, d.dmi.cmderr);
    WordBit(w, 8);
    WordBit(w, 9);
    WordBit(w, 10);
    Powers();
  }

  lemma AutoLanes(w: Word)
    ensures var a := CR.AutoWord(CR.ResetRegs().(autoData := CR.AutoDataField(w), autoProg := CR.AutoProgField(w)));
            Lane(a, 0) == Lane(w, 0) & 3 && Lane(a, 1) == 0 && Lane(a, 2) == Lane(w, 2) && Lane(a, 3) == 0
  {
  }

  lemma LowTwo(b: Byte)
    ensures (b & 3) as int == (b as int) % 4
  {
    ByteIsBits(b);
    ByteIsBits(b & 3);
  }

  lemma AutoNumber(w: Word, s: CR.Regs)
    requires s.autoData == CR.AutoDataField(w) && s.autoProg == CR.AutoProgField(w)
    ensures CR.AutoWord(s) as int == (w as int) % 4 + ((w as int / 0x1_0000) % 0x100) * 0x1_0000
  {
    AutoDigits(w);
    assert CR.AutoWord(s)
      == CR.AutoWord(CR.ResetRegs().(autoData := CR.AutoDataField(w), autoProg := CR.AutoProgField(w)));
    hide CR.AutoWord, CR.AutoDataField, CR.AutoProgField, Digit;
    WordIsDigits(CR.AutoWord(s));
    WordIsDigits(w);
    AutoSum(w as int, Digit(w, 0), Digit(w, 1), Digit(w, 2), Digit(w, 3));
  }

  lemma AutoDigits(w: Word)
    ensures var a := CR.AutoWord(CR.ResetRegs().(autoData := CR.AutoDataField(w), autoProg := CR.AutoProgField(w)));
            Digit(a, 0) == Digit(w, 0) % 4 && Digit(a, 1) == 0 && Digit(a, 2) == Digit(w, 2) && Digit(a, 3) == 0
  {
    AutoLanes(w);
    SmallBytes();
    LowTwo(Lane(w, 0));
    hide Lane, CR.AutoWord, CR.AutoDataField, CR.AutoProgField;
  }

  lemma AutoSum(n: int, b0: int, b1: int, b2: int, b3: int)
    requires 0 <= b0 < 256 && 0 <= b1 < 256 && 0 <= b2 < 256 && 0 <= b3 < 256
    requires n == b0 + b1 * 0x100 + b2 * 0x1_0000 + b3 * 0x100_0000
    ensures n % 4 == b0 % 4 && (n / 0x1_0000) % 0x100 == b2
  {
    PartOf(n, 0x1_0000, 0x100, b3, b2, b0 + b1 * 0x100);
  }

  // abstractauto reads back the bits that exist: 0 and 1, and 16 to 23.
  lemma AutoShown(d: DM.Dm, w: Word, b: MW.BusRequest, other: Response)
    requires d.regs.dmactive && !DM.Busy(d)
    ensures var r := DM.Respond(DM.Next(d, Some(WriteAt(0x18, w)), b), ReadAt(0x18), other);
            r.resp == 0 && r.data as int == (w as int) % 4 + ((w as int / 0x1_0000) % 0x100) * 0x1_0000
  {
    hide MW.DecodeBus, MW.Stored, MW.NextPath, F.Next, F.Out, DC.Next, CR.AutoWord, CR.AutoDataField, CR.AutoProgField;
    AutoNumber(w, DM.Next(d, Some(WriteAt(0x18, w)), b).regs);
  }

  // ---- What starts a command ----

  lemma LowAuto(a: bv12) returns (hi: int)
    ensures a as int == hi * 4 + (a & 3) as int
  {
    hi := ((a >> 2) as bv10) as int;
  }

  lemma LowAutoBits(a: bv12)
    ensures (a & 3) as int == 2 * Flag(DC.AutoExec(a, 1)) + Flag(DC.AutoExec(a, 0))
  {
  }

  lemma AutoCut(a: bv12) returns (hi: int)
    ensures a as int == (hi * 2 + Flag(DC.AutoExec(a, 1))) * 2 + Flag(DC.AutoExec(a, 0))
  {
    hi := LowAuto(a);
    LowAutoBits(a);
    hide DC.AutoExec;
  }

  lemma TwoBits(n: int, hi: int, f1: bool, f0: bool)
    requires n == (hi * 2 + Flag(f1)) * 2 + Flag(f0)
    ensures (Bit(n, 1) <==> f0) && (Bit(n, 2) <==> f1)
  {
    DivOf(hi * 2 + Flag(f1), 2, Flag(f0));
    DivOf(hi, 2, Flag(f1));
  }

  lemma AutoBits(a: bv12)
    ensures DC.AutoExec(a, 0) <==> Bit(a as int, 1)
    ensures DC.AutoExec(a, 1) <==> Bit(a as int, 2)
  {
    hide DC.AutoExec, Bit;
    var hi := AutoCut(a);
    TwoBits(a as int, hi, DC.AutoExec(a, 1), DC.AutoExec(a, 0));
  }

  // A write of address 0x17, and an access of either operation to data0 or data1 whose
  // bit of abstractauto is set; nothing else.
  lemma StartsByNumber(a: bv12, address: bv7, op: bv2, w: Word)
    ensures DC.Triggers(a, Request(RegisterAt(address), op, w)) <==>
              || (address == 0x17 && op == 2)
              || ((op == 1 || op == 2) && address == 0x04 && Bit(a as int, 1))
              || ((op == 1 || op == 2) && address == 0x05 && Bit(a as int, 2))
  {
    hide DC.AutoExec, Bit;
    AutoBits(a);
  }

  // ---- Inactive, and in reset ----

  lemma ActiveBit(w: Word)
    ensures CR.DmactiveField(w) <==> Bit(w as int, 1)
  {
    ControlBits(w);
  }

  // An inactive module forgets everything in one clock, and hears only bit 0 of a
  // dmcontrol write.
  lemma InactiveIsReset(d: DM.Dm, req: Option<Request>, b: MW.BusRequest)
    requires !d.regs.dmactive
    ensures var r := DM.Next(d, req, b).regs;
            && !r.haltreq && !r.resumereq && !r.ndmreset && r.command == 0 && r.autoData == 0 && r.autoProg == 0
            && r.data == [0, 0] && r.progbuf == [0, 0, 0, 0, 0, 0, 0, 0]
            && (r.dmactive <==> req.Some? && req.value.op == 2 && req.value.reg == RegisterAt(0x10)
                                && Bit(req.value.data as int, 1))
  {
    hide MW.DecodeBus, MW.Stored, MW.NextPath, F.Next, F.Out, DC.Next, Bit, CR.Written, CR.DmactiveField;
    CR.WrittenFields(d.regs, DM.Busy(d), req);
    if req.Some? { ActiveBit(req.value.data); }
  }

  // While ndmreset is set the state machine is idle, the hart counts as neither halted
  // nor resumed, and the flags it polls read 0.
  lemma NdmresetClears(d: DM.Dm, req: Option<Request>, b: MW.BusRequest)
    requires d.regs.ndmreset
    ensures var d' := DM.Next(d, req, b);
            !DM.Busy(d') && !d'.halted && !d'.resuming && MW.FlatWord(DM.ViewOf(d), 0x400) == 0
  {
    hide MW.DecodeBus, MW.Stored, MW.NextPath, F.Out, DC.Next, CR.Next, CR.Written;
  }
}
