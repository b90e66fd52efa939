/** What the hart reads is what the module's read bus carries: the registered read
    path delivers every fetch and every load of the parked hart one cycle later. */
module ReadBus {
  import opened Words
  import opened DebugRom
  import opened Hart
  import opened System
  import opened Protocol
  import opened RomSteps
  import opened CodeSteps
  import opened CommandSteps
  import opened Atomicity
  import opened Isa
  import MW = MemWindow
  import AC = AbstractCommand
  import DM = DebugModule

  // The word on the read bus in a state, driven by the registers of the read path.
  function OnBus(s: Sys): Word { MW.Rdata(s.dm.path) }

  // A read of a mapped word shows on the bus in the next cycle.
  lemma ReadArrives(s: Sys, i: Input)
    requires var b := Bus(s, i.move); b.req && !b.we && MW.Mapped(OffsetOf(b.addr))
    ensures OnBus(Next(s, i)) == MW.FlatWord(DM.ViewOf(s.dm), OffsetOf(Bus(s, i.move).addr))
  {
    hide AC.Fields, MW.FlatWord, MW.Rdata, MW.NextPath, Bus, MW.DecodeBus, NextHart, MW.Mapped;
    MW.ReadReturnsFlatWord(s.dm.path, DM.ViewOf(s.dm), Bus(s, i.move));
  }

  lemma PlaceIsMapped(s: Sys)
    requires Inv(s) && s.hart.mode == Parked
    ensures MW.Mapped(Off(s))
  {
    hide AC.Fields, HartAt, FsmAt;
    PlaceOf(s);
    if Off(s) < 0x800 { BelowRom(s); }
  }

  lemma AddressOffset(page: Page, off: Offset)
    ensures OffsetOf(Addr(Pc(page, off))) == off
  {
  }

  // Whatever instruction a parked hart fetches, in the ROM, the generated code or at
  // whereto, is the word it finds on the bus when it takes it.
  lemma FetchArrives(s: Sys, i: Input)
    requires Inv(s) && Allowed(s, i) && s.hart.mode == Parked && i.move == Tick && s.hart.ir.None?
    ensures Next(s, i).hart.ir == Some(OnBus(Next(s, i)))
  {
    hide AC.Fields, Inv, OnBus, DM.Next, MW.FlatWord, Addr, MW.Mapped;
    PlaceIsMapped(s);
    AddressOffset(s.hart.pc.page, Off(s));
    ReadArrives(s, i);
    InPage(s);
  }

  lemma InPage(s: Sys)
    requires Inv(s) && s.hart.mode == Parked
    ensures s.hart.pc == Pc(s.page, Off(s))
  {
    hide AC.Fields, HartAt, FsmAt;
  }

  // The loads of the module's code read data0 or the flags.
  lemma LoadPlaces(s: Sys, i: Input)
    requires Executing(s, i) && (Current(s).Load? || Current(s).FloatLoad?) && !Faults(s.hart, Current(s))
    ensures var off := OffsetOf(DataAccess(s.hart, Current(s)).addr); off == DATA || off == FLAGS
    ensures Off(s) < 0x35c || 0x800 <= Off(s) < 0x8a0
  {
    hide AC.Fields, AC.TargetOf, AC.Unsupported, Decode, HartAt, FsmAt, Located, Faults, AtCode, MW.CodeIndex;
    if Off(s) >= 0x800 {
      InRom(s);
      RomInstruction(s, i);
      FlagLoads(Off(s));
      FlagLoad(s.hart, s.page, s.dm);
    } else {
      BelowRom(s);
      if Off(s) == WHERETO { WheretoInstruction(s, i); }
      else {
        AtWordHere(s);
        WordOffset(Off(s));
        CodeInstruction(s, i);
        DataLoads(Cmd(s), MW.CodeIndex(Off(s)));
        BaseInA0(s.hart, s.page, s.dm, Off(s), MW.CodeIndex(Off(s)));
        DataAddress(s.hart, s.page, 2);
      }
    }
  }

  lemma FlagLoads(off: Offset)
    requires 0x800 <= off < 0x8a0 && off & 3 == 0 && (Listing(off).Load? || Listing(off).FloatLoad?)
    ensures off == 0x83c || off == 0x850
  {
  }

  lemma DataLoads(c: AC.Command, k: nat)
    requires k < 10 && (AC.Routine(c, k).Load? || AC.Routine(c, k).FloatLoad?)
    ensures 4 <= k < 8 && AC.Routine(c, k).rs1 == A0 && AC.Routine(c, k).offset == DATA as Word
  {
    hide AC.TargetOf;
  }

  // Every load of a parked hart gets the word that is on the bus one cycle later, and
  // works with no other.
  lemma LoadArrives(s: Sys, i: Input)
    requires Executing(s, i) && (Current(s).Load? || Current(s).FloatLoad?) && !Faults(s.hart, Current(s))
    ensures OnBus(Next(s, i)) == LoadedWord(s)
    ensures Next(s, i).hart == Execute(s.hart, Current(s), s.page, OnBus(Next(s, i)))
  {
    hide AC.Fields, Inv, OnBus, DM.Next, MW.FlatWord, Decode, Faults, Address, Execute, PcAdd, MW.Mapped, Bus;
    LoadPlaces(s, i);
    LoadsAreReads(s, i);
    ReadArrives(s, i);
    InPage(s);
    StraightAdvances(s.hart, Current(s), s.page, LoadedWord(s));
    PcStep(s.page, Off(s));
  }

  lemma LoadsAreReads(s: Sys, i: Input)
    requires Executing(s, i) && (Current(s).Load? || Current(s).FloatLoad?) && !Faults(s.hart, Current(s))
    ensures var b := Bus(s, Tick); b == DataAccess(s.hart, Current(s)) && b.req && !b.we
    ensures var off := OffsetOf(Bus(s, Tick).addr); off == DATA || off == FLAGS ==> MW.Mapped(off)
  {
    hide AC.Fields, Inv, Decode, Faults, Address;
  }
}
