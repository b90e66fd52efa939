/** Abstract commands: the field decoder, the generator that compiles a command
    into ten words of code, and what that code is as instructions. */
module AbstractCommand {
  import opened Words
  import opened Isa
  import opened DebugRom

  datatype Command = Command(
    cmdtype: bv8, aarsize: bv3, postincrement: bool, postexec: bool,
    transfer: bool, write: bool, regno: bv16)

  // The command register's fields.
  function Fields(w: Word): Command
  {
    Command((w >> 24) as bv8, ((w >> 20) & 7) as bv3, w & 0x8_0000 != 0, w & 0x4_0000 != 0,
            w & 0x2_0000 != 0, w & 0x1_0000 != 0, (w & 0xffff) as bv16)
  }

  const MAX_AAR: bv3 := 3
  const ACCESS_REGISTER: bv8 := 0

  // Register numbers with bit 15 or 14 set are reserved.
  predicate ReservedRegno(regno: bv16) { regno >> 14 != 0 }

  predicate Unsupported(c: Command)
  {
    if c.cmdtype == ACCESS_REGISTER then
      (c.aarsize < MAX_AAR && c.transfer && ReservedRegno(c.regno)) || c.aarsize >= MAX_AAR || c.postincrement
    else
      true
  }

  // The register a number names. Bits the decoder ignores alias.
  datatype Target = Gpr(n: RegIndex) | Fpr(n: RegIndex) | Csr(addr: bv12)

  predicate NamesGprOrFpr(regno: bv16) { regno & 0x1000 != 0 }
  predicate NamesFpr(regno: bv16) { regno & 0x20 != 0 }
  function RegField(regno: bv16): RegIndex { (regno & 0x1f) as RegIndex }
  function CsrField(regno: bv16): bv12 { (regno & 0xfff) as bv12 }

  function TargetOf(regno: bv16): Target
  {
    if NamesGprOrFpr(regno) then
      if NamesFpr(regno) then Fpr(RegField(regno)) else Gpr(RegField(regno))
    else
      Csr(CsrField(regno))
  }

  // ---- The generator ----

  const DATA_OFFSET: bv12 := 0x380

  // The default contents: an illegal word, the address of the window in a0, no
  // move, a0 restored, and an ebreak.
  function DefaultWord(k: nat): Word
  {
    match k
    case 0 => ILLEGAL
    case 1 => EncodeAuipc(A0, 0)
    case 2 => EncodeSrli(A0, A0, 12)
    case 3 => EncodeSlli(A0, A0, 12)
    case 8 => EncodeCsrr(CSR_DSCRATCH1, A0)
    case 9 => EBREAK
    case _ => if k < 8 then NOP else 0
  }

  // The four words that move the value, from word 4 on.
  method Emit(rom: array<Word>, w4: Word, w5: Word, w6: Word, w7: Word)
    requires rom.Length == 16
    modifies rom
    ensures rom[4] == w4 && rom[5] == w5 && rom[6] == w6 && rom[7] == w7
    ensures forall k: nat | k < 16 && !(4 <= k < 8) :: rom[k] == old(rom[k])
  {
    rom[4], rom[5], rom[6], rom[7] := w4, w5, w6, w7;
  }

  method FillDefaults(rom: array<Word>)
    requires rom.Length == 16
    modifies rom
    ensures forall k: nat | k < 16 :: rom[k] == DefaultWord(k)
  {
    hide JType, IType, EncodeCsrr, EncodeAuipc, EncodeSlli, EncodeSrli;
    forall k | 4 <= k < 8 { rom[k] := NOP; }
    forall k | 10 <= k < 16 { rom[k] := 0; }
    rom[0] := ILLEGAL;
    rom[1] := EncodeAuipc(A0, 0);
    rom[2] := EncodeSrli(A0, A0, 12);
    rom[3] := EncodeSlli(A0, A0, 12);
    rom[8] := EncodeCsrr(CSR_DSCRATCH1, A0);
    rom[9] := EBREAK;
  }

  // The four words, by the kind of register that is named.
  lemma MoveWords(c: Command)
    ensures var t, size := RegField(c.regno), c.aarsize;
            var isA0 := NamesGprOrFpr(c.regno) && !NamesFpr(c.regno) && t == A0;
            var reg := if isA0 then CSR_DSCRATCH1 else CsrField(c.regno);
            if isA0 || !NamesGprOrFpr(c.regno) then
              && MoveWord(c, 4) == EncodeCsrw(CSR_DSCRATCH0, S0)
              && MoveWord(c, 5) == (if c.write then EncodeLoad(size, S0, A0, DATA_OFFSET) else EncodeCsrr(reg, S0))
              && MoveWord(c, 6) == (if c.write then EncodeCsrw(reg, S0) else EncodeStore(size, S0, A0, DATA_OFFSET))
              && MoveWord(c, 7) == EncodeCsrr(CSR_DSCRATCH0, S0)
            else
              && MoveWord(c, 4) == (if NamesFpr(c.regno) then
                                      if c.write then EncodeFloatLoad(size, t, A0, DATA_OFFSET)
                                      else EncodeFloatStore(size, t, A0, DATA_OFFSET)
                                    else
                                      if c.write then EncodeLoad(size, t, A0, DATA_OFFSET)
                                      else EncodeStore(size, t, A0, DATA_OFFSET))
              && MoveWord(c, 5) == NOP && MoveWord(c, 6) == NOP && MoveWord(c, 7) == NOP
  {
    hide JType, IType, SType, EncodeLoad, EncodeStore, EncodeFloatLoad, EncodeFloatStore, EncodeCsrw, EncodeCsrr;
    hide NamesGprOrFpr, NamesFpr, RegField, CsrField;
  }

  lemma DefaultMoves()
    ensures forall k: nat | 4 <= k < 8 :: DefaultWord(k) == NOP
  {
    hide EncodeAuipc, EncodeSlli, EncodeSrli, EncodeCsrr;
  }

  // Overwrite the defaults for a command that writes a register.
  method EmitWrite(c: Command, rom: array<Word>)
    requires rom.Length == 16 && c.write
    requires c.cmdtype == ACCESS_REGISTER && c.aarsize < MAX_AAR && c.transfer
    requires forall k: nat | k < 16 :: rom[k] == DefaultWord(k)
    modifies rom
    ensures rom[0] == CodeWord(c, 0)
    ensures forall k: nat | 4 <= k < 8 :: rom[k] == CodeWord(c, k)
    ensures forall k: nat | k < 16 && k != 0 && !(4 <= k < 8) :: rom[k] == DefaultWord(k)
  {
    hide JType, IType, SType, EncodeLoad, EncodeStore, EncodeFloatLoad, EncodeFloatStore, EncodeCsrw, EncodeCsrr;
    hide EncodeAuipc, EncodeSlli, EncodeSrli, NamesGprOrFpr, NamesFpr, RegField, CsrField, ReservedRegno;
    hide MoveWord, DefaultWord;
    MoveWords(c);
    DefaultMoves();
    rom[0] := EncodeCsrw(CSR_DSCRATCH1, A0);
    var size, reg := c.aarsize, RegField(c.regno);
    if ReservedRegno(c.regno) {
      rom[0] := EBREAK;
    } else if NamesGprOrFpr(c.regno) && !NamesFpr(c.regno) && reg == A0 {
      Emit(rom, EncodeCsrw(CSR_DSCRATCH0, S0), EncodeLoad(size, S0, A0, DATA_OFFSET),
           EncodeCsrw(CSR_DSCRATCH1, S0), EncodeCsrr(CSR_DSCRATCH0, S0));
    } else if NamesGprOrFpr(c.regno) {
      if NamesFpr(c.regno) {
        rom[4] := EncodeFloatLoad(size, reg, A0, DATA_OFFSET);
      } else {
        rom[4] := EncodeLoad(size, reg, A0, DATA_OFFSET);
      }
    } else {
      Emit(rom, EncodeCsrw(CSR_DSCRATCH0, S0), EncodeLoad(size, S0, A0, DATA_OFFSET),
           EncodeCsrw(CsrField(c.regno), S0), EncodeCsrr(CSR_DSCRATCH0, S0));
    }
  }

  // Overwrite the defaults for a command that reads a register.
  method EmitRead(c: Command, rom: array<Word>)
    requires rom.Length == 16 && !c.write
    requires c.cmdtype == ACCESS_REGISTER && c.aarsize < MAX_AAR && c.transfer
    requires forall k: nat | k < 16 :: rom[k] == DefaultWord(k)
    modifies rom
    ensures rom[0] == CodeWord(c, 0)
    ensures forall k: nat | 4 <= k < 8 :: rom[k] == CodeWord(c, k)
    ensures forall k: nat | k < 16 && k != 0 && !(4 <= k < 8) :: rom[k] == DefaultWord(k)
  {
    hide JType, IType, SType, EncodeLoad, EncodeStore, EncodeFloatLoad, EncodeFloatStore, EncodeCsrw, EncodeCsrr;
    hide EncodeAuipc, EncodeSlli, EncodeSrli, NamesGprOrFpr, NamesFpr, RegField, CsrField, ReservedRegno;
    hide MoveWord, DefaultWord;
    MoveWords(c);
    DefaultMoves();
    rom[0] := EncodeCsrw(CSR_DSCRATCH1, A0);
    var size, reg := c.aarsize, RegField(c.regno);
    if ReservedRegno(c.regno) {
      rom[0] := EBREAK;
    } else if NamesGprOrFpr(c.regno) && !NamesFpr(c.regno) && reg == A0 {
      Emit(rom, EncodeCsrw(CSR_DSCRATCH0, S0), EncodeCsrr(CSR_DSCRATCH1, S0),
           EncodeStore(size, S0, A0, DATA_OFFSET), EncodeCsrr(CSR_DSCRATCH0, S0));
    } else if NamesGprOrFpr(c.regno) {
      if NamesFpr(c.regno) {
        rom[4] := EncodeFloatStore(size, reg, A0, DATA_OFFSET);
      } else {
        rom[4] := EncodeStore(size, reg, A0, DATA_OFFSET);
      }
    } else {
      Emit(rom, EncodeCsrw(CSR_DSCRATCH0, S0), EncodeCsrr(CsrField(c.regno), S0),
           EncodeStore(size, S0, A0, DATA_OFFSET), EncodeCsrr(CSR_DSCRATCH0, S0));
    }
  }

  // Fill the sixteen 32-bit halves of the eight ROM entries; the ten lowest are code.
  method BuildRom(c: Command, rom: array<Word>)
    requires rom.Length == 16
    modifies rom
    ensures forall k: nat | k < 16 :: rom[k] == CodeWord(c, k)
  {
    hide JType, IType, SType, EncodeLoad, EncodeStore, EncodeFloatLoad, EncodeFloatStore, EncodeCsrw, EncodeCsrr;
    hide EncodeAuipc, EncodeSlli, EncodeSrli, NamesGprOrFpr, NamesFpr, RegField, CsrField, ReservedRegno;
    FillDefaults(rom);
    if c.cmdtype == ACCESS_REGISTER {
      if c.aarsize < MAX_AAR && c.transfer && c.write {
        EmitWrite(c, rom);
      } else if c.aarsize < MAX_AAR && c.transfer && !c.write {
        EmitRead(c, rom);
      } else if c.aarsize >= MAX_AAR || c.postincrement {
        rom[0] := EBREAK;
      }
      if c.postexec && !Unsupported(c) {
        rom[9] := NOP;
      }
    } else {
      rom[0] := EBREAK;
    }
  }

  // ---- What the generated words are, case by case ----

  // Does the code reach its data-moving part?
  predicate Moves(c: Command)
  {
    c.cmdtype == ACCESS_REGISTER && c.aarsize < MAX_AAR && c.transfer && !ReservedRegno(c.regno)
  }

  // Commands that have to park s0 in dscratch0 to have a register to work with.
  predicate BorrowsS0(t: Target)
  {
    t == Gpr(A0) || t.Csr?
  }

  function MoveWord(c: Command, k: nat): Word
    requires 4 <= k < 8
  {
    var t := TargetOf(c.regno);
    if BorrowsS0(t) then
      var reg := if t.Csr? then t.addr else CSR_DSCRATCH1;
      match k
      case 4 => EncodeCsrw(CSR_DSCRATCH0, S0)
      case 5 => if c.write then EncodeLoad(c.aarsize, S0, A0, DATA_OFFSET) else EncodeCsrr(reg, S0)
      case 6 => if c.write then EncodeCsrw(reg, S0) else EncodeStore(c.aarsize, S0, A0, DATA_OFFSET)
      case _ => EncodeCsrr(CSR_DSCRATCH0, S0)
    else if k != 4 then NOP
    else if t.Fpr? then
      if c.write then EncodeFloatLoad(c.aarsize, t.n, A0, DATA_OFFSET)
        else EncodeFloatStore(c.aarsize, t.n, A0, DATA_OFFSET)
    else
      if c.write then EncodeLoad(c.aarsize, t.n, A0, DATA_OFFSET) else EncodeStore(c.aarsize, t.n, A0, DATA_OFFSET)
  }

  function CodeWord(c: Command, k: nat): (w: Word)
    requires k < 16
  {
    if k == 0 then
      if Moves(c) then EncodeCsrw(CSR_DSCRATCH1, A0)
      else if c.cmdtype == ACCESS_REGISTER && c.aarsize < MAX_AAR && !c.transfer && !c.postincrement then ILLEGAL
      else EBREAK
    else if 4 <= k < 8 && Moves(c) then MoveWord(c, k)
    else if k == 9 && c.postexec && !Unsupported(c) then NOP
    else DefaultWord(k)
  }

  // ---- The same code as instructions ----

  function Move(c: Command, k: nat): Instr
    requires 4 <= k < 8
  {
    var t := TargetOf(c.regno);
    if BorrowsS0(t) then
      var reg := if t.Csr? then t.addr else CSR_DSCRATCH1;
      match k
      case 4 => Csrrw(CSR_DSCRATCH0, 0, S0)
      case 5 => if c.write then Load(c.aarsize, S0, A0, DATA as Word) else Csrrs(reg, S0, 0)
      case 6 => if c.write then Csrrw(reg, 0, S0) else Store(c.aarsize, S0, A0, DATA as Word)
      case _ => Csrrs(CSR_DSCRATCH0, S0, 0)
    else if k != 4 then Nop()
    else if t.Fpr? then
      if c.write then FloatLoad(c.aarsize, t.n, A0, DATA as Word) else FloatStore(c.aarsize, t.n, A0, DATA as Word)
    else
      if c.write then Load(c.aarsize, t.n, A0, DATA as Word) else Store(c.aarsize, t.n, A0, DATA as Word)
  }

  function Routine(c: Command, k: nat): Instr
    requires k < 10
  {
    match k
    case 0 => if c.transfer then Csrrw(CSR_DSCRATCH1, 0, A0) else Illegal
    case 1 => Auipc(A0, 0)
    case 2 => Srli(A0, A0, 12)
    case 3 => Slli(A0, A0, 12)
    case 8 => Csrrs(CSR_DSCRATCH1, A0, 0)
    case 9 => if c.postexec then Nop() else Ebreak
    case _ => if c.transfer then Move(c, k) else Nop()
  }

  lemma FixedWordsDecode()
    ensures Decode(NOP) == Nop() && Decode(ILLEGAL) == Illegal && Decode(EBREAK) == Ebreak
    ensures Decode(EncodeAuipc(A0, 0)) == Auipc(A0, 0)
  {
  }

  lemma MoveDecodes(c: Command, k: nat)
    requires 4 <= k < 8
    ensures Decode(MoveWord(c, k)) == Move(c, k)
  {
    if BorrowsS0(TargetOf(c.regno)) { BorrowedMoveDecodes(c, k); } else { DirectMoveDecodes(c, k); }
  }

  lemma BorrowedMoveDecodes(c: Command, k: nat)
    requires 4 <= k < 8 && BorrowsS0(TargetOf(c.regno))
    ensures Decode(MoveWord(c, k)) == Move(c, k)
  {
    hide JType, IType, SType, EncodeLoad, EncodeStore, EncodeFloatLoad, EncodeFloatStore, EncodeCsrw;
    hide EncodeCsrr, TargetOf, Decode;
    var t := TargetOf(c.regno);
    match k
    case 4 => CsrRoundTrip(CSR_DSCRATCH0, S0);
    case 7 => CsrRoundTrip(CSR_DSCRATCH0, S0);
    case _ =>
      LoadRoundTrip(c.aarsize, S0, A0, DATA_OFFSET);
      StoreRoundTrip(c.aarsize, S0, A0, DATA_OFFSET);
      CsrRoundTrip(if t.Csr? then t.addr else CSR_DSCRATCH1, S0);
  }

  lemma DirectMoveDecodes(c: Command, k: nat)
    requires 4 <= k < 8 && !BorrowsS0(TargetOf(c.regno))
    ensures Decode(MoveWord(c, k)) == Move(c, k)
  {
    hide JType, IType, SType, EncodeLoad, EncodeStore, EncodeFloatLoad, EncodeFloatStore, EncodeCsrw;
    hide EncodeCsrr, TargetOf, Decode;
    FixedWordsDecode();
    var n := TargetOf(c.regno).n;
    LoadRoundTrip(c.aarsize, n, A0, DATA_OFFSET);
    StoreRoundTrip(c.aarsize, n, A0, DATA_OFFSET);
  }

  // Every word generated for a supported command is the intended instruction.
  lemma CodeDecodes(c: Command, k: nat)
    requires !Unsupported(c) && k < 10
    ensures Decode(CodeWord(c, k)) == Routine(c, k)
  {
    hide JType, IType, SType, EncodeLoad, EncodeStore, EncodeFloatLoad, EncodeFloatStore, EncodeCsrw, EncodeCsrr;
    hide EncodeAuipc, EncodeSlli, EncodeSrli, NamesGprOrFpr, NamesFpr, RegField, CsrField, ReservedRegno;
    hide Decode;
    if 4 <= k < 8 { MoveDecodes(c, k); }
    FixedWordsDecode();
    CsrRoundTrip(CSR_DSCRATCH1, A0);
    ShiftRoundTrip(A0, A0, 12);
  }
}
