/** System Bus Access from reset: what a word written to sbcs sets, and whole block
    transfers from the first DMI write on. */
module BusSetup {
  import opened Words
  import opened Numbers
  import opened Dmi
  import opened SystemBus
  import opened BusTransfer

  // ---- The layout of sbcs ----

  lemma SbcsMasks(w: Word)
    ensures BusyErrorField(w) <==> WordBits(w)[22]
    ensures ReadOnAddrField(w) <==> WordBits(w)[20]
    ensures AutoIncrementField(w) <==> WordBits(w)[16]
    ensures ReadOnDataField(w) <==> WordBits(w)[15]
  {
    BitOfLane(w, 2, 6);
    BitOfLane(w, 2, 4);
    BitOfLane(w, 2, 0);
    BitOfLane(w, 1, 7);
    hide WordBits;
  }

  lemma AccessBits(w: Word)
    ensures AccessField(w) as int
            == Flag(WordBits(w)[17]) + 2 * Flag(WordBits(w)[18]) + 4 * Flag(WordBits(w)[19])
  {
    BitOfLane(w, 2, 1);
    BitOfLane(w, 2, 2);
    BitOfLane(w, 2, 3);
    hide WordBits;
  }

  lemma ErrorBits(w: Word)
    ensures ErrorField(w) <==> WordBits(w)[12] || WordBits(w)[13] || WordBits(w)[14]
  {
    BitOfLane(w, 1, 4);
    BitOfLane(w, 1, 5);
    BitOfLane(w, 1, 6);
    hide WordBits;
  }

  lemma SbcsBits(w: Word)
    ensures var n := w as int;
            && (WordBits(w)[22] <==> Bit(n, 0x40_0000)) && (WordBits(w)[20] <==> Bit(n, 0x10_0000))
            && (WordBits(w)[16] <==> Bit(n, 0x1_0000)) && (WordBits(w)[15] <==> Bit(n, 0x8000))
  {
    hide WordBits, Bit, Power;
    Powers();
    WordBit(w, 22);
    WordBit(w, 20);
    WordBit(w, 16);
    WordBit(w, 15);
  }

  lemma SbcsNumbers(w: Word)
    ensures var n, b := w as int, WordBits(w);
            && (n / 0x2_0000) % 8 == Flag(b[17]) + 2 * Flag(b[18]) + 4 * Flag(b[19])
            && (n / 0x1000) % 8 == Flag(b[12]) + 2 * Flag(b[13]) + 4 * Flag(b[14])
  {
    hide WordBits, NumberOf, Power;
    Powers();
    SmallPowers();
    WordPart(w, 17, 3);
    WordPart(w, 12, 3);
    ThreeBits(WordBits(w)[17..20]);
    ThreeBits(WordBits(w)[12..15]);
  }

  lemma FieldsOfSbcs(w: Word)
    ensures var n := w as int;
            && (BusyErrorField(w) <==> Bit(n, 0x40_0000)) && (ReadOnAddrField(w) <==> Bit(n, 0x10_0000))
            && (AutoIncrementField(w) <==> Bit(n, 0x1_0000)) && (ReadOnDataField(w) <==> Bit(n, 0x8000))
            && AccessField(w) as int == (n / 0x2_0000) % 8 && (ErrorField(w) <==> (n / 0x1000) % 8 != 0)
  {
    SbcsMasks(w);
    AccessBits(w);
    ErrorBits(w);
    SbcsBits(w);
    SbcsNumbers(w);
    hide BusyErrorField, ReadOnAddrField, AutoIncrementField, ReadOnDataField, AccessField, ErrorField, WordBits, Bit;
  }

  // What a write of sbcs leaves when the engine is idle: the sizes and flags of the
  // word, the busy error unless bit 22 is set, the error unless one of bits 12 to 14 is.
  lemma SbcsWritten(s: Sb, w: Word, b: BusIn)
    requires s.state == Idle && !b.rvalid
    ensures var n, r, s' := w as int, s.regs, Next(s, Some(WriteAt(0x38, w)), b);
            && s'.state == Idle
            && (s'.regs.busyError <==> r.busyError && !Bit(n, 0x40_0000))
            && (s'.regs.readOnAddr <==> Bit(n, 0x10_0000)) && s'.regs.access as int == (n / 0x2_0000) % 8
            && (s'.regs.autoIncrement <==> Bit(n, 0x1_0000)) && (s'.regs.readOnData <==> Bit(n, 0x8000))
            && s'.regs.error == (if (n / 0x1000) % 8 != 0 then 0 else r.error)
            && s'.regs.addr == r.addr && s'.regs.data == r.data
  {
    hide BusyErrorField, ReadOnAddrField, AutoIncrementField, ReadOnDataField, AccessField, ErrorField, Bit;
    hide Refusal, ShiftDown, Lane0, Stepped;
    FieldsOfSbcs(w);
  }

  // ---- From reset to the first element ----

  // Cycles without a request, on a bus that answers nothing unasked.
  predicate Quiet(w: World, cs: seq<Cycle>)
    decreases |cs|
  {
    cs != [] ==> Faithful(w, cs[0].bus) && cs[0].req.None? && Quiet(Step(w, cs[0]), cs[1..])
  }

  lemma IdleStays(w: World, c: Cycle)
    requires w.sb.state == Idle && Faithful(w, c.bus) && c.req.None?
    ensures Step(w, c) == w
  {
    hide Next, WordAt, Stored, ByteEnables;
    IdleCycle(w.sb, c.req, c.bus);
  }

  lemma {:induction false} QuietKeeps(w: World, cs: seq<Cycle>)
    requires w.sb.state == Idle && Quiet(w, cs)
    ensures RunWorld(w, cs) == w
    decreases |cs|
  {
    hide Faithful, Step;
    if cs != [] {
      IdleStays(w, cs[0]);
      QuietKeeps(w, cs[1..]);
    }
  }

  // The bytes of an element: sbaccess is the power of two.
  function Span(size: int): (n: nat)
    requires 0 <= size <= 2
    ensures n > 0
  {
    if size == 0 then 1 else if size == 1 then 2 else 4
  }

  // A DMI write to a register of the bus master.
  predicate Sends(w: World, c: Cycle, address: bv7, x: Word)
  {
    Faithful(w, c.bus) && c.req == Some(WriteAt(address, x))
  }

  // sbcs and then sbaddress0 written from reset, with any pauses: w1 and w2 are the states
  // after the two writes.
  ghost predicate IsSetUp(w: World, g0: seq<Cycle>, c0: Cycle, w1: World, g1: seq<Cycle>, c1: Cycle, w2: World, x: Word,
    a: Word)
  {
    && w.sb == Sb(Idle, Regs(false, false, 2, false, false, 0, 0, 0))
    && Quiet(w, g0) && Sends(RunWorld(w, g0), c0, 0x38, x) && w1 == Step(RunWorld(w, g0), c0)
    && Quiet(w1, g1) && Sends(RunWorld(w1, g1), c1, 0x39, a) && w2 == Step(RunWorld(w1, g1), c1)
  }

  lemma IdleStep(w: World, c: Cycle)
    requires w.sb.state == Idle
    ensures Step(w, c).sb == Next(w.sb, c.req, c.bus) && Step(w, c).mem == w.mem
  {
    hide Next, WordAt, Stored, ByteEnables;
  }

  // The number of an sbcs word, by its fields.
  function SbcsNumber(size: int, readOnAddr: bool, readOnData: bool): int
  {
    Flag(readOnAddr) * 0x10_0000 + size * 0x2_0000 + 0x1_0000 + Flag(readOnData) * 0x8000
  }

  lemma SbcsParts(n: int, size: int, readOnAddr: bool, readOnData: bool)
    requires 0 <= size <= 2 && n == SbcsNumber(size, readOnAddr, readOnData)
    ensures (Bit(n, 0x10_0000) <==> readOnAddr) && (n / 0x2_0000) % 8 == size && Bit(n, 0x1_0000)
    ensures (Bit(n, 0x8000) <==> readOnData) && (n / 0x1000) % 8 == 0
  {
    var a, d := Flag(readOnAddr), Flag(readOnData);
    PartOf(n, 0x10_0000, 2, 0, a, size * 0x2_0000 + 0x1_0000 + d * 0x8000);
    PartOf(n, 0x2_0000, 8, a, size, 0x1_0000 + d * 0x8000);
    PartOf(n, 0x1_0000, 2, a * 8 + size, 1, d * 0x8000);
    PartOf(n, 0x8000, 2, (a * 8 + size) * 2 + 1, d, 0);
    PartOf(n, 0x1000, 8, ((a * 8 + size) * 2 + 1) * 2 + d, 0, 0);
  }

  lemma SizeNumber(access: bv3, size: int)
    requires access as int == size && 0 <= size <= 2
    ensures access <= 2 && Size(access) == Span(size)
  {
    match access
    case 0 => case 1 => case 2 => case 3 => case 4 => case 5 => case 6 => case _ =>
  }

  lemma SetUpLeaves(w: World, g0: seq<Cycle>, c0: Cycle, w1: World, g1: seq<Cycle>, c1: Cycle, w2: World, x: Word,
      a: Word, size: int, readOnAddr: bool, readOnData: bool)
    requires IsSetUp(w, g0, c0, w1, g1, c1, w2, x, a) && 0 <= size <= 2
    requires x as int == SbcsNumber(size, readOnAddr, readOnData)
    ensures var r := w1.sb.regs;
            && w1.sb.state == Idle && !r.busyError && r.error == 0 && r.autoIncrement && r.access as int == size
            && r.readOnAddr == readOnAddr && r.readOnData == readOnData
            && w2.sb == Sb(if readOnAddr then Read else Idle, r.(addr := a as int)) && w2.mem == w.mem
            && RunWorld(w1, g1) == w1 && w1.mem == w.mem
  {
    hide Next, Faithful, Step, SbcsNumber, Bit;
    QuietKeeps(w, g0);
    FaithfulIdle(w, c0.bus);
    IdleStep(w, c0);
    SbcsWritten(w.sb, x, c0.bus);
    SbcsParts(x as int, size, readOnAddr, readOnData);
    QuietKeeps(w1, g1);
    FaithfulIdle(w1, c1.bus);
    IdleStep(w1, c1);
    AddressWriteCycle(w1.sb, c1.req, c1.bus);
  }

  lemma FaithfulIdle(w: World, b: BusIn)
    requires Faithful(w, b) && w.sb.state == Idle
    ensures !b.rvalid
  {
  }

  // ---- Whole blocks ----

  // The debugger accesses sbdata0 with one operation, each time when the engine is idle.
  predicate Streams(w: World, cs: seq<Cycle>, op: bv2)
    decreases |cs|
  {
    cs != [] ==>
      && Faithful(w, cs[0].bus)
      && (cs[0].req.Some? ==> w.sb.state == Idle && cs[0].req.value.op == op && cs[0].req.value.reg == RegisterAt(0x3c))
      && Streams(Step(w, cs[0]), cs[1..], op)
  }

  lemma {:induction false} WritesStream(w: World, cs: seq<Cycle>)
    requires Streams(w, cs, 2)
    ensures IsBlockWrite(w, cs)
    decreases |cs|
  {
    hide Faithful, Step;
    if cs != [] { WritesStream(Step(w, cs[0]), cs[1..]); }
  }

  lemma {:induction false} ReadsStream(w: World, cs: seq<Cycle>)
    requires Streams(w, cs, 1)
    ensures IsBlockRead(w, cs)
    decreases |cs|
  {
    hide Faithful, Step;
    if cs != [] { ReadsStream(Step(w, cs[0]), cs[1..]); }
  }

  // From reset: a word of sbcs that asks for elements of 2^size bytes and auto-increment,
  // an aligned address, and any number of data writes put the values into consecutive
  // elements of memory from that address on, and change no other byte.
  lemma BlockWriteFromReset(w: World, g0: seq<Cycle>, c0: Cycle, w1: World, g1: seq<Cycle>, c1: Cycle, w2: World,
      x: Word, a: Word, size: int, cs: seq<Cycle>, b: Address)
    requires IsSetUp(w, g0, c0, w1, g1, c1, w2, x, a) && 0 <= size <= 2 && a as int % Span(size) == 0
    requires x as int == size * 0x2_0000 + 0x1_0000
    requires Streams(w2, cs, 2) && RunWorld(w2, cs).sb.state == Idle && Span(size) * |Values(cs)| <= ADDRESSES
    ensures RunWorld(w2, cs).mem(b) == ByteOf(w.mem, Past(a as int, b), Span(size), Values(cs), b)
  {
    hide Next, Faithful, Step, RunWorld, IsSetUp, Values, ByteOf, Past, Streaming, Inv, Size, Span, Streams;
    SetUpLeaves(w, g0, c0, w1, g1, c1, w2, x, a, size, false, false);
    SizeNumber(w2.sb.regs.access, size);
    ReadyToStream(w2, size);
    WritesStream(w2, cs);
    BlockWriteStores(w2, cs, b);
  }

  lemma ReadyToStream(w: World, size: int)
    requires var r := w.sb.regs;
             && w.sb.state == Idle && r.error == 0 && !r.busyError && r.autoIncrement && r.access as int == size
             && 0 <= size <= 2 && r.addr % Span(size) == 0
    ensures Inv(w.sb) && Streaming(w)
  {
    SizeNumber(w.sb.regs.access, size);
    hide Size, Span;
  }

  lemma FetchFromReset(w: World, g0: seq<Cycle>, c0: Cycle, w1: World, g1: seq<Cycle>, c1: Cycle, w2: World, x: Word,
      a: Word, size: int)
    requires IsSetUp(w, g0, c0, w1, g1, c1, w2, x, a) && 0 <= size <= 2 && a as int % Span(size) == 0
    requires x as int == SbcsNumber(size, true, true)
    ensures Inv(w2.sb) && Fetching(w2, a as int) && w2.mem == w.mem
    ensures Size(w2.sb.regs.access) == Span(size) && Span(size) <= 4
  {
    hide Next, Faithful, Step, SbcsNumber;
    SetUpLeaves(w, g0, c0, w1, g1, c1, w2, x, a, size, true, true);
    SizeNumber(w1.sb.regs.access, size);
    hide Size, Span;
    AddressStartsFetch(w1, c1);
  }

  // From reset: with reads on address and on data as well, the replies to any number of
  // data reads are the consecutive elements of memory from that address on.
  lemma BlockReadFromReset(w: World, g0: seq<Cycle>, c0: Cycle, w1: World, g1: seq<Cycle>, c1: Cycle, w2: World,
      x: Word, a: Word, size: int, cs: seq<Cycle>)
    requires IsSetUp(w, g0, c0, w1, g1, c1, w2, x, a) && 0 <= size <= 2 && a as int % Span(size) == 0
    requires x as int == 0x10_0000 + size * 0x2_0000 + 0x1_0000 + 0x8000
    requires Streams(w2, cs, 1)
    ensures AreElements(w.mem, a as int, Span(size), Replies(w2, cs)) && RunWorld(w2, cs).mem == w.mem
  {
    assert x as int == SbcsNumber(size, true, true);
    hide IsSetUp, Next, Step, Faithful, RunWorld, Replies, AreElements, Streams, Inv, Fetching, Size, Span, SbcsNumber;
    FetchFromReset(w, g0, c0, w1, g1, c1, w2, x, a, size);
    ReadsStream(w2, cs);
    BlockRead(w2, a as int, cs);
  }

  // ---- Errors ----

  lemma SizeIsPower(access: bv3)
    ensures Size(access) == Power(access as int) && (access > 2 <==> access as int > 2)
  {
    SmallPowers();
    hide Power;
    match access
    case 0 => case 1 => case 2 => case 3 => case 4 => case 5 => case 6 => case _ =>
  }

  // A started transaction that is not aligned to its 2^sbaccess bytes ends with error 3,
  // else one of more than 32 bits ends with error 4; a response with the other error
  // ends with error 7, else one with the address error ends with error 2.
  lemma ErrorsByNumber(s: Sb, b: BusIn)
    requires s.state != Idle && s.regs.error == 0
    ensures var r, s' := s.regs, Next(s, None, b);
            if r.addr % Power(r.access as int) != 0 then s'.state == Idle && s'.regs.error == 3
            else if r.access as int > 2 then s'.state == Idle && s'.regs.error == 4
            else if (s.state == WaitRead || s.state == WaitWrite) && b.rvalid then
              s'.state == Idle && s'.regs.error == if b.otherErr then 7 else if b.err then 2 else 0
            else s'.state != Idle && s'.regs.error == 0
  {
    hide Size, Power, ShiftDown, Lane0, Stepped;
    SizeIsPower(s.regs.access);
  }

  // An access of sbdata0, or a write of sbaddress0.
  predicate NeedsEngine(q: Request)
  {
    (q.op == 2 && q.reg == RegisterAt(0x39)) || ((q.op == 1 || q.op == 2) && q.reg == RegisterAt(0x3c))
  }

  lemma EngineIsBusy(r: Regs, busy: bool, q: Request)
    requires (busy || r.busyError) && NeedsEngine(q)
    ensures TurnedAway(busy, r, Some(q)) && StrobesOf(busy, r, Some(q)) == StrobesOf(busy, r, None)
    ensures AfterAccess(r, busy, Some(q)) == r.(busyError := true) && AfterAccess(r, busy, None) == r
  {
    hide Accessed;
  }

  lemma BusyRegs(r: Regs, busy: bool, q: Request, address: Address, error: Option<bv3>, rvalid: bool, data: Word)
    requires (busy || r.busyError) && NeedsEngine(q)
    ensures NextRegs(r, busy, Some(q), address, error, rvalid, data)
            == NextRegs(r, busy, None, address, error, rvalid, data).(busyError := true)
  {
    EngineIsBusy(r.(addr := address), busy, q);
    hide AfterAccess, NeedsEngine;
  }

  // Until it ends, and until a busy error is cleared, accesses of sbdata0 and writes of
  // sbaddress0 are answered with status 3, set the busy error, and change nothing else.
  lemma BusyByNumber(s: Sb, q: Request, b: BusIn)
    requires (s.state != Idle || s.regs.busyError) && NeedsEngine(q)
    ensures DataReply(s.regs, s.state != Idle, q).resp == 3
    ensures var n, n' := Next(s, None, b), Next(s, Some(q), b); n' == n.(regs := n.regs.(busyError := true))
  {
    EngineIsBusy(s.regs, s.state != Idle, q);
    BusyRegs(s.regs, s.state != Idle, q, NextAddress(s.state, s.regs, b), EngineError(s.state, s.regs, b), b.rvalid,
             ShiftDown(b.rdata, Lane0(s.regs.addr, s.regs.access)));
    hide NextRegs, NextState, NextAddress, EngineError, ShiftDown, Lane0, NeedsEngine, TurnedAway, StrobesOf;
  }

  // Otherwise they are answered with status 0, and a read brings back the register.
  lemma IdleByNumber(s: Sb, q: Request)
    requires s.state == Idle && !s.regs.busyError && NeedsEngine(q)
    ensures DataReply(s.regs, false, q) == Response(if q.op == 1 then s.regs.data else 0, 0)
  {
  }
}
