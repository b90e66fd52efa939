/** What System Bus Access does to the bus and to memory: one transaction at a time,
    each started transaction ends once, and blocks of data move element by element. */
module BusTransfer {
  import opened Words
  import opened Dmi
  import opened SystemBus

  datatype Cycle = Cycle(req: Option<Request>, bus: BusIn)

  // Idle, without an error that would turn the debugger away.
  predicate Clean(s: Sb) { s.state == Idle && s.regs.error == 0 && !s.regs.busyError }

  predicate WritesReg(req: Option<Request>, reg: Register) { req.Some? && Writes(req.value) && req.value.reg == reg }
  predicate ReadsReg(req: Option<Request>, reg: Register) { req.Some? && Reads(req.value) && req.value.reg == reg }

  // ---- The joint invariant of engine and registers ----

  predicate Inv(s: Sb)
  {
    && (s.state != Idle ==> s.regs.error == 0)
    && (Waits(s.state) ==> Refusal(s.regs.addr, s.regs.access).None?)
  }

  lemma StepKeepsInv(s: Sb, req: Option<Request>, b: BusIn)
    requires Inv(s)
    ensures Inv(Next(s, req, b))
  {
    hide Aligned, Stepped, Refusal, Size, Accessed, ShiftDown, Lane0, EngineError, NextAddress, NextState;
    EngineGoesOn(s, req, b);
    if req.Some? {
      PassingAccess(s.regs, req.value);
      PassingAccess(s.regs.(addr := NextAddress(s.state, s.regs, b)), req.value);
    }
  }

  // The engine's side of a cycle that leaves a transaction open.
  lemma EngineGoesOn(s: Sb, req: Option<Request>, b: BusIn)
    ensures var t := StrobesOf(s.state != Idle, s.regs, req); var st := NextState(s.state, s.regs, t, b);
            st != Idle ==>
              && EngineError(s.state, s.regs, b).None? && NextAddress(s.state, s.regs, b) == s.regs.addr
              && (s.state == Idle ==> (t.addressWritten || t.dataWritten || t.dataRead) && !Waits(st))
              && (s.state != Idle ==> Refusal(s.regs.addr, s.regs.access).None?)
  {
    hide Aligned, Stepped, Refusal, Size, StrobesOf;
  }

  // What an access that is let through does to the fields a transaction depends on.
  lemma PassingAccess(r: Regs, q: Request)
    ensures !Writes(q) || (q.reg != SbCS && q.reg != SbAddress0 && q.reg != SbData0) ==> Accessed(r, q) == r
    ensures q.reg == SbAddress0 || q.reg == SbData0 ==>
              Accessed(r, q).error == r.error && Accessed(r, q).access == r.access
  {
  }

  // A transaction starts exactly on an access that asks for one, and never while an
  // error is set.
  lemma TransactionStarts(s: Sb, req: Option<Request>, b: BusIn)
    requires s.state == Idle
    ensures Next(s, req, b).state != Idle <==>
              && Clean(s)
              && (WritesReg(req, SbData0) || (WritesReg(req, SbAddress0) && s.regs.readOnAddr)
                 || (ReadsReg(req, SbData0) && s.regs.readOnData))
  {
  }

  // From the request to the response, the transaction does not change: nothing the
  // debugger sends reaches a register it depends on.
  lemma TransactionIsStable(s: Sb, req: Option<Request>, b: BusIn)
    requires Inv(s) && s.state != Idle && (b.rvalid ==> Waits(s.state))
    ensures var s' := Next(s, req, b);
            s'.state != Idle ==>
              && s'.regs == s.regs.(busyError := s'.regs.busyError)
              && (s.regs.busyError ==> s'.regs.busyError)
              && (s'.state == s.state || (s.state == Read && s'.state == WaitRead)
                 || (s.state == Write && s'.state == WaitWrite))
  {
    hide Aligned, Stepped, Refusal, Size, AccessField, BusyErrorField, ReadOnAddrField, AutoIncrementField;
    hide ReadOnDataField, ErrorField;
  }

  // ---- Single cycles ----

  lemma IdleCycle(s: Sb, req: Option<Request>, b: BusIn)
    requires s.state == Idle && !b.rvalid && req.None?
    ensures Next(s, req, b) == s
  {
    hide Refusal, ShiftDown, Lane0;
  }

  lemma DataWriteCycle(s: Sb, req: Option<Request>, b: BusIn)
    requires Clean(s) && !b.rvalid && WritesReg(req, SbData0)
    ensures Next(s, req, b) == Sb(Write, s.regs.(data := req.value.data))
  {
    hide Refusal, ShiftDown, Lane0, AccessField, BusyErrorField, ReadOnAddrField, AutoIncrementField;
    hide ReadOnDataField, ErrorField;
  }

  lemma DataReadCycle(s: Sb, req: Option<Request>, b: BusIn)
    requires Clean(s) && !b.rvalid && ReadsReg(req, SbData0)
    ensures Next(s, req, b) == s.(state := if s.regs.readOnData then Read else Idle)
  {
    hide Refusal, ShiftDown, Lane0, AccessField, BusyErrorField, ReadOnAddrField, AutoIncrementField;
    hide ReadOnDataField, ErrorField;
  }

  lemma AddressWriteCycle(s: Sb, req: Option<Request>, b: BusIn)
    requires Clean(s) && !b.rvalid && WritesReg(req, SbAddress0)
    ensures Next(s, req, b) == Sb(if s.regs.readOnAddr then Read else Idle, s.regs.(addr := req.value.data as int))
  {
    hide Refusal, ShiftDown, Lane0, AccessField, BusyErrorField, ReadOnAddrField, AutoIncrementField;
    hide ReadOnDataField, ErrorField;
  }

  // The registers after a good response.
  function Answered(r: Regs, rdata: Word): Regs
  {
    r.(addr := if r.autoIncrement then Stepped(r.addr, r.access)
      else r.addr, data := ShiftDown(rdata, Lane0(r.addr, r.access)))
  }

  // A transaction that passed the check, left alone by the debugger and the bus's errors.
  lemma BusyCycle(s: Sb, req: Option<Request>, b: BusIn)
    requires s.state != Idle && req.None? && Refusal(s.regs.addr, s.regs.access).None?
    requires b.rvalid ==> Waits(s.state) && BusError(b).None?
    ensures !Waits(s.state) ==>
              Next(s, req, b)
                == s.(state := if !b.gnt then s.state else if s.state == Read then WaitRead else WaitWrite)
    ensures Waits(s.state) ==> Next(s, req, b) == if b.rvalid then Sb(Idle, Answered(s.regs, b.rdata)) else s
  {
    hide Refusal, ShiftDown, Lane0, Stepped, BusError, Accessed, Started;
  }

  lemma OnlyDataWritesWrite(s: Sb, req: Option<Request>, b: BusIn)
    requires s.state == Idle && Next(s, req, b).state == Write
    ensures Clean(s) && WritesReg(req, SbData0)
  {
    hide NextRegs;
  }

  // ---- Each transaction ends once ----

  function Count(b: bool): nat { if b then 1 else 0 }

  predicate Open(s: Sb) { s.state == Read || s.state == Write }

  predicate Starts(s: Sb, c: Cycle) { s.state == Idle && Next(s, c.req, c.bus).state != Idle }

  predicate Granted(s: Sb, c: Cycle) { Drive(s.state, s.regs).req && c.bus.gnt }

  // Refused by the engine itself: the error is reported and no request goes out.
  predicate Rejected(s: Sb, c: Cycle)
  {
    && Open(s) && !Drive(s.state, s.regs).req
    && EngineError(s.state, s.regs, c.bus) in {Some(BAD_ALIGNMENT), Some(BAD_SIZE)}
    && Next(s, c.req, c.bus).state == Idle
  }

  predicate Responded(s: Sb, c: Cycle) { Waits(s.state) && c.bus.rvalid }

  lemma StepBalanced(s: Sb, c: Cycle)
    requires Inv(s)
    ensures var s' := Next(s, c.req, c.bus);
            && Count(Open(s')) + Count(Granted(s, c)) + Count(Rejected(s, c)) == Count(Open(s)) + Count(Starts(s, c))
            && Count(Waits(s'.state)) + Count(Responded(s, c)) == Count(Waits(s.state)) + Count(Granted(s, c))
  {
    hide Aligned, Stepped, Size, NextRegs;
    assert Refusal(s.regs.addr, s.regs.access) in {None, Some(BAD_ALIGNMENT), Some(BAD_SIZE)};
  }

  function Run(s: Sb, cs: seq<Cycle>): Sb
    decreases |cs|
  {
    if cs == [] then s else Run(Next(s, cs[0].req, cs[0].bus), cs[1..])
  }

  function Total(event: (Sb, Cycle) -> bool, s: Sb, cs: seq<Cycle>): nat
    decreases |cs|
  {
    if cs == [] then 0 else Count(event(s, cs[0])) + Total(event, Next(s, cs[0].req, cs[0].bus), cs[1..])
  }

  // Over any run, under any DMI traffic and any bus: the transactions started end in
  // one grant or one refusal each, and the grants in one response each, but for the
  // one that may be under way.
  lemma {:induction false} TransactionsEndOnce(s: Sb, cs: seq<Cycle>)
    requires Inv(s)
    ensures var end := Run(s, cs);
            && Inv(end)
            && Total(Granted, s, cs) + Total(Rejected, s, cs) + Count(Open(end))
               == Total(Starts, s, cs) + Count(Open(s))
            && Total(Responded, s, cs) + Count(Waits(end.state)) == Total(Granted, s, cs) + Count(Waits(s.state))
    decreases |cs|
  {
    hide Inv, Next, Open, Starts, Granted, Rejected, Responded;
    if cs != [] {
      StepKeepsInv(s, cs[0].req, cs[0].bus);
      StepBalanced(s, cs[0]);
      TransactionsEndOnce(Next(s, cs[0].req, cs[0].bus), cs[1..]);
    }
  }

  // ---- Memory behind the bus ----

  type Memory = Address -> Byte

  predicate SameMemory(m: Memory, m': Memory)
  {
    forall a: Address :: m(a) == m'(a)
  }

  function WordAt(m: Memory, a: Address): Word
  {
    var base := a - a % 4;
    FromLanes(m(base), m(base + 1), m(base + 2), m(base + 3))
  }

  // A granted write: the enabled lanes of the addressed word.
  function Stored(m: Memory, o: BusOut): Memory
  {
    (a: Address) => if a / 4 == o.addr / 4 && o.be[a % 4] then Lane(o.wdata, a % 4) else m(a)
  }

  // The bus side: what a granted read will return, and the memory.
  datatype World = World(sb: Sb, mem: Memory, latched: Word)

  function Step(w: World, c: Cycle): World
  {
    var o := Drive(w.sb.state, w.sb.regs);
    World(Next(w.sb, c.req, c.bus),
          if Granted(w.sb, c) && o.we then Stored(w.mem, o) else w.mem,
          if Granted(w.sb, c) && !o.we then WordAt(w.mem, o.addr) else w.latched)
  }

  // A bus that answers only what it was asked, with the word it read, and no error.
  predicate Faithful(w: World, b: BusIn)
  {
    b.rvalid ==> Waits(w.sb.state) && !b.err && !b.otherErr && (w.sb.state == WaitRead ==> b.rdata == w.latched)
  }

  // ---- Elements ----

  // n bytes of a value, at an address that is a multiple of n.
  function StoreElement(m: Memory, addr: Address, n: nat, v: Word): Memory
    requires n <= 4
  {
    (a: Address) => if addr <= a < addr + n then Lane(v, a - addr) else m(a)
  }

  lemma ShiftedUp(w: Word, k: nat, j: nat)
    requires k <= j < 4
    ensures Lane(ShiftUp(w, k), j) == Lane(w, j - k)
  {
    match k
    case 0 =>
    case 1 =>
    case 2 =>
    case _ =>
  }

  lemma ShiftedDown(w: Word, k: nat, j: nat)
    requires j + k < 4
    ensures Lane(ShiftDown(w, k), j) == Lane(w, j + k)
  {
    match k
    case 0 =>
    case 1 =>
    case 2 =>
    case _ =>
  }

  // The lanes and byte enables of an aligned write cover exactly the element.
  lemma WriteStoresElement(m: Memory, s: Sb, a: Address)
    requires s.state == Write && Refusal(s.regs.addr, s.regs.access).None?
    ensures Stored(m, Drive(s.state, s.regs))(a) == StoreElement(m, s.regs.addr, Size(s.regs.access), s.regs.data)(a)
  {
    hide Lane, ShiftUp;
    var r := s.regs;
    var k := Lane0(r.addr, r.access);
    if a / 4 == r.addr / 4 && k <= a % 4 { ShiftedUp(r.data, k, a % 4); }
    match r.access
    case 0 =>
    case 1 =>
    case _ =>
  }

  // A word read from memory, shifted down, starts with the addressed element.
  lemma ReadReturnsElement(m: Memory, r: Regs, j: nat)
    requires Refusal(r.addr, r.access).None? && j < Size(r.access)
    ensures r.addr + j < ADDRESSES && Lane(ShiftDown(WordAt(m, r.addr), Lane0(r.addr, r.access)), j) == m(r.addr + j)
  {
    hide Lane, ShiftDown;
    var k := Lane0(r.addr, r.access);
    match r.access
    case 0 => ShiftedDown(WordAt(m, r.addr), k, j);
    case 1 => ShiftedDown(WordAt(m, r.addr), k, j);
    case _ => ShiftedDown(WordAt(m, r.addr), k, j);
  }

  // ---- Block writes ----

  // Memory and address as they will be when the transaction under way is over.
  function PendingMem(w: World): Memory
  {
    var r := w.sb.regs;
    if w.sb.state == Write && Refusal(r.addr, r.access).None? then StoreElement(w.mem, r.addr, Size(r.access), r.data)
      else w.mem
  }

  function PendingAddr(w: World): Address
  {
    var r := w.sb.regs;
    if w.sb.state != Idle && r.autoIncrement && Refusal(r.addr, r.access).None? then Stepped(r.addr, r.access)
      else r.addr
  }

  // A write of the data register that starts a transaction.
  predicate StartsWrite(w: World, c: Cycle)
  {
    Clean(w.sb) && WritesReg(c.req, SbData0) && Refusal(w.sb.regs.addr, w.sb.regs.access).None?
  }

  // Under any DMI traffic and any delays, memory changes by exactly the elements
  // written through the data register, at the address the register then holds.
  lemma MemoryLaw(w: World, c: Cycle)
    requires Inv(w.sb) && Faithful(w, c.bus)
    ensures SameMemory(PendingMem(Step(w, c)),
                       if StartsWrite(w, c) then
                         StoreElement(w.mem, w.sb.regs.addr, Size(w.sb.regs.access), c.req.value.data)
                       else PendingMem(w))
  {
    if w.sb.state == Idle { IdleMemory(w, c); } else { BusyMemory(w, c); }
  }

  lemma IdleMemory(w: World, c: Cycle)
    requires w.sb.state == Idle && Faithful(w, c.bus)
    ensures PendingMem(Step(w, c)) == if StartsWrite(w, c) then
            StoreElement(w.mem, w.sb.regs.addr, Size(w.sb.regs.access), c.req.value.data)
                                      else w.mem
  {
    hide Next, StoreElement, Stored, WordAt, Aligned;
    if Clean(w.sb) && WritesReg(c.req, SbData0) { DataWriteCycle(w.sb, c.req, c.bus); }
    if Next(w.sb, c.req, c.bus).state == Write { OnlyDataWritesWrite(w.sb, c.req, c.bus); }
  }

  lemma BusyMemory(w: World, c: Cycle)
    requires w.sb.state != Idle && Faithful(w, c.bus) && Inv(w.sb)
    ensures SameMemory(PendingMem(Step(w, c)), PendingMem(w)) && !StartsWrite(w, c)
  {
    hide Lane, ByteEnables, ShiftUp, ShiftDown, WordAt, BusError, Lane0, NextRegs, Aligned, Size;
    if Next(w.sb, c.req, c.bus).state != Idle { TransactionIsStable(w.sb, c.req, c.bus); }
    if w.sb.state == Write && Refusal(w.sb.regs.addr, w.sb.regs.access).None? {
      forall a: Address ensures Stored(w.mem, Drive(w.sb.state, w.sb.regs))(a) == PendingMem(w)(a) {
        WriteStoresElement(w.mem, w.sb, a);
      }
    }
    hide Refusal, StoreElement, Stored;
  }

  // A block write in progress: no error, the address stepping by itself from one
  // aligned element to the next.
  predicate Streaming(w: World)
  {
    var r := w.sb.regs;
    r.error == 0 && !r.busyError && r.autoIncrement && r.access <= 2 && Aligned(r.addr, r.access)
  }

  // The debugger writes the data register, each time only when the engine is idle.
  predicate IsBlockWrite(w: World, cs: seq<Cycle>)
    decreases |cs|
  {
    cs != [] ==>
      && Faithful(w, cs[0].bus)
      && (cs[0].req.Some? ==> w.sb.state == Idle && Writes(cs[0].req.value) && cs[0].req.value.reg == SbData0)
      && IsBlockWrite(Step(w, cs[0]), cs[1..])
  }

  function RunWorld(w: World, cs: seq<Cycle>): World
    decreases |cs|
  {
    if cs == [] then w else RunWorld(Step(w, cs[0]), cs[1..])
  }

  // The data of the requests, in order.
  function Values(cs: seq<Cycle>): seq<Word>
  {
    if cs == [] then [] else (if cs[0].req.Some? then [cs[0].req.value.data] else []) + Values(cs[1..])
  }

  function StoreAll(m: Memory, addr: Address, n: nat, vs: seq<Word>): Memory
    requires n <= 4
    decreases |vs|
  {
    if vs == [] then m else StoreAll(StoreElement(m, addr, n, vs[0]), (addr + n) % ADDRESSES, n, vs[1..])
  }

  lemma AlignedNext(addr: Address, access: bv3)
    requires access <= 2 && Aligned(addr, access)
    ensures Aligned(Stepped(addr, access), access)
  {
    FitsNext(addr, Size(access));
  }

  lemma StreamingStep(w: World, c: Cycle)
    requires Streaming(w) && Faithful(w, c.bus) && Inv(w.sb)
    requires c.req.Some? ==> w.sb.state == Idle && Writes(c.req.value) && c.req.value.reg == SbData0
    ensures Streaming(Step(w, c)) && Step(w, c).sb.regs.access == w.sb.regs.access
    ensures PendingAddr(Step(w, c)) == if c.req.Some? then Stepped(PendingAddr(w), w.sb.regs.access) else PendingAddr(w)
  {
    hide Aligned, Stepped, Size, Next, Refusal, Streaming, Step, Inv;
    if w.sb.state == Idle { IdleStreaming(w, c); } else { BusyStreaming(w, c); }
  }

  lemma IdleStreaming(w: World, c: Cycle)
    requires Streaming(w) && Faithful(w, c.bus) && w.sb.state == Idle
    requires c.req.Some? ==> Writes(c.req.value) && c.req.value.reg == SbData0
    ensures Streaming(Step(w, c)) && Step(w, c).sb.regs.access == w.sb.regs.access
    ensures PendingAddr(Step(w, c)) == if c.req.Some? then Stepped(PendingAddr(w), w.sb.regs.access) else PendingAddr(w)
  {
    hide Next, Aligned, Stepped, Size, Stored, WordAt;
    if c.req.Some? { DataWriteCycle(w.sb, c.req, c.bus); } else { IdleCycle(w.sb, c.req, c.bus); }
  }

  lemma BusyStreaming(w: World, c: Cycle)
    requires Streaming(w) && Faithful(w, c.bus) && w.sb.state != Idle && c.req.None?
    ensures Streaming(Step(w, c)) && Step(w, c).sb.regs.access == w.sb.regs.access
    ensures PendingAddr(Step(w, c)) == PendingAddr(w)
  {
    hide Next, Aligned, Stepped, Size, Stored, WordAt;
    BusyCycle(w.sb, c.req, c.bus);
    AlignedNext(w.sb.regs.addr, w.sb.regs.access);
  }

  lemma {:induction false} SameStores(m: Memory, m': Memory, addr: Address, n: nat, vs: seq<Word>)
    requires n <= 4 && SameMemory(m, m')
    ensures SameMemory(StoreAll(m, addr, n, vs), StoreAll(m', addr, n, vs))
    decreases |vs|
  {
    hide Lane;
    if vs != [] {
      SameStores(StoreElement(m, addr, n, vs[0]), StoreElement(m', addr, n, vs[0]), (addr + n) % ADDRESSES, n, vs[1..]);
    }
  }

  // The values written reach memory as consecutive elements and nothing else
  // changes, for every delay of every grant and response.
  lemma {:induction false} BlockWrite(w: World, cs: seq<Cycle>)
    requires Inv(w.sb) && Streaming(w) && IsBlockWrite(w, cs)
    ensures var n := Size(w.sb.regs.access); var end := RunWorld(w, cs);
            && SameMemory(PendingMem(end), StoreAll(PendingMem(w), PendingAddr(w), n, Values(cs)))
            && (end.sb.state == Idle ==> PendingMem(end) == end.mem && PendingAddr(end) == end.sb.regs.addr)
    decreases |cs|
  {
    hide Aligned, Inv, Faithful, Size, StoreElement, PendingMem, PendingAddr, Next, Refusal, SameMemory;
    hide Streaming, Step, IsBlockWrite;
    StreamSize(w);
    if cs == [] {
      EndOfBlock(w);
      assert SameMemory(PendingMem(w), PendingMem(w)) by { SameItself(PendingMem(w)); }
    } else {
      BlockHead(w, cs);
      var w', n := Step(w, cs[0]), Size(w.sb.regs.access);
      BlockStep(w, cs[0]);
      BlockWrite(w', cs[1..]);
      FirstValue(cs);
      var first := if cs[0].req.Some? then StoreElement(PendingMem(w), PendingAddr(w), n, cs[0].req.value.data)
        else PendingMem(w);
      SameStores(PendingMem(w'), first, PendingAddr(w'), n, Values(cs[1..]));
      SameTwice(PendingMem(RunWorld(w, cs)), StoreAll(PendingMem(w'), PendingAddr(w'), n, Values(cs[1..])),
                StoreAll(PendingMem(w), PendingAddr(w), n, Values(cs)));
    }
  }

  lemma FirstValue(cs: seq<Cycle>)
    requires cs != []
    ensures cs[0].req.None? ==> Values(cs) == Values(cs[1..])
    ensures cs[0].req.Some? ==>
              Values(cs) != [] && Values(cs)[0] == cs[0].req.value.data && Values(cs)[1..] == Values(cs[1..])
  {
  }

  lemma StreamSize(w: World)
    requires Streaming(w)
    ensures Size(w.sb.regs.access) <= 4
  {
  }

  lemma BlockHead(w: World, cs: seq<Cycle>)
    requires IsBlockWrite(w, cs) && cs != []
    ensures Faithful(w, cs[0].bus) && IsBlockWrite(Step(w, cs[0]), cs[1..])
    ensures cs[0].req.Some? ==> w.sb.state == Idle && Writes(cs[0].req.value) && cs[0].req.value.reg == SbData0
  {
    hide Faithful, Step;
  }

  lemma SameItself(m: Memory)
    ensures SameMemory(m, m)
  {
  }

  lemma SameTwice(m: Memory, m': Memory, m'': Memory)
    requires SameMemory(m, m') && SameMemory(m', m'')
    ensures SameMemory(m, m'')
  {
  }

  lemma BlockStep(w: World, c: Cycle)
    requires Inv(w.sb) && Streaming(w) && Faithful(w, c.bus)
    requires c.req.Some? ==> w.sb.state == Idle && Writes(c.req.value) && c.req.value.reg == SbData0
    ensures var w', n := Step(w, c), Size(w.sb.regs.access);
            && n <= 4 && Inv(w'.sb) && Streaming(w') && w'.sb.regs.access == w.sb.regs.access
            && PendingAddr(w') == (if c.req.Some? then Stepped(PendingAddr(w), w.sb.regs.access) else PendingAddr(w))
            && SameMemory(PendingMem(w'),
                          if c.req.Some? then StoreElement(PendingMem(w), PendingAddr(w), n, c.req.value.data)
                            else PendingMem(w))
  {
    hide Aligned, Stepped, Inv, Faithful, Size, StoreElement, PendingMem, PendingAddr, Next, Refusal, Streaming;
    hide Step, SameMemory, StartsWrite;
    BlockStart(w, c);
    MemoryLaw(w, c);
    StreamingStep(w, c);
    StepBothKeepInv(w, c);
  }

  lemma StepBothKeepInv(w: World, c: Cycle)
    requires Inv(w.sb)
    ensures Inv(Step(w, c).sb)
  {
    hide Inv, Next;
    StepKeepsInv(w.sb, c.req, c.bus);
  }

  lemma EndOfBlock(w: World)
    ensures w.sb.state == Idle ==> PendingMem(w) == w.mem && PendingAddr(w) == w.sb.regs.addr
  {
  }

  lemma BlockStart(w: World, c: Cycle)
    requires Streaming(w)
    requires c.req.Some? ==> w.sb.state == Idle && Writes(c.req.value) && c.req.value.reg == SbData0
    ensures c.req.Some? <==> StartsWrite(w, c)
    ensures c.req.Some? ==> PendingMem(w) == w.mem && PendingAddr(w) == w.sb.regs.addr
    ensures Size(w.sb.regs.access) <= 4
  {
  }

  // ---- Where the elements of a block end up ----

  function Wrap(x: int): Address { x % ADDRESSES }

  // An element is n bytes; n divides the address.
  predicate Fits(addr: Address, n: nat)
  {
    (n == 1 || n == 2 || n == 4) && addr % n == 0
  }

  lemma FitsNext(addr: Address, n: nat)
    requires Fits(addr, n)
    ensures Fits(Wrap(addr + n), n) && addr + n <= ADDRESSES
  {
  }

  // How far a lies past addr, going upwards and around.
  function Past(addr: Address, a: Address): nat { Wrap(a - addr) }

  lemma PastNext(addr: Address, n: nat, a: Address)
    requires Fits(addr, n)
    ensures addr <= a < addr + n <==> Past(addr, a) < n
    ensures Past(addr, a) >= n ==> Past(Wrap(addr + n), a) == Past(addr, a) - n
    ensures Past(addr, a) < n ==> Past(addr, a) == a - addr && Past(Wrap(addr + n), a) == ADDRESSES - n + (a - addr)
  {
  }

  // A block that does not lap itself: byte j of element i is byte j of the value,
  // and every byte outside the block is untouched.
  lemma {:induction false} BlockContents(m: Memory, addr: Address, n: nat, vs: seq<Word>, a: Address)
    requires Fits(addr, n) && n * |vs| <= ADDRESSES
    ensures StoreAll(m, addr, n, vs)(a) == ByteOf(m, Past(addr, a), n, vs, a)
    decreases |vs|
  {
    hide Lane, Past;
    if vs != [] {
      FitsNext(addr, n);
      PastNext(addr, n, a);
      var m' := StoreElement(m, addr, n, vs[0]);
      ShorterBlock(n, vs);
      BlockContents(m', Wrap(addr + n), n, vs[1..], a);
      hide Fits;
      NextByte(m, m', Past(addr, a), n, vs, a);
    }
  }

  // The byte p past the start of a block.
  function ByteOf(m: Memory, p: nat, n: nat, vs: seq<Word>, a: Address): Byte
    requires n == 1 || n == 2 || n == 4
  {
    if p < n * |vs| then Lane(vs[p / n], p % n) else m(a)
  }

  lemma ShorterBlock(n: nat, vs: seq<Word>)
    requires vs != []
    ensures n * |vs| == n + n * |vs[1..]|
  {
  }

  lemma NextByte(m: Memory, m': Memory, p: nat, n: nat, vs: seq<Word>, a: Address)
    requires (n == 1 || n == 2 || n == 4) && vs != [] && n * |vs| <= ADDRESSES
    requires m'(a) == if p < n then Lane(vs[0], p) else m(a)
    ensures ByteOf(m, p, n, vs, a) == ByteOf(m', if p < n then ADDRESSES - n + p else p - n, n, vs[1..], a)
  {
    hide Lane;
    ShorterBlock(n, vs);
    Elementwise(n, p);
  }

  lemma Elementwise(n: nat, p: nat)
    requires n == 1 || n == 2 || n == 4
    ensures p < n ==> p / n == 0 && p % n == p
    ensures p >= n ==> (p - n) / n == p / n - 1 && (p - n) % n == p % n
  {
    if n == 1 {
    } else if n == 2 {
    } else {
    }
  }

  // A finished block write, byte by byte over all of memory.
  lemma BlockWriteStores(w: World, cs: seq<Cycle>, a: Address)
    requires Inv(w.sb) && Streaming(w) && w.sb.state == Idle && IsBlockWrite(w, cs) && RunWorld(w, cs).sb.state == Idle
    requires Size(w.sb.regs.access) * |Values(cs)| <= ADDRESSES
    ensures var n := Size(w.sb.regs.access);
            && Fits(w.sb.regs.addr, n)
            && RunWorld(w, cs).mem(a) == ByteOf(w.mem, Past(w.sb.regs.addr, a), n, Values(cs), a)
  {
    hide Inv, IsBlockWrite, StoreAll, Past, ByteOf, RunWorld, Values, Refusal;
    BlockWrite(w, cs);
    EndOfBlock(w);
    EndOfBlock(RunWorld(w, cs));
    BlockContents(w.mem, w.sb.regs.addr, Size(w.sb.regs.access), Values(cs), a);
  }

  // ---- Block reads ----

  // The data register holds, or is about to hold, the element at e.
  predicate Shows(w: World, e: Address)
  {
    var r := w.sb.regs;
    match w.sb.state
    case Idle => forall j: nat | j < Size(r.access) && j < 4 && e + j < ADDRESSES :: Lane(r.data, j) == w.mem(e + j)
    case Read => r.addr == e
    case WaitRead => r.addr == e && w.latched == WordAt(w.mem, e)
    case _ => false
  }

  // A block read in progress: every read of the data register fetches the next element.
  predicate Fetching(w: World, e: Address)
  {
    && Streaming(w) && w.sb.regs.readOnData && Shows(w, e)
    && (w.sb.state == Idle ==> w.sb.regs.addr == Wrap(e + Size(w.sb.regs.access)) && Fits(e, Size(w.sb.regs.access)))
  }

  predicate ReadsData(w: World, c: Cycle)
  {
    c.req.Some? ==> w.sb.state == Idle && Reads(c.req.value) && c.req.value.reg == SbData0
  }

  // Waiting and fetching leave memory alone; a read moves on to the next element.
  lemma FetchStep(w: World, e: Address, c: Cycle)
    requires Inv(w.sb) && Fetching(w, e) && Faithful(w, c.bus) && ReadsData(w, c)
    ensures var n, w' := Size(w.sb.regs.access), Step(w, c);
            && Inv(w'.sb) && w'.mem == w.mem && w'.sb.regs.access == w.sb.regs.access
            && Fetching(w', if c.req.Some? then Wrap(e + n) else e)
  {
    hide Next, Inv, Aligned, Size, Lane, Stored, WordAt, ShiftDown, Lane0;
    StepBothKeepInv(w, c);
    AlignedNext(w.sb.regs.addr, w.sb.regs.access);
    StreamFits(w);
    if c.req.Some? { DataReadCycle(w.sb, c.req, c.bus); }
    else if w.sb.state == Idle { IdleCycle(w.sb, c.req, c.bus); }
    else {
      BusyCycle(w.sb, c.req, c.bus);
      forall j: nat | j < Size(w.sb.regs.access)
        ensures w.sb.regs.addr + j < ADDRESSES
        ensures Lane(ShiftDown(WordAt(w.mem, w.sb.regs.addr), Lane0(w.sb.regs.addr, w.sb.regs.access)), j)
                == w.mem(w.sb.regs.addr + j)
      {
        StreamSize(w);
        ReadReturnsElement(w.mem, w.sb.regs, j);
      }
    }
  }

  lemma StreamFits(w: World)
    requires Streaming(w)
    ensures Fits(w.sb.regs.addr, Size(w.sb.regs.access))
  {
  }

  // Writing the address, with readonaddr set, fetches the first element.
  lemma AddressStartsFetch(w: World, c: Cycle)
    requires Inv(w.sb) && w.sb.state == Idle && Faithful(w, c.bus) && c.req.Some?
    requires Writes(c.req.value) && c.req.value.reg == SbAddress0
    requires var r := w.sb.regs;
             r.error == 0 && !r.busyError && r.autoIncrement && r.access <= 2 && r.readOnAddr && r.readOnData
    requires Aligned(c.req.value.data as int, w.sb.regs.access)
    ensures Inv(Step(w, c).sb) && Fetching(Step(w, c), c.req.value.data as int) && Step(w, c).mem == w.mem
  {
    hide Next, Inv, Aligned, Size, Stored, WordAt;
    StepBothKeepInv(w, c);
    AddressWriteCycle(w.sb, c.req, c.bus);
  }

  predicate IsBlockRead(w: World, cs: seq<Cycle>)
    decreases |cs|
  {
    cs != [] ==> Faithful(w, cs[0].bus) && ReadsData(w, cs[0]) && IsBlockRead(Step(w, cs[0]), cs[1..])
  }

  // What the debugger gets for its reads, in order.
  function Replies(w: World, cs: seq<Cycle>): seq<Response>
    decreases |cs|
  {
    if cs == [] then []
    else
      (if cs[0].req.Some? then [DataReply(w.sb.regs, w.sb.state != Idle, cs[0].req.value)] else [])
      + Replies(Step(w, cs[0]), cs[1..])
  }

  // The low n bytes of every reply are consecutive elements of memory.
  predicate AreElements(m: Memory, e: Address, n: nat, rs: seq<Response>)
    requires n <= 4
    decreases |rs|
  {
    rs != [] ==>
      && rs[0].resp == SUCCESS
      && (forall j: nat | j < n :: e + j < ADDRESSES && Lane(rs[0].data, j) == m(e + j))
      && AreElements(m, Wrap(e + n), n, rs[1..])
  }

  lemma ReplyIsElement(w: World, e: Address, c: Cycle)
    requires Fetching(w, e) && ReadsData(w, c) && c.req.Some?
    ensures var r := DataReply(w.sb.regs, w.sb.state != Idle, c.req.value);
            && r.resp == SUCCESS
            && forall j: nat | j < Size(w.sb.regs.access) :: e + j < ADDRESSES && Lane(r.data, j) == w.mem(e + j)
  {
    hide Lane, Size;
    StreamSize(w);
    FitsNext(e, Size(w.sb.regs.access));
  }

  // Reads of the data register, each made when the engine is idle, return the
  // elements of memory in order, for every delay of every grant and response.
  lemma {:induction false} BlockRead(w: World, e: Address, cs: seq<Cycle>)
    requires Inv(w.sb) && Fetching(w, e) && IsBlockRead(w, cs) && Size(w.sb.regs.access) <= 4
    ensures RunWorld(w, cs).mem == w.mem
    ensures AreElements(w.mem, e, Size(w.sb.regs.access), Replies(w, cs))
    decreases |cs|
  {
    hide Inv, Fetching, Faithful, Size, Step, DataReply, Lane, ReadsData;
    if cs != [] {
      var w', n := Step(w, cs[0]), Size(w.sb.regs.access);
      FetchStep(w, e, cs[0]);
      if cs[0].req.Some? {
        ReplyIsElement(w, e, cs[0]);
        BlockRead(w', Wrap(e + n), cs[1..]);
        assert Replies(w, cs)[1..] == Replies(w', cs[1..]);
      } else {
        BlockRead(w', e, cs[1..]);
        assert Replies(w, cs) == Replies(w', cs[1..]);
      }
    }
  }
}
