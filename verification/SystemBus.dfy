/** System Bus Access: the bus engine DM_SBA and the registers of DM_CSRS that drive it. */
module SystemBus {
  import opened Words
  import opened Dmi

  type Address = a: int | 0 <= a < ADDRESSES

  const ADDRESSES: int := 0x1_0000_0000

  datatype State = Idle | Read | Write | WaitRead | WaitWrite

  // The five writable fields and the error field of sbcs, sbaddress0 and sbdata0.
  datatype Regs = Regs(
    busyError: bool, readOnAddr: bool, access: bv3, autoIncrement: bool, readOnData: bool, error: bv3,
    addr: Address, data: Word)

  datatype BusIn = BusIn(gnt: bool, rvalid: bool, err: bool, otherErr: bool, rdata: Word)
  datatype BusOut = BusOut(req: bool, addr: Address, we: bool, wdata: Word, be: Lanes)

  // What the registers tell the engine about the DMI access of this cycle.
  datatype Strobes = Strobes(addressWritten: bool, dataRead: bool, dataWritten: bool)

  const BAD_ADDRESS: bv3 := 2
  const BAD_ALIGNMENT: bv3 := 3
  const BAD_SIZE: bv3 := 4
  const OTHER: bv3 := 7

  // ---- The engine ----

  function Size(access: bv3): (n: nat)
    ensures n > 0
  {
    match access
    case 0 => 1
    case 1 => 2
    case 2 => 4
    case 3 => 8
    case 4 => 16
    case 5 => 32
    case 6 => 64
    case _ => 128
  }

  function Lane0(addr: Address, access: bv3): (k: nat)
    ensures k < 4
  {
    match access
    case 0 => addr % 4
    case 1 => addr % 4 - addr % 2
    case _ => 0
  }

  function ByteEnables(addr: Address, access: bv3): Lanes
  {
    var i := addr % 4;
    match access
    case 0 => [i == 0, i == 1, i == 2, i == 3]
    case 1 => [i < 2, i < 2, i >= 2, i >= 2]
    case 2 => [true, true, true, true]
    case _ => [false, false, false, false]
  }

  function ShiftUp(w: Word, k: nat): Word
    requires k < 4
  {
    match k
    case 0 => w
    case 1 => w << 8
    case 2 => w << 16
    case _ => w << 24
  }

  function ShiftDown(w: Word, k: nat): Word
    requires k < 4
  {
    match k
    case 0 => w
    case 1 => w >> 8
    case 2 => w >> 16
    case _ => w >> 24
  }

  predicate Aligned(addr: Address, access: bv3) { addr % Size(access) == 0 }

  // The address of the next element.
  function Stepped(addr: Address, access: bv3): Address { (addr + Size(access)) % ADDRESSES }

  // The check every started transaction passes through before its request goes
  // out; alignment is looked at last and wins.
  function Refusal(addr: Address, access: bv3): Option<bv3>
  {
    if !Aligned(addr, access) then Some(BAD_ALIGNMENT) else if access > 2 then Some(BAD_SIZE) else None
  }

  function Started(r: Regs, t: Strobes): State
  {
    if t.addressWritten && r.readOnAddr then Read
    else if t.dataWritten then Write
    else if t.dataRead && r.readOnData then Read
    else Idle
  }

  predicate Waits(st: State) { st == WaitRead || st == WaitWrite }

  function NextState(st: State, r: Regs, t: Strobes, b: BusIn): State
  {
    if st == Idle then Started(r, t)
    else if Refusal(r.addr, r.access).Some? then Idle
    else match st
      case Read => if b.gnt then WaitRead else Read
      case Write => if b.gnt then WaitWrite else Write
      case _ => if b.rvalid then Idle else st
  }

  function BusError(b: BusIn): Option<bv3>
  {
    if b.otherErr then Some(OTHER) else if b.err then Some(BAD_ADDRESS) else None
  }

  function EngineError(st: State, r: Regs, b: BusIn): Option<bv3>
  {
    if st == Idle then None
    else if Refusal(r.addr, r.access).Some? then Refusal(r.addr, r.access)
    else if Waits(st) && b.rvalid then BusError(b)
    else None
  }

  // The address after this cycle, before a DMI write.
  function NextAddress(st: State, r: Regs, b: BusIn): Address
  {
    if Waits(st) && b.rvalid && r.autoIncrement then Stepped(r.addr, r.access) else r.addr
  }

  function Drive(st: State, r: Regs): BusOut
  {
    var active := st == Read || st == Write;
    BusOut(active && Refusal(r.addr, r.access).None?, r.addr, st == Write, ShiftUp(r.data, Lane0(r.addr, r.access)),
           if active then ByteEnables(r.addr, r.access) else [false, false, false, false])
  }

  class BusMaster {
    var state: State

    constructor ()
      ensures state == Idle
    {
      state := Idle;
    }

    method Clock(r: Regs, t: Strobes, b: BusIn)
        returns (o: BusOut, address: Address, data: Word, error: Option<bv3>, busy: bool)
      modifies this
      ensures state == NextState(old(state), r, t, b)
      ensures o == Drive(old(state), r)
      ensures address == NextAddress(old(state), r, b)
      ensures data == ShiftDown(b.rdata, Lane0(r.addr, r.access))
      ensures error == EngineError(old(state), r, b)
      ensures busy == (old(state) != Idle)
    {
      hide ByteEnables, ShiftUp, ShiftDown, Lane0, Size;
      busy := state != Idle;
      var req, we, be, incr := false, false, [false, false, false, false], false;
      error := None;
      var stateD := state;
      match state {
        case Idle =>
          if t.addressWritten && r.readOnAddr { stateD := Read; }
          else if t.dataWritten { stateD := Write; }
          else if t.dataRead && r.readOnData { stateD := Read; }
        case Read =>
          req, be := true, ByteEnables(r.addr, r.access);
          if b.gnt { stateD := WaitRead; }
        case Write =>
          req, we, be := true, true, ByteEnables(r.addr, r.access);
          if b.gnt { stateD := WaitWrite; }
        case _ =>
          if b.rvalid {
            stateD, incr := Idle, r.autoIncrement;
            if b.otherErr { error := Some(OTHER); } else if b.err { error := Some(BAD_ADDRESS); }
          }
      }
      if r.access > 2 && state != Idle {
        req, stateD, error := false, Idle, Some(BAD_SIZE);
      }
      if r.addr % Size(r.access) != 0 && state != Idle {
        req, stateD, error := false, Idle, Some(BAD_ALIGNMENT);
      }
      address := if incr then (r.addr + Size(r.access)) % ADDRESSES else r.addr;
      data := ShiftDown(b.rdata, Lane0(r.addr, r.access));
      o := BusOut(req, r.addr, we, ShiftUp(r.data, Lane0(r.addr, r.access)), be);
      state := stateD;
    }
  }

  // ---- The registers ----

  function AccessField(w: Word): bv3 { ((w >> 17) & 7) as bv3 }
  predicate BusyErrorField(w: Word) { w & 0x40_0000 != 0 }
  predicate ReadOnAddrField(w: Word) { w & 0x10_0000 != 0 }
  predicate AutoIncrementField(w: Word) { w & 0x1_0000 != 0 }
  predicate ReadOnDataField(w: Word) { w & 0x8000 != 0 }
  predicate ErrorField(w: Word) { w & 0x7000 != 0 }

  // The accesses that the engine being busy, or a busy error, turns away.
  predicate NeedsBus(r: Request)
  {
    || ((Reads(r) || Writes(r)) && (r.reg == SbData0 || r.reg == SbData1))
    || (Writes(r) && (r.reg == SbAddress0 || r.reg == SbAddress1))
  }

  predicate TurnedAway(busy: bool, s: Regs, req: Option<Request>)
  {
    req.Some? && ((NeedsBus(req.value) && (busy || s.busyError))
      || (Writes(req.value) && req.value.reg == SbCS && busy))
  }

  function StrobesOf(busy: bool, s: Regs, req: Option<Request>): Strobes
  {
    if req.None? || TurnedAway(busy, s, req) || s.error != 0 then Strobes(false, false, false)
    else
      var r := req.value;
      Strobes(Writes(r) && r.reg == SbAddress0, Reads(r) && r.reg == SbData0, Writes(r) && r.reg == SbData0)
  }

  // The registers after an access that is let through.
  function Accessed(s: Regs, r: Request): Regs
  {
    var w := r.data;
    if !Writes(r) then s
    else match r.reg
      case SbCS =>
        s.(busyError := s.busyError && !BusyErrorField(w), readOnAddr := ReadOnAddrField(w), access := AccessField(w),
           autoIncrement := AutoIncrementField(w), readOnData := ReadOnDataField(w),
           error := if ErrorField(w) then 0 else s.error)
      case SbAddress0 => s.(addr := w as int)
      case SbData0 => s.(data := w)
      case _ => s
  }

  function AfterAccess(s: Regs, busy: bool, req: Option<Request>): Regs
  {
    if req.None? then s else if TurnedAway(busy, s, req) then s.(busyError := true) else Accessed(s, req.value)
  }

  // One clock of the registers; the engine's increment, error and read data come in.
  function NextRegs(s: Regs, busy: bool, req: Option<Request>, address: Address, error: Option<bv3>, rvalid: bool,
      data: Word): Regs
  {
    var d := AfterAccess(s.(addr := address), busy, req);
    var d := if error.Some? then d.(error := error.value) else d;
    if rvalid then d.(data := data) else d
  }

  // The reply to an access of the data register.
  function DataReply(s: Regs, busy: bool, r: Request): Response
  {
    if TurnedAway(busy, s, Some(r)) then Response(0, BUSY)
    else Response(if Reads(r) && r.reg == SbData0 then s.data else 0, SUCCESS)
  }

  const RESET: Regs := Regs(false, false, 2, false, false, 0, 0, 0)

  class SbRegisters {
    var busyError: bool
    var readOnAddr: bool
    var access: bv3
    var autoIncrement: bool
    var readOnData: bool
    var error: bv3
    var addr: Address
    var data: Word

    function Contents(): Regs
      reads this
    {
      Regs(busyError, readOnAddr, access, autoIncrement, readOnData, error, addr, data)
    }

    constructor ()
      ensures Contents() == RESET
    {
      busyError, readOnAddr, access, autoIncrement, readOnData, error := false, false, 2, false, false, 0;
      addr, data := 0, 0;
    }

    // The combinational half: strobes to the engine and the reply to the DMI.
    method Strobe(busy: bool, req: Option<Request>) returns (t: Strobes, reply: Response)
      ensures t == StrobesOf(busy, Contents(), req)
      ensures req.Some? && NeedsBus(req.value) ==> reply == DataReply(Contents(), busy, req.value)
    {
      t, reply := Strobes(false, false, false), Response(0, SUCCESS);
      if req.Some? {
        var r := req.value;
        var refused := busy || busyError;
        if Reads(r) {
          match r.reg {
            case SbData0 =>
              if refused { reply := Response(0, BUSY); }
              else { t, reply := t.(dataRead := error == 0), Response(data, SUCCESS); }
            case SbData1 => if refused { reply := Response(0, BUSY); }
            case _ =>
          }
        } else if Writes(r) {
          match r.reg {
            case SbAddress0 => if refused { reply := Response(0, BUSY); }
              else { t := t.(addressWritten := error == 0); }
            case SbData0 => if refused { reply := Response(0, BUSY); } else { t := t.(dataWritten := error == 0); }
            case SbAddress1 => if refused { reply := Response(0, BUSY); }
            case SbData1 => if refused { reply := Response(0, BUSY); }
            case SbCS => if busy { reply := Response(0, BUSY); }
            case _ =>
          }
        }
      }
    }

    // The write section, and the accesses that only leave a busy error.
    static method Access(s: Regs, busy: bool, r: Request) returns (d: Regs)
      ensures d == AfterAccess(s, busy, Some(r))
    {
      hide BusyErrorField, ReadOnAddrField, AccessField, AutoIncrementField, ReadOnDataField, ErrorField;
      d := s;
      var w, refused := r.data, busy || s.busyError;
      if Reads(r) {
        if (r.reg == SbData0 || r.reg == SbData1) && refused { d := d.(busyError := true); }
      } else if Writes(r) {
        match r.reg {
          case SbCS =>
            if busy { d := d.(busyError := true); }
            else {
              d := d.(busyError := s.busyError && !BusyErrorField(w),
                      readOnAddr := ReadOnAddrField(w), access := AccessField(w),
                      autoIncrement := AutoIncrementField(w), readOnData := ReadOnDataField(w),
                      error := if ErrorField(w) then 0 else s.error);
            }
          case SbAddress0 => if refused { d := d.(busyError := true); } else { d := d.(addr := w as int); }
          case SbAddress1 => if refused { d := d.(busyError := true); }
          case SbData0 => if refused { d := d.(busyError := true); } else { d := d.(data := w); }
          case SbData1 => if refused { d := d.(busyError := true); }
          case _ =>
        }
      }
    }

    method Clock(busy: bool, req: Option<Request>, address: Address, error: Option<bv3>, rvalid: bool, rdata: Word)
      modifies this
      ensures Contents() == NextRegs(old(Contents()), busy, req, address, error, rvalid, rdata)
    {
      var d := Contents().(addr := address);
      assert AfterAccess(d, busy, None) == d;
      hide AfterAccess;
      if req.Some? { d := Access(d, busy, req.value); }
      if error.Some? { d := d.(error := error.value); }
      if rvalid { d := d.(data := rdata); }
      Commit(d);
    }

    method Commit(d: Regs)
      modifies this
      ensures Contents() == d
    {
      busyError, readOnAddr, access, autoIncrement, readOnData :=
        d.busyError, d.readOnAddr, d.access, d.autoIncrement, d.readOnData;
      error, addr, data := d.error, d.addr, d.data;
    }
  }

  // ---- Both together ----

  datatype Sb = Sb(state: State, regs: Regs)

  function Next(s: Sb, req: Option<Request>, b: BusIn): Sb
  {
    var busy := s.state != Idle;
    Sb(NextState(s.state, s.regs, StrobesOf(busy, s.regs, req), b),
       NextRegs(s.regs, busy, req, NextAddress(s.state, s.regs, b), EngineError(s.state, s.regs, b),
                b.rvalid, ShiftDown(b.rdata, Lane0(s.regs.addr, s.regs.access))))
  }

  class SystemBusAccess {
    const master: BusMaster
    const file: SbRegisters

    function Contents(): Sb
      reads master, file
    {
      Sb(master.state, file.Contents())
    }

    constructor ()
      ensures Contents() == Sb(Idle, RESET) && fresh(master) && fresh(file)
    {
      master := new BusMaster();
      file := new SbRegisters();
    }

    method Clock(req: Option<Request>, b: BusIn) returns (o: BusOut, reply: Response)
      modifies master, file
      ensures Contents() == Next(old(Contents()), req, b)
      ensures o == Drive(old(Contents()).state, old(Contents()).regs)
      ensures req.Some? && NeedsBus(req.value) ==>
                reply == DataReply(old(Contents()).regs, old(Contents()).state != Idle, req.value)
    {
      hide NextRegs, StrobesOf, NextState, EngineError, NextAddress, Drive, DataReply;
      var r := file.Contents();
      var t;
      t, reply := file.Strobe(master.state != Idle, req);
      var address, data, error, busy;
      o, address, data, error, busy := master.Clock(r, t, b);
      file.Clock(busy, req, address, error, b.rvalid, data);
    }
  }
}
