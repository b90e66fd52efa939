/** DM_CSRS, the run-control and abstract-command part: dmcontrol, command,
    abstractauto, data and the program buffer, with their busy gating. */
module ControlRegs {
  import opened Words
  import opened Dmi

  type Data = d: seq<Word> | |d| == 2 witness [0, 0]
  type Progbuf = p: seq<Word> | |p| == 8 witness [0, 0, 0, 0, 0, 0, 0, 0]

  datatype Regs = Regs(
    haltreq: bool, resumereq: bool, ndmreset: bool, dmactive: bool,
    command: Word, autoData: bv12, autoProg: bv16, data: Data, progbuf: Progbuf)

  function ResetRegs(): Regs { Regs(false, false, false, false, 0, 0, 0, [0, 0], [0, 0, 0, 0, 0, 0, 0, 0]) }

  // Fields of the words a debugger writes.
  predicate HaltreqField(w: Word) { w & 0x8000_0000 != 0 }
  predicate ResumereqField(w: Word) { w & 0x4000_0000 != 0 }
  predicate NdmresetField(w: Word) { w & 2 != 0 }
  predicate DmactiveField(w: Word) { w & 1 != 0 }
  function AutoDataField(w: Word): bv12 { (w & 3) as bv12 }
  function AutoProgField(w: Word): bv16 { ((w >> 16) & 0xff) as bv16 }

  // The registers after a DMI write; `busy` gates those a running command owns.
  function WriteEffect(s: Regs, busy: bool, r: Request): (d: Regs)
  {
    var w := r.data;
    if r.reg == DmControl then
      s.(haltreq := HaltreqField(w), resumereq := ResumereqField(w), ndmreset := NdmresetField(w),
        dmactive := DmactiveField(w))
    else if busy then s
    else match r.reg
      case Command => s.(command := w)
      case AbstractAuto => s.(autoData := AutoDataField(w), autoProg := AutoProgField(w))
      case Data(i) => s.(data := s.data[i := w])
      case Progbuf(j) => s.(progbuf := s.progbuf[j := w])
      case _ => s
  }

  function Written(s: Regs, busy: bool, req: Option<Request>): (d: Regs)
  {
    if req.Some? && Writes(req.value) then WriteEffect(s, busy, req.value) else s
  }

  // A rising resumereq clears the acknowledge of the previous resume.
  predicate ClearsAck(s: Regs, d: Regs)
  {
    !s.resumereq && d.resumereq
  }

  // Next state while the module is active: `stored` is what a hart store makes of
  // the data registers, and wins over a DMI write; `ack`, the resume acknowledge,
  // drops the request.
  function NextActive(s: Regs, busy: bool, req: Option<Request>, stored: Option<Data>, ack: bool): (s': Regs)
  {
    var d := Written(s, busy, req);
    d.(data := if stored.Some? then stored.value else d.data, resumereq := d.resumereq && !(s.resumereq && ack))
  }

  // An inactive module holds its reset values; only dmactive can be written.
  function Next(s: Regs, busy: bool, req: Option<Request>, stored: Option<Data>, ack: bool): (s': Regs)
  {
    var n := NextActive(s, busy, req, stored, ack);
    if s.dmactive then n else ResetRegs().(dmactive := n.dmactive)
  }

  lemma WrittenFields(s: Regs, busy: bool, req: Option<Request>)
    ensures Written(s, busy, req).command == if !busy && WritesTo(req, Command) then req.value.data else s.command
    ensures Written(s, busy, req).data == if !busy && req.Some? && Writes(req.value) && req.value.reg.Data? then
                                            s.data[req.value.reg.i := req.value.data]
                                          else s.data
    ensures Written(s, busy, req).progbuf == if !busy && req.Some? && Writes(req.value) && req.value.reg.Progbuf? then
                                               s.progbuf[req.value.reg.j := req.value.data]
                                             else s.progbuf
    ensures Written(s, busy, req).autoData == if !busy && WritesTo(req, AbstractAuto) then AutoDataField(req.value.data)
                                              else s.autoData
    ensures Written(s, busy, req).dmactive == if WritesTo(req, DmControl) then DmactiveField(req.value.data)
            else s.dmactive
    ensures Written(s, busy, req).ndmreset == if WritesTo(req, DmControl) then NdmresetField(req.value.data)
            else s.ndmreset
  {
    hide HaltreqField, ResumereqField, NdmresetField, DmactiveField, AutoDataField, AutoProgField;
    if req.Some? && Writes(req.value) {
      match req.value.reg
      case DmControl =>
      case Command =>
      case AbstractAuto =>
      case Data(_) =>
      case Progbuf(_) =>
      case _ =>
    }
  }

  // Busy gating: while a command runs, no DMI write reaches the command, the data
  // registers, the program buffer or abstractauto; otherwise a write takes effect
  // on the register it addresses alone.
  lemma BusyGating(s: Regs, busy: bool, req: Option<Request>, stored: Option<Data>, ack: bool)
    requires s.dmactive
    ensures var n := Next(s, busy, req, stored, ack);
            && n.command == (if !busy && WritesTo(req, Command) then req.value.data else s.command)
            && n.data == (if stored.Some? then stored.value
                          else if !busy && req.Some? && Writes(req.value) && req.value.reg.Data? then
                            s.data[req.value.reg.i := req.value.data]
                          else s.data)
            && n.progbuf == (if !busy && req.Some? && Writes(req.value) && req.value.reg.Progbuf? then
                               s.progbuf[req.value.reg.j := req.value.data]
                             else s.progbuf)
            && n.autoData
               == (if !busy && WritesTo(req, AbstractAuto) then AutoDataField(req.value.data) else s.autoData)
            && n.dmactive == (if WritesTo(req, DmControl) then DmactiveField(req.value.data) else true)
            && n.ndmreset == (if WritesTo(req, DmControl) then NdmresetField(req.value.data) else s.ndmreset)
  {
    hide HaltreqField, ResumereqField, NdmresetField, DmactiveField, AutoDataField, AutoProgField, ResetRegs, Written;
    WrittenFields(s, busy, req);
  }

  // The run-control requests change with a dmcontrol write, and resumereq also when
  // its acknowledge arrives.
  lemma RequestBits(s: Regs, busy: bool, req: Option<Request>, stored: Option<Data>, ack: bool)
    requires s.dmactive
    ensures var n := Next(s, busy, req, stored, ack);
            && n.haltreq == (if WritesTo(req, DmControl) then HaltreqField(req.value.data) else s.haltreq)
            && n.resumereq == ((if WritesTo(req, DmControl) then ResumereqField(req.value.data) else s.resumereq)
                               && !(s.resumereq && ack))
    ensures ClearsAck(s, Written(s, busy, req)) <==>
              !s.resumereq && WritesTo(req, DmControl) && ResumereqField(req.value.data)
  {
    hide HaltreqField, ResumereqField, NdmresetField, DmactiveField, AutoDataField, AutoProgField;
  }

  function ControlWord(s: Regs): Word
  {
    (if s.haltreq then 0x8000_0000 else 0) | (if s.resumereq then 0x4000_0000 else 0)
    | (if s.ndmreset then 2 else 0) | (if s.dmactive then 1 else 0)
  }

  function StatusWord(cmderr: bv3): Word
  {
    0x0800_0002 | ((cmderr as Word) << 8)
  }

  function AutoWord(s: Regs): Word
  {
    ((s.autoProg as Word) << 16) | (s.autoData as Word)
  }

  // The response to an accepted request. `other` stands for the registers that
  // are not part of this module.
  function Respond(s: Regs, busy: bool, cmderr: bv3, r: Request, other: Response): (resp: Response)
  {
    if NeedsIdle(r) then
      Response(if !Reads(r) then 0
               else if r.reg.Data? then s.data[r.reg.i] else s.progbuf[r.reg.j],
               if busy then BUSY else SUCCESS)
    else if Reads(r) && r.reg == DmControl then Response(ControlWord(s), SUCCESS)
    else if Reads(r) && r.reg == AbstractCS then Response(StatusWord(cmderr), SUCCESS)
    else if Reads(r) && r.reg == AbstractAuto then Response(AutoWord(s), SUCCESS)
    else if (Reads(r) && r.reg == Command) || (Writes(r) && r.reg == DmControl) then Response(0, SUCCESS)
    else other
  }

  // The write section of the register file.
  method WriteSection(s: Regs, busy: bool, r: Request) returns (d: Regs)
    ensures d == WriteEffect(s, busy, r)
  {
    hide HaltreqField, ResumereqField, NdmresetField, DmactiveField, AutoDataField, AutoProgField;
    d := s;
    var w := r.data;
    match r.reg {
      case DmControl =>
        d := d.(haltreq := HaltreqField(w), resumereq := ResumereqField(w),
                ndmreset := NdmresetField(w), dmactive := DmactiveField(w));
      case Command =>
        if !busy { d := d.(command := w); }
      case AbstractAuto =>
        if !busy { d := d.(autoData := AutoDataField(w), autoProg := AutoProgField(w)); }
      case Data(i) =>
        if !busy { d := d.(data := d.data[i := w]); }
      case Progbuf(j) =>
        if !busy { d := d.(progbuf := d.progbuf[j := w]); }
      case _ =>
    }
  }

  // The whole combinational update.
  method Update(s: Regs, busy: bool, req: Option<Request>, stored: Option<Data>, ack: bool)
    returns (d: Regs, clearAck: bool)
    ensures d == Next(s, busy, req, stored, ack)
    ensures clearAck == ClearsAck(s, Written(s, busy, req))
  {
    hide WriteEffect, ResetRegs;
    d := s;
    if req.Some? && Writes(req.value) {
      d := WriteSection(s, busy, req.value);
    }
    clearAck := !s.resumereq && d.resumereq;
    // a store by the hart wins over a DMI write
    if stored.Some? {
      d := d.(data := stored.value);
    }
    if s.resumereq && ack {
      d := d.(resumereq := false);
    }
    // an inactive module is held in reset; only dmactive can be written
    if !s.dmactive {
      d := ResetRegs().(dmactive := d.dmactive);
    }
  }

  class ControlFile {
    var haltreq: bool
    var resumereq: bool
    var ndmreset: bool
    var dmactive: bool
    var command: Word
    var autoData: bv12
    var autoProg: bv16
    var data: Data
    var progbuf: Progbuf

    function State(): Regs
      reads this
    {
      Regs(haltreq, resumereq, ndmreset, dmactive, command, autoData, autoProg, data, progbuf)
    }

    constructor ()
      ensures State() == ResetRegs()
    {
      haltreq, resumereq, ndmreset, dmactive := false, false, false, false;
      command, autoData, autoProg := 0, 0, 0;
      data, progbuf := [0, 0], [0, 0, 0, 0, 0, 0, 0, 0];
    }

    // What the DMI gets back: the register's value for a read, and a busy status
    // for every access to a register that a running command owns.
    method Reply(busy: bool, cmderr: bv3, r: Request, other: Response) returns (resp: Response)
      ensures resp == Respond(State(), busy, cmderr, r, other)
    {
      hide ControlWord, StatusWord, AutoWord;
      resp := other;
      var status := if busy then BUSY else SUCCESS;
      if Reads(r) {
        match r.reg {
          case DmControl => resp := Response(ControlWord(State()), SUCCESS);
          case AbstractCS => resp := Response(StatusWord(cmderr), SUCCESS);
          case AbstractAuto => resp := Response(AutoWord(State()), SUCCESS);
          case Command => resp := Response(0, SUCCESS);
          case Data(i) => resp := Response(data[i], status);
          case Progbuf(j) => resp := Response(progbuf[j], status);
          case _ =>
        }
      } else if Writes(r) {
        match r.reg {
          case DmControl => resp := Response(0, SUCCESS);
          case AbstractCS => resp := Response(0, status);
          case AbstractAuto => resp := Response(0, status);
          case Command => resp := Response(0, status);
          case Data(i) => resp := Response(0, status);
          case Progbuf(j) => resp := Response(0, status);
          case _ =>
        }
      }
    }

    method Commit(d: Regs)
      modifies this
      ensures State() == d
    {
      haltreq, resumereq, ndmreset, dmactive := d.haltreq, d.resumereq, d.ndmreset, d.dmactive;
      command, autoData, autoProg, data, progbuf := d.command, d.autoData, d.autoProg, d.data, d.progbuf;
    }

    method Clock(busy: bool, req: Option<Request>, stored: Option<Data>, ack: bool)
      returns (clearAck: bool)
      modifies this
      ensures State() == Next(old(State()), busy, req, stored, ack)
      ensures clearAck == ClearsAck(old(State()), Written(old(State()), busy, req))
    {
      var d;
      d, clearAck := Update(State(), busy, req, stored, ack);
      Commit(d);
    }
  }
}
