/** The Debug Module Interface: requests, responses and register addresses. */
module Dmi {
  import opened Words

  type DataIndex = i: int | 0 <= i < 2
  type ProgbufIndex = i: int | 0 <= i < 8

  // The registers a debugger can address.
  datatype Register =
    | Data(i: DataIndex) | DmControl | DmStatus | Hartinfo | AbstractCS | Command | AbstractAuto | NextDM
    | Progbuf(j: ProgbufIndex) | SbCS | SbAddress0 | SbAddress1 | SbData0 | SbData1 | Unmapped(a: bv7)

  function RegisterAt(a: bv7): Register
  {
    if a == 0x04 then Data(0) else if a == 0x05 then Data(1)
    else if a == 0x10 then DmControl else if a == 0x11 then DmStatus else if a == 0x12 then Hartinfo
    else if a == 0x16 then AbstractCS else if a == 0x17 then Command else if a == 0x18 then AbstractAuto
    else if a == 0x1d then NextDM
    else if 0x20 <= a <= 0x27 then Progbuf((a & 7) as int)
    else if a == 0x38 then SbCS else if a == 0x39 then SbAddress0 else if a == 0x3a then SbAddress1
    else if a == 0x3c then SbData0 else if a == 0x3d then SbData1
    else Unmapped(a)
  }

  // No two addresses name the same register.
  lemma RegistersAreDistinct(a: bv7, b: bv7)
    requires RegisterAt(a) == RegisterAt(b)
    ensures a == b
  {
    if 0x20 <= a <= 0x27 { ProgbufIndices(a & 7, b & 7); }
  }

  lemma ProgbufIndices(a: bv7, b: bv7)
    requires a < 8 && b < 8 && a as int == b as int
    ensures a == b
  {
    match a
    case 0 => case 1 => case 2 => case 3 => case 4 => case 5 => case 6 => case _ =>
  }

  datatype Request = Request(reg: Register, op: bv2, data: Word)
  datatype Response = Response(data: Word, resp: bv2)

  // Requests by their numbers: operation 1 reads and operation 2 writes.
  function ReadAt(a: bv7): Request { Request(RegisterAt(a), 1, 0) }
  function WriteAt(a: bv7, w: Word): Request { Request(RegisterAt(a), 2, w) }

  const OP_READ: bv2 := 1
  const OP_WRITE: bv2 := 2

  const SUCCESS: bv2 := 0
  const BUSY: bv2 := 3

  // Values of abstractcs.cmderr.
  const ERR_NONE: bv3 := 0
  const ERR_BUSY: bv3 := 1
  const ERR_NOT_SUPPORTED: bv3 := 2
  const ERR_EXCEPTION: bv3 := 3
  const ERR_HALT_RESUME: bv3 := 4

  predicate Reads(r: Request) { r.op == OP_READ }

  // Writes to the read-only registers are dropped before they reach any register.
  predicate Writes(r: Request)
  {
    r.op == OP_WRITE && r.reg != DmStatus && r.reg != Hartinfo && r.reg != NextDM
  }

  // The accesses that are refused with an error while a command runs.
  predicate NeedsIdle(r: Request)
  {
    ((Reads(r) || Writes(r)) && (r.reg.Data? || r.reg.Progbuf?))
    || (Writes(r) && (r.reg == AbstractCS || r.reg == Command || r.reg == AbstractAuto))
  }

  predicate WritesTo(req: Option<Request>, reg: Register)
  {
    req.Some? && Writes(req.value) && req.value.reg == reg
  }
}
