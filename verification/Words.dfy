/** Machine words, byte lanes and register files, at the widths of the RTL. */
module Words {

  type Byte = bv8
  type Word = bv32
  type RegIndex = bv5
  type Lanes = be: seq<bool> | |be| == 4 witness [false, false, false, false]
  type RegFile = r: seq<Word> | |r| == 32 witness seq(32, _ => 0)

  // An address within the 4 KiB window of the debug module, and a window's number.
  type Offset = bv12
  type Page = bv20

  function PageWord(p: Page): Word { p as Word }
  function PageBase(p: Page): Word { (p as Word) << 12 }
  function OffsetOf(addr: Word): Offset { (addr & 0xfff) as Offset }

  datatype Option<+T> = None | Some(value: T)

  // A register read; x0 is hardwired to zero.
  function Get(r: RegFile, i: RegIndex): (v: Word)
  {
    if i == 0 then 0 else r[i as int]
  }

  function Set(r: RegFile, i: RegIndex, v: Word): (r': RegFile)
  {
    if i == 0 then r else r[i as int := v]
  }

  // Byte lane i of a word, lane 0 being the least significant.
  function Lane(w: Word, i: nat): (b: Byte)
    requires i < 4
  {
    match i
    case 0 => (w & 0xff) as Byte
    case 1 => ((w >> 8) & 0xff) as Byte
    case 2 => ((w >> 16) & 0xff) as Byte
    case _ => (w >> 24) as Byte
  }

  function FromLanes(b0: Byte, b1: Byte, b2: Byte, b3: Byte): (w: Word)
    ensures Lane(w, 0) == b0 && Lane(w, 1) == b1 && Lane(w, 2) == b2 && Lane(w, 3) == b3
  {
    (b0 as Word) | ((b1 as Word) << 8) | ((b2 as Word) << 16) | ((b3 as Word) << 24)
  }

  // Lane i replaced by a byte.
  function SetLane(w: Word, i: nat, b: Byte): (w': Word)
    requires i < 4
    ensures Lane(w', i) == b
    ensures forall j: nat | j < 4 && j != i :: Lane(w', j) == Lane(w, j)
  {
    match i
    case 0 => (w & 0xffff_ff00) | (b as Word)
    case 1 => (w & 0xffff_00ff) | ((b as Word) << 8)
    case 2 => (w & 0xff00_ffff) | ((b as Word) << 16)
    case _ => (w & 0x00ff_ffff) | ((b as Word) << 24)
  }

  // A byte-enable write: enabled lanes come from `data`, the others are kept.
  function Merge(prior: Word, data: Word, be: Lanes): (w: Word)
    ensures forall i: nat | i < 4 :: Lane(w, i) == if be[i] then Lane(data, i) else Lane(prior, i)
  {
    FromLanes(if be[0] then Lane(data, 0) else Lane(prior, 0),
              if be[1] then Lane(data, 1) else Lane(prior, 1),
              if be[2] then Lane(data, 2) else Lane(prior, 2),
              if be[3] then Lane(data, 3) else Lane(prior, 3))
  }

  // A word is its four lanes, so two words with the same lanes are equal.
  lemma SameLanes(v: Word, w: Word)
    requires forall i: nat | i < 4 :: Lane(v, i) == Lane(w, i)
    ensures v == w
  {
    assert Lane(v, 0) == Lane(w, 0) && Lane(v, 1) == Lane(w, 1) && Lane(v, 2) == Lane(w, 2) && Lane(v, 3) == Lane(w, 3);
  }

  // Sign extension of the low 8, 16 or 32 bits, as lb, lh and lw do it.
  function SignExtend(w: Word, size: bv3): (r: Word)
  {
    match size
    case 0 => if w & 0x80 == 0 then w & 0xff else w | 0xffff_ff00
    case 1 => if w & 0x8000 == 0 then w & 0xffff else w | 0xffff_0000
    case _ => w
  }

  // The lanes of an access of 2^size bytes that starts at byte offset `at` of a word.
  function AccessLanes(size: bv3, at: bv2): (be: Lanes)
  {
    match size
    case 0 => [at == 0, at == 1, at == 2, at == 3]
    case 1 => [at < 2, at < 2, at >= 2, at >= 2]
    case _ => [true, true, true, true]
  }
}
