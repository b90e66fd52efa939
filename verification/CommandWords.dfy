/** Command words and register numbers by arithmetic: what the fields of a command
    word are, which register a number names, and what an access does to the numbers
    in the registers. */
module CommandWords {
  import opened Words
  import opened Numbers
  import opened Hart
  import opened System
  import CG = CodeGenerator
  import MW = MemWindow
  import AC = AbstractCommand

  // ---- The layout of the command word ----

  function WordNumber(cmdtype: int, zero: bool, aarsize: int, postincrement: bool, postexec: bool, transfer: bool,
      write: bool, regno: int): int
  {
    cmdtype * 0x100_0000 + Flag(zero) * 0x80_0000 + aarsize * 0x10_0000 + Flag(postincrement) * 0x8_0000
    + Flag(postexec) * 0x4_0000 + Flag(transfer) * 0x2_0000 + Flag(write) * 0x1_0000 + regno
  }

  predicate Bit23(w: Word) { w & 0x80_0000 != 0 }

  lemma ControlLane(w: Word)
    ensures var c := AC.Fields(w);
            Lane(w, 2) as int == 128 * Flag(Bit23(w)) + 16 * (c.aarsize as int) + 8 * Flag(c.postincrement)
                                 + 4 * Flag(c.postexec) + 2 * Flag(c.transfer) + Flag(c.write)
  {
    SizeBits(w);
    ByteIsBits(Lane(w, 2));
  }

  lemma SizeBits(w: Word)
    ensures AC.Fields(w).aarsize as int
            == 4 * Flag(Lane(w, 2) & 64 != 0) + 2 * Flag(Lane(w, 2) & 32 != 0) + Flag(Lane(w, 2) & 16 != 0)
  {
  }

  lemma RegnoLanes(w: Word)
    ensures AC.Fields(w).regno as int == Lane(w, 1) as int * 0x100 + Lane(w, 0) as int
  {
    RegnoIsHalf(w);
    LowHalf(w);
    LowerLane(w);
    LastLane(w);
    hide AC.Fields, Lane;
  }

  lemma RegnoIsHalf(w: Word)
    ensures AC.Fields(w).regno == (w & 0xffff) as bv16
  {
  }

  lemma TypeLane(w: Word)
    ensures AC.Fields(w).cmdtype == Lane(w, 3)
  {
  }

  lemma LanesMakeNumber(n: int, b0: int, b1: int, b2: int, cmdtype: int, zero: bool, aarsize: int, incr: bool,
      exec: bool, transfer: bool, write: bool, regno: int)
    requires n == b0 + b1 * 0x100 + b2 * 0x1_0000 + cmdtype * 0x100_0000 && regno == b1 * 0x100 + b0
    requires b2 == 128 * Flag(zero) + 16 * aarsize + 8 * Flag(incr) + 4 * Flag(exec) + 2 * Flag(transfer) + Flag(write)
    ensures n == WordNumber(cmdtype, zero, aarsize, incr, exec, transfer, write, regno)
  {
    hide Flag;
  }

  // Every command word is the number its fields make.
  lemma FieldsMakeWord(w: Word)
    ensures var c := AC.Fields(w);
            w as int == WordNumber(c.cmdtype as int, Bit23(w), c.aarsize as int, c.postincrement, c.postexec,
              c.transfer, c.write, c.regno as int)
  {
    hide AC.Fields, Lane, Bit23, WordNumber, Flag;
    WordIsLanes(w);
    ControlLane(w);
    RegnoLanes(w);
    TypeLane(w);
    var c := AC.Fields(w);
    LanesMakeNumber(w as int, Lane(w, 0) as int, Lane(w, 1) as int, Lane(w, 2) as int, c.cmdtype as int, Bit23(w),
                    c.aarsize as int, c.postincrement, c.postexec, c.transfer, c.write, c.regno as int);
  }

  lemma UniqueDigits(type1: int, zero1: bool, size1: int, incr1: bool, exec1: bool, transfer1: bool, write1: bool,
      regno1: int, type2: int, zero2: bool, size2: int, incr2: bool, exec2: bool, transfer2: bool, write2: bool,
      regno2: int)
    requires 0 <= size1 < 8 && 0 <= regno1 < 0x1_0000 && 0 <= size2 < 8 && 0 <= regno2 < 0x1_0000
    requires WordNumber(type1, zero1, size1, incr1, exec1, transfer1, write1, regno1)
             == WordNumber(type2, zero2, size2, incr2, exec2, transfer2, write2, regno2)
    ensures type1 == type2 && zero1 == zero2 && size1 == size2 && incr1 == incr2 && exec1 == exec2
    ensures transfer1 == transfer2 && write1 == write2 && regno1 == regno2
  {
    var a1, a2 := type1 * 16 + Flag(zero1) * 8 + size1, type2 * 16 + Flag(zero2) * 8 + size2;
    var b1, b2 := a1 * 2 + Flag(incr1), a2 * 2 + Flag(incr2);
    var c1, c2 := b1 * 2 + Flag(exec1), b2 * 2 + Flag(exec2);
    var d1, d2 := c1 * 2 + Flag(transfer1), c2 * 2 + Flag(transfer2);
    var e1, e2 := d1 * 2 + Flag(write1), d2 * 2 + Flag(write2);
    SameDigit(e1, regno1, e2, regno2, 0x1_0000);
    SameDigit(d1, Flag(write1), d2, Flag(write2), 2);
    SameDigit(c1, Flag(transfer1), c2, Flag(transfer2), 2);
    SameDigit(b1, Flag(exec1), b2, Flag(exec2), 2);
    SameDigit(a1, Flag(incr1), a2, Flag(incr2), 2);
    SameDigit(type1, Flag(zero1) * 8 + size1, type2, Flag(zero2) * 8 + size2, 16);
    SameDigit(Flag(zero1), size1, Flag(zero2), size2, 8);
  }

  // And no other fields make the same number.
  lemma WordHasFields(w: Word, cmdtype: int, zero: bool, aarsize: int, postincrement: bool, postexec: bool,
      transfer: bool, write: bool, regno: int)
    requires 0 <= cmdtype < 256 && 0 <= aarsize < 8 && 0 <= regno < 0x1_0000
    requires w as int == WordNumber(cmdtype, zero, aarsize, postincrement, postexec, transfer, write, regno)
    ensures var c := AC.Fields(w);
            && c.cmdtype as int == cmdtype && c.aarsize as int == aarsize && c.postincrement == postincrement
            && c.postexec == postexec && c.transfer == transfer && c.write == write && c.regno as int == regno
  {
    hide AC.Fields, Bit23, WordNumber;
    FieldsMakeWord(w);
    var c := AC.Fields(w);
    UniqueDigits(cmdtype, zero, aarsize, postincrement, postexec, transfer, write, regno,
                 c.cmdtype as int, Bit23(w), c.aarsize as int, c.postincrement, c.postexec, c.transfer, c.write,
                 c.regno as int);
  }

  // ---- The register a number names ----

  lemma LowFive(r: bv16)
    ensures r as int == ((r >> 5) as bv11) as int * 32 + (r & 0x1f) as int
    ensures (r & 0x1f) as int == ((r & 0x1f) as bv5) as int
  {
  }

  lemma LowTwelve(r: bv16)
    ensures r as int == ((r >> 12) as bv4) as int * 0x1000 + (r & 0xfff) as int
    ensures (r & 0xfff) as int == ((r & 0xfff) as bv12) as int
  {
  }

  // A number cut in two.
  lemma RegCut(r: bv16) returns (hi: int, lo: int)
    ensures r as int == hi * 32 + lo && lo == AC.RegField(r) as int
  {
    LowFive(r);
    hi, lo := ((r >> 5) as bv11) as int, AC.RegField(r) as int;
  }

  lemma CsrCut(r: bv16) returns (hi: int, lo: int)
    ensures r as int == hi * 0x1000 + lo && lo == AC.CsrField(r) as int
  {
    LowTwelve(r);
    hi, lo := ((r >> 12) as bv4) as int, AC.CsrField(r) as int;
  }

  lemma FprBit(r: bv16)
    ensures r as int == ((r >> 6) as bv10) as int * 64 + Flag(AC.NamesFpr(r)) * 32 + (r & 0x1f) as int
  {
  }

  lemma GprBit(r: bv16)
    ensures r as int == ((r >> 13) as bv3) as int * 0x2000 + Flag(AC.NamesGprOrFpr(r)) * 0x1000 + (r & 0xfff) as int
  {
  }

  lemma FprCut(r: bv16) returns (hi: int, lo: int)
    ensures r as int == (hi * 2 + Flag(AC.NamesFpr(r))) * 32 + lo && 0 <= lo < 32
  {
    FprBit(r);
    LowFive(r);
    hi, lo := ((r >> 6) as bv10) as int, ((r & 0x1f) as bv5) as int;
  }

  lemma GprCut(r: bv16) returns (hi: int, lo: int)
    ensures r as int == (hi * 2 + Flag(AC.NamesGprOrFpr(r))) * 0x1000 + lo && 0 <= lo < 0x1000
  {
    GprBit(r);
    LowTwelve(r);
    hi, lo := ((r >> 13) as bv3) as int, ((r & 0xfff) as bv12) as int;
  }

  lemma FieldBounds(r: bv16)
    ensures 0 <= AC.RegField(r) as int < 32 && 0 <= AC.CsrField(r) as int < 0x1000
  {
  }

  lemma RemainderOf(n: int, hi: int, at: int, lo: int)
    requires at > 0 && 0 <= lo < at && n == hi * at + lo
    ensures n % at == lo
  {
    DivOf(hi, at, lo);
  }

  lemma RegNumber(r: bv16)
    ensures AC.RegField(r) as int == (r as int) % 32
  {
    hide AC.RegField;
    FieldBounds(r);
    var hi, lo := RegCut(r);
    RemainderOf(r as int, hi, 32, lo);
  }

  lemma CsrNumber(r: bv16)
    ensures AC.CsrField(r) as int == (r as int) % 0x1000
  {
    hide AC.CsrField;
    FieldBounds(r);
    var hi, lo := CsrCut(r);
    RemainderOf(r as int, hi, 0x1000, lo);
  }

  lemma KindNumber(r: bv16)
    ensures AC.NamesFpr(r) <==> Bit(r as int, 32)
    ensures AC.NamesGprOrFpr(r) <==> Bit(r as int, 0x1000)
  {
    hide AC.NamesFpr, AC.NamesGprOrFpr;
    var hi, lo := FprCut(r);
    PartOf(r as int, 32, 2, hi, Flag(AC.NamesFpr(r)), lo);
    hi, lo := GprCut(r);
    PartOf(r as int, 0x1000, 2, hi, Flag(AC.NamesGprOrFpr(r)), lo);
  }

  lemma TopTwo(r: bv16)
    ensures r as int == ((r >> 14) as bv2) as int * 0x4000 + (r & 0x3fff) as int
    ensures (r & 0x3fff) as int == ((r & 0x3fff) as bv14) as int
  {
  }

  lemma TopTwoBits(r: bv16)
    ensures AC.ReservedRegno(r) <==> ((r >> 14) as bv2) as int > 0
  {
  }

  lemma ReservedNumber(r: bv16)
    ensures AC.ReservedRegno(r) <==> r as int >= 0x4000
  {
    TopTwo(r);
    TopTwoBits(r);
    hide AC.ReservedRegno;
  }

  // A general register, a floating-point register, or a CSR, by its own number.
  datatype Place = X(n: int) | F(n: int) | C(a: int)

  predicate Exists(p: Place)
  {
    match p
    case X(n) => 0 <= n < 32
    case F(n) => 0 <= n < 32
    case C(a) => 0 <= a < 0x1000
  }

  // The number that a debugger gives for it.
  function Regno(p: Place): int
  {
    match p
    case X(n) => 0x1000 + n
    case F(n) => 0x1020 + n
    case C(a) => a
  }

  // The register that any number is taken for; most have aliases.
  function Named(regno: int): Place
  {
    if !Bit(regno, 0x1000) then C(regno % 0x1000)
    else if Bit(regno, 32) then F(regno % 32)
    else X(regno % 32)
  }

  lemma NamedIsPlace(p: Place)
    requires Exists(p)
    ensures Named(Regno(p)) == p && 0 <= Regno(p) < 0x4000
  {
    match p
    case X(n) => PartOf(0x1000 + n, 32, 2, 64, 0, n); DivOf(128, 32, n);
    case F(n) => PartOf(0x1020 + n, 32, 2, 64, 1, n); DivOf(129, 32, n);
    case C(a) =>
  }

  function PlaceOf(t: AC.Target): Place
  {
    match t
    case Gpr(n) => X(n as int)
    case Fpr(n) => F(n as int)
    case Csr(a) => C(a as int)
  }

  lemma TargetIsNamed(r: bv16)
    ensures PlaceOf(AC.TargetOf(r)) == Named(r as int)
  {
    hide AC.RegField, AC.CsrField, AC.NamesFpr, AC.NamesGprOrFpr;
    RegNumber(r);
    CsrNumber(r);
    KindNumber(r);
  }

  // The commands that the module carries out: an access of 8, 16 or 32 bits, without
  // post-increment, to a register number below 0x4000.
  lemma SupportedByNumber(c: AC.Command)
    ensures !AC.Unsupported(c) <==>
              c.cmdtype as int == 0 && c.aarsize as int <= 2 && !c.postincrement
                && (c.transfer ==> c.regno as int < 0x4000)
  {
    hide AC.ReservedRegno;
    ReservedNumber(c.regno);
    SizeNumber(c.aarsize);
    TypeNumber(c.cmdtype);
  }

  lemma SizeNumber(size: bv3)
    ensures size < 3 <==> size as int <= 2
    ensures size as int == 0 <==> size == 0
    ensures size as int == 1 <==> size == 1
    ensures size as int == 2 <==> size == 2
  {
  }

  lemma TypeNumber(t: bv8)
    ensures t == 0 <==> t as int == 0
  {
    ByteIsBits(t);
  }

  lemma SizeSteps(size: bv3)
    requires size < 3
    ensures 0 <= size as int <= 2 && (size > 0 <==> size as int > 0) && (size > 1 <==> size as int > 1)
  {
    SizeNumber(size);
  }

  // ---- The values ----

  // One more than the largest number of 8, 16 or 32 bits.
  function Range(size: int): (m: int)
    ensures m > 0
  {
    if size == 0 then 0x100 else if size == 1 then 0x1_0000 else 0x1_0000_0000
  }

  // The low bits of a number as a signed number, taken modulo 2^32.
  function Extended(d: int, size: int): int
  {
    var low := d % Range(size);
    if size < 2 && low >= Range(size) / 2 then low + 0x1_0000_0000 - Range(size) else low
  }

  // A number with its low bits replaced by those of another.
  function Replaced(prior: int, v: int, size: int): int
  {
    prior - prior % Range(size) + v % Range(size)
  }

  lemma LaneSigns(b: Byte)
    ensures b & 0x80 != 0 <==> b as int >= 128
  {
    ByteIsBits(b);
  }

  lemma ByteLanes(w: Word)
    ensures var r, sign := SignExtend(w, 0), if Lane(w, 0) & 0x80 != 0 then 0xff else 0 as Byte;
            Lane(r, 0) == Lane(w, 0) && Lane(r, 1) == sign && Lane(r, 2) == sign && Lane(r, 3) == sign
  {
  }

  lemma HalfLanes(w: Word)
    ensures var r, sign := SignExtend(w, 1), if Lane(w, 1) & 0x80 != 0 then 0xff else 0 as Byte;
            Lane(r, 0) == Lane(w, 0) && Lane(r, 1) == Lane(w, 1) && Lane(r, 2) == sign && Lane(r, 3) == sign
  {
  }

  lemma SignDigits(b: Byte)
    ensures (if b & 0x80 != 0 then 0xff else 0 as Byte) as int == if b as int >= 128 then 255 else 0
  {
    LaneSigns(b);
  }

  function SignDigit(b: int): int { if b >= 128 then 255 else 0 }

  lemma ByteDigits(w: Word)
    ensures var r, sign := SignExtend(w, 0), SignDigit(Digit(w, 0));
            Digit(r, 0) == Digit(w, 0) && Digit(r, 1) == sign && Digit(r, 2) == sign && Digit(r, 3) == sign
  {
    ByteLanes(w);
    SignDigits(Lane(w, 0));
    hide Lane, SignExtend;
  }

  lemma HalfDigits(w: Word)
    ensures var r, sign := SignExtend(w, 1), SignDigit(Digit(w, 1));
            Digit(r, 0) == Digit(w, 0) && Digit(r, 1) == Digit(w, 1) && Digit(r, 2) == sign && Digit(r, 3) == sign
  {
    HalfLanes(w);
    SignDigits(Lane(w, 1));
    hide Lane, SignExtend;
  }

  lemma ExtendedDigits(n: int, size: int, b0: int, b1: int, b2: int, b3: int)
    requires 0 <= size <= 2 && 0 <= b0 < 256 && 0 <= b1 < 256 && 0 <= b2 < 256 && 0 <= b3 < 256
    requires n == b0 + b1 * 0x100 + b2 * 0x1_0000 + b3 * 0x100_0000
    ensures size == 0 ==> Extended(n, size) == b0 + SignDigit(b0) * 0x101_0100
    ensures size == 1 ==> Extended(n, size) == b0 + b1 * 0x100 + SignDigit(b1) * 0x101_0000
    ensures size == 2 ==> Extended(n, size) == n
  {
    CutDigits(n, b0, b1, b2, b3);
  }

  lemma WholeWord(w: Word)
    ensures SignExtend(w, 2) == w
  {
  }

  // Sign extension, in numbers.
  lemma ExtensionNumber(w: Word, size: bv3)
    requires size < 3
    ensures SignExtend(w, size) as int == Extended(w as int, size as int)
  {
    SizeSteps(size);
    SizeNumber(size);
    hide SignExtend, Digit, Extended;
    WordIsDigits(w);
    WordIsDigits(SignExtend(w, size));
    ExtendedDigits(w as int, size as int, Digit(w, 0), Digit(w, 1), Digit(w, 2), Digit(w, 3));
    if size == 0 { ByteDigits(w); } else if size == 1 { HalfDigits(w); } else { WholeWord(w); }
  }

  lemma PartDigits(prior: Word, v: Word, size: bv3)
    requires size < 3
    ensures var r := LowPart(prior, v, size);
            && Digit(r, 0) == Digit(v, 0) && Digit(r, 1) == Digit(if size > 0 then v else prior, 1)
            && Digit(r, 2) == Digit(if size > 1 then v else prior, 2)
            && Digit(r, 3) == Digit(if size > 1 then v else prior, 3)
  {
    hide Lane;
    assert AccessLanes(size, 0) == [true, size > 0, size > 1, size > 1];
    hide AccessLanes, FromLanes;
  }

  lemma ReplacedDigits(n: int, m: int, size: int, p0: int, p1: int, p2: int, p3: int, v0: int, v1: int, v2: int,
      v3: int)
    requires 0 <= size <= 2 && 0 <= p0 < 256 && 0 <= p1 < 256 && 0 <= p2 < 256 && 0 <= p3 < 256
    requires 0 <= v0 < 256 && 0 <= v1 < 256 && 0 <= v2 < 256 && 0 <= v3 < 256
    requires n == p0 + p1 * 0x100 + p2 * 0x1_0000 + p3 * 0x100_0000
    requires m == v0 + v1 * 0x100 + v2 * 0x1_0000 + v3 * 0x100_0000
    ensures Replaced(n, m, size)
            == v0 + (if size > 0 then v1 else p1) * 0x100 + (if size > 1 then v2 else p2) * 0x1_0000
               + (if size > 1 then v3 else p3) * 0x100_0000
  {
    CutDigits(n, p0, p1, p2, p3);
    CutDigits(m, v0, v1, v2, v3);
  }

  lemma PartDigitsByNumber(prior: Word, v: Word, size: bv3, n: int)
    requires size < 3 && n == size as int
    ensures var r := LowPart(prior, v, size);
            && Digit(r, 0) == Digit(v, 0) && Digit(r, 1) == (if n > 0 then Digit(v, 1) else Digit(prior, 1))
            && Digit(r, 2) == (if n > 1 then Digit(v, 2) else Digit(prior, 2))
            && Digit(r, 3) == (if n > 1 then Digit(v, 3) else Digit(prior, 3)) && 0 <= n <= 2
  {
    SizeSteps(size);
    PartDigits(prior, v, size);
    hide LowPart, Digit;
  }

  // The low part of a word replaced, in numbers.
  lemma ReplacedNumber(prior: Word, v: Word, size: bv3)
    requires size < 3
    ensures LowPart(prior, v, size) as int == Replaced(prior as int, v as int, size as int)
  {
    hide LowPart, Digit, Replaced;
    var r, n := LowPart(prior, v, size), size as int;
    PartDigitsByNumber(prior, v, size, n);
    WordIsDigits(prior);
    WordIsDigits(v);
    WordIsDigits(r);
    ReplacedDigits(prior as int, v as int, n, Digit(prior, 0), Digit(prior, 1), Digit(prior, 2), Digit(prior, 3),
                   Digit(v, 0), Digit(v, 1), Digit(v, 2), Digit(v, 3));
  }

  lemma WholeNumber(d: int, v: int)
    requires 0 <= d < 0x1_0000_0000 && 0 <= v < 0x1_0000_0000
    ensures Extended(d, 2) == d && Replaced(d, v, 2) == v
  {
  }

  // ---- What an access does ----

  // Register p of the user's state, as a word; x0 reads as zero.
  predicate Holds(u: User, p: Place)
  {
    Exists(p) && (p.C? ==> p.a in u.csr)
  }

  function Value(u: User, p: Place): int
    requires Holds(u, p)
  {
    match p
    case X(n) => if n == 0 then 0 else u.gpr[n] as int
    case F(n) => u.fpr[n] as int
    case C(a) => u.csr[a] as int
  }

  // Only that register differs, or nothing if it is x0.
  predicate ChangesOnly(u: User, u': User, p: Place)
    requires Holds(u, p)
  {
    match p
    case X(n) => u' == if n == 0 then u else u.(gpr := u.gpr[n := u'.gpr[n]])
    case F(n) => u' == u.(fpr := u.fpr[n := u'.fpr[n]])
    case C(a) => a in u'.csr && u' == u.(csr := u.csr[a := u'.csr[a]])
  }

  // The access that a debugger asks for: a write of register p gives it the low bits
  // of data0, sign-extended, and a read gives data0 those low bits of the register.
  predicate Accessed(p: Place, size: int, write: bool, u: User, u': User)
    requires Holds(u, p)
  {
    if write then ChangesOnly(u, u', p) && (p == X(0) || Value(u', p) == Extended(u.data[0] as int, size))
    else u' == u.(data := u.data[0 := u'.data[0]]) && u'.data[0] as int == Replaced(u.data[0] as int, Value(u, p), size)
  }

  // The registers that a hart lets be accessed: the FPRs if it has them, at 32 bits; a
  // CSR if it is there and, for a write, its number does not make it read-only.
  predicate Accessible(p: Place, size: int, write: bool, fpu: bool, csrs: set<int>)
  {
    match p
    case X(_) => true
    case F(_) => fpu && size == 2
    case C(a) => a in csrs && (write ==> a < 0xc00)
  }

  lemma ReadOnlyNumber(a: bv12)
    ensures ReadOnlyCsr(a) <==> a as int >= 0xc00
  {
    ReadOnlyBits(a);
    CsrTop(a);
    hide ReadOnlyCsr;
  }

  lemma ReadOnlyBits(a: bv12)
    ensures ReadOnlyCsr(a) <==> ((a >> 10) as bv2) as int == 3
  {
  }

  lemma CsrTop(a: bv12)
    ensures a as int == ((a >> 10) as bv2) as int * 0x400 + (a & 0x3ff) as int
    ensures (a & 0x3ff) as int == ((a & 0x3ff) as bv10) as int
  {
  }

  lemma IndexZero(n: RegIndex)
    ensures n == 0 <==> n as int == 0
  {
  }

  // A read of any register.
  lemma ReadIsAccess(u: User, p: Place, size: int, v: Word)
    requires Holds(u, p) && v as int == Replaced(u.data[0] as int, Value(u, p), size)
    ensures Accessed(p, size, false, u, u.(data := u.data[0 := v]))
  {
    hide Replaced, Value, Holds;
  }

  lemma GprAccess(c: AC.Command, n: RegIndex, fpu: bool, u: User)
    requires c.transfer && c.aarsize < 3 && AC.TargetOf(c.regno) == AC.Gpr(n)
    ensures !Traps(c, fpu, u) && Accessed(X(n as int), c.aarsize as int, c.write, u, Access(c, fpu, u))
  {
    hide AC.TargetOf, SignExtend, LowPart, Extended, Replaced, ReadOnlyCsr;
    IndexZero(n);
    if c.write {
      ExtensionNumber(u.data[0], c.aarsize);
    } else {
      ReplacedNumber(u.data[0], Get(u.gpr, n), c.aarsize);
      ReadIsAccess(u, X(n as int), c.aarsize as int, LowPart(u.data[0], Get(u.gpr, n), c.aarsize));
    }
  }

  lemma FprAccess(c: AC.Command, n: RegIndex, u: User)
    requires c.transfer && c.aarsize == 2 && AC.TargetOf(c.regno) == AC.Fpr(n)
    ensures !Traps(c, true, u) && Accessed(F(n as int), 2, c.write, u, Access(c, true, u))
  {
    hide AC.TargetOf, SignExtend, LowPart, Extended, Replaced, ReadOnlyCsr;
    WholeNumber(u.data[0] as int, u.fpr[n as int] as int);
  }

  lemma WriteOfCsr(u: User, a: int, size: int, v: Word)
    requires a in u.csr && 0 <= a < 0x1000 && v as int == Extended(u.data[0] as int, size)
    ensures Accessed(C(a), size, true, u, u.(csr := u.csr[a := v]))
  {
    hide Extended;
    var u' := u.(csr := u.csr[a := v]);
    assert u'.csr[a] == v;
  }

  lemma CsrResult(c: AC.Command, a: bv12, n: int, fpu: bool, u: User)
    requires c.transfer && AC.TargetOf(c.regno) == AC.Csr(a) && n == a as int && n in u.csr
    requires c.write ==> !ReadOnlyCsr(a)
    ensures !Traps(c, fpu, u)
    ensures Access(c, fpu, u) == if c.write then u.(csr := u.csr[n := SignExtend(u.data[0], c.aarsize)])
                                 else u.(data := u.data[0 := LowPart(u.data[0], u.csr[n], c.aarsize)])
  {
    hide AC.TargetOf, SignExtend, LowPart, ReadOnlyCsr;
  }

  lemma CsrRange(a: bv12)
    ensures 0 <= a as int < 0x1000
  {
  }

  lemma ResultIsAccess(u: User, u': User, a: int, c: AC.Command, size: int)
    requires a in u.csr && 0 <= a < 0x1000 && c.aarsize < 3 && c.aarsize as int == size
    requires u' == if c.write then u.(csr := u.csr[a := SignExtend(u.data[0], c.aarsize)])
                   else u.(data := u.data[0 := LowPart(u.data[0], u.csr[a], c.aarsize)])
    ensures Accessed(C(a), size, c.write, u, u')
  {
    hide SignExtend, LowPart, Extended, Replaced, Accessed;
    if c.write {
      ExtensionNumber(u.data[0], c.aarsize);
      WriteOfCsr(u, a, size, SignExtend(u.data[0], c.aarsize));
    } else {
      ReplacedNumber(u.data[0], u.csr[a], c.aarsize);
      ReadIsAccess(u, C(a), size, LowPart(u.data[0], u.csr[a], c.aarsize));
    }
  }

  lemma CsrAccess(c: AC.Command, a: bv12, n: int, size: int, fpu: bool, u: User)
    requires c.transfer && c.aarsize < 3 && AC.TargetOf(c.regno) == AC.Csr(a) && n == a as int && n in u.csr
    requires c.aarsize as int == size && (c.write ==> !ReadOnlyCsr(a))
    ensures Holds(u, C(n)) && !Traps(c, fpu, u) && Accessed(C(n), size, c.write, u, Access(c, fpu, u))
  {
    hide AC.TargetOf, SignExtend, LowPart, ReadOnlyCsr, Access, Traps, Accessed;
    CsrRange(a);
    CsrResult(c, a, n, fpu, u);
    ResultIsAccess(u, Access(c, fpu, u), n, c, size);
  }

  // The access of a command, by the number of its register: the access that the
  // debugger asks for, and no trap.
  lemma AccessByNumber(c: AC.Command, p: Place, fpu: bool, u: User)
    requires c.transfer && c.aarsize as int <= 2 && Named(c.regno as int) == p
    requires Accessible(p, c.aarsize as int, c.write, fpu, u.csr.Keys)
    ensures Holds(u, p) && !Traps(c, fpu, u) && Accessed(p, c.aarsize as int, c.write, u, Access(c, fpu, u))
  {
    hide AC.TargetOf, Named, ReadOnlyCsr, Accessed, Access, Traps;
    TargetIsNamed(c.regno);
    SizeNumber(c.aarsize);
    match AC.TargetOf(c.regno)
    case Gpr(n) => GprAccess(c, n, fpu, u);
    case Fpr(n) => FprAccess(c, n, u);
    case Csr(a) => ReadOnlyNumber(a); CsrAccess(c, a, a as int, c.aarsize as int, fpu, u);
  }

  // It traps exactly if the register is not accessible.
  lemma TrapsByNumber(c: AC.Command, p: Place, fpu: bool, u: User)
    requires c.transfer && c.aarsize as int <= 2 && Named(c.regno as int) == p
    ensures Traps(c, fpu, u) <==> !Accessible(p, c.aarsize as int, c.write, fpu, u.csr.Keys)
  {
    hide AC.TargetOf, Named, ReadOnlyCsr, Access;
    TargetIsNamed(c.regno);
    SizeNumber(c.aarsize);
    if AC.TargetOf(c.regno).Csr? { ReadOnlyNumber(AC.TargetOf(c.regno).addr); }
  }

  // A supported access-register command, by the number of its word.
  predicate AccessWord(w: Word, p: Place, size: int, write: bool, postexec: bool)
  {
    && Exists(p) && 0 <= size <= 2
    && w as int == 0x2_0000 + size * 0x10_0000 + Flag(postexec) * 0x4_0000 + Flag(write) * 0x1_0000 + Regno(p)
  }

  lemma AccessWordFields(w: Word, p: Place, size: int, write: bool, postexec: bool)
    requires AccessWord(w, p, size, write, postexec)
    ensures var c := AC.Fields(w);
            && !AC.Unsupported(c) && c.transfer && c.aarsize as int == size && c.write == write
            && c.postexec == postexec
            && Named(c.regno as int) == p
  {
    hide AC.Fields, AC.Unsupported, Named;
    NamedIsPlace(p);
    WordHasFields(w, 0, false, size, false, postexec, true, write, Regno(p));
    SupportedByNumber(AC.Fields(w));
  }

  // ---- The generated code ----

  lemma UsersAccess(m: CG.Machine, v: MW.View, p: Place)
    requires Accessible(p, v.cmd.aarsize as int, v.cmd.write, m.hart.fpu, m.hart.csr.Keys) && p != C(0x7b2)
             && p != C(0x7b3)
    ensures Accessible(p, v.cmd.aarsize as int, v.cmd.write, m.hart.fpu, CG.UserOf(m, v).csr.Keys)
  {
  }

  lemma CodeIsReady(m: CG.Machine, page: Page, v: MW.View, p: Place)
    requires m.hart.pc == Pc(page, 0x338) && m.hart.ir.None? && 0x7b2 in m.hart.csr && 0x7b3 in m.hart.csr
    requires !AC.Unsupported(v.cmd) && v.cmd.transfer && Named(v.cmd.regno as int) == p && v.cmd.aarsize as int <= 2
    requires Accessible(p, v.cmd.aarsize as int, v.cmd.write, m.hart.fpu, m.hart.csr.Keys) && p != C(0x7b2)
             && p != C(0x7b3)
    ensures CG.Ready(m, page, v, 0x338) && CG.Feasible(m, v)
  {
    hide AC.TargetOf, AC.Unsupported, Named, ReadOnlyCsr;
    TargetIsNamed(v.cmd.regno);
    SizeNumber(v.cmd.aarsize);
    if p.C? { ReadOnlyNumber(AC.TargetOf(v.cmd.regno).addr); }
  }

  // The code for a command that names register p moves the value of p: for every state
  // of the hart, every page and every register that is there, interpreting the ten
  // words makes the access that the debugger asks for and ends in the ebreak, or at the
  // program buffer.
  lemma CodeMovesRegister(m: CG.Machine, page: Page, v: MW.View, p: Place)
    requires m.hart.pc == Pc(page, 0x338) && m.hart.ir.None? && 0x7b2 in m.hart.csr && 0x7b3 in m.hart.csr
    requires var c := v.cmd;
             && c.cmdtype as int == 0 && c.aarsize as int <= 2 && !c.postincrement && c.transfer
             && c.regno as int < 0x4000 && Named(c.regno as int) == p
             && Accessible(p, c.aarsize as int, c.write, m.hart.fpu, m.hart.csr.Keys) && p != C(0x7b2) && p != C(0x7b3)
    ensures var m', u := CG.Steps(m, page, v, 10), CG.UserOf(m, v);
            && Holds(u, p) && Accessed(p, v.cmd.aarsize as int, v.cmd.write, u, CG.UserOf(m', v))
            && m'.hart.pc == Pc(page, if v.cmd.postexec then 0x360 else 0x800)
  {
    hide AC.Unsupported, CG.Steps, Access, Accessed, Named, CG.UserOf, CG.Ready, CG.Feasible, Accessible;
    SupportedByNumber(v.cmd);
    CodeIsReady(m, page, v, p);
    CG.CodeMakesAccess(m, page, v);
    UsersAccess(m, v, p);
    AccessByNumber(v.cmd, p, m.hart.fpu, CG.UserOf(m, v));
  }
}
