/** The transport by numbers: instructions, the fields of dtmcs and of the DMI register,
    and what a scan orders and brings back. */
module ScanNumbers {
  import opened Words
  import opened Numbers
  import opened Tap
  import opened Dtm
  import T = Dtm
  import Scan
  import DT = DmiTransactions
  import CP = Composition
  import D = Dmi

  // ---- Instructions ----

  lemma FiveBits(s: seq<bool>)
    requires |s| == 5
    ensures NumberOf(s) == Flag(s[0]) + 2 * Flag(s[1]) + 4 * Flag(s[2]) + 8 * Flag(s[3]) + 16 * Flag(s[4])
  {
    ThreeBits(s[2..]);
    assert s[1..][1..] == s[2..];
    assert NumberOf(s[1..]) == Flag(s[1]) + 2 * NumberOf(s[2..]);
  }

  // Instruction 1 selects the idcode, 0x10 dtmcs, 0x11 the DMI register, and every other
  // one bypass. The controller comes out of reset with instruction 1.
  lemma InstructionNumbers(ir: Bits5)
    ensures var n := NumberOf(ir);
            Selects(ir) == if n == 1 then Idcode else if n == 0x10 then Dtmcs else if n == 0x11 then Select.Dmi
              else Bypass
    ensures NumberOf(ResetTap(Zeros(32)).ir) == 1
  {
    FiveBits(ir);
    FiveBits(IDCODE);
    FiveBits(DTMCSR);
    FiveBits(DMIACCESS);
    if NumberOf(ir) == 1 { SameBits(ir, IDCODE); }
    if NumberOf(ir) == 0x10 { SameBits(ir, DTMCSR); }
    if NumberOf(ir) == 0x11 { SameBits(ir, DMIACCESS); }
    hide NumberOf;
  }

  // ---- The DMI register ----

  lemma TwoBits(s: seq<bool>)
    requires |s| == 2
    ensures NumberOf(s) == Flag(s[0]) + 2 * Flag(s[1])
  {
    assert NumberOf(s[1..]) == Flag(s[1]) + 2 * NumberOf([]);
    assert s[1..][1..] == [];
  }

  lemma CodeNumbers()
    ensures NumberOf(NOP) == 0 && NumberOf(READ) == 1 && NumberOf(WRITE) == 2
    ensures NumberOf(Code(NoError)) == 0 && NumberOf(Code(OpFailed)) == 2 && NumberOf(Code(Error.Busy)) == 3
  {
    TwoBits(NOP);
    TwoBits(READ);
    TwoBits(WRITE);
    TwoBits(Code(NoError));
    TwoBits(Code(OpFailed));
    TwoBits(Code(Error.Busy));
    hide NumberOf;
  }

  // The operation is the lowest two bits, then come 32 bits of data and seven of address.
  lemma DrParts(dr: Bits41)
    ensures var n := NumberOf(dr);
            && NumberOf(Op(dr)) == n % 4 && NumberOf(Payload(dr)) == (n / 4) % 0x1_0000_0000
            && NumberOf(Address(dr)) == (n / 0x4_0000_0000) % 0x80
  {
    hide NumberOf, Power;
    Powers();
    SmallPowers();
    NumberPart(dr, 0, 2);
    NumberPart(dr, 2, 32);
    NumberPart(dr, 34, 7);
  }

  lemma OpCodes(op: Bits2)
    ensures (op == READ <==> NumberOf(op) == 1) && (op == WRITE <==> NumberOf(op) == 2)
  {
    CodeNumbers();
    if NumberOf(op) == 1 { SameBits(op, READ); }
    if NumberOf(op) == 2 { SameBits(op, WRITE); }
  }

  // An update of the DMI register on a free transport, by the number n in the register:
  // operation 1 orders a read and operation 2 a write, of the data in the next 32 bits at
  // the address above them; 0 and 3 order nothing.
  lemma OrderByNumber(d: Dtm, i: Input, id: Bits32)
    requires d.tap.state == UpdateDr && NumberOf(d.tap.ir) == 0x11 && d.state == Idle && d.error == NoError
    ensures var n, d' := NumberOf(d.dr), Next(d, i, id);
            && (Requests(d') <==> n % 4 == 1 || n % 4 == 2)
            && (Requests(d') ==>
                  && RequestOf(d').write == (n % 4 == 2)
                  && NumberOf(RequestOf(d').data) == (n / 4) % 0x1_0000_0000
                  && NumberOf(RequestOf(d').address) == (n / 0x4_0000_0000) % 0x80)
  {
    hide NumberOf, NextDr, NextDtmcs, DtmcsWord, ReadResult, NextIdcode, NextBypass, NextIrShift, Packed, Op, Payload;
    hide Address, NextError;
    InstructionNumbers(d.tap.ir);
    OpCodes(Op(d.dr));
    DrParts(d.dr);
  }

  // And as the module decodes the request: the same operation, data and address.
  lemma DecodedByNumber(r: Request)
    ensures var m, a := CP.Decoded(r), SevenOf(r.address);
            && m.op == (if r.write then 2 else 1) && m.data as int == NumberOf(r.data)
            && m.reg == D.RegisterAt(a) && a as int == NumberOf(r.address)
  {
    hide D.RegisterAt;
    WordOfBits(r.data);
    SevenNumber(r.address);
  }

  // From the scan to the module: the request is a read or a write of the register at
  // that address, with that data.
  lemma ScanReachesModule(d: Dtm, i: Input, id: Bits32, a: bv7, w: Word, op: int)
    requires d.tap.state == UpdateDr && NumberOf(d.tap.ir) == 0x11 && d.state == Idle && d.error == NoError
    requires NumberOf(d.dr) == op + 4 * (w as int) + 0x4_0000_0000 * (a as int) && (op == 1 || op == 2)
    ensures var d' := Next(d, i, id);
            Requests(d') && CP.Decoded(RequestOf(d')) == D.Request(D.RegisterAt(a), if op == 1 then 1 else 2, w)
  {
    hide NumberOf, Next, Requests, RequestOf, CP.Decoded, D.RegisterAt;
    OrderByNumber(d, i, id);
    WordRange(w, a);
    ThreeParts(NumberOf(d.dr), op, w as int, a as int);
    var r := RequestOf(Next(d, i, id));
    DecodedByNumber(r);
    SameNumber(CP.Decoded(r).data, w);
    SameSeven(SevenOf(r.address), a);
  }

  lemma WordRange(w: Word, a: bv7)
    ensures 0 <= w as int < 0x1_0000_0000 && 0 <= a as int < 0x80
  {
  }

  lemma ThreeParts(n: int, op: int, w: int, a: int)
    requires 0 <= op < 4 && 0 <= w < 0x1_0000_0000 && 0 <= a < 0x80 && n == op + 4 * w + 0x4_0000_0000 * a
    ensures n % 4 == op && (n / 4) % 0x1_0000_0000 == w && (n / 0x4_0000_0000) % 0x80 == a
  {
    DivOf(w + 0x1_0000_0000 * a, 4, op);
    PartOf(n, 4, 0x1_0000_0000, a, w, op);
    PartOf(n, 0x4_0000_0000, 0x80, 0, a, op + 4 * w);
  }

  lemma SameSeven(a: bv7, b: bv7)
    requires a as int == b as int
    ensures a == b
  {
    SevenBack(a);
    SevenBack(b);
  }

  lemma SevenBack(a: bv7)
    ensures (a as int) as bv7 == a
  {
  }

  // ---- What comes back ----

  // A response of the module on the wire.
  function Encoded(r: D.Response): Response
  {
    Response(WordBits(r.data), match r.resp case 0 => Success case 1 => Reserved case 2 => Failed case _ => BusyStatus)
  }

  lemma PackedNumber(address: Bits7, data: Bits32, op: Bits2)
    ensures NumberOf(Packed(address, data, op))
            == NumberOf(op) + 4 * NumberOf(data) + 0x4_0000_0000 * NumberOf(address)
  {
    hide NumberOf, Power;
    Powers();
    NumberOfJoined(op + data, address);
    NumberOfJoined(op, data);
  }

  // A read that the module answers with status 0 is shown by the next capture: its data
  // and address, with operation 0.
  lemma ReplyByNumber(d: Dtm, i: Input, r: D.Response, ins: seq<Input>, c: Input, id: Bits32)
    requires d.state == WaitReadValid && d.error == NoError && !Clears(d) && !Updating(d) && !Capturing(d)
    requires i.resp == T.Option.Some(Encoded(r)) && r.resp == 0
    requires DT.NoOrders(Next(d, i, id), ins, id)
    requires var e := Scan.Run(Next(d, i, id), ins, id); Capturing(e) && NumberOf(e.tap.ir) == 0x11
    ensures var e := Next(Scan.Run(Next(d, i, id), ins, id), c, id);
            NumberOf(e.dr) == 4 * (r.data as int) + 0x4_0000_0000 * NumberOf(d.address)
  {
    hide NumberOf, Next, Scan.Run, WordBits, Packed, DT.NoOrders, Clears;
    InstructionNumbers(Scan.Run(Next(d, i, id), ins, id).tap.ir);
    DT.CaptureReturnsRead(d, i, WordBits(r.data), ins, c, id);
    PackedNumber(d.address, WordBits(r.data), Code(NoError));
    WordBitsNumber(r.data);
    CodeNumbers();
  }

  // A response that ends a transaction in time leaves error 2 or 3 if its status is 2 or
  // 3, and none otherwise.
  lemma StatusByNumber(d: Dtm, i: Input, r: D.Response, id: Bits32)
    requires d.state == WaitReadValid || d.state == WaitWriteValid
    requires d.error == NoError && !Clears(d) && !Updating(d) && !Capturing(d) && i.resp == T.Option.Some(Encoded(r))
    ensures var d' := Next(d, i, id);
            d'.state == Idle && NumberOf(Code(d'.error)) == if r.resp == 2 then 2 else if r.resp == 3 then 3 else 0
  {
    hide NumberOf, NextDr, NextDtmcs, DtmcsWord, NextTap, Packed, Op, Payload, Address, WordBits, ReadResult, Code;
    CodeNumbers();
  }

  lemma ResultNumber(r: D.Response)
    ensures NumberOf(ReadResult(Encoded(r))) == if r.resp == 0 then NumberOf(WordBits(r.data))
                                                else if r.resp == 2 then 0xdead_beef
                                                else if r.resp == 3 then 0xb051_b051 else 0xbaad_c0de
  {
    hide NumberOf, WordBits;
    FailureNumbers();
    hide DEAD_BEEF, B051_B051, BAAD_CODE;
  }

  // And only a response of status 0 has data to show.
  lemma DataByNumber(d: Dtm, i: Input, r: D.Response, id: Bits32)
    requires d.state == WaitReadValid && !Clears(d) && i.resp == T.Option.Some(Encoded(r))
    ensures NumberOf(Next(d, i, id).data) == if r.resp == 0 then r.data as int
                                             else if r.resp == 2 then 0xdead_beef
                                             else if r.resp == 3 then 0xb051_b051 else 0xbaad_c0de
  {
    hide NumberOf, NextDr, NextDtmcs, DtmcsWord, NextTap, Packed, Op, Payload, Address, WordBits, NextError;
    hide NextMachine;
    hide ReadResult, Encoded;
    ResultNumber(r);
    WordBitsNumber(r.data);
  }

  lemma NibbleBits(n: seq<bv4>)
    requires n != []
    ensures NumberOf(Nibbles(n)) == n[0] as int + 16 * NumberOf(Nibbles(n[1..]))
  {
    var s := [n[0] & 1 != 0, n[0] & 2 != 0, n[0] & 4 != 0, n[0] & 8 != 0];
    SmallPowers();
    FiveBits(s + [false]);
    NumberOfJoined(s, [false]);
    NumberOfJoined(s, Nibbles(n[1..]));
    FourBits(n[0]);
    hide NumberOf;
  }

  lemma FourBits(n: bv4)
    ensures n as int == Flag(n & 1 != 0) + 2 * Flag(n & 2 != 0) + 4 * Flag(n & 4 != 0) + 8 * Flag(n & 8 != 0)
  {
  }

  lemma FourNibbles(n: seq<bv4>)
    requires |n| >= 4
    ensures NumberOf(Nibbles(n))
            == n[0] as int + 0x10 * (n[1] as int) + 0x100 * (n[2] as int) + 0x1000 * (n[3] as int)
               + 0x1_0000 * NumberOf(Nibbles(n[4..]))
  {
    hide Nibbles, NumberOf;
    assert forall k | 0 <= k < 4 :: n[k..][1..] == n[k + 1..];
    NibbleBits(n);
    NibbleBits(n[1..]);
    NibbleBits(n[2..]);
    NibbleBits(n[3..]);
  }

  lemma EightNibbles(n: seq<bv4>)
    requires |n| == 8
    ensures NumberOf(Nibbles(n))
            == n[0] as int + 0x10 * (n[1] as int) + 0x100 * (n[2] as int) + 0x1000 * (n[3] as int)
              + 0x1_0000 * (n[4] as int)
               + 0x10_0000 * (n[5] as int) + 0x100_0000 * (n[6] as int) + 0x1000_0000 * (n[7] as int)
  {
    hide Nibbles, NumberOf;
    FourNibbles(n);
    FourNibbles(n[4..]);
    assert n[4..][4..] == [];
    NoNibbles();
  }

  lemma NoNibbles()
    ensures NumberOf(Nibbles([])) == 0
  {
  }

  // The words that stand for the data of a failed, an early and an unknown response.
  lemma FailureNumbers()
    ensures NumberOf(DEAD_BEEF) == 0xdead_beef && NumberOf(B051_B051) == 0xb051_b051
            && NumberOf(BAAD_CODE) == 0xbaad_c0de
  {
    hide NumberOf, Nibbles;
    EightNibbles([0xf, 0xe, 0xe, 0xb, 0xd, 0xa, 0xe, 0xd]);
    EightNibbles([0x1, 0x5, 0x0, 0xb, 0x1, 0x5, 0x0, 0xb]);
    EightNibbles([0xe, 0xd, 0x0, 0xc, 0xd, 0xa, 0xa, 0xb]);
  }

  // An update of any data register while a transaction is open, and a capture of any
  // while a read is, orders nothing and leaves error 3 if there was none.
  lemma TooEarlyByNumber(d: Dtm, i: Input, id: Bits32)
    requires d.state != Idle && d.error == NoError && !Clears(d) && i.resp.None?
    requires Updating(d) || (Capturing(d) && (d.state == Read || d.state == WaitReadValid))
    requires !(Updating(d) && NumberOf(d.tap.ir) == 0x10)
    ensures NumberOf(Code(Next(d, i, id).error)) == 3 && !Launches(d)
  {
    hide NumberOf, NextDr, NextDtmcs, DtmcsWord, NextTap, Packed, Op, Payload, Address, ReadResult;
    CodeNumbers();
    InstructionNumbers(d.tap.ir);
  }

  // ---- dtmcs ----

  lemma DtmcsParts()
    ensures NumberOf([true, false, false, false]) == 1 && NumberOf([true, true, true, false, false, false]) == 7
    ensures NumberOf([true, false, false]) == 1
  {
    var version, abits := [true, false, false, false], [true, true, true, false, false, false];
    FiveBits(version + [false]);
    NumberOfJoined(version, [false]);
    FiveBits(abits[..5]);
    NumberOfJoined(abits[..5], [false]);
    assert abits == abits[..5] + [false];
    ThreeBits([true, false, false]);
    hide NumberOf;
  }

  // dtmcs as captured: version 1, seven address bits, an idle hint of 1, and the error
  // from bit 10.
  lemma DtmcsNumber(e: Error)
    ensures NumberOf(DtmcsWord(e)) == 1 + 7 * 0x10 + NumberOf(Code(e)) * 0x400 + 0x1000
  {
    hide NumberOf, Code, Power;
    var version, abits, idle, rest := [true, false, false, false], [true, true, true, false, false, false],
                                      [true, false, false], Zeros(17);
    assert DtmcsWord(e) == version + (abits + (Code(e) + (idle + rest)));
    hide DtmcsWord;
    SmallPowers();
    DtmcsParts();
    ZerosNumber(17);
    NumberOfJoined(version, abits + (Code(e) + (idle + rest)));
    NumberOfJoined(abits, Code(e) + (idle + rest));
    NumberOfJoined(Code(e), idle + rest);
    NumberOfJoined(idle, rest);
  }

  // An update of dtmcs: bit 16 clears the error, bit 17 frees the transport.
  lemma DtmcsWritten(d: Dtm, i: Input, id: Bits32)
    requires d.tap.state == UpdateDr && NumberOf(d.tap.ir) == 0x10
    ensures var n, d' := NumberOf(d.dtmcs), Next(d, i, id);
            && (Bit(n, 0x1_0000) ==> d'.error == NoError)
            && (Bit(n, 0x2_0000) ==> d'.state == Idle && d'.error == NoError && NumberOf(d'.dr) == 0
                                     && NumberOf(d'.address) == 0 && NumberOf(d'.data) == 0)
            && (!Bit(n, 0x1_0000) && !Bit(n, 0x2_0000) && d.error != NoError ==> d'.error == d.error)
            && (!Bit(n, 0x2_0000) && d.state == Idle ==>
               d'.state == Idle && d'.address == d.address && d'.data == d.data)
  {
    hide NumberOf, NextTap, Packed, Op, Payload, Address, ReadResult, Power, Zeros, DtmcsWord;
    InstructionNumbers(d.tap.ir);
    Powers();
    NumberBit(d.dtmcs, 16);
    NumberBit(d.dtmcs, 17);
    ZerosNumber(41);
    ZerosNumber(7);
    ZerosNumber(32);
    hide Bit;
  }

  lemma {:induction false} ZerosNumber(n: nat)
    ensures NumberOf(Zeros(n)) == 0
    decreases n
  {
    if n > 0 {
      assert Zeros(n)[1..] == Zeros(n - 1);
      ZerosNumber(n - 1);
    }
  }
}
