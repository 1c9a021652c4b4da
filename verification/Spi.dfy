/** `spi.v`: an SPI slave that samples the serial clock with its own, faster clock. */
module Spi {
  /** The wires in one cycle: slave select (active low), serial clock, data in, and the byte to send. */
  datatype SpiIn = SpiIn(ssel: bool, sck: bool, mosi: bool, data: bv8)

  /** `sck0` and `mosi0` are the newest samples, `sck1` and `mosi1` those before. */
  datatype SpiRegs = SpiRegs(sck0: bool, sck1: bool, mosi0: bool, mosi1: bool, bitcnt: nat, received: bv8,
                             byteReceived: bool, buffer: bv8)

  /** The registers while the slave is not selected. */
  const CLEARED := SpiRegs(false, false, false, false, 0, 0, false, 0)

  predicate Rising(r: SpiRegs) { r.sck0 && !r.sck1 }

  predicate Falling(r: SpiRegs) { !r.sck0 && r.sck1 }

  function Shift(byte: bv8, bit: bool): bv8 { (byte << 1) | (if bit then 1 else 0) }

  function SpiNext(r: SpiRegs, x: SpiIn): SpiRegs {
    if x.ssel then CLEARED
    else
      SpiRegs(
        x.sck, r.sck0, x.mosi, r.mosi0,
        if r.bitcnt == 8 then (if Falling(r) then 0 else 8) else if Rising(r) then r.bitcnt + 1 else r.bitcnt,
        if r.bitcnt != 8 && Rising(r) then Shift(r.received, r.mosi1) else r.received,
        Rising(r) && r.bitcnt == 7,
        if r.bitcnt == 0 then x.data else if Falling(r) then Shift(r.buffer, false) else r.buffer)
  }

  predicate Miso(r: SpiRegs) { r.buffer & 0x80 != 0 }

  // ------------------------------------------------------------------ the waveform

  /** Sample `i` of the serial clock since selection; low before. */
  predicate Level(ins: seq<SpiIn>, i: int) { 0 <= i < |ins| && ins[i].sck }

  predicate Data(ins: seq<SpiIn>, i: int) { 0 <= i < |ins| && ins[i].mosi }

  /** The bits sent with the rising edges among the first `n` samples: each is the data sampled just
      before the rise. */
  function Bits(ins: seq<SpiIn>, n: int): (bits: seq<bool>)
    requires n <= |ins|
    decreases n
  {
    if n <= 0 then []
    else if Level(ins, n - 1) && !Level(ins, n - 2) then Bits(ins, n - 1) + [Data(ins, n - 2)]
    else Bits(ins, n - 1)
  }

  /** The low eight bits of a number written in binary, most significant bit first. */
  function ByteOf(bits: seq<bool>): bv8 {
    if bits == [] then 0 else Shift(ByteOf(bits[..|bits| - 1]), bits[|bits| - 1])
  }

  /** The number of whole groups of eight. */
  function Eighths(n: nat): nat { n / 8 }

  predicate Whole(n: nat) { n % 8 == 0 }

  /** The bytes that whole groups of eight bits make up. */
  function BytesOf(bits: seq<bool>): (bytes: seq<bv8>)
    ensures |bytes| == Eighths(|bits|)
  {
    seq(Eighths(|bits|), i requires 0 <= i < Eighths(|bits|) => ByteOf(bits[8 * i..8 * i + 8]))
  }

  /** The registers after the samples `ins` since selection. */
  function SpiRun(ins: seq<SpiIn>): SpiRegs {
    if ins == [] then CLEARED else SpiNext(SpiRun(ins[..|ins| - 1]), ins[|ins| - 1])
  }

  /** The bytes announced by `byteReceived` up to now. */
  function Announced(ins: seq<SpiIn>): seq<bv8> {
    if ins == [] then []
    else Announced(ins[..|ins| - 1]) + (if SpiRun(ins).byteReceived then [SpiRun(ins).received] else [])
  }

  ghost predicate Selected(ins: seq<SpiIn>) { forall i :: 0 <= i < |ins| ==> !ins[i].ssel }

  // ------------------------------------------------------------------ receiving

  /** The bit counter: an edge takes effect one cycle after it was sampled. */
  function CountAfter(ins: seq<SpiIn>): nat { CountOf(|Bits(ins, |ins| - 1)|, Level(ins, |ins| - 2)) }

  /** After a multiple of eight rises the counter stands at eight until the clock falls. */
  function CountOf(rises: nat, high: bool): nat {
    if rises % 8 != 0 then rises % 8 else if high then 8 else 0
  }

  /** The counter's rule, on the number of rises before an edge takes effect and after. */
  lemma CountStep(rises: nat, s1: bool, s0: bool)
    ensures CountOf(rises, s1) == 8 ==> CountOf(rises, s0) == (if s1 && !s0 then 0 else 8) && !(s0 && !s1)
    ensures CountOf(rises, s1) != 8 ==>
              CountOf(if s0 && !s1 then rises + 1 else rises, s0) == CountOf(rises, s1) + if s0 && !s1 then 1 else 0
    ensures CountOf(rises, s1) == 7 <==> Whole(rises + 1)
  {
  }

  ghost predicate Follows(r: SpiRegs, ins: seq<SpiIn>) {
    var n := |ins|;
    && r.sck0 == Level(ins, n - 1) && r.sck1 == Level(ins, n - 2)
    && r.mosi0 == Data(ins, n - 1) && r.mosi1 == Data(ins, n - 2)
    && r.received == ByteOf(Bits(ins, n - 1))
    && r.bitcnt == CountAfter(ins)
    && (r.byteReceived <==> n >= 2 && |Bits(ins, n - 1)| > |Bits(ins, n - 2)| && Whole(|Bits(ins, n - 1)|))
  }

  /** Later samples do not change what the earlier ones say. */
  lemma {:induction false} BitsPrefix(ins: seq<SpiIn>, x: SpiIn, n: int)
    requires n <= |ins|
    ensures Bits(ins + [x], n) == Bits(ins, n)
    decreases n
  {
    if n > 0 {
      BitsPrefix(ins, x, n - 1);
    }
  }

  lemma LevelPrefix(ins: seq<SpiIn>, x: SpiIn, i: int)
    requires i < |ins|
    ensures Level(ins + [x], i) == Level(ins, i) && Data(ins + [x], i) == Data(ins, i)
  {
  }

  lemma BitsStep(ins: seq<SpiIn>, n: int)
    requires n <= |ins|
    ensures Level(ins, n - 1) && !Level(ins, n - 2) ==> Bits(ins, n) == Bits(ins, n - 1) + [Data(ins, n - 2)]
    ensures !(Level(ins, n - 1) && !Level(ins, n - 2)) ==> Bits(ins, n) == Bits(ins, n - 1)
  {
  }

  lemma ByteStep(bits: seq<bool>, b: bool)
    ensures ByteOf(bits + [b]) == Shift(ByteOf(bits), b)
  {
    hide Shift;
    assert (bits + [b])[..|bits|] == bits;
  }

  lemma NewestSample(ins: seq<SpiIn>, x: SpiIn)
    ensures Level(ins + [x], |ins|) == x.sck && Data(ins + [x], |ins|) == x.mosi
  {
  }

  /** What the newest sample means. */
  lemma SampleStep(ins: seq<SpiIn>, x: SpiIn)
    ensures Bits(ins + [x], |ins|) == Bits(ins, |ins|) && Bits(ins + [x], |ins| - 1) == Bits(ins, |ins| - 1)
    ensures Level(ins + [x], |ins|) == x.sck && Level(ins + [x], |ins| - 1) == Level(ins, |ins| - 1)
    ensures Data(ins + [x], |ins|) == x.mosi && Data(ins + [x], |ins| - 1) == Data(ins, |ins| - 1)
  {
    hide Bits, Level, Data;
    BitsPrefix(ins, x, |ins|);
    BitsPrefix(ins, x, |ins| - 1);
    LevelPrefix(ins, x, |ins| - 1);
    NewestSample(ins, x);
  }

  lemma FollowStep(r: SpiRegs, ins: seq<SpiIn>, x: SpiIn)
    requires !x.ssel && Follows(r, ins)
    ensures Follows(SpiNext(r, x), ins + [x])
  {
    hide Shift, CountOf, Whole, Bits, Level, Data, ByteOf;
    var n := |ins|;
    SampleStep(ins, x);
    BitsStep(ins, n);
    ByteStep(Bits(ins, n - 1), r.mosi1);
    CountStep(|Bits(ins, n - 1)|, r.sck1, r.sck0);
    NoBitsYet(ins);
  }

  lemma NoBitsYet(ins: seq<SpiIn>)
    ensures |ins| <= 1 ==> Bits(ins, |ins| - 1) == []
    ensures ins == [] ==> !Level(ins, -1)
  {
  }

  lemma {:induction false} RunFollows(ins: seq<SpiIn>)
    requires Selected(ins)
    ensures Follows(SpiRun(ins), ins)
    decreases |ins|
  {
    hide Follows, SpiNext;
    if ins == [] {
      ClearedFollows();
    } else {
      var n := |ins| - 1;
      RunFollows(ins[..n]);
      assert ins[..n] + [ins[n]] == ins;
      FollowStep(SpiRun(ins[..n]), ins[..n], ins[n]);
    }
  }

  lemma ClearedFollows()
    ensures Follows(CLEARED, [])
  {
  }

  lemma Unroll(bits: seq<bool>, k: nat)
    requires k < |bits|
    ensures ByteOf(bits[..k + 1]) == Shift(ByteOf(bits[..k]), bits[k])
  {
    hide Shift;
    assert bits[..k + 1][..k] == bits[..k];
  }

  /** Eight shifts push every older bit out. */
  function ShiftEight(byte: bv8, x: seq<bool>): bv8
    requires |x| == 8
  {
    Shift(Shift(Shift(Shift(Shift(Shift(Shift(Shift(byte, x[0]), x[1]), x[2]), x[3]), x[4]), x[5]), x[6]), x[7])
  }

  lemma OldBitsLeave(byte: bv8, x: seq<bool>)
    requires |x| == 8
    ensures ShiftEight(byte, x) == ShiftEight(0, x)
  {
  }

  lemma ByteAfterEight(bits: seq<bool>, k: nat)
    requires k + 8 <= |bits|
    ensures ByteOf(bits[..k + 8]) == ShiftEight(ByteOf(bits[..k]), bits[k..k + 8])
  {
    hide Shift, ByteOf;
    Unroll(bits, k);
    Unroll(bits, k + 1);
    Unroll(bits, k + 2);
    Unroll(bits, k + 3);
    Unroll(bits, k + 4);
    Unroll(bits, k + 5);
    Unroll(bits, k + 6);
    Unroll(bits, k + 7);
  }

  /** Only the last eight bits matter to a byte. */
  lemma LastEight(bits: seq<bool>)
    requires |bits| >= 8
    ensures ByteOf(bits) == ByteOf(bits[|bits| - 8..])
  {
    hide ShiftEight;
    var k := |bits| - 8;
    var last := bits[k..];
    ByteAfterEight(bits, k);
    ByteAfterEight(last, 0);
    OldBitsLeave(ByteOf(bits[..k]), last);
    assert bits[..k + 8] == bits && bits[k..k + 8] == last && last[..8] == last[0..8] == last && last[..0] == [];
  }

  /** Bit `i` of a byte, counted from the most significant. */
  predicate BitOf(byte: bv8, i: nat)
    requires i < 8
  {
    byte & (if i == 0 then 0x80 else if i == 1 then 0x40 else if i == 2 then 0x20 else if i == 3 then 0x10
            else if i == 4 then 8 else if i == 5 then 4 else if i == 6 then 2 else 1) != 0
  }

  /** The bit received first is the most significant. */
  lemma MostSignificantFirst(bits: seq<bool>, i: nat)
    requires |bits| == 8 && i < 8
    ensures bits[i] <==> BitOf(ByteOf(bits), i)
  {
    hide ByteOf;
    ByteAfterEight(bits, 0);
    assert bits[..0] == [] && bits[..8] == bits && bits[0..8] == bits;
    NoBits();
  }

  lemma NoBits()
    ensures ByteOf([]) == 0
  {
  }

  lemma BytesIs(bits: seq<bool>, i: nat)
    requires i < Eighths(|bits|)
    ensures 8 * i + 8 <= |bits| && BytesOf(bits)[i] == ByteOf(bits[8 * i..8 * i + 8])
  {
    hide ByteOf;
  }

  lemma BytesAppend(bits: seq<bool>, longer: seq<bool>)
    requires bits <= longer && |longer| == |bits| + 1
    ensures !Whole(|longer|) ==> BytesOf(longer) == BytesOf(bits)
    ensures Whole(|longer|) ==> BytesOf(longer) == BytesOf(bits) + [ByteOf(longer)]
  {
    hide ByteOf, BytesOf, Eighths, Whole;
    NextEighth(|bits|);
    SameBytes(bits, longer);
    if Whole(|longer|) {
      LastByte(longer);
    }
  }

  lemma SameBytes(bits: seq<bool>, longer: seq<bool>)
    requires bits <= longer
    ensures Eighths(|bits|) <= Eighths(|longer|) && BytesOf(longer)[..Eighths(|bits|)] == BytesOf(bits)
  {
    hide ByteOf, BytesOf;
    forall i: nat | i < Eighths(|bits|)
      ensures BytesOf(longer)[i] == BytesOf(bits)[i]
    {
      SameByte(bits, longer, i);
    }
  }

  lemma SameByte(bits: seq<bool>, longer: seq<bool>, i: nat)
    requires bits <= longer && i < Eighths(|bits|)
    ensures i < Eighths(|longer|) && BytesOf(longer)[i] == BytesOf(bits)[i]
  {
    hide ByteOf, BytesOf;
    BytesIs(longer, i);
    BytesIs(bits, i);
    assert longer[8 * i..8 * i + 8] == bits[8 * i..8 * i + 8];
  }

  lemma LastByte(bits: seq<bool>)
    requires bits != [] && Whole(|bits|)
    ensures Eighths(|bits|) > 0 && BytesOf(bits)[Eighths(|bits|) - 1] == ByteOf(bits)
  {
    hide ByteOf, BytesOf;
    var k := Eighths(|bits|) - 1;
    BytesIs(bits, k);
    LastEight(bits);
    assert bits[8 * k..8 * k + 8] == bits[|bits| - 8..];
  }

  lemma NextEighth(n: nat)
    ensures Eighths(n + 1) == Eighths(n) + if Whole(n + 1) then 1 else 0
    ensures Whole(n + 1) ==> n + 1 == 8 * Eighths(n) + 8
  {
  }

  /** Eight rising edges make one byte, announced once; no byte is dropped and none is announced twice. */
  lemma {:induction false} BytesAnnounced(ins: seq<SpiIn>)
    requires Selected(ins)
    ensures Announced(ins) == BytesOf(Bits(ins, |ins| - 1))
    decreases |ins|
  {
    hide SpiNext, ByteOf, BytesOf, Whole, CountAfter;
    if ins == [] {
      NoBytes();
    } else {
      var m := |ins| - 1;
      var before := ins[..m];
      BytesAnnounced(before);
      assert before + [ins[m]] == ins;
      BitsPrefix(before, ins[m], m - 1);
      RunFollows(ins);
      var bits := Bits(ins, m - 1);
      if Bits(ins, m) != bits {
        BytesAppend(bits, Bits(ins, m));
        assert Bits(ins, m) == bits + [Data(ins, m - 2)];
      }
    }
  }

  lemma NoBytes()
    ensures BytesOf([]) == []
  {
  }

  // ------------------------------------------------------------------ sending

  /** The byte taken over in the last cycle in which no bit was under way. */
  function Loaded(ins: seq<SpiIn>): bv8 {
    if ins == [] then 0
    else if CountAfter(ins[..|ins| - 1]) == 0 then ins[|ins| - 1].data
    else Loaded(ins[..|ins| - 1])
  }

  /** The byte with its first `n` bits gone. */
  function Gone(byte: bv8, n: nat): bv8 {
    if n == 0 then byte else Shift(Gone(byte, n - 1), false)
  }

  /** While bit `bitcnt` is under way, one bit has left for each falling edge seen. */
  ghost predicate Sends(r: SpiRegs, ins: seq<SpiIn>) {
    var k := CountAfter(ins);
    k > 0 ==> r.buffer == Gone(Loaded(ins), if Level(ins, |ins| - 2) then k - 1 else k)
  }

  lemma SendStep(r: SpiRegs, ins: seq<SpiIn>, x: SpiIn)
    requires !x.ssel && Follows(r, ins) && Sends(r, ins)
    ensures Sends(SpiNext(r, x), ins + [x])
  {
    hide Shift, ByteOf, Bits;
    var n := |ins|;
    FollowStep(r, ins, x);
    LevelPrefix(ins, x, n - 1);
    LevelPrefix(ins, x, n - 2);
    assert (ins + [x])[..n] == ins;
  }

  lemma {:induction false} RunSends(ins: seq<SpiIn>)
    requires Selected(ins)
    ensures Sends(SpiRun(ins), ins)
    decreases |ins|
  {
    hide Follows, Sends, SpiNext;
    if ins == [] {
      ClearedSends();
    } else {
      var n := |ins| - 1;
      RunSends(ins[..n]);
      RunFollows(ins[..n]);
      assert ins[..n] + [ins[n]] == ins;
      SendStep(SpiRun(ins[..n]), ins[..n], ins[n]);
    }
  }

  lemma ClearedSends()
    ensures Sends(CLEARED, [])
  {
  }

  lemma GoneOne(byte: bv8, k: nat)
    requires k > 0
    ensures Gone(byte, k) == Shift(Gone(byte, k - 1), false)
  {
    hide Shift;
  }

  /** The bit at the top after `k` bits are gone is bit `k`. */
  lemma {:induction false} TopBitOf(byte: bv8, k: nat, i: nat)
    requires k + i < 8
    ensures BitOf(Gone(byte, k), i) <==> BitOf(byte, k + i)
    decreases k
  {
    hide BitOf, Gone, Shift;
    if k == 0 {
      NoneGone(byte);
    } else {
      GoneOne(byte, k);
      ShiftedBit(Gone(byte, k - 1), i);
      TopBitOf(byte, k - 1, i + 1);
    }
  }

  lemma NoneGone(byte: bv8)
    ensures Gone(byte, 0) == byte
  {
  }

  lemma ShiftedBit(byte: bv8, i: nat)
    requires i < 7
    ensures BitOf(Shift(byte, false), i) <==> BitOf(byte, i + 1)
  {
  }

  /** When the slave sees the rising edge that takes in bit k of a byte, its output shows bit k of the byte
      to send.  For k > 0 that is the byte it took over last before the first edge of this byte.  For k = 0 it is the
      byte offered in this cycle, provided the clock was low for two samples at least; after a single
      low sample the output is zero instead, which is wrong exactly if the bit was one. */
  lemma MisoShowsBit(ins: seq<SpiIn>)
    requires Selected(ins) && Rising(SpiRun(ins))
    ensures ins != [] && CountAfter(ins) < 8
    ensures CountAfter(ins) > 0 ==> (Miso(SpiRun(ins)) <==> BitOf(Loaded(ins), CountAfter(ins)))
    ensures CountAfter(ins) == 0 ==>
              (Miso(SpiRun(ins)) <==> BitOf(ins[|ins| - 1].data, 0) && !Level(ins, |ins| - 3))
  {
    hide Gone, Loaded, CountAfter, SpiNext, ByteOf;
    RunFollows(ins);
    RisingCount(ins);
    if CountAfter(ins) > 0 {
      RunSends(ins);
      TopBitOf(Loaded(ins), CountAfter(ins), 0);
    } else {
      FirstBit(ins);
    }
  }

  /** Before a rise the counter shows whether the clock fell only one sample ago. */
  lemma RisingCount(ins: seq<SpiIn>)
    requires ins != [] && Level(ins, |ins| - 1) && !Level(ins, |ins| - 2)
    ensures CountAfter(ins) < 8
    ensures CountAfter(ins) == 0 ==> CountAfter(ins[..|ins| - 1]) == if Level(ins, |ins| - 3) then 8 else 0
  {
    hide Bits;
    var n := |ins| - 1;
    assert ins[..n] + [ins[n]] == ins;
    BitsPrefix(ins[..n], ins[n], n - 1);
    LevelPrefix(ins[..n], ins[n], n - 2);
    BitsStep(ins, n);
    NoBitsYet(ins);
  }

  lemma FirstBit(ins: seq<SpiIn>)
    requires Selected(ins) && ins != [] && Level(ins, |ins| - 1) && !Level(ins, |ins| - 2) && CountAfter(ins) == 0
    ensures SpiRun(ins).buffer == if Level(ins, |ins| - 3) then 0 else ins[|ins| - 1].data
  {
    hide Gone, CountAfter, ByteOf, Loaded, Shift, Bits;
    var n := |ins| - 1;
    RisingCount(ins);
    RunFollows(ins[..n]);
    RunSends(ins[..n]);
    assert ins[..n] + [ins[n]] == ins;
    LevelPrefix(ins[..n], ins[n], n - 1);
    LevelPrefix(ins[..n], ins[n], n - 2);
    GoneOne(Loaded(ins[..n]), 8);
    AllGone(Loaded(ins[..n]));
  }

  lemma AllGone(byte: bv8)
    ensures Gone(byte, 8) == 0
  {
    hide Gone;
    NoneGone(byte);
    GoneOne(byte, 1);
    GoneOne(byte, 2);
    GoneOne(byte, 3);
    GoneOne(byte, 4);
    GoneOne(byte, 5);
    GoneOne(byte, 6);
    GoneOne(byte, 7);
    GoneOne(byte, 8);
  }

  // ------------------------------------------------------------------ the slave as an object

  class SpiSlave {
    var sck0: bool
    var sck1: bool
    var mosi0: bool
    var mosi1: bool
    var bitcnt: nat
    var received: bv8
    var byteReceived: bool
    var buffer: bv8

    /** The samples since selection, and the bytes announced since then. */
    ghost var ins: seq<SpiIn>
    ghost var bytes: seq<bv8>

    ghost function Regs(): SpiRegs
      reads this
    {
      SpiRegs(sck0, sck1, mosi0, mosi1, bitcnt, received, byteReceived, buffer)
    }

    ghost predicate Valid()
      reads this
    {
      Selected(ins) && Regs() == SpiRun(ins) && bytes == Announced(ins)
    }

    constructor ()
      ensures Valid() && ins == []
    {
      sck0, sck1, mosi0, mosi1, bitcnt, received, byteReceived, buffer := false, false, false, false, 0, 0, false, 0;
      ins, bytes := [], [];
    }

    /** The clocked blocks. */
    method Edge(x: SpiIn)
      modifies `sck0, `sck1, `mosi0, `mosi1, `bitcnt, `received, `byteReceived, `buffer
      ensures Regs() == SpiNext(old(Regs()), x)
    {
      hide Shift;
      var rising, falling := sck0 && !sck1, !sck0 && sck1;
      byteReceived := !x.ssel && rising && bitcnt == 7;
      if x.ssel {
        buffer := 0;
      } else if bitcnt == 0 {
        buffer := x.data;
      } else if falling {
        buffer := Shift(buffer, false);
      }
      if x.ssel {
        bitcnt, received := 0, 0;
      } else if bitcnt == 8 {
        if falling {
          bitcnt := 0;
        }
      } else if rising {
        bitcnt, received := bitcnt + 1, Shift(received, mosi1);
      }
      if x.ssel {
        sck0, sck1, mosi0, mosi1 := false, false, false, false;
      } else {
        sck1, sck0, mosi1, mosi0 := sck0, x.sck, mosi0, x.mosi;
      }
    }

    /** One more sample for the history. */
    lemma AnnouncedStep(before: seq<SpiIn>, x: SpiIn)
      ensures SpiRun(before + [x]) == SpiNext(SpiRun(before), x)
      ensures var r := SpiRun(before + [x]);
              Announced(before + [x]) == Announced(before) + if r.byteReceived then [r.received] else []
    {
      hide SpiNext;
      assert (before + [x])[..|before|] == before;
    }

    /** One clock edge.  The bytes announced while selected are those that the waveform carries. */
    method Tick(x: SpiIn)
      requires Valid()
      modifies this
      ensures Valid() && Regs() == SpiNext(old(Regs()), x)
      ensures ins == if x.ssel then [] else old(ins) + [x]
      ensures bytes == BytesOf(Bits(ins, |ins| - 1))
      ensures byteReceived ==> bytes != [] && bytes[|bytes| - 1] == received
    {
      hide SpiNext, SpiRun, Announced, Bits, BytesOf, Eighths;
      Edge(x);
      if x.ssel {
        ins, bytes := [], [];
        Deselected(SpiRun(old(ins)), x);
      } else {
        AnnouncedStep(ins, x);
        ins, bytes := ins + [x], bytes + if byteReceived then [received] else [];
      }
      BytesAnnounced(ins);
    }

    lemma Deselected(r: SpiRegs, x: SpiIn)
      requires x.ssel
      ensures SpiNext(r, x) == SpiRun([]) && Announced([]) == [] && !SpiNext(r, x).byteReceived
    {
    }
  }
}
