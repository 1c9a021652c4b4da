/** The controller between its two RAMs: what it writes, and in which cycle. */
module AesControllerProof {
  import opened AesField
  import opened AesBlock
  import opened AesCore
  import opened AesCoreProof
  import opened AesModes
  import opened AesController

  /** A command on the blocks `raw`, as received, with the round keys `ks` stored. */
  datatype Job = Job(cmd: Word, ks: Keys, raw: seq<Block>) {
    predicate Valid() {
      IsCommand(cmd) && Header() <= |raw| < 512
    }

    /** The number of blocks that are not data. */
    function Header(): nat { if IsCbc(cmd) then 1 else 0 }

    /** The number of data blocks. */
    function Count(): nat
      requires Valid()
    {
      |raw| - Header()
    }

    /** The received blocks with their bytes in memory order. */
    function Blocks(): (bs: seq<Block>)
      requires Valid()
      ensures |bs| == |raw|
    {
      seq(|raw|, i requires 0 <= i < |raw| => SwapBytes(raw[i]))
    }

    /** Cycles the core takes from its start strobe to its done strobe. */
    function CoreCycles(): nat { if cmd == SET_KEY then 11 else 13 }

    function Out(i: nat): Block
      requires Valid() && i < Count()
    {
      OutAt(cmd, ks, Blocks(), i)
    }

    function Keys(i: nat): Keys
      requires Valid() && i <= |raw|
    {
      KeysAt(cmd, ks, Blocks(), i)
    }
  }

  /** Where a job stands: initialising, fetching the vector, about to start data block `i`, `a`
      cycles into it, or announcing the end. */
  datatype CtrlPhase = AtInit | AtIv | AtStart(i: nat) | AtProcess(i: nat, a: nat) | AtDone

  ghost predicate CorePhase(s: TopRegs, j: Job, i: nat, a: nat)
    requires j.Valid() && i < j.Count() && a <= j.CoreCycles()
  {
    if a == 0 then TopIdle(s, j.Keys(i))
    else if j.cmd == SET_KEY then Expanding(s, j.Blocks()[i], a)
    else if IsEncrypt(j.cmd) then
      Encrypting(s, j.ks,
                 if IsCbc(j.cmd) then Xor(ChainAt(j.cmd, j.ks, j.Blocks(), i), j.Blocks()[i + 1]) else j.Blocks()[i], a)
    else
      Decrypting(s, j.ks, j.Blocks()[i + j.Header()], a)
  }

  /** The first `i` results are in the output RAM. */
  ghost predicate Written(outMem: Memory, j: Job, i: nat)
    requires j.Valid() && i <= j.Count()
  {
    forall k :: 0 <= k < i ==> outMem[k] == SwapBytes(j.Out(k))
  }

  ghost predicate Chained(c: CtrlRegs, j: Job, i: nat)
    requires j.Valid() && i <= j.Count()
  {
    IsCbc(j.cmd) ==> c.iv == ChainAt(j.cmd, j.ks, j.Blocks(), i)
  }

  predicate PhaseOk(j: Job, ph: CtrlPhase)
    requires j.Valid()
  {
    match ph
    case AtInit => true
    case AtIv => IsCbc(j.cmd)
    case AtStart(i) => i <= j.Count()
    case AtProcess(i, a) => i < j.Count() && a <= j.CoreCycles()
    case AtDone => true
  }

  /** The registers, the data `inOut` shown by the input RAM and the contents of the output RAM in a
      given phase of a job. */
  ghost predicate CtrlAt(c: CtrlRegs, inOut: Block, outMem: Memory, j: Job, ph: CtrlPhase)
    requires j.Valid() && PhaseOk(j, ph)
  {
    match ph
    case AtInit =>
      && c.state == InitBlockRam && c.inRE && !c.start && !c.outWE && !c.enO
      && c.readPtr == 0 && c.writePtr == 0 && TopIdle(c.top, j.ks)
    case AtIv =>
      && c.state == GetIv && !c.inRE && !c.start && !c.outWE && !c.enO
      && c.readPtr == 0 && c.writePtr == 0 && c.outBlkNo == 0 && TopIdle(c.top, j.ks)
      && inOut == j.raw[0]
    case AtStart(i) =>
      && c.state == Start && !c.start && !c.enO
      && c.readPtr == i + j.Header() && c.writePtr == i && c.outBlkNo == i
      && (i < j.Count() ==> c.inRE || inOut == j.raw[i + j.Header()])
      && (c.outWE <==> i > 0)
      && (i > 0 ==> c.outAddr == i - 1 && c.outData == SwapBytes(j.Out(i - 1)))
      && Written(outMem, j, if i == 0 then 0 else i - 1)
      && Chained(c, j, i) && TopIdle(c.top, j.Keys(i))
    case AtProcess(i, a) =>
      && c.state == Process && (c.start <==> a == 0) && !c.enO && !c.outWE && !c.inRE
      && c.readPtr == i + j.Header() && c.writePtr == i && c.outBlkNo == i
      && inOut == j.raw[i + j.Header()]
      && Written(outMem, j, i)
      && Chained(c, j, i) && CorePhase(c.top, j, i, a)
    case AtDone =>
      && c.state == Waiting && c.enO && CtrlQuiet(c, j.Keys(j.Count())) && c.outBlkNo == j.Count()
      && Written(outMem, j, j.Count())
  }

  /** Nothing in progress and nothing requested. */
  ghost predicate CtrlQuiet(c: CtrlRegs, ks: Keys) {
    c.state == Waiting && !c.start && !c.inRE && !c.outWE && TopIdle(c.top, ks)
  }

  function CtrlPhaseNext(j: Job, ph: CtrlPhase): CtrlPhase
    requires j.Valid()
  {
    match ph
    case AtInit => if IsCbc(j.cmd) then AtIv else AtStart(0)
    case AtIv => AtStart(0)
    case AtStart(i) => if i < j.Count() then AtProcess(i, 0) else AtDone
    case AtProcess(i, a) => if a < j.CoreCycles() then AtProcess(i, a + 1) else AtStart(i + 1)
    case AtDone => AtDone
  }

  /** The input RAM under the controller's strobes alone. */
  function InOutNext(c: CtrlRegs, inMem: Memory, inOut: Block): Block {
    if c.inRE then inMem[Low9(c.readPtr)] else inOut
  }

  /** The job's blocks are at the start of the input RAM. */
  ghost predicate Loaded(inMem: Memory, j: Job) {
    forall k :: 0 <= k < |j.raw| && k < 512 ==> inMem[k] == j.raw[k]
  }

  /** The output RAM under the controller's strobes. */
  function OutMemNext(c: CtrlRegs, outMem: Memory): Memory {
    if c.outWE then outMem[Low9(c.outAddr) := c.outData] else outMem
  }

  // ------------------------------------------------------------------ one cycle in each phase

  lemma StartJob(c: CtrlRegs, inOut: Block, outMem: Memory, j: Job)
    requires j.Valid() && CtrlQuiet(c, j.ks)
    ensures CtrlAt(CtrlNext(c, false, true, j.cmd, inOut, |j.raw|), inOut, outMem, j, AtInit)
  {
    hide TopNext, TopIdle, AesIn;
    IdleStep(c.top, j.ks, false, j.cmd, SwapBytes(inOut), AesIn(c, j.cmd, inOut));
  }

  lemma QuietStep(c: CtrlRegs, ks: Keys, reset: bool, cmd: Word, inOut: Block, n: nat)
    requires CtrlQuiet(c, ks)
    ensures CtrlQuiet(CtrlNext(c, reset, false, cmd, inOut, n), ks)
    ensures !CtrlNext(c, reset, false, cmd, inOut, n).enO
  {
    hide TopNext, TopIdle, AesIn;
    IdleStep(c.top, ks, reset, cmd, SwapBytes(inOut), AesIn(c, cmd, inOut));
  }

  lemma InitStep(c: CtrlRegs, inMem: Memory, inOut: Block, outMem: Memory, j: Job)
    requires j.Valid() && Loaded(inMem, j) && CtrlAt(c, inOut, outMem, j, AtInit)
    ensures CtrlAt(CtrlNext(c, false, false, j.cmd, inOut, |j.raw|), InOutNext(c, inMem, inOut), OutMemNext(c, outMem),
                   j, CtrlPhaseNext(j, AtInit))
  {
    hide TopNext, TopIdle, AesIn;
    IdleStep(c.top, j.ks, false, j.cmd, SwapBytes(inOut), AesIn(c, j.cmd, inOut));
  }

  lemma IvStep(c: CtrlRegs, inMem: Memory, inOut: Block, outMem: Memory, j: Job)
    requires j.Valid() && Loaded(inMem, j) && IsCbc(j.cmd) && CtrlAt(c, inOut, outMem, j, AtIv)
    ensures CtrlAt(CtrlNext(c, false, false, j.cmd, inOut, |j.raw|), InOutNext(c, inMem, inOut), OutMemNext(c, outMem),
                   j, AtStart(0))
  {
    hide TopNext, TopIdle, AesIn;
    IdleStep(c.top, j.ks, false, j.cmd, SwapBytes(inOut), AesIn(c, j.cmd, inOut));
  }

  lemma StartStep(c: CtrlRegs, inMem: Memory, inOut: Block, outMem: Memory, j: Job, i: nat)
    requires j.Valid() && Loaded(inMem, j) && i <= j.Count() && CtrlAt(c, inOut, outMem, j, AtStart(i))
    ensures CtrlAt(CtrlNext(c, false, false, j.cmd, inOut, |j.raw|), InOutNext(c, inMem, inOut), OutMemNext(c, outMem),
                   j, CtrlPhaseNext(j, AtStart(i)))
  {
    hide TopNext, TopIdle, AesIn, SwapBytes, OutAt, ChainAt, KeysAt;
    IdleStep(c.top, j.Keys(i), false, j.cmd, SwapBytes(inOut), AesIn(c, j.cmd, inOut));
  }

  /** The core inside one data block. */
  lemma CoreStep(c: CtrlRegs, inOut: Block, outMem: Memory, j: Job, i: nat, a: nat)
    requires j.Valid() && i < j.Count() && a <= j.CoreCycles()
    requires CtrlAt(c, inOut, outMem, j, AtProcess(i, a))
    ensures var t := TopNext(c.top, false, c.start, j.cmd, SwapBytes(inOut), AesIn(c, j.cmd, inOut));
            if a < j.CoreCycles() then CorePhase(t, j, i, a + 1) else TopIdle(t, j.Keys(i + 1))
    ensures TopDone(c.top) <==> a == j.CoreCycles()
    ensures a == j.CoreCycles() ==>
              (if j.cmd == CBC_DECRYPT then Xor(c.iv, TopOut(c.top)) else TopOut(c.top)) == j.Out(i)
    ensures a == j.CoreCycles() && j.cmd == CBC_ENCRYPT ==>
              TopOut(c.top) == ChainAt(j.cmd, j.ks, j.Blocks(), i + 1)
    ensures j.cmd == CBC_DECRYPT ==> SwapBytes(inOut) == ChainAt(j.cmd, j.ks, j.Blocks(), i + 1)
  {
    hide TopNext, TopIdle, TopOut, TopDone, SwapBytes, Encrypting, Decrypting, Expanding, Cipher, Decipher, Xor, Expand;
    var blk := SwapBytes(inOut);
    var b := AesIn(c, j.cmd, inOut);
    assert blk == j.Blocks()[i + j.Header()];
    if a == 0 {
      IdleStep(c.top, j.Keys(i), false, j.cmd, blk, b);
      if j.cmd == SET_KEY {
        ExpandStart(c.top, j.Keys(i), blk, b);
      } else if IsEncrypt(j.cmd) {
        EncryptStart(c.top, j.ks, j.cmd, blk, b);
      } else {
        DecryptStart(c.top, j.ks, j.cmd, blk, b);
      }
    } else if j.cmd == SET_KEY {
      ExpandStep(c.top, blk, a, j.cmd, blk, b);
    } else if IsEncrypt(j.cmd) {
      EncryptStep(c.top, j.ks, b, a, j.cmd, blk, b);
    } else {
      DecryptStep(c.top, j.ks, blk, a, j.cmd, blk, b);
    }
  }

  lemma ProcessStep(c: CtrlRegs, inMem: Memory, inOut: Block, outMem: Memory, j: Job, i: nat, a: nat)
    requires j.Valid() && Loaded(inMem, j) && i < j.Count() && a <= j.CoreCycles()
    requires CtrlAt(c, inOut, outMem, j, AtProcess(i, a))
    ensures CtrlAt(CtrlNext(c, false, false, j.cmd, inOut, |j.raw|), InOutNext(c, inMem, inOut), OutMemNext(c, outMem),
                   j, CtrlPhaseNext(j, AtProcess(i, a)))
  {
    hide CtrlNext, InOutNext, OutMemNext, CtrlAt, CtrlPhaseNext;
    if a < j.CoreCycles() {
      ProcessGoesOn(c, inMem, inOut, outMem, j, i, a);
    } else {
      ProcessEnds(c, inMem, inOut, outMem, j, i);
    }
  }

  lemma ProcessGoesOn(c: CtrlRegs, inMem: Memory, inOut: Block, outMem: Memory, j: Job, i: nat, a: nat)
    requires j.Valid() && Loaded(inMem, j) && i < j.Count() && a < j.CoreCycles()
    requires CtrlAt(c, inOut, outMem, j, AtProcess(i, a))
    ensures CtrlAt(CtrlNext(c, false, false, j.cmd, inOut, |j.raw|), InOutNext(c, inMem, inOut), OutMemNext(c, outMem),
                   j, CtrlPhaseNext(j, AtProcess(i, a)))
  {
    hide TopNext, TopIdle, TopOut, TopDone, SwapBytes, AesIn, CorePhase, Xor, OutAt, ChainAt, KeysAt;
    CoreStep(c, inOut, outMem, j, i, a);
  }

  lemma ProcessEnds(c: CtrlRegs, inMem: Memory, inOut: Block, outMem: Memory, j: Job, i: nat)
    requires j.Valid() && Loaded(inMem, j) && i < j.Count()
    requires CtrlAt(c, inOut, outMem, j, AtProcess(i, j.CoreCycles()))
    ensures CtrlAt(CtrlNext(c, false, false, j.cmd, inOut, |j.raw|), InOutNext(c, inMem, inOut), OutMemNext(c, outMem),
                   j, CtrlPhaseNext(j, AtProcess(i, j.CoreCycles())))
  {
    hide TopNext, TopIdle, TopOut, TopDone, SwapBytes, AesIn, CorePhase, Xor, OutAt, ChainAt, KeysAt;
    CoreStep(c, inOut, outMem, j, i, j.CoreCycles());
  }

  /** Every cycle of a job leads to the next phase. */
  lemma CtrlStep(c: CtrlRegs, inMem: Memory, inOut: Block, outMem: Memory, j: Job, ph: CtrlPhase)
    requires j.Valid() && Loaded(inMem, j) && PhaseOk(j, ph) && !ph.AtDone?
    requires CtrlAt(c, inOut, outMem, j, ph)
    ensures PhaseOk(j, CtrlPhaseNext(j, ph))
    ensures CtrlAt(CtrlNext(c, false, false, j.cmd, inOut, |j.raw|), InOutNext(c, inMem, inOut), OutMemNext(c, outMem),
                   j, CtrlPhaseNext(j, ph))
    ensures !c.enO
  {
    hide CtrlNext, InOutNext, OutMemNext, TopIdle, CorePhase, Written, Chained, OutAt, ChainAt, KeysAt, SwapBytes;
    match ph {
      case AtInit => InitStep(c, inMem, inOut, outMem, j);
      case AtIv => IvStep(c, inMem, inOut, outMem, j);
      case AtStart(i) => StartStep(c, inMem, inOut, outMem, j, i);
      case AtProcess(i, a) => ProcessStep(c, inMem, inOut, outMem, j, i, a);
    }
  }

  // ------------------------------------------------------------------ a whole job

  /** Cycles from the start strobe to the phase. */
  function Elapsed(j: Job, ph: CtrlPhase): nat
    requires j.Valid()
  {
    match ph
    case AtInit => 1
    case AtIv => 2
    case AtStart(i) => 2 + j.Header() + (j.CoreCycles() + 2) * i
    case AtProcess(i, a) => 3 + j.Header() + (j.CoreCycles() + 2) * i + a
    case AtDone => Latency(j)
  }

  /** 15 cycles a block, 13 a key, and three or four to begin and end. */
  function Latency(j: Job): nat
    requires j.Valid()
  {
    3 + j.Header() + (j.CoreCycles() + 2) * j.Count()
  }

  lemma ElapsedStep(j: Job, ph: CtrlPhase)
    requires j.Valid() && PhaseOk(j, ph) && !ph.AtDone?
    ensures Elapsed(j, ph) < Latency(j)
    ensures Elapsed(j, CtrlPhaseNext(j, ph)) == Elapsed(j, ph) + 1
  {
  }

  /** The controller between its RAMs, clocked on its own. */
  datatype Bench = Bench(c: CtrlRegs, inOut: Block, outMem: Memory)

  function BenchNext(b: Bench, inMem: Memory, j: Job, en: bool): Bench {
    Bench(CtrlNext(b.c, false, en, j.cmd, b.inOut, |j.raw|), InOutNext(b.c, inMem, b.inOut), OutMemNext(b.c, b.outMem))
  }

  /** The bench after `t` cycles, the first of them with the start strobe. */
  function BenchRun(b: Bench, inMem: Memory, j: Job, t: nat): Bench {
    if t == 0 then b else BenchNext(BenchRun(b, inMem, j, t - 1), inMem, j, t == 1)
  }

  lemma {:induction false} BenchPhase(b: Bench, inMem: Memory, j: Job, t: nat) returns (ph: CtrlPhase)
    requires j.Valid() && Loaded(inMem, j) && CtrlQuiet(b.c, j.ks) && 1 <= t <= Latency(j)
    ensures PhaseOk(j, ph) && Elapsed(j, ph) == t
    ensures var r := BenchRun(b, inMem, j, t); CtrlAt(r.c, r.inOut, r.outMem, j, ph)
  {
    hide CtrlNext, CtrlAt, CtrlQuiet;
    if t == 1 {
      ph := AtInit;
      StartJob(b.c, b.inOut, b.outMem, j);
      StartKeepsRams(b, inMem, j);
    } else {
      var before := BenchPhase(b, inMem, j, t - 1);
      var r := BenchRun(b, inMem, j, t - 1);
      CtrlStep(r.c, inMem, r.inOut, r.outMem, j, before);
      ElapsedStep(j, before);
      ph := CtrlPhaseNext(j, before);
    }
  }

  lemma StartKeepsRams(b: Bench, inMem: Memory, j: Job)
    requires j.Valid() && CtrlQuiet(b.c, j.ks)
    ensures InOutNext(b.c, inMem, b.inOut) == b.inOut && OutMemNext(b.c, b.outMem) == b.outMem
  {
  }

  /** From quiet, a job ends exactly `Latency` cycles after its start strobe and not before; then the
      output RAM begins with the command's results, their number is in the block counter, the new
      round keys are stored, and the controller is quiet again. */
  lemma ControllerComputesCommand(b: Bench, inMem: Memory, j: Job, t: nat)
    requires j.Valid() && Loaded(inMem, j) && CtrlQuiet(b.c, j.ks) && 1 <= t <= Latency(j)
    ensures BenchRun(b, inMem, j, t).c.enO <==> t == Latency(j)
    ensures t == Latency(j) ==>
              var r := BenchRun(b, inMem, j, t);
              var result := Result(j.cmd, j.ks, j.Blocks());
              && r.c.outBlkNo == |result|
              && (forall k :: 0 <= k < |result| ==> r.outMem[k] == SwapBytes(result[k]))
              && CtrlQuiet(r.c, KeysAfter(j.cmd, j.ks, j.Blocks()))
  {
    hide BenchRun, TopIdle, CorePhase, SwapBytes, OutAt, Result;
    var ph := BenchPhase(b, inMem, j, t);
    if !ph.AtDone? {
      ElapsedStep(j, ph);
    }
    forall k: nat | k < j.Count()
      ensures j.Out(k) == Result(j.cmd, j.ks, j.Blocks())[k]
    {
      ResultAt(j.cmd, j.ks, j.Blocks(), k);
    }
  }
}
