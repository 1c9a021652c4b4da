/** The modules of the SHA-256 pipeline as objects: the registers are fields, `Tick` is a clock edge.
    The block object carries the history of its inputs and keeps the pipeline theorem. */
module ShaClocked {
  import opened Sha
  import opened ShaPipeline
  import opened ShaPipelineProof

  /** `W_start.v`. */
  class WStart {
    var w: Msg
    var enNext: bool

    ghost function Regs(): StartRegs
      reads this
    {
      StartRegs(w, enNext)
    }

    constructor ()
      ensures Regs() == POWER_ON.start
    {
      w, enNext := NO_WORDS, false;
    }

    method Tick(reset: bool, en: bool, win: Msg)
      modifies this
      ensures Regs() == StartNext(old(Regs()), reset, en, win)
    {
      enNext := false;
      if !reset && en {
        w, enNext := win, true;
      }
    }
  }

  /** `W_middle.v`: the buffer is overwritten in place, one word a cycle. */
  class WMiddle {
    const buf: array<bv32>
    var cnt: Count

    ghost predicate Valid() { buf.Length == 16 }

    ghost function Regs(): MiddleRegs
      requires Valid()
      reads this, buf
    {
      MiddleRegs(buf[..], cnt)
    }

    constructor ()
      ensures Valid() && fresh(buf) && Regs() == POWER_ON.m0
    {
      buf := new bv32[16](_ => 0);
      cnt := 0;
    }

    method Tick(en: bool, win: Msg)
      requires Valid()
      modifies this, buf
      ensures Regs() == MiddleNext(old(Regs()), en, win)
    {
      hide HdlExtend;
      if cnt != 0 || en {
        var i := 16 + cnt;
        ghost var was := buf[..];
        var w2 := if i - 2 < 16 then win[i - 2] else buf[i - 18];
        var w7 := if i - 7 < 16 then win[i - 7] else buf[i - 23];
        var w15 := if i - 15 < 16 then win[i - 15] else buf[i - 31];
        var w16 := win[i - 16];
        buf[cnt] := HdlExtend(w2, w7, w15, w16);
        assert buf[..] == was[cnt := HdlExtend(w2, w7, w15, w16)];
        cnt := if cnt == 15 then 0 else cnt + 1;
      }
    }
  }

  /** `sha_round.v`: the first cycle works on the inputs, the other fifteen on the registers. */
  class ShaRound {
    var v: Vars
    var h: Vars
    var nonce: bv32
    var enNext: bool
    var counter: Count

    ghost function Regs(): RoundRegs
      reads this
    {
      RoundRegs(v, h, nonce, enNext, counter)
    }

    constructor ()
      ensures Regs() == POWER_ON.r0
    {
      v, h, nonce, enNext, counter := NOTHING, NOTHING, 0, false, 0;
    }

    method Tick(reset: bool, x: StageIn, k: seq<bv32>)
      requires |k| == 16
      modifies this
      ensures Regs() == RoundNext(old(Regs()), reset, x, k)
    {
      hide HdlRound;
      enNext := false;
      if reset {
        counter, v, h, nonce := 0, NOTHING, NOTHING, 0;
      } else if counter != 0 || x.en {
        if x.en {
          h, nonce := x.h, x.nonce;
        }
        if counter == 0 {
          v := HdlRound(x.v, k[counter], x.w[counter]);
        } else {
          v := HdlRound(v, k[counter], x.w[counter]);
        }
        if counter == 15 {
          counter, enNext := 0, true;
        } else {
          counter := counter + 1;
        }
      }
    }
  }

  /** `sha_hash.v`. */
  class ShaHash {
    var h: Vars
    var nonce: bv32
    var enO: bool

    ghost function Regs(): HashRegs
      reads this
    {
      HashRegs(h, nonce, enO)
    }

    constructor ()
      ensures Regs() == POWER_ON.hash
    {
      h, nonce, enO := NOTHING, 0, false;
    }

    method Tick(reset: bool, x: RoundRegs)
      modifies this
      ensures Regs() == HashNext(old(Regs()), reset, x)
    {
      hide FeedForward;
      enO := false;
      if reset {
        h, nonce := NOTHING, 0;
      } else if x.enNext {
        h, nonce, enO := FeedForward(x.h, x.v), x.nonce, true;
      }
    }
  }

  /** What the wires between the modules of `sha_block.v` carry. */
  datatype Wires = Wires(e0: bool, e1: bool, e2: bool, w0: Msg, w1: Msg, w2: Msg,
                         s0: StageIn, s1: StageIn, s2: StageIn, s3: StageIn, last: RoundRegs)

  function WiresOf(b: BlockRegs): Wires {
    Wires(b.start.enNext, b.r0.enNext, b.r1.enNext, b.start.w, b.m0.buf, b.m1.buf,
          FirstIn(b), LaterIn(b.r0, b.m0), LaterIn(b.r1, b.m1), LaterIn(b.r2, b.m2), b.r3)
  }

  /** The edge of the whole is the edge of the parts. */
  lemma AllTicked(b: BlockRegs, c: BlockRegs, x: ShaIn, k: Table)
    requires c.start == StartNext(b.start, x.reset, x.en, x.m)
    requires c.hDelay == (if x.en then x.h else b.hDelay) && c.nonceDelay == (if x.en then x.nonce else b.nonceDelay)
    requires var w := WiresOf(b);
             && c.m0 == MiddleNext(b.m0, w.e0, w.w0) && c.m1 == MiddleNext(b.m1, w.e1, w.w1)
              && c.m2 == MiddleNext(b.m2, w.e2, w.w2)
             && c.r0 == RoundNext(b.r0, x.reset, w.s0, k[0..16]) && c.r1 == RoundNext(b.r1, x.reset, w.s1, k[16..32])
             && c.r2 == RoundNext(b.r2, x.reset, w.s2, k[32..48]) && c.r3 == RoundNext(b.r3, x.reset, w.s3, k[48..64])
             && c.hash == HashNext(b.hash, x.reset, w.last)
    ensures c == BlockNext(b, x, k)
  {
    hide MiddleNext, RoundNext, HashNext, StartNext, FirstIn, LaterIn;
  }

  datatype MiddleSet = MiddleSet(m0: MiddleRegs, m1: MiddleRegs, m2: MiddleRegs)

  datatype RoundSet = RoundSet(r0: RoundRegs, r1: RoundRegs, r2: RoundRegs, r3: RoundRegs)

  /** The three schedule stages that `sha_block.v` generates. */
  class MiddleLayers {
    const m0: WMiddle
    const m1: WMiddle
    const m2: WMiddle

    ghost function Parts(): set<object> { {m0, m0.buf, m1, m1.buf, m2, m2.buf} }

    ghost predicate Apart() {
      && m0.Valid() && m1.Valid() && m2.Valid()
      && m0 != m1 && m0 != m2 && m1 != m2 && m0.buf != m1.buf && m0.buf != m2.buf && m1.buf != m2.buf
    }

    ghost function Regs(): MiddleSet
      requires Apart()
      reads Parts()
    {
      MiddleSet(m0.Regs(), m1.Regs(), m2.Regs())
    }

    constructor ()
      ensures Apart() && fresh(Parts()) && Regs() == MiddleSet(POWER_ON.m0, POWER_ON.m1, POWER_ON.m2)
    {
      m0 := new WMiddle();
      m1 := new WMiddle();
      m2 := new WMiddle();
    }

    method Tick(w: Wires, ghost b: BlockRegs)
      requires Apart() && Regs() == MiddleSet(b.m0, b.m1, b.m2)
      modifies Parts()
      ensures Regs()
           == MiddleSet(MiddleNext(b.m0, w.e0, w.w0), MiddleNext(b.m1, w.e1, w.w1), MiddleNext(b.m2, w.e2, w.w2))
    {
      hide MiddleNext, WMiddle.Regs;
      m0.Tick(w.e0, w.w0);
      m1.Tick(w.e1, w.w1);
      m2.Tick(w.e2, w.w2);
    }
  }

  /** The four round stages that `sha_block.v` generates. */
  class RoundLayers {
    const r0: ShaRound
    const r1: ShaRound
    const r2: ShaRound
    const r3: ShaRound

    ghost function Parts(): set<object> { {r0, r1, r2, r3} }

    ghost predicate Apart() { r0 != r1 && r0 != r2 && r0 != r3 && r1 != r2 && r1 != r3 && r2 != r3 }

    ghost function Regs(): RoundSet
      reads Parts()
    {
      RoundSet(r0.Regs(), r1.Regs(), r2.Regs(), r3.Regs())
    }

    constructor ()
      ensures Apart() && fresh(Parts()) && Regs() == RoundSet(POWER_ON.r0, POWER_ON.r1, POWER_ON.r2, POWER_ON.r3)
    {
      r0 := new ShaRound();
      r1 := new ShaRound();
      r2 := new ShaRound();
      r3 := new ShaRound();
    }

    method Tick(reset: bool, w: Wires, k: Table, ghost b: BlockRegs)
      requires Apart() && Regs() == RoundSet(b.r0, b.r1, b.r2, b.r3)
      modifies Parts()
      ensures Regs() == RoundSet(RoundNext(b.r0, reset, w.s0, k[0..16]), RoundNext(b.r1, reset, w.s1, k[16..32]),
                                 RoundNext(b.r2, reset, w.s2, k[32..48]), RoundNext(b.r3, reset, w.s3, k[48..64]))
    {
      hide RoundNext, ShaRound.Regs;
      r0.Tick(reset, w.s0, k[0..16]);
      r1.Tick(reset, w.s1, k[16..32]);
      r2.Tick(reset, w.s2, k[32..48]);
      r3.Tick(reset, w.s3, k[48..64]);
    }
  }

  /** `sha_block.v`. */
  class ShaBlock {
    const k: Table
    const start: WStart
    const middle: MiddleLayers
    const rounds: RoundLayers
    const hash: ShaHash
    var hDelay: Vars
    var nonceDelay: bv32

    ghost var ins: seq<ShaIn>

    ghost function Modules(): set<object> {
      {start, hash, middle.m0, middle.m0.buf, middle.m1, middle.m1.buf, middle.m2, middle.m2.buf,
       rounds.r0, rounds.r1, rounds.r2, rounds.r3}
    }

    ghost predicate Apart() { middle.Apart() && rounds.Apart() }

    ghost function Regs(): BlockRegs
      requires Apart()
      reads `hDelay, `nonceDelay, Modules()
    {
      var m, r := middle.Regs(), rounds.Regs();
      BlockRegs(start.Regs(), hDelay, nonceDelay, m.m0, m.m1, m.m2, r.r0, r.r1, r.r2, r.r3, hash.Regs())
    }

    /** The registers are where the inputs so far have brought them. */
    ghost predicate Valid()
      reads this, Modules()
    {
      Apart() && Regs() == BlockRun(ins, k) && Spaced(ins)
    }

    /** Power on: all registers zero. */
    constructor (table: Table)
      ensures Apart() && fresh(Modules()) && Regs() == POWER_ON && k == table && ins == []
    {
      hide MiddleLayers.Regs, RoundLayers.Regs, WStart.Regs, ShaHash.Regs;
      k := table;
      start := new WStart();
      hash := new ShaHash();
      middle := new MiddleLayers();
      rounds := new RoundLayers();
      hDelay, nonceDelay := NOTHING, 0;
      ins := [];
    }

    lemma PoweredOnIsValid()
      requires Apart() && Regs() == POWER_ON && ins == []
      ensures Valid()
    {
    }

    method ReadWires(ghost b: BlockRegs) returns (w: Wires)
      requires Apart() && b == Regs()
      ensures w == WiresOf(b)
    {
      var m, r := middle, rounds;
      w := Wires(start.enNext, r.r0.enNext, r.r1.enNext, start.w, m.m0.buf[..], m.m1.buf[..],
                 StageIn(start.enNext, hDelay, hDelay, nonceDelay, start.w),
                 StageIn(r.r0.enNext, r.r0.v, r.r0.h, r.r0.nonce, m.m0.buf[..]),
                 StageIn(r.r1.enNext, r.r1.v, r.r1.h, r.r1.nonce, m.m1.buf[..]),
                 StageIn(r.r2.enNext, r.r2.v, r.r2.h, r.r2.nonce, m.m2.buf[..]),
                 RoundRegs(r.r3.v, r.r3.h, r.r3.nonce, r.r3.enNext, r.r3.counter));
    }

    /** The front and the end of the pipeline. */
    method TickEnds(x: ShaIn, w: Wires, ghost b: BlockRegs)
      requires Apart() && start.Regs() == b.start && hash.Regs() == b.hash
      requires hDelay == b.hDelay && nonceDelay == b.nonceDelay
      modifies start, hash, `hDelay, `nonceDelay
      ensures start.Regs() == StartNext(b.start, x.reset, x.en, x.m) && hash.Regs() == HashNext(b.hash, x.reset, w.last)
      ensures hDelay == (if x.en then x.h else b.hDelay) && nonceDelay == (if x.en then x.nonce else b.nonceDelay)
      ensures middle.Regs() == old(middle.Regs()) && rounds.Regs() == old(rounds.Regs())
    {
      hide StartNext, HashNext, WStart.Regs, ShaHash.Regs;
      start.Tick(x.reset, x.en, x.m);
      hash.Tick(x.reset, w.last);
      if x.en {
        hDelay, nonceDelay := x.h, x.nonce;
      }
    }

    /** The stages between. */
    method TickLayers(x: ShaIn, w: Wires, ghost b: BlockRegs)
      requires Apart()
      requires middle.Regs() == MiddleSet(b.m0, b.m1, b.m2) && rounds.Regs() == RoundSet(b.r0, b.r1, b.r2, b.r3)
      modifies middle.Parts(), rounds.Parts()
      ensures middle.Regs()
           == MiddleSet(MiddleNext(b.m0, w.e0, w.w0), MiddleNext(b.m1, w.e1, w.w1), MiddleNext(b.m2, w.e2, w.w2))
      ensures rounds.Regs()
           == RoundSet(RoundNext(b.r0, x.reset, w.s0, k[0..16]), RoundNext(b.r1, x.reset, w.s1, k[16..32]),
                       RoundNext(b.r2, x.reset, w.s2, k[32..48]), RoundNext(b.r3, x.reset, w.s3, k[48..64]))
      ensures start.Regs() == old(start.Regs()) && hash.Regs() == old(hash.Regs())
    {
      hide MiddleNext, RoundNext, WStart.Regs, ShaHash.Regs, MiddleLayers.Regs, RoundLayers.Regs;
      middle.Tick(w, b);
      rounds.Tick(x.reset, w, k, b);
    }

    /** The registers of all modules change at once. */
    method Edge(x: ShaIn)
      requires Apart()
      modifies Modules(), `hDelay, `nonceDelay
      ensures Regs() == BlockNext(old(Regs()), x, k)
    {
      hide BlockNext, MiddleNext, RoundNext, HashNext, StartNext, FirstIn, LaterIn,
           WStart.Regs, MiddleLayers.Regs, RoundLayers.Regs, ShaHash.Regs;
      ghost var b := Regs();
      var w := ReadWires(b);
      TickLayers(x, w, b);
      TickEnds(x, w, b);
      AllTicked(b, Regs(), x, k);
    }

    /** One clock edge.  The done pulse after it belongs to the job sent in 66 edges before. */
    method Tick(x: ShaIn) returns (done: bool, h: Vars, nonce: bv32)
      requires Valid() && Spaced(ins + [x])
      modifies this, Modules()
      ensures Valid() && ins == old(ins) + [x]
      ensures done <==> |ins| >= 66 && Fires(ins[|ins| - 66])
      ensures done ==> var job := ins[|ins| - 66]; h == Compress(k, job.h, job.m) && nonce == job.nonce
    {
      hide BlockNext, Spaced, Compress;
      Edge(x);
      ins := ins + [x];
      assert ins[..|ins| - 1] == old(ins);
      PipelineComputes(ins, k);
      done, h, nonce := hash.enO, hash.h, hash.nonce;
    }
  }
}
