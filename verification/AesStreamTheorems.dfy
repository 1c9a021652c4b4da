/** Power on, timing and round trips of the AES engine. */
module AesStreamTheorems {
  import opened AesField
  import opened AesBlock
  import opened AesCore
  import opened AesModes
  import opened AesController
  import opened AesControllerProof
  import opened AesStream
  import opened AesStreamSpec
  import opened AesStreamProof
  import opened AesStreamRuns

  // ------------------------------------------------------------------ power on

  /** The controller and the core with all registers zero and any round keys. */
  predicate ControllerOff(c: CtrlRegs) {
    c == CtrlRegs(Waiting, 0, 0, false, ZERO, ZERO, 0, false, 0, false, false,
                  TopRegs(RoundKeyRegs(false, ZERO, 0, false, false), RamRegs(c.top.ram.mem, ZERO),
                          CipherRegs(Idle, ZERO, 0, false, false), DecipherRegs(Idle, ZERO, 0, false, false)))
  }

  /** All registers zero, the RAMs with any contents. */
  predicate PoweredOn(s: StreamRegs) {
    && s.state == Idling && !s.procDone && ControllerOff(s.ctrl)
    && s.slave == SlaveRegs(false, ZERO, 0, 0, [0, 0, 0, 0], false, 0, false, 0)
    && s.master == MasterRegs(MasterIdle, ZERO, 0, 0, 0, false, false, false)
    && s.inRam.out == ZERO && s.outRam.out == ZERO
  }

  /** Powered on, the design is ready; its round keys are whatever the key RAM begins with. */
  lemma PowerOnIsReady(s: StreamRegs)
    requires PoweredOn(s)
    ensures StreamAt(s, Ready(s.ctrl.top.ram.mem[..11]))
  {
  }

  // ------------------------------------------------------------------ timing

  /** Cycles until the design is ready again, not counting those in which the receiver stalls. */
  function Remaining(ph: Phase): nat
    requires WellFormed(ph)
  {
    match ph
    case Ready(_) => 0
    case Receive(_, _) => 0
    case Launch(j) => Latency(j) + 4 * j.Count() + 5
    case Working(j, at) => ElapsedAtMost(j, at); Latency(j) - Elapsed(j, at) + 4 * j.Count() + 5
    case Handover(j) => 4 * j.Count() + 4
    case FetchFirst(_, out) => 4 * |out| + 3
    case FetchSecond(_, out) => 4 * |out| + 2
    case Sending(_, out, sent) => 4 * |out| - sent + 1
    case Finish(_) => 1
  }

  lemma ElapsedAtMost(j: Job, at: CtrlPhase)
    requires j.Valid() && PhaseOk(j, at)
    ensures Elapsed(j, at) <= Latency(j)
  {
  }

  predicate Stalled(ph: Phase, p: Pins) { ph.Sending? && !p.mReady }

  /** The stalled cycles of a run. */
  function Stalls(ph: Phase, ins: seq<Pins>): nat
    requires WellFormed(ph) && LegalRun(ph, ins)
    decreases |ins|
  {
    if ins == [] then 0
    else (if Stalled(ph, ins[0]) then 1 else 0) + Stalls(PhaseNext(ph, ins[0]), ins[1..])
  }

  lemma RemainingStep(ph: Phase, p: Pins)
    requires WellFormed(ph) && Legal(ph, p) && p.resetn && !ph.Ready? && !ph.Receive?
    ensures WellFormed(PhaseNext(ph, p))
    ensures Remaining(PhaseNext(ph, p)) == Remaining(ph) - if Stalled(ph, p) then 0 else 1
  {
    hide Result, KeysAfter, Response, Elapsed, CtrlPhaseNext, Latency;
    PhaseNextOk(ph, p);
    match ph {
      case Launch(j) => InitElapsed(j);
      case Working(j, at) =>
        if at.AtDone? {
          InitElapsed(j);
        } else {
          ElapsedStep(j, at);
        }
      case _ =>
    }
  }

  lemma InitElapsed(j: Job)
    requires j.Valid()
    ensures Elapsed(j, AtInit) == 1 && Elapsed(j, AtDone) == Latency(j)
  {
  }

  /** A transaction takes an exact number of cycles: each cycle that is not a stall brings its end one
      cycle nearer. */
  lemma {:induction false} ExactTiming(ph: Phase, ins: seq<Pins>)
    requires WellFormed(ph) && LegalRun(ph, ins) && !ph.Receive?
    requires forall i :: 0 <= i < |ins| ==> ins[i].resetn
    requires |ins| - Stalls(ph, ins) <= Remaining(ph)
    ensures Stalls(ph, ins) <= |ins|
    ensures WellFormed(PhaseAfter(ph, ins)) && !PhaseAfter(ph, ins).Receive?
    ensures Remaining(PhaseAfter(ph, ins)) == Remaining(ph) - (|ins| - Stalls(ph, ins))
    decreases |ins|
  {
    hide Remaining, PhaseNext, Legal, WellFormed;
    if ins != [] {
      StallsAtMost(PhaseNext(ph, ins[0]), ins[1..]);
      if ph.Ready? {
        ReadyRemains(ph);
        assert false;
      } else {
        RemainingStep(ph, ins[0]);
        NeverReceivesNext(ph, ins[0]);
        ExactTiming(PhaseNext(ph, ins[0]), ins[1..]);
      }
    }
  }

  lemma {:induction false} StallsAtMost(ph: Phase, ins: seq<Pins>)
    requires WellFormed(ph) && LegalRun(ph, ins)
    ensures Stalls(ph, ins) <= |ins|
    decreases |ins|
  {
    hide PhaseNext, Legal, WellFormed;
    if ins != [] {
      StallsAtMost(PhaseNext(ph, ins[0]), ins[1..]);
    }
  }

  lemma ReadyRemains(ph: Phase)
    requires WellFormed(ph) && ph.Ready?
    ensures Remaining(ph) == 0
  {
  }

  lemma NeverReceivesNext(ph: Phase, p: Pins)
    requires WellFormed(ph) && !ph.Ready? && !ph.Receive?
    ensures !PhaseNext(ph, p).Receive?
  {
  }

  /** The blocks on their way to the receiver. */
  function Outgoing(ph: Phase): seq<Block>
    requires WellFormed(ph)
  {
    match ph
    case Launch(j) => Response(j)
    case Working(j, _) => Response(j)
    case Handover(j) => Response(j)
    case FetchFirst(_, out) => out
    case FetchSecond(_, out) => out
    case Sending(_, out, _) => out
    case _ => []
  }

  /** A phase is followed by the words still to be sent and the cycles before the first of them. */
  lemma OutgoingStep(ph: Phase, p: Pins)
    requires WellFormed(ph) && WellFormed(PhaseNext(ph, p)) && p.resetn
    requires Remaining(ph) > 4 * |Outgoing(ph)| + 1 && Outgoing(ph) != []
    ensures !Stalled(ph, p) && Outgoing(PhaseNext(ph, p)) == Outgoing(ph)
  {
    hide Result, KeysAfter, Elapsed, CtrlPhaseNext, Latency;
  }

  lemma SendingNow(ph: Phase)
    requires WellFormed(ph) && Outgoing(ph) != []
    ensures Remaining(ph) == 4 * |Outgoing(ph)| + 1 ==> ph.Sending? && ph.sent == 0
    ensures Remaining(ph) > 4 * |Outgoing(ph)| + 1 ==> !ph.Sending?
  {
    hide Result, KeysAfter, Elapsed, Latency;
    if ph.Working? {
      ElapsedAtMost(ph.job, ph.at);
    }
  }

  lemma {:induction false} BeforeFirstWord(ph: Phase, ins: seq<Pins>)
    requires WellFormed(ph) && LegalRun(ph, ins)
    requires forall i :: 0 <= i < |ins| ==> ins[i].resetn
    requires Outgoing(ph) != [] && |ins| + 4 * |Outgoing(ph)| + 1 <= Remaining(ph)
    ensures Stalls(ph, ins) == 0
    ensures WellFormed(PhaseAfter(ph, ins))
    ensures Outgoing(PhaseAfter(ph, ins)) == Outgoing(ph)
    ensures Remaining(PhaseAfter(ph, ins)) == Remaining(ph) - |ins|
    decreases |ins|
  {
    hide Remaining, PhaseNext, Legal, WellFormed, Outgoing, Stalled;
    if ins != [] {
      NotWaiting(ph);
      RemainingStep(ph, ins[0]);
      OutgoingStep(ph, ins[0]);
      BeforeFirstWord(PhaseNext(ph, ins[0]), ins[1..]);
    }
  }

  lemma NotWaiting(ph: Phase)
    requires WellFormed(ph) && Outgoing(ph) != []
    ensures !ph.Ready? && !ph.Receive?
  {
  }

  /** From the acceptance of the last word of a frame to the first offered word: the controller's
      latency and four cycles, in which nothing is offered.  For n data blocks there are 4n + 1 more
      until the design is ready again, and the cycles in which the receiver stalls. */
  lemma TransactionTiming(s: StreamRegs, j: Job, ins: seq<Pins>)
    requires JobOk(j) && StreamAt(s, Launch(j)) && LegalRun(Launch(j), ins)
    requires forall i :: 0 <= i < |ins| ==> ins[i].resetn
    ensures |ins| < Latency(j) + 4 ==> !MasterValid(Run(s, ins))
    ensures |ins| == Latency(j) + 4 ==> MasterValid(Run(s, ins)) && MasterData(Run(s, ins)) == Unpack(Response(j))[0]
    ensures |ins| - Stalls(Launch(j), ins) == Latency(j) + 4 * j.Count() + 5 ==> Run(s, ins).state == Idling
    ensures |ins| - Stalls(Launch(j), ins) < Latency(j) + 4 * j.Count() + 5 ==> Run(s, ins).state != Idling
  {
    hide StreamAt, PhaseNext, Legal, LegalRun, PhaseAfter, Run, Stalls, MasterValid, MasterData, MasterLast, Unpack;
    RunPhase(s, Launch(j), ins);
    var ph := PhaseAfter(Launch(j), ins);
    var now := Run(s, ins);
    Outputs(now, ph);
    AtRest(now, ph);
    if |ins| <= Latency(j) + 4 {
      BeforeFirstWord(Launch(j), ins);
      SendingNow(ph);
    }
    if |ins| - Stalls(Launch(j), ins) <= Remaining(Launch(j)) {
      ExactTiming(Launch(j), ins);
      OnlyReadyRests(ph);
    }
  }

  lemma OnlyReadyRests(ph: Phase)
    requires WellFormed(ph)
    ensures Remaining(ph) == 0 <==> ph.Ready? || ph.Receive?
  {
  }

  // ------------------------------------------------------------------ round trips

  function Swapped(bs: seq<Block>): (r: seq<Block>)
    ensures |r| == |bs|
  {
    seq(|bs|, i requires 0 <= i < |bs| => SwapBytes(bs[i]))
  }

  lemma SwappedTwice(bs: seq<Block>)
    ensures Swapped(Swapped(bs)) == bs
  {
    hide SwapBytes;
    forall i | 0 <= i < |bs|
      ensures SwapBytes(SwapBytes(bs[i])) == bs[i]
    {
      SwapTwice(bs[i]);
    }
  }

  lemma JobInSwapped(j: Job)
    requires j.Valid()
    ensures j.Blocks() == Swapped(j.raw)
    ensures Response(j) == Swapped(Result(j.cmd, j.ks, j.Blocks()))
  {
    hide SwapBytes, Result;
  }

  /** What one ECB command sends back, the other turns into what was received. */
  lemma EcbEngineRoundTrip(ks: Keys, raw: seq<Block>)
    requires 1 <= |raw| < 512
    ensures Response(Job(ECB_DECRYPT, ks, Response(Job(ECB_ENCRYPT, ks, raw)))) == raw
    ensures Response(Job(ECB_ENCRYPT, ks, Response(Job(ECB_DECRYPT, ks, raw)))) == raw
  {
    hide EcbEncrypt, EcbDecrypt, Swapped, Response;
    var bs := Swapped(raw);
    EcbInverse(ks, bs);
    SwappedTwice(raw);
    JobInSwapped(Job(ECB_ENCRYPT, ks, raw));
    JobInSwapped(Job(ECB_DECRYPT, ks, raw));
    SwappedTwice(EcbEncrypt(ks, bs));
    SwappedTwice(EcbDecrypt(ks, bs));
    JobInSwapped(Job(ECB_DECRYPT, ks, Response(Job(ECB_ENCRYPT, ks, raw))));
    JobInSwapped(Job(ECB_ENCRYPT, ks, Response(Job(ECB_DECRYPT, ks, raw))));
  }

  /** What a CBC command sends back for the data blocks `raw` after the vector `iv`. */
  function CbcReply(cmd: Word, ks: Keys, iv: Block, raw: seq<Block>): (r: seq<Block>)
    requires IsCbc(cmd) && |raw| < 511
    ensures |r| == |raw|
  {
    Response(Job(cmd, ks, [iv] + raw))
  }

  lemma CbcResponse(cmd: Word, ks: Keys, iv: Block, raw: seq<Block>)
    requires IsCbc(cmd) && |raw| < 511
    ensures CbcReply(cmd, ks, iv, raw)
         == Swapped(if cmd == CBC_ENCRYPT then CbcEncrypt(ks, SwapBytes(iv), Swapped(raw))
                    else CbcDecrypt(ks, SwapBytes(iv), Swapped(raw)))
  {
    hide CbcEncrypt, CbcDecrypt, SwapBytes, Response;
    var j := Job(cmd, ks, [iv] + raw);
    JobInSwapped(j);
    assert j.Blocks()[0] == SwapBytes(iv);
    assert j.Blocks()[1..] == Swapped(raw);
  }

  /** With the same initialisation vector, each CBC command undoes the other's answer. */
  lemma CbcEngineRoundTrip(ks: Keys, iv: Block, raw: seq<Block>)
    requires |raw| < 511
    ensures CbcReply(CBC_DECRYPT, ks, iv, CbcReply(CBC_ENCRYPT, ks, iv, raw)) == raw
    ensures CbcReply(CBC_ENCRYPT, ks, iv, CbcReply(CBC_DECRYPT, ks, iv, raw)) == raw
  {
    hide CbcEncrypt, CbcDecrypt, Swapped, SwapBytes, CbcReply;
    var v, bs := SwapBytes(iv), Swapped(raw);
    CbcInverse(ks, v, bs);
    SwappedTwice(raw);
    SwappedTwice(CbcEncrypt(ks, v, bs));
    SwappedTwice(CbcDecrypt(ks, v, bs));
    CbcResponse(CBC_ENCRYPT, ks, iv, raw);
    CbcResponse(CBC_DECRYPT, ks, iv, raw);
    CbcResponse(CBC_DECRYPT, ks, iv, CbcReply(CBC_ENCRYPT, ks, iv, raw));
    CbcResponse(CBC_ENCRYPT, ks, iv, CbcReply(CBC_DECRYPT, ks, iv, raw));
  }
}
