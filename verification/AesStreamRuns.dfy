/** Whole runs of the AES engine: any number of transactions under any stalls. */
module AesStreamRuns {
  import opened AesField
  import opened AesBlock
  import opened AesModes
  import opened AesControllerProof
  import opened AesStream
  import opened AesStreamSpec
  import opened AesStreamProof

  // ------------------------------------------------------------------ what the accepted words call for

  /** The accepted words cut into frames, and the words of a frame still incomplete. */
  datatype Cut = Cut(done: seq<seq<Word>>, rest: seq<Word>)

  function Frames(beats: seq<Beat>): Cut {
    if beats == [] then Cut([], [])
    else
      var before := Frames(beats[..|beats| - 1]);
      var b := beats[|beats| - 1];
      var frame := before.rest + [b.word];
      if Complete(frame, b.last) then Cut(before.done + [frame], []) else Cut(before.done, frame)
  }

  /** A known command with at least one data block and at most 511 blocks. */
  predicate FrameOk(frame: seq<Word>) {
    && |frame| > 0 && IsCommand(frame[0])
    && (if IsCbc(frame[0]) then 1 else 0) < (|frame| - 1) / 4 < 512
  }

  /** The words of a list of blocks, the last one flagged. */
  function Flagged(out: seq<Block>): (bs: seq<Beat>)
    ensures |bs| == 4 * |out|
  {
    seq(4 * |out|, i requires 0 <= i < 4 * |out| => Beat(Unpack(out)[i], i == 4 * |out| - 1))
  }

  /** The answer to a frame, given the round keys in force. */
  function Answer(ks: Keys, frame: seq<Word>): seq<Beat> {
    if FrameOk(frame) then Flagged(Response(JobOf(ks, frame))) else []
  }

  /** The round keys in force after a list of frames. */
  function KeysAfterAll(ks: Keys, frames: seq<seq<Word>>): Keys {
    if frames == [] then ks
    else
      var before := KeysAfterAll(ks, frames[..|frames| - 1]);
      var frame := frames[|frames| - 1];
      if FrameOk(frame) then JobKeys(JobOf(before, frame)) else before
  }

  /** The answers to a list of frames, in order. */
  function Answers(ks: Keys, frames: seq<seq<Word>>): seq<Beat> {
    if frames == [] then []
    else
      var before := frames[..|frames| - 1];
      Answers(ks, before) + Answer(KeysAfterAll(ks, before), frames[|frames| - 1])
  }

  // ------------------------------------------------------------------ runs

  /** Every cycle is legal. */
  ghost predicate LegalRun(ph: Phase, ins: seq<Pins>)
    requires WellFormed(ph)
    decreases |ins|
  {
    ins == [] ||
    (Legal(ph, ins[0]) && WellFormed(PhaseNext(ph, ins[0])) && LegalRun(PhaseNext(ph, ins[0]), ins[1..]))
  }

  function PhaseAfter(ph: Phase, ins: seq<Pins>): Phase
    requires WellFormed(ph) && LegalRun(ph, ins)
    decreases |ins|
  {
    if ins == [] then ph else PhaseAfter(PhaseNext(ph, ins[0]), ins[1..])
  }

  /** The part of the newest answer that has not left the master port yet. */
  function Pending(ph: Phase): seq<Beat>
    requires WellFormed(ph)
  {
    match ph
    case Launch(j) => Flagged(Response(j))
    case Working(j, _) => Flagged(Response(j))
    case Handover(j) => Flagged(Response(j))
    case FetchFirst(_, out) => Flagged(out)
    case FetchSecond(_, out) => Flagged(out)
    case Sending(_, out, sent) => Flagged(out)[sent..]
    case _ => []
  }

  /** The job of the phases before its answer is formed. */
  predicate HasJob(ph: Phase) { ph.Launch? || ph.Working? || ph.Handover? }

  /** Starting with the round keys `ks`, the words `acc` have been taken and `em` given. */
  ghost predicate History(ks: Keys, ph: Phase, acc: seq<Beat>, em: seq<Beat>)
    requires WellFormed(ph)
  {
    var cut := Frames(acc);
    && cut.rest == (if ph.Receive? then ph.got else [])
    && em + Pending(ph) == Answers(ks, cut.done)
    && (if HasJob(ph) then
          && cut.done != []
          && var n := |cut.done| - 1;
          FrameOk(cut.done[n]) && ph.job == JobOf(KeysAfterAll(ks, cut.done[..n]), cut.done[n])
        else KeysOf(ph) == KeysAfterAll(ks, cut.done))
  }

  function Wanted(ph: Phase, p: Pins): seq<Beat> {
    if p.resetn && p.sValid && ph.Receive? then [Beat(p.sData, p.sLast)] else []
  }

  function Offered(ph: Phase, p: Pins): seq<Beat>
    requires WellFormed(ph)
  {
    if p.resetn && p.mReady && ph.Sending? then [Flagged(ph.out)[ph.sent]] else []
  }

  lemma FramesAppend(acc: seq<Beat>, b: Beat)
    ensures var cut := Frames(acc);
            var frame := cut.rest + [b.word];
            Frames(acc + [b]) == if Complete(frame, b.last) then Cut(cut.done + [frame], []) else Cut(cut.done, frame)
  {
    assert (acc + [b])[..|acc|] == acc;
  }

  lemma AnswersAppend(ks: Keys, frames: seq<seq<Word>>, frame: seq<Word>)
    ensures Answers(ks, frames + [frame]) == Answers(ks, frames) + Answer(KeysAfterAll(ks, frames), frame)
    ensures KeysAfterAll(ks, frames + [frame])
         == if FrameOk(frame) then JobKeys(JobOf(KeysAfterAll(ks, frames), frame)) else KeysAfterAll(ks, frames)
  {
    hide JobKeys, Answer;
    assert (frames + [frame])[..|frames|] == frames;
  }

  /** The word that completes a frame adds its answer to what is due. */
  lemma TakeStep(ks: Keys, ph: Phase, acc: seq<Beat>, em: seq<Beat>, p: Pins)
    requires WellFormed(ph) && Legal(ph, p) && p.resetn && ph.Receive? && p.sValid
    requires WellFormed(PhaseNext(ph, p))
    requires History(ks, ph, acc, em)
    ensures History(ks, PhaseNext(ph, p), acc + Wanted(ph, p), em)
  {
    hide JobKeys, Response, Flagged, Pack;
    var b := Beat(p.sData, p.sLast);
    var done := Frames(acc).done;
    var frame := Frames(acc).rest + [p.sData];
    FramesAppend(acc, b);
    if Complete(frame, p.sLast) {
      AnswersAppend(ks, done, frame);
      assert (done + [frame])[..|done|] == done;
      assert em + [] == em;
    }
  }

  /** A word given is the next word due. */
  lemma GiveStep(ks: Keys, ph: Phase, acc: seq<Beat>, em: seq<Beat>, p: Pins)
    requires WellFormed(ph) && p.resetn && ph.Sending? && p.mReady
    requires History(ks, ph, acc, em)
    ensures WellFormed(PhaseNext(ph, p))
    ensures History(ks, PhaseNext(ph, p), acc, em + Offered(ph, p))
  {
    hide Flagged, Answers;
    var f := Flagged(ph.out);
    assert f[ph.sent..] == [f[ph.sent]] + f[ph.sent + 1..];
    assert em + f[ph.sent..] == (em + [f[ph.sent]]) + f[ph.sent + 1..];
  }

  /** The other cycles change nothing that is due. */
  lemma QuietHistoryStep(ks: Keys, ph: Phase, acc: seq<Beat>, em: seq<Beat>, p: Pins)
    requires WellFormed(ph) && Legal(ph, p) && p.resetn
    requires WellFormed(PhaseNext(ph, p)) && Wanted(ph, p) == [] && Offered(ph, p) == []
    requires History(ks, ph, acc, em)
    ensures History(ks, PhaseNext(ph, p), acc, em)
  {
    hide JobKeys, Response, Flagged, Answers, Answer, CtrlPhaseNext;
    var done := Frames(acc).done;
    if ph.Handover? {
      var n := |done| - 1;
      AnswersAppend(ks, done[..n], done[n]);
      assert done[..n] + [done[n]] == done;
    } else if ph.FetchSecond? {
      assert Flagged(ph.out)[0..] == Flagged(ph.out);
    }
  }

  lemma HistoryStep(ks: Keys, ph: Phase, acc: seq<Beat>, em: seq<Beat>, p: Pins)
    requires WellFormed(ph) && Legal(ph, p) && p.resetn
    requires History(ks, ph, acc, em)
    ensures WellFormed(PhaseNext(ph, p))
    ensures History(ks, PhaseNext(ph, p), acc + Wanted(ph, p), em + Offered(ph, p))
  {
    hide History, PhaseNext;
    PhaseNextOk(ph, p);
    assert acc + [] == acc && em + [] == em;
    if Wanted(ph, p) != [] {
      TakeStep(ks, ph, acc, em, p);
    } else if Offered(ph, p) != [] {
      GiveStep(ks, ph, acc, em, p);
    } else {
      QuietHistoryStep(ks, ph, acc, em, p);
    }
  }

  lemma PortsShowPhase(s: StreamRegs, ph: Phase, p: Pins)
    requires WellFormed(ph) && StreamAt(s, ph)
    ensures Wanted(ph, p) == Taken(s, p)
    ensures Offered(ph, p) == Given(s, p)
  {
    hide StreamAt, SlaveReady, MasterValid, MasterData, MasterLast;
    Outputs(s, ph);
  }

  /** The design stays in step with the phases. */
  lemma {:induction false} RunPhase(s: StreamRegs, ph: Phase, ins: seq<Pins>)
    requires WellFormed(ph) && StreamAt(s, ph) && LegalRun(ph, ins)
    ensures WellFormed(PhaseAfter(ph, ins)) && StreamAt(Run(s, ins), PhaseAfter(ph, ins))
    decreases |ins|
  {
    hide StreamAt, PhaseNext, StreamNext, Legal;
    if ins != [] {
      StreamStep(s, ph, ins[0]);
      RunPhase(StreamNext(s, ins[0]), PhaseNext(ph, ins[0]), ins[1..]);
    }
  }

  lemma HistoryShows(ks: Keys, ph: Phase, acc: seq<Beat>, em: seq<Beat>)
    requires WellFormed(ph) && History(ks, ph, acc, em)
    ensures em <= Answers(ks, Frames(acc).done)
    ensures ph.Ready? ==> em == Answers(ks, Frames(acc).done) && Frames(acc).rest == []
    ensures ph.Ready? ==> ph.ks == KeysAfterAll(ks, Frames(acc).done)
  {
    hide Answers, Frames, Flagged, Response;
    assert em <= em + Pending(ph);
  }

  /** The log of a run, for a phase. */
  ghost predicate Logged(log: Log, ph: Phase)
    requires WellFormed(ph)
  {
    History(log.ks, ph, log.taken, log.given)
  }

  /** The answers that the words taken since the last reset call for. */
  function Due(log: Log): seq<Beat> { Answers(log.ks, Frames(log.taken).done) }

  /** Outside the work of the core the stored keys are those of the phase. */
  lemma KeysStored(s: StreamRegs, ph: Phase)
    requires WellFormed(ph) && StreamAt(s, ph) && !ph.Working?
    ensures KeysOf(ph) == s.ctrl.top.ram.mem[..11]
  {
    hide MasterQuiet, Response, JobKeys, SlaveReceiving, LastPending, SlaveHolding, ResultReady;
    hide MasterFetching, MasterSending;
  }

  /** One legal cycle: the registers follow the phase, and the words given since the last reset are a
      prefix of what the words taken since then call for, all of it when the design is at rest. */
  lemma CycleKeepsHistory(s: StreamRegs, ph: Phase, log: Log, p: Pins)
    requires WellFormed(ph) && Legal(ph, p) && StreamAt(s, ph) && Logged(log, ph)
    ensures var ph' := PhaseNext(ph, p);
            WellFormed(ph') && StreamAt(StreamNext(s, p), ph') && Logged(LogNext(s, log, p), ph')
    ensures LogNext(s, log, p).given <= Due(LogNext(s, log, p))
    ensures PhaseNext(ph, p).Ready? ==>
              var log' := LogNext(s, log, p); log'.given == Due(log') && Frames(log'.taken).rest == []
  {
    hide History, StreamAt, PhaseNext, StreamNext, Legal, Taken, Given, Wanted, Offered, Answers, Frames;
    StreamStep(s, ph, p);
    if p.resetn {
      HistoryStep(log.ks, ph, log.taken, log.given, p);
      PortsShowPhase(s, ph, p);
    } else {
      ResetRuns(ph, p);
      KeysStored(s, ph);
      NothingYet(KeysOf(ph));
    }
    var log' := LogNext(s, log, p);
    HistoryShows(log'.ks, PhaseNext(ph, p), log'.taken, log'.given);
  }

  lemma ResetRuns(ph: Phase, p: Pins)
    requires WellFormed(ph) && Legal(ph, p) && !p.resetn
    ensures !ph.Working? && PhaseNext(ph, p) == Ready(KeysOf(ph))
  {
  }

  lemma ResetLog(s: StreamRegs, ph: Phase, log: Log, p: Pins)
    requires WellFormed(ph) && Legal(ph, p) && StreamAt(s, ph) && !p.resetn
    ensures LogNext(s, log, p) == Log(KeysOf(ph), [], [])
  {
    hide StreamAt, PhaseNext, Taken, Given, KeysOf;
    ResetRuns(ph, p);
    KeysStored(s, ph);
  }

  lemma {:induction false} RunHistory(s: StreamRegs, ph: Phase, log: Log, ins: seq<Pins>)
    requires WellFormed(ph) && StreamAt(s, ph) && LegalRun(ph, ins) && Logged(log, ph)
    ensures var ph' := PhaseAfter(ph, ins);
            WellFormed(ph') && StreamAt(Run(s, ins), ph') && Logged(RunLog(s, log, ins), ph')
    decreases |ins|
  {
    hide Logged, StreamAt, PhaseNext, StreamNext, Legal, LogNext, Due, Frames;
    if ins != [] {
      var p := ins[0];
      CycleKeepsHistory(s, ph, log, p);
      RunHistory(StreamNext(s, p), PhaseNext(ph, p), LogNext(s, log, p), ins[1..]);
    }
  }

  lemma NothingYet(ks: Keys)
    ensures History(ks, Ready(ks), [], [])
  {
    hide Answer, JobKeys;
  }

  lemma AtRest(s: StreamRegs, ph: Phase)
    requires WellFormed(ph) && StreamAt(s, ph)
    ensures s.state == Idling <==> ph.Ready?
  {
    hide CtrlAt, CtrlFree, MasterQuiet, Response, JobKeys, SlaveReceiving, LastPending;
  }

  /** The main result.  From a state at rest with the round keys `ks` stored, whatever the stalls on
      both ports and with resets in any cycle in which the core does not work: the words given since
      the last reset are always a prefix of the answers to the complete frames among the words taken
      since then, in order, each answer flagged on its last word only; and whenever the design is at
      rest again nothing is outstanding. */
  lemma StreamComputesAnswers(s: StreamRegs, ks: Keys, ins: seq<Pins>)
    requires StreamAt(s, Ready(ks)) && LegalRun(Ready(ks), ins)
    ensures var log := RunLog(s, Log(ks, [], []), ins);
            var cut := Frames(log.taken);
            var now := Run(s, ins);
            && log.given <= Answers(log.ks, cut.done)
            && (now.state == Idling ==>
                  && log.given == Answers(log.ks, cut.done) && cut.rest == []
                  && StreamAt(now, Ready(KeysAfterAll(log.ks, cut.done))))
  {
    hide Answers, StreamAt, Frames, History, LegalRun, PhaseAfter;
    NothingYet(ks);
    RunHistory(s, Ready(ks), Log(ks, [], []), ins);
    var ph := PhaseAfter(Ready(ks), ins);
    var log := RunLog(s, Log(ks, [], []), ins);
    HistoryShows(log.ks, ph, log.taken, log.given);
    AtRest(Run(s, ins), ph);
  }
}
