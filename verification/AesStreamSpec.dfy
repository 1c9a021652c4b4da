/** The AES engine as its user sees it: frames of words in, frames of words out. */
module AesStreamSpec {
  import opened AesField
  import opened AesBlock
  import opened AesModes
  import opened AesController
  import opened AesControllerProof
  import opened AesStream

  // ------------------------------------------------------------------ words and blocks

  function PackAt(ws: seq<Word>, k: nat): Block
    requires 4 * k + 3 < |ws|
  {
    FromColumns(ws[4 * k], ws[4 * k + 1], ws[4 * k + 2], ws[4 * k + 3])
  }

  /** The blocks that whole groups of four words make up. */
  function Pack(ws: seq<Word>): (bs: seq<Block>)
    ensures |bs| == |ws| / 4
  {
    seq(|ws| / 4, k requires 0 <= k < |ws| / 4 => PackAt(ws, k))
  }

  /** The words of a list of blocks. */
  function Unpack(bs: seq<Block>): (ws: seq<Word>)
    ensures |ws| == 4 * |bs|
  {
    seq(4 * |bs|, i requires 0 <= i < 4 * |bs| => Column(bs[i / 4], i % 4))
  }

  lemma UnpackPack(bs: seq<Block>)
    ensures Pack(Unpack(bs)) == bs
  {
    hide FromColumns, Column;
    forall k: nat | k < |bs|
      ensures PackAt(Unpack(bs), k) == bs[k]
    {
      forall c: nat | c < 4
        ensures Unpack(bs)[4 * k + c] == Column(bs[k], c)
      {
        assert (4 * k + c) / 4 == k && (4 * k + c) % 4 == c;
      }
      OfColumns(bs[k]);
    }
  }

  /** The command of a received frame: the first word names it, the others are its blocks. */
  function JobOf(ks: Keys, frame: seq<Word>): Job
    requires frame != []
  {
    Job(frame[0], ks, Pack(frame[1..]))
  }

  /** The blocks sent back, as they stand on the bus. */
  function Response(j: Job): (out: seq<Block>)
    requires j.Valid()
    ensures |out| == j.Count()
  {
    var r := Result(j.cmd, j.ks, j.Blocks());
    seq(|r|, k requires 0 <= k < |r| => SwapBytes(r[k]))
  }

  function JobKeys(j: Job): Keys
    requires j.Valid()
  {
    KeysAfter(j.cmd, j.ks, j.Blocks())
  }

  // ------------------------------------------------------------------ the phases of a transaction

  datatype Phase =
    | Ready(ks: Keys)
    | Receive(ks: Keys, got: seq<Word>)
    | Launch(job: Job)
    | Working(job: Job, at: CtrlPhase)
    | Handover(job: Job)
    | FetchFirst(ks: Keys, out: seq<Block>)
    | FetchSecond(ks: Keys, out: seq<Block>)
    | Sending(ks: Keys, out: seq<Block>, sent: nat)
    | Finish(ks: Keys)

  predicate JobOk(j: Job) { j.Valid() && j.Count() >= 1 }

  predicate WellFormed(ph: Phase) {
    match ph
    case Ready(_) => true
    case Receive(_, got) => got != [] ==> IsCommand(got[0]) && |got| - 1 < 4 * 512
    case Launch(j) => JobOk(j)
    case Working(j, at) => JobOk(j) && PhaseOk(j, at)
    case Handover(j) => JobOk(j)
    case FetchFirst(_, out) => 1 <= |out| <= 512
    case FetchSecond(_, out) => 1 <= |out| <= 512
    case Sending(_, out, sent) => 1 <= |out| <= 512 && sent < 4 * |out|
    case Finish(_) => true
  }

  /** A frame ends with the flagged word that completes a block. */
  predicate Complete(frame: seq<Word>, last: bool) {
    |frame| > 1 && (|frame| - 1) % 4 == 0 && last
  }

  /** What the design needs of its user: a known command, whole blocks with the flag on the last
      word only, at least one block besides a CBC vector, at most 511 blocks, and no reset while the
      core is busy. */
  predicate Legal(ph: Phase, p: Pins) {
    && (ph.Working? ==> p.resetn)
    && (ph.Receive? && p.resetn && p.sValid ==>
          if ph.got == [] then IsCommand(p.sData)
          else
            && (p.sLast ==> |ph.got| % 4 == 0 && |ph.got| / 4 > if IsCbc(ph.got[0]) then 1 else 0)
            && |ph.got| <= 4 * 511 && (|ph.got| == 4 * 511 ==> p.sLast))
  }

  function KeysOf(ph: Phase): Keys
    requires WellFormed(ph)
  {
    match ph
    case Ready(ks) => ks
    case Receive(ks, _) => ks
    case Launch(j) => j.ks
    case Working(j, _) => j.ks
    case Handover(j) => JobKeys(j)
    case FetchFirst(ks, _) => ks
    case FetchSecond(ks, _) => ks
    case Sending(ks, _, _) => ks
    case Finish(ks) => ks
  }

  function PhaseNext(ph: Phase, p: Pins): Phase
    requires WellFormed(ph)
  {
    if !p.resetn then Ready(KeysOf(ph))
    else match ph
      case Ready(ks) => if p.sValid then Receive(ks, []) else ph
      case Receive(ks, got) =>
        if !p.sValid then ph
        else
          var frame := got + [p.sData];
          if Complete(frame, p.sLast) then Launch(JobOf(ks, frame)) else Receive(ks, frame)
      case Launch(j) => Working(j, AtInit)
      case Working(j, at) => if at.AtDone? then Handover(j) else Working(j, CtrlPhaseNext(j, at))
      case Handover(j) => FetchFirst(JobKeys(j), Response(j))
      case FetchFirst(ks, out) => FetchSecond(ks, out)
      case FetchSecond(ks, out) => Sending(ks, out, 0)
      case Sending(ks, out, sent) =>
        if !p.mReady then ph else if sent + 1 == 4 * |out| then Finish(ks) else Sending(ks, out, sent + 1)
      case Finish(ks) => Ready(ks)
  }

  lemma PhaseNextOk(ph: Phase, p: Pins)
    requires WellFormed(ph) && Legal(ph, p)
    ensures WellFormed(PhaseNext(ph, p))
  {
    hide Result, Expand;
  }
}
