/** `aes_controller.v`: it reads blocks from one RAM, runs the AES core on them and hands the
    results to another. */
module AesController {
  import opened AesField
  import opened AesBlock
  import opened AesCore
  import opened AesModes

  datatype CtrlState = Waiting | InitBlockRam | GetIv | Start | Process

  /** The registers; `top` are those of the `aes_top` instance.  Pointers are 32 bits wide, block
      numbers and addresses nine. */
  datatype CtrlRegs = CtrlRegs(
    state: CtrlState, readPtr: nat, writePtr: nat, start: bool, iv: Block,
    outData: Block, outBlkNo: nat, outWE: bool, outAddr: nat, inRE: bool, enO: bool, top: TopRegs)

  function Inc32(n: nat): nat { (n + 1) % 0x1_0000_0000 }

  function Low9(n: nat): (r: nat)
    ensures r < 512
  {
    n % 512
  }

  /** `swap_bytes128`: the bytes of every 32-bit word change places. */
  function SwapBytes(b: Block): (r: Block) {
    [b[3], b[2], b[1], b[0], b[7], b[6], b[5], b[4],
     b[11], b[10], b[9], b[8], b[15], b[14], b[13], b[12]]
  }

  lemma SwapTwice(b: Block)
    ensures SwapBytes(SwapBytes(b)) == b
  {
  }

  /** The block offered to the core: chained only when encrypting in CBC mode. */
  function AesIn(c: CtrlRegs, cmd: Word, inData: Block): Block {
    if cmd == CBC_ENCRYPT then Xor(c.iv, SwapBytes(inData)) else SwapBytes(inData)
  }

  /** The controller's own registers at a clock edge; `done` and `out` are what the core shows.  Reset
      leaves the read pointer, the start strobe and the RAM strobes alone. */
  function CtrlEdge(c: CtrlRegs, reset: bool, en: bool, cmd: Word, blk: Block, inBlkCnt: nat,
                    done: bool, out: Block): CtrlRegs
  {
    if reset then c.(state := Waiting, writePtr := 0, enO := false, iv := ZERO, outBlkNo := 0)
    else
      var e := c.(enO := false, inRE := false, outWE := false);
      match c.state
      case Waiting =>
        e.(start := false, readPtr := 0, writePtr := 0,
           state := if en then InitBlockRam else Waiting, inRE := en)
      case InitBlockRam =>
        e.(outBlkNo := 0, state := if IsCbc(cmd) then GetIv else Start)
      case GetIv =>
        e.(iv := blk, inRE := true, readPtr := Inc32(c.readPtr), state := Start)
      case Start =>
        if c.readPtr == inBlkCnt then e.(start := false, state := Waiting, enO := true, readPtr := 0)
        else e.(state := Process, start := true)
      case Process =>
        if !done then e.(start := false)
        else
          e.(start := false, state := Start, outWE := true, outAddr := Low9(c.writePtr),
             outData := SwapBytes(if cmd == CBC_DECRYPT then Xor(c.iv, out) else out),
             outBlkNo := Low9(c.outBlkNo + 1),
             iv := if cmd == CBC_ENCRYPT then out else if cmd == CBC_DECRYPT then blk else c.iv,
             writePtr := Inc32(c.writePtr), readPtr := Inc32(c.readPtr), inRE := true)
  }

  /** One clock edge of the controller and the core inside it. */
  function CtrlNext(c: CtrlRegs, reset: bool, en: bool, cmd: Word, inData: Block, inBlkCnt: nat): CtrlRegs {
    var blk := SwapBytes(inData);
    CtrlEdge(c, reset, en, cmd, blk, inBlkCnt, TopDone(c.top), TopOut(c.top))
      .(top := TopNext(c.top, reset, c.start, cmd, blk, AesIn(c, cmd, inData)))
  }
}
