/** The commands of the AES engine on whole lists of blocks: ECB and CBC as in sections 6.1 and
    6.2 of NIST SP 800-38A, and key setting. */
module AesModes {
  import opened AesField
  import opened AesBlock
  import opened AesCore

  predicate IsCbc(cmd: Word) { cmd == CBC_ENCRYPT || cmd == CBC_DECRYPT }

  /** The commands for a cipher, which a request can carry. */
  predicate IsRequest(cmd: Word) { IsEncrypt(cmd) || IsDecrypt(cmd) }

  predicate IsCommand(cmd: Word) { cmd == SET_KEY || IsEncrypt(cmd) || IsDecrypt(cmd) }

  function EcbEncrypt(ks: Keys, ps: seq<Block>): (cs: seq<Block>)
    ensures |cs| == |ps|
  {
    seq(|ps|, i requires 0 <= i < |ps| => Cipher(ps[i], ks))
  }

  function EcbDecrypt(ks: Keys, cs: seq<Block>): (ps: seq<Block>)
    ensures |ps| == |cs|
  {
    seq(|cs|, i requires 0 <= i < |cs| => Decipher(cs[i], ks))
  }

  function CbcEncrypt(ks: Keys, iv: Block, ps: seq<Block>): (cs: seq<Block>)
    ensures |cs| == |ps|
    decreases |ps|
  {
    if ps == [] then []
    else
      var c := Cipher(Xor(ps[0], iv), ks);
      [c] + CbcEncrypt(ks, c, ps[1..])
  }

  function CbcDecrypt(ks: Keys, iv: Block, cs: seq<Block>): (ps: seq<Block>)
    ensures |ps| == |cs|
    decreases |cs|
  {
    if cs == [] then []
    else [Xor(Decipher(cs[0], ks), iv)] + CbcDecrypt(ks, cs[0], cs[1..])
  }

  /** The blocks a command hands back for the blocks it was given.  A CBC command takes its
      initialisation vector as the first block; setting a key gives a zero block per key. */
  function Result(cmd: Word, ks: Keys, blocks: seq<Block>): (r: seq<Block>)
    requires IsCbc(cmd) ==> |blocks| > 0
    ensures |r| == if IsCbc(cmd) then |blocks| - 1 else |blocks|
  {
    if cmd == ECB_ENCRYPT then EcbEncrypt(ks, blocks)
    else if cmd == ECB_DECRYPT then EcbDecrypt(ks, blocks)
    else if cmd == CBC_ENCRYPT then CbcEncrypt(ks, blocks[0], blocks[1..])
    else if cmd == CBC_DECRYPT then CbcDecrypt(ks, blocks[0], blocks[1..])
    else seq(|blocks|, _ => ZERO)
  }

  /** The round keys in force after the command. */
  function KeysAfter(cmd: Word, ks: Keys, blocks: seq<Block>): Keys {
    if cmd == SET_KEY && |blocks| > 0 then Expand(blocks[|blocks| - 1]) else ks
  }

  // ------------------------------------------------------------------ decryption undoes encryption

  lemma XorSymmetric(a: Block, b: Block)
    ensures Xor(a, b) == Xor(b, a)
  {
  }

  lemma EcbInverse(ks: Keys, bs: seq<Block>)
    ensures EcbDecrypt(ks, EcbEncrypt(ks, bs)) == bs
    ensures EcbEncrypt(ks, EcbDecrypt(ks, bs)) == bs
  {
    hide Cipher, Decipher;
    forall i | 0 <= i < |bs|
      ensures Decipher(Cipher(bs[i], ks), ks) == bs[i] && Cipher(Decipher(bs[i], ks), ks) == bs[i]
    {
      RoundTrip(bs[i], ks);
    }
  }

  lemma {:induction false} CbcInverse(ks: Keys, iv: Block, bs: seq<Block>)
    ensures CbcDecrypt(ks, iv, CbcEncrypt(ks, iv, bs)) == bs
    ensures CbcEncrypt(ks, iv, CbcDecrypt(ks, iv, bs)) == bs
    decreases |bs|
  {
    hide Cipher, Decipher, Xor;
    if bs != [] {
      var c := Cipher(Xor(bs[0], iv), ks);
      RoundTrip(Xor(bs[0], iv), ks);
      XorTwice(bs[0], iv);
      CbcInverse(ks, c, bs[1..]);
      RoundTrip(bs[0], ks);
      XorTwice(Decipher(bs[0], ks), iv);
      CbcInverse(ks, bs[0], bs[1..]);
    }
  }

  // ------------------------------------------------------------------ one block at a time

  /** The value the chaining register holds before data block `i`. */
  function ChainAt(cmd: Word, ks: Keys, blocks: seq<Block>, i: nat): Block
    requires IsCbc(cmd) && i < |blocks|
    decreases i
  {
    if i == 0 then blocks[0]
    else if cmd == CBC_ENCRYPT then Cipher(Xor(ChainAt(cmd, ks, blocks, i - 1), blocks[i]), ks)
    else blocks[i]
  }

  /** The result for data block `i` as the controller forms it. */
  function OutAt(cmd: Word, ks: Keys, blocks: seq<Block>, i: nat): Block
    requires i + (if IsCbc(cmd) then 1 else 0) < |blocks|
  {
    if cmd == ECB_ENCRYPT then Cipher(blocks[i], ks)
    else if cmd == ECB_DECRYPT then Decipher(blocks[i], ks)
    else if cmd == CBC_ENCRYPT then Cipher(Xor(ChainAt(cmd, ks, blocks, i), blocks[i + 1]), ks)
    else if cmd == CBC_DECRYPT then Xor(ChainAt(cmd, ks, blocks, i), Decipher(blocks[i + 1], ks))
    else ZERO
  }

  function KeysAt(cmd: Word, ks: Keys, blocks: seq<Block>, i: nat): Keys
    requires i <= |blocks|
  {
    if cmd == SET_KEY && i > 0 then Expand(blocks[i - 1]) else ks
  }

  lemma {:induction false} CbcEncryptAt(ks: Keys, iv: Block, ps: seq<Block>, i: nat)
    requires i < |ps|
    ensures CbcEncrypt(ks, iv, ps)[i] == OutAt(CBC_ENCRYPT, ks, [iv] + ps, i)
    decreases |ps|
  {
    hide Cipher, Xor;
    var c := Cipher(Xor(ps[0], iv), ks);
    XorSymmetric(ps[0], iv);
    if i > 0 {
      CbcEncryptAt(ks, c, ps[1..], i - 1);
      ChainTail(ks, iv, ps, i);
    }
  }

  lemma {:induction false} ChainTail(ks: Keys, iv: Block, ps: seq<Block>, i: nat)
    requires 1 <= i <= |ps|
    ensures ChainAt(CBC_ENCRYPT, ks, [iv] + ps, i)
         == ChainAt(CBC_ENCRYPT, ks, [Cipher(Xor(ps[0], iv), ks)] + ps[1..], i - 1)
  {
    hide Cipher, Xor;
    XorSymmetric(ps[0], iv);
    if i > 1 {
      ChainTail(ks, iv, ps, i - 1);
      assert ([iv] + ps)[i] == ([Cipher(Xor(ps[0], iv), ks)] + ps[1..])[i - 1];
    }
  }

  lemma {:induction false} CbcDecryptAt(ks: Keys, iv: Block, cs: seq<Block>, i: nat)
    requires i < |cs|
    ensures CbcDecrypt(ks, iv, cs)[i] == OutAt(CBC_DECRYPT, ks, [iv] + cs, i)
    decreases |cs|
  {
    hide Decipher, Xor;
    if i == 0 {
      XorSymmetric(Decipher(cs[0], ks), iv);
    } else {
      CbcDecryptAt(ks, cs[0], cs[1..], i - 1);
    }
  }

  /** The controller's block-by-block rules are the modes of the standard. */
  lemma ResultAt(cmd: Word, ks: Keys, blocks: seq<Block>, i: nat)
    requires i + (if IsCbc(cmd) then 1 else 0) < |blocks|
    ensures Result(cmd, ks, blocks)[i] == OutAt(cmd, ks, blocks, i)
  {
    hide Cipher, Decipher, Xor;
    if IsCbc(cmd) {
      var iv, bs := blocks[0], blocks[1..];
      assert [iv] + bs == blocks;
      CbcEncryptAt(ks, iv, bs, i);
      CbcDecryptAt(ks, iv, bs, i);
    }
  }
}
