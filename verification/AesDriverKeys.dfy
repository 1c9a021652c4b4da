/** Which key a request of the kernel driver runs under: the driver loads a key only when another
    transform than the last one comes to use the engine. */
module AesDriverKeys {
  import opened AesBlock
  import opened AesDriver
  import opened AesModes

  /** Different keys have different schedules: the key is its own first round key. */
  lemma ExpandTells(key: Block, key': Block)
    ensures Expand(key) == Expand(key') <==> key == key'
  {
    if Expand(key) == Expand(key') {
      assert RoundKey(key, 0) == Expand(key)[0] && RoundKey(key', 0) == Expand(key')[0];
      OfColumns(key);
      OfColumns(key');
    }
  }

  /** The context of a transform. */
  class Transform {
    const key: array<bv8>

    constructor ()
      ensures fresh(key) && key.Length == 16
    {
      key := new bv8[16];
    }
  }

  /** `zynqaes_setkey`: the context gets the key; the engine is not told. */
  method SetKey(op: Transform, key: array<bv8>)
    requires op.key.Length == key.Length == 16 && op.key != key
    modifies op.key
    ensures op.key[..] == key[..]
  {
    Copy(op.key, 0, key, 0, 16);
  }

  /** The driver's memory of who used the engine last. */
  class KeyCache {
    var lastOp: Transform?

    /** The key last sent to the engine, and whether every transfer since then has succeeded. */
    ghost var loaded: Block
    ghost var healthy: bool

    ghost predicate Valid(engine: Engine)
      reads this, engine
    {
      lastOp != null && healthy ==> engine.ks == Expand(loaded)
    }

    constructor (engine: Engine)
      ensures Valid(engine) && lastOp == null
    {
      lastOp, loaded, healthy := null, ZERO, true;
    }

    /** The head of `zynqaes_crypto_op`: a key is sent if another transform was the last. */
    method LoadKey(engine: Engine, op: Transform, tx: array<bv8>, rx: array<bv8>, fault: bool) returns (ok: bool)
      requires Valid(engine)
      requires op.key.Length == 16 && tx.Length >= 20 && rx.Length >= 16 && tx != rx && tx != op.key
      modifies this, engine, tx, rx
      ensures Valid(engine) && lastOp == op
      ensures ok <==> old(lastOp) == op || !fault
      ensures old(lastOp) == op ==> loaded == old(loaded) && healthy == old(healthy) && engine.ks == old(engine.ks)
      ensures old(lastOp) != op ==> loaded == old(op.key[..]) && healthy == !fault
    {
      ok := true;
      if lastOp != op {
        lastOp, loaded := op, op.key[..];
        ok := SetKeyHw(engine, op.key, tx, rx, fault);
        healthy := ok;
      }
    }

    /** `zynqaes_crypto_op` as a whole.  While the transfers succeed, a request runs under the key that its
        transform had when it took the engine over: its own key if it takes over now, and otherwise exactly
        if the key has not been changed since.  The error of a failed key transfer is only seen if there is
        no data: otherwise the first chunk's overwrites it. */
    method Request(engine: Engine, op: Transform, src: array<bv8>, dst: array<bv8>, iv: array<bv8>,
                   tx: array<bv8>, rx: array<bv8>, cmd: bv32, keyFault: bool, succeeding: nat)
      returns (r: Outcome)
      requires Valid(engine)
      requires Buffers(src, dst, iv, tx, rx) && op.key.Length == 16
      requires tx.Length == TX_NBYTES && (IsEcbOp(cmd) || IsCbcOp(cmd))
      requires op.key != dst && op.key != iv && op.key != tx && op.key != rx
      modifies this, engine, dst, iv, tx, rx
      ensures Valid(engine) && lastOp == op
      ensures r.PastEnd? <==> IsCbcOp(cmd) && src.Length > 8144
      ensures src.Length > 0 ==> (r.Failed? <==> !r.PastEnd? && FIFO_NBYTES * succeeding < src.Length)
      ensures src.Length == 0 ==> (r.Failed? <==> old(lastOp) != op && keyFault)
      ensures loaded == if old(lastOp) == op then old(loaded) else op.key[..]
      ensures healthy <==> r.Finished? && (if old(lastOp) == op then old(healthy) else !keyFault)
      ensures healthy ==> dst[..] == Flat(Chunked(OnBus(cmd), Expand(loaded), old(iv[..]), BlocksOf(src[..])))
      ensures healthy ==> (engine.ks == Expand(op.key[..]) <==> old(lastOp) != op || old(loaded) == op.key[..])
    {
      hide Flat, Chunked, Once, BlocksOf, OnBus, IsEcbOp, IsCbcOp, Expand, FrameLength;
      var ok := LoadKey(engine, op, tx, rx, keyFault);
      r := CryptoOp(engine, src, dst, iv, tx, rx, cmd, succeeding);
      if src.Length == 0 && !ok {
        r := Failed;
      }
      healthy := healthy && r.Finished?;
      ExpandTells(loaded, op.key[..]);
    }

    /** `zynqaes_ecb_encrypt`. */
    method EcbEncryptOp(engine: Engine, op: Transform, src: array<bv8>, dst: array<bv8>, iv: array<bv8>,
                        tx: array<bv8>, rx: array<bv8>, keyFault: bool, succeeding: nat)
      returns (r: Outcome)
      requires Valid(engine) && Buffers(src, dst, iv, tx, rx) && op.key.Length == 16 && tx.Length == TX_NBYTES
      requires op.key != dst && op.key != iv && op.key != tx && op.key != rx
      modifies this, engine, dst, iv, tx, rx
      ensures Valid(engine) && !r.PastEnd?
      ensures lastOp == op && loaded == if old(lastOp) == op then old(loaded) else op.key[..]
      ensures src.Length > 0 ==> (r.Failed? <==> !r.PastEnd? && FIFO_NBYTES * succeeding < src.Length)
      ensures healthy <==> r.Finished? && (if old(lastOp) == op then old(healthy) else !keyFault)
      ensures healthy ==> dst[..] == Flat(EcbEncrypt(Expand(loaded), BlocksOf(src[..])))
    {
      hide Flat, Chunked, BlocksOf, OnBus, Expand, EcbEncrypt, EcbDecrypt, CbcEncrypt, CbcDecrypt;
      ghost var v: Block := iv[..];
      r := Request(engine, op, src, dst, iv, tx, rx, ZYNQAES_ECB_ENCRYPT, keyFault, succeeding);
      RequestResult(Expand(loaded), v, BlocksOf(src[..]));
    }

    /** `zynqaes_ecb_decrypt`. */
    method EcbDecryptOp(engine: Engine, op: Transform, src: array<bv8>, dst: array<bv8>, iv: array<bv8>,
                        tx: array<bv8>, rx: array<bv8>, keyFault: bool, succeeding: nat)
      returns (r: Outcome)
      requires Valid(engine) && Buffers(src, dst, iv, tx, rx) && op.key.Length == 16 && tx.Length == TX_NBYTES
      requires op.key != dst && op.key != iv && op.key != tx && op.key != rx
      modifies this, engine, dst, iv, tx, rx
      ensures Valid(engine) && !r.PastEnd?
      ensures lastOp == op && loaded == if old(lastOp) == op then old(loaded) else op.key[..]
      ensures src.Length > 0 ==> (r.Failed? <==> !r.PastEnd? && FIFO_NBYTES * succeeding < src.Length)
      ensures healthy <==> r.Finished? && (if old(lastOp) == op then old(healthy) else !keyFault)
      ensures healthy ==> dst[..] == Flat(EcbDecrypt(Expand(loaded), BlocksOf(src[..])))
    {
      hide Flat, Chunked, BlocksOf, OnBus, Expand, EcbEncrypt, EcbDecrypt, CbcEncrypt, CbcDecrypt;
      ghost var v: Block := iv[..];
      r := Request(engine, op, src, dst, iv, tx, rx, ZYNQAES_ECB_DECRYPT, keyFault, succeeding);
      RequestResult(Expand(loaded), v, BlocksOf(src[..]));
    }

    /** `zynqaes_cbc_encrypt`: what does not run past the buffer is one chunk. */
    method CbcEncryptOp(engine: Engine, op: Transform, src: array<bv8>, dst: array<bv8>, iv: array<bv8>,
                        tx: array<bv8>, rx: array<bv8>, keyFault: bool, succeeding: nat)
      returns (r: Outcome)
      requires Valid(engine) && Buffers(src, dst, iv, tx, rx) && op.key.Length == 16 && tx.Length == TX_NBYTES
      requires op.key != dst && op.key != iv && op.key != tx && op.key != rx
      modifies this, engine, dst, iv, tx, rx
      ensures Valid(engine) && (r.PastEnd? <==> src.Length > 8144)
      ensures lastOp == op && loaded == if old(lastOp) == op then old(loaded) else op.key[..]
      ensures src.Length > 0 ==> (r.Failed? <==> !r.PastEnd? && FIFO_NBYTES * succeeding < src.Length)
      ensures healthy <==> r.Finished? && (if old(lastOp) == op then old(healthy) else !keyFault)
      ensures healthy ==> dst[..] == Flat(CbcEncrypt(Expand(loaded), old(iv[..]), BlocksOf(src[..])))
    {
      hide Flat, Chunked, BlocksOf, OnBus, Expand, EcbEncrypt, EcbDecrypt, CbcEncrypt, CbcDecrypt;
      ghost var v: Block := iv[..];
      r := Request(engine, op, src, dst, iv, tx, rx, ZYNQAES_CBC_ENCRYPT, keyFault, succeeding);
      RequestResult(Expand(loaded), v, BlocksOf(src[..]));
    }

    /** `zynqaes_cbc_decrypt`. */
    method CbcDecryptOp(engine: Engine, op: Transform, src: array<bv8>, dst: array<bv8>, iv: array<bv8>,
                        tx: array<bv8>, rx: array<bv8>, keyFault: bool, succeeding: nat)
      returns (r: Outcome)
      requires Valid(engine) && Buffers(src, dst, iv, tx, rx) && op.key.Length == 16 && tx.Length == TX_NBYTES
      requires op.key != dst && op.key != iv && op.key != tx && op.key != rx
      modifies this, engine, dst, iv, tx, rx
      ensures Valid(engine) && (r.PastEnd? <==> src.Length > 8144)
      ensures lastOp == op && loaded == if old(lastOp) == op then old(loaded) else op.key[..]
      ensures src.Length > 0 ==> (r.Failed? <==> !r.PastEnd? && FIFO_NBYTES * succeeding < src.Length)
      ensures healthy <==> r.Finished? && (if old(lastOp) == op then old(healthy) else !keyFault)
      ensures healthy ==> dst[..] == Flat(CbcDecrypt(Expand(loaded), old(iv[..]), BlocksOf(src[..])))
    {
      hide Flat, Chunked, BlocksOf, OnBus, Expand, EcbEncrypt, EcbDecrypt, CbcEncrypt, CbcDecrypt;
      ghost var v: Block := iv[..];
      r := Request(engine, op, src, dst, iv, tx, rx, ZYNQAES_CBC_DECRYPT, keyFault, succeeding);
      RequestResult(Expand(loaded), v, BlocksOf(src[..]));
    }
  }

  /** A request, a new key for the transform, and another request.  Nothing fails, no other transform comes
      between, and the second request runs under the first key. */
  method StaleKey(cache: KeyCache, engine: Engine, op: Transform, key: array<bv8>, src: array<bv8>, dst: array<bv8>,
                  iv: array<bv8>, tx: array<bv8>, rx: array<bv8>, cmd: bv32)
    returns (first: Outcome, second: Outcome)
    requires cache.Valid(engine) && cache.lastOp != op
    requires Buffers(src, dst, iv, tx, rx) && op.key.Length == key.Length == 16
    requires tx.Length == TX_NBYTES && (IsEcbOp(cmd) || (IsCbcOp(cmd) && src.Length <= 8144))
    requires op.key != src && op.key != dst && op.key != iv && op.key != tx && op.key != rx && op.key != key
    requires key != dst && key != iv && key != tx && key != rx
    modifies cache, engine, op.key, dst, iv, tx, rx
    ensures first.Finished? && second.Finished? && op.key[..] == old(key[..])
    ensures engine.ks == Expand(old(op.key[..]))
    ensures engine.ks == Expand(op.key[..]) <==> old(key[..] == op.key[..])
  {
    hide Flat, Chunked, BlocksOf, OnBus, Expand;
    ghost var k := op.key[..];
    first := cache.Request(engine, op, src, dst, iv, tx, rx, cmd, false, src.Length);
    SetKey(op, key);
    second := cache.Request(engine, op, src, dst, iv, tx, rx, cmd, false, src.Length);
  }
}
