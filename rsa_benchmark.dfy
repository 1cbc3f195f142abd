/** `RSABenchmark`: the key-handle bookkeeping around OpenSSL's EVP
    interface. OpenSSL objects are opaque handles; each EVP call is
    represented by what it returns, given as a parameter. The ghost set
    `live` records the OpenSSL objects this instance has allocated and not
    yet freed, so that the model can state that nothing leaks. */
module RsaBenchmark {
  import opened Bytes

  /** An `EVP_PKEY`: a generated RSA key. */
  class EvpPkey {
    constructor () {}
  }

  /** An `EVP_PKEY_CTX`: a key-generation or key-operation context. */
  class EvpPkeyCtx {
    constructor () {}
  }

  /** The range of a C `int`. */
  predicate IsInt32(x: int)
  {
    -0x8000_0000 <= x < 0x8000_0000
  }

  /** C++ integer division, which truncates toward zero (Dafny's `/` rounds
      toward negative infinity for a negative dividend). */
  function CDiv(a: int, b: int): (q: int)
    requires b > 0
    ensures a >= 0 ==> 0 <= a - q * b < b
    ensures a < 0 ==> -b < a - q * b <= 0
  {
    if a >= 0 then a / b else -((-a) / b)
  }

  /** Conversion of an `int` to the `size_t` a getter returns (64 bits):
      negative values wrap around. */
  function ToSizeT(x: int): (n: nat)
    ensures 0 <= x < 0x1_0000_0000_0000_0000 ==> n == x
    ensures n < 0x1_0000_0000_0000_0000
    ensures (n - x) % 0x1_0000_0000_0000_0000 == 0
  {
    x % 0x1_0000_0000_0000_0000
  }

  /** The results of the four calls of `generateKeys`: whether
      `EVP_PKEY_CTX_new_id` returned a context, and the statuses of
      `EVP_PKEY_keygen_init`, `EVP_PKEY_CTX_set_rsa_keygen_bits` and
      `EVP_PKEY_keygen`. */
  datatype KeygenCalls = KeygenCalls(ctxCreated: bool, initStatus: int, bitsStatus: int, keygenStatus: int)

  /** Every step of key generation succeeded (each status positive). */
  predicate KeygenSucceeds(c: KeygenCalls)
  {
    c.ctxCreated && c.initStatus > 0 && c.bitsStatus > 0 && c.keygenStatus > 0
  }

  /** The results of the calls of `sign`: whether `EVP_MD_CTX_new` returned a
      context, the status of `EVP_DigestSignInit`, the status and length of
      the sizing `EVP_DigestSign`, and the status, written bytes and final
      length of the signing `EVP_DigestSign`. */
  datatype DigestSignCalls = DigestSignCalls(
    mdCtxCreated: bool, initStatus: int,
    sizeStatus: int, maxLength: nat,
    signStatus: int, written: seq<byte>, signatureLength: nat)

  predicate DigestSignSucceeds(c: DigestSignCalls)
  {
    c.mdCtxCreated && c.initStatus > 0 && c.sizeStatus > 0 && c.signStatus > 0
  }

  /** The results of the calls of `verify`: whether `EVP_MD_CTX_new` returned
      a context, the status of `EVP_DigestVerifyInit` and the result of
      `EVP_DigestVerify`. */
  datatype DigestVerifyCalls = DigestVerifyCalls(mdCtxCreated: bool, initStatus: int, verifyResult: int)

  class RSABenchmark {
    /** `keySize_`, in bits; never changed after construction. */
    const keySize: int
    /** `pkey_`, `signCtx_` and `verifyCtx_`; null is "none". */
    var pkey: EvpPkey?
    var signCtx: EvpPkeyCtx?
    var verifyCtx: EvpPkeyCtx?
    /** OpenSSL objects allocated by this instance and not yet freed. */
    ghost var live: set<object>

    /** The objects the three handle fields hold. */
    ghost function Held(): set<object>
      reads this
    {
      (if pkey != null then {pkey} else {})
      + (if signCtx != null then {signCtx} else {})
      + (if verifyCtx != null then {verifyCtx} else {})
    }

    /** Every live OpenSSL object is held by a field: none has leaked. */
    ghost predicate Valid()
      reads this
    {
      IsInt32(keySize) && live == Held()
    }

    /** `hasKeys()` */
    predicate HasKeys()
      reads this
    {
      pkey != null
    }

    /** A new instance holds no key and no context. */
    constructor (keySize: int)
      requires IsInt32(keySize)
      ensures Valid() && this.keySize == keySize
      ensures pkey == null && signCtx == null && verifyCtx == null
      ensures !HasKeys() && live == {}
    {
      this.keySize := keySize;
      pkey, signCtx, verifyCtx := null, null, null;
      live := {};
    }

    /** `cleanup`: frees every handle and nulls it; the result does not
        depend on the state before, so a second call changes nothing. */
    method Cleanup()
      requires Valid()
      modifies this
      ensures Valid()
      ensures pkey == null && signCtx == null && verifyCtx == null
      ensures live == {} && !HasKeys()
    {
      if signCtx != null {
        live := live - {signCtx};
        signCtx := null;
      }
      if verifyCtx != null {
        live := live - {verifyCtx};
        verifyCtx := null;
      }
      if pkey != null {
        live := live - {pkey};
        pkey := null;
      }
    }

    /** `generateKeys`: discards any previous key first, then succeeds
        exactly when every call succeeds; only a success leaves a (new) key.
        The temporary generation context is freed on every path. */
    method GenerateKeys(calls: int -> KeygenCalls) returns (ok: bool)
      requires Valid()
      modifies this
      ensures Valid()
      ensures ok <==> KeygenSucceeds(calls(keySize))
      ensures HasKeys() <==> ok
      ensures ok ==> fresh(pkey)
      ensures signCtx == null && verifyCtx == null
      ensures live == if ok then {pkey} else {}
    {
      Cleanup();
      var c := calls(keySize);
      if !c.ctxCreated {
        return false;
      }
      var ctx := new EvpPkeyCtx();
      live := live + {ctx};
      if c.initStatus <= 0 {
        live := live - {ctx};
        return false;
      }
      if c.bitsStatus <= 0 {
        live := live - {ctx};
        return false;
      }
      if c.keygenStatus <= 0 {
        live := live - {ctx};
        return false;
      }
      pkey := new EvpPkey();
      live := live + {pkey};
      live := live - {ctx};
      return true;
    }

    /** `sign`: empty without a key or when any call fails; otherwise the
        zero-filled buffer of the size the first `EVP_DigestSign` reported,
        as the second call wrote it, resized to the length that call set. */
    method Sign(message: seq<byte>, calls: (EvpPkey, seq<byte>) -> DigestSignCalls) returns (signature: seq<byte>)
      requires Valid()
      ensures !HasKeys() ==> signature == []
      ensures HasKeys() && !DigestSignSucceeds(calls(pkey, message)) ==> signature == []
      ensures HasKeys() && DigestSignSucceeds(calls(pkey, message)) ==>
        var c := calls(pkey, message);
        |signature| == c.signatureLength &&
        forall i :: 0 <= i < |signature| ==>
          signature[i] == if i < c.maxLength && i < |c.written| then c.written[i] else 0
    {
      if pkey == null {
        return [];
      }
      var c := calls(pkey, message);
      if !c.mdCtxCreated || c.initStatus <= 0 || c.sizeStatus <= 0 {
        return [];
      }
      var buffer := Zeros(c.maxLength);
      if c.signStatus <= 0 {
        return [];
      }
      buffer := Overlay(buffer, c.written);
      signature := Resized(buffer, c.signatureLength);
    }

    /** `verify`: false without a key; otherwise true exactly when both
        setup calls succeed and `EVP_DigestVerify` returns exactly 1 (not
        merely a positive value). */
    method Verify(message: seq<byte>, signature: seq<byte>, calls: (EvpPkey, seq<byte>, seq<byte>) -> DigestVerifyCalls)
      returns (ok: bool)
      requires Valid()
      ensures ok <==> HasKeys()
                      && calls(pkey, signature, message).mdCtxCreated
                      && calls(pkey, signature, message).initStatus > 0
                      && calls(pkey, signature, message).verifyResult == 1
    {
      if pkey == null {
        return false;
      }
      var c := calls(pkey, signature, message);
      if !c.mdCtxCreated || c.initStatus <= 0 {
        return false;
      }
      return c.verifyResult == 1;
    }

    /** `getPublicKeySize`: 0 without a key, else `keySize / 8 + 32`. */
    function GetPublicKeySize(): (n: nat)
      reads this
      ensures !HasKeys() ==> n == 0
      ensures HasKeys() && 0 <= keySize < 0x8000_0000 ==> n == keySize / 8 + 32
    {
      if pkey == null then 0 else ToSizeT(CDiv(keySize, 8) + 32)
    }

    /** `getPrivateKeySize`: 0 without a key, else `(keySize / 8) * 5`. */
    function GetPrivateKeySize(): (n: nat)
      reads this
      ensures !HasKeys() ==> n == 0
      ensures HasKeys() && 0 <= keySize < 0x8000_0000 ==> n == 5 * (keySize / 8)
    {
      if pkey == null then 0 else ToSizeT(CDiv(keySize, 8) * 5)
    }

    /** `getSignatureSize`: `keySize / 8`, with or without a key; a
        negative quotient comes back wrapped around modulo 2^64. (The key
        size is a C `int`, which the constructor demands; the getters'
        contracts say so themselves since they hold for every instance.) */
    function GetSignatureSize(): (n: nat)
      reads this
      ensures 0 <= keySize < 0x8000_0000 ==> n == keySize / 8
      ensures n < 0x1_0000_0000_0000_0000
      ensures keySize < 0 ==> (n + (-keySize) / 8) % 0x1_0000_0000_0000_0000 == 0
    {
      ToSizeT(CDiv(keySize, 8))
    }
  }

  /** For a non-negative key size the size figures are plain byte counts
      tied to the modulus length: the public key is 32 bytes more than a
      signature, the private key five times a signature, and both are 0
      while no key is held. */
  lemma SizeFigures(r: RSABenchmark)
    requires r.Valid() && r.keySize >= 0
    ensures r.GetSignatureSize() == r.keySize / 8
    ensures r.GetPublicKeySize() == if r.HasKeys() then r.GetSignatureSize() + 32 else 0
    ensures r.GetPrivateKeySize() == if r.HasKeys() then 5 * r.GetSignatureSize() else 0
  {
  }

  /** The figures the comparison reports for the two moduli it benchmarks. */
  lemma StandardModulusFigures(r: RSABenchmark)
    requires r.Valid() && r.HasKeys()
    ensures r.keySize == 2048 ==> r.GetPublicKeySize() == 288 && r.GetPrivateKeySize() == 1280 && r.GetSignatureSize() == 256
    ensures r.keySize == 3072 ==> r.GetPublicKeySize() == 416 && r.GetPrivateKeySize() == 1920 && r.GetSignatureSize() == 384
  {
  }

  /** A negative key size is not rejected: its signature size wraps around
      to a huge `size_t`. */
  lemma NegativeKeySizeWraps(r: RSABenchmark)
    requires r.Valid() && r.keySize == -8
    ensures r.GetSignatureSize() == 0xFFFF_FFFF_FFFF_FFFF
  {
  }

  /** Two cleanups in a row, and a failed key generation, leave a key-less
      instance that cannot sign or verify. */
  method KeyStateScenario(keySize: int, calls: int -> KeygenCalls, message: seq<byte>,
                          sign: (EvpPkey, seq<byte>) -> DigestSignCalls,
                          verify: (EvpPkey, seq<byte>, seq<byte>) -> DigestVerifyCalls)
    requires IsInt32(keySize) && !KeygenSucceeds(calls(keySize))
  {
    var r := new RSABenchmark(keySize);
    assert !r.HasKeys() && r.GetPublicKeySize() == 0;
    r.Cleanup();
    r.Cleanup();
    assert r.pkey == null && r.signCtx == null && r.verifyCtx == null;
    var ok := r.GenerateKeys(calls);
    assert !ok && !r.HasKeys() && r.live == {};
    var signature := r.Sign(message, sign);
    assert signature == [];
    var valid := r.Verify(message, signature, verify);
    assert !valid;
  }
}
