/** `DilithiumWrapper`: the key state around the pq-crystals reference
    implementation of Dilithium3 (ML-DSA-65). The three foreign calls are not
    modelled; what each returns (a status code, the bytes it writes, the
    signature length it reports) is a parameter, and the model is what the
    wrapper does with it. */
module Dilithium {
  import opened Bytes

  /** Sizes of the encoded keys and signature of Dilithium3. */
  const PublicKeyBytes: nat := 1952
  const SecretKeyBytes: nat := 4032
  const SignatureBytes: nat := 3309

  /** The parameters of an ML-DSA parameter set that fix its encoded sizes
      (FIPS 204, section 4, Tables 1 and 2). */
  datatype ParameterSet = ParameterSet(
    k: nat,           // rows of the matrix A
    l: nat,           // columns of the matrix A
    eta: nat,         // bound on the secret coefficients
    gamma1Bits: nat,  // gamma1 == 2^gamma1Bits, bound on the mask coefficients
    omega: nat,       // maximal number of ones in the hint
    lambda: nat)      // collision strength of the commitment hash, in bits

  /** The modulus q and the number d of bits dropped from t. */
  const Q: nat := 8380417
  const D: nat := 13

  const MlDsa65 := ParameterSet(k := 6, l := 5, eta := 4, gamma1Bits := 19, omega := 55, lambda := 192)

  /** 2^n */
  function Pow2(n: nat): nat
  {
    if n == 0 then 1 else 2 * Pow2(n - 1)
  }

  /** Number of bits in the binary representation of `x` (FIPS 204's
      bitlen): the `n` with 2^(n-1) <= x < 2^n, and 0 for 0. */
  function BitLen(x: nat): (n: nat)
    ensures x == 0 <==> n == 0
    ensures x > 0 ==> Pow2(n - 1) <= x < Pow2(n)
  {
    if x == 0 then 0 else 1 + BitLen(x / 2)
  }

  /** pk = rho (32 bytes) followed by t1, k polynomials of 256 coefficients
      of bitlen(q - 1) - d bits each. */
  function EncodedPublicKeyBytes(p: ParameterSet): int
  {
    32 + 32 * p.k * (BitLen(Q - 1) - D)
  }

  /** sk = rho, K, tr (32 + 32 + 64 bytes), then s1 and s2 at bitlen(2 eta)
      bits per coefficient and t0 at d bits per coefficient. */
  function EncodedSecretKeyBytes(p: ParameterSet): nat
  {
    32 + 32 + 64 + 32 * ((p.l + p.k) * BitLen(2 * p.eta) + D * p.k)
  }

  /** sigma = the commitment hash (lambda / 4 bytes), z at 1 + bitlen(gamma1 - 1)
      bits per coefficient, and the hint (omega + k bytes). */
  function EncodedSignatureBytes(p: ParameterSet): nat
  {
    p.lambda / 4 + p.l * 32 * (1 + p.gamma1Bits) + p.omega + p.k
  }

  /** The wrapper's buffer sizes are the ML-DSA-65 encodings. */
  lemma SizesAreMlDsa65()
    ensures PublicKeyBytes == EncodedPublicKeyBytes(MlDsa65)
    ensures SecretKeyBytes == EncodedSecretKeyBytes(MlDsa65)
    ensures SignatureBytes == EncodedSignatureBytes(MlDsa65)
  {
    assert BitLen(1) == 1;
    assert BitLen(3) == 2;
    assert BitLen(7) == 3;
    assert BitLen(15) == 4;
    assert BitLen(31) == 5;
    assert BitLen(63) == 6;
    assert BitLen(127) == 7;
    assert BitLen(255) == 8;
    assert BitLen(511) == 9;
    assert BitLen(1023) == 10;
    assert BitLen(2046) == 11;
    assert BitLen(4092) == 12;
    assert BitLen(8184) == 13;
    assert BitLen(16368) == 14;
    assert BitLen(32736) == 15;
    assert BitLen(65472) == 16;
    assert BitLen(130944) == 17;
    assert BitLen(261888) == 18;
    assert BitLen(523776) == 19;
    assert BitLen(1047552) == 20;
    assert BitLen(2095104) == 21;
    assert BitLen(4190208) == 22;
    assert BitLen(8380416) == 23;
    assert BitLen(8) == 4;
  }

  /** What `pqcrystals_dilithium3_ref_keypair` returns, and the bytes it
      writes into the public and the secret key buffer. */
  datatype KeypairCall = KeypairCall(status: int, publicKey: seq<byte>, secretKey: seq<byte>)

  /** What `pqcrystals_dilithium3_ref_signature` returns, the bytes it writes
      into the signature buffer and the length it reports. */
  datatype SignatureCall = SignatureCall(status: int, written: seq<byte>, signatureLength: nat)

  /** The contents of the `SIGNATURE_BYTES` buffer `sign` hands to the
      signing call, once the call has written into it. */
  function SignatureBuffer(call: SignatureCall): (buffer: seq<byte>)
    ensures |buffer| == SignatureBytes
  {
    Overlay(Zeros(SignatureBytes), call.written)
  }

  class DilithiumWrapper {
    /** `publicKey_` and `secretKey_`: buffers allocated once, at their
        fixed sizes, and overwritten in place afterwards. */
    const publicKey: array<byte>
    const secretKey: array<byte>
    /** `keysGenerated_` */
    var keysGenerated: bool

    /** Both key buffers keep the sizes the constructor gives them. */
    ghost predicate Valid()
      reads this
    {
      publicKey.Length == PublicKeyBytes && secretKey.Length == SecretKeyBytes
    }

    /** `hasKeys()` */
    predicate HasKeys()
      reads this
    {
      keysGenerated
    }

    /** Zero-filled buffers of the Dilithium3 sizes and no keys. */
    constructor ()
      ensures Valid() && fresh(publicKey) && fresh(secretKey)
      ensures publicKey[..] == Zeros(PublicKeyBytes)
      ensures secretKey[..] == Zeros(SecretKeyBytes)
      ensures !HasKeys()
    {
      publicKey := new byte[PublicKeyBytes](_ => 0);
      secretKey := new byte[SecretKeyBytes](_ => 0);
      keysGenerated := false;
    }

    /** `generateKeys`: the keypair call writes both buffers in place;
        a zero status, and only that, reports success and marks the keys
        present. A failed call leaves the flag as it was. */
    method GenerateKeys(call: KeypairCall) returns (ok: bool)
      requires Valid()
      modifies publicKey, secretKey, this`keysGenerated
      ensures Valid()
      ensures ok <==> call.status == 0
      ensures HasKeys() == (ok || old(HasKeys()))
      ensures publicKey[..] == Overlay(old(publicKey[..]), call.publicKey)
      ensures secretKey[..] == Overlay(old(secretKey[..]), call.secretKey)
    {
      WriteInto(publicKey, call.publicKey);
      WriteInto(secretKey, call.secretKey);
      if call.status != 0 {
        return false;
      }
      keysGenerated := true;
      return true;
    }

    /** A foreign call writing `written` from the start of `buffer`. */
    static method WriteInto(buffer: array<byte>, written: seq<byte>)
      modifies buffer
      ensures buffer[..] == Overlay(old(buffer[..]), written)
    {
      forall i | 0 <= i < buffer.Length && i < |written| {
        buffer[i] := written[i];
      }
    }

    /** `sign`: empty without keys and empty when the signing call fails;
        otherwise the signature buffer cut (or zero-extended) to the length
        the call reports. The call receives the message and the secret key. */
    method Sign(message: seq<byte>, signature: (seq<byte>, seq<byte>) -> SignatureCall) returns (sig: seq<byte>)
      requires Valid()
      ensures !HasKeys() ==> sig == []
      ensures HasKeys() && signature(message, secretKey[..]).status != 0 ==> sig == []
      ensures HasKeys() && signature(message, secretKey[..]).status == 0 ==>
        var call := signature(message, secretKey[..]);
        |sig| == call.signatureLength &&
        forall i :: 0 <= i < |sig| ==> sig[i] == if i < SignatureBytes then SignatureBuffer(call)[i] else 0
    {
      if !keysGenerated {
        return [];
      }
      var call := signature(message, secretKey[..]);
      var buffer := SignatureBuffer(call);
      if call.status != 0 {
        return [];
      }
      sig := Resized(buffer, call.signatureLength);
    }

    /** `verify`: false without keys; otherwise true exactly when the
        verification call, given the signature, the message and the public
        key, returns 0. */
    method Verify(message: seq<byte>, sig: seq<byte>, verify: (seq<byte>, seq<byte>, seq<byte>) -> int) returns (ok: bool)
      requires Valid()
      ensures ok <==> HasKeys() && verify(sig, message, publicKey[..]) == 0
    {
      if !keysGenerated {
        return false;
      }
      var result := verify(sig, message, publicKey[..]);
      return result == 0;
    }

    /** `getPublicKey`: a copy of the whole public key buffer. */
    method GetPublicKey() returns (key: seq<byte>)
      requires Valid()
      ensures |key| == PublicKeyBytes && key == publicKey[..]
    {
      key := publicKey[..];
    }

    /** `getSecretKey`: a copy of the whole secret key buffer. */
    method GetSecretKey() returns (key: seq<byte>)
      requires Valid()
      ensures |key| == SecretKeyBytes && key == secretKey[..]
    {
      key := secretKey[..];
    }

    /** `setPublicKey`: accepts exactly the keys of the right length and
        then copies them in; a rejected key changes nothing. The flag is
        never touched. */
    method SetPublicKey(pubkey: seq<byte>) returns (ok: bool)
      requires Valid()
      modifies publicKey
      ensures Valid()
      ensures ok <==> |pubkey| == PublicKeyBytes
      ensures publicKey[..] == if ok then pubkey else old(publicKey[..])
      ensures HasKeys() == old(HasKeys())
    {
      if |pubkey| != PublicKeyBytes {
        return false;
      }
      WriteInto(publicKey, pubkey);
      return true;
    }

    /** `setSecretKey`: accepts exactly the keys of the right length, copies
        them in and marks the keys present; a rejected key changes nothing. */
    method SetSecretKey(seckey: seq<byte>) returns (ok: bool)
      requires Valid()
      modifies secretKey, this`keysGenerated
      ensures Valid()
      ensures ok <==> |seckey| == SecretKeyBytes
      ensures secretKey[..] == if ok then seckey else old(secretKey[..])
      ensures HasKeys() == (ok || old(HasKeys()))
    {
      if |seckey| != SecretKeyBytes {
        return false;
      }
      WriteInto(secretKey, seckey);
      keysGenerated := true;
      return true;
    }

    /** `secureWipe(data, size)`: zeroes the first `size` bytes of `data` and
        nothing else; a null buffer or a size of 0 leaves everything as it
        was. The caller passes a size within the buffer. */
    static method SecureWipe(data: array?<byte>, size: nat)
      requires data != null ==> size <= data.Length
      modifies data
      ensures data != null ==> forall i :: 0 <= i < data.Length ==> data[i] == if i < size then 0 else old(data[i])
    {
      if data != null && size > 0 {
        for i := 0 to size
          invariant forall k :: 0 <= k < data.Length ==> data[k] == if k < i then 0 else old(data[k])
        {
          data[i] := 0;
        }
      }
    }

    /** The destructor: wipes the whole secret key, leaving the public key
        and the flag as they were. */
    method Destroy()
      requires Valid()
      modifies secretKey
      ensures Valid()
      ensures secretKey[..] == Zeros(SecretKeyBytes)
      ensures publicKey[..] == old(publicKey[..]) && HasKeys() == old(HasKeys())
    {
      SecureWipe(secretKey, secretKey.Length);
    }
  }

  /** A wrapper whose key generation failed cannot sign or verify, and
      loading a secret key alone is enough to enable signing. */
  method KeyStateScenario(call: KeypairCall, seckey: seq<byte>, message: seq<byte>,
                          signature: (seq<byte>, seq<byte>) -> SignatureCall,
                          verify: (seq<byte>, seq<byte>, seq<byte>) -> int)
    requires call.status != 0 && |seckey| == SecretKeyBytes
  {
    var w := new DilithiumWrapper();
    var generated := w.GenerateKeys(call);
    assert !generated && !w.HasKeys();
    var sig := w.Sign(message, signature);
    assert sig == [];
    var valid := w.Verify(message, sig, verify);
    assert !valid;
    var loaded := w.SetSecretKey(seckey);
    assert loaded && w.HasKeys() && w.secretKey[..] == seckey;
    w.Destroy();
    assert w.secretKey[..] == Zeros(SecretKeyBytes) && w.HasKeys();
  }
}
