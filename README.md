# Signature benchmark harness: a Dafny model of its bookkeeping

The system times key generation, signing and verification for the
post-quantum scheme Dilithium3 (ML-DSA-65) and for RSA at 2048 and 3072
bits. It then prints a comparison table. The cryptography itself comes from
foreign libraries: the pq-crystals reference code and OpenSSL. This project
models the code around those calls, in four modules:

- `Bytes` (bytes.dfy): `uint8_t`, zero-filled vectors, a foreign call that
  writes into a buffer (`Overlay`), and `std::vector::resize` (`Resized`).
- `Benchmark` (benchmark.dfy): how `Benchmark::run` turns one run's timings
  into mean, minimum, maximum and squared standard deviation. Also
  `calculateStdDev` up to the square root, the length and byte range of
  `generateRandomMessage`, and the line `printSeparator` writes. Durations
  are whole microseconds and are given as a parameter. Milliseconds are exact
  `real`s.
- `Dilithium` (dilithium_wrapper.dfy): the class `DilithiumWrapper`. It has
  two fixed-size key buffers (arrays that are overwritten in place) and the
  `keysGenerated` flag. It covers the length-checked setters, `sign` and
  `verify` gated on the flag, and the zeroing loop `secureWipe` that the
  destructor runs. The three `pqcrystals_dilithium3_ref_*` calls are
  parameters: a status code, the bytes the call writes, and the signature
  length it reports. The buffer sizes are checked against the ML-DSA-65 size
  formulas of FIPS 204 (section 4, Table 2).
- `RsaBenchmark` (rsa_benchmark.dfy): the class `RSABenchmark` and its three
  OpenSSL handles. Each `EVP_*` call is represented by its result, given as a
  parameter. A ghost set `live` records the OpenSSL objects the instance has
  allocated and not yet freed. Each method keeps `live` equal to the set of
  handles the fields hold, so nothing leaks. The size getters use C++
  truncating division and `size_t` wrap-around, written out.

`RSABenchmark.hpp` calls the RSA signature scheme "RSA-PSS". The code passes
no padding context to `EVP_DigestSignInit` (RSABenchmark.cpp:77), so OpenSSL
uses its default for RSA keys. That default is PKCS#1 v1.5 (section 8.2 of
RFC 8017). The model therefore makes no claim about the padding.

The RSA key-size getters `getPublicKeySize` and `getPrivateKeySize` return
formulas in `keySize` that their own comments call approximate; they are not
the sizes of any encoded key. `getSignatureSize` returns `keySize / 8`, the
modulus length, which is the size of an RSA signature. The model states the
three formulas as written.

## Model

| member | source | states |
|---|---|---|
| `Bytes.ToUint8` | Benchmark.cpp:39 | `static_cast<uint8_t>` keeps the value modulo 256; a value in [0, 255] is unchanged |
| `Bytes.Overlay` | Dilithiumwrapper.cpp:62-65 | a foreign call's write into a buffer keeps the buffer's size; byte i is the written byte if there is one, else the old byte |
| `Bytes.Resized` | Dilithiumwrapper.cpp:122 | `resize(n)` gives exactly n bytes: the old bytes where they exist, zeros after them |
| `Benchmark.ToMillis` | Benchmark.cpp:18-19 | a definition: whole microseconds divided by 1000 as an exact real; what a sample is, is stated by `SampleIsWholeMicroseconds` |
| `Benchmark.Sum` | Benchmark.cpp:23 | a definition: the left-to-right accumulation from 0; its bounds are stated by `SumBounds` |
| `Benchmark.Mean` | Benchmark.cpp:23-24 | a definition: the sum divided by the number of samples; its bounds are stated by `MeanBounds` and `MeanBetweenExtrema` |
| `Benchmark.MinOf` | Benchmark.cpp:25 | the minimum is one of the samples and no sample is smaller |
| `Benchmark.MaxOf` | Benchmark.cpp:26 | the maximum is one of the samples and no sample is larger |
| `Benchmark.SumBounds` | Benchmark.cpp:23 | if every sample lies in [lo, hi], the accumulated sum lies in [n*lo, n*hi] |
| `Benchmark.QuotientBounds` | Benchmark.cpp:24 | dividing a total in [n*lo, n*hi] by a positive count n gives a value in [lo, hi] |
| `Benchmark.MeanBounds` | Benchmark.cpp:23-24 | the mean of samples that all lie in [lo, hi] also lies in [lo, hi] |
| `Benchmark.MeanBetweenExtrema` | Benchmark.cpp:23-26 | min <= mean <= max for every non-empty sample set |
| `Benchmark.ProductPositive` | Benchmark.cpp:102 | the product of two non-zero reals of the same sign is positive |
| `Benchmark.SquareSign` | Benchmark.cpp:101-102 | a squared deviation `diff * diff` is never negative, and is positive when diff is not 0 |
| `Benchmark.SumSquaredDiffSign` | Benchmark.cpp:99-103 | the sum of squared deviations is >= 0; it is 0 when every value equals the mean and positive as soon as one value differs |
| `Benchmark.CalculateVariance` | Benchmark.cpp:98-105 | the loop accumulates the sum of squared deviations from the given mean; the result is that sum / n, is >= 0, and is 0 exactly when every value equals the mean |
| `Benchmark.Run` | Benchmark.cpp:9-30 | the loop takes one sample per iteration, sample i being duration i in whole microseconds divided by 1000; the returned iterations equal the requested count, which is the number of samples; the average is their mean; min <= average <= max; min and max are both samples and bound every sample; the variance is the population variance around that average, is >= 0, and is 0 exactly when all samples are equal to it |
| `Benchmark.SampleIsWholeMicroseconds` | Benchmark.cpp:18-19 | a sample from a non-negative duration is non-negative and a whole multiple of 0.001 ms |
| `Benchmark.GenerateRandomMessage` | Benchmark.cpp:32-42 | the message has exactly `size` bytes; byte i is draw i cast to `uint8_t`, so it lies in [0, 255] and equals the draw when the draw is in range |
| `Benchmark.Separator` | Benchmark.cpp:87-96 | the line `printSeparator` writes, as one string; its shape is stated by `SeparatorShape` and its agreement with the table's columns by `SeparatorMatchesColumns` |
| `Benchmark.SeparatorMatchesColumns` | Benchmark.cpp:87-96 | the separator is the table rule for the column widths 15, 12, 12, 12, 12, 12, 12 of the table rows (Benchmark.cpp:56-62), each widened by two padding spaces |
| `Benchmark.SeparatorShape` | Benchmark.cpp:87-96 | the separator has 110 characters: `+` exactly at positions 0, 18, 33, 48, 63, 78, 93 and 108, dashes between them, then a newline |
| `Dilithium.BitLen` | Dilithiumwrapper.hpp:45-47 | FIPS 204's bitlen: for x > 0 the result n is the number with 2^(n-1) <= x < 2^n; it is 0 exactly for 0 (used in the size formulas) |
| `Dilithium.SizesAreMlDsa65` | Dilithiumwrapper.hpp:45-47 | 1952, 4032 and 3309 are the FIPS 204 encoded sizes of pk, sk and the signature for k=6, l=5, eta=4, gamma1=2^19, omega=55, lambda=192 |
| `Dilithium.SignatureBuffer` | Dilithiumwrapper.cpp:102-115 | `sign` gives the signing call a buffer of exactly `SIGNATURE_BYTES` bytes |
| `Dilithium.DilithiumWrapper.HasKeys` | Dilithiumwrapper.hpp:111 | a definition: the `keysGenerated` flag; how each operation moves it is stated in its own row |
| `Dilithium.DilithiumWrapper.constructor` | Dilithiumwrapper.cpp:28-32 | a new wrapper has an all-zero 1952-byte public key, an all-zero 4032-byte secret key, and no keys |
| `Dilithium.DilithiumWrapper.GenerateKeys` | Dilithiumwrapper.cpp:58-76 | returns true exactly when the keypair call returns 0, and only then sets the flag; a failure leaves the flag as it was; both buffers are written in place and keep their sizes |
| `Dilithium.DilithiumWrapper.WriteInto` | Dilithiumwrapper.cpp:62-65 | the keypair call writes its bytes from the start of a buffer without resizing it |
| `Dilithium.DilithiumWrapper.Sign` | Dilithiumwrapper.cpp:96-127 | empty without keys or when the signing call returns non-zero; otherwise exactly the reported length, taken from the `SIGNATURE_BYTES` buffer and zero-extended past it |
| `Dilithium.DilithiumWrapper.Verify` | Dilithiumwrapper.cpp:145-167 | false without keys; otherwise true exactly when the verify call, given the signature, the message and the public key, returns 0 |
| `Dilithium.DilithiumWrapper.GetPublicKey` | Dilithiumwrapper.cpp:169-171 | a copy of the whole 1952-byte public key |
| `Dilithium.DilithiumWrapper.GetSecretKey` | Dilithiumwrapper.cpp:173-175 | a copy of the whole 4032-byte secret key |
| `Dilithium.DilithiumWrapper.SetPublicKey` | Dilithiumwrapper.cpp:177-183 | accepts exactly the inputs of 1952 bytes and then holds them; a rejected input changes nothing; the flag never changes |
| `Dilithium.DilithiumWrapper.SetSecretKey` | Dilithiumwrapper.cpp:185-192 | accepts exactly the inputs of 4032 bytes, then holds them and sets the flag; a rejected input changes nothing |
| `Dilithium.DilithiumWrapper.SecureWipe` | Dilithiumwrapper.cpp:194-200 | bytes [0, size) become 0 and every other byte is unchanged; a null buffer or size 0 changes nothing |
| `Dilithium.DilithiumWrapper.Destroy` | Dilithiumwrapper.cpp:40-43 | the destructor zeroes the whole secret key and nothing else |
| `RsaBenchmark.CDiv` | RSABenchmark.cpp:136 | C++ `/` on a positive divisor truncates toward zero: the remainder a - q*b lies in [0, b) for a >= 0 and in (-b, 0] for a < 0 |
| `RsaBenchmark.ToSizeT` | RSABenchmark.cpp:130-136 | returning an `int` as `size_t` keeps values that fit; the result is below 2^64 and differs from the input by a multiple of 2^64, so negative values wrap around |
| `RsaBenchmark.RSABenchmark.HasKeys` | RSABenchmark.hpp:68 | a definition: a key handle is held; how each operation moves it is stated in its own row |
| `RsaBenchmark.RSABenchmark.constructor` | RSABenchmark.cpp:8-13 | a new instance has a null key and null contexts, so `hasKeys()` is false |
| `RsaBenchmark.RSABenchmark.Cleanup` | RSABenchmark.cpp:19-32 | afterwards all three handles are null and nothing is live; the result does not depend on the state before, so a second call changes nothing |
| `RsaBenchmark.RSABenchmark.GenerateKeys` | RSABenchmark.cpp:34-63 | the old key is always discarded; the result is true exactly when every call succeeds; a key (a new one) is held exactly on success; the generation context is freed on every path |
| `RsaBenchmark.RSABenchmark.Sign` | RSABenchmark.cpp:65-102 | empty without a key or when any call fails; otherwise the buffer sized by the first `EVP_DigestSign` and written by the second, resized to the final length |
| `RsaBenchmark.RSABenchmark.Verify` | RSABenchmark.cpp:104-128 | false without a key or a failed setup; otherwise true exactly when `EVP_DigestVerify` returns 1 |
| `RsaBenchmark.RSABenchmark.GetPublicKeySize` | RSABenchmark.cpp:130-137 | 0 without a key; with a key and a non-negative key size, keySize/8 + 32 bytes |
| `RsaBenchmark.RSABenchmark.GetPrivateKeySize` | RSABenchmark.cpp:139-146 | 0 without a key; with a key and a non-negative key size, 5 * (keySize/8) bytes |
| `RsaBenchmark.RSABenchmark.GetSignatureSize` | RSABenchmark.cpp:148-150 | keySize/8 bytes for a non-negative key size, with or without a key; for a negative one, the truncated quotient wrapped around modulo 2^64 |
| `RsaBenchmark.SizeFigures` | RSABenchmark.cpp:130-150 | for a non-negative key size: the signature size is keySize/8; with a key, the public key size is that plus 32 and the private key size is 5 times it; without a key, both are 0 |
| `RsaBenchmark.StandardModulusFigures` | RSABenchmark.cpp:130-150 | with a key: 2048 bits gives 288 / 1280 / 256 bytes, and 3072 bits gives 416 / 1920 / 384 |
| `RsaBenchmark.NegativeKeySizeWraps` | RSABenchmark.cpp:148-150 | a negative key size is not rejected; -8 gives a signature size of 2^64 - 1 |

## Left out

- Benchmark.Run: returns the variance instead of the standard deviation `sqrt(variance)`, since the model does no floating-point square roots. It also computes with exact reals instead of `double`, so rounding is not modelled, and two of its properties hold for exact reals only: `minTime <= averageTime <= maxTime`, and a variance of 0 exactly when every sample equals the average. In IEEE double arithmetic, three samples of 3 microseconds (0.003 ms each) sum to 0.009000000000000001, whose mean 0.0030000000000000005 exceeds the maximum 0.003, and `calculateStdDev` then gives about 4.3e-19 rather than 0 although all samples are equal.
- Benchmark.CalculateVariance: returns `sumSquaredDiff / n` rather than its square root, for the same reason.
- The clock (`std::chrono::high_resolution_clock`) and the benchmarked function `func`: the per-iteration durations are a parameter. An exception thrown by `func` propagates out of `run` and is not modelled.
- The random source (`std::random_device`, `std::mt19937`, `std::uniform_int_distribution`): its draws are a parameter `draw`. Uniformity is not modelled.
- Console output: `printResult`, `printTableHeader` and `printComparisonRow`. The separator line is modelled as the string it prints.
- main.cpp as a whole: the sequencing of the benchmarks, the demonstration run with its early returns when key generation fails or a signature comes back empty, the tests that pick "slower" or "faster", and the exception handler that turns an error into exit status 1.
- Bytes.Overlay: gives a defined result (the bytes cut off at the buffer's end) to a foreign write longer than the buffer. In C++ such a write overruns the heap buffer and has no defined result; the libraries called never write more than the buffer's size.
- The cryptography: the internals of the pq-crystals keypair, signature and verify functions and of every OpenSSL `EVP_*` call. Each call is represented only by its status, the bytes it writes and the length it reports.
- `try`/`catch (...)` in the Dilithium wrapper: the model raises no exceptions.
- The `volatile` access in `secureWipe`, meant to keep the compiler from removing the wipe, has no counterpart in Dafny. Only the zeroing loop is modelled.
- RsaBenchmark.RSABenchmark.GenerateKeys: the model assumes that a failing `EVP_PKEY_keygen` leaves `pkey_` null. OpenSSL 3 does this when the pointer was null before the call, and `cleanup` has just made it null.
- The `EVP_MD_CTX` that `sign` and `verify` allocate and free locally is not tracked in `live`. Only the handles held in fields are.
- `signCtx_` and `verifyCtx_` are never set to a context anywhere in the code. The model keeps them as fields only so that `cleanup` can be stated.
- The padding scheme RSA signing uses (see above): no property depends on it.
- The RSA destructor just calls `cleanup`, so `Cleanup` models it.
- The actual DER/PEM sizes of RSA keys: the getters' formulas are modelled as written.
