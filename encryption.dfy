/** The tenant-scoped encryption service of src/kp_dagger/core/encryption.py.

    A TenantEncryptionService turns plaintext strings into persisted blobs laid out as
    `salt || nonce || AES-256-GCM output` and back. The key for each blob is derived from the
    tenant's textual UUID, the process-wide runtime key and the blob's own salt.

    The cryptographic libraries, the UTF-8 codec and the entropy source are not part of this
    model: the libraries are the fields of a `Primitives` value, `Sound` lists the facts about
    them the proofs rely on, and salts, nonces and random keys are parameters. */
module Encryption {

  import opened Results

  type Byte = bv8
  type Bytes = seq<Byte>

  const MinRuntimeKeyLength: nat := 32
  const Pbkdf2Iterations: nat := 600000
  const GcmNonceLength: nat := 12
  /** The 128-bit authentication tag AES-GCM appends to its ciphertext (NIST SP 800-38D). */
  const GcmTagLength: nat := 16
  /** The most data `AESGCM.encrypt` accepts, 2^31 - 1 bytes; more raises OverflowError. */
  const GcmMaxDataLength: nat := 0x7FFF_FFFF

  // ---------------------------------------------------------------------------------------
  // Tenant identifiers and their textual form
  // ---------------------------------------------------------------------------------------

  /** A UUID: 128 bits, kept as its 16 bytes in big-endian order. */
  type Uuid = b: Bytes | |b| == 16 witness [0, 0, 0, 0, 0, 0, 0, 0, 0, 0, 0, 0, 0, 0, 0, 0]

  function HexDigit(n: Byte): (c: char)
    requires n < 16
  {
    if n < 10 then ('0' as int + n as int) as char else ('a' as int + n as int - 10) as char
  }

  /** Two lower-case hexadecimal digits, high nibble first. */
  function HexByte(b: Byte): (s: string)
    ensures |s| == 2
  {
    [HexDigit(b >> 4), HexDigit(b & 15)]
  }

  function Hex(bs: Bytes): (s: string)
    ensures |s| == 2 * |bs|
  {
    if bs == [] then [] else HexByte(bs[0]) + Hex(bs[1..])
  }

  /** `str(uuid)`: 32 lower-case hex digits grouped 8-4-4-4-12 by hyphens. */
  function UuidText(u: Uuid): (s: string)
    ensures |s| == 36
  {
    Hex(u[..4]) + "-" + Hex(u[4..6]) + "-" + Hex(u[6..8]) + "-" + Hex(u[8..10]) + "-" + Hex(u[10..])
  }

  lemma HexByteInjective(a: Byte, b: Byte)
    requires HexByte(a) == HexByte(b)
    ensures a == b
  {
    assert HexDigit(a >> 4) == HexDigit(b >> 4) && HexDigit(a & 15) == HexDigit(b & 15);
    assert a >> 4 == b >> 4 && a & 15 == b & 15;
  }

  lemma {:induction false} HexInjective(a: Bytes, b: Bytes)
    requires |a| == |b| && Hex(a) == Hex(b)
    ensures a == b
  {
    if a != [] {
      assert Hex(a)[..2] == HexByte(a[0]) && Hex(b)[..2] == HexByte(b[0]);
      HexByteInjective(a[0], b[0]);
      assert Hex(a)[2..] == Hex(a[1..]) && Hex(b)[2..] == Hex(b[1..]);
      HexInjective(a[1..], b[1..]);
      assert a == [a[0]] + a[1..] && b == [b[0]] + b[1..];
    }
  }

  lemma UuidTextPieces(u: Uuid)
    ensures UuidText(u)[..8] == Hex(u[..4])
    ensures UuidText(u)[9..13] == Hex(u[4..6])
    ensures UuidText(u)[14..18] == Hex(u[6..8])
    ensures UuidText(u)[19..23] == Hex(u[8..10])
    ensures UuidText(u)[24..] == Hex(u[10..])
  {
  }

  /** Distinct tenants have distinct textual identifiers. */
  lemma UuidTextInjective(a: Uuid, b: Uuid)
    requires UuidText(a) == UuidText(b)
    ensures a == b
  {
    UuidTextPieces(a);
    UuidTextPieces(b);
    HexInjective(a[..4], b[..4]);
    HexInjective(a[4..6], b[4..6]);
    HexInjective(a[6..8], b[6..8]);
    HexInjective(a[8..10], b[8..10]);
    HexInjective(a[10..], b[10..]);
    assert a == a[..4] + a[4..6] + a[6..8] + a[8..10] + a[10..];
    assert b == b[..4] + b[4..6] + b[6..8] + b[8..10] + b[10..];
  }

  // ---------------------------------------------------------------------------------------
  // The libraries the service calls
  // ---------------------------------------------------------------------------------------

  /** The library calls of the service. A call that raises is `None`.
      - hasArgon2: whether `argon2` could be imported (HAS_ARGON2)
      - argon2id: `hash_secret_raw(secret, salt, time_cost, memory_cost, parallelism, hash_len, Type.ID)` (RFC 9106)
      - pbkdf2Sha256: `PBKDF2HMAC(SHA256, length, salt, iterations).derive(secret)` (section 5.2 of RFC 8018)
      - gcmSeal, gcmOpen: `AESGCM(key).encrypt(nonce, data, None)` and `.decrypt(...)` (NIST SP 800-38D)
      - utf8Encode, utf8Decode: `str.encode("utf-8")` and `bytes.decode("utf-8")` */
  datatype Primitives = Primitives(
    hasArgon2: bool,
    argon2id: (Bytes, Bytes, int, int, int, int) -> Option<Bytes>,
    pbkdf2Sha256: (Bytes, Bytes, nat, int) -> Option<Bytes>,
    gcmSeal: (Bytes, Bytes, Bytes) -> Option<Bytes>,
    gcmOpen: (Bytes, Bytes, Bytes) -> Option<Bytes>,
    utf8Encode: string -> Bytes,
    utf8Decode: Bytes -> Option<string>)

  /** The key sizes AESGCM accepts: AES-128, AES-192 and AES-256. */
  predicate AesKeyLength(n: int)
  {
    n == 16 || n == 24 || n == 32
  }

  /** What the proofs assume of the libraries; each clause holds of the real ones. */
  ghost predicate Sound(p: Primitives)
  {
    // both KDFs return a key of the requested length
    && (forall secret, salt, t, m, par, len ::
          p.argon2id(secret, salt, t, m, par, len).Some? ==> |p.argon2id(secret, salt, t, m, par, len).value| == len)
    && (forall secret, salt, iterations, len ::
          p.pbkdf2Sha256(secret, salt, iterations, len).Some? ==> |p.pbkdf2Sha256(secret, salt, iterations, len).value| == len)
    // AESGCM refuses a key of any other size, and data beyond its size limit
    && (forall k, n, m :: p.gcmSeal(k, n, m).Some? ==> AesKeyLength(|k|) && |m| <= GcmMaxDataLength)
    // sealing data within the limit with a good key and a 12-byte nonce appends a 16-byte tag
    // and opens again
    && (forall k, n, m :: AesKeyLength(|k|) && |n| == GcmNonceLength && |m| <= GcmMaxDataLength ==>
          && p.gcmSeal(k, n, m).Some?
          && |p.gcmSeal(k, n, m).value| == |m| + GcmTagLength
          && p.gcmOpen(k, n, p.gcmSeal(k, n, m).value) == Some(m))
    // opening succeeds only on a tagged ciphertext and returns the bytes before the tag's
    // length; `decrypt` has no size limit, so only data within the limit seals back to it
    && (forall k, n, c :: p.gcmOpen(k, n, c).Some? ==>
          && |c| >= GcmTagLength
          && |p.gcmOpen(k, n, c).value| == |c| - GcmTagLength
          && (|p.gcmOpen(k, n, c).value| <= GcmMaxDataLength ==> p.gcmSeal(k, n, p.gcmOpen(k, n, c).value) == Some(c)))
    // UTF-8 decodes what it encodes, uses at least a byte per character, and is canonical
    && (forall s :: p.utf8Decode(p.utf8Encode(s)) == Some(s) && |p.utf8Encode(s)| >= |s|)
    && (forall b :: p.utf8Decode(b).Some? ==> p.utf8Encode(p.utf8Decode(b).value) == b)
  }

  lemma Utf8Injective(p: Primitives, s: string, t: string)
    requires Sound(p) && p.utf8Encode(s) == p.utf8Encode(t)
    ensures s == t
  {
    assert p.utf8Decode(p.utf8Encode(s)) == Some(s);
    assert p.utf8Decode(p.utf8Encode(t)) == Some(t);
  }

  // ---------------------------------------------------------------------------------------
  // KDFConfig
  // ---------------------------------------------------------------------------------------

  datatype KdfConfig = KdfConfig(
    algorithm: string,
    timeCost: int,
    memoryCost: int,   // KiB
    parallelism: int,
    saltLength: nat,   // bytes
    keyLength: int)    // bytes

  /** `KDFConfig(...)`: stores its arguments; refuses only Argon2id when it cannot be imported.
      Algorithm names other than "argon2id" and "pbkdf2" are accepted here. */
  function NewKdfConfig(
    hasArgon2: bool,
    algorithm: string := "argon2id",
    timeCost: int := 3,
    memoryCost: int := 65536,
    parallelism: int := 1,
    saltLength: nat := 32,
    keyLength: int := 32): (r: Result<KdfConfig>)
    ensures r.Failure? <==> algorithm == "argon2id" && !hasArgon2
    ensures r.Failure? ==> r.error == EncryptionConfigError
    ensures r.Success? ==>
      r.value == KdfConfig(algorithm, timeCost, memoryCost, parallelism, saltLength, keyLength)
  {
    if algorithm == "argon2id" && !hasArgon2 then Failure(EncryptionConfigError)
    else Success(KdfConfig(algorithm, timeCost, memoryCost, parallelism, saltLength, keyLength))
  }

  /** `KDFConfig()` with every parameter defaulted. */
  lemma DefaultKdfConfig(hasArgon2: bool)
    ensures hasArgon2 ==> NewKdfConfig(hasArgon2) == Success(KdfConfig("argon2id", 3, 65536, 1, 32, 32))
    ensures !hasArgon2 ==> NewKdfConfig(hasArgon2) == Failure(EncryptionConfigError)
  {
  }

  /** `kdf_config or KDFConfig()`. */
  function ResolveKdfConfig(hasArgon2: bool, kdfConfig: Option<KdfConfig>): (r: Result<KdfConfig>)
    ensures kdfConfig.Some? ==> r == Success(kdfConfig.value)
    ensures kdfConfig.None? ==> r == NewKdfConfig(hasArgon2)
  {
    match kdfConfig
    case Some(c) => Success(c)
    case None => NewKdfConfig(hasArgon2)
  }

  predicate IsSupportedKdf(algorithm: string)
  {
    algorithm == "argon2id" || algorithm == "pbkdf2"
  }

  // ---------------------------------------------------------------------------------------
  // TenantEncryptionService
  // ---------------------------------------------------------------------------------------

  /** A service is immutable once constructed: its three constructor arguments. */
  datatype TenantEncryptionService = TenantEncryptionService(
    tenantId: Uuid,
    runtimeKey: Bytes,
    kdfConfig: KdfConfig)

  /** `TenantEncryptionService(tenant_id, runtime_key, kdf_config)`. The default configuration is
      built before the key length is checked, so both can raise EncryptionConfigError. */
  function NewService(
    hasArgon2: bool,
    tenantId: Uuid,
    runtimeKey: Bytes,
    kdfConfig: Option<KdfConfig> := None): (r: Result<TenantEncryptionService>)
    ensures r.Success? <==> |runtimeKey| >= MinRuntimeKeyLength && (kdfConfig.Some? || hasArgon2)
    ensures r.Failure? ==> r.error == EncryptionConfigError
    ensures r.Success? ==> && r.value.tenantId == tenantId
                           && r.value.runtimeKey == runtimeKey
                           && Success(r.value.kdfConfig) == ResolveKdfConfig(hasArgon2, kdfConfig)
  {
    match ResolveKdfConfig(hasArgon2, kdfConfig)
    case Failure(e) => Failure(e)
    case Success(config) =>
      if |runtimeKey| < MinRuntimeKeyLength then Failure(EncryptionConfigError)
      else Success(TenantEncryptionService(tenantId, runtimeKey, config))
  }

  /** The KDF secret: the UTF-8 bytes of `str(tenant_id)` followed by the runtime key. */
  function KeyMaterial(p: Primitives, svc: TenantEncryptionService): Bytes
  {
    p.utf8Encode(UuidText(svc.tenantId)) + svc.runtimeKey
  }

  /** Two tenants sharing a runtime key never share key material. */
  lemma KeyMaterialSeparatesTenants(p: Primitives, a: TenantEncryptionService, b: TenantEncryptionService)
    requires Sound(p)
    requires a.runtimeKey == b.runtimeKey && a.tenantId != b.tenantId
    ensures KeyMaterial(p, a) != KeyMaterial(p, b)
  {
    var ea, eb := p.utf8Encode(UuidText(a.tenantId)), p.utf8Encode(UuidText(b.tenantId));
    if KeyMaterial(p, a) == KeyMaterial(p, b) {
      assert |ea| == |eb|;
      assert ea == KeyMaterial(p, a)[..|ea|] && eb == KeyMaterial(p, b)[..|eb|];
      Utf8Injective(p, UuidText(a.tenantId), UuidText(b.tenantId));
      UuidTextInjective(a.tenantId, b.tenantId);
    }
  }

  function FromLibrary(r: Option<Bytes>): (x: Result<Bytes>)
  {
    match r
    case Some(v) => Success(v)
    case None => Failure(LibraryError)
  }

  /** `_derive_key(salt)`: runs the configured KDF over the key material and the salt. */
  function DeriveKey(p: Primitives, svc: TenantEncryptionService, salt: Bytes): (r: Result<Bytes>)
    ensures (r == Failure(EncryptionConfigError)) <==> !IsSupportedKdf(svc.kdfConfig.algorithm)
    ensures r.Failure? ==> r.error == EncryptionConfigError || r.error == LibraryError
    ensures Sound(p) && r.Success? ==> |r.value| == svc.kdfConfig.keyLength
  {
    var material := KeyMaterial(p, svc);
    var config := svc.kdfConfig;
    if config.algorithm == "argon2id" then
      // without the argon2 package, hash_secret_raw is an unbound name
      if !p.hasArgon2 then Failure(LibraryError)
      else FromLibrary(p.argon2id(material, salt, config.timeCost, config.memoryCost,
                                  config.parallelism, config.keyLength))
    else if config.algorithm == "pbkdf2" then
      FromLibrary(p.pbkdf2Sha256(material, salt, Pbkdf2Iterations, config.keyLength))
    else
      Failure(EncryptionConfigError)
  }

  /** Python's `s[i:j]` for non-negative bounds: out-of-range bounds are clamped. */
  function PySlice(s: Bytes, i: nat, j: nat): (r: Bytes)
    ensures i <= j <= |s| ==> r == s[i..j]
    ensures i <= |s| <= j ==> r == s[i..]
    ensures |s| <= i ==> r == []
  {
    var hi := if j < |s| then j else |s|;
    var lo := if i < hi then i else hi;
    s[lo..hi]
  }

  /** `encrypt(plaintext)` with the salt and nonce `os.urandom` would supply. */
  function Encrypt(p: Primitives, svc: TenantEncryptionService, plaintext: string,
                   salt: Bytes, nonce: Bytes): (r: Result<Bytes>)
    requires |salt| == svc.kdfConfig.saltLength && |nonce| == GcmNonceLength
    ensures plaintext == [] ==> r == Success([])
    ensures (r == Failure(EncryptionConfigError)) <==>
            plaintext != [] && !IsSupportedKdf(svc.kdfConfig.algorithm)
    ensures r.Failure? ==> r.error == EncryptionConfigError || r.error == LibraryError
    ensures r.Success? && plaintext != [] ==>
      var n := svc.kdfConfig.saltLength;
      |r.value| >= n + GcmNonceLength && r.value[..n] == salt && r.value[n..n + GcmNonceLength] == nonce
  {
    if plaintext == [] then Success([])
    else
      match DeriveKey(p, svc, salt)
      case Failure(e) => Failure(e)
      case Success(key) =>
        match p.gcmSeal(key, nonce, p.utf8Encode(plaintext))
        case None => Failure(LibraryError)
        case Some(sealed) =>
          assert (salt + nonce + sealed)[..|salt|] == salt;
          assert (salt + nonce + sealed)[|salt|..|salt| + |nonce|] == nonce;
          Success(salt + nonce + sealed)
  }

  /** `decrypt(encrypted_data)`: slices the blob at fixed offsets; every failure on the way,
      including an unsupported KDF, ends as DecryptionError. */
  function Decrypt(p: Primitives, svc: TenantEncryptionService, blob: Bytes): (r: Result<string>)
    ensures blob == [] ==> r == Success("")
    ensures r.Failure? ==> r.error == DecryptionError
  {
    if blob == [] then Success("")
    else
      var n := svc.kdfConfig.saltLength;
      var salt := PySlice(blob, 0, n);
      var nonce := PySlice(blob, n, n + GcmNonceLength);
      var sealed := PySlice(blob, n + GcmNonceLength, |blob|);
      match DeriveKey(p, svc, salt)
      case Failure(_) => Failure(DecryptionError)
      case Success(key) =>
        match p.gcmOpen(key, nonce, sealed)
        case None => Failure(DecryptionError)
        case Some(data) =>
          match p.utf8Decode(data)
          case None => Failure(DecryptionError)
          case Some(text) => Success(text)
  }

  // ---------------------------------------------------------------------------------------
  // Properties of the service
  // ---------------------------------------------------------------------------------------

  /** A non-empty plaintext becomes exactly salt, nonce and the GCM output of its UTF-8 bytes
      under the key derived from that salt, `salt_length + 12 + |utf8| + 16` bytes long. */
  lemma EncryptedLayout(p: Primitives, svc: TenantEncryptionService, plaintext: string,
                        salt: Bytes, nonce: Bytes, blob: Bytes)
    requires Sound(p)
    requires |salt| == svc.kdfConfig.saltLength && |nonce| == GcmNonceLength
    requires plaintext != [] && Encrypt(p, svc, plaintext, salt, nonce) == Success(blob)
    ensures DeriveKey(p, svc, salt).Success?
    ensures var key := DeriveKey(p, svc, salt).value;
            p.gcmSeal(key, nonce, p.utf8Encode(plaintext)) == Some(blob[|salt| + GcmNonceLength..])
    ensures |blob| == svc.kdfConfig.saltLength + GcmNonceLength + |p.utf8Encode(plaintext)| + GcmTagLength
  {
    var key := DeriveKey(p, svc, salt).value;
    var sealed := p.gcmSeal(key, nonce, p.utf8Encode(plaintext)).value;
    assert blob == salt + nonce + sealed;
    assert blob[|salt| + GcmNonceLength..] == sealed;
  }

  /** A non-empty plaintext encrypts exactly when the KDF runs, yields a key size AESGCM
      accepts, and the UTF-8 bytes are within AESGCM's size limit; a configured key_length
      other than 16, 24 or 32 makes every such call fail. */
  lemma EncryptSucceedsIff(p: Primitives, svc: TenantEncryptionService, plaintext: string,
                           salt: Bytes, nonce: Bytes)
    requires Sound(p)
    requires |salt| == svc.kdfConfig.saltLength && |nonce| == GcmNonceLength
    requires plaintext != []
    ensures Encrypt(p, svc, plaintext, salt, nonce).Success? <==>
            DeriveKey(p, svc, salt).Success? && AesKeyLength(svc.kdfConfig.keyLength)
            && |p.utf8Encode(plaintext)| <= GcmMaxDataLength
  {
    if DeriveKey(p, svc, salt).Success? {
      var key := DeriveKey(p, svc, salt).value;
      assert |key| == svc.kdfConfig.keyLength;
      if AesKeyLength(|key|) && |p.utf8Encode(plaintext)| <= GcmMaxDataLength {
        assert p.gcmSeal(key, nonce, p.utf8Encode(plaintext)).Some?;
      }
    }
  }

  /** `decrypt(encrypt(s)) == s` for every string, the empty one included. */
  lemma RoundTrip(p: Primitives, svc: TenantEncryptionService, plaintext: string,
                  salt: Bytes, nonce: Bytes, blob: Bytes)
    requires Sound(p)
    requires |salt| == svc.kdfConfig.saltLength && |nonce| == GcmNonceLength
    requires Encrypt(p, svc, plaintext, salt, nonce) == Success(blob)
    ensures Decrypt(p, svc, blob) == Success(plaintext)
  {
    if plaintext != [] {
      EncryptedLayout(p, svc, plaintext, salt, nonce, blob);
      var n := |salt|;
      var key := DeriveKey(p, svc, salt).value;
      var data := p.utf8Encode(plaintext);
      var sealed := blob[n + GcmNonceLength..];
      assert PySlice(blob, 0, n) == salt;
      assert PySlice(blob, n, n + GcmNonceLength) == nonce;
      assert PySlice(blob, n + GcmNonceLength, |blob|) == sealed;
      assert p.gcmOpen(key, nonce, sealed) == Some(data);
      assert p.utf8Decode(data) == Some(plaintext);
    }
  }

  /** Different salts or nonces give different blobs for the same plaintext, and each still
      decrypts to it. */
  lemma FreshRandomnessGivesDistinctBlobs(p: Primitives, svc: TenantEncryptionService, plaintext: string,
                                          salt1: Bytes, nonce1: Bytes, salt2: Bytes, nonce2: Bytes,
                                          blob1: Bytes, blob2: Bytes)
    requires Sound(p)
    requires |salt1| == |salt2| == svc.kdfConfig.saltLength
    requires |nonce1| == |nonce2| == GcmNonceLength
    requires plaintext != [] && (salt1 != salt2 || nonce1 != nonce2)
    requires Encrypt(p, svc, plaintext, salt1, nonce1) == Success(blob1)
    requires Encrypt(p, svc, plaintext, salt2, nonce2) == Success(blob2)
    ensures blob1 != blob2
    ensures Decrypt(p, svc, blob1) == Success(plaintext) == Decrypt(p, svc, blob2)
  {
    RoundTrip(p, svc, plaintext, salt1, nonce1, blob1);
    RoundTrip(p, svc, plaintext, salt2, nonce2, blob2);
  }

  /** A non-empty blob too short to hold salt, nonce and a tag never decrypts. */
  lemma TruncatedBlobFails(p: Primitives, svc: TenantEncryptionService, blob: Bytes)
    requires Sound(p)
    requires 0 < |blob| < svc.kdfConfig.saltLength + GcmNonceLength + GcmTagLength
    ensures Decrypt(p, svc, blob) == Failure(DecryptionError)
  {
    var n := svc.kdfConfig.saltLength;
    var sealed := PySlice(blob, n + GcmNonceLength, |blob|);
    assert |sealed| < GcmTagLength;
    match DeriveKey(p, svc, PySlice(blob, 0, n))
    case Failure(_) =>
    case Success(key) =>
      var nonce := PySlice(blob, n, n + GcmNonceLength);
      assert p.gcmOpen(key, nonce, sealed).None?;
  }

  /** With an algorithm name other than "argon2id" or "pbkdf2", non-empty encryption raises
      EncryptionConfigError while non-empty decryption raises DecryptionError. */
  lemma UnsupportedKdfErrors(p: Primitives, svc: TenantEncryptionService, plaintext: string,
                             salt: Bytes, nonce: Bytes, blob: Bytes)
    requires !IsSupportedKdf(svc.kdfConfig.algorithm)
    requires |salt| == svc.kdfConfig.saltLength && |nonce| == GcmNonceLength
    requires plaintext != [] && blob != []
    ensures Encrypt(p, svc, plaintext, salt, nonce) == Failure(EncryptionConfigError)
    ensures Decrypt(p, svc, blob) == Failure(DecryptionError)
  {
  }

  /** Tenant isolation. If tenant B's service decrypts a blob tenant A's service produced (same
      runtime key and configuration), then two different key materials, derived with the same
      salt, sealed under the same nonce to the same GCM output: a collision of the KDF and the
      cipher that their security rules out. */
  lemma CrossTenantDecryptionNeedsCollision(
    p: Primitives, a: TenantEncryptionService, b: TenantEncryptionService,
    plaintext: string, salt: Bytes, nonce: Bytes, blob: Bytes, text: string)
    requires Sound(p)
    requires a.runtimeKey == b.runtimeKey && a.kdfConfig == b.kdfConfig && a.tenantId != b.tenantId
    requires |salt| == a.kdfConfig.saltLength && |nonce| == GcmNonceLength
    requires plaintext != [] && Encrypt(p, a, plaintext, salt, nonce) == Success(blob)
    requires Decrypt(p, b, blob) == Success(text)
    ensures KeyMaterial(p, a) != KeyMaterial(p, b)
    ensures DeriveKey(p, a, salt).Success? && DeriveKey(p, b, salt).Success?
    ensures p.gcmSeal(DeriveKey(p, b, salt).value, nonce, p.utf8Encode(text))
         == p.gcmSeal(DeriveKey(p, a, salt).value, nonce, p.utf8Encode(plaintext))
  {
    KeyMaterialSeparatesTenants(p, a, b);
    EncryptedLayout(p, a, plaintext, salt, nonce, blob);
    var n := |salt|;
    var sealed := blob[n + GcmNonceLength..];
    assert PySlice(blob, 0, n) == salt;
    assert PySlice(blob, n, n + GcmNonceLength) == nonce;
    assert PySlice(blob, n + GcmNonceLength, |blob|) == sealed;
    var keyB := DeriveKey(p, b, salt).value;
    var data := p.gcmOpen(keyB, nonce, sealed).value;
    assert p.utf8Decode(data) == Some(text);
    assert p.utf8Encode(text) == data;
  }

  /** Tenant isolation for one blob. AES-GCM does not commit to its key, so no hypothesis about
      the two keys alone can rule out a blob that opens under both; the hypothesis is about the
      blob at hand: B's key, where its KDF yields one, does not open the GCM output A stored.
      Then B's service rejects the blob with DecryptionError, and never returns a plaintext. */
  lemma TenantIsolation(p: Primitives, a: TenantEncryptionService, b: TenantEncryptionService,
                        plaintext: string, salt: Bytes, nonce: Bytes, blob: Bytes)
    requires Sound(p)
    requires a.runtimeKey == b.runtimeKey && a.kdfConfig == b.kdfConfig && a.tenantId != b.tenantId
    requires |salt| == a.kdfConfig.saltLength && |nonce| == GcmNonceLength
    requires plaintext != [] && Encrypt(p, a, plaintext, salt, nonce) == Success(blob)
    requires DeriveKey(p, b, salt).Success? ==>
               p.gcmOpen(DeriveKey(p, b, salt).value, nonce, blob[|salt| + GcmNonceLength..]).None?
    ensures Decrypt(p, b, blob) == Failure(DecryptionError)
  {
    var n := |salt|;
    assert PySlice(blob, 0, n) == salt;
    assert PySlice(blob, n, n + GcmNonceLength) == nonce;
    assert PySlice(blob, n + GcmNonceLength, |blob|) == blob[n + GcmNonceLength..];
  }

  // ---------------------------------------------------------------------------------------
  // EncryptionServiceManager
  // ---------------------------------------------------------------------------------------

  /** `generate_runtime_key()`: the first 32 bytes of the entropy source; always long enough
      for any tenant's service. */
  function GenerateRuntimeKey(entropy: Bytes): (key: Bytes)
    requires |entropy| >= MinRuntimeKeyLength
    ensures |key| == MinRuntimeKeyLength
    ensures forall hasArgon2, t, c :: NewService(hasArgon2, t, key, Some(c)).Success?
  {
    entropy[..MinRuntimeKeyLength]
  }

  /** The per-process registry of tenant services. `services` only grows, and each entry is the
      service the constructor builds for that tenant from the manager's key and configuration. */
  class EncryptionServiceManager {
    const runtimeKey: Bytes
    const kdfConfig: KdfConfig
    var services: map<Uuid, TenantEncryptionService>

    ghost predicate Valid()
      reads this
    {
      forall t :: t in services ==> NewService(false, t, runtimeKey, Some(kdfConfig)) == Success(services[t])
    }

    /** The manager for a runtime key and an already resolved configuration. */
    constructor (runtimeKey: Bytes, kdfConfig: KdfConfig)
      ensures Valid()
      ensures this.runtimeKey == runtimeKey && this.kdfConfig == kdfConfig && services == map[]
    {
      this.runtimeKey := runtimeKey;
      this.kdfConfig := kdfConfig;
      services := map[];
    }

    /** `EncryptionServiceManager(runtime_key, kdf_config)`: building the default configuration
        can raise; the runtime key is not checked until a service is built. */
    static method Create(hasArgon2: bool, runtimeKey: Bytes, kdfConfig: Option<KdfConfig>)
      returns (r: Result<EncryptionServiceManager>)
      ensures r.Failure? <==> ResolveKdfConfig(hasArgon2, kdfConfig).Failure?
      ensures r.Failure? ==> r.error == EncryptionConfigError
      ensures r.Success? ==> && fresh(r.value) && r.value.Valid() && r.value.services == map[]
                             && r.value.runtimeKey == runtimeKey
                             && Success(r.value.kdfConfig) == ResolveKdfConfig(hasArgon2, kdfConfig)
    {
      match ResolveKdfConfig(hasArgon2, kdfConfig)
      case Failure(e) =>
        r := Failure(e);
      case Success(config) =>
        var m := new EncryptionServiceManager(runtimeKey, config);
        r := Success(m);
    }

    /** `get_service(tenant_id)`: the stored service if there is one; otherwise builds one,
        stores it and returns it. A constructor that raises leaves the registry unchanged. */
    method GetService(tenantId: Uuid) returns (r: Result<TenantEncryptionService>)
      requires Valid()
      modifies this`services
      ensures Valid()
      ensures tenantId in old(services) ==> r == Success(old(services)[tenantId]) && services == old(services)
      ensures tenantId !in old(services) && |runtimeKey| < MinRuntimeKeyLength ==>
                r == Failure(EncryptionConfigError) && services == old(services)
      ensures tenantId !in old(services) && |runtimeKey| >= MinRuntimeKeyLength ==>
                && r == Success(TenantEncryptionService(tenantId, runtimeKey, kdfConfig))
                && services == old(services)[tenantId := r.value]
      ensures r.Success? ==> tenantId in services && services[tenantId] == r.value
                             && r.value.tenantId == tenantId
    {
      if tenantId !in services {
        var created := NewService(false, tenantId, runtimeKey, Some(kdfConfig));
        if created.Failure? {
          return created;
        }
        services := services[tenantId := created.value];
      }
      r := Success(services[tenantId]);
    }
  }

  /** Two requests for one tenant give the same service, and a second request adds nothing. */
  method GetServiceTwice(m: EncryptionServiceManager, tenantId: Uuid)
    returns (first: Result<TenantEncryptionService>, second: Result<TenantEncryptionService>)
    requires m.Valid()
    modifies m
    ensures m.Valid()
    ensures first == second
    ensures first.Success? ==> m.services == old(m.services)[tenantId := first.value]
    ensures first.Failure? ==> m.services == old(m.services)
  {
    first := m.GetService(tenantId);
    second := m.GetService(tenantId);
  }
}
