/** The IPAddress model of src/kp_dagger/models/normalized/ip_address.py: two hand-written
    encrypted properties, `original_address` and `normalized_address`, each over its own
    storage attribute and cache attribute, sharing the instance's encryption service. */
module NormalizedIpAddress {

  import opened Results
  import opened Encryption
  import opened EncryptedFields

  const MaxPrefixLength: int := 128

  /** The declared bound of `prefix_length` (ge=0, le=128), which pydantic checks when the
      instance is validated as a whole and on each assignment. */
  predicate PrefixLengthInRange(v: Option<int>)
  {
    v.None? || 0 <= v.value <= MaxPrefixLength
  }

  class IpAddress {
    var originalAddressEncrypted: Option<Bytes>
    var normalizedAddressEncrypted: Option<Bytes>
    var originalAddressCache: Cache     // `_original_address_cached`
    var normalizedAddressCache: Cache   // `_normalized_address_cached`
    var prefixLength: Option<int>
    var service: Option<TenantEncryptionService>

    /** The declared bound holds. Validation establishes it; direct construction of a table
        model does not, so no other operation depends on it. */
    ghost predicate Valid()
      reads this
    {
      PrefixLengthInRange(prefixLength)
    }

    /** Direct construction `IPAddress(...)`: a table model runs no field validation, so any
        prefix length is stored as given. */
    constructor (prefixLength: Option<int>, service: Option<TenantEncryptionService>)
      ensures this.prefixLength == prefixLength && this.service == service
      ensures originalAddressEncrypted == None && normalizedAddressEncrypted == None
      ensures originalAddressCache == Uncached && normalizedAddressCache == Uncached
    {
      this.prefixLength := prefixLength;
      this.service := service;
      originalAddressEncrypted, normalizedAddressEncrypted := None, None;
      originalAddressCache, normalizedAddressCache := Uncached, Uncached;
    }

    /** `IPAddress.model_validate(...)`: whole-model validation, where a prefix length outside
        0..128 raises ValueError. */
    static method Create(prefixLength: Option<int>, service: Option<TenantEncryptionService>)
      returns (r: Result<IpAddress>)
      ensures r.Success? <==> PrefixLengthInRange(prefixLength)
      ensures r.Failure? ==> r.error == ValueError
      ensures r.Success? ==> fresh(r.value) && r.value.Valid() && r.value.prefixLength == prefixLength
                             && r.value.originalAddressCache == Uncached
                             && r.value.normalizedAddressCache == Uncached
    {
      if !PrefixLengthInRange(prefixLength) {
        return Failure(ValueError);
      }
      var a := new IpAddress(prefixLength, service);
      r := Success(a);
    }

    /** `ip.prefix_length = value` under validate_assignment: a value outside 0..128 raises
        ValueError and leaves the field as it was; any other value is stored. */
    method SetPrefixLength(value: Option<int>) returns (r: Result<()>)
      modifies this`prefixLength
      ensures r.Success? <==> PrefixLengthInRange(value)
      ensures r.Success? ==> prefixLength == value && Valid()
      ensures r.Failure? ==> r.error == ValueError && prefixLength == old(prefixLength)
    {
      if !PrefixLengthInRange(value) {
        return Failure(ValueError);
      }
      prefixLength := value;
      r := Success(());
    }

    /** The `original_address` getter: the cached value whenever the cache attribute exists,
        even None; None for an empty storage attribute; RuntimeError with no service; else the
        decryption, cached, or None (uncached) when decryption raises anything. */
    method GetOriginalAddress(p: Primitives) returns (r: Result<Option<string>>)
      modifies this`originalAddressCache
      ensures old(originalAddressCache).Cached? ==>
                r == Success(old(originalAddressCache).value) && originalAddressCache == old(originalAddressCache)
      ensures old(originalAddressCache) == Uncached && originalAddressEncrypted == None ==>
                r == Success(None) && originalAddressCache == Uncached
      ensures old(originalAddressCache) == Uncached && originalAddressEncrypted.Some? && service == None ==>
                r == Failure(RuntimeError) && originalAddressCache == Uncached
      ensures old(originalAddressCache) == Uncached && originalAddressEncrypted.Some? && service.Some? ==>
                var d := Decrypt(p, service.value, originalAddressEncrypted.value);
                && (d.Success? ==> r == Success(Some(d.value)) && originalAddressCache == Cached(Some(d.value)))
                && (d.Failure? ==> r == Success(None) && originalAddressCache == Uncached)
    {
      if originalAddressCache.Uncached? {
        if originalAddressEncrypted.None? {
          return Success(None);
        }
        if service.None? {
          return Failure(RuntimeError);
        }
        var d := Decrypt(p, service.value, originalAddressEncrypted.value);
        if d.Failure? {
          return Success(None);
        }
        originalAddressCache := Cached(Some(d.value));
      }
      r := Success(originalAddressCache.value);
    }

    /** The `original_address` setter: None clears storage and caches None, with no service and
        no nullability check; a value needs a service (else RuntimeError), is encrypted into
        storage and cached. An exception from encryption changes nothing. */
    method SetOriginalAddress(p: Primitives, value: Option<string>, salt: Bytes, nonce: Bytes)
      returns (r: Result<()>)
      requires service.Some? ==> |salt| == service.value.kdfConfig.saltLength && |nonce| == GcmNonceLength
      modifies this`originalAddressEncrypted, this`originalAddressCache
      ensures value.None? ==>
                r == Success(()) && originalAddressEncrypted == None && originalAddressCache == Cached(None)
      ensures value.Some? && service.None? ==>
                r == Failure(RuntimeError) && originalAddressEncrypted == old(originalAddressEncrypted)
                && originalAddressCache == old(originalAddressCache)
      ensures value.Some? && service.Some? ==>
                var e := Encrypt(p, service.value, value.value, salt, nonce);
                && (e.Success? ==> r == Success(()) && originalAddressEncrypted == Some(e.value)
                                   && originalAddressCache == Cached(value))
                && (e.Failure? ==> r == Failure(e.error) && originalAddressEncrypted == old(originalAddressEncrypted)
                                   && originalAddressCache == old(originalAddressCache))
    {
      if value.None? {
        originalAddressEncrypted := None;
        originalAddressCache := Cached(None);
        return Success(());
      }
      if service.None? {
        return Failure(RuntimeError);
      }
      var e := Encrypt(p, service.value, value.value, salt, nonce);
      if e.Failure? {
        return Failure(e.error);
      }
      originalAddressEncrypted := Some(e.value);
      originalAddressCache := Cached(value);
      r := Success(());
    }

    /** The `normalized_address` getter: the rules of GetOriginalAddress on its own pair. */
    method GetNormalizedAddress(p: Primitives) returns (r: Result<Option<string>>)
      modifies this`normalizedAddressCache
      ensures old(normalizedAddressCache).Cached? ==>
                r == Success(old(normalizedAddressCache).value) && normalizedAddressCache == old(normalizedAddressCache)
      ensures old(normalizedAddressCache) == Uncached && normalizedAddressEncrypted == None ==>
                r == Success(None) && normalizedAddressCache == Uncached
      ensures old(normalizedAddressCache) == Uncached && normalizedAddressEncrypted.Some? && service == None ==>
                r == Failure(RuntimeError) && normalizedAddressCache == Uncached
      ensures old(normalizedAddressCache) == Uncached && normalizedAddressEncrypted.Some? && service.Some? ==>
                var d := Decrypt(p, service.value, normalizedAddressEncrypted.value);
                && (d.Success? ==> r == Success(Some(d.value)) && normalizedAddressCache == Cached(Some(d.value)))
                && (d.Failure? ==> r == Success(None) && normalizedAddressCache == Uncached)
    {
      if normalizedAddressCache.Uncached? {
        if normalizedAddressEncrypted.None? {
          return Success(None);
        }
        if service.None? {
          return Failure(RuntimeError);
        }
        var d := Decrypt(p, service.value, normalizedAddressEncrypted.value);
        if d.Failure? {
          return Success(None);
        }
        normalizedAddressCache := Cached(Some(d.value));
      }
      r := Success(normalizedAddressCache.value);
    }

    /** The `normalized_address` setter: the rules of SetOriginalAddress on its own pair. */
    method SetNormalizedAddress(p: Primitives, value: Option<string>, salt: Bytes, nonce: Bytes)
      returns (r: Result<()>)
      requires service.Some? ==> |salt| == service.value.kdfConfig.saltLength && |nonce| == GcmNonceLength
      modifies this`normalizedAddressEncrypted, this`normalizedAddressCache
      ensures value.None? ==>
                r == Success(()) && normalizedAddressEncrypted == None && normalizedAddressCache == Cached(None)
      ensures value.Some? && service.None? ==>
                r == Failure(RuntimeError) && normalizedAddressEncrypted == old(normalizedAddressEncrypted)
                && normalizedAddressCache == old(normalizedAddressCache)
      ensures value.Some? && service.Some? ==>
                var e := Encrypt(p, service.value, value.value, salt, nonce);
                && (e.Success? ==> r == Success(()) && normalizedAddressEncrypted == Some(e.value)
                                   && normalizedAddressCache == Cached(value))
                && (e.Failure? ==> r == Failure(e.error) && normalizedAddressEncrypted == old(normalizedAddressEncrypted)
                                   && normalizedAddressCache == old(normalizedAddressCache))
    {
      if value.None? {
        normalizedAddressEncrypted := None;
        normalizedAddressCache := Cached(None);
        return Success(());
      }
      if service.None? {
        return Failure(RuntimeError);
      }
      var e := Encrypt(p, service.value, value.value, salt, nonce);
      if e.Failure? {
        return Failure(e.error);
      }
      normalizedAddressEncrypted := Some(e.value);
      normalizedAddressCache := Cached(value);
      r := Success(());
    }
  }

  /** Writing `original_address` leaves `normalized_address` reading as before. */
  method PropertiesAreIndependent(p: Primitives, a: IpAddress, value: Option<string>,
                                  salt: Bytes, nonce: Bytes)
    returns (before: Result<Option<string>>, after: Result<Option<string>>)
    requires a.service.Some? ==> |salt| == a.service.value.kdfConfig.saltLength && |nonce| == GcmNonceLength
    modifies a
    ensures before == after
  {
    before := a.GetNormalizedAddress(p);
    var w := a.SetOriginalAddress(p, value, salt, nonce);
    after := a.GetNormalizedAddress(p);
  }

  /** An address written through the setter reads back unchanged, also from a fresh load of
      the row (cache attribute absent). */
  method OriginalAddressRoundTrip(p: Primitives, a: IpAddress, value: string, salt: Bytes, nonce: Bytes)
    returns (w: Result<()>, r: Result<Option<string>>)
    requires Sound(p) && a.service.Some?
    requires |salt| == a.service.value.kdfConfig.saltLength && |nonce| == GcmNonceLength
    modifies a`originalAddressEncrypted, a`originalAddressCache
    ensures w.Success? ==> r == Success(Some(value))
  {
    w := a.SetOriginalAddress(p, Some(value), salt, nonce);
    if w.Success? {
      RoundTrip(p, a.service.value, value, salt, nonce, a.originalAddressEncrypted.value);
    }
    a.originalAddressCache := Uncached;
    r := a.GetOriginalAddress(p);
  }
}
