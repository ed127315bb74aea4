/** The EncryptedField descriptor of src/kp_dagger/models/base/encryption.py.

    A model instance holds, for an encrypted attribute, a storage attribute with the blob
    (`Option<Bytes>`), a private cache attribute that may be missing, present with None or
    present with the plaintext, and the encryption service bound to the instance. The
    descriptor routes get, set and delete through these three pieces of state. */
module EncryptedFields {

  import opened Results
  import opened Encryption

  /** The private cache attribute `_<name>`: missing (`hasattr` is false) or holding a value. */
  datatype Cache = Uncached | Cached(value: Option<string>)

  /** The state one encrypted attribute keeps on its model instance, with the instance's
      optional, rebindable encryption service (src/kp_dagger/models/base/base.py:99-110). */
  class Record {
    var storage: Option<Bytes>
    var cache: Cache
    var service: Option<TenantEncryptionService>

    /** The cache agrees with the storage: a cached value is what the stored blob decrypts to
        under the bound service, and a cached None stands for an empty storage attribute. */
    ghost predicate Coherent(p: Primitives)
      reads this
    {
      match cache
      case Uncached => true
      case Cached(None) => storage.None?
      case Cached(Some(v)) => storage.Some? && service.Some? && Decrypt(p, service.value, storage.value) == Success(v)
    }

    /** A fresh instance: no stored blob, nothing cached, `_encryption_service` as passed. */
    constructor (service: Option<TenantEncryptionService>)
      ensures storage == None && cache == Uncached && this.service == service
    {
      storage := None;
      cache := Uncached;
      this.service := service;
    }

    /** `set_encryption_service(service)`. The cache is left as it is. */
    method SetEncryptionService(s: TenantEncryptionService)
      modifies this`service
      ensures service == Some(s)
    {
      service := Some(s);
    }
  }

  class EncryptedField {
    const storageField: string
    const nullable: bool

    /** `EncryptedField(storage_field, nullable=True)`. */
    constructor (storageField: string, nullable: bool := true)
      ensures this.storageField == storageField && this.nullable == nullable
    {
      this.storageField := storageField;
      this.nullable := nullable;
    }

    /** `__get__`: the cached value if there is one, even None; else None for an empty storage
        attribute; else the decryption of the stored blob, cached on success. A blob that fails
        to decrypt reads as None and stays uncached; a missing service raises RuntimeError. */
    method Get(p: Primitives, obj: Record) returns (r: Result<Option<string>>)
      modifies obj`cache
      ensures old(obj.cache).Cached? ==> r == Success(old(obj.cache).value) && obj.cache == old(obj.cache)
      ensures old(obj.cache) == Uncached && obj.storage == None ==>
                r == Success(None) && obj.cache == Uncached
      ensures old(obj.cache) == Uncached && obj.storage.Some? && obj.service == None ==>
                r == Failure(RuntimeError) && obj.cache == Uncached
      ensures old(obj.cache) == Uncached && obj.storage.Some? && obj.service.Some? ==>
                var d := Decrypt(p, obj.service.value, obj.storage.value);
                && (d.Success? ==> r == Success(Some(d.value)) && obj.cache == Cached(Some(d.value)))
                && (d.Failure? ==> r == Success(None) && obj.cache == Uncached)
      ensures old(obj.Coherent(p)) ==> obj.Coherent(p)
      ensures old(obj.Coherent(p)) && r.Success? && r.value.Some? ==>
                obj.storage.Some? && obj.service.Some? &&
                Decrypt(p, obj.service.value, obj.storage.value) == Success(r.value.value)
    {
      if obj.cache.Cached? {
        return Success(obj.cache.value);
      }
      if obj.storage.None? {
        return Success(None);
      }
      if obj.service.None? {
        return Failure(RuntimeError);
      }
      // decrypt raises nothing but DecryptionError, which this accessor turns into None
      var d := Decrypt(p, obj.service.value, obj.storage.value);
      if d.Success? {
        obj.cache := Cached(Some(d.value));
        r := Success(Some(d.value));
      } else {
        r := Success(None);
      }
    }

    /** `__set__`: None clears a nullable attribute (storage None, cache None) and is refused
        with ValueError on a non-nullable one, before the service is looked up; any other value
        needs a bound service (else RuntimeError), is encrypted, stored, and cached as given.
        An exception from encryption leaves the instance unchanged. */
    method Set(p: Primitives, obj: Record, value: Option<string>, salt: Bytes, nonce: Bytes)
      returns (r: Result<()>)
      requires obj.service.Some? ==>
                 |salt| == obj.service.value.kdfConfig.saltLength && |nonce| == GcmNonceLength
      modifies obj`storage, obj`cache
      ensures value.None? && nullable ==>
                r == Success(()) && obj.storage == None && obj.cache == Cached(None)
      ensures value.None? && !nullable ==>
                r == Failure(ValueError) && obj.storage == old(obj.storage) && obj.cache == old(obj.cache)
      ensures value.Some? && obj.service.None? ==>
                r == Failure(RuntimeError) && obj.storage == old(obj.storage) && obj.cache == old(obj.cache)
      ensures value.Some? && obj.service.Some? ==>
                var e := Encrypt(p, obj.service.value, value.value, salt, nonce);
                && (e.Success? ==> r == Success(()) && obj.storage == Some(e.value) && obj.cache == Cached(value))
                && (e.Failure? ==> r == Failure(e.error) && obj.storage == old(obj.storage) && obj.cache == old(obj.cache))
      ensures Sound(p) && old(obj.Coherent(p)) ==> obj.Coherent(p)
    {
      if value.None? && nullable {
        obj.storage := None;
        obj.cache := Cached(None);
        return Success(());
      }
      if value.None? && !nullable {
        return Failure(ValueError);
      }
      if obj.service.None? {
        return Failure(RuntimeError);
      }
      var e := Encrypt(p, obj.service.value, value.value, salt, nonce);
      if e.Failure? {
        return Failure(e.error);
      }
      if Sound(p) {
        RoundTrip(p, obj.service.value, value.value, salt, nonce, e.value);
      }
      obj.storage := Some(e.value);
      obj.cache := Cached(value);
      r := Success(());
    }

    /** `__delete__`: empties the storage attribute and removes the cache attribute. */
    method Delete(obj: Record)
      modifies obj`storage, obj`cache
      ensures obj.storage == None && obj.cache == Uncached
    {
      obj.storage := None;
      obj.cache := Uncached;
    }
  }

  /** Setting a value and reading it back gives the value from the cache, with no decryption. */
  method SetThenGet(p: Primitives, field: EncryptedField, obj: Record, value: string,
                    salt: Bytes, nonce: Bytes) returns (r: Result<Option<string>>)
    requires obj.service.Some? &&
             |salt| == obj.service.value.kdfConfig.saltLength && |nonce| == GcmNonceLength
    requires Encrypt(p, obj.service.value, value, salt, nonce).Success?
    modifies obj`storage, obj`cache
    ensures r == Success(Some(value))
    ensures obj.storage == Some(Encrypt(p, obj.service.value, value, salt, nonce).value)
  {
    var w := field.Set(p, obj, Some(value), salt, nonce);
    r := field.Get(p, obj);
  }

  /** A field declared without `nullable=` accepts None: the default is nullable. */
  method DefaultFieldAcceptsNone(p: Primitives)
    returns (outcome: Result<()>, stored: Option<Bytes>, read: Result<Option<string>>)
    ensures outcome == Success(()) && stored == None && read == Success(None)
  {
    var field := new EncryptedField("secret_data_encrypted");
    var obj := new Record(None);
    outcome := field.Set(p, obj, None, [], []);
    stored := obj.storage;
    read := field.Get(p, obj);
  }
}
