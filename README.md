# kp-dagger: tenant encryption, encrypted model fields and CLI helpers in Dafny

This project models the security core of kp-dagger, a network-configuration analysis tool,
together with one model of its sibling package pybastion. It covers the following parts.

- **Tenant encryption service** (`encryption.dfy`, module `Encryption`):
  - `KDFConfig` and its defaults;
  - `TenantEncryptionService`, which derives a per-tenant key from `str(tenant_id)`, the
    process runtime key and a per-blob salt with Argon2id or PBKDF2. It stores blobs as
    `salt || nonce || AES-GCM output`;
  - `EncryptionServiceManager`, a per-process registry of those services.

  The cryptographic libraries are parameters. A `Primitives` value holds them, and
  `Sound` lists what the proofs assume of them. `SoundWitness.SoundIsSatisfiable`
  (`sound_witness.dfy`) shows these assumptions are consistent.
- **The `EncryptedField` descriptor** (`encrypted_field.dfy`, module `EncryptedFields`). It
  encrypts on set, decrypts and caches on get, and clears on delete. It works against the
  state a model instance keeps: a storage attribute, a cache attribute and the bound service.
- **The kp-dagger `IPAddress` model** (`ip_address.dfy`, module `NormalizedIpAddress`). It is
  a class with two hand-written encrypted properties and a `prefix_length` declared within
  0..128. The bound is checked by whole-model validation and on assignment, not by direct
  construction of the table model. The module imports a base class that does not exist (see
  "Left out"); the model takes the base to be `DaggerBaseModel`.
- **Tenant slug generation** (`tenant_slug.dfy`, module `TenantSlug`). The three regular
  expression passes of `Tenant.generate_slug_from_name` are written as string functions. They
  are proved equal to an independent reference: the words of the lowered name, joined by
  hyphens.
- **CLI helpers** (`cli_helpers.dfy`, module `CliHelpers`):
  - file extension validation;
  - device type detection over the first lines of a configuration;
  - output file naming;
  - the prefix-matching command lookup of `ClickAliasedGroup`.
- **Report file naming** (`report_command.dfy`, module `ReportCommand`).
- **The pybastion `IPAddress` validators and `__str__`** (`pybastion_ip_address.dfy`, module
  `PyBastionIpAddress`).

`results.dfy` holds the `Option`/`Result` wrappers and the error kinds, one per Python
exception class the core raises. `text.dfy` holds ASCII lower-casing, substring search and
decimal digits.

Where the tests and the code disagree, the model follows the code.
`tests/unit/models/test_encrypted_field.py` (line 19, lines 66-69) declares a field without
`nullable=` and expects setting None to raise. The descriptor defaults to `nullable=True`
(`src/kp_dagger/models/base/encryption.py:20`), so the model accepts None there
(`EncryptedFields.DefaultFieldAcceptsNone`).

## Model

| member | source | states |
|---|---|---|
| Encryption.NewKdfConfig | src/kp_dagger/core/encryption.py:47-77 | the configuration stores its six arguments; it fails, with EncryptionConfigError, exactly when Argon2id is requested and argon2 is not importable |
| Encryption.DefaultKdfConfig | src/kp_dagger/core/encryption.py:47-77 | `KDFConfig()` is argon2id, time 3, memory 65536 KiB, parallelism 1, salt 32, key 32 when argon2 is present, and raises EncryptionConfigError otherwise |
| Encryption.ResolveKdfConfig | src/kp_dagger/core/encryption.py:105 | `kdf_config or KDFConfig()`: a given configuration is used as is; only its absence builds the default |
| Encryption.NewService | src/kp_dagger/core/encryption.py:88-109 | construction succeeds iff the runtime key has at least 32 bytes and a configuration was given or argon2 is available; failures are EncryptionConfigError; the service keeps tenant, key and resolved configuration |
| Encryption.UuidTextInjective | src/kp_dagger/core/encryption.py:123 | `str(tenant_id)` (8-4-4-4-12 lower-case hex) differs for different tenants |
| Encryption.KeyMaterialSeparatesTenants | src/kp_dagger/core/encryption.py:122-123 | two tenants sharing a runtime key never have the same key material |
| Encryption.DeriveKey | src/kp_dagger/core/encryption.py:111-154 | EncryptionConfigError iff the algorithm is neither "argon2id" nor "pbkdf2"; other failures come from the library; a derived key has the configured key length |
| Encryption.PySlice | src/kp_dagger/core/encryption.py:201-203 | Python slicing: in-range bounds slice exactly, out-of-range bounds clamp, a start past the end gives empty bytes |
| Encryption.Encrypt | src/kp_dagger/core/encryption.py:156-182 | empty plaintext gives empty bytes; EncryptionConfigError iff the plaintext is non-empty and the KDF unsupported; a blob starts with the salt and then the nonce |
| Encryption.Decrypt | src/kp_dagger/core/encryption.py:184-216 | empty input gives ""; every failure is reported as DecryptionError |
| Encryption.EncryptedLayout | src/kp_dagger/core/encryption.py:171-182 | a non-empty plaintext's blob is salt, nonce and the GCM seal of its UTF-8 bytes under the derived key, `salt_length + 12 + len(utf8) + 16` bytes long |
| Encryption.EncryptSucceedsIff | src/kp_dagger/core/encryption.py:175-179 | non-empty encryption succeeds iff key derivation succeeds, key_length is 16, 24 or 32, and the UTF-8 bytes are within AESGCM's 2^31 - 1 byte limit |
| Encryption.RoundTrip | src/kp_dagger/core/encryption.py:156-216 | `decrypt(encrypt(s)) == s` for every string, including the empty one |
| Encryption.FreshRandomnessGivesDistinctBlobs | src/kp_dagger/core/encryption.py:171-172 | different salts or nonces give different blobs for one plaintext, and both decrypt to it |
| Encryption.TruncatedBlobFails | src/kp_dagger/core/encryption.py:199-216 | a non-empty blob shorter than salt + nonce + tag raises DecryptionError |
| Encryption.UnsupportedKdfErrors | src/kp_dagger/core/encryption.py:130-131 | with an unknown algorithm, encryption raises EncryptionConfigError but decryption raises DecryptionError |
| Encryption.CrossTenantDecryptionNeedsCollision | src/kp_dagger/core/encryption.py:122-131 | if tenant B decrypts tenant A's blob, then two distinct key materials gave GCM seals that collide for that salt and nonce |
| Encryption.TenantIsolation | src/kp_dagger/core/encryption.py:122-131 | when B's derived key does not open the GCM output stored in A's blob, B's service rejects that blob with DecryptionError |
| Encryption.GenerateRuntimeKey | src/kp_dagger/core/encryption.py:245-248 | the generated key has 32 bytes, enough for every service built from it with an explicit configuration |
| Encryption.EncryptionServiceManager.constructor | src/kp_dagger/core/encryption.py:222-233 | an empty registry holding the runtime key and the resolved configuration |
| Encryption.EncryptionServiceManager.Create | src/kp_dagger/core/encryption.py:222-233 | fails iff building the default configuration fails; otherwise a fresh, empty, valid registry; the runtime key is not checked here |
| Encryption.EncryptionServiceManager.GetService | src/kp_dagger/core/encryption.py:235-243 | a registered tenant gets its stored service unchanged; otherwise a service is built, stored and returned, or EncryptionConfigError leaves the registry unchanged; every entry stays the service built for its tenant |
| Encryption.GetServiceTwice | src/kp_dagger/core/encryption.py:235-243 | two requests for one tenant return the same service and the second adds nothing |
| SoundWitness.SoundIsSatisfiable | src/kp_dagger/core/encryption.py:13-24 | the assumed properties of the KDFs, AES-GCM and UTF-8 hold together of at least one set of functions |
| EncryptedFields.Record.constructor | src/kp_dagger/models/base/base.py:99-106 | a new instance has no stored blob, no cache attribute and the passed service |
| EncryptedFields.Record.SetEncryptionService | src/kp_dagger/models/base/base.py:108-110 | binds the service and changes nothing else |
| EncryptedFields.EncryptedField.constructor | src/kp_dagger/models/base/encryption.py:20-30 | stores the storage field name; nullable defaults to true |
| EncryptedFields.EncryptedField.Get | src/kp_dagger/models/base/encryption.py:37-69 | a cache attribute wins, even holding None; an empty storage reads None; no service raises RuntimeError; otherwise decryption, cached on success, or None and uncached on DecryptionError; cache coherence is kept, and a Some result is what the blob decrypts to |
| EncryptedFields.EncryptedField.Set | src/kp_dagger/models/base/encryption.py:71-91 | None on a nullable field clears storage and caches None; None on a non-nullable one is ValueError; a value needs a service (RuntimeError) and is stored encrypted and cached; a failing encryption changes nothing; coherence is kept |
| EncryptedFields.EncryptedField.Delete | src/kp_dagger/models/base/encryption.py:93-97 | storage empty and the cache attribute removed |
| EncryptedFields.SetThenGet | src/kp_dagger/models/base/encryption.py:71-91 | a set value reads back unchanged, and the storage holds its encryption |
| EncryptedFields.DefaultFieldAcceptsNone | src/kp_dagger/models/base/encryption.py:20 | a field declared without `nullable=` accepts None and reads back None |
| NormalizedIpAddress.IpAddress.constructor | src/kp_dagger/models/normalized/ip_address.py:33-50 | direct construction: empty storage and no cache for both addresses; the prefix length is stored unvalidated |
| NormalizedIpAddress.IpAddress.Create | src/kp_dagger/models/normalized/ip_address.py:45-50 | `model_validate`: succeeds iff the prefix length is None or within 0..128, otherwise ValueError |
| NormalizedIpAddress.IpAddress.SetPrefixLength | src/kp_dagger/models/normalized/ip_address.py:45-50 | validated assignment: stores the value iff it is None or within 0..128; otherwise ValueError and the field is unchanged |
| NormalizedIpAddress.IpAddress.GetOriginalAddress | src/kp_dagger/models/normalized/ip_address.py:85-100 | a cache attribute wins; empty storage reads None; no service raises RuntimeError; otherwise the decryption, cached, or None when decrypt raises; the other property is untouched |
| NormalizedIpAddress.IpAddress.SetOriginalAddress | src/kp_dagger/models/normalized/ip_address.py:102-115 | None clears storage and caches None with no service needed; a value needs a service and is stored encrypted and cached; a failed encryption changes nothing |
| NormalizedIpAddress.IpAddress.GetNormalizedAddress | src/kp_dagger/models/normalized/ip_address.py:117-132 | as the original-address getter, on the normalized storage and cache |
| NormalizedIpAddress.IpAddress.SetNormalizedAddress | src/kp_dagger/models/normalized/ip_address.py:134-147 | as the original-address setter, on the normalized storage and cache |
| NormalizedIpAddress.PropertiesAreIndependent | src/kp_dagger/models/normalized/ip_address.py:85-147 | writing `original_address` leaves what `normalized_address` reads unchanged |
| NormalizedIpAddress.OriginalAddressRoundTrip | src/kp_dagger/models/normalized/ip_address.py:85-115 | a written address reads back unchanged even after the cache attribute is dropped, by decryption |
| TenantSlug.SlugIsJoinedWords | src/kp_dagger/models/base/tenant.py:116-121 | the three regex passes compute the maximal `[a-z0-9]` runs of the lowered name joined by single hyphens |
| TenantSlug.PassesJoinWords | src/kp_dagger/models/base/tenant.py:117-120 | substituting `-` for runs of other characters, trimming and collapsing hyphens yields the joined words |
| TenantSlug.DashRunsShape | src/kp_dagger/models/base/tenant.py:117 | the first pass is an optional leading hyphen, the words joined by hyphens, and an optional trailing hyphen |
| TenantSlug.TrimAround | src/kp_dagger/models/base/tenant.py:119 | the anchored trimming pass removes exactly one hyphen at each end that has one |
| TenantSlug.CollapseNoDoubles | src/kp_dagger/models/base/tenant.py:120 | collapsing `-+` changes nothing in a string without two adjacent hyphens |
| TenantSlug.JoinWellFormed | src/kp_dagger/models/base/tenant.py:39-43 | joined words use only `[a-z0-9-]`, do not start or end with a hyphen, have no adjacent hyphens, and are empty iff there are no words |
| TenantSlug.SlugWellFormed | src/kp_dagger/models/base/tenant.py:98-121 | every generated slug is well formed; it is empty iff the name has no letter or digit |
| TenantSlug.SlugIdempotent | src/kp_dagger/models/base/tenant.py:98-121 | generating a slug from a slug returns it unchanged |
| TenantSlug.WellFormedSlugIsFixed | src/kp_dagger/models/base/tenant.py:98-121 | a non-empty lower-case string of letter/digit runs joined by single dashes is its own slug |
| TenantSlug.TwoWordSlug | src/kp_dagger/models/base/tenant.py:98-121 | a name that lower-cases to two slug-character words around one space becomes those words joined by one dash |
| TenantSlug.AcmeExample | src/kp_dagger/models/base/tenant.py:109-111 | "ACME Corporation" becomes "acme-corporation" |
| TenantSlug.GeneratedSlugNotAlwaysValid | src/kp_dagger/models/base/tenant.py:39-43 | a name with no letter or digit, or of more than 100 slug characters, yields a slug the field's regex or 100-character limit rejects |
| CliHelpers.InvalidFilesMembers | src/kp_dagger/cli/utils/helpers.py:34-38 | the collected files are exactly those whose lower-cased suffix is not allowed |
| CliHelpers.NoInvalidFilesIff | src/kp_dagger/cli/utils/helpers.py:40-47 | none is collected iff every file's lower-cased suffix is allowed, both directions |
| CliHelpers.ValidateFileExtensions | src/kp_dagger/cli/utils/helpers.py:19-47 | the loop collects the invalid files in order, and the result is true iff every file's lower-cased suffix is allowed |
| CliHelpers.Suffix | src/kp_dagger/cli/utils/helpers.py:37 | `Path.suffix`: empty, or a dot followed by at least one character and no further dot; empty iff the name has no suffix |
| CliHelpers.StemSuffixSplit | src/kp_dagger/cli/utils/helpers.py:102 | stem and suffix concatenate back to the name, and a name with a suffix has a non-empty stem |
| CliHelpers.Classify | src/kp_dagger/cli/utils/helpers.py:71-86 | the heuristics return one of cisco-asa, cisco-ios, fortigate, paloalto |
| CliHelpers.CiscoTakesPrecedence | src/kp_dagger/cli/utils/helpers.py:72-75 | content with "version " and "cisco" is a Cisco device, ASA iff it mentions "asa" or "pix", whatever else it contains |
| CliHelpers.DetectDeviceType | src/kp_dagger/cli/utils/helpers.py:50-86 | an unreadable file gives cisco-ios; otherwise the classification of the first 52 lines, lower-cased and concatenated |
| CliHelpers.DetectDeviceTypeLimited | src/kp_dagger/cli/utils/helpers.py:61 | the classification of the first 50 lines, as the limit's comment promises |
| CliHelpers.BlankHeadIsDefault | src/kp_dagger/cli/utils/helpers.py:71-86 | when the first 50 lines are blank, classification finds no marker and answers cisco-ios |
| CliHelpers.FortigateLineDecides | src/kp_dagger/cli/utils/helpers.py:71-86 | when 51 blank lines are followed by "fortigate", classifying all 52 lines answers fortigate |
| CliHelpers.ReadLimitCounterexample | src/kp_dagger/cli/utils/helpers.py:61-69 | with 51 blank lines and "fortigate" as line 52, the first 50 lines classify as cisco-ios but the code answers fortigate |
| CliHelpers.GetOutputFilename | src/kp_dagger/cli/utils/helpers.py:89-103 | the output sits in the input's directory |
| CliHelpers.OutputFilenameParts | src/kp_dagger/cli/utils/helpers.py:102-103 | for an extension with one leading dot, the output's suffix is that extension and its stem is the input's stem, "_" and the suffix argument |
| CliHelpers.PrefixMatches | src/kp_dagger/cli/utils/helpers.py:211 | the matches are exactly the listed names starting with the typed name |
| CliHelpers.PrefixMatchesSorted | src/kp_dagger/cli/utils/helpers.py:211 | filtering a sorted listing keeps it sorted |
| CliHelpers.GetCommand | src/kp_dagger/cli/utils/helpers.py:204-218 | a usage error lists at least two names, sorted, exactly the commands starting with the typed name |
| CliHelpers.ExactNameWins | src/kp_dagger/cli/utils/helpers.py:206-208 | an exact command name resolves to that command even when it prefixes others |
| CliHelpers.NoMatchGivesNone | src/kp_dagger/cli/utils/helpers.py:212-213 | the lookup gives None iff no command starts with the typed name |
| CliHelpers.UniquePrefixMatch | src/kp_dagger/cli/utils/helpers.py:214-215 | a prefix of exactly one command resolves to it |
| CliHelpers.AmbiguousPrefixFails | src/kp_dagger/cli/utils/helpers.py:217 | a non-exact prefix of two commands is a usage error |
| CliHelpers.SortedNamesUnique | src/kp_dagger/cli/utils/helpers.py:217 | two sorted, duplicate-free lists with the same members are equal, so the error lists `sorted(matches)` |
| ReportCommand.ReportExtension | src/kp_dagger/cli/commands/report.py:160-166 | the extension is one of .html, .json, .xlsx, .pdf |
| ReportCommand.ReportExtensionTable | src/kp_dagger/cli/commands/report.py:160-166 | excel, json and pdf map to .xlsx, .json and .pdf, and every other format falls back to .html, each as an iff |
| ReportCommand.GenerateOutputFilename | src/kp_dagger/cli/commands/report.py:157-167 | the report sits in the input's directory |
| ReportCommand.ReportNameParts | src/kp_dagger/cli/commands/report.py:157-167 | the name is the shared helper's output with suffix "report"; its suffix is the extension and its stem the input's stem followed by "_report" |
| ReportCommand.ResolveOutput | src/kp_dagger/cli/commands/report.py:105-107 | an explicit output path is kept; otherwise the generated name, beside the input, with the format's extension |
| PyBastionIpAddress.ValidateIpAddress | src/pybastion/models/normalized/ip_address.py:111-120 | the value is returned unchanged iff it parses as an address, else ValueError |
| PyBastionIpAddress.ValidateNetmask | src/pybastion/models/normalized/ip_address.py:122-134 | None passes; otherwise the same rule as the address |
| PyBastionIpAddress.ValidatePrefixLength | src/pybastion/models/normalized/ip_address.py:136-155 | ValueError iff a prefix length and a known version are both present and the length is outside 0..32 (IPv4) or 0..128 (IPv6); the value is otherwise returned unchanged |
| PyBastionIpAddress.PrefixLengthAsDeclared | src/pybastion/models/normalized/ip_address.py:36-48 | in whole-model validation, with `prefix_length` declared before `ip_version`, the validator sees no version and accepts every value |
| PyBastionIpAddress.OutOfRangePrefixAccepted | src/pybastion/models/normalized/ip_address.py:146-150 | prefix 200 with IPv4 passes validation as declared, although the validator given the version rejects it |
| PyBastionIpAddress.PrefixLengthForVersion | src/pybastion/models/normalized/ip_address.py:148-153 | validating against the model's own version, as assignment validation does, accepts iff the value is None or in that version's range |
| PyBastionIpAddress.Ipv4RangeWithinIpv6 | src/pybastion/models/normalized/ip_address.py:17-18 | every prefix length valid for IPv4 is valid for IPv6 |
| PyBastionIpAddress.Str | src/pybastion/models/normalized/ip_address.py:157-161 | without a prefix, the address itself; with one, the address, "/" and more |
| PyBastionIpAddress.StrRoundTrip | src/pybastion/models/normalized/ip_address.py:157-161 | splitting `str(ip)` at its last "/" gives back the address and prefix length, for addresses without "/" |

## Left out

- Cryptographic libraries are parameters, not implementations: `argon2.low_level.hash_secret_raw`, `PBKDF2HMAC`, `AESGCM` and the UTF-8 codec. The model relies only on the properties listed in `Encryption.Sound`. Every exception they raise is one `LibraryError`, so a key-size `ValueError` or a data-size `OverflowError` from `AESGCM` is not told apart.
- Entropy (`os.urandom`, `secrets.token_bytes`) becomes parameters: salts, nonces and the entropy passed to `GenerateRuntimeKey`.
- Whether argon2 can be imported (`HAS_ARGON2`) is the boolean `hasArgon2`.
- The computational security of Argon2id, PBKDF2 and AES-GCM is not modelled. `Encryption.CrossTenantDecryptionNeedsCollision` states what a cross-tenant decryption would require: two different key materials whose GCM seals coincide.
- Encryption.TenantIsolation: isolation cannot be promised deterministically, because AES-GCM does not commit to its key: for any two keys, ciphertexts exist that open under both. The lemma therefore assumes that B's key does not open the GCM output in the blob at hand, which fails only with negligible probability for a blob A's service made honestly, and concludes DecryptionError.
- `KdfConfig.saltLength` is a `nat`. The model does not cover negative salt lengths, for which Python's `os.urandom` raises and slicing counts from the end.
- Python object identity is not modelled. "The same service instance" from the manager means the same stored map entry.
- Thread safety of the manager's dictionary and of the descriptor caches is out of scope, since neither is synchronised.
- Strings that UTF-8 cannot encode (lone surrogates) are not modelled; `str.encode` would raise `UnicodeEncodeError` on them.
- `EncryptedFields.EncryptedField.Set`: `str(value)` for a non-string value is not modelled; values are strings or None.
- `EncryptedFields.Record` holds the state of a single encrypted attribute. A model with several fields repeats it per field; the kp-dagger `IPAddress` does this for its two properties.
- `EncryptedFields.EncryptedField.Get`: `__get__` on the class itself (`obj is None`) returns the descriptor and is not modelled. Only `DecryptionError` reaches its handler, because `decrypt` converts every exception to it.
- `model_dump_encrypted` and the SQLModel/pydantic machinery (`base.py` beyond the constructor and service binding) are not part of this model.
- Printing is not modelled: `print_error`, the rich console, and the list of invalid files and allowed extensions printed by `validate_file_extensions`.
- `Text.Lower` lower-cases ASCII letters only. Python's `str.lower` also folds non-ASCII letters. This affects slug generation, extension comparison and device detection only for non-ASCII input.
- `CliHelpers.Suffix` follows pathlib's rule for names: the part from the last dot, provided that dot is neither first nor last. Python 3.12's extra checks on trailing dots in other positions are not modelled.
- `CliHelpers.DetectDeviceType`: reading the file is its list of lines, with `None` when it cannot be opened or decoded. Decoding with `errors="ignore"` is not modelled.
- `CliHelpers.GetCommand`: Click's `list_commands` is assumed to return the command names sorted and without duplicates (the `WellListed` precondition). Click's default `Group` does this. `ctx.fail` becomes the `UsageError` result.
- `ensure_directory`, `safe_file_write`, `get_file_size_human` and `is_binary_file` (src/kp_dagger/cli/utils/helpers.py:106-198) are file system I/O and are not part of this model.
- The rest of `report.py` (`_show_report_config`, `_save_report`, `_open_report`, progress display) is console output and file I/O and is not part of this model.
- `PyBastionIpAddress.ValidateIpAddress`: parsing with `ipaddress.ip_address` is a predicate parameter.
- `PyBastionIpAddress.Str`: the prefix length is printed with `Text.IntToString`, in decimal with a leading "-" for negative values.
- `src/kp_dagger/models/normalized/ip_address.py:13` imports `PyBastionBaseModel` from `kp_dagger.models.base.base`, which defines only `DaggerConfigMixin` and `DaggerBaseModel` (`src/kp_dagger/models/base/base.py:21`, `:43`). As written, importing the module raises ImportError. The model assumes the base is `DaggerBaseModel`, with its `validate_assignment=True` configuration (`src/kp_dagger/models/base/base.py:31-36`).
- NormalizedIpAddress.IpAddress.Create: the bound of 0..128 is enforced by whole-model validation (`Create`) and by validated assignment (`SetPrefixLength`) only. Direct construction of the table model stores any value (the constructor). Whether SQLModel applies assignment validation to table models is not modelled; the model follows the declared configuration.
- The kp-dagger `IPAddress` fields `version`, `is_private`, `is_loopback`, `is_multicast`, `device_id`, `config_line_number` and `context` carry no behaviour and are left out. pybastion's derived fields (network address, host count) are left out for the same reason.

## Findings

| source | as written | input that shows it | evidently intended | confidence | as-written member | corrected member |
|---|---|---|---|---|---|---|
| src/kp_dagger/cli/utils/helpers.py:61-69 | the loop appends a line before testing `i > max_read_lines`, so it reads lines 0 to 51: 52 lines | a file of 51 blank lines followed by "fortigate": the code answers fortigate, the first 50 lines say cisco-ios | read at most the first 50 lines, as the comment on line 61 says | not executed; follows from the loop's order | CliHelpers.DetectDeviceType, CliHelpers.ReadLimitCounterexample | CliHelpers.DetectDeviceTypeLimited |
| src/pybastion/models/normalized/ip_address.py:36-48 | `prefix_length` (line 36) is declared before `ip_version` (line 46). When the model is validated as a whole, pydantic validates fields in declaration order, so `info.data` holds no version when the prefix validator runs. Assignment validation (`validate_assignment=True`, src/pybastion/models/base/base.py:63) does see the version | `model_validate` with `prefix_length=200, ip_version=IPv4` passes validation | check the prefix length against the instance's own IP version in whole-model validation too | not executed; rests on pydantic's field order, and table models skip validation on direct construction | PyBastionIpAddress.PrefixLengthAsDeclared, PyBastionIpAddress.OutOfRangePrefixAccepted | PyBastionIpAddress.PrefixLengthForVersion |
