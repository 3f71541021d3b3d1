# Encrypted preferences and their registries, modelled in Dafny

This project models the core of an Android library that keeps preferences
encrypted. A store (`PrivatePreferences`, and its verbatim copy
`SecurePreferencesHelper`) seals every value with AES-GCM under a key
from the platform key store. It writes the Base64 ciphertext and the Base64
IV of a logical key `k` into two entries of a `SharedPreferences` file,
`k_data` and `k_iv`. Reads decrypt that pair. Typed values (`Int`,
`Long`, `Boolean`, JSON objects) travel as text. A registry
(`PrivatePreferencesManager`, and its copy `SecurePreferencesManager`)
caches one store per client id. Each store is bound to the file
`"secure_prefs_" + clientId`.

Modules, one file each:

- `Outcomes` (outcomes.dfy): `Option` for Kotlin's nullable values, and `Outcome` for a call that returns or throws.
- `Text` (text.dfy): Kotlin's `toString`, `toIntOrNull`, `toLongOrNull` and `toBooleanStrictOrNull`, with their round trips.
- `Crypto` (crypto.dfy): the key store, and the fetch-or-generate key lookup. It also holds AES-GCM as an abstract `Aead` value with three functions: `seal`, `decodes` (both stored texts are valid Base64) and `unseal`. `unseal` returns `None` for any exception the cipher throws.
- `Backing` (backing.dfy): a `SharedPreferences` file is an object whose `entries` field is a `map<string, string>`. The `Context` hands out one such object per file name.
- `Layout` (layout.dfy): the entry names, and the backing map after each write. It also gives, as pure functions, what each getter returns on a given map. The lemmas about them live here.
- `Store` (store.dfy): the two store classes. Each method's `ensures` ties the new file contents, the new key store and the result to the `Layout` and `Crypto` functions.
- `Registry` (registry.dfy): the two registry classes and the injectivity of file names. It also has client methods that show caching, eviction, namespace isolation, and that the two store classes interoperate.

How the foreign parts are represented:

- AES-GCM together with Base64 and UTF-8 is an `Aead` value. Base64 decoding of the stored pair is its own check, `decodes`, because `decrypt` decodes both texts before it asks for the key.
- The lemmas that need decryption to invert encryption take `Sound(aead)` as a hypothesis, together with `ivText(iv)`, which says `iv` is the Base64 text of an IV the cipher drew. `Sound` says that for such an `iv`, `seal(key, p, iv)` decodes and `unseal(key, seal(key, p, iv), iv) == Some(p)`. It asks nothing of other IV texts.
- JSON is a `Serializer<T>` value with `encode`, `decode` and `isNull`. `isNull` marks Kotlin's null, which a nullable serializer can decode to; `getObject` then returns null, as it does for an absent key.
- Randomness becomes parameters. `nonce` is the Base64 text of the IV the cipher draws. `generated` is the key the key generator would create.
- `getString` decrypts through `getSecretKey`. That call generates and stores a new key when the alias holds no secret key. So every getter is a method that may change the key store. The key store changes only when both entries of the key are present and both are valid Base64.
- The key alias is the constant `"SecurePrefsKey"` in both classes, whatever the file name, so every namespace and both classes share one key. The model keeps this as written. `Layout.SealedPairNotBoundToKey` shows the consequence: a sealed pair still decrypts after being copied under another logical key or into another namespace's file.

## Model

| member | source | states |
|---|---|---|
| `Text.IntText` | src/main/java/tech/scytale/security/androidprivatestorage/PrivatePreferences.kt:115 | `toString` of an `Int` or `Long` is a numeral (optional sign, one or more digits) that starts with '-' exactly for negative values |
| `Text.ParseInteger` | src/main/java/tech/scytale/security/androidprivatestorage/PrivatePreferences.kt:156 | `toIntOrNull`'s first-character test reads a value exactly when the text is an optional sign followed by one or more digits; the value is not positive after '-' and not negative otherwise |
| `Text.ToIntOrNull` | src/main/java/tech/scytale/security/androidprivatestorage/PrivatePreferences.kt:156 | `toIntOrNull` is non-null exactly for a numeral whose value fits in an `Int`, and is then that value |
| `Text.ToLongOrNull` | src/main/java/tech/scytale/security/androidprivatestorage/PrivatePreferences.kt:167 | `toLongOrNull` is non-null exactly for a numeral whose value fits in a `Long`, and is then that value |
| `Text.BooleanText` | src/main/java/tech/scytale/security/androidprivatestorage/PrivatePreferences.kt:145 | the text `putBoolean` writes parses back strictly to the same `Boolean` |
| `Text.ToBooleanStrictOrNull` | src/main/java/tech/scytale/security/androidprivatestorage/PrivatePreferences.kt:189 | `toBooleanStrictOrNull` is null for every text but exactly "true" and "false", which map to their own value |
| `Text.IntRoundTrip` | src/main/java/tech/scytale/security/androidprivatestorage/PrivatePreferences.kt:114-116 | the text `putInt` writes parses back to the same `Int`, for every value including both bounds |
| `Text.LongRoundTrip` | src/main/java/tech/scytale/security/androidprivatestorage/PrivatePreferences.kt:124-126 | the text `putLong` writes parses back to the same `Long`, for every value including both bounds |
| `Crypto.KeyInUse` | src/main/java/tech/scytale/security/androidprivatestorage/PrivatePreferences.kt:36-54 | `getSecretKey` returns the stored secret key when the alias holds one, and the key it hands out is the one stored under the alias afterwards |
| `Crypto.EntriesAfterLookup` | src/main/java/tech/scytale/security/androidprivatestorage/PrivatePreferences.kt:36-54 | after `getSecretKey` the alias holds a secret key; nothing changes when it already held one, and every other alias keeps its entry |
| `Crypto.LookupSettles` | src/main/java/tech/scytale/security/androidprivatestorage/PrivatePreferences.kt:36-55 | after one `getSecretKey`, the alias holds the key it handed out; every later call returns that key and changes nothing |
| `Crypto.LookupKeepsOtherAliases` | src/main/java/tech/scytale/security/androidprivatestorage/PrivatePreferences.kt:44-54 | key generation writes only the alias it generates for |
| `Backing.Context.GetSharedPreferences` | src/main/java/tech/scytale/security/androidprivatestorage/PrivatePreferences.kt:32 | the same file object for the same name; a new empty file otherwise; no other file changes |
| `Layout.EntryNamesDistinct` | src/main/java/tech/scytale/security/androidprivatestorage/PrivatePreferences.kt:89-90 | a `_data` entry name never equals an `_iv` entry name, and each suffix determines the logical key |
| `Layout.DistinctKeysDisjointEntries` | src/main/java/tech/scytale/security/androidprivatestorage/PrivatePreferences.kt:101-102 | distinct logical keys occupy disjoint pairs of backing entries |
| `Layout.WriteSealed` | src/main/java/tech/scytale/security/androidprivatestorage/PrivatePreferences.kt:88-91 | the edit adds exactly `k_data` and `k_iv` with the ciphertext and the IV; every other entry keeps its value |
| `Layout.AbsentIffHalfMissing` | src/main/java/tech/scytale/security/androidprivatestorage/PrivatePreferences.kt:100-102 | `getString` returns null exactly when `k_data` or `k_iv` is missing; a complete pair never reads as null |
| `Layout.StoredText` | src/main/java/tech/scytale/security/androidprivatestorage/PrivatePreferences.kt:100-106 | `getString` returns a value only for a present pair that decodes as Base64; a present pair that does not decode throws |
| `Layout.ReadWithoutLookupIgnoresKey` | src/main/java/tech/scytale/security/androidprivatestorage/PrivatePreferences.kt:69-75 | a read that stops before `getSecretKey` (a missing half, or text that is not Base64) gives the same outcome whatever the key; it returns null only for a missing half |
| `Layout.ReadAfterWrite` | src/main/java/tech/scytale/security/androidprivatestorage/PrivatePreferences.kt:86-106 | `putString(k, v)` then `getString(k)` returns `v` when decryption inverts encryption, for an IV text the cipher produced |
| `Layout.WriteLeavesOtherKeys` | src/main/java/tech/scytale/security/androidprivatestorage/PrivatePreferences.kt:89-90 | writing `k1` leaves what every other key `k2` reads unchanged |
| `Layout.RemoveEntries` | src/main/java/tech/scytale/security/androidprivatestorage/PrivatePreferences.kt:221-226 | `remove(k)` deletes exactly the two entries of `k` and keeps every other entry's value |
| `Layout.ReadAfterRemove` | src/main/java/tech/scytale/security/androidprivatestorage/PrivatePreferences.kt:221-226 | after `remove(k)`, `getString(k)` is null and `getInt(k, d)` is `d` |
| `Layout.RemoveLeavesOtherKeys` | src/main/java/tech/scytale/security/androidprivatestorage/PrivatePreferences.kt:223-224 | removing `k1` leaves what every other key reads unchanged |
| `Layout.ReadAfterClear` | src/main/java/tech/scytale/security/androidprivatestorage/PrivatePreferences.kt:231-233 | after `clear`, every key reads as null |
| `Layout.ParsedOr` | src/main/java/tech/scytale/security/androidprivatestorage/PrivatePreferences.kt:156 | a typed getter returns a value other than its default only when `getString` returned text that parses to that value |
| `Layout.DecodedObject` | src/main/java/tech/scytale/security/androidprivatestorage/PrivatePreferences.kt:212-213 | `getObject` is null when `getString` is null; a null from a non-null read comes only from text that decodes to Kotlin's null; a returned object is the decoding of the stored text and is not null |
| `Layout.IntReadAfterWrite` | src/main/java/tech/scytale/security/androidprivatestorage/PrivatePreferences.kt:155-157 | `putInt(k, v)` then `getInt(k, d)` returns `v` for every `Int` and every default |
| `Layout.LongReadAfterWrite` | src/main/java/tech/scytale/security/androidprivatestorage/PrivatePreferences.kt:166-168 | `putLong(k, v)` then `getLong(k, d)` returns `v` for every `Long` and every default |
| `Layout.BooleanReadAfterWrite` | src/main/java/tech/scytale/security/androidprivatestorage/PrivatePreferences.kt:188-190 | `putBoolean(k, v)` then `getBoolean(k, d)` returns `v` |
| `Layout.ObjectReadAfterWrite` | src/main/java/tech/scytale/security/androidprivatestorage/PrivatePreferences.kt:199-214 | `putObject` then `getObject` returns the object whenever the JSON codec round-trips it, and null when the object is null; for an IV text the cipher produced |
| `Layout.BooleanDefaultUnlessExact` | src/main/java/tech/scytale/security/androidprivatestorage/PrivatePreferences.kt:189 | stored text other than exactly "true" or "false" gives `getBoolean`'s default |
| `Layout.TypedGetterOutcomes` | src/main/java/tech/scytale/security/androidprivatestorage/PrivatePreferences.kt:148-157 | a typed getter throws exactly when `getString` throws; it returns the default for a null read, and otherwise only when the text does not parse or parses to the default; `getObject` passes a decryption failure through too |
| `Layout.SealedPairNotBoundToKey` | src/main/java/tech/scytale/security/androidprivatestorage/PrivatePreferences.kt:57-78 | a pair that reads as `v` under one key reads as `v` after being copied under any other key or into any other file read with the same secret key |
| `Store.PrivatePreferences.constructor` | src/main/java/tech/scytale/security/androidprivatestorage/PrivatePreferences.kt:26-34 | opens the named file through the context and keeps the shared key store |
| `Store.PrivatePreferences.GetSecretKey` | src/main/java/tech/scytale/security/androidprivatestorage/PrivatePreferences.kt:36-55 | returns the secret key stored under the alias, else registers and returns a generated one |
| `Store.PrivatePreferences.Encrypt` | src/main/java/tech/scytale/security/androidprivatestorage/PrivatePreferences.kt:57-67 | the sealed text under the key `getSecretKey` hands out, and the IV text |
| `Store.PrivatePreferences.Decrypt` | src/main/java/tech/scytale/security/androidprivatestorage/PrivatePreferences.kt:69-78 | the plaintext, or a thrown decryption failure, under the key `getSecretKey` hands out; text that is not Base64 throws before `getSecretKey` runs, leaving the key store as it was |
| `Store.PrivatePreferences.PutString` | src/main/java/tech/scytale/security/androidprivatestorage/PrivatePreferences.kt:86-92 | the file becomes `WriteSealed` of the sealed value; the key store goes through one key lookup |
| `Store.PrivatePreferences.GetString` | src/main/java/tech/scytale/security/androidprivatestorage/PrivatePreferences.kt:100-106 | returns `StoredText` of the file; the key store goes through a key lookup only when both entries are present and valid Base64 |
| `Store.PrivatePreferences.PutInt` | src/main/java/tech/scytale/security/androidprivatestorage/PrivatePreferences.kt:114-116 | stores the decimal text of the `Int` |
| `Store.PrivatePreferences.PutLong` | src/main/java/tech/scytale/security/androidprivatestorage/PrivatePreferences.kt:124-126 | stores the decimal text of the `Long` |
| `Store.PrivatePreferences.PutBoolean` | src/main/java/tech/scytale/security/androidprivatestorage/PrivatePreferences.kt:144-146 | stores "true" or "false" |
| `Store.PrivatePreferences.GetInt` | src/main/java/tech/scytale/security/androidprivatestorage/PrivatePreferences.kt:155-157 | `getString(k)?.toIntOrNull() ?: d`; a decryption failure is thrown, not defaulted; the key store goes through a key lookup only for a present pair that is valid Base64 |
| `Store.PrivatePreferences.GetLong` | src/main/java/tech/scytale/security/androidprivatestorage/PrivatePreferences.kt:166-168 | `getString(k)?.toLongOrNull() ?: d`; a decryption failure is thrown, not defaulted; the key store goes through a key lookup only for a present pair that is valid Base64 |
| `Store.PrivatePreferences.GetBoolean` | src/main/java/tech/scytale/security/androidprivatestorage/PrivatePreferences.kt:188-190 | `getString(k)?.toBooleanStrictOrNull() ?: d`; a decryption failure is thrown, not defaulted; the key store goes through a key lookup only for a present pair that is valid Base64 |
| `Store.PrivatePreferences.PutObject` | src/main/java/tech/scytale/security/androidprivatestorage/PrivatePreferences.kt:199-202 | stores the JSON text of the object |
| `Store.PrivatePreferences.GetObject` | src/main/java/tech/scytale/security/androidprivatestorage/PrivatePreferences.kt:211-214 | null when `getString` is null; otherwise the decoded object (null when the text decodes to Kotlin's null), or the decoder's or the decryption's exception; the key store goes through a key lookup only for a present pair that is valid Base64 |
| `Store.PrivatePreferences.Remove` | src/main/java/tech/scytale/security/androidprivatestorage/PrivatePreferences.kt:221-226 | the file loses exactly the two entries of the key |
| `Store.PrivatePreferences.Clear` | src/main/java/tech/scytale/security/androidprivatestorage/PrivatePreferences.kt:231-233 | the whole file is emptied, entries not written by the store included |
| `Store.SecurePreferencesHelper.constructor` | src/main/java/tech/scytale/security/androidprivatestorage/SecurePreferencesHelper.kt:21-29 | as `PrivatePreferences`: opens the named file, shares the key store |
| `Store.SecurePreferencesHelper.GetSecretKey` | src/main/java/tech/scytale/security/androidprivatestorage/SecurePreferencesHelper.kt:31-50 | the stored secret key under the constant alias, else a generated one that is then registered |
| `Store.SecurePreferencesHelper.Encrypt` | src/main/java/tech/scytale/security/androidprivatestorage/SecurePreferencesHelper.kt:52-62 | as `PrivatePreferences.Encrypt` |
| `Store.SecurePreferencesHelper.Decrypt` | src/main/java/tech/scytale/security/androidprivatestorage/SecurePreferencesHelper.kt:64-73 | as `PrivatePreferences.Decrypt`: Base64 is decoded first, and text that is not Base64 throws with no key lookup |
| `Store.SecurePreferencesHelper.PutString` | src/main/java/tech/scytale/security/androidprivatestorage/SecurePreferencesHelper.kt:75-81 | writes exactly `k_data` and `k_iv`, through `WriteSealed` |
| `Store.SecurePreferencesHelper.GetString` | src/main/java/tech/scytale/security/androidprivatestorage/SecurePreferencesHelper.kt:83-89 | `StoredText` of the file: null if either half is absent; no key lookup then, nor when a half is not Base64 |
| `Store.SecurePreferencesHelper.PutInt` | src/main/java/tech/scytale/security/androidprivatestorage/SecurePreferencesHelper.kt:91-93 | stores the decimal text of the `Int` |
| `Store.SecurePreferencesHelper.PutLong` | src/main/java/tech/scytale/security/androidprivatestorage/SecurePreferencesHelper.kt:95-97 | stores the decimal text of the `Long` |
| `Store.SecurePreferencesHelper.PutBoolean` | src/main/java/tech/scytale/security/androidprivatestorage/SecurePreferencesHelper.kt:103-105 | stores "true" or "false" |
| `Store.SecurePreferencesHelper.GetInt` | src/main/java/tech/scytale/security/androidprivatestorage/SecurePreferencesHelper.kt:107-109 | parsed `Int` or the default; a decryption failure is thrown; the key store goes through a key lookup only for a present pair that is valid Base64 |
| `Store.SecurePreferencesHelper.GetLong` | src/main/java/tech/scytale/security/androidprivatestorage/SecurePreferencesHelper.kt:111-113 | parsed `Long` or the default; a decryption failure is thrown; the key store goes through a key lookup only for a present pair that is valid Base64 |
| `Store.SecurePreferencesHelper.GetBoolean` | src/main/java/tech/scytale/security/androidprivatestorage/SecurePreferencesHelper.kt:119-121 | strict `Boolean` or the default; a decryption failure is thrown; the key store goes through a key lookup only for a present pair that is valid Base64 |
| `Store.SecurePreferencesHelper.PutObject` | src/main/java/tech/scytale/security/androidprivatestorage/SecurePreferencesHelper.kt:123-126 | stores the JSON text of the object |
| `Store.SecurePreferencesHelper.GetObject` | src/main/java/tech/scytale/security/androidprivatestorage/SecurePreferencesHelper.kt:128-131 | null when `getString` is null or the text decodes to Kotlin's null, otherwise the decoded object or the exception; the key store goes through a key lookup only for a present pair that is valid Base64 |
| `Store.SecurePreferencesHelper.Remove` | src/main/java/tech/scytale/security/androidprivatestorage/SecurePreferencesHelper.kt:133-138 | deletes both entries of the key and no others |
| `Store.SecurePreferencesHelper.Clear` | src/main/java/tech/scytale/security/androidprivatestorage/SecurePreferencesHelper.kt:140-142 | leaves the backing file empty |
| `Registry.PrefsName` | src/main/java/tech/scytale/security/androidprivatestorage/PrivatePreferencesManager.kt:24 | the file name is the fixed 13-character prefix followed by the client id, which can be cut back out |
| `Registry.PrefsNameInjective` | src/main/java/tech/scytale/security/androidprivatestorage/PrivatePreferencesManager.kt:24 | distinct client ids give distinct file names |
| `Registry.PrivatePreferencesManager.constructor` | src/main/java/tech/scytale/security/androidprivatestorage/PrivatePreferencesManager.kt:9-11 | the registry starts empty |
| `Registry.PrivatePreferencesManager.GetHelper` | src/main/java/tech/scytale/security/androidprivatestorage/PrivatePreferencesManager.kt:20-27 | a cached id returns its instance and changes nothing; an unknown id adds exactly one fresh instance bound to `"secure_prefs_" + id`, leaving the other entries as they were |
| `Registry.PrivatePreferencesManager.ClearHelper` | src/main/java/tech/scytale/security/androidprivatestorage/PrivatePreferencesManager.kt:35-37 | removes only that id's entry, and does nothing if it is absent |
| `Registry.PrivatePreferencesManager.ClearAll` | src/main/java/tech/scytale/security/androidprivatestorage/PrivatePreferencesManager.kt:43-45 | empties the registry |
| `Registry.SecurePreferencesManager.constructor` | src/main/java/tech/scytale/security/androidprivatestorage/SecurePreferencesManager.kt:10-12 | the registry starts empty |
| `Registry.SecurePreferencesManager.GetHelper` | src/main/java/tech/scytale/security/androidprivatestorage/SecurePreferencesManager.kt:14-21 | cached instance if present; otherwise exactly one new entry bound to `"secure_prefs_" + id` |
| `Registry.SecurePreferencesManager.ClearHelper` | src/main/java/tech/scytale/security/androidprivatestorage/SecurePreferencesManager.kt:23-25 | removes only that id |
| `Registry.SecurePreferencesManager.ClearAll` | src/main/java/tech/scytale/security/androidprivatestorage/SecurePreferencesManager.kt:27-29 | empties the registry |
| `Registry.DistinctClientsDistinctFiles` | src/main/java/tech/scytale/security/androidprivatestorage/PrivatePreferencesManager.kt:21-25 | two cached clients never share a backing file |
| `Registry.LookupIsCached` | src/main/java/tech/scytale/security/androidprivatestorage/PrivatePreferencesManager.kt:20-27 | two lookups with no eviction in between return the same instance |
| `Registry.EvictionKeepsPersistedData` | src/main/java/tech/scytale/security/androidprivatestorage/PrivatePreferencesManager.kt:29-37 | after eviction the next lookup builds a new instance over the same file object, so persisted data reads back unchanged |
| `Registry.ClearIsScopedToOneClient` | src/main/java/tech/scytale/security/androidprivatestorage/PrivatePreferencesManager.kt:5-8 | `clear` through one client's instance leaves every other client's file as it was |
| `Registry.HelpersShareFilesAndKey` | src/main/java/tech/scytale/security/androidprivatestorage/SecurePreferencesManager.kt:14-21 | a value put through a `PrivatePreferences` reads back through the `SecurePreferencesHelper` of the same client id: same file, same key alias |

## Left out

- AES-GCM, the key store provider and the IV's randomness. Encryption is the abstract `Aead`, the IV is the `nonce` parameter, and a generated key is the `generated` parameter. Nothing about GCM itself is modelled.
- UTF-8 is folded into `seal`/`unseal`, and Base64 into `seal`, `decodes` and `unseal`. Dafny strings hold Unicode scalar values, so the Kotlin case of a lone UTF-16 surrogate is out of reach. UTF-8 encoding would replace one with '?', and it would not read back as written.
- `putFloat`/`getFloat`: floating-point text conversion is not modelled.
- `Text.ParseInteger`, and through it `Text.ToIntOrNull` and `Text.ToLongOrNull`, treat only ASCII '0' to '9' as digits. The Kotlin runtime also accepts other Unicode decimal digits, for which the model returns the default where Kotlin returns a number. Text written by `putInt`/`putLong` is all ASCII, so the round trips are unaffected.
- Kotlin's parser checks overflow digit by digit. The model parses the whole number and checks the range once, which gives the same result.
- Platform failures are not modelled on any path: an unavailable key store, or a failing key generator, whether `getSecretKey` runs for a write or for a read; and `cipher.init` failing during encryption. Every decryption exception (bad Base64, bad IV, tag mismatch) is the single fault `DecryptionFailed`; the model keeps only where it is thrown (before or after the key lookup).
- The `json` configuration (`ignoreUnknownKeys`) is part of the abstract `Serializer`.
- `Store.PrivatePreferences.PutObject` and `Store.SecurePreferencesHelper.PutObject` always write: `encode` is total. `json.encodeToString` can throw, for example on a NaN field under the default `Json`, and then `putObject` writes nothing.
- `Registry.PrivatePreferencesManager.GetHelper` and `Registry.SecurePreferencesManager.GetHelper` always add an entry for an unknown id, and `Backing.Context.GetSharedPreferences` accepts every name. On Android, `getSharedPreferences` throws `IllegalArgumentException` for a name containing '/'. So `getHelper` with such a client id throws and caches nothing.
- Kotlin default arguments are not modelled (`prefsName = "secure_prefs"`, the getters' `defaultValue`). Callers pass every argument, including the file name.
- A backing file holds only strings. In the source, an entry of another type written by other code under a `_data` or `_iv` name would make `getString` throw a `ClassCastException`.
- `prefs.edit` commit/apply timing and persistence across process restarts are not modelled. A file is an in-memory map that an edit replaces at once. The `Context` stands for the per-process cache of `SharedPreferences` objects.
- The registries are Kotlin `object` singletons. Here each is a class built once, and only single-threaded calls are modelled. The `mutableMapOf` has no locking.
- The package declaration of SecurePreferencesManager.kt differs from its directory. It has no effect on behaviour.
- AndroidPrivateStorageSDK/build.gradle.kts is build configuration and is not part of this model.
