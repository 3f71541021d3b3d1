/**
 * The encrypted preference store. `PrivatePreferences` and
 * `SecurePreferencesHelper` are two copies of the same class in the
 * library; both are kept, and both are specified by the functions of
 * `Layout`, so one set of lemmas covers both.
 *
 * Each method takes what the platform would draw at random as parameters:
 * `nonce` is the Base64 text of the IV the cipher picks, and `generated`
 * is the key the key generator would create if the alias held no secret key.
 */
module Store {
  import opened Outcomes
  import opened Text
  import opened Crypto
  import opened Backing
  import opened Layout

  /** The alias of the one key every instance encrypts with. */
  const KEY_ALIAS := "SecurePrefsKey"

  /** A `SharedPreferences` wrapper that seals every value with AES-GCM under a key from the key store. */
  class PrivatePreferences {
    /** The backing file, opened with `getSharedPreferences(prefsName, MODE_PRIVATE)`. */
    const prefs: SharedPreferences
    /** The platform key store, shared by every instance. */
    const keyStore: KeyStore
    /** AES-GCM with its Base64 and UTF-8 conversions. */
    const aead: Aead
    /** The key alias: one constant, whatever the file name. */
    const keyAlias: string := KEY_ALIAS

    constructor (context: Context, prefsName: string, keyStore: KeyStore, aead: Aead)
      requires context.Valid()
      modifies context
      ensures context.Valid()
      ensures prefs.name == prefsName && this.keyStore == keyStore && this.aead == aead
      ensures context.files == old(context.files)[prefsName := prefs]
      ensures prefsName in old(context.files) ==> prefs == old(context.files)[prefsName]
      ensures prefsName !in old(context.files) ==> fresh(prefs) && prefs.entries == map[]
    {
      var file := context.GetSharedPreferences(prefsName);
      prefs := file;
      this.keyStore := keyStore;
      this.aead := aead;
    }

    /** The key `getSecretKey` would hand out now, `generated` being what the key generator would create. */
    ghost function KeyFor(generated: SecretKey): SecretKey
      reads keyStore
    {
      KeyInUse(keyStore.entries, keyAlias, generated)
    }

    /** The key store after a getter: it only looks the key up when both entries of `key` are present and decode. */
    ghost function KeyStoreAfterRead(before: map<string, KeyEntry>, key: string, generated: SecretKey): map<string, KeyEntry>
      reads prefs
    {
      if LooksUpKey(prefs.entries, key, aead) then EntriesAfterLookup(before, keyAlias, generated) else before
    }

    method GetSecretKey(generated: SecretKey) returns (secret: SecretKey)
      modifies keyStore
      ensures secret == old(KeyFor(generated))
      ensures keyStore.entries == EntriesAfterLookup(old(keyStore.entries), keyAlias, generated)
      ensures StoredSecretKey(keyStore.entries, keyAlias) == Some(secret)
    {
      if keyAlias in keyStore.entries {
        var entry := keyStore.entries[keyAlias];
        if entry.SecretKeyEntry? {
          return entry.key;
        }
      }
      keyStore.entries := keyStore.entries[keyAlias := SecretKeyEntry(generated)];
      secret := generated;
    }

    /** `nonce` is the Base64 text of the random IV the cipher picks. */
    method Encrypt(plain: string, nonce: string, generated: SecretKey) returns (data: string, iv: string)
      modifies keyStore
      ensures data == aead.seal(old(KeyFor(generated)), plain, nonce) && iv == nonce
      ensures keyStore.entries == EntriesAfterLookup(old(keyStore.entries), keyAlias, generated)
    {
      var secret := GetSecretKey(generated);
      data := aead.seal(secret, plain, nonce);
      iv := nonce;
    }

    method Decrypt(data: string, iv: string, generated: SecretKey) returns (plain: Outcome<string>)
      modifies keyStore
      ensures plain == Unsealed(aead, old(KeyFor(generated)), data, iv)
      ensures keyStore.entries ==
        if aead.decodes(data, iv) then EntriesAfterLookup(old(keyStore.entries), keyAlias, generated) else old(keyStore.entries)
    {
      if !aead.decodes(data, iv) {
        return Thrown(DecryptionFailed);
      }
      var secret := GetSecretKey(generated);
      plain := Unsealed(aead, secret, data, iv);
    }

    method PutString(key: string, value: string, nonce: string, generated: SecretKey)
      modifies prefs, keyStore
      ensures prefs.entries == WriteSealed(old(prefs.entries), key, aead.seal(old(KeyFor(generated)), value, nonce), nonce)
      ensures keyStore.entries == EntriesAfterLookup(old(keyStore.entries), keyAlias, generated)
    {
      var data, iv := Encrypt(value, nonce, generated);
      prefs.entries := WriteSealed(prefs.entries, key, data, iv);
    }

    method GetString(key: string, generated: SecretKey) returns (text: Outcome<Option<string>>)
      modifies keyStore
      ensures text == StoredText(prefs.entries, key, old(KeyFor(generated)), aead)
      ensures keyStore.entries == KeyStoreAfterRead(old(keyStore.entries), key, generated)
    {
      if DataEntry(key) !in prefs.entries {
        return Returned(None);
      }
      var data := prefs.entries[DataEntry(key)];
      if IvEntry(key) !in prefs.entries {
        return Returned(None);
      }
      var iv := prefs.entries[IvEntry(key)];
      var plain := Decrypt(data, iv, generated);
      match plain {
        case Thrown(f) => text := Thrown(f);
        case Returned(s) => text := Returned(Some(s));
      }
    }

    method PutInt(key: string, value: Int32, nonce: string, generated: SecretKey)
      modifies prefs, keyStore
      ensures prefs.entries == WriteSealed(old(prefs.entries), key, aead.seal(old(KeyFor(generated)), IntText(value), nonce), nonce)
      ensures keyStore.entries == EntriesAfterLookup(old(keyStore.entries), keyAlias, generated)
    {
      PutString(key, IntText(value), nonce, generated);
    }

    method PutLong(key: string, value: Int64, nonce: string, generated: SecretKey)
      modifies prefs, keyStore
      ensures prefs.entries == WriteSealed(old(prefs.entries), key, aead.seal(old(KeyFor(generated)), IntText(value), nonce), nonce)
      ensures keyStore.entries == EntriesAfterLookup(old(keyStore.entries), keyAlias, generated)
    {
      PutString(key, IntText(value), nonce, generated);
    }

    method PutBoolean(key: string, value: bool, nonce: string, generated: SecretKey)
      modifies prefs, keyStore
      ensures prefs.entries == WriteSealed(old(prefs.entries), key, aead.seal(old(KeyFor(generated)), BooleanText(value), nonce), nonce)
      ensures keyStore.entries == EntriesAfterLookup(old(keyStore.entries), keyAlias, generated)
    {
      PutString(key, BooleanText(value), nonce, generated);
    }

    method GetInt(key: string, defaultValue: Int32, generated: SecretKey) returns (r: Outcome<Int32>)
      modifies keyStore
      ensures r == ParsedOr(StoredText(prefs.entries, key, old(KeyFor(generated)), aead), ToIntOrNull, defaultValue)
      ensures keyStore.entries == KeyStoreAfterRead(old(keyStore.entries), key, generated)
    {
      var text := GetString(key, generated);
      r := ParsedOr(text, ToIntOrNull, defaultValue);
    }

    method GetLong(key: string, defaultValue: Int64, generated: SecretKey) returns (r: Outcome<Int64>)
      modifies keyStore
      ensures r == ParsedOr(StoredText(prefs.entries, key, old(KeyFor(generated)), aead), ToLongOrNull, defaultValue)
      ensures keyStore.entries == KeyStoreAfterRead(old(keyStore.entries), key, generated)
    {
      var text := GetString(key, generated);
      r := ParsedOr(text, ToLongOrNull, defaultValue);
    }

    method GetBoolean(key: string, defaultValue: bool, generated: SecretKey) returns (r: Outcome<bool>)
      modifies keyStore
      ensures r == ParsedOr(StoredText(prefs.entries, key, old(KeyFor(generated)), aead), ToBooleanStrictOrNull, defaultValue)
      ensures keyStore.entries == KeyStoreAfterRead(old(keyStore.entries), key, generated)
    {
      var text := GetString(key, generated);
      r := ParsedOr(text, ToBooleanStrictOrNull, defaultValue);
    }

    method PutObject<T>(key: string, obj: T, serializer: Serializer<T>, nonce: string, generated: SecretKey)
      modifies prefs, keyStore
      ensures prefs.entries == WriteSealed(old(prefs.entries), key, aead.seal(old(KeyFor(generated)), serializer.encode(obj), nonce), nonce)
      ensures keyStore.entries == EntriesAfterLookup(old(keyStore.entries), keyAlias, generated)
    {
      var jsonString := serializer.encode(obj);
      PutString(key, jsonString, nonce, generated);
    }

    method GetObject<T>(key: string, serializer: Serializer<T>, generated: SecretKey) returns (r: Outcome<Option<T>>)
      modifies keyStore
      ensures r == DecodedObject(StoredText(prefs.entries, key, old(KeyFor(generated)), aead), serializer)
      ensures keyStore.entries == KeyStoreAfterRead(old(keyStore.entries), key, generated)
    {
      var text := GetString(key, generated);
      r := DecodedObject(text, serializer);
    }

    method Remove(key: string)
      modifies prefs
      ensures prefs.entries == RemoveEntries(old(prefs.entries), key)
    {
      prefs.entries := RemoveEntries(prefs.entries, key);
    }

    /** Empties the whole backing file, entries written by others included. */
    method Clear()
      modifies prefs
      ensures prefs.entries == map[]
    {
      prefs.entries := map[];
    }
  }

  /** Verbatim duplicate of `PrivatePreferences`; same file layout, same key alias. */
  class SecurePreferencesHelper {
    /** The backing file, opened with `getSharedPreferences(prefsName, MODE_PRIVATE)`. */
    const prefs: SharedPreferences
    /** The platform key store, shared by every instance. */
    const keyStore: KeyStore
    /** AES-GCM with its Base64 and UTF-8 conversions. */
    const aead: Aead
    /** The key alias: one constant, whatever the file name. */
    const keyAlias: string := KEY_ALIAS

    constructor (context: Context, prefsName: string, keyStore: KeyStore, aead: Aead)
      requires context.Valid()
      modifies context
      ensures context.Valid()
      ensures prefs.name == prefsName && this.keyStore == keyStore && this.aead == aead
      ensures context.files == old(context.files)[prefsName := prefs]
      ensures prefsName in old(context.files) ==> prefs == old(context.files)[prefsName]
      ensures prefsName !in old(context.files) ==> fresh(prefs) && prefs.entries == map[]
    {
      var file := context.GetSharedPreferences(prefsName);
      prefs := file;
      this.keyStore := keyStore;
      this.aead := aead;
    }

    /** The key `getSecretKey` would hand out now, `generated` being what the key generator would create. */
    ghost function KeyFor(generated: SecretKey): SecretKey
      reads keyStore
    {
      KeyInUse(keyStore.entries, keyAlias, generated)
    }

    /** The key store after a getter: it only looks the key up when both entries of `key` are present and decode. */
    ghost function KeyStoreAfterRead(before: map<string, KeyEntry>, key: string, generated: SecretKey): map<string, KeyEntry>
      reads prefs
    {
      if LooksUpKey(prefs.entries, key, aead) then EntriesAfterLookup(before, keyAlias, generated) else before
    }

    method GetSecretKey(generated: SecretKey) returns (secret: SecretKey)
      modifies keyStore
      ensures secret == old(KeyFor(generated))
      ensures keyStore.entries == EntriesAfterLookup(old(keyStore.entries), keyAlias, generated)
      ensures StoredSecretKey(keyStore.entries, keyAlias) == Some(secret)
    {
      if keyAlias in keyStore.entries {
        var entry := keyStore.entries[keyAlias];
        if entry.SecretKeyEntry? {
          return entry.key;
        }
      }
      keyStore.entries := keyStore.entries[keyAlias := SecretKeyEntry(generated)];
      secret := generated;
    }

    /** `nonce` is the Base64 text of the random IV the cipher picks. */
    method Encrypt(plain: string, nonce: string, generated: SecretKey) returns (data: string, iv: string)
      modifies keyStore
      ensures data == aead.seal(old(KeyFor(generated)), plain, nonce) && iv == nonce
      ensures keyStore.entries == EntriesAfterLookup(old(keyStore.entries), keyAlias, generated)
    {
      var secret := GetSecretKey(generated);
      data := aead.seal(secret, plain, nonce);
      iv := nonce;
    }

    method Decrypt(data: string, iv: string, generated: SecretKey) returns (plain: Outcome<string>)
      modifies keyStore
      ensures plain == Unsealed(aead, old(KeyFor(generated)), data, iv)
      ensures keyStore.entries ==
        if aead.decodes(data, iv) then EntriesAfterLookup(old(keyStore.entries), keyAlias, generated) else old(keyStore.entries)
    {
      if !aead.decodes(data, iv) {
        return Thrown(DecryptionFailed);
      }
      var secret := GetSecretKey(generated);
      plain := Unsealed(aead, secret, data, iv);
    }

    method PutString(key: string, value: string, nonce: string, generated: SecretKey)
      modifies prefs, keyStore
      ensures prefs.entries == WriteSealed(old(prefs.entries), key, aead.seal(old(KeyFor(generated)), value, nonce), nonce)
      ensures keyStore.entries == EntriesAfterLookup(old(keyStore.entries), keyAlias, generated)
    {
      var data, iv := Encrypt(value, nonce, generated);
      prefs.entries := WriteSealed(prefs.entries, key, data, iv);
    }

    method GetString(key: string, generated: SecretKey) returns (text: Outcome<Option<string>>)
      modifies keyStore
      ensures text == StoredText(prefs.entries, key, old(KeyFor(generated)), aead)
      ensures keyStore.entries == KeyStoreAfterRead(old(keyStore.entries), key, generated)
    {
      if DataEntry(key) !in prefs.entries {
        return Returned(None);
      }
      var data := prefs.entries[DataEntry(key)];
      if IvEntry(key) !in prefs.entries {
        return Returned(None);
      }
      var iv := prefs.entries[IvEntry(key)];
      var plain := Decrypt(data, iv, generated);
      match plain {
        case Thrown(f) => text := Thrown(f);
        case Returned(s) => text := Returned(Some(s));
      }
    }

    method PutInt(key: string, value: Int32, nonce: string, generated: SecretKey)
      modifies prefs, keyStore
      ensures prefs.entries == WriteSealed(old(prefs.entries), key, aead.seal(old(KeyFor(generated)), IntText(value), nonce), nonce)
      ensures keyStore.entries == EntriesAfterLookup(old(keyStore.entries), keyAlias, generated)
    {
      PutString(key, IntText(value), nonce, generated);
    }

    method PutLong(key: string, value: Int64, nonce: string, generated: SecretKey)
      modifies prefs, keyStore
      ensures prefs.entries == WriteSealed(old(prefs.entries), key, aead.seal(old(KeyFor(generated)), IntText(value), nonce), nonce)
      ensures keyStore.entries == EntriesAfterLookup(old(keyStore.entries), keyAlias, generated)
    {
      PutString(key, IntText(value), nonce, generated);
    }

    method PutBoolean(key: string, value: bool, nonce: string, generated: SecretKey)
      modifies prefs, keyStore
      ensures prefs.entries == WriteSealed(old(prefs.entries), key, aead.seal(old(KeyFor(generated)), BooleanText(value), nonce), nonce)
      ensures keyStore.entries == EntriesAfterLookup(old(keyStore.entries), keyAlias, generated)
    {
      PutString(key, BooleanText(value), nonce, generated);
    }

    method GetInt(key: string, defaultValue: Int32, generated: SecretKey) returns (r: Outcome<Int32>)
      modifies keyStore
      ensures r == ParsedOr(StoredText(prefs.entries, key, old(KeyFor(generated)), aead), ToIntOrNull, defaultValue)
      ensures keyStore.entries == KeyStoreAfterRead(old(keyStore.entries), key, generated)
    {
      var text := GetString(key, generated);
      r := ParsedOr(text, ToIntOrNull, defaultValue);
    }

    method GetLong(key: string, defaultValue: Int64, generated: SecretKey) returns (r: Outcome<Int64>)
      modifies keyStore
      ensures r == ParsedOr(StoredText(prefs.entries, key, old(KeyFor(generated)), aead), ToLongOrNull, defaultValue)
      ensures keyStore.entries == KeyStoreAfterRead(old(keyStore.entries), key, generated)
    {
      var text := GetString(key, generated);
      r := ParsedOr(text, ToLongOrNull, defaultValue);
    }

    method GetBoolean(key: string, defaultValue: bool, generated: SecretKey) returns (r: Outcome<bool>)
      modifies keyStore
      ensures r == ParsedOr(StoredText(prefs.entries, key, old(KeyFor(generated)), aead), ToBooleanStrictOrNull, defaultValue)
      ensures keyStore.entries == KeyStoreAfterRead(old(keyStore.entries), key, generated)
    {
      var text := GetString(key, generated);
      r := ParsedOr(text, ToBooleanStrictOrNull, defaultValue);
    }

    method PutObject<T>(key: string, obj: T, serializer: Serializer<T>, nonce: string, generated: SecretKey)
      modifies prefs, keyStore
      ensures prefs.entries == WriteSealed(old(prefs.entries), key, aead.seal(old(KeyFor(generated)), serializer.encode(obj), nonce), nonce)
      ensures keyStore.entries == EntriesAfterLookup(old(keyStore.entries), keyAlias, generated)
    {
      var jsonString := serializer.encode(obj);
      PutString(key, jsonString, nonce, generated);
    }

    method GetObject<T>(key: string, serializer: Serializer<T>, generated: SecretKey) returns (r: Outcome<Option<T>>)
      modifies keyStore
      ensures r == DecodedObject(StoredText(prefs.entries, key, old(KeyFor(generated)), aead), serializer)
      ensures keyStore.entries == KeyStoreAfterRead(old(keyStore.entries), key, generated)
    {
      var text := GetString(key, generated);
      r := DecodedObject(text, serializer);
    }

    method Remove(key: string)
      modifies prefs
      ensures prefs.entries == RemoveEntries(old(prefs.entries), key)
    {
      prefs.entries := RemoveEntries(prefs.entries, key);
    }

    /** Empties the whole backing file, entries written by others included. */
    method Clear()
      modifies prefs
      ensures prefs.entries == map[]
    {
      prefs.entries := map[];
    }
  }
}
