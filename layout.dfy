/**
 * How the encrypted store lays logical keys out in its backing file, and
 * what each getter makes of that file. Both store classes are specified by
 * these functions.
 */
module Layout {
  import opened Outcomes
  import opened Text
  import opened Crypto

  /** Backing entry holding the Base64 ciphertext of logical key `key`. */
  function DataEntry(key: string): string { key + "_data" }

  /** Backing entry holding the Base64 IV of logical key `key`. */
  function IvEntry(key: string): string { key + "_iv" }

  /** The two backing entries a logical key occupies. */
  function EntriesOf(key: string): set<string> { {DataEntry(key), IvEntry(key)} }

  /**
   * Entry names never collide: a data entry ends in 'a' and an IV entry in
   * 'v', and each suffix can be cut off to recover the logical key.
   */
  lemma {:induction false} EntryNamesDistinct(k1: string, k2: string)
    ensures DataEntry(k1) != IvEntry(k2)
    ensures DataEntry(k1) == DataEntry(k2) ==> k1 == k2
    ensures IvEntry(k1) == IvEntry(k2) ==> k1 == k2
  {
    var d, v := DataEntry(k1), IvEntry(k2);
    assert d[|d| - 1] == 'a' && v[|v| - 1] == 'v';
    if DataEntry(k1) == DataEntry(k2) {
      assert k1 == DataEntry(k1)[..|k1|] && k2 == DataEntry(k2)[..|k2|];
    }
    if IvEntry(k1) == IvEntry(k2) {
      assert k1 == IvEntry(k1)[..|k1|] && k2 == IvEntry(k2)[..|k2|];
    }
  }

  /** Distinct logical keys occupy disjoint backing entries. */
  lemma DistinctKeysDisjointEntries(k1: string, k2: string)
    requires k1 != k2
    ensures EntriesOf(k1) !! EntriesOf(k2)
  {
    EntryNamesDistinct(k1, k2);
    EntryNamesDistinct(k2, k1);
  }

  /** The backing map once `putString`'s edit has committed the sealed pair. */
  function WriteSealed(m: map<string, string>, key: string, data: string, iv: string): (m': map<string, string>)
    ensures m'.Keys == m.Keys + EntriesOf(key)
    ensures m'[DataEntry(key)] == data && m'[IvEntry(key)] == iv
    ensures forall e :: e in m && e !in EntriesOf(key) ==> m'[e] == m[e]
  {
    EntryNamesDistinct(key, key);
    m[DataEntry(key) := data][IvEntry(key) := iv]
  }

  /** The backing map once `remove`'s edit has committed. */
  function RemoveEntries(m: map<string, string>, key: string): (m': map<string, string>)
    ensures m'.Keys == m.Keys - EntriesOf(key)
    ensures forall e :: e in m' ==> m'[e] == m[e]
  {
    m - EntriesOf(key)
  }

  /** The stored (data, iv) pair of `key`, present only when both halves are. */
  function SealedPair(m: map<string, string>, key: string): Option<(string, string)>
  {
    if DataEntry(key) in m && IvEntry(key) in m then Some((m[DataEntry(key)], m[IvEntry(key)])) else None
  }

  /**
   * `decrypt` followed by UTF-8 decoding: the plaintext, or the exception it
   * throws. Undecodable Base64 throws before the key is used.
   */
  function Unsealed(aead: Aead, secret: SecretKey, data: string, iv: string): Outcome<string>
  {
    if !aead.decodes(data, iv) then Thrown(DecryptionFailed)
    else
      match aead.unseal(secret, data, iv)
      case None => Thrown(DecryptionFailed)
      case Some(text) => Returned(text)
  }

  /** Whether `getString(key)` gets as far as `getSecretKey`: both entries present and both valid Base64. */
  predicate LooksUpKey(m: map<string, string>, key: string, aead: Aead)
  {
    match SealedPair(m, key)
    case None => false
    case Some(pair) => aead.decodes(pair.0, pair.1)
  }

  /** What `getString(key)` returns on backing map `m` when `getSecretKey` hands out `secret`. */
  function StoredText(m: map<string, string>, key: string, secret: SecretKey, aead: Aead): (r: Outcome<Option<string>>)
    ensures r.Returned? && r.value.Some? ==> LooksUpKey(m, key, aead)
    ensures SealedPair(m, key).Some? && !LooksUpKey(m, key, aead) ==> r == Thrown(DecryptionFailed)
  {
    match SealedPair(m, key)
    case None => Returned(None)
    case Some(pair) =>
      match Unsealed(aead, secret, pair.0, pair.1)
      case Thrown(f) => Thrown(f)
      case Returned(text) => Returned(Some(text))
  }

  /** A typed getter: `getString(key)?.parse() ?: default`; an exception from `getString` passes through. */
  function ParsedOr<T>(text: Outcome<Option<string>>, parse: string -> Option<T>, default: T): (r: Outcome<T>)
    ensures r.Returned? && r.value != default ==> text.Returned? && text.value.Some? && parse(text.value.value) == Some(r.value)
  {
    match text
    case Thrown(f) => Thrown(f)
    case Returned(None) => Returned(default)
    case Returned(Some(s)) =>
      match parse(s)
      case Some(v) => Returned(v)
      case None => Returned(default)
  }

  /**
   * A JSON codec for one type `T`, standing for `json` with a `KSerializer<T>`.
   * `decode` giving `None` is a thrown `SerializationException`. `isNull(v)`
   * says that `v` is Kotlin's null, a value of `T` only when the serializer
   * is nullable; `getObject`'s result type `T?` does not tell it from an
   * absent key.
   */
  datatype Serializer<!T> = Serializer(encode: T -> string, decode: string -> Option<T>, isNull: T -> bool)

  /** `getObject`: null when `getString` is null or the text decodes to null, otherwise the decoded object or the decoder's exception. */
  function DecodedObject<T>(text: Outcome<Option<string>>, serializer: Serializer<T>): (r: Outcome<Option<T>>)
    ensures text == Returned(None) ==> r == Returned(None)
    ensures r == Returned(None) && text.Returned? && text.value.Some? ==>
              serializer.decode(text.value.value).Some? && serializer.isNull(serializer.decode(text.value.value).value)
    ensures r.Returned? && r.value.Some? ==>
              && text.Returned? && text.value.Some?
              && serializer.decode(text.value.value) == Some(r.value.value) && !serializer.isNull(r.value.value)
  {
    match text
    case Thrown(f) => Thrown(f)
    case Returned(None) => Returned(None)
    case Returned(Some(s)) =>
      match serializer.decode(s)
      case Some(v) => if serializer.isNull(v) then Returned(None) else Returned(Some(v))
      case None => Thrown(SerializationFailed)
  }

  // ---------------------------------------------------------------------
  // Properties of the layout

  /** A key reads as absent exactly when one of its two entries is missing; a complete pair never reads as absent. */
  lemma AbsentIffHalfMissing(m: map<string, string>, key: string, secret: SecretKey, aead: Aead)
    ensures StoredText(m, key, secret, aead) == Returned(None) <==> (DataEntry(key) !in m || IvEntry(key) !in m)
  {
  }

  /**
   * A read that stops before `getSecretKey` does not depend on the key: a
   * missing half gives null, undecodable Base64 gives the exception.
   */
  lemma ReadWithoutLookupIgnoresKey(m: map<string, string>, key: string, s1: SecretKey, s2: SecretKey, aead: Aead)
    requires !LooksUpKey(m, key, aead)
    ensures StoredText(m, key, s1, aead) == StoredText(m, key, s2, aead)
    ensures StoredText(m, key, s1, aead).Returned? <==> SealedPair(m, key).None?
  {
  }

  /** `putString` then `getString` gives back the value, for any AEAD whose decryption inverts its encryption. */
  lemma ReadAfterWrite(m: map<string, string>, key: string, value: string, iv: string, secret: SecretKey, aead: Aead)
    requires Sound(aead) && aead.ivText(iv)
    ensures StoredText(WriteSealed(m, key, aead.seal(secret, value, iv), iv), key, secret, aead) == Returned(Some(value))
  {
  }

  /** Writing one logical key leaves what every other key reads unchanged. */
  lemma WriteLeavesOtherKeys(m: map<string, string>, written: string, other: string, data: string, iv: string,
                             secret: SecretKey, aead: Aead)
    requires written != other
    ensures StoredText(WriteSealed(m, written, data, iv), other, secret, aead) == StoredText(m, other, secret, aead)
  {
    DistinctKeysDisjointEntries(written, other);
  }

  /** After `remove(key)`, `getString(key)` is null and `getInt(key, d)` is `d`. */
  lemma ReadAfterRemove(m: map<string, string>, key: string, secret: SecretKey, aead: Aead, default: Int32)
    ensures StoredText(RemoveEntries(m, key), key, secret, aead) == Returned(None)
    ensures ParsedOr(StoredText(RemoveEntries(m, key), key, secret, aead), ToIntOrNull, default) == Returned(default)
  {
  }

  /** Removing one logical key leaves what every other key reads unchanged. */
  lemma RemoveLeavesOtherKeys(m: map<string, string>, removed: string, other: string, secret: SecretKey, aead: Aead)
    requires removed != other
    ensures StoredText(RemoveEntries(m, removed), other, secret, aead) == StoredText(m, other, secret, aead)
  {
    DistinctKeysDisjointEntries(removed, other);
  }

  /** After `clear`, every key reads as absent. */
  lemma ReadAfterClear(key: string, secret: SecretKey, aead: Aead)
    ensures StoredText(map[], key, secret, aead) == Returned(None)
  {
  }

  /** `putInt` then `getInt` returns the stored value for every `Int`, whatever the default. */
  lemma IntReadAfterWrite(m: map<string, string>, key: string, value: Int32, iv: string, secret: SecretKey,
                          aead: Aead, default: Int32)
    requires Sound(aead) && aead.ivText(iv)
    ensures ParsedOr(StoredText(WriteSealed(m, key, aead.seal(secret, IntText(value), iv), iv), key, secret, aead),
                     ToIntOrNull, default) == Returned(value)
  {
    ReadAfterWrite(m, key, IntText(value), iv, secret, aead);
    IntRoundTrip(value);
  }

  /** `putLong` then `getLong` returns the stored value for every `Long`, whatever the default. */
  lemma LongReadAfterWrite(m: map<string, string>, key: string, value: Int64, iv: string, secret: SecretKey,
                           aead: Aead, default: Int64)
    requires Sound(aead) && aead.ivText(iv)
    ensures ParsedOr(StoredText(WriteSealed(m, key, aead.seal(secret, IntText(value), iv), iv), key, secret, aead),
                     ToLongOrNull, default) == Returned(value)
  {
    ReadAfterWrite(m, key, IntText(value), iv, secret, aead);
    LongRoundTrip(value);
  }

  /** `putBoolean` then `getBoolean` returns the stored value, whatever the default. */
  lemma BooleanReadAfterWrite(m: map<string, string>, key: string, value: bool, iv: string, secret: SecretKey,
                              aead: Aead, default: bool)
    requires Sound(aead) && aead.ivText(iv)
    ensures ParsedOr(StoredText(WriteSealed(m, key, aead.seal(secret, BooleanText(value), iv), iv), key, secret, aead),
                     ToBooleanStrictOrNull, default) == Returned(value)
  {
    ReadAfterWrite(m, key, BooleanText(value), iv, secret, aead);
  }

  /**
   * `putObject` then `getObject` returns the object whenever the JSON codec
   * round-trips it; a null object, which only a nullable serializer writes,
   * reads back as null.
   */
  lemma ObjectReadAfterWrite<T>(m: map<string, string>, key: string, obj: T, serializer: Serializer<T>, iv: string,
                                secret: SecretKey, aead: Aead)
    requires Sound(aead) && aead.ivText(iv)
    requires serializer.decode(serializer.encode(obj)) == Some(obj)
    ensures DecodedObject(StoredText(WriteSealed(m, key, aead.seal(secret, serializer.encode(obj), iv), iv), key, secret, aead),
                          serializer) == if serializer.isNull(obj) then Returned(None) else Returned(Some(obj))
  {
    ReadAfterWrite(m, key, serializer.encode(obj), iv, secret, aead);
  }

  /** Any text other than exactly "true" or "false" makes `getBoolean` return its default. */
  lemma BooleanDefaultUnlessExact(s: string, default: bool)
    requires s != "true" && s != "false"
    ensures ParsedOr(Returned(Some(s)), ToBooleanStrictOrNull, default) == Returned(default)
  {
  }

  /**
   * A typed getter yields its default only for an absent key or unparsable
   * text; a decryption failure is never turned into the default, and the
   * same holds for `getObject`.
   */
  lemma TypedGetterOutcomes<T>(text: Outcome<Option<string>>, parse: string -> Option<T>, default: T,
                               serializer: Serializer<T>)
    ensures ParsedOr(text, parse, default).Thrown? <==> text.Thrown?
    ensures text.Thrown? ==> ParsedOr(text, parse, default) == Thrown(text.fault)
    ensures text.Thrown? ==> DecodedObject(text, serializer) == Thrown(text.fault)
    ensures text == Returned(None) ==> ParsedOr(text, parse, default) == Returned(default)
    ensures ParsedOr(text, parse, default) == Returned(default) && text.Returned? && text.value.Some? ==>
              parse(text.value.value).None? || parse(text.value.value) == Some(default)
  {
  }

  /**
   * The AEAD binds a sealed pair to nothing but the secret key and the IV:
   * a pair that reads as `value` under one logical key reads as `value`
   * when copied under any other logical key or into any other backing file
   * read with the same secret key. Since every namespace uses the same
   * constant key alias, that includes the files of other namespaces.
   */
  lemma SealedPairNotBoundToKey(m: map<string, string>, from: string, target: map<string, string>, to: string,
                                secret: SecretKey, aead: Aead, value: string)
    requires StoredText(m, from, secret, aead) == Returned(Some(value))
    ensures StoredText(WriteSealed(target, to, m[DataEntry(from)], m[IvEntry(from)]), to, secret, aead) == Returned(Some(value))
  {
  }
}
