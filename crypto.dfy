/**
 * The cryptographic collaborators, kept abstract: the platform key store
 * that holds named keys, and AES-GCM together with the Base64 and UTF-8
 * conversions around it.
 */
module Crypto {
  import opened Outcomes

  /** An opaque handle to a key that never leaves the key store. */
  datatype SecretKey = SecretKey(handle: nat)

  /** What a key-store alias can hold: a secret key, or some other kind of entry. */
  datatype KeyEntry = SecretKeyEntry(key: SecretKey) | OtherEntry

  /**
   * Authenticated encryption as this library uses it.
   * - `seal(key, plain, iv)` is the Base64 text of the AES-GCM ciphertext and
   *   tag of the UTF-8 bytes of `plain` under `key` and the IV whose Base64
   *   text is `iv`.
   * - `ivText(iv)` says that `iv` is a text `encrypt` can produce for the IV:
   *   the Base64 text of an IV the cipher drew.
   * - `decodes(data, iv)` says that both stored texts are valid Base64, so
   *   that `Base64.decode` does not throw; `decrypt` decodes them before it
   *   asks for the key.
   * - `unseal(key, data, iv)` decrypts a decodable pair and decodes the UTF-8;
   *   `None` stands for any exception the cipher throws (bad IV, tag mismatch).
   */
  datatype Aead = Aead(
    seal: (SecretKey, string, string) -> string,
    ivText: string -> bool,
    decodes: (string, string) -> bool,
    unseal: (SecretKey, string, string) -> Option<string>)

  /**
   * The one property of AES-GCM and Base64 the store relies on: what `seal`
   * produces, with an IV text the cipher produced, decodes, and decryption
   * under the same key and IV inverts it. Nothing is asked of IV texts
   * `encrypt` never produces.
   */
  ghost predicate Sound(aead: Aead)
  {
    forall key, plain, iv | aead.ivText(iv) ::
      aead.decodes(aead.seal(key, plain, iv), iv) && aead.unseal(key, aead.seal(key, plain, iv), iv) == Some(plain)
  }

  /** The process-wide `AndroidKeyStore`: aliases to entries. */
  class KeyStore {
    var entries: map<string, KeyEntry>

    constructor (entries: map<string, KeyEntry>)
      ensures this.entries == entries
    {
      this.entries := entries;
    }
  }

  /** The secret key stored under `alias`, if the alias holds one. */
  function StoredSecretKey(entries: map<string, KeyEntry>, alias: string): Option<SecretKey>
  {
    if alias in entries && entries[alias].SecretKeyEntry? then Some(entries[alias].key) else None
  }

  /**
   * The key `getSecretKey` hands out: the stored secret key, or else the one
   * the key generator creates (`generated`, standing for its random output).
   */
  function KeyInUse(entries: map<string, KeyEntry>, alias: string, generated: SecretKey): (key: SecretKey)
    ensures StoredSecretKey(entries, alias).Some? ==> key == StoredSecretKey(entries, alias).value
    ensures StoredSecretKey(EntriesAfterLookup(entries, alias, generated), alias) == Some(key)
  {
    match StoredSecretKey(entries, alias)
    case Some(key) => key
    case None => generated
  }

  /** The key store after `getSecretKey`: generation registers the new key under the alias, replacing any other entry. */
  function EntriesAfterLookup(entries: map<string, KeyEntry>, alias: string, generated: SecretKey): (after: map<string, KeyEntry>)
    ensures after.Keys == entries.Keys + {alias}
    ensures StoredSecretKey(after, alias).Some?
    ensures StoredSecretKey(entries, alias).Some? ==> after == entries
    ensures forall a :: a in entries && a != alias ==> after[a] == entries[a]
  {
    if StoredSecretKey(entries, alias).Some? then entries else entries[alias := SecretKeyEntry(generated)]
  }

  /**
   * Fetch-if-present-else-generate settles after one call: the key handed
   * out is then stored under the alias, and every later call, whatever the
   * generator would produce, hands out the same key and changes nothing.
   */
  lemma LookupSettles(entries: map<string, KeyEntry>, alias: string, generated: SecretKey, later: SecretKey)
    ensures var after := EntriesAfterLookup(entries, alias, generated);
      && StoredSecretKey(after, alias) == Some(KeyInUse(entries, alias, generated))
      && KeyInUse(after, alias, later) == KeyInUse(entries, alias, generated)
      && EntriesAfterLookup(after, alias, later) == after
  {
  }

  /** A lookup touches no alias but its own. */
  lemma LookupKeepsOtherAliases(entries: map<string, KeyEntry>, alias: string, generated: SecretKey, other: string)
    requires other != alias
    ensures var after := EntriesAfterLookup(entries, alias, generated);
      (other in after <==> other in entries) && (other in entries ==> after[other] == entries[other])
  {
  }
}
