/**
 * The registries that hand out one store instance per client id, each
 * bound to the backing file "secure_prefs_" + client id. The two classes
 * are the same registry over the two store classes.
 */
module Registry {
  import opened Outcomes
  import opened Crypto
  import opened Backing
  import opened Layout
  import opened Store

  /** The backing file name of a client: the client id after a fixed prefix. */
  function PrefsName(clientId: string): (name: string)
    ensures |name| == 13 + |clientId| && name[13..] == clientId
  {
    "secure_prefs_" + clientId
  }

  /** Distinct client ids get distinct files: the common prefix can be cut off. */
  lemma {:induction false} PrefsNameInjective(a: string, b: string)
    requires a != b
    ensures PrefsName(a) != PrefsName(b)
  {
    var prefix := "secure_prefs_";
    assert PrefsName(a)[|prefix|..] == a && PrefsName(b)[|prefix|..] == b;
  }

  /** The registry of `PrivatePreferences` instances. */
  class PrivatePreferencesManager {
    /** The platform key store every instance is given. */
    const keyStore: KeyStore
    /** The platform's AES-GCM provider every instance is given. */
    const aead: Aead
    /** Live instances by client id. */
    var instances: map<string, PrivatePreferences>

    /** Every cached instance is bound to its client's file and to the shared platform objects. */
    ghost predicate Valid()
      reads this
    {
      forall id :: id in instances ==>
        && instances[id].prefs.name == PrefsName(id)
        && instances[id].keyStore == keyStore
        && instances[id].aead == aead
    }

    /** Every cached instance holds the object `context` hands out for its file. */
    ghost predicate OpenedIn(context: Context)
      reads this, context
    {
      forall id :: id in instances ==>
        PrefsName(id) in context.files && context.files[PrefsName(id)] == instances[id].prefs
    }

    /** The registry as the process starts: empty. */
    constructor (keyStore: KeyStore, aead: Aead)
      ensures Valid() && instances == map[]
      ensures this.keyStore == keyStore && this.aead == aead
    {
      this.keyStore := keyStore;
      this.aead := aead;
      instances := map[];
    }

    /** `instances.getOrPut(clientId) { PrivatePreferences(context, "secure_prefs_$clientId") }`. */
    method GetHelper(context: Context, clientId: string) returns (helper: PrivatePreferences)
      requires Valid() && context.Valid()
      modifies this, context
      ensures Valid() && context.Valid()
      ensures helper.prefs.name == PrefsName(clientId) && helper.keyStore == keyStore && helper.aead == aead
      ensures clientId in instances && instances[clientId] == helper
      ensures clientId in old(instances) ==>
        helper == old(instances)[clientId] && instances == old(instances) && context.files == old(context.files)
      ensures clientId !in old(instances) ==>
        && fresh(helper)
        && instances == old(instances)[clientId := helper]
        && context.files == old(context.files)[PrefsName(clientId) := helper.prefs]
        && (PrefsName(clientId) in old(context.files) ==> helper.prefs == old(context.files)[PrefsName(clientId)])
        && (PrefsName(clientId) !in old(context.files) ==> fresh(helper.prefs) && helper.prefs.entries == map[])
      ensures old(OpenedIn(context)) ==> OpenedIn(context)
      ensures old(OpenedIn(context)) ==> PrefsName(clientId) in context.files && context.files[PrefsName(clientId)] == helper.prefs
    {
      if clientId in instances {
        return instances[clientId];
      }
      helper := new PrivatePreferences(context, PrefsName(clientId), keyStore, aead);
      instances := instances[clientId := helper];
    }

    /** Drops the cached instance of `clientId`, if any; its file is untouched. */
    method ClearHelper(clientId: string)
      requires Valid()
      modifies this
      ensures Valid()
      ensures instances == old(instances) - {clientId}
    {
      instances := instances - {clientId};
    }

    /** Drops every cached instance; no file is touched. */
    method ClearAll()
      modifies this
      ensures Valid()
      ensures instances == map[]
    {
      instances := map[];
    }
  }

  /** The registry of `SecurePreferencesHelper` instances. */
  class SecurePreferencesManager {
    /** The platform key store every instance is given. */
    const keyStore: KeyStore
    /** The platform's AES-GCM provider every instance is given. */
    const aead: Aead
    /** Live instances by client id. */
    var instances: map<string, SecurePreferencesHelper>

    /** Every cached instance is bound to its client's file and to the shared platform objects. */
    ghost predicate Valid()
      reads this
    {
      forall id :: id in instances ==>
        && instances[id].prefs.name == PrefsName(id)
        && instances[id].keyStore == keyStore
        && instances[id].aead == aead
    }

    /** Every cached instance holds the object `context` hands out for its file. */
    ghost predicate OpenedIn(context: Context)
      reads this, context
    {
      forall id :: id in instances ==>
        PrefsName(id) in context.files && context.files[PrefsName(id)] == instances[id].prefs
    }

    /** The registry as the process starts: empty. */
    constructor (keyStore: KeyStore, aead: Aead)
      ensures Valid() && instances == map[]
      ensures this.keyStore == keyStore && this.aead == aead
    {
      this.keyStore := keyStore;
      this.aead := aead;
      instances := map[];
    }

    /** `instances.getOrPut(clientId) { SecurePreferencesHelper(context, "secure_prefs_$clientId") }`. */
    method GetHelper(context: Context, clientId: string) returns (helper: SecurePreferencesHelper)
      requires Valid() && context.Valid()
      modifies this, context
      ensures Valid() && context.Valid()
      ensures helper.prefs.name == PrefsName(clientId) && helper.keyStore == keyStore && helper.aead == aead
      ensures clientId in instances && instances[clientId] == helper
      ensures clientId in old(instances) ==>
        helper == old(instances)[clientId] && instances == old(instances) && context.files == old(context.files)
      ensures clientId !in old(instances) ==>
        && fresh(helper)
        && instances == old(instances)[clientId := helper]
        && context.files == old(context.files)[PrefsName(clientId) := helper.prefs]
        && (PrefsName(clientId) in old(context.files) ==> helper.prefs == old(context.files)[PrefsName(clientId)])
        && (PrefsName(clientId) !in old(context.files) ==> fresh(helper.prefs) && helper.prefs.entries == map[])
      ensures old(OpenedIn(context)) ==> OpenedIn(context)
      ensures old(OpenedIn(context)) ==> PrefsName(clientId) in context.files && context.files[PrefsName(clientId)] == helper.prefs
    {
      if clientId in instances {
        return instances[clientId];
      }
      helper := new SecurePreferencesHelper(context, PrefsName(clientId), keyStore, aead);
      instances := instances[clientId := helper];
    }

    /** Drops the cached instance of `clientId`, if any; its file is untouched. */
    method ClearHelper(clientId: string)
      requires Valid()
      modifies this
      ensures Valid()
      ensures instances == old(instances) - {clientId}
    {
      instances := instances - {clientId};
    }

    /** Drops every cached instance; no file is touched. */
    method ClearAll()
      modifies this
      ensures Valid()
      ensures instances == map[]
    {
      instances := map[];
    }
  }

  /** Removing a key and inserting it again is inserting it. */
  lemma ReinsertAfterRemove<K, V>(m: map<K, V>, k: K, v: V)
    ensures (m - {k})[k := v] == m[k := v]
  {
  }

  /** Two cached clients never share a backing file. */
  lemma DistinctClientsDistinctFiles(manager: PrivatePreferencesManager, a: string, b: string)
    requires manager.Valid()
    requires a in manager.instances && b in manager.instances && a != b
    ensures manager.instances[a].prefs != manager.instances[b].prefs
  {
    PrefsNameInjective(a, b);
  }

  /** Two lookups with no eviction in between return the same instance. */
  method LookupIsCached(manager: PrivatePreferencesManager, context: Context, clientId: string)
    returns (first: PrivatePreferences, second: PrivatePreferences)
    requires manager.Valid() && context.Valid()
    modifies manager, context
    ensures first == second
  {
    first := manager.GetHelper(context, clientId);
    second := manager.GetHelper(context, clientId);
  }

  /**
   * Evicting a client and looking it up again gives a new instance over the
   * same backing file, so everything it had persisted reads back unchanged.
   */
  method EvictionKeepsPersistedData(manager: PrivatePreferencesManager, context: Context, clientId: string)
    returns (before: PrivatePreferences, after: PrivatePreferences)
    requires manager.Valid() && context.Valid() && manager.OpenedIn(context)
    modifies manager, context
    ensures before != after
    ensures before.prefs == after.prefs && after.prefs.name == PrefsName(clientId)
    ensures manager.instances == old(manager.instances)[clientId := after]
  {
    before := manager.GetHelper(context, clientId);
    assert PrefsName(clientId) in context.files && context.files[PrefsName(clientId)] == before.prefs;
    ghost var cached := manager.instances;
    assert cached - {clientId} == old(manager.instances) - {clientId};
    manager.ClearHelper(clientId);
    after := manager.GetHelper(context, clientId);
    ReinsertAfterRemove(old(manager.instances), clientId, after);
  }

  /** `clear` through one client's instance leaves every other client's file as it was. */
  method ClearIsScopedToOneClient(manager: PrivatePreferencesManager, cleared: string, other: string)
    requires manager.Valid()
    requires cleared in manager.instances && other in manager.instances && cleared != other
    modifies manager.instances[cleared].prefs
    ensures manager.instances[cleared].prefs.entries == map[]
    ensures manager.instances[other].prefs.entries == old(manager.instances[other].prefs.entries)
  {
    DistinctClientsDistinctFiles(manager, cleared, other);
    manager.instances[cleared].Clear();
  }

  /**
   * The two registries open the same file for the same client id and both
   * classes use the same key alias, so a value written through a
   * `PrivatePreferences` reads back through a `SecurePreferencesHelper`.
   */
  method HelpersShareFilesAndKey(
    privateManager: PrivatePreferencesManager, secureManager: SecurePreferencesManager, context: Context,
    clientId: string, key: string, value: string, nonce: string, generated: SecretKey, later: SecretKey)
    returns (read: Outcome<Option<string>>)
    requires privateManager.Valid() && secureManager.Valid() && context.Valid()
    requires privateManager.OpenedIn(context) && secureManager.OpenedIn(context)
    requires privateManager.keyStore == secureManager.keyStore && privateManager.aead == secureManager.aead
    requires Sound(privateManager.aead) && privateManager.aead.ivText(nonce)
    modifies privateManager, secureManager, context, privateManager.keyStore
    modifies if PrefsName(clientId) in context.files then {context.files[PrefsName(clientId)]} else {}
    ensures read == Returned(Some(value))
  {
    var writer := privateManager.GetHelper(context, clientId);
    var reader := secureManager.GetHelper(context, clientId);
    assert reader.prefs == writer.prefs;
    ghost var entriesBefore, keysBefore := writer.prefs.entries, writer.keyStore.entries;
    ghost var secret := writer.KeyFor(generated);
    writer.PutString(key, value, nonce, generated);
    LookupSettles(keysBefore, KEY_ALIAS, generated, later);
    ReadAfterWrite(entriesBefore, key, value, nonce, secret, writer.aead);
    read := reader.GetString(key, later);
  }
}
