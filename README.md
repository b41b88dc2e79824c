# Rackspace cloud client: concurrent maps, state managers and client decision logic

This project models the core of the Rackspace Cloud Servers client library for Google App
Engine and proves properties about that model. It has three parts.

**Two-tier concurrent map.** The central piece is a `ConcurrentMap` with atomic conditional
operations: `putIfAbsent`, `get`, both forms of `replace`, and the conditional `remove`.
It is built from two tiers:

- `DatastoreConcurrentMap`: the durable, authoritative tier. One entity per key hash in a
  namespace, and one transaction per operation.
- `MemcacheConcurrentMap`: the cache tier. Versioned entries, `null` tombstones, and
  compare-and-set writes.
- `GAEStateManager`: coordinates the two tiers. The datastore's answer is always the
  result, and the cache is reconciled afterwards on a best-effort basis.

**Registries and service setup.**

- `DefaultStateManager` and `CloudServersServiceFactory`: memoising registries keyed by a
  sum of hash codes.
- The settings loop of `CloudServersServiceImpl`.
- The response cache of that service: time-to-live freshness, newest-response-wins
  insertion, and the request fingerprint.

**Client and HTTP logic.**

- `RackspaceCloudClient`: the bounded retry loop of `makeCall`, which clears the token
  after a 401 and retries without authenticating again; the authentication status check;
  parsing of the management URL; and the compression and transport flags.
- `GAEHttpConduit`: URL assembly, the lazily cached default URL, the default request
  method, header joining and splitting, and the status-code error rule.

Design of the model:

- **Mutable objects.** Objects the library mutates are Dafny classes: the two backends, the
  map adapters, the coordinator, the registries, the client, the interceptor and the
  conduit. Each method is proved against a specification function of the old state. The
  specification functions then carry the lemmas that state what the library promises.
- **Java `null`.** It is `None`.
- **Exceptions.** They are `Err` results. A call that throws changes nothing it had not
  already changed.
- **Java `int` and `long` arithmetic.** It wraps explicitly (`Wrap32`, `Wrap64`).
- **Values the code reads from outside** are parameters:
  - the clock;
  - the HTTP responses;
  - which backend calls fail;
  - the outcome of each remote call;
  - whether the JDK's `URI` parser accepts a string;
  - the identity hash of the `AccountBase` enum constants.

Modules:

- `wrappers.dfy`: `Option`, `Result` and `Step`, a result paired with the new state.
- `java_lang.dfy`: the Java library semantics the code relies on:
  - `int`/`long` wrap-around;
  - `String.hashCode`, `Long.hashCode`, `Integer.toString`;
  - `String.split`, `lastIndexOf`, `Long.parseLong`.
- `datastore_map.dfy`: the datastore tier and the datastore service it calls.
- `memcache_map.dfy`: the cache tier and the memcache service it calls.
- `state_manager.dfy`: the coordinator.
- `concurrent_map_script.dfy`: the scripted exercise of the concurrent-map test, proved on
  all three maps.
- `default_state_manager.dfy`, `account_base.dfy`, `service_impl.dfy`,
  `service_factory.dfy`, `cloud_client.dfy`, `http_conduit.dfy`: the rest of the core.

## Model

| member | source | states |
|---|---|---|
| DatastoreMap.EntityKeyInjective | src/main/java/com/pynode/rackspace/service/utils/DatastoreConcurrentMap.java:238-246 | Two map keys share a datastore entity exactly when they are in the same namespace and have the same hash code. The stored key is never compared. |
| DatastoreMap.PutIfAbsentObserved | src/main/java/com/pynode/rackspace/service/utils/DatastoreConcurrentMap.java:58-93 | putIfAbsent returns the value previously stored under the key's slot, or null. It stores the pair only when the slot was empty. Every other key reads as before, except keys sharing the slot. |
| DatastoreMap.ReplaceIfEqualObserved | src/main/java/com/pynode/rackspace/service/utils/DatastoreConcurrentMap.java:115-154 | replace(k, old, new) returns true iff the slot exists and holds a value equal to old. Only then does the key read as new. Otherwise the store is unchanged. |
| DatastoreMap.ReplaceObserved | src/main/java/com/pynode/rackspace/service/utils/DatastoreConcurrentMap.java:157-192 | replace(k, v) returns the previous value and overwrites it when the slot exists. On an empty slot it returns null and creates nothing. |
| DatastoreMap.RemoveObserved | src/main/java/com/pynode/rackspace/service/utils/DatastoreConcurrentMap.java:197-233 | remove(k, v) deletes the slot and returns true iff it exists and holds a value equal to v. Otherwise nothing changes. |
| DatastoreMap.TransactionsStayInNamespace | src/main/java/com/pynode/rackspace/service/utils/DatastoreConcurrentMap.java:63 | No transaction changes an entity outside the map's namespace. |
| DatastoreMap.DatastoreConcurrentMap.constructor | src/main/java/com/pynode/rackspace/service/utils/DatastoreConcurrentMap.java:44-49 | The map is bound to its namespace and datastore. |
| DatastoreMap.DatastoreConcurrentMap.PutIfAbsent | src/main/java/com/pynode/rackspace/service/utils/DatastoreConcurrentMap.java:58-93 | A null key or value fails with IllegalArgumentException before the store is touched. Otherwise the result and the new store are one putIfAbsent transaction on the key's slot. |
| DatastoreMap.DatastoreConcurrentMap.Get | src/main/java/com/pynode/rackspace/service/utils/DatastoreConcurrentMap.java:98-110 | A null key fails. Otherwise get returns the slot's stored value, or null, and changes nothing. |
| DatastoreMap.DatastoreConcurrentMap.ReplaceIfEqual | src/main/java/com/pynode/rackspace/service/utils/DatastoreConcurrentMap.java:115-154 | A null argument fails and changes nothing. Otherwise the call is one conditional-replace transaction. |
| DatastoreMap.DatastoreConcurrentMap.Replace | src/main/java/com/pynode/rackspace/service/utils/DatastoreConcurrentMap.java:157-192 | A null argument fails and changes nothing. Otherwise the call is one replace transaction. |
| DatastoreMap.DatastoreConcurrentMap.Remove | src/main/java/com/pynode/rackspace/service/utils/DatastoreConcurrentMap.java:197-233 | A null argument fails and changes nothing. Otherwise the call is one conditional-delete transaction. |
| MemcacheMap.CasAfterRead | src/main/java/com/pynode/rackspace/service/utils/MemcacheConcurrentMap.java:49-52 | A putIfUntouched made with the token just read succeeds iff the key is present, and it writes the new value. |
| MemcacheMap.InterveningWriteDefeatsCas | src/main/java/com/pynode/rackspace/service/utils/MemcacheConcurrentMap.java:80-85 | When versions are fresh, a write to another key leaves the read token valid. A write to the same key defeats it. |
| MemcacheMap.PutIfAbsentObserved | src/main/java/com/pynode/rackspace/service/utils/MemcacheConcurrentMap.java:37-57 | putIfAbsent on a missing or tombstoned key stores the value and returns null. On a key holding a value it returns that value and leaves it. Other keys are unchanged. |
| MemcacheMap.ReplaceIfEqualObserved | src/main/java/com/pynode/rackspace/service/utils/MemcacheConcurrentMap.java:71-89 | replace(k, old, new) returns true and stores new iff the key holds a value equal to old. A missing, tombstoned or different key gives false with no write. |
| MemcacheMap.ReplaceObserved | src/main/java/com/pynode/rackspace/service/utils/MemcacheConcurrentMap.java:91-109 | replace(k, v) on a missing or tombstoned key returns null with no write. Otherwise it stores v and returns the previous value. |
| MemcacheMap.RemoveObserved | src/main/java/com/pynode/rackspace/service/utils/MemcacheConcurrentMap.java:111-128 | remove(k, v) returns true iff the key was once set and now holds v or a tombstone. The key then stays present with a null tombstone. |
| MemcacheMap.OperationsKeepVersionsFresh | src/main/java/com/pynode/rackspace/service/utils/MemcacheConcurrentMap.java:37-128 | Every operation keeps each entry's version token distinct from any token issued later. |
| MemcacheMap.WriteKeepsVersionsFresh | src/main/java/com/pynode/rackspace/service/utils/MemcacheConcurrentMap.java:49-52 | A single memcache write keeps the version tokens fresh. |
| MemcacheMap.MemcacheConcurrentMap.constructor | src/main/java/com/pynode/rackspace/service/utils/MemcacheConcurrentMap.java:24-28 | The adapter wraps a memcache service bound to the namespace. Its own namespace field is left unassigned. |
| MemcacheMap.MemcacheConcurrentMap.PutIfAbsent | src/main/java/com/pynode/rackspace/service/utils/MemcacheConcurrentMap.java:37-57 | A null key or value fails and changes nothing. Otherwise the call is the add-then-compare-and-set putIfAbsent step. |
| MemcacheMap.MemcacheConcurrentMap.Get | src/main/java/com/pynode/rackspace/service/utils/MemcacheConcurrentMap.java:60-68 | A null key fails. Otherwise get returns the cached value, with a tombstone read as null. |
| MemcacheMap.MemcacheConcurrentMap.ReplaceIfEqual | src/main/java/com/pynode/rackspace/service/utils/MemcacheConcurrentMap.java:71-89 | A null argument fails and changes nothing. Otherwise the call is the read-then-compare-and-set conditional replace. |
| MemcacheMap.MemcacheConcurrentMap.Replace | src/main/java/com/pynode/rackspace/service/utils/MemcacheConcurrentMap.java:91-109 | A null argument fails and changes nothing. Otherwise the call is the read-then-compare-and-set replace. |
| MemcacheMap.MemcacheConcurrentMap.Remove | src/main/java/com/pynode/rackspace/service/utils/MemcacheConcurrentMap.java:111-128 | A null argument fails and changes nothing. Otherwise the call is the tombstoning remove. |
| MemcacheMap.MemcacheConcurrentMap.Equals | src/main/java/com/pynode/rackspace/service/utils/MemcacheConcurrentMap.java:131-144 | Any two instances are equal, because the namespace field is never assigned. Null is unequal; the argument is typed as this class, so an object of another class, also unequal in the library, cannot be passed. |
| MemcacheMap.MemcacheConcurrentMap.HashCode | src/main/java/com/pynode/rackspace/service/utils/MemcacheConcurrentMap.java:146-150 | Every instance has the same hash code, 97 * 7 + 0 = 679. |
| GaeStateManagement.MutationsAnswerFromDatastore | src/main/java/com/pynode/rackspace/service/utils/GAEStateManager.java:51-205 | When the datastore call succeeds, each mutating operation returns exactly the datastore tier's result. The datastore ends exactly as that tier's transaction left it, whatever the cache does. This holds for putIfAbsent both as written and with the corrected reconciliation. |
| GaeStateManagement.DatastoreFailureChangesNothing | src/main/java/com/pynode/rackspace/service/utils/GAEStateManager.java:57-61 | A datastore failure becomes a StateManagementException. Neither tier is touched. This holds for every operation, including putIfAbsent as written. |
| GaeStateManagement.GetAnswersFromDatastore | src/main/java/com/pynode/rackspace/service/utils/GAEStateManager.java:85-117 | On coherent tiers, get returns the datastore's value and never changes the datastore, whether the cache hits, misses or fails. |
| GaeStateManagement.GetHitSkipsDatastore | src/main/java/com/pynode/rackspace/service/utils/GAEStateManager.java:89-96 | A non-null cache hit is returned without touching the datastore, and nothing changes. |
| GaeStateManagement.PutIfAbsentMakesCoherent | src/main/java/com/pynode/rackspace/service/utils/GAEStateManager.java:63-78 | With the corrected reconciliation and healthy calls, after putIfAbsent the cache never holds a value other than the datastore's. |
| GaeStateManagement.GetKeepsCoherent | src/main/java/com/pynode/rackspace/service/utils/GAEStateManager.java:97-114 | Filling the cache after a miss keeps the tiers coherent. |
| GaeStateManagement.ReplaceIfEqualKeepsCoherent | src/main/java/com/pynode/rackspace/service/utils/GAEStateManager.java:121-150 | A healthy conditional replace keeps the tiers coherent. |
| GaeStateManagement.ReplaceKeepsCoherent | src/main/java/com/pynode/rackspace/service/utils/GAEStateManager.java:153-177 | A healthy replace keeps the tiers coherent. |
| GaeStateManagement.RemoveKeepsCoherent | src/main/java/com/pynode/rackspace/service/utils/GAEStateManager.java:181-205 | A healthy remove keeps the tiers coherent. |
| GaeStateManagement.OtherSlotsUntouched | src/main/java/com/pynode/rackspace/service/utils/GAEStateManager.java:51-205 | A mutation never changes what another key with a different hash reads, in either tier, under any pattern of failures. putIfAbsent is covered both as written and corrected. |
| GaeStateManagement.CacheOpsOnKeyLeaveOtherKeys | src/main/java/com/pynode/rackspace/service/utils/MemcacheConcurrentMap.java:37-128 | The cache operations on one key leave every other key's cached value unchanged. |
| GaeStateManagement.CacheReplaceRunsUnconditionally | src/main/java/com/pynode/rackspace/service/utils/GAEStateManager.java:136-147 | The cache-side conditional replace runs even when the datastore answers false, so the cache can change on a failed replace. |
| GaeStateManagement.CacheFailureLeavesStaleValue | src/main/java/com/pynode/rackspace/service/utils/GAEStateManager.java:166-174 | A swallowed cache failure leaves the answer and the datastore as if the cache step had not run, while the cache keeps a stale value. |
| GaeStateManagement.PutIfAbsentAsWrittenCachesCallerValue | src/main/java/com/pynode/rackspace/service/utils/GAEStateManager.java:65-73 | An instance: as written, putIfAbsent(0, 2) on an empty cache with 1 stored answers 1 and leaves 2 cached, so the next get answers 2. See Findings. |
| GaeStateManagement.PutIfAbsentAsWrittenLeavesCallerValue | src/main/java/com/pynode/rackspace/service/utils/GAEStateManager.java:65-73 | For every key and value: as written, with no live cached value and a different value stored, healthy calls answer the stored value, keep it in the datastore, and leave the caller's value cached, so the tiers disagree. See Findings. |
| GaeStateManagement.PutIfAbsentVariantsAgree | src/main/java/com/pynode/rackspace/service/utils/GAEStateManager.java:63-78 | putIfAbsent as written and corrected give the same answer and the same datastore. They differ only in the cache, and only when the cache held nothing and the datastore already held a value. |
| GaeStateManagement.GAEStateManager.constructor | src/main/java/com/pynode/rackspace/service/utils/GAEStateManager.java:32-36 | Both tiers are bound to the manager's own namespace. |
| GaeStateManagement.GAEStateManager.GetState | src/main/java/com/pynode/rackspace/service/utils/GAEStateManager.java:39-41 | getState returns the manager itself. |
| GaeStateManagement.GAEStateManager.PutIfAbsent | src/main/java/com/pynode/rackspace/service/utils/GAEStateManager.java:51-81 | A null argument fails before either tier is touched. Otherwise the result and both tiers follow the putIfAbsent step as written, including the cache-side putIfAbsent of the datastore's value on an empty cache, under the given failures. |
| GaeStateManagement.GAEStateManager.Get | src/main/java/com/pynode/rackspace/service/utils/GAEStateManager.java:85-117 | A null key fails. Otherwise the result and both tiers follow the get step. |
| GaeStateManagement.GAEStateManager.ReplaceIfEqual | src/main/java/com/pynode/rackspace/service/utils/GAEStateManager.java:121-150 | A null argument fails and changes nothing. Otherwise the call follows the conditional-replace step. |
| GaeStateManagement.GAEStateManager.Replace | src/main/java/com/pynode/rackspace/service/utils/GAEStateManager.java:153-177 | A null argument fails and changes nothing. Otherwise the call follows the replace step. |
| GaeStateManagement.GAEStateManager.Remove | src/main/java/com/pynode/rackspace/service/utils/GAEStateManager.java:181-205 | A null argument fails and changes nothing. Otherwise the call follows the remove step. |
| ConcurrentMapScript.StoreScript | src/test/java/com/pynode/rackspace/service/utils/GAEConcurrentMapTest.java:68-94 | On the datastore map, the ten scripted operations give exactly the asserted answers and restore the store. |
| ConcurrentMapScript.CacheScript | src/test/java/com/pynode/rackspace/service/utils/GAEConcurrentMapTest.java:50-51 | On the memcache map, the script gives the asserted answers and leaves the cache ready for the next of the repeated runs. |
| ConcurrentMapScript.TiersScript | src/test/java/com/pynode/rackspace/service/utils/GAEConcurrentMapTest.java:61-65 | Through the state manager, with putIfAbsent as written, the script gives the asserted answers, restores the datastore and leaves the cache ready again. |
| DefaultStateManagement.ConcurrentHashMap.PutIfAbsent | src/main/java/com/pynode/rackspace/service/impl/CloudServersServiceImpl.java:396 | putIfAbsent returns the present value, or null after inserting. |
| DefaultStateManagement.ConcurrentHashMap.Replace | src/main/java/com/pynode/rackspace/service/impl/CloudServersServiceImpl.java:406 | replace(k, expected, v) succeeds iff k maps to expected. |
| DefaultStateManagement.DefaultStateManager.GetState | src/main/java/com/pynode/rackspace/service/utils/DefaultStateManager.java:34-36 | getState always returns the manager's one state map. |
| DefaultStateManagement.RegistryKeyIgnoresArgumentOrder | src/main/java/com/pynode/rackspace/service/utils/DefaultStateManager.java:23 | The registry key is a wrapped sum, so swapping user name and API key gives the same key. |
| DefaultStateManagement.RegistryKeyCollision | src/main/java/com/pynode/rackspace/service/utils/DefaultStateManager.java:23 | Users "Aa" and "BB" get the same key, so they share a state manager. |
| DefaultStateManagement.RegistryKeySeparatesAccountBases | src/main/java/com/pynode/rackspace/service/utils/DefaultStateManager.java:23 | When the two account bases hash differently, they never share a key. |
| DefaultStateManagement.StateManagerRegistry.GetInstance | src/main/java/com/pynode/rackspace/service/utils/DefaultStateManager.java:21-32 | On a hit, getInstance returns the stored manager and the registry is unchanged. On a miss, a fresh manager with an empty state is stored under the key and returned. |
| ServiceImpl.CachableResponseEqualsContract | src/main/java/com/pynode/rackspace/service/impl/CloudServersServiceImpl.java:491-511 | equals is false for null and true iff the timestamps are equal. It is reflexive, symmetric and transitive, and equal responses have equal hash codes. |
| ServiceImpl.SettingNamed | src/main/java/com/pynode/rackspace/service/impl/CloudServersServiceImpl.java:70 | A name resolves only to the setting that carries exactly that name. |
| ServiceImpl.SettingNamesRoundTrip | src/main/java/com/pynode/rackspace/service/impl/CloudServersServiceImpl.java:70 | Every setting's own name resolves to it, and a name resolves to a setting exactly when it is that setting's name. |
| ServiceImpl.ValueOfExtend | src/main/java/com/pynode/rackspace/service/impl/CloudServersServiceImpl.java:68-102 | Each iteration of the settings loop decides exactly one setting's value. |
| ServiceImpl.ApplySettings | src/main/java/com/pynode/rackspace/service/impl/CloudServersServiceImpl.java:66-102 | The loop fails iff some name is unknown. Otherwise GAE compatibility and caching are on iff their value is TRUE. The TTL is the value when it is a Long, else 0. The state manager is taken only when a state manager is supplied. |
| ServiceImpl.EffectiveTimeout | src/main/java/com/pynode/rackspace/service/impl/CloudServersServiceImpl.java:375-382 | The interceptor's timeout is always positive: the supplied value when it is positive, else 30000 ms. |
| ServiceImpl.PutCachedKeepsNewest | src/main/java/com/pynode/rackspace/service/impl/CloudServersServiceImpl.java:392-411 | putCachedResponse inserts under an absent key. It replaces an entry only with a strictly newer one, so the stored timestamp never decreases, and other keys are unchanged. |
| ServiceImpl.FingerprintIgnoresOrderAndNulls | src/main/java/com/pynode/rackspace/service/impl/CloudServersServiceImpl.java:422-423 | The request hash does not depend on the order of the arguments, and a null argument adds nothing. |
| ServiceImpl.FreshWithoutOverflow | src/main/java/com/pynode/rackspace/service/impl/CloudServersServiceImpl.java:435 | The freshness test uses a wrapped long subtraction. It agrees with the mathematical `now - timestamp < timeout` whenever that difference fits in a long. |
| ServiceImpl.InterceptUsesOnlyFreshEntries | src/main/java/com/pynode/rackspace/service/impl/CloudServersServiceImpl.java:429-450 | intercept serves the cached data, with no call and no cache write, iff a fresh entry exists. Otherwise it calls through and writes back a response stamped now. |
| ServiceImpl.CachingInterceptor.constructor | src/main/java/com/pynode/rackspace/service/impl/CloudServersServiceImpl.java:379-382 | The interceptor's timeout is the effective timeout. |
| ServiceImpl.CachingInterceptor.PutCachedResponse | src/main/java/com/pynode/rackspace/service/impl/CloudServersServiceImpl.java:392-411 | The cache becomes exactly the newest-wins insertion of the response. |
| ServiceImpl.CachingInterceptor.Intercept | src/main/java/com/pynode/rackspace/service/impl/CloudServersServiceImpl.java:419-453 | The answer and the new cache are those of the interception rule, under the request's fingerprint. |
| ServiceImpl.RequestHash | src/main/java/com/pynode/rackspace/service/impl/CloudServersServiceImpl.java:422-423 | The loop computes the signature hash plus the wrapped sum of argument hashes, with null adding 0. |
| ServiceImpl.NewService | src/main/java/com/pynode/rackspace/service/impl/CloudServersServiceImpl.java:59-113 | Construction fails iff a setting name is unknown. The client is fresh, with compression on and GAE compatibility as set. An interceptor is installed iff caching is on. The state manager is the supplied one, leaving the registry unchanged. Otherwise it is the registry's: the manager already stored under the credentials' key, with the registry unchanged, or a fresh one added under that key with every other entry kept. |
| ServiceImpl.SameCredentialsShareManager | src/main/java/com/pynode/rackspace/service/utils/DefaultStateManager.java:21-31 | Two services built for the same account base and credentials, with no state manager supplied, are distinct but share one state manager. |
| ServiceFactory.SettingsHashCodeIgnoresOrder | src/main/java/com/pynode/rackspace/service/CloudServersServiceFactory.java:31 | The settings map's hash code is a sum of entry hashes, so it does not depend on entry order. The empty map hashes to 0. |
| ServiceFactory.ServiceKeySeparatesAccountBases | src/main/java/com/pynode/rackspace/service/CloudServersServiceFactory.java:31 | As written, the US and UK keys are always equal. The corrected key, which adds the account base's hash, separates them whenever the two bases hash differently. See Findings. |
| ServiceFactory.CloudServersServiceFactory.GetService | src/main/java/com/pynode/rackspace/service/CloudServersServiceFactory.java:28-40 | The store is keyed as written, without the account base. A hit returns the stored service and constructs nothing. A miss constructs a service for the requested account base, stores it under the key and returns it; the registry then changes exactly as in service construction, so the state manager is reused or freshly added under the credentials' key. The store only grows. |
| ServiceFactory.CloudServersServiceFactory.GetDefaultService | src/main/java/com/pynode/rackspace/service/CloudServersServiceFactory.java:24-26 | The three-argument form is the four-argument form with no settings, under the same key as written. It never fails. On a miss the service's state manager is the registry's, reused or freshly added. |
| ServiceFactory.UkRequestGetsUsService | src/main/java/com/pynode/rackspace/service/CloudServersServiceFactory.java:24-40 | Asking for UK after US with the same credentials returns the very service built for the US account base. |
| CloudClient.AuthenticateStatusRule | src/main/java/com/pynode/rackspace/client/RackspaceCloudClient.java:711-765 | Authentication is a no-op when a token is held. Otherwise any status other than 204 fails. Success always leaves a token, and the credentials stay consistent. |
| CloudClient.AuthenticateParsesManagementUrl | src/main/java/com/pynode/rackspace/client/RackspaceCloudClient.java:745-760 | For a management URL `base/version/id` whose base the URI parser accepts, the account id is id and the base URI is base. |
| CloudClient.AuthenticateRejectsBaseUri | src/main/java/com/pynode/rackspace/client/RackspaceCloudClient.java:748-759 | When the URI parser rejects the base, authentication fails with the account id already stored and the base URI and token unchanged. |
| CloudClient.AuthenticateFailureKeepsAccountId | src/main/java/com/pynode/rackspace/client/RackspaceCloudClient.java:748-752 | An instance: the URL "7" fails at the substring step after the account id 7 was already assigned. |
| CloudClient.AuthenticateBareIdKeepsAccountId | src/main/java/com/pynode/rackspace/client/RackspaceCloudClient.java:748-752 | Every URL without '/' that parses as a long fails at the substring step, after the account id was already assigned; the base URI and token are unchanged. |
| CloudClient.MakeCallBounded | src/main/java/com/pynode/rackspace/client/RackspaceCloudClient.java:931-953 | makeCall calls at most MAX_RETRIES = 3 times. A success is the last call's result. A retry happens only after a 401, which clears the token. |
| CloudClient.MakeCallFirstAnswer | src/main/java/com/pynode/rackspace/client/RackspaceCloudClient.java:936-948 | A first call that is not a 401 decides the result at once: its value, or a client- or server-side error. |
| CloudClient.MakeCallExhausted | src/main/java/com/pynode/rackspace/client/RackspaceCloudClient.java:943-952 | "Authentication failed after multiple attempts" happens iff all three calls answer 401. |
| CloudClient.ClientFactoryFlags | src/main/java/com/pynode/rackspace/client/RackspaceCloudClient.java:779-794 | gzip is requested iff compression is on and GAE compatibility is off. The GAE transport is used iff GAE compatibility is on. The defaults give gzip over the plain transport. |
| CloudClient.RackspaceCloudClient.constructor | src/main/java/com/pynode/rackspace/client/RackspaceCloudClient.java:99-118 | A new client has compression on, GAE compatibility off, no interceptor and no credentials. |
| CloudClient.RackspaceCloudClient.SetAppEngineCompatible | src/main/java/com/pynode/rackspace/client/RackspaceCloudClient.java:823-825 | Sets only the GAE flag. |
| CloudClient.RackspaceCloudClient.SetCompressionEnabled | src/main/java/com/pynode/rackspace/client/RackspaceCloudClient.java:841-843 | Sets only the compression flag. |
| CloudClient.RackspaceCloudClient.SetInterceptor | src/main/java/com/pynode/rackspace/client/RackspaceCloudClient.java:850-852 | Sets only the interceptor. |
| CloudClient.RackspaceCloudClient.ClientFactory | src/main/java/com/pynode/rackspace/client/RackspaceCloudClient.java:774-794 | A GAE-compatible client never requests gzip. |
| CloudClient.RackspaceCloudClient.DoAuthenticate | src/main/java/com/pynode/rackspace/client/RackspaceCloudClient.java:711-765 | The result and the new credentials are those of the authentication rule. |
| CloudClient.RackspaceCloudClient.GetVersions | src/main/java/com/pynode/rackspace/client/RackspaceCloudClient.java:679-701 | getVersions authenticates only when no token is held. Otherwise the credentials are unchanged. Success addresses the base URI. |
| CloudClient.RackspaceCloudClient.MakeCallWithRetries | src/main/java/com/pynode/rackspace/client/RackspaceCloudClient.java:931-953 | The loop's result and final token are those of the recursive retry specification. |
| CloudClient.RackspaceCloudClient.Request | src/main/java/com/pynode/rackspace/client/RackspaceCloudClient.java:144-156 | An API method such as listLimits runs the getVersions guard (lines 679-683), authenticating if needed, then the makeCall retry loop (lines 931-953). An authentication failure is returned without any call. After a successful authentication the account id and base URI are the authenticated ones and the token is the retry loop's. The flags and the interceptor never change. |
| HttpConduit.RequestMethodDefaultsToPost | src/main/java/com/pynode/cxf/utils/GAEHttpConduit.java:86-91 | The request method is the one the property names when it names a valid method, otherwise POST. |
| HttpConduit.JoinHeaderValues | src/main/java/com/pynode/cxf/utils/GAEHttpConduit.java:99-109 | The builder loop joins the values in order with ", ", with no trailing separator. |
| HttpConduit.SplitJoinedHeader | src/main/java/com/pynode/cxf/utils/GAEHttpConduit.java:238 | Splitting a joined header of one or more values on ',' gives back the values, each after the first with its leading space, when no value holds a comma. |
| HttpConduit.LastNamed | src/main/java/com/pynode/cxf/utils/GAEHttpConduit.java:236-239 | The field of a header name comes from its last occurrence. |
| HttpConduit.ParseHeaders | src/main/java/com/pynode/cxf/utils/GAEHttpConduit.java:234-243 | Every header name maps to its last value split on ','. The content type is the first value of the last header named content-type, ignoring case. |
| HttpConduit.HandleResponse | src/main/java/com/pynode/cxf/utils/GAEHttpConduit.java:214-260 | The call fails with an HTTP error iff the status is at least 400, other than 500, and no_io_exceptions is not set; that check comes first. Otherwise it fails iff the charset is unknown, and it yields every header name mapped to its last value split on ',', and the content, with null as empty. |
| HttpConduit.AssembleUrlProperties | src/main/java/com/pynode/cxf/utils/GAEHttpConduit.java:148-155 | The path info is appended only when the address does not already end with it, so appending twice is the same as once. The query follows '?'. |
| HttpConduit.GAEHttpConduit.constructor | src/main/java/com/pynode/cxf/utils/GAEHttpConduit.java:61-70 | A conduit starts with no cached URL. It takes its target from an endpoint reference only when one is given. |
| HttpConduit.GAEHttpConduit.GetURL | src/main/java/com/pynode/cxf/utils/GAEHttpConduit.java:169-184 | The default URL is created once and then cached. Without an address it throws MalformedURLException. Without createOnDemand it returns the cached value. |
| HttpConduit.GAEHttpConduit.SetupURL | src/main/java/com/pynode/cxf/utils/GAEHttpConduit.java:134-156 | With no address, path or query, it returns the default URL and records it as the message's endpoint. Otherwise it assembles the URL from the address, path and query. A message without an address leaves the default URL cached (when there is a default address); one with an address leaves the cache as it was. |
| HttpConduit.GAEHttpConduit.Prepare | src/main/java/com/pynode/cxf/utils/GAEHttpConduit.java:78-116 | The request has the set-up URL, the defaulted method and each header's values joined. The message keeps its own address, or records the default address when it had none. Afterwards the cached default URL is the default address when the message had no address, and unchanged otherwise. |
| JavaLang.StringHashCollision | src/main/java/com/pynode/rackspace/service/utils/DefaultStateManager.java:23 | String.hashCode maps "Aa" and "BB" to 2112. |
| JavaLang.LastIndexOfAppend | src/main/java/com/pynode/rackspace/client/RackspaceCloudClient.java:751-752 | lastIndexOf finds the last separator of a concatenation. |
| JavaLang.JoinSplitAll | src/main/java/com/pynode/cxf/utils/GAEHttpConduit.java:238 | Splitting on a character and joining with it gives back the string. |
| JavaLang.ParseDecimal | src/main/java/com/pynode/rackspace/client/RackspaceCloudClient.java:749 | Long.parseLong reads back a decimal rendering. |
| JavaLang.IntegerToStringInjective | src/main/java/com/pynode/rackspace/service/utils/DatastoreConcurrentMap.java:242 | Distinct hash codes give distinct entity names. |

## Left out

- Concurrency in general. Every operation is one atomic step of a single thread. The
  datastore's `do … while (rolledBack)` commit retries and the memcache compare-and-set
  retry loops each collapse to their one successful iteration, because a lost race has
  no sequential meaning.
- Cache eviction is not modelled. That includes an eviction between `contains` and
  `getIdentifiable` in `MemcacheConcurrentMap`. The cache is a plain map that only the
  adapter writes.
- A compare-and-set whose token is null is modelled as failing. This is the token a key
  gets when it vanishes between the read and the write.
- Java serialization of entries and JAXB marshalling of responses are not modelled. Values
  are opaque and compared with `equals`, and a cached response's data is opaque bytes.
- Every REST resource call is left out, as are the CXF client-factory construction, the
  thread-local client store, the network part of `authenticate`, logging, and the AspectJ
  interception machinery. A call through the interceptor is a supplied result.
- `WrappedOutputStream`, `DummyHttpURLConnection` and `GAEHttpTransportFactory` are network
  transport and are not modelled.
- `HttpConduit.HandleResponse`: does not model the `RESPONSE_CODE` write into the exchange.
  The charset lookup from the content type is a supplied function.
- Conduit URL syntax is not checked. The model does not capture the `MalformedURLException`
  of `new URL(...)` on a malformed string, nor the normalisation of `toExternalForm`. URLs
  stay strings.
- Response header maps keep names case-sensitively, as the parsing loop writes them. The
  case-insensitive lookup of CXF's header map is not modelled.
- The request method comes from five HTTP method names. These are the constants
  `HTTPMethod.valueOf` accepts.
- `String.hashCode` is taken over Dafny characters. Characters outside the Basic
  Multilingual Plane would hash differently from Java's UTF-16 code units.
- The identity hash of the `AccountBase` enum constants is a supplied function. So are the
  hash codes of opaque keys, arguments and other setting values.
- Setting names are never null, and the settings are a sequence with distinct names,
  standing for the `Map` the constructor receives.
- `NewService` / `CachingInterceptor`: the response cache is always a
  `ConcurrentHashMap`-backed state map. A `GAEStateManager` supplied as the
  `STATE_MANAGER` setting, over which the library caches responses in the two-tier map, is
  only an opaque value with a hash code here. The interceptor also holds the map directly,
  where the library reaches it through the service's state manager.
- `entrySet` of all three maps is not modelled: it only throws `UnsupportedOperationException`.
  `GAEStateManager.equals`/`hashCode` are not modelled either: they only delegate to the
  memcache map's.
- The `EntityList` iterator and the unsupported server-manager stubs of
  `CloudServersServiceImpl` are not modelled.
- `StateManagementException`, `IllegalArgumentException` and the client exceptions are
  error values without messages or causes.
- `ParseLong` accepts ASCII digits only. `Long.parseLong` also accepts the other Unicode
  decimal digits, so an account id written in those would fail here.
- `RegistryKey` / `ServiceKeyAsWritten`: user names and API keys are never null. The
  `NullPointerException` that `hashCode` on a null name or key throws is not modelled.
- `Authenticate`: whether `new URI` accepts the base is a supplied predicate. The JDK's URI
  grammar itself is not modelled.

## Findings

| source | as written | input that shows it | evidently intended | confidence | as-written member | corrected member |
|---|---|---|---|---|---|---|
| src/main/java/com/pynode/rackspace/service/utils/GAEStateManager.java:65-73 | When the cache held nothing and the datastore already held a different value r, the cache first stores the caller's value v. The follow-up `putIfAbsent(key, r)` is then a no-op, so the cache keeps v and later `get` calls answer v. | cache empty, datastore holds r, caller calls putIfAbsent(key, v) with v != r | the cache should end holding r, the value the datastore kept (replace the value just added by r) | not executed | GaeStateManagement.PutIfAbsentAsWrittenLeavesCallerValue | GaeStateManagement.PutIfAbsentMakesCoherent |
| src/main/java/com/pynode/rackspace/service/CloudServersServiceFactory.java:31 | The service key sums the hashes of user name, API key and settings, but not the account base. | the same credentials and settings requested once for US and once for UK | the US and UK services should be distinct, keyed like the state-manager registry, which adds the account base's hash | not executed | ServiceFactory.UkRequestGetsUsService | ServiceFactory.ServiceKeySeparatesAccountBases |
