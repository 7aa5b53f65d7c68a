# Redis cache service with compute-once orchestration

This project models the core of `thZero.NetCore.Library.Services.Cache.Redis`.
That core has two parts:

- `ServiceCacheRedisBaseAsync` (file `ServiceCacheRedisAsync.cs`) is a cache over Redis. It stores values under
  lower-cased physical keys `<region>-<key>`. It keeps a set of the keys in each region and a set of region names.
  It can clear one region or flush every endpoint, and it reads key counts and memory figures from the `INFO`
  output of the first endpoint.
- `ServiceCacheRedisExecuteBaseAsync` (file `ServiceCacheRedisExecuteAsync.cs`) adds `Check`. `Check` serves an
  executable's result from an optional secondary cache tier, else from the primary (Redis) tier, copying a primary
  hit into the secondary tier. Otherwise it runs the executable and stores a cacheable result in both tiers, after
  checking the primary tier once more. That second check and the writes run under the writer lock only when
  `CacheLockEnabled` is true, and this service sets it to false. The copy of a primary hit into the secondary tier
  always runs under the writer lock.

The model is in seven modules:

- `Common`: `Option`, `Result` and the exceptions raised, as `Fault`.
- `Text`: the string operations the service relies on: the .NET `ToLower`, `Split(char)` and `long.TryParse`, and
  the library's own `EqualsIgnore` extension. Its body is not part of this model, and the model takes it to be an
  ordinal comparison that ignores case.
- `Responses`: the cached response value.
- `Codec`: the MessagePack/Base64 payload.
- `Backend`: the Redis database as a value.
- `ServiceCacheRedis`: the cache service. `RedisCache` is a class whose `db` and `servers` fields the store
  operations update.
- `ServiceCacheRedisExecute`: `Check` and `Add`, as methods of the class `ExecuteCache` over a primary `RedisCache`.

### How the model represents the environment

- **Failing backend calls.** `Check` and its stages take a `faults: set<Call>` argument. It names the backend calls
  that throw in this run, and each such call throws before it has any effect. `Check` also returns `trace` and
  `recorded`. `trace` lists the backend calls made, in order, each with whether the writer lock was held when the
  call was made. `recorded` lists the exceptions it caught and logged.
- **The executable.** Its result is fixed when it is constructed. It counts its invocations, so contracts can say
  when the computation ran.
- **The writer lock.** It is a held flag with a count of acquisitions.
- **Absent values.** C# `null` and the empty string are one value for keys and regions. `ValidateKey`, `ClearCore`
  and `Enforce.AgainstNullOrEmpty` treat them alike. The region sets are the exception, as stated under "## Left out".
  A null response is `None`.

### Quirks of the code the model keeps

- **Normalising is idempotent only without a region.** With region `r`, key `k` becomes `r-k`, and normalising
  `r-k` in region `r` gives `r-r-k` (`ValidateKeyPrefixesAgain`, `ValidateKeyPrefixesAgainExample`). Without a region, normalising twice is normalising
  once (`ValidateKeyIdempotent`).
- **An empty region adds no prefix.** `ValidateKey` leaves the prefix out. Only `ClearCore` and the region tally
  use the name `none`.
- **A Keyspace line without `=` throws.** `SizeCore` and `StatsCore` then index past the end of the split
  (`KeyCountWithoutEquals`), so the size is not 0 but an exception. A Keyspace section with no value at all
  dereferences null.
- **Clearing a region misses some keys.** `ClearCore` lower-cases the region, but `AddCore` files the key under the
  region exactly as given. A region written with capitals is never cleared (`ClearMissesMixedCaseRegion`). Keys
  added with the empty region are filed under the empty name, not `none` (`ClearMissesKeysWithoutRegion`).
- **Removing one key forgets its region.** `RemoveCore` removes the region from `regions` even when other keys of
  the region remain (`RemoveForgetsRegion`).

## Model

| member | source | states |
|---|---|---|
| ServiceCacheRedis.ValidateKey | ServiceCacheRedisAsync.cs:384-393 | An empty key is returned unchanged. Otherwise the result is entirely lower case: the lower-cased key, prefixed by the lower-cased region and `-` when a region is given. |
| ServiceCacheRedis.ValidateKeyIdempotent | ServiceCacheRedisAsync.cs:384-393 | Without a region, normalising an already normalised key changes nothing. |
| ServiceCacheRedis.ValidateKeyPrefixesAgain | ServiceCacheRedisAsync.cs:389-390 | For every non-empty key and region, normalising a physical key again prefixes the lower-cased region a second time. |
| ServiceCacheRedis.ValidateKeyPrefixesAgainExample | ServiceCacheRedisAsync.cs:389-390 | Key `k` in region `r` is stored as `r-k`, and normalising that again gives `r-r-k`. |
| ServiceCacheRedis.AfterAdd | ServiceCacheRedisAsync.cs:58-83 | After adding, the key exists and reads back the value written, with an 8-day expiry. Exactly the region (as given) joins `regions`, and exactly the physical key joins the region's set; when the region is named `regions`, both join that one set. No other key and no other set changes. |
| ServiceCacheRedis.AfterRemove | ServiceCacheRedisAsync.cs:191-207 | After removing, the key is absent and reads as the default. Exactly the physical key leaves the region's set, and exactly the region leaves `regions`; when the region is named `regions`, both leave that one set. No other key and no other set changes. |
| ServiceCacheRedis.ClearTarget | ServiceCacheRedisAsync.cs:87-89 | The set a clear reads is always lower case: `none` for the empty region, and otherwise the region itself ignoring case. |
| ServiceCacheRedis.AfterClear | ServiceCacheRedisAsync.cs:85-104 | Clearing deletes exactly the non-empty members of the lower-cased region's set (`none` for no region). It keeps every other key with its value and leaves all sets as they were. |
| ServiceCacheRedis.RegionIsolation | ServiceCacheRedisAsync.cs:58-104 | Clearing one lower-case region removes a key added under it and keeps a key added under another region. |
| ServiceCacheRedis.ClearMissesMixedCaseRegion | ServiceCacheRedisAsync.cs:75-89 | A key added under region `Users` survives clearing region `Users`, because the clear reads set `users`. |
| ServiceCacheRedis.ClearMissesKeysWithoutRegion | ServiceCacheRedisAsync.cs:75-89 | On an empty database, a key added with the empty region survives clearing without a region, because the clear reads set `none`. |
| ServiceCacheRedis.RemoveForgetsRegion | ServiceCacheRedisAsync.cs:203-204 | Removing one of two keys of a region drops the region from `regions`, although the other key is still stored and still listed in the region's set. |
| ServiceCacheRedis.RegionOf | ServiceCacheRedisAsync.cs:270-274 | A key with exactly one dash is attributed to the dash-free text before the dash. Any other key, with no dash or several, is attributed to `none`. |
| ServiceCacheRedis.RegionOfValidatedKey | ServiceCacheRedisAsync.cs:270-274 | A key added under a region, neither containing a dash, is tallied under the lower-cased region. |
| ServiceCacheRedis.RegionOfTwoDashes | ServiceCacheRedisAsync.cs:272-274 | A physical key with two dashes is tallied under `none`. |
| ServiceCacheRedis.TallyCounts | ServiceCacheRedisAsync.cs:268-280 | Tallying keys one by one puts a region in the tally exactly when some key is attributed to it, with the number of such keys as its count, and the counts add up to the number of keys. |
| ServiceCacheRedis.TotalUpdate | ServiceCacheRedisAsync.cs:276-279 | Setting one region's count changes the sum of all counts by the difference. |
| ServiceCacheRedis.KeyCount | ServiceCacheRedisAsync.cs:232-243 | Reading a Keyspace section (here and again at lines 335-347) throws `NullReference` exactly when the section has no value. It throws `IndexOutOfRange` exactly when the first comma-separated field of the first value has no `=`. It throws nothing else, and a count it parses lies in the 64-bit signed range. |
| ServiceCacheRedis.KeyCountOfRendered | ServiceCacheRedisAsync.cs:233-243 | For a Keyspace value `name=<n>,...` as Redis renders it, the parsed key count is `n`. |
| ServiceCacheRedis.KeyCountWithoutEquals | ServiceCacheRedisAsync.cs:237-239 | A Keyspace value without `,` or `=` makes the scan throw `IndexOutOfRange` rather than report no count. |
| ServiceCacheRedis.ScanKeyspaceStopsAtFault | ServiceCacheRedisAsync.cs:227-244 | Once a Keyspace section has thrown, no later section changes the outcome of the scan. |
| ServiceCacheRedis.ScanKeyspaceWithoutSection | ServiceCacheRedisAsync.cs:227-244 | With no section named Keyspace (ignoring case), the scan finds no count. |
| ServiceCacheRedis.ScanKeyspaceSingle | ServiceCacheRedisAsync.cs:227-244 | With exactly one Keyspace section, the scan's result is that section's key count, wherever the section stands. |
| ServiceCacheRedis.ScanStatsStopsAtFault | ServiceCacheRedisAsync.cs:310-349 | Once a section has thrown, no later section changes the outcome of the statistics scan. |
| ServiceCacheRedis.StatsKeysAgreeWithSize | ServiceCacheRedisAsync.cs:333-348 | The statistics scan fails exactly when the size scan fails, with the same exception. When both succeed, their key counts are equal. |
| ServiceCacheRedis.StatsOfRenderedInfo | ServiceCacheRedisAsync.cs:313-348 | A Memory section whose first and fourth values are `used` and `max`, followed by a Keyspace line `keys=<n>,...`, gives the statistics (n, used, max). |
| ServiceCacheRedis.SectionNames | ServiceCacheRedisAsync.cs:313-333 | `Memory` and `Keyspace` match their section names ignoring case, and a Keyspace section is never taken for Memory. |
| ServiceCacheRedis.SerializerRegistry.SerializerInstance | ServiceCacheRedisAsync.cs:357-374 | Returns the serializer registered for the type and creates and registers one only on first request. No registered entry is ever replaced, and the registry stays well formed. |
| ServiceCacheRedis.WriterLock.Acquire | ServiceCacheRedisExecuteAsync.cs:171 | The lock goes from free to held, and one more acquisition is counted. |
| ServiceCacheRedis.WriterLock.Release | ServiceCacheRedisExecuteAsync.cs:183-184 | The lock goes from held to free. |
| ServiceCacheRedis.KeyspaceOfInfo | ServiceCacheRedisAsync.cs:227-244 | The loop over one endpoint's INFO sections ends with the key count of the scan, or the scan's exception. |
| ServiceCacheRedis.ApplyKeyspace | ServiceCacheRedisAsync.cs:229-243 | Handles one section: a Keyspace section replaces the count (or throws), and any other section leaves the count as it was. |
| ServiceCacheRedis.RegionCounts | ServiceCacheRedisAsync.cs:267-280 | A region is in the tally exactly when some key is attributed to it, with the number of such keys as its count. The counts add up to the number of keys. |
| ServiceCacheRedis.ApplyGroup | ServiceCacheRedisAsync.cs:312-348 | Handles one section. A Memory section sets storage and maximum from its first and fourth values; a Keyspace section sets the key count or throws. |
| ServiceCacheRedis.StatsOfInfo | ServiceCacheRedisAsync.cs:310-349 | The loop over one endpoint's INFO sections ends with the statistics of the scan, or the scan's exception. |
| ServiceCacheRedis.RedisCache.AddCore | ServiceCacheRedisAsync.cs:58-83 | An empty key throws and changes nothing. Otherwise the result is true and the database is exactly `AfterAdd` of the old one. The serializer registry only grows. |
| ServiceCacheRedis.RedisCache.ClearCore | ServiceCacheRedisAsync.cs:85-104 | Returns true, and the database is exactly `AfterClear` of the old one. |
| ServiceCacheRedis.RedisCache.ClearAllCore | ServiceCacheRedisAsync.cs:106-120 | Returns true. Every endpoint's key list is empty, and its INFO has lost the Keyspace section and kept every other section, so no endpoint reports a key count. The database is empty unless there are no endpoints. |
| ServiceCacheRedis.Flushed | ServiceCacheRedisAsync.cs:116 | The INFO of a flushed endpoint keeps exactly the sections that are not Keyspace sections. |
| ServiceCacheRedis.FlushedReportsNoKeys | ServiceCacheRedisAsync.cs:209-250 | After a flush the size scan finds no count, so `SizeCore` reports 0, and the statistics scan succeeds with no key count. |
| ServiceCacheRedis.RedisCache.ContainsCore | ServiceCacheRedisAsync.cs:122-132 | An empty key throws. Otherwise the result is whether the physical key is stored. |
| ServiceCacheRedis.RedisCache.GetCore | ServiceCacheRedisAsync.cs:134-160 | An empty key throws. An absent key gives the default (None). A stored key gives its decoded payload, which fails only for text the codec did not write. |
| ServiceCacheRedis.RedisCache.RemoveCore | ServiceCacheRedisAsync.cs:191-207 | An empty key throws and changes nothing. Otherwise the result is true and the database is exactly `AfterRemove` of the old one. |
| ServiceCacheRedis.RedisCache.SizeCore | ServiceCacheRedisAsync.cs:209-250 | With no endpoint the size is 0. Otherwise it is the first endpoint's Keyspace count, 0 when none parsed, or that scan's exception. |
| ServiceCacheRedis.RedisCache.SizeRegionsCore | ServiceCacheRedisAsync.cs:252-289 | Tallies the first endpoint's keys by region, as `RegionCounts` states. With no endpoint the tally is empty. |
| ServiceCacheRedis.RedisCache.StatsCore | ServiceCacheRedisAsync.cs:291-355 | With no endpoint all three figures are absent. Otherwise the statistics are those of the first endpoint's INFO scan. |
| Text.EqualsIgnore | ServiceCacheRedisAsync.cs:230 | Two names match (here and at lines 313 and 333) exactly when they have the same length and agree character by character once each character is lower-cased. |
| Text.Lower | ServiceCacheRedisAsync.cs:392 | The lower-cased string has the same length, with each character lower-cased in place. |
| Text.LowerIdempotent | ServiceCacheRedisAsync.cs:392 | Lower-casing twice is lower-casing once. |
| Text.LowerConcat | ServiceCacheRedisAsync.cs:390-392 | Lower-casing distributes over concatenation. |
| Text.Split | ServiceCacheRedisAsync.cs:272 | There is one more piece than there are separators, and no piece contains the separator. |
| Text.JoinSplit | ServiceCacheRedisAsync.cs:272 | Joining the pieces with the separator gives back the original string. |
| Text.SplitAt | ServiceCacheRedisAsync.cs:272 | A string `a + sep + b`, with no separator in `a`, splits into `a` followed by the pieces of `b`. |
| Text.Decimal | ServiceCacheRedisAsync.cs:343 | The decimal rendering of `n` is a non-empty string of digits whose value is `n`. |
| Text.TryParseLong | ServiceCacheRedisAsync.cs:343 | A parsed value always lies in the 64-bit signed range. What is rejected is stated by `ParseRejectsForeign`, `ParseDecimalOutOfRange` and `ParseSignedOutOfRange`. |
| Text.ParseRejectsForeign | ServiceCacheRedisAsync.cs:343 | Text holding a character that is not a digit, white space or a sign, at any position, does not parse (so `5.88M` gives null). |
| Text.ParseDecimalOutOfRange | ServiceCacheRedisAsync.cs:343 | The digits of a value above the largest long do not parse. |
| Text.ParseSignedOutOfRange | ServiceCacheRedisAsync.cs:343 | The rendering of any value outside the 64-bit signed range, below it or above it, does not parse; with `ParseSigned`, a rendered value parses exactly when a long can hold it. |
| Text.ParseDecimal | ServiceCacheRedisAsync.cs:343 | Parsing the decimal rendering of any value from 0 to the largest long gives that value back. |
| Text.Signed | ServiceCacheRedisAsync.cs:343 | The rendering of a value starts with a minus sign exactly when the value is negative. |
| Text.ParseSigned | ServiceCacheRedisAsync.cs:343 | Parsing the rendering of any value a long can hold, negative ones included, gives that value back. |
| Codec.Encode | ServiceCacheRedisAsync.cs:68-80 | Decoding an encoded value gives the value back. |
| Codec.Decode | ServiceCacheRedisAsync.cs:152-155 | Decoding fails exactly for text the codec did not write. |
| Backend.SetAdd | ServiceCacheRedisAsync.cs:75-76 | The member joins the named set, and every other set is unchanged. |
| Backend.SetRemove | ServiceCacheRedisAsync.cs:203-204 | The member leaves the named set, and every other set is unchanged. |
| Responses.Response.ClearDurations | ServiceCacheRedisExecuteAsync.cs:138 | The durations are emptied, and every other field is unchanged. |
| ServiceCacheRedisExecute.AsPrimaryHit | ServiceCacheRedisExecuteAsync.cs:160-164 | The copy returned for a primary hit has no durations, WasCached set and CacheEnabled equal to the service's setting. Every other field is the stored value's. |
| ServiceCacheRedisExecute.AsSecondaryHit | ServiceCacheRedisExecuteAsync.cs:136-140 | The copy returned for a secondary hit has no durations, WasCachedSecondary set and CacheEnabled equal to the service's setting. Every other field is the stored value's. |
| ServiceCacheRedisExecute.Executable.ExecuteAsync | ServiceCacheRedisExecuteAsync.cs:205 | Returns the executable's outcome and counts one more invocation. |
| ServiceCacheRedisExecute.Probe | ServiceCacheRedisAsync.cs:122-132 | An existence check rejects an empty key with the argument error before the store is reached. It throws a backend failure exactly when the key is non-empty and the run's faults name the call, and otherwise reports whether the physical key is stored. |
| ServiceCacheRedisExecute.Fetch | ServiceCacheRedisAsync.cs:134-160 | A read rejects an empty key with the argument error before the store is reached. With a non-empty key it throws a backend failure when the run's faults name the call, and otherwise returns what the store lookup gives. |
| ServiceCacheRedisExecute.TryGet | ServiceCacheRedisExecuteAsync.cs:133 | A read of one tier rejects an empty key first, then either throws as the run's faults say or returns what `GetCore` returns. The call is appended to the trace with the lock's state at that moment. |
| ServiceCacheRedisExecute.TryContains | ServiceCacheRedisExecuteAsync.cs:153 | An existence check rejects an empty key first, then either throws as the run's faults say or returns what `ContainsCore` returns. The call is appended to the trace with the lock's state at that moment. |
| ServiceCacheRedisExecute.TryAdd | ServiceCacheRedisExecuteAsync.cs:245-269 | A write either throws, leaving the tier untouched, or leaves the tier exactly as `AfterAdd` describes. It reports which of the two happened. The call is appended to the trace with the lock's state at that moment. |
| ServiceCacheRedisExecute.ExecuteCache.Add | ServiceCacheRedisExecuteAsync.cs:55-77 | A null executable throws. Otherwise the value is stored under the executable's cache key as `AddCore` states (an empty key throws and stores nothing). |
| ServiceCacheRedisExecute.ExecuteCache.ReadThrough | ServiceCacheRedisExecuteAsync.cs:153-157 | The primary tier is checked for the key, and read only when the key exists. The trace records both calls, each with the lock's state. |
| ServiceCacheRedisExecute.ExecuteCache.Backfill | ServiceCacheRedisExecuteAsync.cs:166-186 | A primary hit is copied into the secondary tier, and the trace shows the write made while the writer lock is held. The lock is acquired once and free again afterwards. A failed write is reported and leaves the secondary as it was. |
| ServiceCacheRedisExecute.ExecuteCache.WriteTiers | ServiceCacheRedisExecuteAsync.cs:245-269 | The computed response is written to the primary and then the secondary tier. Each write is guarded on its own, so a failure of one does not stop the other, and one exception is recorded per failed write. The trace records both writes with the lock's state. |
| ServiceCacheRedisExecute.ExecuteCache.RecheckAndStore | ServiceCacheRedisExecuteAsync.cs:216-276 | If the re-check finds the key, the cached copy is returned and nothing is written. If the re-check throws, the computed response is returned unwritten and the exception is recorded. Otherwise the response is written to both tiers and returned. Every call is recorded as made with the lock held exactly when `CacheLockEnabled`. |
| ServiceCacheRedisExecute.ExecuteCache.StoreComputed | ServiceCacheRedisExecuteAsync.cs:206-281 | The same as `RecheckAndStore`: the trace shows the re-check and both writes made with the writer lock held exactly when `CacheLockEnabled`. The lock is acquired once when enabled and is free again afterwards. |
| ServiceCacheRedisExecute.ExecuteCache.Compute | ServiceCacheRedisExecuteAsync.cs:202-287 | The executable runs exactly once. Its exception propagates and a null response throws, both with no tier touched and the lock never taken. A non-cacheable response is returned with CacheEnabled set and no tier touched. A cacheable one is stored as `StoreComputed` states. |
| ServiceCacheRedisExecute.ExecuteCache.ServePrimary | ServiceCacheRedisExecuteAsync.cs:153-287 | An exception from the existence check propagates. A primary hit returns the flagged copy and is copied into the secondary while the lock is held. A miss returns the default when no execution is asked for, and otherwise runs the executable exactly once and proceeds as `Compute` states. The lookup calls are made without the lock. |
| ServiceCacheRedisExecute.ExecuteCache.Check | ServiceCacheRedisExecuteAsync.cs:79-323 | A null executable is rejected. With caching off the executable runs once and its result is returned as is. A secondary hit returns the flagged copy without running anything or touching the primary, and a failed secondary read is recorded and treated as a miss. Otherwise the primary lookup and the computation follow (`ServePrimary`), the executable runs only when both tiers missed and execution was asked for, and the lock is released on every path. |

## Left out

- Connection setup (`InitializeCore`) and the factory and logger constructors are not modelled; a `RedisCache` is
  built over an already connected database. `MaintainCacheCore` does nothing and is not modelled.
- Logging (`Log?.Error`, `Logger?.LogError`) is modelled only as the list `recorded` of caught exceptions.
- `UpdateIndex` is private, and its only call site in `Check` is commented out, so it is not modelled.
- `DeepClone` is modelled as value copying. Responses are values, so the clone and the original cannot alias.
- Lower-casing and `EqualsIgnore` cover the ASCII letters only. Culture-specific case mapping is not modelled.
- The MessagePack and Base64 formats are abstracted into `Codec`, which keeps only the round trip and the failure
  on foreign text. The serializer is a registry entry per type tag, and one response type is stored.
- The 8-day expiry is recorded on each entry, but expiry itself is not modelled, because there is no clock.
- `FireAndForget` writes are modelled as completed writes, so a write the server drops is not modelled.
- Concurrency is left out. The writer lock is a held flag, and the double-checked lock around the serializer
  registry is a plain check. Interleavings of concurrent `Check` calls, which the lock and the re-check exist for,
  are not modelled. Each backend call is atomic.
- Backend failures are the input set `faults`. A named call throws before it has any effect, so a partial write is
  not modelled. A call with an empty key is rejected by its argument check before it reaches the store, so it never
  fails as a backend call.
- The base service's `UseCache(forceCache)` and `CacheEnabled` are inputs of `ExecuteCache`. The secondary tier's
  `Get` and `Add` are its `GetCore` and `AddCore`, since the base class that wraps them is not part of this model.
- ServiceCacheRedis.AfterClear: Redis holds strings and sets in one keyspace, while the model keeps them in two
  maps, so a string key and a set key may share a name here. The model therefore differs wherever a cache key
  collides with `regions` or with a region's set name: EXISTS (`ContainsCore`) would report the set, GET
  (`GetCore`) on a set would throw WRONGTYPE, `ClearCore("regions")` would delete the region sets named as members,
  and SADD on a name held by a string would fail. None of these collisions is modelled.
- ServiceCacheRedis.RedisCache.SizeRegionsCore: each endpoint's key listing is an input that `AddCore`,
  `RemoveCore` and `ClearCore` do not update, and it is not tied to the database. In Redis, KEYS also lists the
  `regions` set and each region's set, and the tally puts those names under `none` when they hold no dash. The
  model does not capture this.
- ServiceCacheRedis.RedisCache.SizeCore: each endpoint's INFO is an input that the store operations do not update.
  Only `ClearAllCore` changes it, by dropping the Keyspace section. The model takes database 0 to be the only
  database, so a flush leaves no Keyspace line. The Memory figures are not updated after a flush.
- ServiceCacheRedis.RedisCache.RemoveCore: the check that the JSON service instance is not null, at
  ServiceCacheRedisAsync.cs:197-198, is not modelled. The model takes the instance to be present.
- ServiceCacheRedis.RedisCache.AddCore: a null region is taken to be the empty string. The region is passed to
  SADD and SREM unchecked, here and in `RemoveCore`, and what the Redis client does with a null set key or member
  is not part of this model. `ClearMissesKeysWithoutRegion` covers only the empty region.
- ServiceCacheRedisExecute.ExecuteCache.Check: requires that the secondary tier is a different object from the
  primary. With the same object the code would write one store twice, and that aliasing is not modelled.
- ServiceCacheRedisExecute.ExecuteCache.Check: the overloads at lines 79-107 are modelled as default parameters of
  the one `Check`.
- ServiceCacheRedisExecute.ExecuteCache.Add: the three overloads are likewise one method with default parameters.
  The base `Add` they call is modelled by `AddCore`, with no `UseCache` check.
- `CacheLockEnabled` is a field that the constructor sets to false, as the service does. The compute section is
  verified for both values.
- The `INFO` output, the endpoint list and each endpoint's key listing are values held in `servers`. Only the
  first endpoint is read, as in the code. `Enforce.AgainstNull(server)` cannot fail in the model and is omitted.
- `long.TryParse` accepts an optional sign and surrounding white space. Thousands separators and other culture
  settings are not modelled.
