/**
 * ServiceCacheRedisExecuteBaseAsync: the Check/Add orchestration over a
 * primary RedisCache, an optional secondary cache and a caller's executable.
 * The run is sequential; the writer lock is a held flag, and failures of
 * backend calls are an input naming which calls throw.
 */
module ServiceCacheRedisExecute {
  import opened Common
  import opened Responses
  import opened Backend
  import opened ServiceCacheRedis

  /** The backend calls Check can make. */
  datatype Call =
    | SecondaryGet        // secondary.Get(cacheKey, region)
    | PrimaryExists       // ContainsCore before the primary lookup
    | PrimaryGet          // GetCore of the primary lookup
    | SecondaryBackfill   // secondary.Add of a primary hit
    | PrimaryRecheck      // ContainsCore inside the compute section
    | PrimaryRecheckGet   // GetCore inside the compute section
    | PrimaryAdd          // AddCore of the computed response
    | SecondaryAdd        // secondary.Add of the computed response

  /** One backend call as Check made it, with whether the writer lock was held at that moment. */
  datatype Step = Step(call: Call, locked: bool)

  /** A call named in `faults` throws instead of reaching the store. */
  function Attempt<T>(faults: set<Call>, c: Call, r: Result<T, Fault>): Result<T, Fault>
  {
    if c in faults then Err(BackendFailure) else r
  }

  predicate IsHit(r: Result<Option<Response>, Fault>)
  {
    r.Ok? && r.value.Some?
  }

  /** The copy a primary hit hands back: durations cleared, WasCached and CacheEnabled set. */
  function AsPrimaryHit(v: Response, enabled: bool): (r: Response)
    ensures r.durations == [] && r.wasCached && r.cacheEnabled == enabled
    ensures r.(durations := v.durations, wasCached := v.wasCached, cacheEnabled := v.cacheEnabled) == v
  {
    v.ClearDurations().(wasCached := true, cacheEnabled := enabled)
  }

  /** The copy a secondary hit hands back: durations cleared, WasCachedSecondary and CacheEnabled set. */
  function AsSecondaryHit(v: Response, enabled: bool): (r: Response)
    ensures r.durations == [] && r.wasCachedSecondary && r.cacheEnabled == enabled
    ensures r.(durations := v.durations, wasCachedSecondary := v.wasCachedSecondary, cacheEnabled := v.cacheEnabled) == v
  {
    v.ClearDurations().(wasCachedSecondary := true, cacheEnabled := enabled)
  }

  /**
   * What a guarded existence check on a store yields. The argument check
   * comes first, so an empty key is rejected before the store is reached
   * and no backend failure can happen on that call.
   */
  function Probe(db: Db, c: Call, key: string, region: string, faults: set<Call>): (r: Result<bool, Fault>)
    ensures key == "" ==> r == Err(ArgumentNullOrEmpty("key"))
    ensures r == Err(BackendFailure) <==> key != "" && c in faults
    ensures key != "" && c !in faults ==> r == Ok(ValidateKey(key, region) in db.strings)
  {
    if key == "" then Exists(db, key, region) else Attempt(faults, c, Exists(db, key, region))
  }

  /** What a guarded read of a store yields; as for Probe, an empty key is rejected first. */
  function Fetch(db: Db, c: Call, key: string, region: string, faults: set<Call>): (r: Result<Option<Response>, Fault>)
    ensures key == "" ==> r == Err(ArgumentNullOrEmpty("key"))
    ensures key != "" && c in faults ==> r == Err(BackendFailure)
    ensures key != "" && c !in faults ==> r == Lookup(db, key, region)
  {
    if key == "" then Lookup(db, key, region) else Attempt(faults, c, Lookup(db, key, region))
  }

  /** A store after a guarded AddCore: unchanged when the call throws. */
  function Written(db: Db, c: Call, key: string, value: Option<Response>, region: string, faults: set<Call>): Db
    requires key != ""
  {
    if c in faults then db else AfterAdd(db, key, value, region)
  }

  /**
   * The state Check's contract speaks about: both tiers' databases (an
   * empty one standing for an absent secondary) and the lock's count of
   * acquisitions.
   */
  datatype Snapshot = Snapshot(primary: Db, secondary: Db, acquisitions: nat)

  /**
   * IServiceCacheExecutableItemWithKey: the cache key and the computation.
   * The computation is the outcome it produces; the counter records how
   * often it ran.
   */
  class Executable {
    const CacheKey: string
    const outcome: Result<Option<Response>, Fault>
    var invocations: nat

    constructor (cacheKey: string, outcome: Result<Option<Response>, Fault>)
      ensures CacheKey == cacheKey && this.outcome == outcome && invocations == 0
    {
      CacheKey := cacheKey;
      this.outcome := outcome;
      invocations := 0;
    }

    /** ExecuteAsync. */
    method ExecuteAsync() returns (r: Result<Option<Response>, Fault>)
      modifies this
      ensures r == outcome && invocations == old(invocations) + 1
    {
      invocations := invocations + 1;
      r := outcome;
    }
  }

  /** A guarded GetCore on one tier, appended to the trace with the state of `lock`. */
  method TryGet(target: RedisCache, lock: WriterLock, c: Call, key: string, region: string, faults: set<Call>,
                before: seq<Step>)
    returns (r: Result<Option<Response>, Fault>, trace: seq<Step>)
    requires target.registry.Valid()
    modifies target.registry
    ensures target.registry.Valid()
    ensures r == Fetch(target.db, c, key, region, faults)
    ensures trace == before + [Step(c, lock.held)]
  {
    trace := before + [Step(c, lock.held)];
    if key != "" && c in faults {
      r := Err(BackendFailure);
      return;
    }
    r := target.GetCore(key, region);
  }

  /** A guarded ContainsCore on one tier, appended to the trace with the state of `lock`. */
  method TryContains(target: RedisCache, lock: WriterLock, c: Call, key: string, region: string, faults: set<Call>,
                     before: seq<Step>)
    returns (r: Result<bool, Fault>, trace: seq<Step>)
    ensures r == Probe(target.db, c, key, region, faults)
    ensures trace == before + [Step(c, lock.held)]
  {
    trace := before + [Step(c, lock.held)];
    if key != "" && c in faults {
      r := Err(BackendFailure);
      return;
    }
    r := target.ContainsCore(key, region);
  }

  /**
   * A guarded AddCore on one tier, appended to the trace with the state of
   * `lock`; a failing call leaves the tier as it was.
   */
  method TryAdd(target: RedisCache, lock: WriterLock, c: Call, key: string, value: Option<Response>, region: string,
                faults: set<Call>, before: seq<Step>)
    returns (fault: Option<Fault>, trace: seq<Step>)
    requires key != "" && target.registry.Valid()
    modifies target`db, target.registry
    ensures target.registry.Valid()
    ensures fault == (if c in faults then Some(BackendFailure) else None)
    ensures target.db == Written(old(target.db), c, key, value, region, faults)
    ensures trace == before + [Step(c, lock.held)]
  {
    trace := before + [Step(c, lock.held)];
    if c in faults {
      fault := Some(BackendFailure);
      return;
    }
    var added := target.AddCore(key, value, region);
    fault := None;
  }

  class ExecuteCache {
    /** The Redis service this one extends. */
    const cache: RedisCache
    /** UseCache(forceCache) of the base service. */
    const UseCache: bool -> bool
    /** CacheEnabled of the base service. */
    const CacheEnabled: bool

    constructor (cache: RedisCache, useCache: bool -> bool, cacheEnabled: bool)
      ensures this.cache == cache && UseCache == useCache && CacheEnabled == cacheEnabled
    {
      this.cache := cache;
      UseCache := useCache;
      CacheEnabled := cacheEnabled;
    }


    /** Both tiers and the lock, as Check's contract sees them. */
    ghost function Snap(secondary: RedisCache?): Snapshot
      reads cache, cache.lock, secondary
    {
      Snapshot(cache.db, if secondary != null then secondary.db else EmptyDb, cache.lock.acquisitions)
    }

    /** What the secondary lookup yields; without a secondary tier, a miss. */
    function SecondaryRead(secondary: RedisCache?, key: string, region: string, faults: set<Call>): Result<Option<Response>, Fault>
      reads secondary
    {
      if secondary == null then Ok(None) else Fetch(secondary.db, SecondaryGet, key, region, faults)
    }

    /** Neither tier's database differs from the snapshot. */
    ghost predicate StoresUnchanged(s0: Snapshot, secondary: RedisCache?)
      reads cache, secondary
    {
      cache.db == s0.primary && (secondary != null ==> secondary.db == s0.secondary)
    }

    /** Both tiers missed, from the snapshot: Check goes on to run the executable when asked to. */
    predicate Missed(s0: Snapshot, key: string, region: string, faults: set<Call>)
    {
      var existed := Probe(s0.primary, PrimaryExists, key, region, faults);
      existed.Ok? && !(existed.value && IsHit(Fetch(s0.primary, PrimaryGet, key, region, faults)))
    }

    /**
     * What the section run for a cacheable computed response does to the
     * tiers, from their databases `primary0` and `secondary0` before it:
     * check the primary tier again and, when the key is still absent, write
     * the response to the primary and then the secondary tier. `before` is
     * the trace of backend calls so far; every call of the section is made
     * with the writer lock held exactly when CacheLockEnabled.
     */
    ghost predicate Stored(primary0: Db, secondary0: Db, secondary: RedisCache?, key: string, computed: Response,
                           region: string, faults: set<Call>, before: seq<Step>,
                           result: Result<Option<Response>, Fault>, trace: seq<Step>)
      requires key != ""
      reads cache, secondary
    {
      var recheck := Probe(primary0, PrimaryRecheck, key, region, faults);
      var reread := Fetch(primary0, PrimaryRecheckGet, key, region, faults);
      var untouched := cache.db == primary0 && (secondary != null ==> secondary.db == secondary0);
      var locked := cache.CacheLockEnabled;
      // found on the re-check: the cached copy, nothing written
      && (recheck == Ok(true) && IsHit(reread) ==>
            && result == Ok(Some(AsPrimaryHit(reread.value.value, CacheEnabled)))
            && trace == before + [Step(PrimaryRecheck, locked)] + [Step(PrimaryRecheckGet, locked)]
            && untouched)
      // the re-check itself failed: nothing written, the computed response returned
      && (recheck.Err? ==>
            && result == Ok(Some(computed.(cacheEnabled := CacheEnabled)))
            && trace == before + [Step(PrimaryRecheck, locked)]
            && untouched)
      // still absent: written to each tier independently, the computed response returned
      && (recheck.Ok? && !(recheck.value && IsHit(reread)) ==>
            && result == Ok(Some(computed.(cacheEnabled := CacheEnabled)))
            && trace == before + [Step(PrimaryRecheck, locked)]
                        + (if recheck.value then [Step(PrimaryRecheckGet, locked)] else [])
                        + [Step(PrimaryAdd, locked)]
                        + (if secondary != null then [Step(SecondaryAdd, locked)] else [])
            && cache.db == Written(primary0, PrimaryAdd, key, Some(computed), region, faults)
            && (secondary != null ==>
                  secondary.db == Written(secondary0, SecondaryAdd, key, Some(computed), region, faults)))
    }

    /**
     * What Check does with the executable's outcome, from the snapshot `s0`
     * taken before it ran. `before` is the trace of backend calls so far.
     */
    ghost predicate Computed(s0: Snapshot, outcome: Result<Option<Response>, Fault>, secondary: RedisCache?,
                             key: string, region: string, faults: set<Call>, before: seq<Step>,
                             result: Result<Option<Response>, Fault>, trace: seq<Step>)
      requires key != ""
      reads cache, cache.lock, secondary
    {
      match outcome
      // the executable's own failure is not caught
      case Err(e) =>
        && result == Err(e) && trace == before && StoresUnchanged(s0, secondary)
        && cache.lock.acquisitions == s0.acquisitions
      // dereferencing a null response faults
      case Ok(None) =>
        && result == Err(NullReference) && trace == before && StoresUnchanged(s0, secondary)
        && cache.lock.acquisitions == s0.acquisitions
      // a response that is not cacheable is returned without touching either tier
      case Ok(Some(response)) =>
        if !response.cacheable then
          && result == Ok(Some(response.(cacheEnabled := CacheEnabled)))
          && trace == before
          && StoresUnchanged(s0, secondary)
          && cache.lock.acquisitions == s0.acquisitions
        else
          && cache.lock.acquisitions == s0.acquisitions + (if cache.CacheLockEnabled then 1 else 0)
          && Stored(s0.primary, s0.secondary, secondary, key, response, region, faults, before, result, trace)
    }

    /**
     * What Check does once the secondary tier has missed, from the snapshot
     * `s0` taken then: the primary lookup, the copy of a primary hit into the
     * secondary tier, and otherwise the computation. `before` is the trace of
     * backend calls so far.
     */
    ghost predicate PrimaryServed(s0: Snapshot, executable: Executable, secondary: RedisCache?, region: string,
                                  execute: bool, faults: set<Call>, before: seq<Step>,
                                  result: Result<Option<Response>, Fault>, trace: seq<Step>)
      reads cache, cache.lock, secondary
    {
      var key := executable.CacheKey;
      var existed := Probe(s0.primary, PrimaryExists, key, region, faults);
      var fromPrimary := Fetch(s0.primary, PrimaryGet, key, region, faults);
      var lookups := LookupTrace(s0, key, region, faults, before);
      // the existence check is not guarded: its failure reaches the caller
      && (existed.Err? ==>
            && result == Err(existed.error)
            && trace == lookups
            && StoresUnchanged(s0, secondary)
            && cache.lock.acquisitions == s0.acquisitions)
      // primary hit: the flagged copy, the stored value copied into the secondary while the lock is held
      && (existed == Ok(true) && IsHit(fromPrimary) ==>
            && result == Ok(Some(AsPrimaryHit(fromPrimary.value.value, CacheEnabled)))
            && trace == lookups + (if secondary != null then [Step(SecondaryBackfill, true)] else [])
            && cache.db == s0.primary
            && (secondary != null ==>
                  secondary.db == Written(s0.secondary, SecondaryBackfill, key, fromPrimary.value, region, faults))
            && cache.lock.acquisitions == s0.acquisitions + (if secondary != null then 1 else 0))
      // a miss, and no execution asked for: the default
      && (Missed(s0, key, region, faults) && !execute ==>
            && result == Ok(None)
            && trace == lookups
            && StoresUnchanged(s0, secondary)
            && cache.lock.acquisitions == s0.acquisitions)
    }

    /** The trace of the primary lookup, made without the lock, after `before`. */
    function LookupTrace(s0: Snapshot, key: string, region: string, faults: set<Call>, before: seq<Step>): seq<Step>
    {
      before + [Step(PrimaryExists, false)]
        + (if Probe(s0.primary, PrimaryExists, key, region, faults) == Ok(true) then [Step(PrimaryGet, false)] else [])
    }

    /** The Add overloads: store a value under the executable's cache key. */
    method Add(executable: Executable?, value: Option<Response>, region: string := "", forceCache: bool := false)
      returns (r: Result<bool, Fault>)
      requires cache.registry.Valid()
      modifies cache`db, cache.registry
      ensures cache.registry.Valid()
      ensures executable == null ==> r == Err(ArgumentNull("executable")) && cache.db == old(cache.db)
      ensures executable != null && executable.CacheKey == "" ==>
        r == Err(ArgumentNullOrEmpty("key")) && cache.db == old(cache.db)
      ensures executable != null && executable.CacheKey != "" ==>
        r == Ok(true) && cache.db == AfterAdd(old(cache.db), executable.CacheKey, value, region)
    {
      if executable == null {
        return Err(ArgumentNull("executable"));
      }
      r := cache.AddCore(executable.CacheKey, value, region);
    }

    /**
     * The primary lookup: an existence check, then a read only when the key
     * exists, both recorded with the state of the writer lock.
     */
    method ReadThrough(check: Call, read: Call, key: string, region: string, faults: set<Call>, before: seq<Step>)
      returns (existed: Result<bool, Fault>, found: Result<Option<Response>, Fault>, trace: seq<Step>)
      requires cache.registry.Valid()
      modifies cache.registry
      ensures cache.registry.Valid()
      ensures existed == Probe(cache.db, check, key, region, faults)
      ensures found == (if existed == Ok(true) then Fetch(cache.db, read, key, region, faults) else Ok(None))
      ensures trace == before + [Step(check, cache.lock.held)]
                       + (if existed == Ok(true) then [Step(read, cache.lock.held)] else [])
    {
      found := Ok(None);
      existed, trace := TryContains(cache, cache.lock, check, key, region, faults, before);
      if existed == Ok(true) {
        found, trace := TryGet(cache, cache.lock, read, key, region, faults, trace);
      }
    }

    /** The backfill after a primary hit: the secondary write is made while the writer lock is held. */
    method Backfill(secondary: RedisCache, key: string, value: Option<Response>, region: string, faults: set<Call>,
                    before: seq<Step>)
      returns (fault: Option<Fault>, trace: seq<Step>)
      requires secondary != cache && key != ""
      requires secondary.registry.Valid() && !cache.lock.held
      modifies cache.lock, secondary`db, secondary.registry
      ensures secondary.registry.Valid() && !cache.lock.held
      ensures cache.lock.acquisitions == old(cache.lock.acquisitions) + 1
      ensures fault == (if SecondaryBackfill in faults then Some(BackendFailure) else None)
      ensures secondary.db == Written(old(secondary.db), SecondaryBackfill, key, value, region, faults)
      ensures trace == before + [Step(SecondaryBackfill, true)]
    {
      cache.lock.Acquire();
      fault, trace := TryAdd(secondary, cache.lock, SecondaryBackfill, key, value, region, faults, before);
      cache.lock.Release();
    }

    /** Write a computed response to the primary and then the secondary tier, each write guarded on its own. */
    method WriteTiers(secondary: RedisCache?, key: string, computed: Response, region: string, faults: set<Call>,
                      before: seq<Step>)
      returns (recorded: seq<Fault>, trace: seq<Step>)
      requires secondary != cache && key != ""
      requires cache.registry.Valid() && (secondary != null ==> secondary.registry.Valid())
      modifies cache`db, cache.registry, secondary
      modifies if secondary != null then {secondary.registry} else {}
      ensures cache.registry.Valid() && (secondary != null ==> secondary.registry.Valid())
      ensures secondary != null ==> secondary.servers == old(secondary.servers)
      ensures cache.db == Written(old(cache.db), PrimaryAdd, key, Some(computed), region, faults)
      ensures secondary != null ==>
        secondary.db == Written(old(secondary.db), SecondaryAdd, key, Some(computed), region, faults)
      ensures |recorded| == (if PrimaryAdd in faults then 1 else 0) + (if secondary != null && SecondaryAdd in faults then 1 else 0)
      ensures trace == before + [Step(PrimaryAdd, cache.lock.held)]
                       + (if secondary != null then [Step(SecondaryAdd, cache.lock.held)] else [])
    {
      recorded := [];
      var addedPrimary;
      addedPrimary, trace := TryAdd(cache, cache.lock, PrimaryAdd, key, Some(computed), region, faults, before);
      if addedPrimary.Some? {
        recorded := recorded + [addedPrimary.value];
      }
      if secondary != null {
        var addedSecondary;
        addedSecondary, trace := TryAdd(secondary, cache.lock, SecondaryAdd, key, Some(computed), region, faults, trace);
        if addedSecondary.Some? {
          recorded := recorded + [addedSecondary.value];
        }
      }
    }

    /**
     * The re-check and the writes of the section run for a cacheable computed
     * response, with the writer lock held exactly when CacheLockEnabled.
     */
    method RecheckAndStore(secondary: RedisCache?, key: string, computed: Response, region: string,
                           faults: set<Call>, before: seq<Step>)
      returns (result: Result<Option<Response>, Fault>, trace: seq<Step>, recorded: seq<Fault>)
      requires secondary != cache && key != ""
      requires cache.registry.Valid() && (secondary != null ==> secondary.registry.Valid())
      requires cache.lock.held == cache.CacheLockEnabled
      modifies cache`db, cache.registry, secondary
      modifies if secondary != null then {secondary.registry} else {}
      ensures cache.registry.Valid() && (secondary != null ==> secondary.registry.Valid())
      ensures secondary != null ==> secondary.servers == old(secondary.servers)
      ensures Probe(old(cache.db), PrimaryRecheck, key, region, faults).Err? ==>
        recorded == [Probe(old(cache.db), PrimaryRecheck, key, region, faults).error]
      ensures Stored(old(cache.db), old(Snap(secondary)).secondary, secondary, key, computed, region, faults,
                     before, result, trace)
    {
      recorded := [];
      ghost var s0 := Snap(secondary);
      var again, temp3;
      again, temp3, trace := ReadThrough(PrimaryRecheck, PrimaryRecheckGet, key, region, faults, before);
      assert cache.db == s0.primary && (secondary != null ==> secondary.db == s0.secondary);
      if again.Err? {
        // caught by the handler around the whole section: neither tier is written
        recorded := [again.error];
        result := Ok(Some(computed.(cacheEnabled := CacheEnabled)));
      } else if temp3.Ok? && temp3.value.Some? {
        result := Ok(Some(AsPrimaryHit(temp3.value.value, CacheEnabled)));
      } else {
        if temp3.Err? {
          recorded := [temp3.error];
        }
        var writeFaults;
        writeFaults, trace := WriteTiers(secondary, key, computed, region, faults, trace);
        recorded := recorded + writeFaults;
        result := Ok(Some(computed.(cacheEnabled := CacheEnabled)));
      }
    }

    /** The section run for a cacheable computed response, under the writer lock when CacheLockEnabled. */
    method StoreComputed(secondary: RedisCache?, key: string, computed: Response, region: string,
                         faults: set<Call>, before: seq<Step>)
      returns (result: Result<Option<Response>, Fault>, trace: seq<Step>, recorded: seq<Fault>)
      requires secondary != cache && key != ""
      requires cache.registry.Valid() && (secondary != null ==> secondary.registry.Valid())
      requires !cache.lock.held
      modifies cache`db, cache.registry, cache.lock, secondary
      modifies if secondary != null then {secondary.registry} else {}
      ensures cache.registry.Valid() && (secondary != null ==> secondary.registry.Valid())
      ensures secondary != null ==> secondary.servers == old(secondary.servers)
      ensures !cache.lock.held
      ensures cache.lock.acquisitions == old(cache.lock.acquisitions) + (if cache.CacheLockEnabled then 1 else 0)
      ensures Probe(old(cache.db), PrimaryRecheck, key, region, faults).Err? ==>
        recorded == [Probe(old(cache.db), PrimaryRecheck, key, region, faults).error]
      ensures Stored(old(cache.db), old(Snap(secondary)).secondary, secondary, key, computed, region, faults,
                     before, result, trace)
    {
      ghost var s0 := Snap(secondary);
      if cache.CacheLockEnabled {
        cache.lock.Acquire();
      }
      assert Snap(secondary).secondary == s0.secondary;
      result, trace, recorded := RecheckAndStore(secondary, key, computed, region, faults, before);
      if cache.CacheLockEnabled {
        cache.lock.Release();
      }
    }

    /** Run the executable and keep a cacheable response: the compute stage of Check. */
    method Compute(executable: Executable, secondary: RedisCache?, region: string, faults: set<Call>, before: seq<Step>)
      returns (result: Result<Option<Response>, Fault>, trace: seq<Step>, recorded: seq<Fault>)
      requires executable.CacheKey != "" && secondary != cache
      requires cache.registry.Valid() && (secondary != null ==> secondary.registry.Valid())
      requires !cache.lock.held
      modifies cache`db, cache.registry, cache.lock, executable, secondary
      modifies if secondary != null then {secondary.registry} else {}
      ensures cache.registry.Valid() && (secondary != null ==> secondary.registry.Valid())
      ensures secondary != null ==> secondary.servers == old(secondary.servers)
      ensures !cache.lock.held
      ensures executable.invocations == old(executable.invocations) + 1
      ensures Computed(old(Snap(secondary)), executable.outcome, secondary, executable.CacheKey, region, faults,
                       before, result, trace)
    {
      trace, recorded := before, [];
      var response := executable.ExecuteAsync();
      if response.Err? {
        result := Err(response.error);
        return;
      }
      if response.value.None? {
        // dereferencing the null response faults
        result := Err(NullReference);
        return;
      }
      var computed := response.value.value;
      if !computed.cacheable {
        result := Ok(Some(computed.(cacheEnabled := CacheEnabled)));
        return;
      }
      result, trace, recorded := StoreComputed(secondary, executable.CacheKey, computed, region, faults, before);
    }

    /** The primary lookup of Check and what follows it: a hit, the default, or the compute stage. */
    method ServePrimary(executable: Executable, secondary: RedisCache?, region: string, execute: bool,
                        faults: set<Call>, before: seq<Step>)
      returns (result: Result<Option<Response>, Fault>, trace: seq<Step>, recorded: seq<Fault>)
      requires secondary != cache
      requires cache.registry.Valid() && (secondary != null ==> secondary.registry.Valid())
      requires !cache.lock.held
      modifies cache`db, cache.registry, cache.lock, executable, secondary
      modifies if secondary != null then {secondary.registry} else {}
      ensures cache.registry.Valid() && (secondary != null ==> secondary.registry.Valid())
      ensures secondary != null ==> secondary.servers == old(secondary.servers)
      ensures !cache.lock.held
      // the executable runs exactly when both lookups missed and execution was asked for
      ensures executable.invocations ==
        old(executable.invocations) + (if Missed(old(Snap(secondary)), executable.CacheKey, region, faults) && execute then 1 else 0)
      ensures PrimaryServed(old(Snap(secondary)), executable, secondary, region, execute, faults, before, result, trace)
      ensures Missed(old(Snap(secondary)), executable.CacheKey, region, faults) && execute ==>
        Computed(old(Snap(secondary)), executable.outcome, secondary, executable.CacheKey, region, faults,
                 LookupTrace(old(Snap(secondary)), executable.CacheKey, region, faults, before), result, trace)
    {
      recorded := [];
      ghost var s0 := Snap(secondary);
      var cacheKey := executable.CacheKey;
      var existed, temp2;
      existed, temp2, trace := ReadThrough(PrimaryExists, PrimaryGet, cacheKey, region, faults, before);
      assert Snap(secondary) == s0;
      assert trace == LookupTrace(s0, cacheKey, region, faults, before);
      if existed.Err? {
        result := Err(existed.error);
        return;
      }
      if temp2.Err? {
        recorded := [temp2.error];
      } else if temp2.value.Some? {
        if secondary != null {
          var fault;
          fault, trace := Backfill(secondary, cacheKey, temp2.value, region, faults, trace);
          if fault.Some? {
            recorded := recorded + [fault.value];
          }
        }
        result := Ok(Some(AsPrimaryHit(temp2.value.value, CacheEnabled)));
        return;
      }
      if !execute {
        result := Ok(None);
        return;
      }
      var more: seq<Fault>;
      result, trace, more := Compute(executable, secondary, region, faults, trace);
      recorded := recorded + more;
    }

    /**
     * Check: serve the executable's result from the secondary tier, else
     * from the primary tier (copying it into the secondary), else compute
     * it and store it in both tiers. `trace` lists the backend calls made,
     * `recorded` the exceptions caught and logged on the way.
     */
    method Check(executable: Executable?, secondary: RedisCache? := null, region: string := "",
                 execute: bool := true, forceCache: bool := false, faults: set<Call> := {})
      returns (result: Result<Option<Response>, Fault>, trace: seq<Step>, recorded: seq<Fault>)
      requires secondary != cache
      requires cache.registry.Valid() && (secondary != null ==> secondary.registry.Valid())
      requires !cache.lock.held
      modifies cache`db, cache.registry, cache.lock, executable, secondary
      modifies if secondary != null then {secondary.registry} else {}
      ensures cache.registry.Valid() && (secondary != null ==> secondary.registry.Valid())
      ensures secondary != null ==> secondary.servers == old(secondary.servers)
      // the writer lock is released on every path
      ensures !cache.lock.held
      // a null executable is rejected
      ensures executable == null ==>
        result == Err(ArgumentNull("executable")) && trace == [] && StoresUnchanged(old(Snap(secondary)), secondary)
      // caching off: run once, return the result untouched, touch no tier
      ensures executable != null && !UseCache(forceCache) ==>
        && result == executable.outcome && trace == []
        && executable.invocations == old(executable.invocations) + 1
        && StoresUnchanged(old(Snap(secondary)), secondary)
        && cache.lock.acquisitions == old(cache.lock.acquisitions)
      // a failed secondary read is recorded and treated as a miss
      ensures executable != null && UseCache(forceCache) &&
              old(SecondaryRead(secondary, executable.CacheKey, region, faults)).Err? ==>
        |recorded| > 0 && recorded[0] == old(SecondaryRead(secondary, executable.CacheKey, region, faults)).error
      // secondary hit: the flagged copy, no run, the primary tier not consulted
      ensures executable != null && UseCache(forceCache) ==>
        var fromSecondary := old(SecondaryRead(secondary, executable.CacheKey, region, faults));
        IsHit(fromSecondary) ==>
          && result == Ok(Some(AsSecondaryHit(fromSecondary.value.value, CacheEnabled)))
          && trace == [Step(SecondaryGet, false)]
          && executable.invocations == old(executable.invocations)
          && StoresUnchanged(old(Snap(secondary)), secondary)
          && cache.lock.acquisitions == old(cache.lock.acquisitions)
      // secondary miss: the primary tier, then the computation; the executable runs
      // exactly when both tiers missed and execution was asked for
      ensures executable != null && UseCache(forceCache) &&
              !IsHit(old(SecondaryRead(secondary, executable.CacheKey, region, faults))) ==>
        && executable.invocations ==
             old(executable.invocations) + (if Missed(old(Snap(secondary)), executable.CacheKey, region, faults) && execute then 1 else 0)
        && PrimaryServed(old(Snap(secondary)), executable, secondary, region, execute, faults,
                         if secondary != null then [Step(SecondaryGet, false)] else [], result, trace)
        && (Missed(old(Snap(secondary)), executable.CacheKey, region, faults) && execute ==>
              Computed(old(Snap(secondary)), executable.outcome, secondary, executable.CacheKey, region, faults,
                       LookupTrace(old(Snap(secondary)), executable.CacheKey, region, faults,
                                   if secondary != null then [Step(SecondaryGet, false)] else []), result, trace))
    {
      trace, recorded := [], [];
      if executable == null {
        result := Err(ArgumentNull("executable"));
        return;
      }
      if !UseCache(forceCache) {
        result := executable.ExecuteAsync();
        return;
      }
      ghost var s0 := Snap(secondary);
      if secondary != null {
        var temp1;
        temp1, trace := TryGet(secondary, cache.lock, SecondaryGet, executable.CacheKey, region, faults, []);
        assert Snap(secondary) == s0 && trace == [Step(SecondaryGet, false)];
        if temp1.Err? {
          recorded := [temp1.error];
        } else if temp1.value.Some? {
          result := Ok(Some(AsSecondaryHit(temp1.value.value, CacheEnabled)));
          return;
        }
      }
      var more: seq<Fault>;
      result, trace, more := ServePrimary(executable, secondary, region, execute, faults, trace);
      recorded := recorded + more;
    }
  }
}
