/**
 * ServiceCacheRedisBaseAsync: key addressing, region bookkeeping, the store
 * operations AddCore/GetCore/ContainsCore/RemoveCore/ClearCore/ClearAllCore,
 * the diagnostics scans SizeCore/SizeRegionsCore/StatsCore and the per-type
 * serializer registry, over the database of module Backend.
 */
module ServiceCacheRedis {
  import opened Common
  import opened Text
  import opened Responses
  import opened Codec
  import opened Backend

  /** The region used when an operation needs one and none was given. */
  const RegionKeyNone: string := "none"
  /** The set key that lists every region name. */
  const RegionKeySet: string := "regions"
  /** Every string value is written with an expiry of 8 days. */
  const EntryTtlDays: nat := 8

  const KeyspaceSection: string := "Keyspace"
  const MemorySection: string := "Memory"

  // ---------------------------------------------------------------------------
  // Key addressing

  /**
   * ValidateKey: the physical key. An empty key is returned as it is;
   * otherwise the lower-cased key, prefixed by the lower-cased region and a
   * dash when a region is given.
   */
  function ValidateKey(key: string, region: string): (r: string)
    ensures key == "" ==> r == key
    ensures key != "" ==> IsLowerCase(r)
    ensures key != "" && region == "" ==> r == Lower(key)
    ensures key != "" && region != "" ==> r == Lower(region) + "-" + Lower(key)
  {
    if key == "" then key
    else
      var full := if region != "" then Lower(region) + "-" + key else key;
      LowerIsLowerCase(full);
      LowerConcat(Lower(region) + "-", key);
      LowerConcat(Lower(region), "-");
      LowerIdempotent(region);
      Lower(full)
  }

  /** Without a region, normalising a physical key again changes nothing. */
  lemma ValidateKeyIdempotent(key: string)
    ensures ValidateKey(ValidateKey(key, ""), "") == ValidateKey(key, "")
  {
    if key != "" {
      LowerIdempotent(key);
    }
  }

  /** With a region, normalising twice prefixes the region twice. */
  lemma ValidateKeyPrefixesAgain(key: string, region: string)
    requires key != "" && region != ""
    ensures ValidateKey(ValidateKey(key, region), region) == Lower(region) + "-" + ValidateKey(key, region)
  {
    var v := ValidateKey(key, region);
    assert Lower(v) == v by {
      LowerConcat(Lower(region) + "-", Lower(key));
      LowerConcat(Lower(region), "-");
      LowerIdempotent(region);
      LowerIdempotent(key);
      assert Lower("-") == "-";
    }
  }

  /** For instance, key `k` in region `r` is stored as `r-k`, and normalising that again gives `r-r-k`. */
  lemma ValidateKeyPrefixesAgainExample()
    ensures ValidateKey("k", "r") == "r-k"
    ensures ValidateKey(ValidateKey("k", "r"), "r") == "r-r-k"
  {
    ValidateKeyPrefixesAgain("k", "r");
    assert Lower("r") == "r" && Lower("k") == "k";
  }

  // ---------------------------------------------------------------------------
  // What the store operations do to the database

  /** KeyExistsAsync on the physical key, after the key check of ContainsCore. */
  function Exists(db: Db, key: string, region: string): Result<bool, Fault>
  {
    if key == "" then Err(ArgumentNullOrEmpty("key"))
    else Ok(ValidateKey(key, region) in db.strings)
  }

  /** What GetCore returns: the decoded payload, or the default (None) when absent. */
  function Lookup(db: Db, key: string, region: string): Result<Option<Response>, Fault>
  {
    if key == "" then Err(ArgumentNullOrEmpty("key"))
    else if ValidateKey(key, region) in db.strings then Decode(db.strings[ValidateKey(key, region)].payload)
    else Ok(None)
  }

  /**
   * The database after AddCore(key, value, region): the payload under the
   * physical key, the region (as given) in the "regions" set, the physical
   * key in the region's set.
   */
  function AfterAdd(db: Db, key: string, value: Option<Response>, region: string): (r: Db)
    requires key != ""
    ensures Exists(r, key, region) == Ok(true)
    ensures Lookup(r, key, region) == Ok(value)
    ensures r.strings[ValidateKey(key, region)].ttlDays == EntryTtlDays
    ensures region != RegionKeySet ==>
      && Members(r.sets, RegionKeySet) == Members(db.sets, RegionKeySet) + {region}
      && Members(r.sets, region) == Members(db.sets, region) + {ValidateKey(key, region)}
    ensures region == RegionKeySet ==>
      Members(r.sets, RegionKeySet) == Members(db.sets, RegionKeySet) + {region, ValidateKey(key, region)}
    ensures forall k :: k != ValidateKey(key, region) ==>
      (k in r.strings <==> k in db.strings) && (k in db.strings ==> r.strings[k] == db.strings[k])
    ensures forall n :: n != RegionKeySet && n != region ==> Members(r.sets, n) == Members(db.sets, n)
  {
    var k := ValidateKey(key, region);
    Db(db.strings[k := Entry(Encode(value), EntryTtlDays)],
       SetAdd(SetAdd(db.sets, RegionKeySet, region), region, k))
  }

  /**
   * The database after RemoveCore(key, region): the physical key deleted,
   * removed from the region's set, and the region removed from the
   * "regions" set whether or not other keys remain in it.
   */
  function AfterRemove(db: Db, key: string, region: string): (r: Db)
    requires key != ""
    ensures Exists(r, key, region) == Ok(false)
    ensures Lookup(r, key, region) == Ok(None)
    ensures region != RegionKeySet ==>
      && Members(r.sets, RegionKeySet) == Members(db.sets, RegionKeySet) - {region}
      && Members(r.sets, region) == Members(db.sets, region) - {ValidateKey(key, region)}
    ensures region == RegionKeySet ==>
      Members(r.sets, RegionKeySet) == Members(db.sets, RegionKeySet) - {region, ValidateKey(key, region)}
    ensures forall k :: k != ValidateKey(key, region) ==>
      (k in r.strings <==> k in db.strings) && (k in db.strings ==> r.strings[k] == db.strings[k])
    ensures forall n :: n != RegionKeySet && n != region ==> Members(r.sets, n) == Members(db.sets, n)
  {
    var k := ValidateKey(key, region);
    Db(db.strings - {k}, SetRemove(SetRemove(db.sets, RegionKeySet, region), region, k))
  }

  /** The set ClearCore reads: the region lower-cased, "none" when absent. */
  function ClearTarget(region: string): (t: string)
    ensures IsLowerCase(t)
    ensures region == "" ==> t == RegionKeyNone
    ensures region != "" ==> EqualsIgnore(t, region)
  {
    var name := if region == "" then RegionKeyNone else region;
    LowerIsLowerCase(name);
    LowerIdempotent(region);
    assert Lower(RegionKeyNone) == RegionKeyNone;
    Lower(name)
  }

  /**
   * The database after ClearCore(region): every non-empty member of the
   * target set deleted as a key; all other keys and every set unchanged.
   */
  function AfterClear(db: Db, region: string): (r: Db)
    ensures r.sets == db.sets
    ensures forall k :: k in r.strings <==> k in db.strings && (k == "" || k !in Members(db.sets, ClearTarget(region)))
    ensures forall k :: k in r.strings ==> r.strings[k] == db.strings[k]
  {
    db.(strings := db.strings - (Members(db.sets, ClearTarget(region)) - {""}))
  }

  /** Adding under one region and clearing another leaves the added key in place. */
  lemma RegionIsolation(db: Db, ka: string, a: string, kb: string, b: string, v: Option<Response>, w: Option<Response>)
    requires ka != "" && kb != "" && a != "" && Lower(a) == a && a != RegionKeySet && a != b
    requires ValidateKey(kb, b) != ValidateKey(ka, a)
    requires ValidateKey(kb, b) !in Members(db.sets, a)
    ensures var cleared := AfterClear(AfterAdd(AfterAdd(db, ka, v, a), kb, w, b), a);
      Lookup(cleared, ka, a) == Ok(None) && Lookup(cleared, kb, b) == Ok(w)
  {
    var db1 := AfterAdd(db, ka, v, a);
    var db2 := AfterAdd(db1, kb, w, b);
    assert ClearTarget(a) == a;
    assert ValidateKey(ka, a) in Members(db2.sets, a);
    assert ValidateKey(kb, b) !in Members(db2.sets, a);
  }

  /** ClearCore lower-cases the region but AddCore files the key under the region as given. */
  lemma ClearMissesMixedCaseRegion(v: Option<Response>)
    ensures Lookup(AfterClear(AfterAdd(EmptyDb, "k", v, "Users"), "Users"), "k", "Users") == Ok(v)
  {
    assert Lower("Users") == "users";
    var db1 := AfterAdd(EmptyDb, "k", v, "Users");
    assert Members(db1.sets, "users") == {};
  }

  /** ClearCore without a region reads set "none", but AddCore without a region files under "". */
  lemma ClearMissesKeysWithoutRegion(v: Option<Response>)
    ensures Lookup(AfterClear(AfterAdd(EmptyDb, "k", v, ""), ""), "k", "") == Ok(v)
  {
    assert Lower("none") == "none";
    var db1 := AfterAdd(EmptyDb, "k", v, "");
    assert Members(db1.sets, "none") == {};
  }

  /** Removing one key of a region drops the region from "regions" although another key remains. */
  lemma RemoveForgetsRegion(db: Db, k1: string, k2: string, region: string, v: Option<Response>, w: Option<Response>)
    requires k1 != "" && k2 != "" && region != RegionKeySet
    requires ValidateKey(k1, region) != ValidateKey(k2, region)
    ensures var after := AfterRemove(AfterAdd(AfterAdd(db, k1, v, region), k2, w, region), k1, region);
      region !in Members(after.sets, RegionKeySet)
      && ValidateKey(k2, region) in Members(after.sets, region)
      && Lookup(after, k2, region) == Ok(w)
  {
  }

  // ---------------------------------------------------------------------------
  // Region tally of SizeRegionsCore

  /** The region SizeRegionsCore attributes a key to: the first of exactly two dash-separated parts, else "none". */
  function RegionOf(cacheKey: string): (r: string)
    ensures Occurrences(cacheKey, '-') != 1 ==> r == RegionKeyNone
    ensures Occurrences(cacheKey, '-') == 1 ==> '-' !in r && r + "-" <= cacheKey
  {
    var parts := Split(cacheKey, '-');
    if |parts| == 2 then
      JoinSplit(cacheKey, '-');
      assert cacheKey == parts[0] + "-" + parts[1];
      parts[0]
    else RegionKeyNone
  }

  lemma LowerKeepsDashes(s: string)
    requires '-' !in s
    ensures '-' !in Lower(s)
  {
  }

  /** A key added under a dash-free region is tallied under that region (lower-cased). */
  lemma RegionOfValidatedKey(key: string, region: string)
    requires key != "" && region != "" && '-' !in key && '-' !in region
    ensures RegionOf(ValidateKey(key, region)) == Lower(region)
  {
    LowerKeepsDashes(key);
    LowerKeepsDashes(region);
    SplitAt(Lower(region), '-', Lower(key));
    SplitWithout(Lower(key), '-');
  }

  /** A key with two dashes is tallied under "none", even when its first part names a region. */
  lemma RegionOfTwoDashes(a: string, b: string, c: string)
    requires '-' !in a && '-' !in b && '-' !in c
    ensures RegionOf(a + "-" + b + "-" + c) == RegionKeyNone
  {
    SplitAt(a, '-', b + "-" + c);
    SplitAt(b, '-', c);
    SplitWithout(c, '-');
    assert a + "-" + b + "-" + c == a + ['-'] + (b + ['-'] + c);
  }

  /** The number of keys attributed to `region`. */
  function Occ(keys: seq<string>, region: string): nat
  {
    if keys == [] then 0
    else Occ(keys[..|keys| - 1], region) + (if RegionOf(keys[|keys| - 1]) == region then 1 else 0)
  }

  /** The sum of the counts of a tally. */
  ghost function Total(m: map<string, nat>): nat
    decreases |m|
  {
    if m == map[] then 0
    else
      var k :| k in m;
      assert |m - {k}| < |m| by { assert m.Keys == (m - {k}).Keys + {k}; }
      m[k] + Total(m - {k})
  }

  lemma {:induction false} TotalRemove(m: map<string, nat>, k: string)
    requires k in m
    ensures Total(m) == m[k] + Total(m - {k})
    decreases |m|
  {
    var j :| j in m && Total(m) == m[j] + Total(m - {j});
    if j != k {
      assert (m - {j}).Keys + {j} == m.Keys;
      assert (m - {k}).Keys + {k} == m.Keys;
      TotalRemove(m - {j}, k);
      TotalRemove(m - {k}, j);
      assert m - {j} - {k} == m - {k} - {j};
    }
  }

  /** The tally of a key listing, built key by key as SizeRegionsCore does. */
  function Tally(keys: seq<string>): map<string, nat>
  {
    if keys == [] then map[]
    else
      var counts := Tally(keys[..|keys| - 1]);
      var region := RegionOf(keys[|keys| - 1]);
      counts[region := if region in counts then counts[region] + 1 else 1]
  }

  /**
   * A region is in the tally exactly when some key is attributed to it, with
   * the number of those keys as its count; the counts add up to the number of keys.
   */
  lemma {:induction false} TallyCounts(keys: seq<string>)
    ensures forall region :: region in Tally(keys) <==> Occ(keys, region) > 0
    ensures forall region :: region in Tally(keys) ==> Tally(keys)[region] == Occ(keys, region)
    ensures Total(Tally(keys)) == |keys|
  {
    if keys != [] {
      var init := keys[..|keys| - 1];
      TallyCounts(init);
      var counts := Tally(init);
      var region := RegionOf(keys[|keys| - 1]);
      TotalUpdate(counts, region, if region in counts then counts[region] + 1 else 1);
    }
  }

  lemma TotalUpdate(m: map<string, nat>, k: string, v: nat)
    ensures Total(m[k := v]) + (if k in m then m[k] else 0) == Total(m) + v
  {
    TotalRemove(m[k := v], k);
    if k in m {
      TotalRemove(m, k);
      assert m[k := v] - {k} == m - {k};
    } else {
      assert m[k := v] - {k} == m;
    }
  }

  // ---------------------------------------------------------------------------
  // INFO parsing of SizeCore and StatsCore

  /**
   * The key count of a Keyspace section: the text after the first '=' of the
   * first comma field of its first value. No value at all is a null
   * dereference; a field without '=' indexes past the end of the split.
   */
  function KeyCount(values: seq<string>): (r: Result<Option<int>, Fault>)
    ensures r == Err(NullReference) <==> values == []
    ensures r == Err(IndexOutOfRange) <==> values != [] && '=' !in Split(values[0], ',')[0]
    ensures r.Err? ==> r.error == NullReference || r.error == IndexOutOfRange
    ensures r.Ok? && r.value.Some? ==> LongMin <= r.value.value <= LongMax
  {
    if values == [] then Err(NullReference)
    else
      var fields := Split(values[0], ',');
      var pair := Split(fields[0], '=');
      OccurrencesIn(fields[0], '=');
      if |pair| < 2 then Err(IndexOutOfRange) else Ok(TryParseLong(pair[1]))
  }

  /** The Keyspace line Redis writes, `keys=<n>,expires=...`, yields n. */
  lemma KeyCountOfRendered(name: string, n: nat, tail: string, more: seq<string>)
    requires n <= LongMax && ',' !in name && '=' !in name
    ensures KeyCount([name + "=" + Decimal(n) + "," + tail] + more) == Ok(Some(n))
  {
    var d := Decimal(n);
    assert ',' !in d && '=' !in d by {
      forall i | 0 <= i < |d| ensures d[i] != ',' && d[i] != '=' { assert IsDigit(d[i]); }
    }
    var line := name + "=" + d + "," + tail;
    assert line == (name + ['='] + d) + [','] + tail;
    SplitAt(name + ['='] + d, ',', tail);
    SplitAt(name, '=', d);
    SplitWithout(d, '=');
    ParseDecimal(n);
  }

  /** A key count line without '=' makes the scan throw instead of reporting 0. */
  lemma KeyCountWithoutEquals(line: string)
    requires ',' !in line && '=' !in line
    ensures KeyCount([line]) == Err(IndexOutOfRange)
  {
    SplitWithout(line, ',');
    SplitWithout(line, '=');
  }

  /**
   * The key count a scan of the INFO sections ends with: each Keyspace
   * section overwrites it (a later one wins), and the first one that throws
   * ends the scan.
   */
  function ScanKeyspace(groups: seq<InfoGroup>): Result<Option<int>, Fault>
  {
    if groups == [] then Ok(None)
    else KeyspaceStep(ScanKeyspace(groups[..|groups| - 1]), groups[|groups| - 1])
  }

  /** One section's effect on the key count gathered so far. */
  function KeyspaceStep(prev: Result<Option<int>, Fault>, g: InfoGroup): Result<Option<int>, Fault>
  {
    if prev.Err? || !EqualsIgnore(g.name, KeyspaceSection) then prev
    else KeyCount(g.values)
  }

  /** Extending the sections by one applies one more step to the key count. */
  lemma ScanKeyspacePrefix(groups: seq<InfoGroup>, g: nat)
    requires g < |groups|
    ensures ScanKeyspace(groups[..g + 1]) == KeyspaceStep(ScanKeyspace(groups[..g]), groups[g])
  {
    assert groups[..g + 1][..g] == groups[..g];
  }

  /** Once a Keyspace section has thrown, the later sections are never looked at. */
  lemma {:induction false} ScanKeyspaceStopsAtFault(groups: seq<InfoGroup>, n: nat)
    requires n <= |groups| && ScanKeyspace(groups[..n]).Err?
    ensures ScanKeyspace(groups) == ScanKeyspace(groups[..n])
  {
    if n < |groups| {
      var init := groups[..|groups| - 1];
      assert init[..n] == groups[..n];
      ScanKeyspaceStopsAtFault(init, n);
      assert ScanKeyspace(init).Err?;
    } else {
      assert groups[..n] == groups;
    }
  }

  lemma {:induction false} ScanKeyspaceWithoutSection(groups: seq<InfoGroup>)
    requires forall i :: 0 <= i < |groups| ==> !EqualsIgnore(groups[i].name, KeyspaceSection)
    ensures ScanKeyspace(groups) == Ok(None)
  {
    if groups != [] {
      ScanKeyspaceWithoutSection(groups[..|groups| - 1]);
    }
  }

  /** With exactly one Keyspace section, the scan reports that section's count. */
  lemma {:induction false} ScanKeyspaceSingle(groups: seq<InfoGroup>, j: nat)
    requires j < |groups| && EqualsIgnore(groups[j].name, KeyspaceSection)
    requires forall i :: 0 <= i < |groups| && i != j ==> !EqualsIgnore(groups[i].name, KeyspaceSection)
    ensures ScanKeyspace(groups) == KeyCount(groups[j].values)
  {
    if j == |groups| - 1 {
      ScanKeyspaceWithoutSection(groups[..j]);
    } else {
      ScanKeyspaceSingle(groups[..|groups| - 1], j);
    }
  }

  /**
   * INFO after FLUSHDB: with no key left in the database Redis reports no
   * Keyspace line, so the Keyspace section is gone; every other section stays.
   */
  function Flushed(info: seq<InfoGroup>): (r: seq<InfoGroup>)
    ensures forall i :: 0 <= i < |r| ==> !EqualsIgnore(r[i].name, KeyspaceSection)
    ensures forall g :: g in r <==> g in info && !EqualsIgnore(g.name, KeyspaceSection)
  {
    if info == [] then []
    else
      var rest := info[..|info| - 1];
      var last := info[|info| - 1];
      assert forall g :: g in info <==> g in rest || g == last by {
        assert info == rest + [last];
      }
      if EqualsIgnore(last.name, KeyspaceSection) then Flushed(rest) else Flushed(rest) + [last]
  }

  /** The fields StatsCore reports; each is absent when its text does not parse. */
  datatype CacheStats = CacheStats(keys: Option<int>, storage: Option<int>, storageMax: Option<int>)

  const NoStats: CacheStats := CacheStats(None, None, None)

  /** The value at a position, parsed; a missing value (FirstOrDefault's null) does not parse. */
  function FieldAt(values: seq<string>, i: nat): Option<int>
  {
    if i < |values| then TryParseLong(values[i]) else None
  }

  /** One section's effect on the statistics gathered so far. */
  function StatsStep(prev: Result<CacheStats, Fault>, g: InfoGroup): Result<CacheStats, Fault>
  {
    if prev.Err? then prev
    else if EqualsIgnore(g.name, MemorySection) then
      Ok(prev.value.(storage := FieldAt(g.values, 0), storageMax := FieldAt(g.values, 3)))
    else if EqualsIgnore(g.name, KeyspaceSection) then
      match KeyCount(g.values)
      case Err(e) => Err(e)
      case Ok(k) => Ok(prev.value.(keys := k))
    else prev
  }

  /** The statistics a scan of the INFO sections ends with. */
  function ScanStats(groups: seq<InfoGroup>): Result<CacheStats, Fault>
  {
    if groups == [] then Ok(NoStats)
    else StatsStep(ScanStats(groups[..|groups| - 1]), groups[|groups| - 1])
  }

  /** Extending the sections by one applies one more step to the statistics. */
  lemma ScanStatsPrefix(groups: seq<InfoGroup>, g: nat)
    requires g < |groups|
    ensures ScanStats(groups[..g + 1]) == StatsStep(ScanStats(groups[..g]), groups[g])
  {
    assert groups[..g + 1][..g] == groups[..g];
  }

  lemma {:induction false} ScanStatsStopsAtFault(groups: seq<InfoGroup>, n: nat)
    requires n <= |groups| && ScanStats(groups[..n]).Err?
    ensures ScanStats(groups) == ScanStats(groups[..n])
  {
    if n < |groups| {
      var init := groups[..|groups| - 1];
      assert init[..n] == groups[..n];
      ScanStatsStopsAtFault(init, n);
      assert ScanStats(init).Err?;
    } else {
      assert groups[..n] == groups;
    }
  }

  /** StatsCore's key count is exactly SizeCore's, failures included. */
  lemma {:induction false} StatsKeysAgreeWithSize(groups: seq<InfoGroup>)
    ensures ScanStats(groups).Ok? <==> ScanKeyspace(groups).Ok?
    ensures ScanStats(groups).Ok? ==> ScanStats(groups).value.keys == ScanKeyspace(groups).value
    ensures ScanStats(groups).Err? ==> ScanStats(groups).error == ScanKeyspace(groups).error
  {
    if groups != [] {
      StatsKeysAgreeWithSize(groups[..|groups| - 1]);
      assert !EqualsIgnore(KeyspaceSection, MemorySection) by {
        assert Lower(KeyspaceSection)[0] != Lower(MemorySection)[0];
      }
    }
  }

  /** After a flush both scans find no key count, so SizeCore reports 0. */
  lemma FlushedReportsNoKeys(info: seq<InfoGroup>)
    ensures ScanKeyspace(Flushed(info)) == Ok(None)
    ensures ScanStats(Flushed(info)).Ok? && ScanStats(Flushed(info)).value.keys == None
  {
    ScanKeyspaceWithoutSection(Flushed(info));
    StatsKeysAgreeWithSize(Flushed(info));
  }

  lemma SectionNames()
    ensures EqualsIgnore("Memory", MemorySection) && EqualsIgnore("Keyspace", KeyspaceSection)
    ensures !EqualsIgnore("Keyspace", MemorySection)
  {
    assert Lower("Keyspace")[0] == 'k' && Lower(MemorySection)[0] == 'm';
  }

  /**
   * INFO with a Memory section whose first and fourth values are the used and
   * maximum byte counts, followed by a Keyspace line `keys=<n>,expires=...`.
   */
  lemma {:induction false} StatsOfRenderedInfo(used: nat, second: string, third: string, max: nat, n: nat, tail: string)
    requires used <= LongMax && max <= LongMax && n <= LongMax
    ensures ScanStats([InfoGroup("Memory", [Decimal(used), second, third, Decimal(max)]),
                       InfoGroup("Keyspace", ["keys=" + Decimal(n) + "," + tail])])
      == Ok(CacheStats(Some(n), Some(used), Some(max)))
  {
    var memory := InfoGroup("Memory", [Decimal(used), second, third, Decimal(max)]);
    var keyspace := InfoGroup("Keyspace", ["keys=" + Decimal(n) + "," + tail]);
    var groups := [memory, keyspace];
    MemoryStepOfRendered(used, second, third, max);
    KeyCountOfRenderedLine(n, tail);
    assert groups[..1] == [memory] && [memory][..0] == [];
    assert ScanStats([memory]) == Ok(CacheStats(None, Some(used), Some(max)));
    SectionNames();
    assert ScanStats(groups) == StatsStep(ScanStats([memory]), keyspace);
  }

  lemma MemoryStepOfRendered(used: nat, second: string, third: string, max: nat)
    requires used <= LongMax && max <= LongMax
    ensures StatsStep(Ok(NoStats), InfoGroup("Memory", [Decimal(used), second, third, Decimal(max)]))
      == Ok(CacheStats(None, Some(used), Some(max)))
  {
    SectionNames();
    ParseDecimal(used);
    ParseDecimal(max);
  }

  lemma KeyCountOfRenderedLine(n: nat, tail: string)
    requires n <= LongMax
    ensures KeyCount(["keys=" + Decimal(n) + "," + tail]) == Ok(Some(n))
  {
    KeyCountOfRendered("keys", n, tail, []);
    assert "keys" + "=" + Decimal(n) + "," + tail == "keys=" + Decimal(n) + "," + tail;
  }

  // ---------------------------------------------------------------------------
  // The serializer registry and the writer lock

  type TypeTag = string

  /** MessagePackSerializer<T>: one instance per value type, told apart by the order of creation. */
  datatype Serializer = Serializer(forType: TypeTag, serial: nat)

  /** The type tag of the response values this model stores. */
  const ResponseType: TypeTag := "Response"

  /** Every entry of `older` is still in `newer`, unchanged. */
  predicate Extends(older: map<TypeTag, Serializer>, newer: map<TypeTag, Serializer>)
  {
    forall t :: t in older ==> t in newer && newer[t] == older[t]
  }

  /** The static per-type serializer dictionary. */
  class SerializerRegistry {
    var serializers: map<TypeTag, Serializer>
    var created: nat

    ghost predicate Valid()
      reads this
    {
      forall t :: t in serializers ==> serializers[t].forType == t && serializers[t].serial < created
    }

    constructor ()
      ensures Valid() && serializers == map[] && created == 0
    {
      serializers := map[];
      created := 0;
    }

    /**
     * SerializerInstance<T>: the registered serializer for the type, created
     * and registered on first request; an existing entry is never replaced.
     */
    method SerializerInstance(t: TypeTag) returns (s: Serializer)
      requires Valid()
      modifies this
      ensures Valid() && Extends(old(serializers), serializers)
      ensures t in serializers && s == serializers[t] && s.forType == t
      ensures t in old(serializers) ==> serializers == old(serializers) && created == old(created)
      ensures t !in old(serializers) ==>
        serializers == old(serializers)[t := s] && s.serial == old(created) && created == old(created) + 1
    {
      if t !in serializers {
        var newSerializer := Serializer(t, created);
        serializers := serializers[t := newSerializer];
        created := created + 1;
      }
      s := serializers[t];
    }
  }

  /** The writer side of the service's AsyncReaderWriterLock, reduced to whether it is held. */
  class WriterLock {
    var held: bool
    ghost var acquisitions: nat

    constructor ()
      ensures !held && acquisitions == 0
    {
      held := false;
      acquisitions := 0;
    }

    /** WriterLockAsync. */
    method Acquire()
      requires !held
      modifies this
      ensures held && acquisitions == old(acquisitions) + 1
    {
      held := true;
      acquisitions := acquisitions + 1;
    }

    /** Dispose of the handle WriterLockAsync returned. */
    method Release()
      requires held
      modifies this
      ensures !held && acquisitions == old(acquisitions)
    {
      held := false;
    }
  }

  // ---------------------------------------------------------------------------
  // The cache service

  /** One section of the INFO scan in SizeCore. */
  method ApplyKeyspace(keys: Option<int>, data: InfoGroup) returns (r: Result<Option<int>, Fault>)
    ensures r == KeyspaceStep(Ok(keys), data)
  {
    r := Ok(keys);
    if EqualsIgnore(data.name, KeyspaceSection) {
      r := KeyCount(data.values);
    }
  }

  /** The scan of one endpoint's INFO sections in SizeCore. */
  method KeyspaceOfInfo(info: seq<InfoGroup>) returns (r: Result<Option<int>, Fault>)
    ensures r == ScanKeyspace(info)
  {
    var keys: Option<int> := None;
    for g := 0 to |info|
      invariant ScanKeyspace(info[..g]) == Ok(keys)
    {
      ScanKeyspacePrefix(info, g);
      var next := ApplyKeyspace(keys, info[g]);
      if next.Err? {
        ScanKeyspaceStopsAtFault(info, g + 1);
        return next;
      }
      keys := next.value;
    }
    assert info[..|info|] == info;
    return Ok(keys);
  }

  /** The tally of one endpoint's keys in SizeRegionsCore. */
  method RegionCounts(keys: seq<string>) returns (counts: map<string, nat>)
    ensures forall region :: region in counts <==> Occ(keys, region) > 0
    ensures forall region :: region in counts ==> counts[region] == Occ(keys, region)
    ensures Total(counts) == |keys|
  {
    counts := map[];
    for i := 0 to |keys|
      invariant counts == Tally(keys[..i])
    {
      assert keys[..i + 1][..i] == keys[..i];
      var region := RegionKeyNone;
      var values := Split(keys[i], '-');
      if |values| == 2 {
        region := values[0];
      }
      assert region == RegionOf(keys[i]);
      if region in counts {
        counts := counts[region := counts[region] + 1];
      } else {
        counts := counts[region := 1];
      }
    }
    assert keys[..|keys|] == keys;
    TallyCounts(keys);
  }

  /** One section of the INFO scan in StatsCore. */
  method ApplyGroup(stats: CacheStats, data: InfoGroup) returns (r: Result<CacheStats, Fault>)
    ensures r == StatsStep(Ok(stats), data)
  {
    r := Ok(stats);
    if EqualsIgnore(data.name, MemorySection) {
      var next := stats.(storage := FieldAt(data.values, 0));
      next := next.(storageMax := FieldAt(data.values, 3));
      r := Ok(next);
    } else if EqualsIgnore(data.name, KeyspaceSection) {
      var count := KeyCount(data.values);
      if count.Err? {
        return Err(count.error);
      }
      r := Ok(stats.(keys := count.value));
    }
  }

  /** The scan of one endpoint's INFO sections in StatsCore. */
  method StatsOfInfo(info: seq<InfoGroup>) returns (r: Result<CacheStats, Fault>)
    ensures r == ScanStats(info)
  {
    var stats := NoStats;
    for g := 0 to |info|
      invariant ScanStats(info[..g]) == Ok(stats)
    {
      ScanStatsPrefix(info, g);
      var next := ApplyGroup(stats, info[g]);
      if next.Err? {
        ScanStatsStopsAtFault(info, g + 1);
        return next;
      }
      stats := next.value;
    }
    assert info[..|info|] == info;
    return Ok(stats);
  }

  class RedisCache {
    var db: Db
    var servers: seq<Server>
    const registry: SerializerRegistry
    const lock: WriterLock
    /** CacheLockEnabled: whether Check takes the writer lock around its compute section. */
    const CacheLockEnabled: bool

    /** A service over a connected database (connection setup is not modelled). */
    constructor (db: Db, servers: seq<Server>, registry: SerializerRegistry)
      ensures this.db == db && this.servers == servers && this.registry == registry
      ensures fresh(lock) && !lock.held
      ensures !CacheLockEnabled
    {
      this.db := db;
      this.servers := servers;
      this.registry := registry;
      lock := new WriterLock();
      CacheLockEnabled := false;
    }

    method AddCore(key: string, value: Option<Response>, region: string) returns (r: Result<bool, Fault>)
      requires registry.Valid()
      modifies this`db, registry
      ensures registry.Valid() && Extends(old(registry.serializers), registry.serializers)
      ensures key == "" ==> r == Err(ArgumentNullOrEmpty("key")) && db == old(db)
      ensures key != "" ==> r == Ok(true) && db == AfterAdd(old(db), key, value, region)
    {
      if key == "" {
        return Err(ArgumentNullOrEmpty("key"));
      }
      var physical := ValidateKey(key, region);
      var serializer := registry.SerializerInstance(ResponseType);
      var storeValue := Encode(value);
      db := db.(strings := db.strings[physical := Entry(storeValue, EntryTtlDays)]);
      db := db.(sets := SetAdd(db.sets, RegionKeySet, region));
      db := db.(sets := SetAdd(db.sets, region, physical));
      return Ok(true);
    }

    method ClearCore(region: string) returns (ok: bool)
      modifies this`db
      ensures ok && db == AfterClear(old(db), region)
    {
      var name := region;
      if name == "" {
        name := RegionKeyNone;
      }
      name := Lower(name);
      var members := Members(db.sets, name);
      var pending := members;
      while pending != {}
        invariant pending <= members
        invariant db.sets == old(db.sets)
        invariant db.strings == old(db.strings) - ((members - pending) - {""})
        decreases pending
      {
        var item :| item in pending;
        pending := pending - {item};
        if item == "" {
          continue;
        }
        db := db.(strings := db.strings - {item});
      }
      assert members - {} == members;
      return true;
    }

    method ClearAllCore() returns (ok: bool)
      modifies this
      ensures ok
      ensures |servers| == |old(servers)|
      ensures forall i :: 0 <= i < |servers| ==>
        servers[i] == old(servers[i]).(keys := [], info := Flushed(old(servers[i].info)))
      // no endpoint reports a key count any more
      ensures forall i :: 0 <= i < |servers| ==> ScanKeyspace(servers[i].info) == Ok(None)
      ensures db == if old(servers) == [] then old(db) else EmptyDb
    {
      ghost var s0 := servers;
      var i := 0;
      while i < |servers|
        invariant 0 <= i <= |servers| == |s0|
        invariant forall j :: 0 <= j < i ==>
          servers[j] == s0[j].(keys := [], info := Flushed(s0[j].info))
        invariant servers[i..] == s0[i..]
        invariant db == if i == 0 then old(db) else EmptyDb
      {
        assert servers[i] == servers[i..][0] == s0[i..][0] == s0[i];
        servers := servers[i := servers[i].(keys := [], info := Flushed(servers[i].info))];
        db := EmptyDb;
        i := i + 1;
      }
      forall j | 0 <= j < |servers|
        ensures ScanKeyspace(servers[j].info) == Ok(None)
      {
        FlushedReportsNoKeys(s0[j].info);
      }
      return true;
    }

    method ContainsCore(key: string, region: string) returns (r: Result<bool, Fault>)
      ensures key == "" ==> r == Err(ArgumentNullOrEmpty("key"))
      ensures key != "" ==> r == Ok(ValidateKey(key, region) in db.strings)
    {
      if key == "" {
        return Err(ArgumentNullOrEmpty("key"));
      }
      var physical := ValidateKey(key, region);
      return Ok(physical in db.strings);
    }

    method GetCore(key: string, region: string) returns (r: Result<Option<Response>, Fault>)
      requires registry.Valid()
      modifies registry
      ensures registry.Valid() && Extends(old(registry.serializers), registry.serializers)
      ensures r == Lookup(db, key, region)
      ensures key == "" ==> r == Err(ArgumentNullOrEmpty("key"))
      ensures key != "" && ValidateKey(key, region) !in db.strings ==> r == Ok(None)
      ensures key != "" && ValidateKey(key, region) in db.strings ==>
        r == Decode(db.strings[ValidateKey(key, region)].payload)
    {
      if key == "" {
        return Err(ArgumentNullOrEmpty("key"));
      }
      var physical := ValidateKey(key, region);
      if physical in db.strings {
        var value := db.strings[physical].payload;
        var serializer := registry.SerializerInstance(ResponseType);
        return Decode(value);
      }
      return Ok(None);
    }

    method RemoveCore(key: string, region: string) returns (r: Result<bool, Fault>)
      modifies this`db
      ensures key == "" ==> r == Err(ArgumentNullOrEmpty("key")) && db == old(db)
      ensures key != "" ==> r == Ok(true) && db == AfterRemove(old(db), key, region)
    {
      if key == "" {
        return Err(ArgumentNullOrEmpty("key"));
      }
      var physical := ValidateKey(key, region);
      db := db.(strings := db.strings - {physical});
      db := db.(sets := SetRemove(db.sets, RegionKeySet, region));
      db := db.(sets := SetRemove(db.sets, region, physical));
      return Ok(true);
    }

    /** The number of keys on the first endpoint, as its Keyspace section reports it; 0 if unparsable. */
    method SizeCore() returns (r: Result<int, Fault>)
      ensures servers == [] ==> r == Ok(0)
      ensures servers != [] ==>
        match ScanKeyspace(servers[0].info)
        case Err(e) => r == Err(e)
        case Ok(keys) => r == Ok(OrZero(keys))
    {
      var keys: Option<int> := None;
      for e := 0 to |servers|
        invariant e == 0 && keys == None
      {
        var scanned := KeyspaceOfInfo(servers[e].info);
        if scanned.Err? {
          return Err(scanned.error);
        }
        keys := scanned.value;
        break;
      }
      return Ok(OrZero(keys));
    }

    /** Keys of the first endpoint counted by region. */
    method SizeRegionsCore() returns (counts: map<string, nat>)
      ensures var keys := if servers == [] then [] else servers[0].keys;
        && (forall region :: region in counts <==> Occ(keys, region) > 0)
        && (forall region :: region in counts ==> counts[region] == Occ(keys, region))
        && Total(counts) == |keys|
    {
      counts := map[];
      for e := 0 to |servers|
        invariant e == 0 && counts == map[]
      {
        counts := RegionCounts(servers[e].keys);
        break;
      }
    }

    /** Storage figures of the first endpoint's Memory section and its key count. */
    method StatsCore() returns (r: Result<CacheStats, Fault>)
      ensures servers == [] ==> r == Ok(NoStats)
      ensures servers != [] ==> r == ScanStats(servers[0].info)
    {
      var stats := NoStats;
      for e := 0 to |servers|
        invariant e == 0 && stats == NoStats
      {
        r := StatsOfInfo(servers[e].info);
        return;
      }
      return Ok(stats);
    }
  }
}
