/**
 * The dedup cache `FeedProcessor.cache`: a dict from content fingerprint to record, kept in
 * insertion order as Python dicts are. `load_cache` keeps only the records younger than
 * three days; `process_entry` inserts a record for a fingerprint it has not seen.
 */
module DedupCache {
  import opened Wrappers
  import opened Feed
  import opened Rules
  import opened Classifier

  /** A SHA-256 hex digest. */
  type Fingerprint = string

  /** The record stored for one fingerprint. */
  datatype CacheRecord = CacheRecord(timestamp: int, category: string, title: string, link: string)

  /** The cache dict: its keys in insertion order, and the record of each key. */
  datatype Cache = Cache(order: seq<Fingerprint>, records: map<Fingerprint, CacheRecord>)

  ghost predicate Distinct(s: seq<Fingerprint>) {
    forall i, j :: 0 <= i < j < |s| ==> s[i] != s[j]
  }

  /** The keys are listed once each, and exactly the keys are listed. */
  ghost predicate WellFormed(c: Cache) {
    && Distinct(c.order)
    && (forall k :: k in c.records <==> k in c.order)
  }

  const EmptyCache := Cache([], map[])

  /** `cache.values()`, in insertion order. */
  function Values(c: Cache): (vs: seq<CacheRecord>)
    requires WellFormed(c)
    ensures |vs| == |c.order|
    ensures forall i :: 0 <= i < |vs| ==> vs[i] == c.records[c.order[i]]
  {
    seq(|c.order|, i requires 0 <= i < |c.order| => c.records[c.order[i]])
  }

  // ---------------------------------------------------------------------------
  // load_cache

  const CacheExpireDays := 3
  const SecondsPerDay := 86400

  /** The record is younger than `CACHE_EXPIRE_DAYS` days (strictly). */
  predicate Fresh(r: CacheRecord, now: int) {
    now - r.timestamp < CacheExpireDays * SecondsPerDay
  }

  /** The keys of `order` whose records are fresh, in the same order. */
  function KeepFresh(order: seq<Fingerprint>, records: map<Fingerprint, CacheRecord>, now: int): (kept: seq<Fingerprint>)
    requires forall k :: k in order ==> k in records
    ensures forall k :: k in kept ==> k in order
    ensures |kept| <= |order|
  {
    if order == [] then []
    else
      var rest := KeepFresh(order[1..], records, now);
      if Fresh(records[order[0]], now) then [order[0]] + rest else rest
  }

  /** Exactly the fresh keys are kept. */
  lemma {:induction false} KeepFreshIsFilter(order: seq<Fingerprint>, records: map<Fingerprint, CacheRecord>, now: int)
    requires forall k :: k in order ==> k in records
    ensures forall k :: k in KeepFresh(order, records, now) <==> k in order && Fresh(records[k], now)
  {
    if order != [] {
      KeepFreshIsFilter(order[1..], records, now);
      assert forall k :: k in order <==> k == order[0] || k in order[1..];
    }
  }

  /** The filter keeps the order of the keys: filtering a concatenation is concatenating the
      filtered parts, so of two kept keys the one inserted first still comes first. */
  lemma {:induction false} KeepFreshAppend(a: seq<Fingerprint>, b: seq<Fingerprint>, records: map<Fingerprint, CacheRecord>, now: int)
    requires forall k :: k in a + b ==> k in records
    ensures KeepFresh(a + b, records, now) == KeepFresh(a, records, now) + KeepFresh(b, records, now)
    decreases |a|
  {
    if a == [] {
      assert a + b == b;
    } else {
      var ab := a + b;
      assert ab[1..] == a[1..] + b;
      KeepFreshAppend(a[1..], b, records, now);
      assert KeepFresh(ab, records, now) == KeepFreshStep(ab, records, now) + KeepFresh(ab[1..], records, now);
      assert KeepFresh(a, records, now) == KeepFreshStep(a, records, now) + KeepFresh(a[1..], records, now);
      assert KeepFreshStep(ab, records, now) == KeepFreshStep(a, records, now);
    }
  }

  /** What the filter makes of the first key. */
  function KeepFreshStep(order: seq<Fingerprint>, records: map<Fingerprint, CacheRecord>, now: int): seq<Fingerprint>
    requires order != [] && order[0] in records
  {
    if Fresh(records[order[0]], now) then [order[0]] else []
  }

  lemma DistinctTail(s: seq<Fingerprint>)
    requires s != [] && Distinct(s)
    ensures Distinct(s[1..]) && s[0] !in s[1..]
  {
    var rest := s[1..];
    forall i, j | 0 <= i < j < |rest| ensures rest[i] != rest[j] {
      assert rest[i] == s[i + 1] && rest[j] == s[j + 1];
    }
    forall i | 0 <= i < |rest| ensures rest[i] != s[0] {
      assert rest[i] == s[i + 1];
    }
  }

  lemma DistinctCons(x: Fingerprint, s: seq<Fingerprint>)
    requires x !in s && Distinct(s)
    ensures Distinct([x] + s)
  {
    var t := [x] + s;
    forall i, j | 0 <= i < j < |t| ensures t[i] != t[j] {
      assert t[j] == s[j - 1];
      if i > 0 {
        assert t[i] == s[i - 1];
      }
    }
  }

  lemma {:induction false} KeepFreshDistinct(order: seq<Fingerprint>, records: map<Fingerprint, CacheRecord>, now: int)
    requires forall k :: k in order ==> k in records
    requires Distinct(order)
    ensures Distinct(KeepFresh(order, records, now))
  {
    if order != [] {
      var rest := order[1..];
      DistinctTail(order);
      KeepFreshDistinct(rest, records, now);
      var keptRest := KeepFresh(rest, records, now);
      assert order[0] !in keptRest;
      if Fresh(records[order[0]], now) {
        assert KeepFresh(order, records, now) == [order[0]] + keptRest;
        DistinctCons(order[0], keptRest);
      }
    }
  }

  /** `load_cache`: `stored` is the parsed cache file, `None` when it cannot be read or parsed
      (a missing file, invalid JSON, a record without a timestamp). */
  function LoadCache(stored: Option<Cache>, now: int): (c: Cache)
    requires stored.Some? ==> WellFormed(stored.value)
    ensures WellFormed(c)
    ensures stored.None? ==> c == EmptyCache
    ensures stored.Some? ==> forall k :: k in c.records <==> k in stored.value.records && Fresh(stored.value.records[k], now)
    ensures stored.Some? ==> forall k :: k in c.records ==> c.records[k] == stored.value.records[k]
    ensures stored.Some? ==> c.order == KeepFresh(stored.value.order, stored.value.records, now)
  {
    match stored
    case None => EmptyCache
    case Some(s) =>
      KeepFreshDistinct(s.order, s.records, now);
      KeepFreshIsFilter(s.order, s.records, now);
      Cache(KeepFresh(s.order, s.records, now), map k | k in s.records && Fresh(s.records[k], now) :: s.records[k])
  }

  /** A record exactly three days old is dropped; one a second younger survives. */
  lemma ExpiryBoundary(s: Cache, now: int, k: Fingerprint)
    requires WellFormed(s) && k in s.records
    ensures now - s.records[k].timestamp == 3 * 86400 ==> k !in LoadCache(Some(s), now).records
    ensures now - s.records[k].timestamp == 3 * 86400 - 1 ==> k in LoadCache(Some(s), now).records
  {
  }

  lemma {:induction false} KeepFreshLater(order: seq<Fingerprint>, records: map<Fingerprint, CacheRecord>, now1: int, now2: int)
    requires forall k :: k in order ==> k in records
    requires now1 <= now2
    ensures KeepFresh(KeepFresh(order, records, now1), records, now2) == KeepFresh(order, records, now2)
  {
    if order != [] {
      KeepFreshLater(order[1..], records, now1, now2);
    }
  }

  /** Expiry is lazy: loading a cache that was loaded earlier gives what a single load at the
      later time gives (in particular loading twice at the same time changes nothing). */
  lemma ReloadIsLoad(stored: Option<Cache>, now1: int, now2: int)
    requires stored.Some? ==> WellFormed(stored.value)
    requires now1 <= now2
    ensures LoadCache(Some(LoadCache(stored, now1)), now2) == LoadCache(stored, now2)
  {
    if stored.Some? {
      var l := LoadCache(Some(LoadCache(stored, now1)), now2);
      var r := LoadCache(stored, now2);
      ReloadKeepsOrder(stored.value, now1, now2);
      ReloadKeepsRecords(stored.value, now1, now2);
      assert l.order == r.order && l.records == r.records;
    }
  }

  lemma ReloadKeepsOrder(s: Cache, now1: int, now2: int)
    requires WellFormed(s)
    requires now1 <= now2
    ensures LoadCache(Some(LoadCache(Some(s), now1)), now2).order == LoadCache(Some(s), now2).order
  {
    var c1 := LoadCache(Some(s), now1);
    KeepFreshLater(s.order, s.records, now1, now2);
    KeepFreshSameRecords(c1.order, c1.records, s.records, now2);
  }

  lemma ReloadKeepsRecords(s: Cache, now1: int, now2: int)
    requires WellFormed(s)
    requires now1 <= now2
    ensures LoadCache(Some(LoadCache(Some(s), now1)), now2).records == LoadCache(Some(s), now2).records
  {
    var c1 := LoadCache(Some(s), now1);
    var l := LoadCache(Some(c1), now2).records;
    var r := LoadCache(Some(s), now2).records;
    assert forall k :: k in l <==> k in r;
    assert forall k :: k in l ==> l[k] == r[k];
  }

  lemma {:induction false} KeepFreshSameRecords(order: seq<Fingerprint>, m1: map<Fingerprint, CacheRecord>, m2: map<Fingerprint, CacheRecord>, now: int)
    requires forall k :: k in order ==> k in m1 && k in m2 && m1[k] == m2[k]
    ensures KeepFresh(order, m1, now) == KeepFresh(order, m2, now)
  {
    if order != [] {
      KeepFreshSameRecords(order[1..], m1, m2, now);
    }
  }

  // ---------------------------------------------------------------------------
  // process_entry

  const TitleLimit := 200

  /** `f"{entry.get('title', '')} {entry.get('description', '')}"`: the text that is hashed and
      classified, before any normalisation. */
  function RawText(e: FeedEntry): string {
    e.title.GetOr("") + " " + e.description.GetOr("")
  }

  /** The cache after `process_entry`, and its return value. */
  datatype Processed = Processed(cache: Cache, category: Option<string>)

  /** `process_entry(entry)` at time `now` with the category table `rules` (`CATEGORIES`),
      `digest` standing for SHA-256 of the raw text. */
  function Process(c: Cache, e: FeedEntry, now: int, rules: seq<CategoryRule>, digest: string -> Fingerprint): (p: Processed)
    requires WellFormed(c)
    ensures WellFormed(p.cache)
  {
    var raw := RawText(e);
    var fp := digest(raw);
    if fp in c.records then Processed(c, None)
    else
      var category := Classify(rules, raw);
      var record := CacheRecord(now, category, Truncate(e.title.GetOr(""), TitleLimit), e.link.GetOr(""));
      Processed(Cache(c.order + [fp], c.records[fp := record]), Some(category))
  }

  /** A fingerprint that is already a key: `None`, and the cache is unchanged. */
  lemma ProcessKnownEntry(c: Cache, e: FeedEntry, now: int, rules: seq<CategoryRule>, digest: string -> Fingerprint)
    requires WellFormed(c) && digest(RawText(e)) in c.records
    ensures Process(c, e, now, rules, digest) == Processed(c, None)
  {
  }

  /** A new fingerprint: exactly one key is added, at the end of the order; its record holds
      the classification of the raw text, the time `now`, the title cut to 200 characters and
      the link; every other record is unchanged. */
  lemma ProcessNewEntry(c: Cache, e: FeedEntry, now: int, rules: seq<CategoryRule>, digest: string -> Fingerprint)
    requires WellFormed(c) && digest(RawText(e)) !in c.records
    ensures var p := Process(c, e, now, rules, digest); var fp := digest(RawText(e));
      && p.cache.records.Keys == c.records.Keys + {fp}
      && p.cache.order == c.order + [fp]
      && p.category == Some(Classify(rules, RawText(e)))
      && p.cache.records[fp].category == Classify(rules, RawText(e))
      && p.cache.records[fp].timestamp == now
      && |p.cache.records[fp].title| <= TitleLimit
      && p.cache.records[fp].title == e.title.GetOr("")[..|p.cache.records[fp].title|]
      && (|e.title.GetOr("")| > TitleLimit ==> |p.cache.records[fp].title| == TitleLimit)
      && (|e.title.GetOr("")| <= TitleLimit ==> p.cache.records[fp].title == e.title.GetOr(""))
      && p.cache.records[fp].link == e.link.GetOr("")
      && forall k :: k in c.records ==> p.cache.records[k] == c.records[k]
  {
  }

  /** Dedup: once an entry is cached, an entry with the same fingerprint (the same raw text, in
      particular) is not classified again, and the first entry's record stays. */
  lemma SameFingerprintIsSkipped(c: Cache, e1: FeedEntry, e2: FeedEntry, now1: int, now2: int, rules: seq<CategoryRule>, digest: string -> Fingerprint)
    requires WellFormed(c)
    requires digest(RawText(e1)) == digest(RawText(e2))
    ensures var p1 := Process(c, e1, now1, rules, digest);
      Process(p1.cache, e2, now2, rules, digest) == Processed(p1.cache, None)
  {
  }

  // ---------------------------------------------------------------------------
  // A batch of entries, processed one after the other

  /** The cache and the number of entries for which `process_entry` returned a category. */
  datatype Batch = Batch(cache: Cache, processed: nat)

  function ProcessBatch(c: Cache, es: seq<FeedEntry>, now: int, rules: seq<CategoryRule>, digest: string -> Fingerprint): (b: Batch)
    requires WellFormed(c)
    ensures WellFormed(b.cache)
  {
    if es == [] then Batch(c, 0)
    else
      var prev := ProcessBatch(c, es[..|es| - 1], now, rules, digest);
      var p := Process(prev.cache, es[|es| - 1], now, rules, digest);
      Batch(p.cache, prev.processed + if p.category.Some? then 1 else 0)
  }

  /** A batch never drops or rewrites a record and only appends to the key order. */
  lemma {:induction false} ProcessBatchKeepsRecords(c: Cache, es: seq<FeedEntry>, now: int, rules: seq<CategoryRule>, digest: string -> Fingerprint)
    requires WellFormed(c)
    ensures var b := ProcessBatch(c, es, now, rules, digest);
      && (forall k :: k in c.records ==> k in b.cache.records && b.cache.records[k] == c.records[k])
      && |b.cache.order| == |c.order| + b.processed
      && b.cache.order[..|c.order|] == c.order
      && b.processed <= |es|
  {
    if es != [] {
      var init := es[..|es| - 1];
      ProcessBatchKeepsRecords(c, init, now, rules, digest);
      var prev := ProcessBatch(c, init, now, rules, digest);
      var last := es[|es| - 1];
      if digest(RawText(last)) !in prev.cache.records {
        ProcessNewEntry(prev.cache, last, now, rules, digest);
        var p := Process(prev.cache, last, now, rules, digest);
        assert p.cache.order[..|c.order|] == prev.cache.order[..|c.order|];
      }
    }
  }

  /** The fingerprints of the entries of a batch. */
  function BatchFingerprints(es: seq<FeedEntry>, digest: string -> Fingerprint): set<Fingerprint> {
    if es == [] then {} else BatchFingerprints(es[..|es| - 1], digest) + {digest(RawText(es[|es| - 1]))}
  }

  /** After a batch the keys are exactly the old keys and the fingerprints of the entries. */
  lemma {:induction false} ProcessBatchKeys(c: Cache, es: seq<FeedEntry>, now: int, rules: seq<CategoryRule>, digest: string -> Fingerprint)
    requires WellFormed(c)
    ensures ProcessBatch(c, es, now, rules, digest).cache.records.Keys == c.records.Keys + BatchFingerprints(es, digest)
  {
    if es != [] {
      var init := es[..|es| - 1];
      ProcessBatchKeys(c, init, now, rules, digest);
      var prev := ProcessBatch(c, init, now, rules, digest);
      var last := es[|es| - 1];
      if digest(RawText(last)) !in prev.cache.records {
        ProcessNewEntry(prev.cache, last, now, rules, digest);
      }
    }
  }
}
