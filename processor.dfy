/**
 * The object `FeedProcessor`: its dedup cache, its per-feed dicts `last_fetch` and
 * `feed_timeout`, and its OPML feed list, updated in place by its methods. Each method is
 * proved against the specification function of its module, so the lemmas proved there
 * hold of the object's state.
 */
module Processor {
  import opened Wrappers
  import opened Feed
  import opened Rules
  import opened Classifier
  import opened DedupCache
  import opened Fetcher
  import opened FeedList
  import opened Publisher

  class FeedProcessor {
    /** SHA-256 of the raw text, as a hex string. */
    const digest: string -> Fingerprint
    /** `CATEGORIES`. */
    const rules: seq<CategoryRule>
    var cache: Cache
    var lastFetch: map<string, int>
    var feedTimeout: map<string, int>
    var lastOpmlUpdate: int
    var feedsList: seq<string>

    ghost predicate Valid()
      reads this
    {
      WellFormed(cache)
    }

    /** `__init__` at time `now`: `stored` is the cache file's contents, `None` when it cannot
        be read or parsed. Git setup is not part of this model. */
    constructor (digest: string -> Fingerprint, stored: Option<Cache>, now: int)
      requires stored.Some? ==> WellFormed(stored.value)
      ensures Valid()
      ensures this.digest == digest && rules == Categories && cache == LoadCache(stored, now)
      ensures lastFetch == map[] && feedTimeout == map[]
      ensures lastOpmlUpdate == 0 && feedsList == []
    {
      this.digest := digest;
      rules := Categories;
      cache := LoadCache(stored, now);
      lastFetch := map[];
      feedTimeout := map[];
      lastOpmlUpdate := 0;
      feedsList := [];
    }

    /** `process_entry(entry)` at time `now`. */
    method ProcessEntry(entry: FeedEntry, now: int) returns (category: Option<string>)
      requires Valid()
      modifies this`cache
      ensures Valid()
      ensures Processed(cache, category) == Process(old(cache), entry, now, rules, digest)
      ensures category.Some? ==> category.value == Classify(rules, RawText(entry))
    {
      var raw := RawText(entry);
      var fp := digest(raw);
      if fp in cache.records {
        return None;
      }
      var name := ClassifyText(rules, raw);
      var record := CacheRecord(now, name, Truncate(entry.title.GetOr(""), TitleLimit), entry.link.GetOr(""));
      ghost var p := Process(cache, entry, now, rules, digest);
      assert p == Processed(Cache(cache.order + [fp], cache.records[fp := record]), Some(name));
      cache := Cache(cache.order + [fp], cache.records[fp := record]);
      category := Some(name);
    }

    /** The entries of one cycle processed one after the other; `processed` counts the calls
        that returned a category. */
    method ProcessEntries(entries: seq<FeedEntry>, now: int) returns (processed: nat)
      requires Valid()
      modifies this`cache
      ensures Valid()
      ensures Batch(cache, processed) == ProcessBatch(old(cache), entries, now, rules, digest)
    {
      ghost var start := cache;
      processed := 0;
      var i := 0;
      while i < |entries|
        invariant 0 <= i <= |entries|
        invariant Valid()
        invariant Batch(cache, processed) == ProcessBatch(start, entries[..i], now, rules, digest)
      {
        ghost var p := Process(cache, entries[i], now, rules, digest);
        ProcessBatchStep(start, entries, i, now, rules, digest);
        var category := ProcessEntry(entries[i], now);
        assert Processed(cache, category) == p;
        if category.Some? {
          processed := processed + 1;
        }
        i := i + 1;
      }
      assert entries[..i] == entries;
    }

    /** `fetch_feed(url)` at time `now`, with the conditional request the code intends;
        `response` is what the request would produce. */
    method FetchFeed(url: string, now: int, response: Response) returns (entries: seq<FeedEntry>, request: Option<Request>)
      modifies this`feedTimeout, this`lastFetch
      ensures var r := Fetch(Health(old(feedTimeout), old(lastFetch)), url, now, response);
        && Health(feedTimeout, lastFetch) == r.health
        && entries == r.entries
        && request == r.request
    {
      var timeout := if url in feedTimeout then feedTimeout[url] else 0;
      if timeout > now {
        return [], None;
      }
      var since: Option<int> := None;
      if url in lastFetch {
        since := Some(lastFetch[url]);
      }
      request := Some(Request(url, since));
      match response
      case Failed =>
        feedTimeout := feedTimeout[url := now + CoolDown];
        entries := [];
      case NotModified =>
        entries := [];
      case Fetched(es) =>
        lastFetch := lastFetch[url := now];
        entries := Truncate(es, ArticlesPerFeed);
    }

    /** `fetch_feed(url)` as the source has it: for a URL that has a `last_fetch` entry the
        `formatdate` call raises `NameError`, and the handler starts a cool-down. */
    method FetchFeedAsWritten(url: string, now: int, response: Response) returns (entries: seq<FeedEntry>, request: Option<Request>)
      modifies this`feedTimeout, this`lastFetch
      ensures var r := FetchAsWritten(Health(old(feedTimeout), old(lastFetch)), url, now, response);
        && Health(feedTimeout, lastFetch) == r.health
        && entries == r.entries
        && request == r.request
    {
      var timeout := if url in feedTimeout then feedTimeout[url] else 0;
      if timeout > now {
        return [], None;
      }
      if url in lastFetch {
        feedTimeout := feedTimeout[url := now + CoolDown];
        return [], None;
      }
      request := Some(Request(url, None));
      match response
      case Failed =>
        feedTimeout := feedTimeout[url := now + CoolDown];
        entries := [];
      case NotModified =>
        entries := [];
      case Fetched(es) =>
        lastFetch := lastFetch[url := now];
        entries := Truncate(es, ArticlesPerFeed);
    }

    /** Every feed of the list fetched in turn; `responses[i]` is what a request for the i-th
        feed would produce. */
    method FetchAll(now: int, responses: seq<Response>) returns (entries: seq<FeedEntry>)
      requires |responses| == |feedsList|
      modifies this`feedTimeout, this`lastFetch
      ensures var r := FetchRound(Health(old(feedTimeout), old(lastFetch)), feedsList, now, responses);
        Health(feedTimeout, lastFetch) == r.health && entries == r.entries
    {
      entries := [];
      var i := 0;
      while i < |feedsList|
        invariant 0 <= i <= |feedsList|
        invariant var r := FetchRound(Health(old(feedTimeout), old(lastFetch)), feedsList[..i], now, responses[..i]);
          Health(feedTimeout, lastFetch) == r.health && entries == r.entries
      {
        assert feedsList[..i + 1][..i] == feedsList[..i];
        assert responses[..i + 1][..i] == responses[..i];
        var result, _ := FetchFeed(feedsList[i], now, responses[i]);
        entries := entries + result;
        i := i + 1;
      }
      assert feedsList[..i] == feedsList && responses[..i] == responses;
    }

    /** `parse_opml()` at time `now`; `downloaded` and `parsed` are the outcomes of the
        download and of parsing the file, used only when a refresh is due. */
    method ParseOpml(now: int, downloaded: bool, parsed: Option<seq<Outline>>) returns (feeds: seq<string>)
      modifies this`feedsList, this`lastOpmlUpdate
      ensures OpmlState(feedsList, lastOpmlUpdate) == Refreshed(OpmlState(old(feedsList), old(lastOpmlUpdate)), now, downloaded, parsed)
      ensures feeds == feedsList
    {
      if feedsList == [] || now - lastOpmlUpdate > OpmlRefreshInterval {
        UpdateOpml(now, downloaded, parsed);
      }
      feeds := feedsList;
    }

    /** `update_opml()`: `last_opml_update` moves only when the download succeeds; the list
        comes from the file on disk, or is the two default feeds when it cannot be parsed. */
    method UpdateOpml(now: int, downloaded: bool, parsed: Option<seq<Outline>>)
      modifies this`feedsList, this`lastOpmlUpdate
      ensures lastOpmlUpdate == if downloaded then now else old(lastOpmlUpdate)
      ensures feedsList == FeedListFrom(parsed)
    {
      if downloaded {
        lastOpmlUpdate := now;
      }
      feedsList := FeedListFrom(parsed);
    }

    /** The contents `generate_opml(category)` writes: the outlines of the first 100 cache
        records of `category`, in cache order. */
    method GenerateOpml(category: string) returns (content: string)
      requires Valid()
      ensures content == OpmlDocument(category, Values(cache))
    {
      var records := Values(cache);
      content := Outlines(records, category);
    }
  }

  /** The loop of `generate_opml` over the cache values, with its counter and its `break`
      at 100. */
  method Outlines(records: seq<CacheRecord>, category: string) returns (content: string)
    ensures content == OpmlDocument(category, records)
  {
    var body := "";
    var count := 0;
    ghost var chosen: seq<CacheRecord> := [];
    var i := 0;
    while i < |records|
      invariant 0 <= i <= |records|
      invariant chosen == Matching(records[..i], category)
      invariant count == |chosen| < MaxOutlines
      invariant body == Lines(chosen)
    {
      MatchingStep(records, i, category);
      if records[i].category == category {
        LinesStep(chosen, records[i]);
        body := body + OutlineLine(records[i]);
        chosen := chosen + [records[i]];
        count := count + 1;
        if count >= MaxOutlines {
          CapReached(records, i, category);
          assert chosen == Selected(records, category);
          break;
        }
      }
      i := i + 1;
    }
    if i == |records| {
      assert records[..i] == records;
      assert chosen == Selected(records, category);
    }
    assert body == Lines(Selected(records, category));
    content := Header(category) + body + Footer;
  }

  lemma ProcessBatchStep(c: Cache, es: seq<FeedEntry>, i: nat, now: int, rules: seq<CategoryRule>, digest: string -> Fingerprint)
    requires WellFormed(c) && i < |es|
    ensures var prev := ProcessBatch(c, es[..i], now, rules, digest);
      var p := Process(prev.cache, es[i], now, rules, digest);
      ProcessBatch(c, es[..i + 1], now, rules, digest) == Batch(p.cache, prev.processed + if p.category.Some? then 1 else 0)
  {
    assert es[..i + 1][..i] == es[..i];
  }

  lemma MatchingStep(records: seq<CacheRecord>, i: nat, category: string)
    requires i < |records|
    ensures records[i].category == category ==>
      Matching(records[..i + 1], category) == Matching(records[..i], category) + [records[i]]
    ensures records[i].category != category ==>
      Matching(records[..i + 1], category) == Matching(records[..i], category)
  {
    assert records[..i + 1][..i] == records[..i];
  }

  lemma LinesStep(ms: seq<CacheRecord>, r: CacheRecord)
    ensures Lines(ms + [r]) == Lines(ms) + OutlineLine(r)
  {
    assert (ms + [r])[..|ms|] == ms;
  }

  /** Once 100 records of `category` are found, they are the selected ones. */
  lemma CapReached(records: seq<CacheRecord>, i: nat, category: string)
    requires i < |records|
    requires |Matching(records[..i + 1], category)| == MaxOutlines
    ensures Selected(records, category) == Matching(records[..i + 1], category)
  {
    assert records == records[..i + 1] + records[i + 1..];
    MatchingAppend(records[..i + 1], records[i + 1..], category);
  }
}
