/**
 * The per-feed state machine of `FeedProcessor.fetch_feed`: the dicts `feed_timeout` (the
 * end of a cool-down after a failure) and `last_fetch` (the time of the last successful
 * fetch). The network is an input: the answer the server and `feedparser` would give if a
 * request were sent.
 *
 * As written, the function calls `formatdate` without importing it, so for a URL that
 * already has a `last_fetch` entry it raises `NameError` before any request, and the
 * exception handler starts a cool-down. `FetchAsWritten` reproduces that; `Fetch` sends
 * the intended conditional request and is the one the processor uses.
 */
module Fetcher {
  import opened Wrappers
  import opened Feed

  const ArticlesPerFeed := 10
  /** Seconds of cool-down after a failed fetch. */
  const CoolDown := 300

  /** What a request for the feed would produce: the parsed entries of any response other
      than 304 (an HTTP error status included, which `requests` does not raise for), a 304,
      or an exception from the request (connection error, timeout). */
  datatype Response = Fetched(entries: seq<FeedEntry>) | NotModified | Failed

  /** The HTTP request sent, with its `If-Modified-Since` time if any. */
  datatype Request = Request(url: string, ifModifiedSince: Option<int>)

  /** `feed_timeout` and `last_fetch`. */
  datatype Health = Health(feedTimeout: map<string, int>, lastFetch: map<string, int>)

  /** The state after the call, what it returns, and the request sent (`None`: no network call). */
  datatype FetchResult = FetchResult(health: Health, entries: seq<FeedEntry>, request: Option<Request>)

  /** `feed_timeout.get(url, 0)`. */
  function TimeoutOf(h: Health, url: string): int {
    if url in h.feedTimeout then h.feedTimeout[url] else 0
  }

  predicate CoolingDown(h: Health, url: string, now: int) {
    TimeoutOf(h, url) > now
  }

  /** The effect of the answer to a request that was sent. */
  function Complete(h: Health, url: string, now: int, response: Response, request: Request): FetchResult {
    match response
    case Failed => FetchResult(Health(h.feedTimeout[url := now + CoolDown], h.lastFetch), [], Some(request))
    case NotModified => FetchResult(h, [], Some(request))
    case Fetched(es) => FetchResult(Health(h.feedTimeout, h.lastFetch[url := now]), Truncate(es, ArticlesPerFeed), Some(request))
  }

  /** `fetch_feed(url)` as written: the `formatdate` line fails for every URL that has a
      `last_fetch` entry, and the failure is handled like a network error. */
  function FetchAsWritten(h: Health, url: string, now: int, response: Response): (r: FetchResult)
    ensures r.request.Some? ==> url !in h.lastFetch
    ensures r.entries != [] ==> url !in h.lastFetch && response.Fetched?
    ensures url in h.lastFetch ==> r.health.lastFetch == h.lastFetch
  {
    if CoolingDown(h, url, now) then FetchResult(h, [], None)
    else if url in h.lastFetch then FetchResult(Health(h.feedTimeout[url := now + CoolDown], h.lastFetch), [], None)
    else Complete(h, url, now, response, Request(url, None))
  }

  /** `fetch_feed(url)` as intended: a conditional request when the feed was fetched before. */
  function Fetch(h: Health, url: string, now: int, response: Response): (r: FetchResult)
    ensures CoolingDown(h, url, now) ==> r == FetchResult(h, [], None)
    ensures !CoolingDown(h, url, now) ==>
      r.request == Some(Request(url, if url in h.lastFetch then Some(h.lastFetch[url]) else None))
    ensures !CoolingDown(h, url, now) && response.Failed? ==>
      r.health == Health(h.feedTimeout[url := now + CoolDown], h.lastFetch) && r.entries == []
    ensures !CoolingDown(h, url, now) && response.NotModified? ==> r.health == h && r.entries == []
    ensures !CoolingDown(h, url, now) && response.Fetched? ==>
      && r.health == Health(h.feedTimeout, h.lastFetch[url := now])
      && |r.entries| <= ArticlesPerFeed && |r.entries| <= |response.entries|
      && r.entries == response.entries[..|r.entries|]
      && (|response.entries| <= ArticlesPerFeed ==> r.entries == response.entries)
      && (|response.entries| > ArticlesPerFeed ==> |r.entries| == ArticlesPerFeed)
  {
    if CoolingDown(h, url, now) then FetchResult(h, [], None)
    else Complete(h, url, now, response, Request(url, if url in h.lastFetch then Some(h.lastFetch[url]) else None))
  }

  /** A fetch touches the state of its own URL only. */
  lemma FetchIsLocal(h: Health, url: string, other: string, now: int, response: Response)
    requires other != url
    ensures var h' := Fetch(h, url, now, response).health;
      && (other in h'.feedTimeout <==> other in h.feedTimeout)
      && (other in h.feedTimeout ==> h'.feedTimeout[other] == h.feedTimeout[other])
      && (other in h'.lastFetch <==> other in h.lastFetch)
      && (other in h.lastFetch ==> h'.lastFetch[other] == h.lastFetch[other])
  {
  }

  /** The cool-down: after a failed fetch at `t`, a fetch of the same URL before `t + 300`
      sends nothing and returns nothing, and one at `t + 300` or later sends a request. */
  lemma CoolDownWindow(h: Health, url: string, t: int, later: int, response: Response)
    requires t <= later
    requires !CoolingDown(h, url, t)
    ensures var h1 := Fetch(h, url, t, Failed).health;
      && (later < t + CoolDown ==> Fetch(h1, url, later, response) == FetchResult(h1, [], None))
      && (later >= t + CoolDown ==> Fetch(h1, url, later, response).request.Some?)
  {
    var h1 := Fetch(h, url, t, Failed).health;
    assert TimeoutOf(h1, url) == t + CoolDown;
  }

  /** A feed fetched once is fetched conditionally from then on, from the time of its last
      successful fetch. */
  lemma SuccessMakesNextRequestConditional(h: Health, url: string, t: int, later: int, es: seq<FeedEntry>, response: Response)
    requires !CoolingDown(h, url, t)
    requires later >= t
    ensures var h1 := Fetch(h, url, t, Fetched(es)).health;
      Fetch(h1, url, later, response).request == Some(Request(url, Some(t)))
  {
    var h1 := Fetch(h, url, t, Fetched(es)).health;
    assert h1.feedTimeout == h.feedTimeout;
  }

  /** The state after fetching every URL of a list in turn, and the entries of all of
      them; `responses[i]` is what a request for `urls[i]` would produce. */
  datatype Round = Round(health: Health, entries: seq<FeedEntry>)

  function FetchRound(h: Health, urls: seq<string>, now: int, responses: seq<Response>): Round
    requires |responses| == |urls|
  {
    if urls == [] then Round(h, [])
    else
      var prev := FetchRound(h, urls[..|urls| - 1], now, responses[..|responses| - 1]);
      var f := Fetch(prev.health, urls[|urls| - 1], now, responses[|responses| - 1]);
      Round(f.health, prev.entries + f.entries)
  }

  /** A round yields at most 10 entries per URL and leaves the state of every other URL as
      it was. */
  lemma {:induction false} FetchRoundBounds(h: Health, urls: seq<string>, now: int, responses: seq<Response>, other: string)
    requires |responses| == |urls|
    requires other !in urls
    ensures var r := FetchRound(h, urls, now, responses);
      && |r.entries| <= ArticlesPerFeed * |urls|
      && (other in r.health.feedTimeout <==> other in h.feedTimeout)
      && (other in h.feedTimeout ==> r.health.feedTimeout[other] == h.feedTimeout[other])
      && (other in r.health.lastFetch <==> other in h.lastFetch)
      && (other in h.lastFetch ==> r.health.lastFetch[other] == h.lastFetch[other])
  {
    if urls != [] {
      var init := urls[..|urls| - 1];
      assert forall u :: u in init ==> u in urls;
      FetchRoundBounds(h, init, now, responses[..|responses| - 1], other);
      var prev := FetchRound(h, init, now, responses[..|responses| - 1]);
      FetchIsLocal(prev.health, urls[|urls| - 1], other, now, responses[|responses| - 1]);
    }
  }

  // ---------------------------------------------------------------------------
  // The code as written

  /** As written, the two versions agree on every URL never fetched successfully. */
  lemma AsWrittenAgreesBeforeFirstSuccess(h: Health, url: string, now: int, response: Response)
    requires url !in h.lastFetch
    ensures FetchAsWritten(h, url, now, response) == Fetch(h, url, now, response)
  {
  }

  /** As written, a URL with a `last_fetch` entry never yields an entry again and is never
      requested again; it only alternates between cool-downs. */
  lemma AsWrittenNeverRefetches(h: Health, url: string, now: int, response: Response)
    requires url in h.lastFetch
    ensures var r := FetchAsWritten(h, url, now, response);
      && r.entries == [] && r.request == None
      && r.health.lastFetch == h.lastFetch
      && (!CoolingDown(h, url, now) ==> TimeoutOf(r.health, url) == now + CoolDown)
  {
  }

  /** One later call: its time and what the network would answer. */
  datatype Attempt = Attempt(now: int, response: Response)

  /** Calling `FetchAsWritten` for `url` once per attempt; the entries of all calls. */
  function AsWrittenRun(h: Health, url: string, attempts: seq<Attempt>): (entries: seq<FeedEntry>)
    decreases |attempts|
  {
    if attempts == [] then []
    else
      var r := FetchAsWritten(h, url, attempts[0].now, attempts[0].response);
      r.entries + AsWrittenRun(r.health, url, attempts[1..])
  }

  /** As written, after the first successful fetch a feed delivers nothing ever again,
      whatever the server answers. */
  lemma {:induction false} AsWrittenDeadAfterSuccess(h: Health, url: string, attempts: seq<Attempt>)
    requires url in h.lastFetch
    ensures AsWrittenRun(h, url, attempts) == []
    decreases |attempts|
  {
    if attempts != [] {
      var r := FetchAsWritten(h, url, attempts[0].now, attempts[0].response);
      AsWrittenNeverRefetches(h, url, attempts[0].now, attempts[0].response);
      AsWrittenDeadAfterSuccess(r.health, url, attempts[1..]);
    }
  }

  /** An input that shows it: a feed fetched at time 0 and asked again an hour later, when
      the server has a new entry. */
  lemma AsWrittenLosesNewEntry(e: FeedEntry)
    ensures var h := Health(map[], map["https://www.ansa.it/sito/ansait_rss.xml" := 0]);
      && FetchAsWritten(h, "https://www.ansa.it/sito/ansait_rss.xml", 3600, Fetched([e])).entries == []
      && Fetch(h, "https://www.ansa.it/sito/ansait_rss.xml", 3600, Fetched([e])).entries == [e]
  {
  }
}
