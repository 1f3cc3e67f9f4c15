/**
 * The pure parts of `update_opml` and `parse_opml`: the feed list taken from the OPML
 * document, and the test that decides when the list is refreshed.
 */
module FeedList {
  import opened Wrappers
  import opened Feed

  const FeedLimit := 20
  const OpmlRefreshInterval := 86400

  /** The list used when the OPML document cannot be parsed. */
  const DefaultFeeds: seq<string> := ["https://www.ansa.it/sito/ansait_rss.xml", "https://www.repubblica.it/rss.xml"]

  /** The attributes of one `<outline>` element. */
  type Outline = map<string, string>

  /** `[o.attrib['xmlUrl'] for o in tree.iter('outline') if 'xmlUrl' in o.attrib]`. */
  function XmlUrls(outlines: seq<Outline>): (urls: seq<string>)
    ensures |urls| <= |outlines|
  {
    if outlines == [] then []
    else
      var init := XmlUrls(outlines[..|outlines| - 1]);
      var last := outlines[|outlines| - 1];
      if "xmlUrl" in last then init + [last["xmlUrl"]] else init
  }

  /** Every collected URL is the `xmlUrl` of some outline, and every outline's `xmlUrl` is collected. */
  lemma {:induction false} XmlUrlsAreTheOutlineUrls(outlines: seq<Outline>, u: string)
    ensures u in XmlUrls(outlines) <==> exists i :: 0 <= i < |outlines| && "xmlUrl" in outlines[i] && outlines[i]["xmlUrl"] == u
  {
    if outlines != [] {
      var init := outlines[..|outlines| - 1];
      XmlUrlsAreTheOutlineUrls(init, u);
      assert forall i :: 0 <= i < |init| ==> init[i] == outlines[i];
      if exists i :: 0 <= i < |outlines| && "xmlUrl" in outlines[i] && outlines[i]["xmlUrl"] == u {
        var i :| 0 <= i < |outlines| && "xmlUrl" in outlines[i] && outlines[i]["xmlUrl"] == u;
        if i < |init| {
          assert "xmlUrl" in init[i] && init[i]["xmlUrl"] == u;
        }
      }
    }
  }

  /** The new `feeds_list`; `parsed` is the list of outlines of the OPML file, `None` when
      `ElementTree` cannot parse it. */
  function FeedListFrom(parsed: Option<seq<Outline>>): (feeds: seq<string>)
    ensures |feeds| <= FeedLimit
    ensures parsed.None? ==> feeds == DefaultFeeds
    ensures parsed.Some? ==> |feeds| <= |XmlUrls(parsed.value)| && feeds == XmlUrls(parsed.value)[..|feeds|]
    ensures parsed.Some? && |XmlUrls(parsed.value)| <= FeedLimit ==> feeds == XmlUrls(parsed.value)
    ensures parsed.Some? && |XmlUrls(parsed.value)| > FeedLimit ==> |feeds| == FeedLimit
  {
    match parsed
    case None => DefaultFeeds
    case Some(outlines) => Truncate(XmlUrls(outlines), FeedLimit)
  }

  /** The test of `parse_opml`: refresh when the list is empty or older than a day. */
  predicate NeedsRefresh(feedsList: seq<string>, lastOpmlUpdate: int, now: int) {
    feedsList == [] || now - lastOpmlUpdate > OpmlRefreshInterval
  }

  /** A document that parses but holds no feed URL leaves the list empty, so every later
      `parse_opml` refreshes again. */
  lemma EmptyDocumentRefreshesEveryTime(outlines: seq<Outline>, lastOpmlUpdate: int, now: int)
    requires forall i :: 0 <= i < |outlines| ==> "xmlUrl" !in outlines[i]
    ensures FeedListFrom(Some(outlines)) == []
    ensures NeedsRefresh(FeedListFrom(Some(outlines)), lastOpmlUpdate, now)
  {
    if XmlUrls(outlines) != [] {
      var u := XmlUrls(outlines)[0];
      XmlUrlsAreTheOutlineUrls(outlines, u);
    }
  }

  /** `feeds_list` and `last_opml_update`. */
  datatype OpmlState = OpmlState(feedsList: seq<string>, lastOpmlUpdate: int)

  /** `parse_opml` at time `now`: when a refresh is due, `update_opml` runs; `downloaded` says
      whether the GitHub download succeeded (only then is `last_opml_update` set) and `parsed`
      is what `ElementTree` makes of the file on disk afterwards. */
  function Refreshed(s: OpmlState, now: int, downloaded: bool, parsed: Option<seq<Outline>>): (r: OpmlState)
    ensures !NeedsRefresh(s.feedsList, s.lastOpmlUpdate, now) ==> r == s
    ensures NeedsRefresh(s.feedsList, s.lastOpmlUpdate, now) ==>
      && r.feedsList == FeedListFrom(parsed)
      && r.lastOpmlUpdate == (if downloaded then now else s.lastOpmlUpdate)
  {
    if NeedsRefresh(s.feedsList, s.lastOpmlUpdate, now) then
      OpmlState(FeedListFrom(parsed), if downloaded then now else s.lastOpmlUpdate)
    else s
  }

  /** After a refresh whose download succeeded and whose file lists a feed, the list is kept
      for a whole day, whatever the network would answer. */
  lemma DownloadedListIsKeptForADay(s: OpmlState, now: int, later: int, parsed: Option<seq<Outline>>,
                                    downloaded2: bool, parsed2: Option<seq<Outline>>)
    requires NeedsRefresh(s.feedsList, s.lastOpmlUpdate, now)
    requires FeedListFrom(parsed) != []
    requires later <= now + OpmlRefreshInterval
    ensures var r := Refreshed(s, now, true, parsed);
      Refreshed(r, later, downloaded2, parsed2) == r
  {
  }

  /** A failed download leaves `last_opml_update` stale, so a stale list is refreshed again
      at every later call, the second `parse_opml` of the same cycle included. */
  lemma FailedDownloadRefreshesAgain(s: OpmlState, now: int, later: int, parsed: Option<seq<Outline>>)
    requires now - s.lastOpmlUpdate > OpmlRefreshInterval
    requires now <= later
    ensures var r := Refreshed(s, now, false, parsed);
      NeedsRefresh(r.feedsList, r.lastOpmlUpdate, later)
  {
  }
}
