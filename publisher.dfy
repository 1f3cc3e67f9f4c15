/**
 * The documents `generate_opml` writes: for one category, the first 100 cache records of
 * that category in cache order, each as an `<outline>` line, between a fixed header and
 * footer. Titles and links are inserted as they are, without XML escaping, as the source
 * does.
 */
module Publisher {
  import opened Text
  import opened DedupCache

  const MaxOutlines := 100

  /** The records of `category`, in order. */
  function Matching(records: seq<CacheRecord>, category: string): (ms: seq<CacheRecord>)
    ensures |ms| <= |records|
  {
    if records == [] then []
    else
      var init := Matching(records[..|records| - 1], category);
      var last := records[|records| - 1];
      if last.category == category then init + [last] else init
  }

  /** The records that get an outline: the first 100 of `category`. */
  function Selected(records: seq<CacheRecord>, category: string): seq<CacheRecord> {
    var ms := Matching(records, category);
    if |ms| <= MaxOutlines then ms else ms[..MaxOutlines]
  }

  lemma {:induction false} MatchingAppend(a: seq<CacheRecord>, b: seq<CacheRecord>, category: string)
    ensures Matching(a + b, category) == Matching(a, category) + Matching(b, category)
    decreases |b|
  {
    if b == [] {
      assert a + b == a;
    } else {
      var b0 := b[..|b| - 1];
      assert (a + b)[..|a + b| - 1] == a + b0;
      var last := b[|b| - 1];
      assert (a + b)[|a + b| - 1] == last;
      var tail := if last.category == category then [last] else [];
      assert Matching(a + b, category) == Matching(a + b0, category) + tail;
      assert Matching(b, category) == Matching(b0, category) + tail;
      MatchingAppend(a, b0, category);
    }
  }

  lemma {:induction false} MatchingIsMembership(records: seq<CacheRecord>, category: string, r: CacheRecord)
    ensures r in Matching(records, category) <==> r in records && r.category == category
  {
    if records != [] {
      var init := records[..|records| - 1];
      MatchingIsMembership(init, category, r);
      assert records == init + [records[|records| - 1]];
    }
  }

  /** At most 100 records are selected, all of `category`; either every record of `category`
      is selected or the cap of 100 is reached. */
  lemma SelectedIsCapped(records: seq<CacheRecord>, category: string)
    ensures |Selected(records, category)| <= MaxOutlines
    ensures forall r :: r in Selected(records, category) ==> r in records && r.category == category
    ensures |Selected(records, category)| < MaxOutlines ==>
      forall r :: r in records && r.category == category ==> r in Selected(records, category)
  {
    var ms := Matching(records, category);
    forall r | r in Selected(records, category) ensures r in records && r.category == category {
      assert r in ms;
      MatchingIsMembership(records, category, r);
    }
    forall r | r in records && r.category == category && |Selected(records, category)| < MaxOutlines
      ensures r in Selected(records, category)
    {
      MatchingIsMembership(records, category, r);
    }
  }

  /** `<outline type="rss" text="…" title="…" xmlUrl="…"/>` and a newline. */
  function OutlineLine(r: CacheRecord): string {
    "<outline type=\"rss\" text=\"" + r.title + "\" title=\"" + r.title + "\" xmlUrl=\"" + r.link + "\"/>\n"
  }

  function Lines(records: seq<CacheRecord>): string {
    if records == [] then ""
    else Lines(records[..|records| - 1]) + OutlineLine(records[|records| - 1])
  }

  function Header(category: string): string {
    "<?xml version=\"1.0\" encoding=\"UTF-8\"?>\n<opml version=\"1.0\">\n<head>\n<title>" + category + " Feed</title>\n</head>\n<body>\n"
  }

  const Footer: string := "</body>\n</opml>"

  /** The document written for `category`. */
  function OpmlDocument(category: string, records: seq<CacheRecord>): string {
    Header(category) + Lines(Selected(records, category)) + Footer
  }

  /** `f"{category.lower()}_feeds.opml"`. */
  function OutputFileName(category: string): (name: string)
    ensures |name| == |category| + 11
    ensures forall i :: 0 <= i < |category| ==> name[i] == Lower(category[i])
    ensures name[|category|..] == "_feeds.opml"
  {
    LowerAll(category) + "_feeds.opml"
  }
}
