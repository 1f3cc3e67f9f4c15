/** A feed entry as `feedparser` delivers it; only the fields the pipeline reads. */
module Feed {
  import opened Wrappers

  /** `entry.get('title')`, `entry.get('description')` and `entry.get('link')`; `None` when the
      feed item has no such field. */
  datatype FeedEntry = FeedEntry(title: Option<string>, description: Option<string>, link: Option<string>)

  /** `s[:n]`, on a string or a list. */
  function Truncate<T>(s: seq<T>, n: nat): (r: seq<T>)
    ensures |r| <= n && |r| <= |s| && r == s[..|r|]
    ensures |s| <= n ==> r == s
    ensures |s| > n ==> |r| == n
  {
    if |s| <= n then s else s[..n]
  }
}
