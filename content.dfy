/** Content aggregation (src/services/contentService.ts): the three fetchers
    that normalise upstream responses into content items, the per-user fetch
    loop that tags, merges and upserts them, and the recency-window read. */
module ContentService {
  import opened Wrappers
  import opened Text
  import opened Types
  import opened Store
  import opened Seqs

  /** One post of a user timeline, as the Twitter API returns it. */
  datatype RawTweet = RawTweet(
    id: string,
    text: string,
    createdAt: int,
    likes: Option<int>,
    retweets: Option<int>,
    replies: Option<int>)

  /** One hit of the YouTube search API. */
  datatype RawVideo = RawVideo(videoId: string, title: string, description: string, publishedAt: int)

  /** One entry of a parsed RSS feed; every field may be missing. */
  datatype RawFeedItem = RawFeedItem(
    guid: Option<string>,
    link: Option<string>,
    title: Option<string>,
    contentSnippet: Option<string>,
    content: Option<string>,
    pubDate: Option<int>)

  /** What one upstream call gives back: an error (network failure, unknown
      account, malformed feed), or a response whose item list may be absent. */
  datatype Upstream<T> = CallFailed | Delivered(items: Option<seq<T>>)

  /** The upstream services, keyed by what each fetcher sends them: the
      Twitter handle, the YouTube channel id, the feed URL. */
  datatype Network = Network(
    twitter: string -> Upstream<RawTweet>,
    youtube: string -> Upstream<RawVideo>,
    rss: string -> Upstream<RawFeedItem>)

  /** `response.items?.… || []`: the delivered list, or nothing. */
  function ItemsOf<T>(resp: Upstream<T>): (r: seq<T>)
    ensures resp.CallFailed? || resp.items.None? ==> r == []
  {
    if resp.Delivered? && resp.items.Some? then resp.items.value else []
  }

  /** The number of feed entries kept (`slice(0, 10)`). */
  const MaxFeedItems := 10

  function TweetItem(handle: string, t: RawTweet): (r: ContentItem)
    ensures r.id == t.id && r.content == t.text && r.publishedAt == t.createdAt && r.sourceId == ""
    ensures r.title == "Tweet by @" + handle
  {
    ContentItem(
      t.id, "", "Tweet by @" + handle, t.text,
      "https://twitter.com/" + handle + "/status/" + t.id,
      t.createdAt,
      map["likes" := t.likes.GetOr(0), "retweets" := t.retweets.GetOr(0), "replies" := t.replies.GetOr(0)])
  }

  function VideoItem(v: RawVideo): (r: ContentItem)
    ensures r.id == v.videoId && r.title == v.title && r.content == v.description
    ensures r.publishedAt == v.publishedAt && r.sourceId == ""
  {
    ContentItem(
      v.videoId, "", v.title, v.description,
      "https://www.youtube.com/watch?v=" + v.videoId,
      v.publishedAt, map["views" := 0])
  }

  /** The mapping of one feed entry: the id falls back from guid to link to
      the empty string, the body from snippet to full content to the empty
      string, and the publication time to the fetch time `now`. */
  function FeedItem(x: RawFeedItem, now: int): (r: ContentItem)
    ensures r.id == (if Truthy(x.guid) then x.guid.value else if Truthy(x.link) then x.link.value else "")
    ensures r.content == (if Truthy(x.contentSnippet) then x.contentSnippet.value
                          else if Truthy(x.content) then x.content.value else "")
    ensures r.publishedAt == (if x.pubDate.Some? then x.pubDate.value else now)
    ensures r.sourceId == ""
  {
    ContentItem(
      OrElse(x.guid, OrElse(x.link, "")), "", OrElse(x.title, ""),
      OrElse(x.contentSnippet, OrElse(x.content, "")), OrElse(x.link, ""),
      x.pubDate.GetOr(now), map[])
  }

  /** `fetchTwitterContent`: one item per delivered tweet, nothing on any error. */
  function FetchTwitterContent(handle: string, resp: Upstream<RawTweet>): (r: seq<ContentItem>)
    ensures |r| == |ItemsOf(resp)|
    ensures forall i | 0 <= i < |r| :: r[i] == TweetItem(handle, ItemsOf(resp)[i])
  {
    var tweets := ItemsOf(resp);
    seq(|tweets|, i requires 0 <= i < |tweets| => TweetItem(handle, tweets[i]))
  }

  /** `fetchYouTubeContent`: one item per delivered video, nothing on any error. */
  function FetchYouTubeContent(resp: Upstream<RawVideo>): (r: seq<ContentItem>)
    ensures |r| == |ItemsOf(resp)|
    ensures forall i | 0 <= i < |r| :: r[i] == VideoItem(ItemsOf(resp)[i])
  {
    var videos := ItemsOf(resp);
    seq(|videos|, i requires 0 <= i < |videos| => VideoItem(videos[i]))
  }

  /** `fetchRSSContent`: the first ten entries, mapped; nothing on any error. */
  function FetchRSSContent(resp: Upstream<RawFeedItem>, now: int): (r: seq<ContentItem>)
    ensures |r| <= MaxFeedItems
    ensures |r| == Seqs.Min(MaxFeedItems, |ItemsOf(resp)|)
    ensures forall i | 0 <= i < |r| :: r[i] == FeedItem(ItemsOf(resp)[i], now)
  {
    var entries := ItemsOf(resp);
    var n := Seqs.Min(MaxFeedItems, |entries|);
    seq(n, i requires 0 <= i < n => FeedItem(entries[i], now))
  }

  /** The YouTube channel id of a source: the text after the last '/' of its
      URL when the URL is set, otherwise its handle. */
  function ChannelId(src: Source): (r: string)
    ensures Truthy(src.url) ==> AfterLastSeparator(src.url.value, '/', r)
    ensures !Truthy(src.url) ==> r == src.handle
  {
    if Truthy(src.url) then
      LastPieceIsTail(src.url.value, '/');
      LastPiece(src.url.value, '/')
    else src.handle
  }

  /** The feed location of an RSS source: its URL, else its handle. */
  function FeedUrl(src: Source): (r: string)
    ensures Truthy(src.url) ==> r == src.url.value
    ensures !Truthy(src.url) ==> r == src.handle
  {
    OrElse(src.url, src.handle)
  }

  /** The dispatch on `source.type`: a Twitter source is fetched by its
      handle, a YouTube source by its channel id, an RSS source by its feed
      location; a kind outside the three gives nothing. */
  function FetchForSource(src: Source, net: Network, now: int): (r: seq<ContentItem>)
    ensures src.kind.Unlisted? ==> r == []
    ensures src.kind == Twitter ==>
      var tweets := ItemsOf(net.twitter(src.handle));
      |r| == |tweets| && forall i | 0 <= i < |r| :: r[i] == TweetItem(src.handle, tweets[i])
    ensures src.kind == YouTube ==>
      var videos := ItemsOf(net.youtube(ChannelId(src)));
      |r| == |videos| && forall i | 0 <= i < |r| :: r[i] == VideoItem(videos[i])
    ensures src.kind == Rss ==>
      var entries := ItemsOf(net.rss(FeedUrl(src)));
      |r| == Min(MaxFeedItems, |entries|) && forall i | 0 <= i < |r| :: r[i] == FeedItem(entries[i], now)
    ensures src.kind == Twitter && net.twitter(src.handle).CallFailed? ==> r == []
    ensures src.kind == YouTube && net.youtube(ChannelId(src)).CallFailed? ==> r == []
    ensures src.kind == Rss && net.rss(FeedUrl(src)).CallFailed? ==> r == []
    ensures src.kind == Rss ==> |r| <= MaxFeedItems
  {
    match src.kind
    case Twitter => FetchTwitterContent(src.handle, net.twitter(src.handle))
    case YouTube => FetchYouTubeContent(net.youtube(ChannelId(src)))
    case Rss => FetchRSSContent(net.rss(FeedUrl(src)), now)
    case Unlisted(_) => []
  }

  /** Every item stamped with the id of the source that produced it. */
  function Tag(items: seq<ContentItem>, sourceId: string): (r: seq<ContentItem>)
    ensures |r| == |items|
    ensures forall i | 0 <= i < |r| :: r[i] == items[i].(sourceId := sourceId)
  {
    seq(|items|, i requires 0 <= i < |items| => items[i].(sourceId := sourceId))
  }

  /** What one iteration of the fetch loop contributes. */
  function SourceItems(src: Source, net: Network, now: int): seq<ContentItem> {
    Tag(FetchForSource(src, net, now), src.id)
  }

  /** The loop body as a function of the source. */
  function Fetcher(net: Network, now: int): Source -> seq<ContentItem> {
    src => SourceItems(src, net, now)
  }

  /** The merged result of the fetch loop over `sources`, in source order. */
  function Gathered(sources: seq<Source>, net: Network, now: int): seq<ContentItem> {
    FlatMap(sources, Fetcher(net, now))
  }

  /** The merge is concatenation: the items of `a + b` are those of `a`
      followed by those of `b`. */
  lemma GatheredAppend(a: seq<Source>, b: seq<Source>, net: Network, now: int)
    ensures Gathered(a + b, net, now) == Gathered(a, net, now) + Gathered(b, net, now)
  {
    FlatMapAppend(a, b, Fetcher(net, now));
  }

  /** A source that yields nothing (an unknown kind, a failed upstream call)
      is skipped and the loop carries on with the rest. */
  lemma GatheredSkipsSilentSource(a: seq<Source>, s: Source, b: seq<Source>, net: Network, now: int)
    requires FetchForSource(s, net, now) == []
    ensures Gathered(a + [s] + b, net, now) == Gathered(a + b, net, now)
  {
    FlatMapSkip(a, s, b, Fetcher(net, now));
  }

  /** Each merged item comes from one of the sources and carries that
      source's id. */
  lemma GatheredItemsAreTagged(sources: seq<Source>, net: Network, now: int, x: ContentItem)
    requires x in Gathered(sources, net, now)
    ensures exists k | 0 <= k < |sources| ::
      x in Tag(FetchForSource(sources[k], net, now), sources[k].id) && x.sourceId == sources[k].id
  {
    FlatMapMember(sources, Fetcher(net, now), x);
    var k :| 0 <= k < |sources| && x in Fetcher(net, now)(sources[k]);
    var t := SourceItems(sources[k], net, now);
    var i :| 0 <= i < |t| && t[i] == x;
    assert x.sourceId == sources[k].id;
  }

  /** The sources of one owner, in table order (`.eq('user_id', userId)`). */
  function OwnedSources(sources: seq<Source>, userId: string): (r: seq<Source>)
    ensures Subsequence(r, sources)
    ensures forall s :: s in r <==> s in sources && s.userId == userId
    ensures forall s :: multiset(r)[s] == if s.userId == userId then multiset(sources)[s] else 0
  {
    Filter(sources, (s: Source) => s.userId == userId)
  }

  /** Every merged item belongs to a source of the owner. */
  lemma GatheredFromOwnedSources(table: seq<Source>, userId: string, net: Network, now: int)
    ensures forall x | x in Gathered(OwnedSources(table, userId), net, now) ::
      exists s | s in table :: s.userId == userId && x.sourceId == s.id
  {
    var sources := OwnedSources(table, userId);
    forall x | x in Gathered(sources, net, now)
      ensures exists s | s in table :: s.userId == userId && x.sourceId == s.id
    {
      GatheredItemsAreTagged(sources, net, now, x);
      var k :| 0 <= k < |sources| && x.sourceId == sources[k].id;
      assert sources[k] in sources;
    }
  }

  /** The `forEach` that stamps each fetched item with its source's id. */
  method TagItems(content: seq<ContentItem>, sourceId: string) returns (tagged: seq<ContentItem>)
    ensures tagged == Tag(content, sourceId)
  {
    tagged := [];
    var k := 0;
    while k < |content|
      invariant 0 <= k <= |content|
      invariant |tagged| == k
      invariant forall j | 0 <= j < k :: tagged[j] == content[j].(sourceId := sourceId)
    {
      tagged := tagged + [content[k].(sourceId := sourceId)];
      k := k + 1;
    }
  }

  /** The loop of `fetchAllUserContent`: fetch each source in turn, tag its
      items and append them to the running result. */
  method GatherItems(sources: seq<Source>, net: Network, now: int) returns (all: seq<ContentItem>)
    ensures all == Gathered(sources, net, now)
  {
    all := [];
    var i := 0;
    while i < |sources|
      invariant 0 <= i <= |sources|
      invariant all == Gathered(sources[..i], net, now)
    {
      var src := sources[i];
      var tagged := TagItems(FetchForSource(src, net, now), src.id);
      assert sources[..i + 1][..i] == sources[..i];
      assert Fetcher(net, now)(src) == tagged;
      all := all + tagged;
      i := i + 1;
    }
    assert sources[..i] == sources;
  }

  /** `fetchAllUserContent`: fetch every source of the owner, tag and merge
      the items, upsert them when there are any, and return them whether or
      not the save succeeded. A failing sources query is rethrown. */
  method FetchAllUserContent(db: Database, userId: string, net: Network, now: int, failing: set<Query>)
    returns (r: Result<seq<ContentItem>, string>)
    requires db.Valid()
    modifies db`contentItems
    ensures db.Valid()
    ensures SourcesRead in failing <==> r.Failure?
    ensures r.Success? ==> r.value == Gathered(OwnedSources(old(db.sources), userId), net, now)
    ensures db.contentItems ==
      if r.Success? && r.value != [] && ContentSave !in failing
      then UpsertAll(old(db.contentItems), r.value)
      else old(db.contentItems)
  {
    if SourcesRead in failing {
      return Failure("sources query failed");
    }
    var sources := OwnedSources(db.sources, userId);
    if |sources| == 0 {
      return Success([]);
    }
    var all := GatherItems(sources, net, now);
    if |all| > 0 && ContentSave !in failing {
      db.contentItems := UpsertAll(db.contentItems, all);
    }
    r := Success(all);
  }

  /** Two feed entries with neither a guid nor a link both map to the empty
      id, so the batch upsert as issued is refused by the database and none
      of the fetched items is stored. */
  lemma FeedWithoutLinksIsNotSaved(table: seq<ContentItem>, a: RawFeedItem, b: RawFeedItem, now: int)
    requires a.guid == None && a.link == None && b.guid == None && b.link == None
    ensures var items := FetchRSSContent(Delivered(Some([a, b])), now);
      && |items| == 2 && items[0].id == "" && items[1].id == ""
      && SaveAsWritten(table, items).None?
  {
    var items := FetchRSSContent(Delivered(Some([a, b])), now);
    assert items[0].id == items[1].id;
  }

  /** One calendar day in milliseconds. */
  const DayMillis := 86400000

  /** The start of a `days`-day window ending at `now`. */
  function Cutoff(now: int, days: int): int {
    now - days * DayMillis
  }

  function PublishedAt(x: ContentItem): int {
    x.publishedAt
  }

  /** The ids of the owner's sources: the join `sources!inner(user_id)`. */
  function OwnedSourceIds(sources: seq<Source>, userId: string): set<string> {
    set s | s in sources && s.userId == userId :: s.id
  }

  /** The items of an owned source published at or after `cutoff`, in table order. */
  function InWindow(items: seq<ContentItem>, ids: set<string>, cutoff: int): (r: seq<ContentItem>)
    ensures Subsequence(r, items)
    ensures forall x :: x in r <==> x in items && x.sourceId in ids && x.publishedAt >= cutoff
    ensures forall x ::
      multiset(r)[x] == if x.sourceId in ids && x.publishedAt >= cutoff then multiset(items)[x] else 0
    ensures multiset(r) <= multiset(items)
  {
    Filter(items, (x: ContentItem) => x.sourceId in ids && x.publishedAt >= cutoff)
  }

  /** `getRecentContent` on a snapshot of the tables: every stored item whose
      source belongs to the owner and whose publication time is no earlier
      than `days` days before `now`, newest first. */
  function RecentContent(sources: seq<Source>, items: seq<ContentItem>, userId: string, days: int, now: int)
    : (r: seq<ContentItem>)
    ensures Seqs.NewestFirst(r, PublishedAt)
    ensures forall x :: x in r <==>
      && x in items
      && x.sourceId in OwnedSourceIds(sources, userId)
      && x.publishedAt >= Cutoff(now, days)
    ensures multiset(r) == multiset(InWindow(items, OwnedSourceIds(sources, userId), Cutoff(now, days)))
    ensures multiset(r) <= multiset(items)
  {
    var window := InWindow(items, OwnedSourceIds(sources, userId), Cutoff(now, days));
    var r := Seqs.SortNewestFirst(window, PublishedAt);
    assert forall x :: x in r <==> x in multiset(window);
    r
  }

  /** `getRecentContent`: the query above, or the storage error rethrown. */
  function GetRecentContent(db: Database, userId: string, days: int, now: int, failing: set<Query>)
    : (r: Result<seq<ContentItem>, string>)
    reads db
    ensures ContentRead in failing <==> r.Failure?
    ensures r.Success? ==> r.value == RecentContent(db.sources, db.contentItems, userId, days, now)
  {
    if ContentRead in failing then Failure("content query failed")
    else Success(RecentContent(db.sources, db.contentItems, userId, days, now))
  }

  /** Owner scoping: when source ids are unique, an item of another owner's
      source is never in an owner's recent content. */
  lemma RecentContentIsOwnerScoped(
    sources: seq<Source>, items: seq<ContentItem>, owner: string, other: string,
    days: int, now: int, x: ContentItem)
    requires forall i, j | 0 <= i < j < |sources| :: sources[i].id != sources[j].id
    requires exists s | s in sources :: s.id == x.sourceId && s.userId == other
    requires owner != other
    ensures x !in RecentContent(sources, items, owner, days, now)
  {
  }

  /** The seven-day window: for a stored item of the owner, six days old is
      in, exactly seven days old is in (the bound is inclusive), eight days
      old is out. */
  lemma SevenDayWindow(sources: seq<Source>, items: seq<ContentItem>, userId: string, now: int, x: ContentItem)
    requires x in items && x.sourceId in OwnedSourceIds(sources, userId)
    ensures x.publishedAt == now - 6 * DayMillis ==> x in RecentContent(sources, items, userId, 7, now)
    ensures x.publishedAt == now - 7 * DayMillis ==> x in RecentContent(sources, items, userId, 7, now)
    ensures x.publishedAt == now - 8 * DayMillis ==> x !in RecentContent(sources, items, userId, 7, now)
  {
  }
}
