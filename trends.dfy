/** Trend detection (src/services/trendService.ts): analyse the owner's
    last seven days of content, store the trends found, and read back the
    most recent ones. */
module TrendService {
  import opened Wrappers
  import opened Text
  import opened Types
  import opened Store
  import opened Seqs
  import opened ContentService
  import opened AiService

  /** The days of content a trend analysis looks at. */
  const TrendWindowDays := 7

  /** The number of trends `getLatestTrends` returns by default. */
  const DefaultTrendLimit := 5

  /** What `fetchTrends` returns: the inserted rows as the database echoes
      them, or the trends themselves when there was nothing to analyse or
      the insert failed. */
  datatype FetchedTrends = Stored(rows: seq<StoredTrend>) | Unsaved(trends: seq<Trend>)

  /** The rows inserted for `trends`: each trend with its owner, an id the
      database assigns from `firstId` on, and the insertion time. */
  function Stamp(trends: seq<Trend>, userId: string, firstId: nat, now: int): (r: seq<StoredTrend>)
    ensures |r| == |trends|
    ensures forall i | 0 <= i < |r| ::
      && r[i].AsTrend() == trends[i] && r[i].userId == userId && r[i].createdAt == now
      && IsDigits(r[i].id) && DecimalValue(r[i].id) == firstId + i
  {
    var r := seq(|trends|, i requires 0 <= i < |trends| =>
      StoredTrend(NatToString(firstId + i), userId, trends[i].title, trends[i].summary, trends[i].keywords, now));
    forall i | 0 <= i < |r|
      ensures DecimalValue(r[i].id) == firstId + i
    {
      DecimalRoundTrip(firstId + i);
    }
    r
  }

  /** The inserted rows carry distinct ids. */
  lemma StampIdsDistinct(trends: seq<Trend>, userId: string, firstId: nat, now: int)
    ensures var r := Stamp(trends, userId, firstId, now);
      forall i, j | 0 <= i < j < |r| :: r[i].id != r[j].id
  {
    var r := Stamp(trends, userId, firstId, now);
    forall i, j | 0 <= i < j < |r|
      ensures r[i].id != r[j].id
    {
      assert DecimalValue(r[i].id) != DecimalValue(r[j].id);
    }
  }

  /** The trends a list of rows records. */
  function Unstamp(rows: seq<StoredTrend>): (r: seq<Trend>)
    ensures |r| == |rows|
    ensures forall i | 0 <= i < |r| :: r[i] == rows[i].AsTrend()
  {
    seq(|rows|, i requires 0 <= i < |rows| => rows[i].AsTrend())
  }

  /** Storing loses nothing: the rows record exactly the trends, in order. */
  lemma UnstampStamp(trends: seq<Trend>, userId: string, firstId: nat, now: int)
    ensures Unstamp(Stamp(trends, userId, firstId, now)) == trends
  {
    var u := Unstamp(Stamp(trends, userId, firstId, now));
    assert |u| == |trends|;
    forall i | 0 <= i < |u| ensures u[i] == trends[i] { }
  }

  /** `fetchTrends`: the owner's content of the last seven days; none means
      no analysis and no trends. Otherwise the analysed trends are inserted
      as the owner's rows; a failed insert returns the trends unsaved. A
      failing content read or analysis is rethrown. */
  method FetchTrends(
    db: Database, userId: string, now: int,
    gen: string -> Completion, parse: string -> Option<seq<Trend>>, failing: set<Query>)
    returns (r: Result<FetchedTrends, string>)
    modifies db`trends, db`nextId
    ensures var recent := old(GetRecentContent(db, userId, TrendWindowDays, now, failing));
      && (recent.Failure? ==> r == Failure(recent.error))
      && (recent.Success? && recent.value == [] ==> r == Success(Unsaved([])))
      && (recent.Success? && recent.value != [] ==>
            var analysed := AnalyzeTrends(recent.value, gen, parse);
            && (analysed.Failure? ==> r == Failure(analysed.error))
            && (analysed.Success? && TrendsSave in failing ==> r == Success(Unsaved(analysed.value)))
            && (analysed.Success? && TrendsSave !in failing ==>
                  r == Success(Stored(Stamp(analysed.value, userId, old(db.nextId), now)))))
    ensures r.Success? && r.value.Stored? ==>
      db.trends == old(db.trends) + r.value.rows && db.nextId == old(db.nextId) + |r.value.rows|
    ensures !(r.Success? && r.value.Stored?) ==> db.trends == old(db.trends) && db.nextId == old(db.nextId)
  {
    var recent := GetRecentContent(db, userId, TrendWindowDays, now, failing);
    if recent.Failure? {
      return Failure(recent.error);
    }
    if |recent.value| == 0 {
      return Success(Unsaved([]));
    }
    var analysed := AnalyzeTrends(recent.value, gen, parse);
    if analysed.Failure? {
      return Failure(analysed.error);
    }
    if TrendsSave in failing {
      return Success(Unsaved(analysed.value));
    }
    var rows := Stamp(analysed.value, userId, db.nextId, now);
    db.trends := db.trends + rows;
    db.nextId := db.nextId + |rows|;
    r := Success(Stored(rows));
  }

  function CreatedAt(t: StoredTrend): int {
    t.createdAt
  }

  /** The rows of one owner, in table order (`.eq('user_id', userId)`). */
  function OwnedTrends(rows: seq<StoredTrend>, userId: string): (r: seq<StoredTrend>)
    ensures Subsequence(r, rows)
    ensures forall t :: t in r <==> t in rows && t.userId == userId
    ensures forall t :: multiset(r)[t] == if t.userId == userId then multiset(rows)[t] else 0
    ensures multiset(r) <= multiset(rows)
  {
    Filter(rows, (t: StoredTrend) => t.userId == userId)
  }

  /** The owner's rows, newest first, at most `limit` of them. */
  function LatestTrends(rows: seq<StoredTrend>, userId: string, limit: nat): (r: seq<StoredTrend>)
    ensures |r| == Min(limit, |OwnedTrends(rows, userId)|)
    ensures NewestFirst(r, CreatedAt)
    ensures multiset(r) <= multiset(OwnedTrends(rows, userId))
    ensures forall t | t in r :: t in rows && t.userId == userId
    ensures |OwnedTrends(rows, userId)| <= limit ==>
      multiset(r) == multiset(OwnedTrends(rows, userId))
  {
    var owned := OwnedTrends(rows, userId);
    var sorted := SortNewestFirst(owned, CreatedAt);
    var r := Take(sorted, limit);
    assert r == sorted[..|r|];
    PrefixSubMultiset(sorted, |r|);
    NewestFirstPrefix(sorted, |r|, CreatedAt);
    assert forall t | t in r :: t in multiset(owned);
    r
  }

  /** The rows left out are no newer than any row returned. */
  lemma {:induction false} LatestTrendsAreTheNewest(rows: seq<StoredTrend>, userId: string, limit: nat, t: StoredTrend)
    requires t in rows && t.userId == userId
    requires t !in LatestTrends(rows, userId, limit)
    ensures forall u | u in LatestTrends(rows, userId, limit) :: u.createdAt >= t.createdAt
  {
    var owned := OwnedTrends(rows, userId);
    var sorted := SortNewestFirst(owned, CreatedAt);
    var r := LatestTrends(rows, userId, limit);
    assert r == sorted[..|r|];
    assert t in multiset(sorted) by { assert t in owned; }
    OmittedIsOlder(sorted, |r|, CreatedAt, t);
  }

  /** `getLatestTrends`: the query above, or the storage error rethrown. */
  function GetLatestTrends(db: Database, userId: string, limit: nat, failing: set<Query>)
    : (r: Result<seq<StoredTrend>, string>)
    reads db
    ensures TrendsRead in failing <==> r.Failure?
    ensures r.Success? ==> r.value == LatestTrends(db.trends, userId, limit)
  {
    if TrendsRead in failing then Failure("trends query failed")
    else Success(LatestTrends(db.trends, userId, limit))
  }
}
