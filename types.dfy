/** The rows of the storage tables (src/types/database.ts). Timestamps are
    milliseconds since the epoch; identifiers are strings. */
module Types {
  import opened Wrappers

  /** `Source.type`. The schema's check constraint admits only the three
      known kinds (src/database/migrate.ts:50); the model is total anyway, and
      `Unlisted` carries any other value the fetch loop might be handed. */
  datatype SourceType = Twitter | YouTube | Rss | Unlisted(name: string)

  datatype Source = Source(
    id: string,
    userId: string,
    kind: SourceType,
    handle: string,
    url: Option<string>,
    createdAt: int)

  /** Free-form counters such as `likes`, `retweets`, `views`. */
  type Engagement = map<string, int>

  datatype ContentItem = ContentItem(
    id: string,
    sourceId: string,
    title: string,
    content: string,
    url: string,
    publishedAt: int,
    engagement: Engagement)

  /** A trend as the generator or the fallback produces it (no owner yet). */
  datatype Trend = Trend(title: string, summary: string, keywords: seq<string>)

  /** A row of the `trends` table. */
  datatype StoredTrend = StoredTrend(
    id: string,
    userId: string,
    title: string,
    summary: string,
    keywords: seq<string>,
    createdAt: int)
  {
    /** The trend this row records, without owner, id and timestamp. */
    function AsTrend(): Trend {
      Trend(title, summary, keywords)
    }
  }

  datatype User = User(id: string, email: string, name: string, timezone: string, createdAt: int)

  datatype WritingSample = WritingSample(id: string, userId: string, content: string, createdAt: int)

  /** A newsletter is a draft while `sentAt` is unset. */
  datatype Newsletter = Newsletter(
    id: string,
    userId: string,
    content: string,
    sentAt: Option<int>,
    createdAt: int)

  /** `Feedback.rating`. The schema admits only the two ratings
      (src/database/migrate.ts:100); the model is total over any other value. */
  datatype Rating = Positive | Negative | OtherRating(name: string)

  datatype Feedback = Feedback(
    id: string,
    newsletterId: string,
    userId: string,
    rating: Rating,
    comment: Option<string>,
    createdAt: int)
}
