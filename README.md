# CreatorPulse core, modelled in Dafny

CreatorPulse collects a creator's content from Twitter, YouTube and RSS sources. It finds trends in the last week of that content and drafts newsletters in the creator's own writing style. It emails them and reports per-creator statistics. This project models the deterministic logic around the external calls:

- the three fetchers that normalise upstream responses into content items;
- the per-user fetch loop that tags, merges and upserts them;
- the seven-day recency window;
- the trend pipeline, with its fallback for unparsable model output;
- writing-style extraction and prompt assembly;
- the newsletter Draft → Sent transition and the statistics fold;
- the backend and front-end string utilities and the retry loop.

Layout. Modules are in dependency order:

| file | module | what it holds |
|---|---|---|
| `wrappers.dfy` | `Wrappers` | `Option` and `Result` |
| `seqs.dfy` | `Seqs` | order-preserving `Filter`; newest-first sort by a key; `FlatMap`, the concatenation of per-element results |
| `text.dfy` | `Text` | the JavaScript string primitives the code relies on: the ECMAScript whitespace set, `trim`, `split`/`join`, ASCII case mapping, decimal rendering |
| `types.dfy` | `Types` | the table rows: sources, content items, trends, users, writing samples, newsletters, feedback |
| `store.dfy` | `Store` | the hosted database as one `Database` object whose fields are the tables, and the upsert-by-id write |
| `content.dfy` | `ContentService` | contentService.ts |
| `ai.dfy` | `AiService` | aiService.ts |
| `trends.dfy` | `TrendService` | trendService.ts |
| `newsletters.dfy` | `NewsletterService` | newsletterService.ts |
| `helpers.dfy` | `Helpers` | src/utils/helpers.ts |
| `format.dfy` | `Format` | frontend/src/utils/format.ts |

How the outside world is represented:

- Timestamps are integers in milliseconds, and a day is 86 400 000 ms.
- Each external call is a function-typed parameter:
  - the Twitter, YouTube and RSS calls form a `Network` of three functions;
  - the language-model call is `gen`, and `JSON.parse` is `parse`;
  - the email call is `email`.
- Storage errors are a parameter `failing: set<Query>`: the storage calls that return an error in that run.
- Ids the database generates are drawn from the `Database.nextId` counter, written in decimal.

Two kinds of code are methods; the rest are functions and lemmas.

- `FetchAllUserContent`, `FetchTrends`, `GenerateNewsletter` and `SendNewsletter` are module-level methods that take the `Database` object as a parameter and modify its table fields. They state their whole new state and result in terms of specification functions, and the lemmas are proved about those functions.
- The loops of `fetchAllUserContent`, `getNewsletterStats` and `retry` are methods that change nothing outside themselves. `TagItems` and `GatherItems` are proved equal to `Tag` and `Gathered`, `TallyStats` to `StatsOf`, and `Retry` to `RetryResult`.

## Model

| member | source | states |
|---|---|---|
| ContentService.ItemsOf | src/services/contentService.ts:39-42 | a failed upstream call or an absent item list gives no items |
| ContentService.TweetItem | src/services/contentService.ts:26-38 | a tweet keeps its id, text and creation time, and is titled "Tweet by @handle" |
| ContentService.VideoItem | src/services/contentService.ts:58-68 | a video keeps its id, title, description and publication time |
| ContentService.FeedItem | src/services/contentService.ts:79-87 | id falls back guid → link → "", body falls back snippet → content → "", publication time falls back to the fetch time |
| ContentService.FetchTwitterContent | src/services/contentService.ts:11-43 | exactly one item per delivered tweet, in order; none on any error |
| ContentService.FetchYouTubeContent | src/services/contentService.ts:45-73 | exactly one item per delivered video, in order; none on any error |
| ContentService.FetchRSSContent | src/services/contentService.ts:75-92 | min(10, entries) items, the i-th mapped from the i-th entry; none on any error |
| ContentService.ChannelId | src/services/contentService.ts:121-124 | with a set URL, the YouTube channel id is the URL's final '/'-free segment, preceded by '/' or the start of the URL; without one it is the handle |
| ContentService.FeedUrl | src/services/contentService.ts:126-127 | the feed address is the URL when set, otherwise the handle |
| ContentService.FetchForSource | src/services/contentService.ts:116-129 | a Twitter source gives one `TweetItem` per tweet fetched for its handle; a YouTube source one `VideoItem` per video fetched for `ChannelId`; an RSS source the `FeedItem`s of the first min(10, entries) entries fetched from `FeedUrl`; in order; a source of another type, or whose upstream call fails, gives nothing |
| ContentService.Tag | src/services/contentService.ts:131-134 | every item gets the source's id and nothing else changes |
| ContentService.TagItems | src/services/contentService.ts:131-134 | the tagging loop computes exactly `Tag` |
| ContentService.GatherItems | src/services/contentService.ts:110-141 | the fetch loop yields the concatenation of the per-source tagged results in source order |
| ContentService.GatheredAppend | src/services/contentService.ts:112-141 | the gathered items of two source lists are the gathered items of each, concatenated |
| ContentService.GatheredSkipsSilentSource | src/services/contentService.ts:112-141 | a source that fails or has an unknown type contributes nothing, and the loop continues with the next |
| ContentService.GatheredItemsAreTagged | src/services/contentService.ts:112-136 | every gathered item carries the id of a source in the list |
| ContentService.OwnedSources | src/services/contentService.ts:97-100 | a subsequence of the table holding every owner's source as often as stored and nothing else, so exactly the owner's sources in table order |
| ContentService.GatheredFromOwnedSources | src/services/contentService.ts:97-136 | every returned item carries the id of one of the owner's sources |
| ContentService.FetchAllUserContent | src/services/contentService.ts:94-161 | a failing sources read is rethrown; otherwise the gathered items are returned; the table is upserted only when they are non-empty and the save succeeds, so an owner with no sources writes nothing |
| ContentService.FeedWithoutLinksIsNotSaved | src/services/contentService.ts:79-86 | two feed entries without guid or link both get id "", and the database refuses the batch as issued |
| ContentService.InWindow | src/services/contentService.ts:168-175 | a subsequence of the table keeping every item whose source is owned and that is published at or after the cutoff, as often as stored, and nothing else |
| ContentService.RecentContent | src/services/contentService.ts:163-176 | a permutation of `InWindow`, so the owner's items with `published_at >= now - days`, each as often as stored, ordered newest first |
| ContentService.GetRecentContent | src/services/contentService.ts:163-187 | the read fails iff the storage read fails; otherwise it returns `RecentContent` |
| ContentService.RecentContentIsOwnerScoped | src/services/contentService.ts:168-174 | an item of another owner's source is never returned |
| ContentService.SevenDayWindow | src/services/contentService.ts:165-175 | six and exactly seven days old are inside the window, eight days old is outside |
| Store.IndexOfId | src/services/contentService.ts:147-149 | finds the row with the conflict key `id`, or reports that no row has it |
| Store.Upsert | src/services/contentService.ts:145-149 | replaces the row with the same id or appends; other rows are kept; ids stay unique |
| Store.UpsertAll | src/services/contentService.ts:145-149 | upserting a batch into a table with unique ids keeps them unique |
| Store.UpsertAllIds | src/services/contentService.ts:145-149 | after the upsert the ids are the old ids plus the batch's ids |
| Store.UpsertAllKnownIds | src/services/contentService.ts:145-149 | a batch whose ids are all stored leaves the number of rows unchanged |
| Store.UpsertAgainAddsNothing | src/services/contentService.ts:145-149 | re-saving the same items adds no new keys |
| Store.UpsertAllKeeps | src/services/contentService.ts:145-149 | a stored row whose id the batch does not mention survives |
| Store.UpsertAllLastWins | src/services/contentService.ts:145-149 | a batch row that no later row overrides is stored as given |
| Store.SaveAsWritten | src/services/contentService.ts:144-154 | the upsert as issued succeeds iff the batch's ids are distinct, and then stores the old ids plus the batch's ids |
| Seqs.SortNewestFirst | src/services/contentService.ts:176 | the result is ordered by descending key and is a permutation of the input |
| Seqs.FlatMapAppend | src/services/contentService.ts:136 | concatenating per-element results distributes over list concatenation |
| Text.LastPieceIsTail | src/services/contentService.ts:123 | `split('/').pop()` is the part after the last '/', or the whole text when there is none |
| Text.JoinSplit | src/services/aiService.ts:143 | joining the pieces of a split with the separator gives back the text |
| Text.TrimUnique | src/utils/helpers.ts:52 | `trim` removes exactly the leading and trailing whitespace: any such core is the trimmed text |
| Text.CollapseSpaces | src/utils/helpers.ts:43 | replacing each whitespace run by one space never lengthens the text |
| Text.SplitOnSpaceRuns | src/utils/helpers.ts:43 | `split(/\s+/)` is `split(' ')` of the text with each whitespace run collapsed to one space, so in order and with an empty first or last piece for leading or trailing whitespace; the pieces hold only non-whitespace characters of the text |
| Text.DecimalRoundTrip | src/services/aiService.ts:141 | the decimal rendering of a number reads back as that number |
| AiService.Take | src/services/aiService.ts:58 | `slice(0, n)` is the prefix of length min(n, length) |
| AiService.FallbackTrends | src/services/aiService.ts:140-144 | min(3, items) trends; the i-th is titled exactly "Trend " + decimal(i+1) + ": " + the first 50 characters of the i-th item's title, its summary is the first 150 characters of the item's body plus "...", and its keywords are the first min(3, pieces) pieces of `split(' ')` of the title |
| AiService.AnalyzeTrends | src/services/aiService.ts:94-150 | fails with "Failed to analyze trends" iff the model call fails; otherwise the parse of the answer (or of "[]" when none), and the fallback trends when that does not parse |
| AiService.MissingAnswerGivesNoTrends | src/services/aiService.ts:133-136 | an empty answer parses as "[]", so no fallback trends are made |
| AiService.FallbackKeywordsRebuildTitle | src/services/aiService.ts:143 | for a title of at most three words, the fallback keywords joined by spaces are the title |
| AiService.TakeLine | src/services/aiService.ts:193-194 | what `.+` matches: the longest prefix without a line terminator |
| AiService.FindLabelFrom | src/services/aiService.ts:193-194 | the first case-insensitive occurrence of the label at or after a position |
| AiService.AfterLabel | src/services/aiService.ts:193-194 | the text after the first case-insensitive occurrence of the label, or nothing iff the label does not occur |
| AiService.LabelValue | src/services/aiService.ts:193-199 | nothing when the label does not occur; otherwise `LineValue` of the text after its first occurrence; a value is non-empty, single-line and has no surrounding whitespace |
| AiService.LineValue | src/services/aiService.ts:193-198 | what `\s*(.+)` captures after a label, trimmed: nothing iff only whitespace is left, otherwise exactly the trimmed first line after the leading whitespace, non-empty and single-line |
| AiService.StyleFromAnswer | src/services/aiService.ts:190-200 | samples are echoed; tone is `LabelValue` of the answer for "tone:" when present, else "professional"; structure likewise for "structure:", else "standard"; both never empty and single-line |
| AiService.ExtractWritingStyle | src/services/aiService.ts:152-209 | samples are echoed; no samples or a failing call give "professional"/"standard"; otherwise the model is asked with the samples joined by the "---" separator and the result is `StyleFromAnswer` of its answer ("" when absent) |
| AiService.LabelLineIsRead | src/services/aiService.ts:193-198 | at any position: an answer with no occurrence of the label before a line "<label> v", v trimmed and single-line, gives v |
| AiService.ToneLineIsRead | src/services/aiService.ts:193-198 | an answer that starts with the line "Tone: v" gives tone v |
| AiService.NoSamplesNeedsNoModel | src/services/aiService.ts:156-162 | with no samples the result does not depend on the model |
| AiService.TrendLines | src/services/aiService.ts:62-65 | the prompt lists min(3, trends) trends, the i-th line naming the i-th trend's title and summary |
| AiService.ContentLines | src/services/aiService.ts:57-60 | the prompt lists min(5, items) items, the i-th line holding the i-th title and at most the first 200 characters of its body, then "..." |
| AiService.GenerateNewsletterContent | src/services/aiService.ts:28-92 | a failing call gives the error "Failed to generate newsletter content"; an empty answer gives that text as the draft; otherwise the draft is the answer, and it is never empty |
| AiService.DraftIgnoresTheRest | src/services/aiService.ts:57-65 | trends beyond the third and items beyond the fifth do not change the prompt |
| TrendService.Stamp | src/services/trendService.ts:19-24 | one row per trend, in order, with the owner, the trend's title, summary and keywords unchanged, a fresh numeric id and the insertion time |
| TrendService.StampIdsDistinct | src/services/trendService.ts:26-29 | the inserted rows have distinct ids |
| TrendService.UnstampStamp | src/services/trendService.ts:19-24 | the rows record exactly the trends, in order |
| TrendService.FetchTrends | src/services/trendService.ts:6-41 | empty window → [] without analysis; content-read or analysis failures are rethrown; a failed insert returns the trends unsaved; otherwise the stored rows are appended and returned |
| TrendService.OwnedTrends | src/services/trendService.ts:45-48 | a subsequence of the table holding every owner's row as often as stored and nothing else |
| TrendService.LatestTrends | src/services/trendService.ts:43-50 | exactly min(limit, owned) rows, newest first, a sub-multiset of the owner's rows; all of them when the owner has no more than `limit` |
| TrendService.LatestTrendsAreTheNewest | src/services/trendService.ts:49-50 | any owned row left out is no newer than every row returned |
| TrendService.GetLatestTrends | src/services/trendService.ts:43-61 | the read fails iff the storage read fails; otherwise it returns `LatestTrends` |
| NewsletterService.UsersWithId | src/services/newsletterService.ts:10-14 | the rows with the id, each as often as stored, and nothing else |
| NewsletterService.UserTimezone | src/services/newsletterService.ts:10-18 | the user's time zone when the single-row read finds exactly one row and its zone is non-empty; "UTC" when the zone is empty, the read fails, or no row or several match; a failed read is only logged |
| NewsletterService.OwnedSamples | src/services/newsletterService.ts:27-30 | a subsequence of the table holding every owner's sample as often as stored and nothing else |
| NewsletterService.TextsOfOwnedSamples | src/services/newsletterService.ts:37-39 | the texts of the owner's samples are exactly the texts some owner's sample has |
| NewsletterService.SampleTexts | src/services/newsletterService.ts:27-39 | one text per owned sample, the i-th the content of the i-th, in table order; a text occurs iff some owner's sample has it; none when the read fails |
| NewsletterService.ComposeDraft | src/services/newsletterService.ts:20-47 | the draft of the prompt built from the 7-day content, the 5 latest trends, the extracted style and the time zone; content or trends read failures and a failing model call are errors |
| NewsletterService.GenerateNewsletter | src/services/newsletterService.ts:7-68 | on success one row is appended: the owner, the draft, `sent_at` unset; every failure is rethrown and leaves the table unchanged |
| NewsletterService.Matching | src/services/newsletterService.ts:73-79 | the rows the read keeps: a subsequence of the table holding every newsletter with the id whose owner exists, as often as stored, and nothing else |
| NewsletterService.Joined | src/services/newsletterService.ts:73-84 | one pair per kept row, in order: the i-th kept newsletter with the first user of its owner's id; every pair is such, and no kept newsletter is left out |
| NewsletterService.PairsCoverMatching | src/services/newsletterService.ts:73-79 | pairing the kept rows index by index leaves none of them out |
| NewsletterService.SingleMatchIsFound | src/services/newsletterService.ts:73-84 | when the read succeeds and the table holds exactly one row with the id, once, and its owner exists, the lookup returns that row and its owner |
| NewsletterService.FindForSending | src/services/newsletterService.ts:73-84 | the joined row when the read succeeds and exactly one row joins; nothing when the read fails or no row or several join |
| NewsletterService.MarkSent | src/services/newsletterService.ts:95-98 | the rows with the id get `sent_at = now`; all others are unchanged |
| NewsletterService.SendNewsletter | src/services/newsletterService.ts:70-110 | returns true iff the newsletter is found and the email reports success; only then, and only if the update succeeds, is `sent_at` stamped; otherwise nothing changes |
| NewsletterService.ResendOverwrites | src/services/newsletterService.ts:93-98 | a second send overwrites the first `sent_at` |
| NewsletterService.SentAndDraftsPartition | src/services/newsletterService.ts:129-133 | sent + drafts = total |
| NewsletterService.TallyCountsEveryRow | src/services/newsletterService.ts:137-145 | each tally counts the rows with that rating over all feedback rows of all newsletters |
| NewsletterService.OtherRatingsAreNotCounted | src/services/newsletterService.ts:139-143 | positive + negative is at most the number of feedback rows: a row is counted once at most, other ratings never |
| NewsletterService.StatsExample | src/services/newsletterService.ts:129-145 | two sent and one draft with ratings positive, positive, negative give 3/2/1/2/1 |
| NewsletterService.TallyStats | src/services/newsletterService.ts:129-147 | the nested counting loops compute `StatsOf` |
| NewsletterService.GetNewsletterStats | src/services/newsletterService.ts:112-152 | the statistics of the owner's newsletters, or the read error |
| NewsletterService.NewDraftIsCounted | src/services/newsletterService.ts:50-57 | an inserted draft adds one to total and drafts and none to sent |
| NewsletterService.MarkSentMovesDrafts | src/services/newsletterService.ts:95-98 | stamping moves the owner's drafts with that id into the sent count; the total is unchanged |
| Seqs.Filter | src/services/contentService.ts:100 | `.eq(...)` and `.filter(...)`: a subsequence of the input holding each satisfying element as often as the input and nothing else |
| Helpers.StripPunctuation | src/utils/helpers.ts:42 | a subsequence of the text keeping every word and whitespace character, each as often as it occurs, and nothing else |
| Helpers.EligibleWords | src/utils/helpers.ts:44 | a subsequence of the words keeping every word longer than 3 characters that is not a stop word, as often as it occurs, and nothing else |
| Helpers.Words | src/utils/helpers.ts:40-43 | the words joined by single spaces are the lower-cased, stripped text with each whitespace run collapsed to one space; every word has only word characters and no upper-case letter |
| Helpers.WordsAreLowerWordChars | src/utils/helpers.ts:41-43 | every piece of the split of the lower-cased, stripped text has only word characters and no upper-case letter |
| Helpers.ExtractKeywords | src/utils/helpers.ts:31-46 | exactly min(10, eligible) keywords, a prefix of the eligible words in order of appearance, each eligible, lower case and made of word characters |
| Helpers.TruncateText | src/utils/helpers.ts:48-53 | unchanged when it fits; otherwise the trimmed prefix of `maxLength` characters plus "...", at most `maxLength` + 3 long; the front-end copy (frontend/src/utils/format.ts:57-60) has the same body and is this member |
| Helpers.TruncatedPartIsTheTrimmedPrefix | src/utils/helpers.ts:52 | the kept part is the prefix with its surrounding whitespace removed, and nothing else |
| Helpers.Backoff | src/utils/helpers.ts:93-95 | the first wait is `delay`, and each later wait doubles the previous |
| Helpers.AttemptsUsed | src/utils/helpers.ts:83-91 | at most `maxAttempts` calls, stopping at the first that returns; every earlier call threw |
| Helpers.RetryResult | src/utils/helpers.ts:76-100 | succeeds iff one of the first `maxAttempts` calls returns, with the value of the first; otherwise fails with the last error (undefined when `maxAttempts` < 1) |
| Helpers.Retry | src/utils/helpers.ts:76-100 | the loop computes `RetryResult`, makes `AttemptsUsed` calls and waits one doubling delay between consecutive calls, none after the last |
| Format.CapitalizeFirst | frontend/src/utils/format.ts:62-64 | the same length, the first character its upper-case form, the rest unchanged; "" stays "" |
| Format.CapitalizeFirstIdempotent | frontend/src/utils/format.ts:62-64 | capitalising twice is capitalising once |
| Format.FirstCharsOfSplit | frontend/src/utils/format.ts:67-69 | the first characters of the `split(' ')` pieces are the word-start characters |
| Format.GetInitials | frontend/src/utils/format.ts:66-73 | exactly min(2, word starts) characters, none lower case, a prefix of the upper-cased word starts |
| Format.TwoWordInitials | frontend/src/utils/format.ts:66-73 | a name of two or more words gives the upper-cased first letters of its first two words |
| Format.FormatNumber | frontend/src/utils/format.ts:47-55 | ends in 'M' iff n ≥ 1 000 000, ends in 'K' iff 1000 ≤ n < 1 000 000, plain decimal below 1000 |
| Format.FormatWith | frontend/src/utils/format.ts:3-45 | `formatDate` and `formatRelativeTime`: "Unknown" for null, undefined or ""; "Invalid date" for an unparsable text, an invalid date or a throwing rendering; else the rendering |
| Format.UnknownOnlyForMissing | frontend/src/utils/format.ts:4-6 | "Unknown" is returned iff the date is missing, when the rendering never produces that word |

## Findings

| source | as written | input that shows it | evidently intended | confidence | as-written member | corrected member |
|---|---|---|---|---|---|---|
| src/services/contentService.ts:144-154 | the merged items of all sources are upserted in one command with `onConflict: 'id'`; PostgreSQL refuses an INSERT … ON CONFLICT DO UPDATE that proposes the same key twice, so the whole batch is lost and the error is only logged | two RSS entries with neither guid nor link (both get id "", contentService.ts:80), or one post reachable from two sources | every fetched item is stored, a later row with the same id replacing an earlier one | medium; not executed | Store.SaveAsWritten, ContentService.FeedWithoutLinksIsNotSaved | Store.UpsertAll, Store.UpsertAllLastWins |

`ContentService.FetchAllUserContent` uses the corrected `Store.UpsertAll`.

## Left out

- The Twitter, YouTube, RSS, language-model, database and email calls are parameters. Their request sizes (`max_results` 20, `maxResults` 10) and prompts' fixed wording are not modelled; the model passes only the variable part of each prompt.
- `JSON.parse` is an abstract `parse` returning `Option<seq<Trend>>`. The parsed value's shape is not validated, in the model as in the code.
- RSS `pubDate` is taken as an already-parsed instant. `new Date(...)` parsing and `toISOString` are not modelled.
- `setDate(getDate() - days)` is modelled as `now - days * 86 400 000` ms. Daylight-saving shifts of the local calendar are not modelled.
- Database-generated UUIDs are modelled as the `nextId` counter written in decimal. `content_items.id` is a `UUID` column (src/database/migrate.ts:110), so a tweet, video or feed id that is not UUID text makes the save fail. The model covers that only through `ContentSave` in `failing`, not by checking id syntax.
- Helpers.TruncateText: `length` and `substring` count UTF-16 code units in JavaScript, but the model's strings are sequences of code points. The cut can therefore differ where the text has characters outside the Basic Multilingual Plane: `truncateText("😀😀", 3)` keeps a lone high surrogate in JavaScript.
- AiService.FallbackTrends: the 50- and 150-character prefixes are counted in code points, not UTF-16 code units. JavaScript can split a surrogate pair there.
- AiService.ContentLines: the 200-character prefix of each body is counted in code points, not UTF-16 code units.
- Format.GetInitials: `word[0]` is a UTF-16 code unit in JavaScript but a code point in the model. `getInitials("😀 Bob")` gives a lone high surrogate followed by "B" in JavaScript, and the emoji followed by "B" in the model.
- Format.CapitalizeFirst: `charAt(0)` and `slice(1)` split at the first UTF-16 code unit in JavaScript and at the first code point in the model; the two differ only for a leading character outside the Basic Multilingual Plane.
- Case mapping (`toLowerCase`, `toUpperCase`) is ASCII only. Non-ASCII letters keep their case, so special cases such as 'ß' → "SS" are not modelled.
- The catch around a source's fetch in `fetchAllUserContent` (contentService.ts:137-140) cannot fire, because each fetcher already returns [] on any error. A source with an unknown type gives nothing through the switch's missing default.
- The order of the statistics query (`created_at` descending) is not modelled. The counts do not depend on it.
- The newsletter prompt lists 3 trends (aiService.ts:63) even though `generateNewsletter` loads 5. The model follows the code.
- The open and click rates of the statistics are not modelled, because the code does not compute them.
- Format.FormatNumber: `toFixed(1)` on the quotient is floating point. It is the parameter `fixed1`, and only the suffix choice and the integer branch are stated. `num.toString()` is modelled for integers only.
- Format.FormatWith: `parseISO`, `format` and `formatDistanceToNow` are the parameters `parse` and `render`. Only the missing and invalid branches are stated.
- `generateId`, `formatDate`/`formatDateTime`, `isValidUrl`, `extractDomain` and `sleep` in src/utils/helpers.ts wrap uuid, Intl and URL library calls. They are not modelled; the waits of `retry` are recorded in `waits` instead of slept.
- The cron jobs, routes, front-end pages and API client are not part of this model.
