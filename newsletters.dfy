/** Newsletters (src/services/newsletterService.ts): composing and storing a
    draft, the Draft -> Sent transition after a successful email, and the
    per-owner statistics. */
module NewsletterService {
  import opened Wrappers
  import opened Text
  import opened Types
  import opened Store
  import opened ContentService
  import opened AiService
  import opened TrendService
  import opened Seqs

  /** The number of trends a newsletter draft asks for (`getLatestTrends(userId, 5)`). */
  const DraftTrendLimit := 5

  const DefaultTimezone := "UTC"

  /** The users whose id is `id`, in table order. */
  function UsersWithId(users: seq<User>, id: string): (r: seq<User>)
    ensures forall u | u in r :: u in users && u.id == id
    ensures forall u | u in users && u.id == id :: u in r
    ensures forall u :: multiset(r)[u] == if u.id == id then multiset(users)[u] else 0
  {
    Filter(users, (u: User) => u.id == id)
  }

  /** `user?.timezone || 'UTC'` after a `.single()` read: the owner's time
      zone when exactly one user row matches, the read succeeds and the zone
      is set; "UTC" otherwise (a failed read is only logged). */
  function UserTimezone(users: seq<User>, userId: string, failing: set<Query>): (r: string)
    ensures r != []
    ensures UserRead !in failing && |UsersWithId(users, userId)| == 1 && UsersWithId(users, userId)[0].timezone != ""
      ==> r == UsersWithId(users, userId)[0].timezone
    ensures UserRead !in failing && |UsersWithId(users, userId)| == 1 && UsersWithId(users, userId)[0].timezone == ""
      ==> r == DefaultTimezone
    ensures UserRead in failing || |UsersWithId(users, userId)| != 1 ==> r == DefaultTimezone
  {
    var found := UsersWithId(users, userId);
    if UserRead in failing || |found| != 1 then DefaultTimezone
    else if found[0].timezone != "" then found[0].timezone
    else DefaultTimezone
  }

  /** The owner's writing samples, in table order, each as often as stored
      (`.eq('user_id', userId)`). */
  function OwnedSamples(samples: seq<WritingSample>, userId: string): (r: seq<WritingSample>)
    ensures Subsequence(r, samples)
    ensures forall w :: multiset(r)[w] == if w.userId == userId then multiset(samples)[w] else 0
    ensures forall w :: w in r <==> w in samples && w.userId == userId
  {
    Filter(samples, (w: WritingSample) => w.userId == userId)
  }

  /** `writingSamples?.map(sample => sample.content) || []`: the texts of the
      owner's samples, one per sample and in table order; none when the read
      fails. */
  function SampleTexts(samples: seq<WritingSample>, userId: string, failing: set<Query>): (r: seq<string>)
    ensures SamplesRead in failing ==> r == []
    ensures SamplesRead !in failing ==>
      && |r| == |OwnedSamples(samples, userId)|
      && forall i | 0 <= i < |r| :: r[i] == OwnedSamples(samples, userId)[i].content
    ensures SamplesRead !in failing ==>
      forall t :: t in r <==> exists w | w in samples :: w.userId == userId && w.content == t
  {
    if SamplesRead in failing then []
    else
      var own := OwnedSamples(samples, userId);
      var r := seq(|own|, i requires 0 <= i < |own| => own[i].content);
      TextsOfOwnedSamples(samples, userId, r);
      r
  }

  /** A text is among the contents of the owner's samples iff some sample of
      the owner has it. */
  lemma TextsOfOwnedSamples(samples: seq<WritingSample>, userId: string, r: seq<string>)
    requires |r| == |OwnedSamples(samples, userId)|
    requires forall i | 0 <= i < |r| :: r[i] == OwnedSamples(samples, userId)[i].content
    ensures forall t :: t in r <==> exists w | w in samples :: w.userId == userId && w.content == t
  {
    var own := OwnedSamples(samples, userId);
    forall t
      ensures t in r <==> exists w | w in samples :: w.userId == userId && w.content == t
    {
      if t in r {
        var i :| 0 <= i < |r| && r[i] == t;
        assert own[i] in own;
      }
      if exists w | w in samples :: w.userId == userId && w.content == t {
        var w :| w in samples && w.userId == userId && w.content == t;
        var i :| 0 <= i < |own| && own[i] == w;
        assert r[i] == t;
      }
    }
  }

  /** The body of a new newsletter: the last seven days of content, the five
      latest trends and the owner's writing style, drafted by the model. A
      failing content or trends read, or a failing draft call, is rethrown. */
  function ComposeDraft(
    db: Database, userId: string, now: int,
    styleGen: string -> Completion, draftGen: NewsletterPrompt -> Completion, failing: set<Query>)
    : (r: Result<string, string>)
    reads db
    ensures ContentRead in failing || TrendsRead in failing ==> r.Failure?
    ensures ContentRead !in failing && TrendsRead !in failing ==>
      var prompt := BuildPrompt(
        Unstamp(LatestTrends(db.trends, userId, DraftTrendLimit)),
        RecentContent(db.sources, db.contentItems, userId, TrendWindowDays, now),
        ExtractWritingStyle(SampleTexts(db.writingSamples, userId, failing), styleGen),
        UserTimezone(db.users, userId, failing), now);
      && (r.Failure? <==> draftGen(prompt).Errored?)
      && (r.Success? ==> r.value == OrElse(draftGen(prompt).content, DraftError))
    ensures r.Success? ==> r.value != []
  {
    var recent := GetRecentContent(db, userId, TrendWindowDays, now, failing);
    if recent.Failure? then Failure(recent.error)
    else
      var trends := GetLatestTrends(db, userId, DraftTrendLimit, failing);
      if trends.Failure? then Failure(trends.error)
      else
        var style := ExtractWritingStyle(SampleTexts(db.writingSamples, userId, failing), styleGen);
        GenerateNewsletterContent(
          Unstamp(trends.value), recent.value, style, UserTimezone(db.users, userId, failing), now, draftGen)
  }

  /** `generateNewsletter`: compose a draft and insert it as a new row of the
      owner with `sent_at` unset; every failure is rethrown and leaves the
      table as it was. */
  method GenerateNewsletter(
    db: Database, userId: string, now: int,
    styleGen: string -> Completion, draftGen: NewsletterPrompt -> Completion, failing: set<Query>)
    returns (r: Result<Newsletter, string>)
    modifies db`newsletters, db`nextId
    ensures var draft := old(ComposeDraft(db, userId, now, styleGen, draftGen, failing));
      && (draft.Failure? ==> r == Failure(draft.error))
      && (draft.Success? && NewsletterSave in failing ==> r.Failure?)
      && (draft.Success? && NewsletterSave !in failing ==>
            r == Success(Newsletter(NatToString(old(db.nextId)), userId, draft.value, None, now)))
    ensures r.Success? ==> db.newsletters == old(db.newsletters) + [r.value] && db.nextId == old(db.nextId) + 1
    ensures r.Failure? ==> db.newsletters == old(db.newsletters) && db.nextId == old(db.nextId)
  {
    var draft := ComposeDraft(db, userId, now, styleGen, draftGen, failing);
    if draft.Failure? {
      return Failure(draft.error);
    }
    if NewsletterSave in failing {
      return Failure("newsletter insert failed");
    }
    var row := Newsletter(NatToString(db.nextId), userId, draft.value, None, now);
    db.newsletters := db.newsletters + [row];
    db.nextId := db.nextId + 1;
    r := Success(row);
  }

  /** The first user whose id is `id`: the `users!inner(...)` embedding. */
  function UserById(users: seq<User>, id: string): (r: Option<User>)
    ensures r.Some? ==> r.value in users && r.value.id == id
    ensures r.None? ==> forall u | u in users :: u.id != id
  {
    if users == [] then None
    else if users[0].id == id then Some(users[0])
    else UserById(users[1..], id)
  }

  /** A newsletter with id `id` whose owner is among the users: a row the
      inner join of `sendNewsletter`'s read keeps. */
  predicate Joinable(users: seq<User>, id: string, n: Newsletter) {
    n.id == id && UserById(users, n.userId).Some?
  }

  /** The newsletters the read keeps, in table order, each as often as stored. */
  function Matching(newsletters: seq<Newsletter>, users: seq<User>, id: string): (r: seq<Newsletter>)
    ensures Subsequence(r, newsletters)
    ensures forall n :: n in r <==> n in newsletters && Joinable(users, id, n)
    ensures forall n :: multiset(r)[n] == if Joinable(users, id, n) then multiset(newsletters)[n] else 0
  {
    Filter(newsletters, (n: Newsletter) => Joinable(users, id, n))
  }

  /** The newsletters with id `id` that have an owner, each with that owner. */
  function Joined(newsletters: seq<Newsletter>, users: seq<User>, id: string): (r: seq<(Newsletter, User)>)
    ensures |r| == |Matching(newsletters, users, id)|
    ensures forall i | 0 <= i < |r| ::
      var n := Matching(newsletters, users, id)[i];
      UserById(users, n.userId).Some? && r[i] == (n, UserById(users, n.userId).value)
    ensures forall p | p in r :: p.0 in newsletters && p.0.id == id && p.1 in users && p.1.id == p.0.userId
    ensures forall n | n in newsletters && n.id == id && UserById(users, n.userId).Some? ::
      (n, UserById(users, n.userId).value) in r
  {
    var m := Matching(newsletters, users, id);
    assert forall i | 0 <= i < |m| :: m[i] in m;
    var r := seq(|m|, i requires 0 <= i < |m| && Joinable(users, id, m[i]) =>
      (m[i], UserById(users, m[i].userId).value));
    PairsCoverMatching(newsletters, users, id, r);
    r
  }

  /** Pairing each kept newsletter with its owner, index by index, leaves none
      of them out. */
  lemma PairsCoverMatching(newsletters: seq<Newsletter>, users: seq<User>, id: string, r: seq<(Newsletter, User)>)
    requires |r| == |Matching(newsletters, users, id)|
    requires forall i | 0 <= i < |r| ::
      var n := Matching(newsletters, users, id)[i];
      UserById(users, n.userId).Some? && r[i] == (n, UserById(users, n.userId).value)
    ensures forall n | n in newsletters && n.id == id && UserById(users, n.userId).Some? ::
      (n, UserById(users, n.userId).value) in r
  {
    var m := Matching(newsletters, users, id);
    forall n | n in newsletters && n.id == id && UserById(users, n.userId).Some?
      ensures (n, UserById(users, n.userId).value) in r
    {
      var i :| 0 <= i < |m| && m[i] == n;
      assert r[i] == (n, UserById(users, n.userId).value);
    }
  }

  /** A table holding exactly one row with the id, once, whose owner exists:
      the read finds that row and its owner. */
  lemma SingleMatchIsFound(newsletters: seq<Newsletter>, users: seq<User>, n: Newsletter, failing: set<Query>)
    requires NewsletterRead !in failing
    requires multiset(newsletters)[n] == 1
    requires forall k | 0 <= k < |newsletters| && newsletters[k].id == n.id :: newsletters[k] == n
    requires UserById(users, n.userId).Some?
    ensures FindForSending(newsletters, users, n.id, failing) == Some((n, UserById(users, n.userId).value))
  {
    var m := Matching(newsletters, users, n.id);
    forall x
      ensures multiset(m)[x] == multiset{n}[x]
    {
      if Joinable(users, n.id, x) && x in newsletters {
        var k :| 0 <= k < |newsletters| && newsletters[k] == x;
      }
    }
    assert multiset(m) == multiset{n};
    assert |m| == |multiset(m)| == 1;
    assert m[0] in multiset(m);
  }

  /** The `.single()` read of `sendNewsletter`: the newsletter and its owner
      when exactly one row matches; nothing when the read fails or matches
      no row or several. */
  function FindForSending(newsletters: seq<Newsletter>, users: seq<User>, id: string, failing: set<Query>)
    : (r: Option<(Newsletter, User)>)
    ensures r.Some? ==> r.value.0 in newsletters && r.value.0.id == id
    ensures r.Some? ==> r.value.1 in users && r.value.1.id == r.value.0.userId
    ensures NewsletterRead in failing ==> r.None?
    ensures NewsletterRead !in failing && |Joined(newsletters, users, id)| == 1 ==>
      r == Some(Joined(newsletters, users, id)[0])
    ensures |Joined(newsletters, users, id)| != 1 ==> r.None?
  {
    if NewsletterRead in failing then None
    else
      var matches := Joined(newsletters, users, id);
      if |matches| == 1 then Some(matches[0]) else None
  }

  /** Every row with id `id` stamped as sent at `now`; the others unchanged. */
  function MarkSent(newsletters: seq<Newsletter>, id: string, now: int): (r: seq<Newsletter>)
    ensures |r| == |newsletters|
    ensures forall i | 0 <= i < |r| && newsletters[i].id != id :: r[i] == newsletters[i]
    ensures forall i | 0 <= i < |r| && newsletters[i].id == id :: r[i] == newsletters[i].(sentAt := Some(now))
  {
    seq(|newsletters|, i requires 0 <= i < |newsletters| =>
      if newsletters[i].id == id then newsletters[i].(sentAt := Some(now)) else newsletters[i])
  }

  /** `sendNewsletter`: email the newsletter to its owner; only when the
      email reports success is the row stamped as sent (a failing stamp is
      only logged) and `true` returned. A missing newsletter, a failed read
      and an email that fails or throws give `false` and change nothing. */
  method SendNewsletter(
    db: Database, newsletterId: string, now: int,
    email: (string, string, string) -> Option<bool>, failing: set<Query>)
    returns (sent: bool)
    modifies db`newsletters
    ensures var found := old(FindForSending(db.newsletters, db.users, newsletterId, failing));
      sent <==> found.Some? && email(found.value.1.email, found.value.1.name, found.value.0.content) == Some(true)
    ensures db.newsletters ==
      if sent && NewsletterUpdate !in failing then MarkSent(old(db.newsletters), newsletterId, now)
      else old(db.newsletters)
  {
    var found := FindForSending(db.newsletters, db.users, newsletterId, failing);
    if found.None? {
      return false;
    }
    var (n, u) := found.value;
    var outcome := email(u.email, u.name, n.content);
    sent := outcome == Some(true);
    if sent && NewsletterUpdate !in failing {
      db.newsletters := MarkSent(db.newsletters, newsletterId, now);
    }
  }

  /** Sending again is not refused: a second stamp overwrites the first. */
  lemma ResendOverwrites(newsletters: seq<Newsletter>, id: string, first: int, second: int)
    ensures MarkSent(MarkSent(newsletters, id, first), id, second) == MarkSent(newsletters, id, second)
  {
  }

  /** A newsletter as the statistics query returns it: its send time and the
      ratings of its feedback rows. */
  datatype NewsletterView = NewsletterView(sentAt: Option<int>, ratings: seq<Rating>)

  datatype Stats = Stats(total: nat, sent: nat, drafts: nat, positiveFeedback: nat, negativeFeedback: nat)

  /** The ratings of the feedback rows of newsletter `id`, in table order. */
  function RatingsFor(feedback: seq<Feedback>, id: string): (r: seq<Rating>)
    ensures |r| <= |feedback|
  {
    if feedback == [] then []
    else
      var rest := RatingsFor(feedback[1..], id);
      if feedback[0].newsletterId == id then [feedback[0].rating] + rest else rest
  }

  function ViewOf(n: Newsletter, feedback: seq<Feedback>): NewsletterView {
    NewsletterView(n.sentAt, RatingsFor(feedback, n.id))
  }

  /** The owner's newsletters with their feedback (`.eq('user_id', userId)`). */
  function NewsletterViews(newsletters: seq<Newsletter>, feedback: seq<Feedback>, userId: string)
    : (r: seq<NewsletterView>)
    ensures |r| <= |newsletters|
  {
    if newsletters == [] then []
    else
      var last := newsletters[|newsletters| - 1];
      NewsletterViews(newsletters[..|newsletters| - 1], feedback, userId)
        + (if last.userId == userId then [ViewOf(last, feedback)] else [])
  }

  function CountSent(views: seq<NewsletterView>): nat {
    if views == [] then 0
    else CountSent(views[..|views| - 1]) + (if views[|views| - 1].sentAt.Some? then 1 else 0)
  }

  function CountDrafts(views: seq<NewsletterView>): nat {
    if views == [] then 0
    else CountDrafts(views[..|views| - 1]) + (if views[|views| - 1].sentAt.None? then 1 else 0)
  }

  function CountRating(ratings: seq<Rating>, want: Rating): nat {
    if ratings == [] then 0
    else CountRating(ratings[..|ratings| - 1], want) + (if ratings[|ratings| - 1] == want then 1 else 0)
  }

  /** The feedback rows of all the newsletters with rating `want`. */
  function Tally(views: seq<NewsletterView>, want: Rating): nat {
    if views == [] then 0
    else Tally(views[..|views| - 1], want) + CountRating(views[|views| - 1].ratings, want)
  }

  /** The statistics of a list of newsletters. */
  function StatsOf(views: seq<NewsletterView>): Stats {
    Stats(|views|, CountSent(views), CountDrafts(views), Tally(views, Positive), Tally(views, Negative))
  }

  /** Every newsletter is either sent or a draft. */
  lemma {:induction false} SentAndDraftsPartition(views: seq<NewsletterView>)
    ensures CountSent(views) + CountDrafts(views) == |views|
    ensures StatsOf(views).sent + StatsOf(views).drafts == StatsOf(views).total
  {
    if views != [] {
      SentAndDraftsPartition(views[..|views| - 1]);
    }
  }

  function RatingsOf(v: NewsletterView): seq<Rating> {
    v.ratings
  }

  lemma {:induction false} CountRatingAppend(a: seq<Rating>, b: seq<Rating>, want: Rating)
    ensures CountRating(a + b, want) == CountRating(a, want) + CountRating(b, want)
    decreases |b|
  {
    if b == [] {
      assert a + b == a;
    } else {
      assert (a + b)[..|a + b| - 1] == a + b[..|b| - 1];
      CountRatingAppend(a, b[..|b| - 1], want);
    }
  }

  /** A tally counts each feedback row of each newsletter once: it is the
      count over all the rows taken together. */
  lemma {:induction false} TallyCountsEveryRow(views: seq<NewsletterView>, want: Rating)
    ensures Tally(views, want) == CountRating(Seqs.FlatMap(views, RatingsOf), want)
  {
    if views != [] {
      TallyCountsEveryRow(views[..|views| - 1], want);
      CountRatingAppend(Seqs.FlatMap(views[..|views| - 1], RatingsOf), views[|views| - 1].ratings, want);
    }
  }

  lemma {:induction false} RatingCountsSplit(ratings: seq<Rating>)
    ensures CountRating(ratings, Positive) + CountRating(ratings, Negative) <= |ratings|
  {
    if ratings != [] {
      RatingCountsSplit(ratings[..|ratings| - 1]);
    }
  }

  /** A row is counted in at most one of the two tallies; a rating other than
      positive or negative is counted in neither. */
  lemma OtherRatingsAreNotCounted(views: seq<NewsletterView>)
    ensures Tally(views, Positive) + Tally(views, Negative) <= |Seqs.FlatMap(views, RatingsOf)|
  {
    TallyCountsEveryRow(views, Positive);
    TallyCountsEveryRow(views, Negative);
    RatingCountsSplit(Seqs.FlatMap(views, RatingsOf));
  }

  /** Three newsletters, two sent and one draft, with feedback rated
      positive, positive and negative. */
  lemma StatsExample()
    ensures StatsOf([
      NewsletterView(Some(1), [Positive, Positive]),
      NewsletterView(Some(2), [Negative]),
      NewsletterView(None, [])]) == Stats(3, 2, 1, 2, 1)
  {
    var vs := [
      NewsletterView(Some(1), [Positive, Positive]),
      NewsletterView(Some(2), [Negative]),
      NewsletterView(None, [])];
    assert vs[..2] == [vs[0], vs[1]];
    assert vs[..2][..1] == [vs[0]];
    assert [vs[0]][..0] == [];
    assert [Positive, Positive][..1] == [Positive];
    assert [Positive][..0] == [];
    assert [Negative][..0] == [];
    assert CountRating([Positive, Positive], Positive) == 2;
    assert CountRating([Positive, Positive], Negative) == 0;
    assert CountSent([vs[0]]) == 1;
    assert CountDrafts([vs[0]]) == CountDrafts([]) + 0;
    assert Tally([vs[0]], Positive) == 2;
    assert Tally([vs[0]], Negative) == Tally([], Negative) + CountRating([Positive, Positive], Negative);
    assert CountSent(vs[..2]) == 2 && CountDrafts(vs[..2]) == 0;
    assert Tally(vs[..2], Positive) == 2 && Tally(vs[..2], Negative) == 1;
  }

  /** The stats fold of `getNewsletterStats`: the counts of all, sent and
      draft newsletters, then one pass over every feedback row of every
      newsletter adding to the positive or the negative tally. */
  method TallyStats(views: seq<NewsletterView>) returns (stats: Stats)
    ensures stats == StatsOf(views)
  {
    stats := Stats(|views|, CountSent(views), CountDrafts(views), 0, 0);
    var i := 0;
    while i < |views|
      invariant 0 <= i <= |views|
      invariant stats.total == |views| && stats.sent == CountSent(views) && stats.drafts == CountDrafts(views)
      invariant stats.positiveFeedback == Tally(views[..i], Positive)
      invariant stats.negativeFeedback == Tally(views[..i], Negative)
    {
      var ratings := views[i].ratings;
      var j := 0;
      while j < |ratings|
        invariant 0 <= j <= |ratings|
        invariant stats.total == |views| && stats.sent == CountSent(views) && stats.drafts == CountDrafts(views)
        invariant stats.positiveFeedback == Tally(views[..i], Positive) + CountRating(ratings[..j], Positive)
        invariant stats.negativeFeedback == Tally(views[..i], Negative) + CountRating(ratings[..j], Negative)
      {
        assert ratings[..j + 1][..j] == ratings[..j];
        if ratings[j] == Positive {
          stats := stats.(positiveFeedback := stats.positiveFeedback + 1);
        } else if ratings[j] == Negative {
          stats := stats.(negativeFeedback := stats.negativeFeedback + 1);
        }
        j := j + 1;
      }
      assert ratings[..j] == ratings;
      assert views[..i + 1][..i] == views[..i];
      i := i + 1;
    }
    assert views[..i] == views;
  }

  /** `getNewsletterStats`: the statistics of the owner's newsletters, or
      the storage error rethrown. */
  method GetNewsletterStats(db: Database, userId: string, failing: set<Query>)
    returns (r: Result<Stats, string>)
    ensures StatsRead in failing <==> r.Failure?
    ensures r.Success? ==> r.value == StatsOf(NewsletterViews(db.newsletters, db.feedback, userId))
  {
    if StatsRead in failing {
      return Failure("newsletters query failed");
    }
    var stats := TallyStats(NewsletterViews(db.newsletters, db.feedback, userId));
    r := Success(stats);
  }

  /** A stored draft counts as one more newsletter and one more draft of its
      owner. */
  lemma NewDraftIsCounted(newsletters: seq<Newsletter>, feedback: seq<Feedback>, row: Newsletter)
    requires row.sentAt.None?
    ensures var before := StatsOf(NewsletterViews(newsletters, feedback, row.userId));
      var after := StatsOf(NewsletterViews(newsletters + [row], feedback, row.userId));
      after.total == before.total + 1 && after.drafts == before.drafts + 1 && after.sent == before.sent
  {
    var ns := newsletters + [row];
    assert ns[..|ns| - 1] == newsletters;
  }

  lemma CountSentSnoc(views: seq<NewsletterView>, v: NewsletterView)
    ensures CountSent(views + [v]) == CountSent(views) + if v.sentAt.Some? then 1 else 0
  {
    assert (views + [v])[..|views|] == views;
  }

  /** The owner's drafts with id `id`. */
  function PendingWithId(newsletters: seq<Newsletter>, userId: string, id: string): nat {
    if newsletters == [] then 0
    else
      var last := newsletters[|newsletters| - 1];
      PendingWithId(newsletters[..|newsletters| - 1], userId, id)
        + (if last.userId == userId && last.id == id && last.sentAt.None? then 1 else 0)
  }

  /** Stamping a newsletter as sent moves the owner's drafts with that id to
      the sent count and leaves the total alone. */
  lemma {:induction false} MarkSentMovesDrafts(
    newsletters: seq<Newsletter>, feedback: seq<Feedback>, userId: string, id: string, now: int)
    ensures var before := NewsletterViews(newsletters, feedback, userId);
      var after := NewsletterViews(MarkSent(newsletters, id, now), feedback, userId);
      && |after| == |before|
      && CountSent(after) == CountSent(before) + PendingWithId(newsletters, userId, id)
  {
    if newsletters != [] {
      var n := |newsletters|;
      var marked := MarkSent(newsletters, id, now);
      assert marked[..n - 1] == MarkSent(newsletters[..n - 1], id, now);
      MarkSentMovesDrafts(newsletters[..n - 1], feedback, userId, id, now);
      var last := newsletters[n - 1];
      var init := NewsletterViews(newsletters[..n - 1], feedback, userId);
      var init' := NewsletterViews(marked[..n - 1], feedback, userId);
      assert marked[n - 1].userId == last.userId;
      if last.userId == userId {
        var v := ViewOf(last, feedback);
        var v' := ViewOf(marked[n - 1], feedback);
        CountSentSnoc(init, v);
        CountSentSnoc(init', v');
      } else {
        assert NewsletterViews(newsletters, feedback, userId) == init;
        assert NewsletterViews(marked, feedback, userId) == init';
      }
    }
  }
}
