/** The language-model calls (src/services/aiService.ts): trend analysis
    with its parse fallback, writing-style extraction from the model's
    "Tone:" / "Structure:" answer, and newsletter drafting. The model itself
    is a parameter: a function from the variable part of the prompt to the
    completion it returns. */
module AiService {
  import opened Wrappers
  import opened Text
  import opened Types
  import opened Seqs

  /** One chat-completion call: the request throws, or the first choice's
      message content is delivered, possibly absent. */
  datatype Completion = Errored | Answered(content: Option<string>)

  /** A writing style: the samples it was taken from, a tone and a structure. */
  datatype WritingStyle = WritingStyle(samples: seq<string>, tone: string, structure: string)

  const AnalyzeError := "Failed to analyze trends"
  const DraftError := "Failed to generate newsletter content"
  const DefaultTone := "professional"
  const DefaultStructure := "standard"

  /** The number of items the parse fallback turns into trends (`slice(0, 3)`). */
  const FallbackCount := 3

  /** The text sent for trend analysis: each item as `title content`, the
      items separated by one space. */
  function ContentText(items: seq<ContentItem>): string {
    Join(seq(|items|, i requires 0 <= i < |items| => items[i].title + " " + items[i].content), " ")
  }

  /** The first `n` elements, or all of them when there are fewer (`slice(0, n)`). */
  function Take<T>(xs: seq<T>, n: nat): (r: seq<T>)
    ensures |r| == Min(n, |xs|) && r <= xs && r == xs[..|r|]
  {
    if n < |xs| then xs[..n] else xs
  }

  /** The trend made from the `i`-th item when the answer does not parse. */
  function FallbackTrend(x: ContentItem, i: nat): Trend {
    Trend(
      "Trend " + NatToString(i + 1) + ": " + Prefix(x.title, 50),
      Prefix(x.content, 150) + "...",
      Take(Split(x.title, ' '), 3))
  }

  /** Basic trends from the first three items, numbered from 1. */
  function FallbackTrends(items: seq<ContentItem>): (r: seq<Trend>)
    ensures |r| == Min(FallbackCount, |items|)
    ensures forall i | 0 <= i < |r| ::
      && 6 + |NatToString(i + 1)| + 2 <= |r[i].title| <= 6 + |NatToString(i + 1)| + 2 + 50
      && r[i].title[..6] == "Trend "
      && IsDigits(r[i].title[6..6 + |NatToString(i + 1)|])
      && DecimalValue(r[i].title[6..6 + |NatToString(i + 1)|]) == i + 1
      && r[i].title == "Trend " + NatToString(i + 1) + ": " + Prefix(items[i].title, 50)
      && r[i].summary == Prefix(items[i].content, 150) + "..."
      && r[i].keywords == Take(Split(items[i].title, ' '), 3)
      && |r[i].keywords| <= 3
      && r[i].keywords <= Split(items[i].title, ' ')
  {
    var n := Min(FallbackCount, |items|);
    var r := seq(n, i requires 0 <= i < n => FallbackTrend(items[i], i));
    forall i | 0 <= i < n
      ensures DecimalValue(r[i].title[6..6 + |NatToString(i + 1)|]) == i + 1
    {
      assert r[i].title[6..6 + |NatToString(i + 1)|] == NatToString(i + 1);
      DecimalRoundTrip(i + 1);
    }
    r
  }

  /** `analyzeTrends`: the model's answer, an absent answer read as `"[]"`,
      parsed as JSON; an answer that does not parse falls back to trends made
      from the items; a failing call is reported as one error. */
  function AnalyzeTrends(items: seq<ContentItem>, gen: string -> Completion, parse: string -> Option<seq<Trend>>)
    : (r: Result<seq<Trend>, string>)
    ensures r.Failure? <==> gen(ContentText(items)).Errored?
    ensures r.Failure? ==> r.error == AnalyzeError
    ensures r.Success? ==>
      var response := OrElse(gen(ContentText(items)).content, "[]");
      r.value == if parse(response).Some? then parse(response).value else FallbackTrends(items)
  {
    match gen(ContentText(items))
    case Errored => Failure(AnalyzeError)
    case Answered(content) =>
      match parse(OrElse(content, "[]"))
      case Some(trends) => Success(trends)
      case None => Success(FallbackTrends(items))
  }

  /** An answer with no content, or an empty one, gives no trends (it is read
      as the empty JSON array). */
  lemma MissingAnswerGivesNoTrends(items: seq<ContentItem>, gen: string -> Completion, parse: string -> Option<seq<Trend>>)
    requires parse("[]") == Some([])
    requires gen(ContentText(items)) == Answered(None) || gen(ContentText(items)) == Answered(Some(""))
    ensures AnalyzeTrends(items, gen, parse) == Success([])
  {
  }

  /** A title of at most three words is kept whole as the fallback keywords. */
  lemma {:induction false} FallbackKeywordsRebuildTitle(x: ContentItem, i: nat)
    requires |Split(x.title, ' ')| <= 3
    ensures Join(FallbackTrend(x, i).keywords, " ") == x.title
  {
    JoinSplit(x.title, ' ');
  }

  /** The characters up to the first line terminator: what `.+` matches. */
  function TakeLine(s: string): (r: string)
    ensures r <= s
    ensures forall k | 0 <= k < |r| :: !IsLineTerminator(r[k])
    ensures |r| == |s| || IsLineTerminator(s[|r|])
  {
    if s == [] || IsLineTerminator(s[0]) then []
    else
      var rest := TakeLine(s[1..]);
      [s[0]] + rest
  }

  /** `tag` (written in lower case) occurs at `p`, ignoring ASCII case. */
  predicate LabelAt(s: string, tag: string, p: nat) {
    p + |tag| <= |s| && Lower(s[p..p + |tag|]) == tag
  }

  /** The first position at or after `from` where `tag` occurs. */
  function FindLabelFrom(s: string, tag: string, from: nat): (r: Option<nat>)
    ensures r.Some? ==> from <= r.value && r.value + |tag| <= |s| && LabelAt(s, tag, r.value)
    ensures r.Some? ==> forall p | from <= p < r.value :: !LabelAt(s, tag, p)
    ensures r.None? ==> forall p | from <= p :: !LabelAt(s, tag, p)
    decreases |s| - from
  {
    if from + |tag| > |s| then None
    else if LabelAt(s, tag, from) then Some(from)
    else FindLabelFrom(s, tag, from + 1)
  }

  /** A value read after a label: non-empty, on one line, and without
      whitespace at either end. */
  predicate IsLineValue(v: string) {
    && v != [] && !IsSpace(v[0]) && !IsSpace(v[|v| - 1])
    && forall k | 0 <= k < |v| :: !IsLineTerminator(v[k])
  }

  /** The text after the first occurrence of `tag`, or `None` when it does
      not occur. */
  function AfterLabel(response: string, tag: string): (r: Option<string>)
    ensures FindLabelFrom(response, tag, 0).None? <==> r.None?
    ensures r.Some? ==> r.value == response[FindLabelFrom(response, tag, 0).value + |tag|..]
  {
    match FindLabelFrom(response, tag, 0)
    case None => None
    case Some(p) => Some(response[p + |tag|..])
  }

  /** What `/Label:\s*(.+)/i` captures, trimmed: the value read from the text
      after the first occurrence of the label; `None` when the label is
      missing or only whitespace follows it. A whitespace-only remainder
      yields no later occurrence either, so the first occurrence decides. */
  function LabelValue(response: string, tag: string): (r: Option<string>)
    ensures AfterLabel(response, tag).None? ==> r.None?
    ensures AfterLabel(response, tag).Some? ==> r == LineValue(AfterLabel(response, tag).value)
    ensures r.Some? ==> IsLineValue(r.value)
  {
    match AfterLabel(response, tag)
    case None => None
    case Some(after) => LineValue(after)
  }

  /** `\s*(.+)` then `trim()` on the text after a label: the first line after
      any whitespace, trimmed; `None` when only whitespace is left. */
  function LineValue(after: string): (r: Option<string>)
    ensures r.Some? ==> TrimmedFrom(r.value, TakeLine(TrimStart(after)))
    ensures r.Some? ==> IsLineValue(r.value)
    ensures r.None? <==> AllSpace(after)
  {
    var rest := TrimStart(after);
    if rest == [] then
      assert after[..|after|] == after;
      None
    else
      assert after[|after| - |rest|] == rest[0];
      ReadLine(rest)
  }

  /** The first line of a text that starts with a visible character, trimmed. */
  function ReadLine(rest: string): (r: Option<string>)
    requires rest != [] && !IsSpace(rest[0])
    ensures r.Some? && TrimmedFrom(r.value, TakeLine(rest))
    ensures IsLineValue(r.value)
  {
    var line := TakeLine(rest);
    assert line[0] == rest[0];
    TrimOfLine(line);
    Some(Trim(line))
  }

  /** Trimming a line that starts with a visible character keeps it a
      non-empty line without surrounding whitespace. */
  lemma TrimOfLine(line: string)
    requires line != [] && !IsSpace(line[0])
    requires forall k | 0 <= k < |line| :: !IsLineTerminator(line[k])
    ensures IsLineValue(Trim(line))
  {
    TrimOfNonSpaceStart(line);
    var v := Trim(line);
    assert v[0] == line[0];
    assert forall k | 0 <= k < |v| :: v[k] == line[k];
  }

  /** Trimming a text that starts with a visible character only cuts its end,
      and keeps it non-empty. */
  lemma TrimOfNonSpaceStart(s: string)
    requires s != [] && !IsSpace(s[0])
    ensures Trim(s) == TrimEnd(s)
    ensures Trim(s) != [] && Trim(s) <= s
  {
    assert TrimStart(s) == s;
  }

  /** The tone and structure read from an answer, each falling back to its
      default. */
  function StyleFromAnswer(samples: seq<string>, response: string): (r: WritingStyle)
    ensures r.samples == samples
    ensures LabelValue(response, "tone:").Some? ==> r.tone == LabelValue(response, "tone:").value
    ensures LabelValue(response, "tone:").None? ==> r.tone == DefaultTone
    ensures LabelValue(response, "structure:").Some? ==> r.structure == LabelValue(response, "structure:").value
    ensures LabelValue(response, "structure:").None? ==> r.structure == DefaultStructure
    ensures r.tone != [] && r.structure != []
    ensures forall k | 0 <= k < |r.tone| :: !IsLineTerminator(r.tone[k])
    ensures forall k | 0 <= k < |r.structure| :: !IsLineTerminator(r.structure[k])
  {
    WritingStyle(
      samples,
      OrElse(LabelValue(response, "tone:"), DefaultTone),
      OrElse(LabelValue(response, "structure:"), DefaultStructure))
  }

  /** `extractWritingStyle`: no samples means no call and the defaults;
      otherwise the tone and structure the model names, each falling back to
      its default when absent; a failing call keeps the samples and the
      defaults. */
  function ExtractWritingStyle(samples: seq<string>, gen: string -> Completion): (r: WritingStyle)
    ensures r.samples == samples
    ensures |samples| == 0 ==> r.tone == DefaultTone && r.structure == DefaultStructure
    ensures |samples| > 0 && gen(Join(samples, "\n\n---\n\n")).Errored? ==>
      r.tone == DefaultTone && r.structure == DefaultStructure
    ensures |samples| > 0 && gen(Join(samples, "\n\n---\n\n")).Answered? ==>
      r == StyleFromAnswer(samples, OrElse(gen(Join(samples, "\n\n---\n\n")).content, ""))
    ensures r.tone != [] && r.structure != []
    ensures forall k | 0 <= k < |r.tone| :: !IsLineTerminator(r.tone[k])
    ensures forall k | 0 <= k < |r.structure| :: !IsLineTerminator(r.structure[k])
  {
    if |samples| == 0 then WritingStyle([], DefaultTone, DefaultStructure)
    else
      match gen(Join(samples, "\n\n---\n\n"))
      case Errored => WritingStyle(samples, DefaultTone, DefaultStructure)
      case Answered(content) => StyleFromAnswer(samples, OrElse(content, ""))
  }

  /** An answer holding `<label> <value>` on a line, with no earlier
      occurrence of the label, gives that value: the label may stand anywhere
      and be written in any ASCII case. */
  lemma LabelLineIsRead(pre: string, heading: string, v: string, more: string)
    requires IsLineValue(v)
    requires forall p | 0 <= p < |pre| :: !LabelAt(pre + heading + (" " + v + "\n" + more), Lower(heading), p)
    ensures LabelValue(pre + heading + (" " + v + "\n" + more), Lower(heading)) == Some(v)
  {
    var after := " " + v + "\n" + more;
    var s := pre + heading + after;
    LabelFoundAt(pre, heading, after);
    assert s[|pre| + |Lower(heading)|..] == after;
    LineAfterBlank(v, more);
  }

  /** The heading right after `pre` is the first one found. */
  lemma LabelFoundAt(pre: string, heading: string, after: string)
    requires forall p | 0 <= p < |pre| :: !LabelAt(pre + heading + after, Lower(heading), p)
    ensures FindLabelFrom(pre + heading + after, Lower(heading), 0) == Some(|pre|)
  {
    var s := pre + heading + after;
    assert s[|pre|..|pre| + |heading|] == heading;
    assert LabelAt(s, Lower(heading), |pre|);
  }

  /** One blank, then a line: the value is the line. */
  lemma LineAfterBlank(v: string, more: string)
    requires IsLineValue(v)
    ensures LineValue(" " + v + "\n" + more) == Some(v)
  {
    var line := v + "\n" + more;
    assert " " + v + "\n" + more == " " + line;
    assert (" " + line)[1..] == line;
    assert TrimStart(" " + line) == line;
    TakeLineStopsAtNewline(v, more);
    TrimOfTrimmed(v);
  }

  /** An answer in the requested form, `Tone: <value>` on its first line,
      gives that value as the tone. */
  lemma ToneLineIsRead(v: string, more: string)
    requires IsLineValue(v)
    ensures LabelValue("Tone:" + (" " + v + "\n" + more), "tone:") == Some(v)
  {
    assert Lower("Tone:") == "tone:";
    assert [] + "Tone:" + (" " + v + "\n" + more) == "Tone:" + (" " + v + "\n" + more);
    LabelLineIsRead([], "Tone:", v, more);
  }

  /** A text without surrounding whitespace is its own trim. */
  lemma TrimOfTrimmed(v: string)
    requires v != [] && !IsSpace(v[0]) && !IsSpace(v[|v| - 1])
    ensures Trim(v) == v
  {
    TrimOfNonSpaceStart(v);
  }

  lemma {:induction false} TakeLineStopsAtNewline(v: string, more: string)
    requires forall k | 0 <= k < |v| :: !IsLineTerminator(v[k])
    ensures TakeLine(v + "\n" + more) == v
  {
    if v != [] {
      assert (v + "\n" + more)[1..] == v[1..] + "\n" + more;
      TakeLineStopsAtNewline(v[1..], more);
    }
  }

  /** The style of no samples does not depend on the model at all. */
  lemma NoSamplesNeedsNoModel(g1: string -> Completion, g2: string -> Completion)
    ensures ExtractWritingStyle([], g1) == ExtractWritingStyle([], g2) == WritingStyle([], DefaultTone, DefaultStructure)
  {
  }

  /** The variable part of the newsletter prompt. `now` stands for the
      current date, which the prompt renders in the reader's time zone. */
  datatype NewsletterPrompt = NewsletterPrompt(
    samplesText: string,
    tone: string,
    structure: string,
    timezone: string,
    now: int,
    trendsSection: string,
    contentSection: string)

  /** The number of trends and of items the prompt lists (`slice(0, 3)`, `slice(0, 5)`). */
  const PromptTrends := 3
  const PromptItems := 5

  function TrendLine(t: Trend): string {
    "- " + t.title + ": " + t.summary
  }

  function ContentLine(x: ContentItem): string {
    "- " + x.title + ": " + Prefix(x.content, 200) + "..."
  }

  /** The lines listing the first three trends, the i-th naming the i-th trend. */
  function TrendLines(trends: seq<Trend>): (r: seq<string>)
    ensures |r| == Min(PromptTrends, |trends|)
    ensures forall i | 0 <= i < |r| :: r[i] == "- " + trends[i].title + ": " + trends[i].summary
  {
    var ts := Take(trends, PromptTrends);
    seq(|ts|, i requires 0 <= i < |ts| => TrendLine(ts[i]))
  }

  /** The lines listing the first five items, the i-th naming the i-th item
      with at most 200 characters of its body, then "...". */
  function ContentLines(items: seq<ContentItem>): (r: seq<string>)
    ensures |r| == Min(PromptItems, |items|)
    ensures forall i | 0 <= i < |r| ::
      var body := Prefix(items[i].content, 200);
      && |body| <= 200 && body <= items[i].content
      && r[i] == "- " + items[i].title + ": " + body + "..."
  {
    var xs := Take(items, PromptItems);
    seq(|xs|, i requires 0 <= i < |xs| => ContentLine(xs[i]))
  }

  function TrendsSection(trends: seq<Trend>): string {
    Join(TrendLines(trends), "\n")
  }

  function ContentSection(items: seq<ContentItem>): string {
    Join(ContentLines(items), "\n")
  }

  function BuildPrompt(trends: seq<Trend>, items: seq<ContentItem>, style: WritingStyle, timezone: string, now: int)
    : NewsletterPrompt
  {
    NewsletterPrompt(
      Join(style.samples, "\n\n"), style.tone, style.structure, timezone, now,
      TrendsSection(trends), ContentSection(items))
  }

  /** `generateNewsletterContent`: the model's draft, a fixed text when the
      answer is empty, and one error when the call fails. */
  function GenerateNewsletterContent(
    trends: seq<Trend>, items: seq<ContentItem>, style: WritingStyle, timezone: string, now: int,
    gen: NewsletterPrompt -> Completion)
    : (r: Result<string, string>)
    ensures var c := gen(BuildPrompt(trends, items, style, timezone, now));
      && (r.Failure? <==> c.Errored?)
      && (r.Failure? ==> r.error == DraftError)
      && (r.Success? ==> r.value == if Truthy(c.content) then c.content.value else DraftError)
    ensures r.Success? ==> r.value != []
  {
    match gen(BuildPrompt(trends, items, style, timezone, now))
    case Errored => Failure(DraftError)
    case Answered(content) => Success(OrElse(content, DraftError))
  }

  /** Only the first three trends and the first five items reach the model. */
  lemma {:induction false} DraftIgnoresTheRest(
    trends: seq<Trend>, moreTrends: seq<Trend>, items: seq<ContentItem>, moreItems: seq<ContentItem>,
    style: WritingStyle, timezone: string, now: int, gen: NewsletterPrompt -> Completion)
    requires |trends| >= PromptTrends && |items| >= PromptItems
    ensures GenerateNewsletterContent(trends + moreTrends, items + moreItems, style, timezone, now, gen)
         == GenerateNewsletterContent(trends, items, style, timezone, now, gen)
  {
    assert TrendLines(trends + moreTrends) == TrendLines(trends);
    assert ContentLines(items + moreItems) == ContentLines(items);
  }
}
