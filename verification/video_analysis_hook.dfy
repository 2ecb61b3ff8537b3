/**
 * The recruiter dashboard's analysis hook: it shows the stored analysis of a
 * candidate's answer, reading the answers table at most once per video or
 * answer and caching what it built.
 */
module VideoAnalysisHook {
  import opened Wrappers
  import opened Text
  import opened JsonValue

  /** The dashboard's video: `id` is the candidate's user id. */
  datatype Video = Video(id: string, url: string)

  /** An `interview_answers` row; the three analysis columns may hold text or objects. */
  datatype AnswerRecord = AnswerRecord(
    userId: string,
    questionIndex: int,
    videoUrl: string,
    summary: Option<string>,
    behavioralScores: Json,
    communicationAnalysis: Json,
    emotionResults: Json)

  /** What the panel shows: a full analysis, or only a summary line. */
  datatype Analysis =
    | Full(summary: string, behavioralScores: Json, communicationAnalysis: Json, emotionResults: Json)
    | Note(summary: string)

  const NoAnalysisFound: string := "No interview analysis found for this candidate."
  const NoSummary: string := "No summary available"
  const FetchErrorPrefix: string := "Error: Error fetching interview answers: "

  /** `safeParseJSON(data)` (lines 15-26); `parse` stands for `JSON.parse`, `None` for a throw. */
  function SafeParseJson(data: Json, parse: Parser): (r: Json)
    ensures !Truthy(data) ==> r == JNull
    ensures Truthy(data) && !data.JStr? ==> r == data
  {
    if !Truthy(data) then JNull
    else if data.JStr? then
      match parse(data.s)
      case None => JNull
      case Some(v) => v
    else data
  }

  /** `answer.summary || "No summary available"`. */
  function SummaryOf(summary: Option<string>): (s: string)
    ensures s != ""
  {
    if summary.Some? && summary.value != "" then summary.value else NoSummary
  }

  /** The analysis built from one answer (lines 87-101 and 153-163). */
  function AnalysisOf(answer: AnswerRecord, parse: Parser): (a: Analysis)
    ensures a.Full? && a.summary != ""
  {
    Full(SummaryOf(answer.summary),
      SafeParseJson(answer.behavioralScores, parse),
      SafeParseJson(answer.communicationAnalysis, parse),
      SafeParseJson(answer.emotionResults, parse))
  }

  /** `answers.find(a => a.video_url === url)`, as an index. */
  function FindByUrl(answers: seq<AnswerRecord>, url: string): (r: Option<nat>)
    ensures r.Some? ==> r.value < |answers| && answers[r.value].videoUrl == url
    ensures r.Some? ==> forall j :: 0 <= j < r.value ==> answers[j].videoUrl != url
    ensures r.None? ==> forall j :: 0 <= j < |answers| ==> answers[j].videoUrl != url
  {
    if answers == [] then None
    else if answers[0].videoUrl == url then Some(0)
    else
      match FindByUrl(answers[1..], url)
      case None => None
      case Some(k) => Some(k + 1)
  }

  /** The answer `analyzeVideo` uses (lines 67-75): the one for this video, else the newest. */
  function RelevantAnswer(answers: seq<AnswerRecord>, url: string): AnswerRecord
    requires answers != []
  {
    match FindByUrl(answers, url)
    case Some(k) => answers[k]
    case None => answers[0]
  }

  /** `${n}` for an integer. */
  function IntToString(n: int): string {
    if n < 0 then "-" + NatToString(-n) else NatToString(n)
  }

  /** `${answer.user_id}_${answer.question_index}` (line 132). */
  function AnswerKey(answer: AnswerRecord): string {
    answer.userId + "_" + IntToString(answer.questionIndex)
  }

  /** The panel and the cache after one analysis. */
  datatype HookState = HookState(analysis: Option<Analysis>, cache: map<string, Analysis>)

  /**
   * `analyzeVideo(video)` (lines 28-122) for a video, given the state before;
   * `answers` is the answers query (newest first) or its error message.
   */
  function VideoOutcome(
    video: Video, analysis: Option<Analysis>, cache: map<string, Analysis>,
    answers: Result<seq<AnswerRecord>, string>, parse: Parser): HookState
  {
    if video.id in cache then HookState(Some(cache[video.id]), cache)
    else
      match answers
      case Err(m) => HookState(Some(Note(FetchErrorPrefix + m)), cache)
      case Ok(rows) =>
        if rows == [] then HookState(Some(Note(NoAnalysisFound)), cache)
        else
          var a := AnalysisOf(RelevantAnswer(rows, video.url), parse);
          HookState(Some(a), cache[video.id := a])
  }

  /** `analyzeAnswer(answer)` (lines 125-183) for an answer, given the cache before. */
  function AnswerOutcome(answer: AnswerRecord, cache: map<string, Analysis>, parse: Parser): HookState {
    var key := AnswerKey(answer);
    if key in cache then HookState(Some(cache[key]), cache)
    else
      var a := AnalysisOf(answer, parse);
      HookState(Some(a), cache[key := a])
  }

  /** The hook's state. */
  class AnalysisHook {
    var analysis: Option<Analysis>
    var isAnalyzing: bool
    var cache: map<string, Analysis>

    constructor ()
      ensures analysis == None && !isAnalyzing && cache == map[]
    {
      analysis := None;
      isAnalyzing := false;
      cache := map[];
    }

    method AnalyzeVideo(selected: Option<Video>, answers: Result<seq<AnswerRecord>, string>, parse: Parser)
      modifies this
      ensures selected.None? ==>
        analysis == old(analysis) && isAnalyzing == old(isAnalyzing) && cache == old(cache)
      ensures selected.Some? ==>
        !isAnalyzing && HookState(analysis, cache) == VideoOutcome(selected.value, old(analysis), old(cache), answers, parse)
    {
      if selected.None? {
        return;
      }
      var video := selected.value;
      isAnalyzing := true;
      if video.id in cache {
        analysis := Some(cache[video.id]);
        isAnalyzing := false;
        return;
      }
      match answers {
        case Err(m) =>
          analysis := Some(Note(FetchErrorPrefix + m));
        case Ok(rows) =>
          if rows == [] {
            analysis := Some(Note(NoAnalysisFound));
          } else {
            var relevant := RelevantAnswer(rows, video.url);
            var a := AnalysisOf(relevant, parse);
            cache := cache[video.id := a];
            analysis := Some(a);
          }
      }
      isAnalyzing := false;
    }

    method AnalyzeAnswer(answer: Option<AnswerRecord>, parse: Parser)
      modifies this
      ensures answer.None? ==>
        analysis == old(analysis) && isAnalyzing == old(isAnalyzing) && cache == old(cache)
      ensures answer.Some? ==>
        !isAnalyzing && HookState(analysis, cache) == AnswerOutcome(answer.value, old(cache), parse)
    {
      if answer.None? {
        return;
      }
      isAnalyzing := true;
      var key := AnswerKey(answer.value);
      if key in cache {
        analysis := Some(cache[key]);
        isAnalyzing := false;
        return;
      }
      var a := AnalysisOf(answer.value, parse);
      cache := cache[key := a];
      analysis := Some(a);
      isAnalyzing := false;
    }
  }

  // ---------------------------------------------------------------------------
  // Properties
  // ---------------------------------------------------------------------------

  /** A text column is parsed, and one that does not parse becomes null. */
  lemma SafeParseText(s: string, parse: Parser)
    requires s != ""
    ensures parse(s).None? ==> SafeParseJson(JStr(s), parse) == JNull
    ensures parse(s).Some? ==> SafeParseJson(JStr(s), parse) == parse(s).value
  {
  }

  /** A cached video is shown from the cache whatever the table holds, and the cache is kept. */
  lemma CachedVideoNeedsNoFetch(
    video: Video, analysis: Option<Analysis>, cache: map<string, Analysis>,
    answers1: Result<seq<AnswerRecord>, string>, answers2: Result<seq<AnswerRecord>, string>, parse: Parser)
    requires video.id in cache
    ensures VideoOutcome(video, analysis, cache, answers1, parse) == VideoOutcome(video, analysis, cache, answers2, parse)
    ensures VideoOutcome(video, analysis, cache, answers1, parse) == HookState(Some(cache[video.id]), cache)
  {
  }

  /** The answer used is the first with the video's URL, else the newest one. */
  lemma RelevantAnswerChoice(answers: seq<AnswerRecord>, url: string)
    requires answers != []
    ensures var a := RelevantAnswer(answers, url);
      (a.videoUrl == url ==>
        exists k | 0 <= k < |answers| :: answers[k] == a && forall j :: 0 <= j < k ==> answers[j].videoUrl != url) &&
      (a.videoUrl != url ==> a == answers[0] && forall j :: 0 <= j < |answers| ==> answers[j].videoUrl != url)
  {
    match FindByUrl(answers, url)
    case Some(k) =>
      assert answers[k] == RelevantAnswer(answers, url);
    case None =>
  }

  /** A candidate without answers gets the fixed summary and nothing is cached. */
  lemma NoAnswersFixedSummary(video: Video, analysis: Option<Analysis>, cache: map<string, Analysis>, parse: Parser)
    requires video.id !in cache
    ensures VideoOutcome(video, analysis, cache, Ok([]), parse) == HookState(Some(Note(NoAnalysisFound)), cache)
  {
  }

  /** A missing or empty summary is shown as "No summary available"; any other is kept. */
  lemma EmptySummaryReplaced(answer: AnswerRecord, parse: Parser)
    ensures answer.summary.None? || answer.summary.value == "" ==> AnalysisOf(answer, parse).summary == NoSummary
    ensures answer.summary.Some? && answer.summary.value != "" ==>
      AnalysisOf(answer, parse).summary == answer.summary.value
  {
  }

  /**
   * A fresh analysis is stored under the video id (or the answer key) and shown;
   * every other cache entry is unchanged.
   */
  lemma CacheFilledUnderKey(
    video: Video, answer: AnswerRecord, analysis: Option<Analysis>, cache: map<string, Analysis>,
    rows: seq<AnswerRecord>, parse: Parser)
    requires video.id !in cache && rows != []
    ensures var s := VideoOutcome(video, analysis, cache, Ok(rows), parse);
      s.analysis.Some? && video.id in s.cache && s.cache[video.id] == s.analysis.value &&
      s.cache.Keys == cache.Keys + {video.id} &&
      (forall k :: k in cache ==> s.cache[k] == cache[k])
    ensures var s := AnswerOutcome(answer, cache, parse);
      s.analysis.Some? && AnswerKey(answer) in s.cache && s.cache[AnswerKey(answer)] == s.analysis.value &&
      (forall k :: k in cache && k != AnswerKey(answer) ==> s.cache[k] == cache[k])
  {
  }

  /** Cache keys of answers: different question indices of one user never share an entry. */
  lemma AnswerKeysDistinct(a: AnswerRecord, b: AnswerRecord)
    requires a.userId == b.userId && a.questionIndex != b.questionIndex
    ensures AnswerKey(a) != AnswerKey(b)
  {
    var p := a.userId + "_";
    assert AnswerKey(a)[|p|..] == IntToString(a.questionIndex);
    assert AnswerKey(b)[|p|..] == IntToString(b.questionIndex);
    IntToStringInjective(a.questionIndex, b.questionIndex);
  }

  /** A printed integer: digits, with a leading minus sign when negative. */
  predicate IsIntString(s: string) {
    s != [] && (AllDigits(s) || (s[0] == '-' && AllDigits(s[1..])))
  }

  /** The integer a printed integer denotes. */
  function ReadInt(s: string): int
    requires IsIntString(s)
  {
    if s[0] == '-' then 0 - DigitsValue(s[1..]) else DigitsValue(s)
  }

  /** Printing an integer and reading it back gives the integer. */
  lemma IntToStringReadsBack(n: int)
    ensures IsIntString(IntToString(n)) && ReadInt(IntToString(n)) == n
  {
    if n < 0 {
      var s := IntToString(n);
      assert s[1..] == NatToString(-n);
      NatToStringValue(-n);
    } else {
      NatToStringValue(n);
      assert IsDigit(IntToString(n)[0]);
    }
  }

  /** Different integers print differently. */
  lemma IntToStringInjective(m: int, n: int)
    requires m != n
    ensures IntToString(m) != IntToString(n)
  {
    IntToStringReadsBack(m);
    IntToStringReadsBack(n);
  }
}
