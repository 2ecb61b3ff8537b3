/**
 * The `analyze_video` orchestration ladder.  The transcriber, the summariser
 * and the two analysis prompts are oracles: functions of what they are given,
 * each of which may raise.  Every path yields the same six-field record; the
 * run also lists the calls made, in order, so that what each oracle received
 * can be stated.
 */
module VideoAnalysis {
  import opened Wrappers
  import opened Text
  import opened JsonValue
  import Sentiment

  /** What the transcriber hands back. */
  datatype Transcription =
    | TranscriberRaised(message: string)   // the call raised
    | NoTranscript                         // a falsy transcript object
    | NoTextAttribute                      // an object without a `text` attribute
    | TextValue(text: Option<string>)      // the `text` attribute, possibly None

  /**
   * The external services, as functions of their inputs; `Err` carries what
   * was raised.  `communicate` and `insights` stand for `analyze_communication`
   * and `generate_behavioral_insights`, whose post-processing the Sentiment
   * module models (see `FromReplies`).
   */
  datatype Services = Services(
    transcribe: string -> Transcription,
    summarize: string -> Result<string, string>,
    communicate: string -> Result<Json, string>,
    insights: (string, string) -> Result<Json, string>,
    hash: string -> int)

  /** The two analysis stages built from the language model's raw replies. */
  function FromReplies(
    transcribe: string -> Transcription,
    summarize: string -> Result<string, string>,
    communicationReply: string -> Result<string, string>,
    insightsReply: (string, string) -> Result<string, string>,
    parse: Parser, lead: set<char>, hash: string -> int): Services
  {
    Services(
      transcribe,
      summarize,
      t => match communicationReply(t)
           case Ok(r) => Ok(Sentiment.Communication(r, parse))
           case Err(m) => Err(m),
      (t, jd) => match insightsReply(t, jd)
                 case Ok(r) => Ok(Sentiment.BehavioralInsights(r, lead, parse))
                 case Err(m) => Err(m),
      hash)
  }

  /** One oracle call, with what it was given. */
  datatype Call =
    | Transcribe(url: string)
    | Summarize(text: string)
    | Communicate(text: string)
    | Insights(text: string, jobDescription: string)

  /** The `VideoAnalysisResult` record (lines 14-20). */
  datatype AnalysisRecord = AnalysisRecord(
    summary: string,
    filename: string,
    transcript: string,
    communicationAnalysis: Json,
    enthusiasmTimestamps: seq<Json>,
    behavioralInsights: Json)

  datatype Run = Run(record: AnalysisRecord, calls: seq<Call>)

  const InvalidUrlMessage: string := "Invalid video URL format"
  const DegradedSummary: string := "Transcription could not be completed. Only basic analysis is available."
  const ErrorPrefix: string := "Error analyzing video: "

  /** `video_url and video_url.startswith('http')` */
  predicate ValidUrl(url: string) {
    url != [] && StartsWith(url, "http")
  }

  /** A transcript with a non-empty text; whitespace counts as text. */
  predicate HasText(t: Transcription) {
    t.TextValue? && t.text.Some? && t.text.value != []
  }

  /** A truthy job description: present and non-empty. */
  predicate JobDescriptionGiven(jd: Option<string>) {
    jd.Some? && jd.value != []
  }

  function Abs(n: int): nat {
    if n < 0 then -n else n
  }

  /** `f"summary_{abs(hash(video_url))}.txt"` */
  function SummaryFileName(url: string, hash: string -> int): string {
    "summary_" + NatToString(Abs(hash(url))) + ".txt"
  }

  /** The record of the `except` branch (lines 86-93). */
  function ErrorRecord(message: string): AnalysisRecord {
    AnalysisRecord(ErrorPrefix + message, "", "", EmptyObject, [], EmptyObject)
  }

  /** The record for a missing or empty transcript (lines 48-55). */
  function DegradedRecord(url: string, hash: string -> int): AnalysisRecord {
    AnalysisRecord(DegradedSummary, SummaryFileName(url, hash), "", EmptyObject, [], EmptyObject)
  }

  /** Calls made to the generators only, each on the given text. */
  predicate OnText(calls: seq<Call>, text: string) {
    forall k :: 0 <= k < |calls| ==> !calls[k].Transcribe? && calls[k].text == text
  }

  /** The generator stages on a transcript text, after the transcriber call. */
  function AnalyzeText(url: string, text: string, jd: Option<string>, s: Services): (run: Run)
    ensures |run.calls| >= 1 && run.calls[0] == Summarize(text)
    ensures OnText(run.calls, text)
    ensures run.record.enthusiasmTimestamps == []
  {
    match s.summarize(text)
    case Err(m) => Run(ErrorRecord(m), [Summarize(text)])
    case Ok(summary) =>
      match s.communicate(text)
      case Err(m) => Run(ErrorRecord(m), [Summarize(text), Communicate(text)])
      case Ok(communication) =>
        var filename := SummaryFileName(url, s.hash);
        if JobDescriptionGiven(jd) then
          var calls := [Summarize(text), Communicate(text), Insights(text, jd.value)];
          match s.insights(text, jd.value)
          case Err(m) => Run(ErrorRecord(m), calls)
          case Ok(insights) => Run(AnalysisRecord(summary, filename, text, communication, [], insights), calls)
        else
          Run(AnalysisRecord(summary, filename, text, communication, [], EmptyObject),
              [Summarize(text), Communicate(text)])
  }

  /** `analyze_video(video_url, job_description)` (lines 23-93). */
  function AnalyzeVideo(url: string, jd: Option<string>, s: Services): (run: Run)
    ensures run.record.enthusiasmTimestamps == []
    ensures !ValidUrl(url) ==> run.calls == []
    ensures ValidUrl(url) ==> |run.calls| >= 1 && run.calls[0] == Transcribe(url)
    ensures |run.calls| > 1 ==> HasText(s.transcribe(url)) && OnText(run.calls[1..], s.transcribe(url).text.value)
  {
    if !ValidUrl(url) then Run(ErrorRecord(InvalidUrlMessage), [])
    else
      var t := s.transcribe(url);
      if t.TranscriberRaised? then Run(ErrorRecord(t.message), [Transcribe(url)])
      else if !HasText(t) then Run(DegradedRecord(url, s.hash), [Transcribe(url)])
      else
        var rest := AnalyzeText(url, t.text.value, jd, s);
        Run(rest.record, [Transcribe(url)] + rest.calls)
  }

  /** The record as the dictionary the service returns. */
  function ToJson(r: AnalysisRecord): (j: Json)
    ensures j.JObj? && j.fields.Keys ==
      {"summary", "filename", "transcript", "communication_analysis", "enthusiasm_timestamps", "behavioral_insights"}
  {
    JObj(map[
      "summary" := JStr(r.summary),
      "filename" := JStr(r.filename),
      "transcript" := JStr(r.transcript),
      "communication_analysis" := r.communicationAnalysis,
      "enthusiasm_timestamps" := JArr(r.enthusiasmTimestamps),
      "behavioral_insights" := r.behavioralInsights])
  }

  // ---------------------------------------------------------------------------
  // Properties
  // ---------------------------------------------------------------------------

  /** An empty URL or one not starting with "http" gives the error record and calls nothing. */
  lemma InvalidUrlRejected(url: string, jd: Option<string>, s: Services)
    requires !ValidUrl(url)
    ensures AnalyzeVideo(url, jd, s).record == ErrorRecord(InvalidUrlMessage)
    ensures AnalyzeVideo(url, jd, s).record.summary == ErrorPrefix + InvalidUrlMessage
    ensures AnalyzeVideo(url, jd, s).record.filename == "" && AnalyzeVideo(url, jd, s).record.transcript == ""
    ensures AnalyzeVideo(url, jd, s).calls == []
  {
  }

  /**
   * A missing transcript, one without text, or an empty text gives the
   * degraded record, and no generator is called.
   */
  lemma MissingTextShortCircuits(url: string, jd: Option<string>, s: Services)
    requires ValidUrl(url)
    requires !s.transcribe(url).TranscriberRaised? && !HasText(s.transcribe(url))
    ensures var run := AnalyzeVideo(url, jd, s);
      run.record == DegradedRecord(url, s.hash) && run.calls == [Transcribe(url)] &&
      run.record.summary == DegradedSummary && run.record.transcript == "" &&
      run.record.communicationAnalysis == EmptyObject && run.record.behavioralInsights == EmptyObject
  {
  }

  /** A whitespace-only text is not empty: the generators run on it. */
  lemma WhitespaceTextAnalysed(url: string, ws: string, jd: Option<string>, s: Services)
    requires ValidUrl(url) && ws != [] && forall i :: 0 <= i < |ws| ==> IsSpace(ws[i])
    requires s.transcribe(url) == TextValue(Some(ws))
    ensures |AnalyzeVideo(url, jd, s).calls| >= 2 && AnalyzeVideo(url, jd, s).calls[1] == Summarize(ws)
  {
  }

  /**
   * Behavioural insights are requested only for a truthy job description;
   * without one, the field is `{}`.
   */
  lemma InsightsOnlyWithJobDescription(url: string, jd: Option<string>, s: Services)
    ensures (exists k :: 0 <= k < |AnalyzeVideo(url, jd, s).calls| && AnalyzeVideo(url, jd, s).calls[k].Insights?)
      ==> JobDescriptionGiven(jd)
    ensures !JobDescriptionGiven(jd) ==> AnalyzeVideo(url, jd, s).record.behavioralInsights == EmptyObject
  {
    var run := AnalyzeVideo(url, jd, s);
    if !JobDescriptionGiven(jd) && ValidUrl(url) && HasText(s.transcribe(url)) {
      var rest := AnalyzeText(url, s.transcribe(url).text.value, jd, s);
      assert forall k :: 0 <= k < |rest.calls| ==> !rest.calls[k].Insights?;
      assert forall k :: 1 <= k < |run.calls| ==> run.calls[k] == rest.calls[k - 1];
    }
  }

  /**
   * On success the record carries the transcriber's text verbatim, the
   * summariser's output, the parsed communication analysis, and the insights
   * exactly when a job description is given; summary and communication both
   * received the raw text.
   */
  lemma SuccessRecord(url: string, jd: Option<string>, s: Services, text: string, summary: string, communication: Json)
    requires ValidUrl(url) && s.transcribe(url) == TextValue(Some(text)) && text != []
    requires s.summarize(text) == Ok(summary) && s.communicate(text) == Ok(communication)
    requires JobDescriptionGiven(jd) ==> s.insights(text, jd.value).Ok?
    ensures var run := AnalyzeVideo(url, jd, s);
      run.record.transcript == text && run.record.summary == summary &&
      run.record.filename == SummaryFileName(url, s.hash) &&
      run.record.communicationAnalysis == communication &&
      |run.calls| >= 3 && run.calls[..3] == [Transcribe(url), Summarize(text), Communicate(text)] &&
      (JobDescriptionGiven(jd) ==> run.record.behavioralInsights == s.insights(text, jd.value).value)
  {
  }

  /**
   * With the analysis stages built from the model's replies, the record holds
   * the Sentiment post-processing of those replies.
   */
  lemma RepliesPostProcessed(
    url: string, jd: Option<string>, text: string, summary: string, commReply: string, insReply: string,
    transcribe: string -> Transcription,
    summarize: string -> Result<string, string>,
    communicationReply: string -> Result<string, string>,
    insightsReply: (string, string) -> Result<string, string>,
    parse: Parser, lead: set<char>, hash: string -> int)
    requires ValidUrl(url) && transcribe(url) == TextValue(Some(text)) && text != []
    requires summarize(text) == Ok(summary) && communicationReply(text) == Ok(commReply)
    requires JobDescriptionGiven(jd) ==> insightsReply(text, jd.value) == Ok(insReply)
    ensures var s := FromReplies(transcribe, summarize, communicationReply, insightsReply, parse, lead, hash);
      var r := AnalyzeVideo(url, jd, s).record;
      r.communicationAnalysis == Sentiment.Communication(commReply, parse) &&
      r.behavioralInsights == (if JobDescriptionGiven(jd) then Sentiment.BehavioralInsights(insReply, lead, parse) else EmptyObject)
  {
    var s := FromReplies(transcribe, summarize, communicationReply, insightsReply, parse, lead, hash);
    assert s.communicate(text) == Ok(Sentiment.Communication(commReply, parse));
    if JobDescriptionGiven(jd) {
      assert s.insights(text, jd.value) == Ok(Sentiment.BehavioralInsights(insReply, lead, parse));
    }
    SuccessRecord(url, jd, s, text, summary, Sentiment.Communication(commReply, parse));
  }

  /**
   * Failures are not isolated per generator: when a later stage raises, the
   * whole result is the error record, even though the summary was computed.
   */
  lemma LateFailureDiscardsAll(url: string, jd: Option<string>, s: Services, text: string, summary: string, m: string)
    requires ValidUrl(url) && s.transcribe(url) == TextValue(Some(text)) && text != []
    requires s.summarize(text) == Ok(summary) && s.communicate(text) == Err(m)
    ensures AnalyzeVideo(url, jd, s).record == ErrorRecord(m)
    ensures AnalyzeVideo(url, jd, s).record.summary == ErrorPrefix + m
    ensures AnalyzeVideo(url, jd, s).record.transcript == ""
  {
  }

  /** Every path returns a record with the same six keys. */
  lemma SameSixKeys(url: string, jd: Option<string>, s: Services)
    ensures ToJson(AnalyzeVideo(url, jd, s).record).fields.Keys ==
      {"summary", "filename", "transcript", "communication_analysis", "enthusiasm_timestamps", "behavioral_insights"}
  {
  }
}
