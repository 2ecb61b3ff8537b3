/**
 * The `analyze_video_endpoint` route: fetch the recruiter's job description
 * when a recruiter is named, run the video analysis, and store an answer row
 * when a user and a question index are given.  The `job_descriptions` table is
 * the one the JobsRouter module keeps; the answer row written is part of the
 * outcome rather than a table.
 */
module InterviewsRouter {
  import opened Wrappers
  import opened JsonValue
  import opened JobsRouter
  import opened VideoAnalysis

  /** The `VideoURL` request body. */
  datatype VideoRequest = VideoRequest(
    videoUrl: string,
    userId: Option<string>,
    questionIndex: Option<int>,
    questionText: Option<string>,
    recruiterId: Option<string>)

  /** The `interview_answers` row the endpoint upserts (without its timestamp). */
  datatype AnswerRow = AnswerRow(
    userId: string,
    questionIndex: int,
    questionText: string,
    videoUrl: string,
    summary: string,
    transcript: string,
    communicationAnalysis: string,
    behavioralInsights: string)

  /** What the endpoint returns and the row it stored, if any. */
  datatype Outcome = Outcome(response: Json, stored: Option<AnswerRow>)

  /** A truthy optional string: present and non-empty. */
  predicate Given(o: Option<string>) {
    o.Some? && o.value != []
  }

  /** `job_description`, as lines 20-29 leave it; `lookupFails` is the query raising. */
  function JobDescriptionFor(req: VideoRequest, rows: seq<JobRow>, lookupFails: bool): (jd: Option<string>)
    ensures jd.Some? ==> Given(req.recruiterId) && !lookupFails
    ensures jd.Some? ==> (
      var first := FirstRow(rows, req.recruiterId.value);
      first.Some? && first.value.description == Text(jd.value))
  {
    if !Given(req.recruiterId) || lookupFails then None
    else
      match FirstRow(rows, req.recruiterId.value)
      case None => None
      case Some(row) =>
        match row.description
        case Text(d) => Some(d)
        case Absent => None
        case Null => None
  }

  /** The row of lines 41-51; `dump` stands for `json.dumps`. */
  function AnswerRowFor(req: VideoRequest, uid: string, index: int, r: AnalysisRecord, dump: Json -> string): AnswerRow {
    AnswerRow(uid, index, req.questionText.GetOr(""), req.videoUrl, r.summary, r.transcript,
      dump(r.communicationAnalysis), dump(r.behavioralInsights))
  }

  const FailedResponse: Json := JObj(map[
    "error" := JStr("Failed to analyze video"),
    "details" := JStr("No result returned from analysis")])

  /**
   * `analyze_video_endpoint` (lines 13-56).  `storeFails` is the upsert
   * raising, which the route reports and otherwise ignores.
   */
  function AnalyzeVideoEndpoint(
    req: VideoRequest, rows: seq<JobRow>, lookupFails: bool,
    s: Services, dump: Json -> string, storeFails: bool): (out: Outcome)
    ensures out.stored.Some? ==> Given(req.userId) && req.questionIndex.Some? && !storeFails
    ensures out.stored.Some? ==>
      out.stored.value.userId == req.userId.value && out.stored.value.questionIndex == req.questionIndex.value
  {
    var jd := JobDescriptionFor(req, rows, lookupFails);
    var record := AnalyzeVideo(req.videoUrl, jd, s).record;
    var result := ToJson(record);
    if !PyTruthy(result) then Outcome(FailedResponse, None)
    else if Given(req.userId) && req.questionIndex.Some? && !storeFails then
      Outcome(result, Some(AnswerRowFor(req, req.userId.value, req.questionIndex.value, record, dump)))
    else
      Outcome(result, None)
  }

  // ---------------------------------------------------------------------------
  // Properties
  // ---------------------------------------------------------------------------

  /** Without a recruiter, or when the lookup raises, no job description is used. */
  lemma LookupOnlyWithRecruiter(req: VideoRequest, rows: seq<JobRow>, lookupFails: bool)
    requires !Given(req.recruiterId) || lookupFails
    ensures JobDescriptionFor(req, rows, lookupFails) == None
  {
  }

  /** With a recruiter and a working lookup, the first row's text description is used. */
  lemma LookupReadsFirstRow(req: VideoRequest, rows: seq<JobRow>, d: string)
    requires Given(req.recruiterId)
    requires FirstRow(rows, req.recruiterId.value).Some?
    requires FirstRow(rows, req.recruiterId.value).value.description == Text(d)
    ensures JobDescriptionFor(req, rows, false) == Some(d)
  {
  }

  /** A recruiter without a row, or whose description is null or absent, gets none. */
  lemma NoRowNoDescription(req: VideoRequest, rows: seq<JobRow>, lookupFails: bool)
    requires Given(req.recruiterId)
    requires !HasRow(rows, req.recruiterId.value) ||
      !FirstRow(rows, req.recruiterId.value).value.description.Text?
    ensures JobDescriptionFor(req, rows, lookupFails) == None
  {
  }

  /** The analysis dictionary always has six keys, so the failure branch is never taken. */
  lemma AnalysisAlwaysTruthy(url: string, jd: Option<string>, s: Services)
    ensures PyTruthy(ToJson(AnalyzeVideo(url, jd, s).record))
  {
    var j := ToJson(AnalyzeVideo(url, jd, s).record);
    assert "summary" in j.fields.Keys;
  }

  /** The endpoint returns the analysis dictionary unchanged. */
  lemma ResponseIsAnalysis(
    req: VideoRequest, rows: seq<JobRow>, lookupFails: bool,
    s: Services, dump: Json -> string, storeFails: bool)
    ensures AnalyzeVideoEndpoint(req, rows, lookupFails, s, dump, storeFails).response ==
      ToJson(AnalyzeVideo(req.videoUrl, JobDescriptionFor(req, rows, lookupFails), s).record)
  {
    AnalysisAlwaysTruthy(req.videoUrl, JobDescriptionFor(req, rows, lookupFails), s);
  }

  /** A row is stored exactly when a user and a question index are given and storing works. */
  lemma StoredIff(
    req: VideoRequest, rows: seq<JobRow>, lookupFails: bool,
    s: Services, dump: Json -> string, storeFails: bool)
    ensures AnalyzeVideoEndpoint(req, rows, lookupFails, s, dump, storeFails).stored.Some? <==>
      Given(req.userId) && req.questionIndex.Some? && !storeFails
  {
    AnalysisAlwaysTruthy(req.videoUrl, JobDescriptionFor(req, rows, lookupFails), s);
  }

  /** Question index 0 is stored like any other index. */
  lemma IndexZeroStored(
    req: VideoRequest, rows: seq<JobRow>, lookupFails: bool, s: Services, dump: Json -> string)
    requires Given(req.userId) && req.questionIndex == Some(0)
    ensures var out := AnalyzeVideoEndpoint(req, rows, lookupFails, s, dump, false);
      out.stored.Some? && out.stored.value.questionIndex == 0
  {
    StoredIff(req, rows, lookupFails, s, dump, false);
  }

  /**
   * The stored row carries the question text or "", the analysis summary and
   * transcript, and the two analyses JSON-encoded.
   */
  lemma StoredRowContents(
    req: VideoRequest, rows: seq<JobRow>, lookupFails: bool,
    s: Services, dump: Json -> string, storeFails: bool)
    requires AnalyzeVideoEndpoint(req, rows, lookupFails, s, dump, storeFails).stored.Some?
    ensures var row := AnalyzeVideoEndpoint(req, rows, lookupFails, s, dump, storeFails).stored.value;
      var r := AnalyzeVideo(req.videoUrl, JobDescriptionFor(req, rows, lookupFails), s).record;
      row.questionText == (if req.questionText.Some? then req.questionText.value else "") &&
      row.videoUrl == req.videoUrl &&
      row.summary == r.summary && row.transcript == r.transcript &&
      row.communicationAnalysis == dump(r.communicationAnalysis) &&
      row.behavioralInsights == dump(r.behavioralInsights)
  {
  }

  /** A failing upsert changes nothing in the response. */
  lemma StorageFailureInvisible(
    req: VideoRequest, rows: seq<JobRow>, lookupFails: bool, s: Services, dump: Json -> string)
    ensures AnalyzeVideoEndpoint(req, rows, lookupFails, s, dump, true).response ==
      AnalyzeVideoEndpoint(req, rows, lookupFails, s, dump, false).response
    ensures AnalyzeVideoEndpoint(req, rows, lookupFails, s, dump, true).stored == None
  {
    AnalysisAlwaysTruthy(req.videoUrl, JobDescriptionFor(req, rows, lookupFails), s);
  }
}
