/**
 * The resume routes: `upload_resume` checks the file and names the stored
 * copy; `generate_resume_questions_from_db` runs a ladder of checks over the
 * newest resume, asks the question generator and stores one numbered row per
 * question; `get_personalized_questions` sorts the stored rows by index.
 * Storage, the PDF download and text extraction, and the language model are
 * inputs: what they returned, or the message they raised with.
 */
module ResumesRouter {
  import opened Wrappers
  import opened Text
  import opened JsonValue
  import opened Http
  import QG = QuestionGenerator

  const AcceptedResumeTypes: seq<string> := [
    "application/pdf",
    "application/vnd.openxmlformats-officedocument.wordprocessingml.document",
    "application/msword",
    "text/rtf"]
  const MaxResumeSizeMb: nat := 5
  const MaxResumeBytes: nat := MaxResumeSizeMb * 1024 * 1024

  const InvalidTypeDetail: string := "Invalid file type. Only PDF, DOCX, and RTF are allowed."
  const TooLargeDetail: string := "File too large. Max size is 5MB."
  const UploadFailedPrefix: string := "Failed to upload resume: "

  const NoResumeMessage: string := "No resume found for this user."
  const DownloadFailedPrefix: string := "Failed to download PDF from storage. Status code: "
  const NoTextMessage: string := "Could not extract text from the PDF."
  const NoQuestionsMessage: string := "No questions could be generated from the resume."

  /** The questions requested from the generator (line 111). */
  const QuestionsPerResume: nat := 3

  /** What storage hands back for an uploaded file: its public URL and the inserted row. */
  datatype StoredFile = StoredFile(publicUrl: string, dbRecord: Json)

  // ---------------------------------------------------------------------------
  // Upload
  // ---------------------------------------------------------------------------

  /** `f"{user_id}_{int(time.time())}_{file.filename}"`, with `now` the whole seconds. */
  function StoredFileName(userId: string, now: nat, original: string): string {
    userId + "_" + NatToString(now) + "_" + original
  }

  /**
   * `upload_resume` (lines 26-71).  `store` uploads under the given name and
   * inserts the `resumes` row, or raises with a message.
   */
  function UploadResume(
    contentType: string, size: nat, userId: string, now: nat, original: string,
    store: string -> Result<StoredFile, string>): (r: Result<Json, HttpError>)
    ensures r.Ok? ==> contentType in AcceptedResumeTypes && size <= MaxResumeBytes
    ensures r.Ok? ==> r.value.JObj? && r.value.fields.Keys == {"success", "file_path", "filename", "db_record"}
    ensures r.Ok? ==> r.value.fields["filename"] == JStr(StoredFileName(userId, now, original))
    ensures r.Err? ==> r.error.status in {400, 500}
  {
    if contentType !in AcceptedResumeTypes then Err(HttpError(400, InvalidTypeDetail))
    else if size > MaxResumeBytes then Err(HttpError(400, TooLargeDetail))
    else
      var filename := StoredFileName(userId, now, original);
      match store(filename)
      case Err(m) => Err(HttpError(500, UploadFailedPrefix + m))
      case Ok(f) => Ok(JObj(map[
        "success" := JBool(true),
        "file_path" := JStr(f.publicUrl),
        "filename" := JStr(filename),
        "db_record" := f.dbRecord]))
  }

  /** The content type is checked first: a wrong type is refused whatever the size. */
  lemma UploadTypeCheckedFirst(
    contentType: string, size: nat, userId: string, now: nat, original: string,
    store: string -> Result<StoredFile, string>)
    requires contentType !in AcceptedResumeTypes
    ensures UploadResume(contentType, size, userId, now, original, store) == Err(HttpError(400, InvalidTypeDetail))
  {
  }

  /** An accepted type is refused as too large exactly when it exceeds 5 MiB; 5 MiB itself passes. */
  lemma UploadSizeLimit(
    contentType: string, size: nat, userId: string, now: nat, original: string,
    store: string -> Result<StoredFile, string>)
    requires contentType in AcceptedResumeTypes
    ensures MaxResumeBytes == 5242880
    ensures UploadResume(contentType, size, userId, now, original, store) == Err(HttpError(400, TooLargeDetail))
      <==> size > MaxResumeBytes
  {
  }

  /** The stored name splits back into the user id, the timestamp and the original name. */
  lemma StoredFileNameParts(userId: string, now: nat, original: string)
    ensures var f := StoredFileName(userId, now, original);
      var stamp := f[|userId| + 1..|f| - |original| - 1];
      f[..|userId|] == userId && f[|userId|] == '_' &&
      f[|f| - |original| - 1] == '_' && f[|f| - |original|..] == original &&
      AllDigits(stamp) && DigitsValue(stamp) == now
  {
    var digits := NatToString(now);
    var f := StoredFileName(userId, now, original);
    assert f == userId + ("_" + digits + "_" + original);
    assert f[|userId| + 1..|f| - |original| - 1] == digits;
    NatToStringValue(now);
  }

  // ---------------------------------------------------------------------------
  // Question generation
  // ---------------------------------------------------------------------------

  /** The PDF download: its status code and the page texts, or what extraction raised. */
  datatype Download = Download(status: nat, pages: Result<seq<Option<string>>, string>)

  /**
   * What `generate_resume_questions_from_db` consults; `Err` is the message
   * raised.  `generate` stands for `generate_personalized_questions_from_resume`
   * with three questions; `FromModel` builds it from the model's raw reply.
   */
  datatype Sources = Sources(
    latest: Result<Option<string>, string>,         // `file_path` of the newest resume, if any
    fetch: string -> Result<Download, string>,      // download and text extraction of a file path
    generate: string -> Result<seq<Json>, string>,  // the questions for a resume text
    insertError: nat -> Option<string>)             // the insert of question `idx` raising

  /** The generator as the QuestionGenerator module models it, over the model's replies. */
  function FromModel(ask: string -> Result<string, string>, parse: Parser): string -> Result<seq<Json>, string> {
    text => match ask(text)
            case Err(m) => Err(m)
            case Ok(reply) => Ok(QG.ExtractQuestions(reply, QuestionsPerResume, parse))
  }

  /** What the generator promises: at most three questions, each with a non-blank text. */
  ghost predicate GeneratorShape(generate: string -> Result<seq<Json>, string>) {
    forall text :: generate(text).Ok? ==>
      |generate(text).value| <= QuestionsPerResume && QG.AllQuestionObjects(generate(text).value)
  }

  /** The question generator keeps that promise on every reply. */
  lemma FromModelShape(ask: string -> Result<string, string>, parse: Parser)
    ensures GeneratorShape(FromModel(ask, parse))
  {
    var generate := FromModel(ask, parse);
    forall text | generate(text).Ok?
      ensures |generate(text).value| <= QuestionsPerResume && QG.AllQuestionObjects(generate(text).value)
    {
      var reply := ask(text).value;
      QG.ExtractedAreQuestionObjects(QG.StripFence(Trim(reply)), QuestionsPerResume, parse);
    }
  }

  /** `"\n".join(page.extract_text() or "" for page in pdf.pages)` */
  function ResumeText(pages: seq<Option<string>>): string {
    if pages == [] then ""
    else Join(seq(|pages|, i requires 0 <= i < |pages| => pages[i].GetOr("")), '\n')
  }

  /** The ladder of lines 81-113, up to the questions to store, or the error message. */
  function Prepare(src: Sources): (p: Result<seq<Json>, string>)
    requires GeneratorShape(src.generate)
    ensures p.Ok? ==> 1 <= |p.value| <= QuestionsPerResume && QG.AllQuestionObjects(p.value)
  {
    match src.latest
    case Err(m) => Err(m)
    case Ok(None) => Err(NoResumeMessage)
    case Ok(Some(path)) =>
      match src.fetch(path)
      case Err(m) => Err(m)
      case Ok(d) =>
        if d.status != 200 then Err(DownloadFailedPrefix + NatToString(d.status))
        else
          match d.pages
          case Err(m) => Err(m)
          case Ok(pages) =>
            var text := ResumeText(pages);
            if IsBlank(text) then Err(NoTextMessage)
            else
              match src.generate(text)
              case Err(m) => Err(m)
              case Ok(qs) => if qs == [] then Err(NoQuestionsMessage) else Ok(qs)
  }

  /** A `resume_questions` row (without its timestamp). */
  datatype QuestionRow = QuestionRow(userId: string, questionIndex: nat, questionText: string)

  /** An object whose "question" is a string, so that `question['question']` is one. */
  predicate HasQuestionText(q: Json) {
    q.JObj? && "question" in q.fields && q.fields["question"].JStr?
  }

  predicate AllHaveQuestionText(qs: seq<Json>) {
    forall k :: 0 <= k < |qs| ==> HasQuestionText(qs[k])
  }

  /** `question['question']` of an extracted question. */
  function QuestionText(q: Json): string
    requires HasQuestionText(q)
  {
    q.fields["question"].s
  }

  /** The rows of `enumerate(questions)`. */
  function NumberedRows(userId: string, qs: seq<Json>): seq<QuestionRow>
    requires AllHaveQuestionText(qs)
  {
    seq(|qs|, i requires 0 <= i < |qs| => QuestionRow(userId, i, QuestionText(qs[i])))
  }

  /** The index of the first insert, from `from` on, that raises; `count` when none does. */
  function FirstInsertFailure(count: nat, insertError: nat -> Option<string>, from: nat): (k: nat)
    requires from <= count
    ensures from <= k <= count
    ensures forall i :: from <= i < k ==> insertError(i).None?
    ensures k < count ==> insertError(k).Some?
    decreases count - from
  {
    if from == count || insertError(from).Some? then from
    else FirstInsertFailure(count, insertError, from + 1)
  }

  function ErrorResponse(message: string): Json {
    Single("error", JStr(message))
  }

  /** The response of the route and the rows it inserted. */
  datatype GenerateOutcome = GenerateOutcome(response: Json, inserted: seq<QuestionRow>)

  /**
   * `generate_resume_questions_from_db` (lines 74-128).  An insert that raises
   * ends the loop; the rows inserted before it stay, and the message is returned.
   */
  function Generate(userId: string, src: Sources): (o: GenerateOutcome)
    requires GeneratorShape(src.generate)
    ensures |o.inserted| <= QuestionsPerResume
  {
    match Prepare(src)
    case Err(m) => GenerateOutcome(ErrorResponse(m), [])
    case Ok(qs) =>
      var k := FirstInsertFailure(|qs|, src.insertError, 0);
      var rows := NumberedRows(userId, qs)[..k];
      if k < |qs| then GenerateOutcome(ErrorResponse(src.insertError(k).value), rows)
      else GenerateOutcome(Single("questions", JArr(qs)), rows)
  }

  /** The `resume_questions` table. */
  class QuestionTable {
    var rows: seq<QuestionRow>

    constructor ()
      ensures rows == []
    {
      rows := [];
    }

    /**
     * The loop of lines 116-122: one numbered row per question, stopping at the
     * first insert that raises and returning its message.
     */
    method InsertQuestions(userId: string, qs: seq<Json>, insertError: nat -> Option<string>)
      returns (failure: Option<string>)
      requires AllHaveQuestionText(qs)
      modifies this
      ensures var k := FirstInsertFailure(|qs|, insertError, 0);
        rows == old(rows) + NumberedRows(userId, qs)[..k] &&
        (if k < |qs| then failure == insertError(k) else failure == None)
    {
      ghost var numbered := NumberedRows(userId, qs);
      var idx := 0;
      while idx < |qs|
        invariant 0 <= idx <= |qs|
        invariant forall i :: 0 <= i < idx ==> insertError(i).None?
        invariant rows == old(rows) + numbered[..idx]
      {
        failure := insertError(idx);
        if failure.Some? {
          assert FirstInsertFailure(|qs|, insertError, 0) == idx;
          return;
        }
        rows := rows + [QuestionRow(userId, idx, QuestionText(qs[idx]))];
        assert numbered[..idx + 1] == numbered[..idx] + [numbered[idx]];
        idx := idx + 1;
      }
      assert FirstInsertFailure(|qs|, insertError, 0) == |qs|;
      assert numbered[..|qs|] == numbered;
      failure := None;
    }

    /** `generate_resume_questions_from_db` over this table. */
    method GenerateResumeQuestions(userId: string, src: Sources) returns (response: Json)
      requires GeneratorShape(src.generate)
      modifies this
      ensures response == Generate(userId, src).response
      ensures rows == old(rows) + Generate(userId, src).inserted
    {
      var prepared := Prepare(src);
      if prepared.Err? {
        return ErrorResponse(prepared.error);
      }
      var qs := prepared.value;
      var failure := InsertQuestions(userId, qs, src.insertError);
      if failure.Some? {
        response := ErrorResponse(failure.value);
      } else {
        response := Single("questions", JArr(qs));
      }
    }
  }

  /** No resume row: the fixed error, and nothing inserted. */
  lemma NoResumeNoRows(userId: string, src: Sources)
    requires GeneratorShape(src.generate)
    requires src.latest == Ok(None)
    ensures Generate(userId, src) == GenerateOutcome(ErrorResponse(NoResumeMessage), [])
  {
  }

  /** A resume whose text is blank after strip: the fixed error, and nothing inserted. */
  lemma BlankResumeNoRows(userId: string, src: Sources, path: string, pages: seq<Option<string>>)
    requires GeneratorShape(src.generate)
    requires src.latest == Ok(Some(path)) && src.fetch(path) == Ok(Download(200, Ok(pages)))
    requires IsBlank(ResumeText(pages))
    ensures Generate(userId, src) == GenerateOutcome(ErrorResponse(NoTextMessage), [])
  {
  }

  /** A download other than 200 reports its status code and inserts nothing. */
  lemma DownloadStatusReported(userId: string, src: Sources, path: string, d: Download)
    requires GeneratorShape(src.generate)
    requires src.latest == Ok(Some(path)) && src.fetch(path) == Ok(d) && d.status != 200
    ensures Generate(userId, src) ==
      GenerateOutcome(ErrorResponse(DownloadFailedPrefix + NatToString(d.status)), [])
  {
  }

  /** An empty question list: the fixed error, and nothing inserted. */
  lemma NoQuestionsNoRows(userId: string, src: Sources, path: string, pages: seq<Option<string>>)
    requires GeneratorShape(src.generate)
    requires src.latest == Ok(Some(path)) && src.fetch(path) == Ok(Download(200, Ok(pages)))
    requires !IsBlank(ResumeText(pages)) && src.generate(ResumeText(pages)) == Ok([])
    ensures Generate(userId, src) == GenerateOutcome(ErrorResponse(NoQuestionsMessage), [])
  {
  }

  /**
   * When every insert succeeds there is exactly one row per question, its
   * index equal to the question's position, and the questions are returned.
   */
  lemma OneRowPerQuestion(userId: string, src: Sources)
    requires GeneratorShape(src.generate)
    requires Prepare(src).Ok?
    requires forall i :: 0 <= i < |Prepare(src).value| ==> src.insertError(i).None?
    ensures var qs := Prepare(src).value;
      var o := Generate(userId, src);
      o.response == Single("questions", JArr(qs)) &&
      |o.inserted| == |qs| &&
      forall i :: 0 <= i < |qs| ==>
        o.inserted[i].userId == userId && o.inserted[i].questionIndex == i &&
        JStr(o.inserted[i].questionText) == qs[i].fields["question"]
  {
    var qs := Prepare(src).value;
    var k := FirstInsertFailure(|qs|, src.insertError, 0);
    assert k == |qs|;
    assert NumberedRows(userId, qs)[..k] == NumberedRows(userId, qs);
  }

  /** An insert that raises keeps the rows before it and returns its message. */
  lemma FailedInsertKeepsEarlierRows(userId: string, src: Sources, k: nat)
    requires GeneratorShape(src.generate)
    requires Prepare(src).Ok? && k < |Prepare(src).value|
    requires forall i :: 0 <= i < k ==> src.insertError(i).None?
    requires src.insertError(k).Some?
    ensures var o := Generate(userId, src);
      o.response == ErrorResponse(src.insertError(k).value) &&
      o.inserted == NumberedRows(userId, Prepare(src).value)[..k]
  {
    var f := FirstInsertFailure(|Prepare(src).value|, src.insertError, 0);
    assert !(f < k) && !(k < f);
  }

  // ---------------------------------------------------------------------------
  // Personalised questions
  // ---------------------------------------------------------------------------

  /** A row as `get_personalized_questions` selects it. */
  datatype SavedQuestion = SavedQuestion(questionIndex: int, questionText: string)

  predicate SortedByIndex(xs: seq<SavedQuestion>) {
    forall i, j :: 0 <= i < j < |xs| ==> xs[i].questionIndex <= xs[j].questionIndex
  }

  /** Places `x` before the first element with an index not below its own. */
  function InsertByIndex(x: SavedQuestion, xs: seq<SavedQuestion>): (r: seq<SavedQuestion>)
    ensures multiset(r) == multiset(xs) + multiset{x}
  {
    if xs == [] || x.questionIndex <= xs[0].questionIndex then [x] + xs
    else
      assert xs == [xs[0]] + xs[1..];
      [xs[0]] + InsertByIndex(x, xs[1..])
  }

  /** `sorted(questions, key=lambda x: x["question_index"])`, as an insertion sort. */
  function SortByIndex(xs: seq<SavedQuestion>): (r: seq<SavedQuestion>)
    ensures multiset(r) == multiset(xs)
  {
    if xs == [] then []
    else
      assert xs == [xs[0]] + xs[1..];
      InsertByIndex(xs[0], SortByIndex(xs[1..]))
  }

  /** Inserting into a sorted list keeps it sorted. */
  lemma {:induction false} InsertKeepsSorted(x: SavedQuestion, xs: seq<SavedQuestion>)
    requires SortedByIndex(xs)
    ensures SortedByIndex(InsertByIndex(x, xs))
  {
    if xs != [] && x.questionIndex > xs[0].questionIndex {
      InsertKeepsSorted(x, xs[1..]);
      InsertKeepsBound(x, xs[1..], xs[0].questionIndex);
    }
  }

  /** A lower bound on every index survives the insertion of an element above it. */
  lemma {:induction false} InsertKeepsBound(x: SavedQuestion, xs: seq<SavedQuestion>, b: int)
    requires b <= x.questionIndex
    requires forall k :: 0 <= k < |xs| ==> b <= xs[k].questionIndex
    ensures forall k :: 0 <= k < |InsertByIndex(x, xs)| ==> b <= InsertByIndex(x, xs)[k].questionIndex
  {
    if xs != [] && x.questionIndex > xs[0].questionIndex {
      InsertKeepsBound(x, xs[1..], b);
    }
  }

  /** The sort puts the rows in ascending index order. */
  lemma {:induction false} SortByIndexSorted(xs: seq<SavedQuestion>)
    ensures SortedByIndex(SortByIndex(xs))
  {
    if xs != [] {
      SortByIndexSorted(xs[1..]);
      InsertKeepsSorted(xs[0], SortByIndex(xs[1..]));
    }
  }

  /** The formatted list of lines 149-152. */
  function Formatted(rows: seq<SavedQuestion>): (r: seq<Json>)
    ensures |r| == |rows|
  {
    var sorted := SortByIndex(rows);
    assert |sorted| == |multiset(sorted)| == |multiset(rows)| == |rows|;
    seq(|sorted|, k requires 0 <= k < |sorted| => QG.QuestionRecord(sorted[k].questionText))
  }

  /**
   * `get_personalized_questions` (lines 131-158) over what the query returned
   * (`[]` when there is no data) or the message it raised with.
   */
  function PersonalizedQuestions(query: Result<seq<SavedQuestion>, string>): Json {
    match query
    case Err(m) => ErrorResponse(m)
    case Ok(rows) => Single("questions", JArr(Formatted(rows)))
  }

  /**
   * The questions come back as `{"question": text}` records of a rearrangement
   * of the rows in ascending index order.
   */
  lemma PersonalizedSortedAndComplete(rows: seq<SavedQuestion>)
    ensures var sorted := SortByIndex(rows);
      SortedByIndex(sorted) && multiset(sorted) == multiset(rows) &&
      PersonalizedQuestions(Ok(rows)) == Single("questions", JArr(Formatted(rows))) &&
      forall k :: 0 <= k < |rows| ==> Formatted(rows)[k] == QG.QuestionRecord(sorted[k].questionText)
  {
    SortByIndexSorted(rows);
  }

  /** No data gives an empty question list. */
  lemma NoDataNoQuestions()
    ensures PersonalizedQuestions(Ok([])) == Single("questions", JArr([]))
  {
  }
}
