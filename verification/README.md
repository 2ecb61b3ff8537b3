# HireVision core, modelled in Dafny

HireVision is an interview platform with two sides:
- Recruiters create interviews, invite candidates by e-mail or code, and review each recorded answer together with its AI analysis.
- Candidates sign up, complete a profile, upload a resume, receive questions generated from it, and record video answers.

This project models the parts of that system that decide things. It covers the backend services and routers, and the front-end components, hooks and store slices that hold the product's rules. Each part is modelled in the source's own form and proved against a specification.

Backend (Python, FastAPI):
- `QuestionGenerator` post-processes the language model's reply into questions. It strips code fences, looks for a JSON array fragment, accepts two shapes of list, and otherwise falls back to reading the reply line by line.
- `Sentiment` cleans the communication-analysis and behavioural-insight replies. It provides defaults for replies that do not parse, and a line-by-line insight fallback capped at four.
- `VideoAnalysis` is the `analyze_video` pipeline: URL check, transcript, summary, communication analysis and behavioural insights. It records which stages were called, the record it returns, and the error record every failure turns into.
- `InterviewsRouter` handles the analysis endpoint: the job-description lookup, the upsert of the answer row, and the response.
- `ResumesRouter` covers:
  - the resume upload route, with its type and size checks and its storage name;
  - question generation from the latest resume, with its error ladder and its insert loop;
  - the personalized-question listing, sorted by question index.
- `InvitesRouter` covers the bulk invite loop and its totals, and the invite status check with its thirty-day expiry.
- `JobsRouter` covers the job-description upsert and read.

Front end (TypeScript, Next.js and Redux):
- `Dashboard` and `FilterPanel`: the recruiter's video filters and their handlers.
- `NewInterview`: the interview draft's question and e-mail lists. This includes reordering, which works on an array with a swap and a renumbering loop.
- `AddInterviewModal`: the candidate joining an interview by code.
- `UploadResumePage`: the page's resume file check.
- `RecordingControls`: the timer label and its colour.
- `Middleware`: the route guard.
- `OnboardingStep`: the onboarding step hook.
- `VideoAnalysisHook`: the recruiter's cached analysis hook.
- `InterviewSlice`, `AuthSlice` and `ProfileSlice`: the store slices.

How the model is built:
- Code that updates state in place is modelled as classes whose methods are proved equal to specification functions. This covers the slices, hooks, dialogs, forms and database tables.
- Loops are methods with invariants.
- Pure logic is modelled as functions.
- The language model, the transcriber, the database, the clock, the JSON parser and the date parser are parameters. A query's failure is a `Result`, and a row lookup is a function of the rows.
- Strings are `seq<char>`. Whitespace is the ASCII characters that both `str.strip` and `String.prototype.trim` remove: space, tab, line feed, carriage return, vertical tab and form feed. Python's `str.strip` also removes the separators \x1c-\x1f, which JavaScript's `trim` keeps; these are left out.

Shared helpers:
- `Wrappers`: `Option` and `Result`.
- `Text`: trimming, splitting, digits and padding.
- `Seqs`: filtering, counting, removal and subsequences.
- `JsonValue`: a small JSON value type with Python and JavaScript truthiness.
- `Http`: status codes and error bodies.

Behaviour that follows from the code, and that a reader of the route and service names might not expect:
- The question generator keeps a reply's array only when it holds only question objects or only strings. Any other parsed value yields no questions; it does not fall back to the line heuristic.
- The line fallback of the question generator removes a leading number and its mark, but not a bullet glyph: a bulleted line is kept with its bullet.
- The video analysis runs all its stages in one `try` block. A failure in a later stage discards the results of the earlier ones and yields the error record.
- A transcript whose text is only whitespace is truthy in Python, so it is summarised and analysed like any other text.
- Without a job description the behavioural insights field is `{}`, not an error.

## Model

| member | source | states |
|---|---|---|
| QuestionGenerator.RemoveFence | backend/services/question_generator.py:47-54 | The step-by-step reassignment of the reply text (a "```json" prefix, then a "```" prefix, then a "```" suffix, then strip) computes the fence-free text `StripFence`. |
| QuestionGenerator.JsonFenceIsFence | backend/services/question_generator.py:48-51 | A text opening with "```json" also opens with "```". |
| QuestionGenerator.OpeningDropped | backend/services/question_generator.py:48-51 | Either opening tag followed by a newline is removed and the newline kept. |
| QuestionGenerator.ClosingDropped | backend/services/question_generator.py:52-53 | A closing "```" is cut off and what precedes it kept. |
| QuestionGenerator.TaggedFenceDropped | backend/services/question_generator.py:47-54 | A payload wrapped as tag, newline, payload, newline, "```" strips back to the payload, for both tags. |
| QuestionGenerator.BarePayloadKept | backend/services/question_generator.py:47-54 | A trimmed payload without fences passes through the removal unchanged. |
| QuestionGenerator.FenceWrapTransparent | backend/services/question_generator.py:47-54 | Fence removal inverts fence wrapping: both wrapped forms and the bare payload give the payload. |
| QuestionGenerator.ArrayFragmentSpan | backend/services/question_generator.py:56-61 | When some '[' has a ']' after it, the parsed fragment is the span from the first '[' to the first ']' following it. Otherwise the search fails and the whole text is parsed. |
| QuestionGenerator.EmbeddedFragment | backend/services/question_generator.py:56-61 | Prose before and after a JSON array is ignored: the fragment is exactly the bracketed array. |
| QuestionGenerator.Texts | backend/services/question_generator.py:72-73 | The texts of a list of JSON strings, one per item, each the item's string. |
| QuestionGenerator.FromParsed | backend/services/question_generator.py:63-90 | A parsed value never yields more than `num_questions` questions. |
| QuestionGenerator.ObjectsReturnedAsIs | backend/services/question_generator.py:66-70 | A list of question objects comes back unchanged, only truncated to `num_questions`. |
| QuestionGenerator.StringsPromoted | backend/services/question_generator.py:72-73 | A list of non-blank strings becomes question records, order kept, truncated to `num_questions`. |
| QuestionGenerator.WrongShapeGivesNothing | backend/services/question_generator.py:63-90 | A reply that parses to any other shape yields `[]`; the line fallback is not used. |
| QuestionGenerator.LineCandidate | backend/services/question_generator.py:78-85 | A line's candidate, when there is one, is a trimmed non-empty text. |
| QuestionGenerator.CandidatesStep | backend/services/question_generator.py:77-85 | One more line appends exactly its own candidate, if any, to the candidates so far. |
| QuestionGenerator.CollectCandidates | backend/services/question_generator.py:76-85 | The loop over the reply's lines collects the candidates of the lines in order (`Candidates` of the split text). |
| QuestionGenerator.CandidatesTrimmed | backend/services/question_generator.py:78-85 | Every collected candidate is stripped and non-empty. |
| QuestionGenerator.SkipToText | backend/services/question_generator.py:79 | The whitespace after an enumerator is removed up to the question text. |
| QuestionGenerator.NumberedLine | backend/services/question_generator.py:78-83 | A numbered line ("3) q", "3. q", "3- q", "3 q") contributes the text after its number and mark. |
| QuestionGenerator.NumberedLineTrimmed | backend/services/question_generator.py:78 | A line starting with digits and ending with the question is unchanged by `strip`. |
| QuestionGenerator.DigitsThenMark | backend/services/question_generator.py:79 | The enumerator's digits end exactly where its mark (if any) starts. |
| QuestionGenerator.AfterNumber | backend/services/question_generator.py:79-81 | Removing the enumerator leaves the text after the digits and one mark, trimmed at the start. |
| QuestionGenerator.NumberOnlyDropped | backend/services/question_generator.py:79-82 | A line holding only a number and its mark contributes nothing. |
| QuestionGenerator.UnnumberedLine | backend/services/question_generator.py:84-85 | A line not starting with a digit is kept whole once stripped; a bullet glyph is not removed. |
| QuestionGenerator.BlankLineDropped | backend/services/question_generator.py:78-85 | A blank line contributes nothing. |
| QuestionGenerator.FallbackQuestions | backend/services/question_generator.py:76-88 | The line fallback yields at most `num_questions` records; `FallbackShape` states which ones. |
| QuestionGenerator.FallbackShape | backend/services/question_generator.py:76-88 | The candidates kept are exactly those longer than five characters, in line order. The result holds one record for each of the first `num_questions` of them, and its length is the smaller of the two counts. |
| QuestionGenerator.FromContent | backend/services/question_generator.py:56-90 | No path from the cleaned text yields more than `num_questions` questions. |
| QuestionGenerator.ExtractedAreQuestionObjects | backend/services/question_generator.py:56-90 | Every question returned on any path is an object whose "question" is a non-blank string. |
| QuestionGenerator.GeneratePersonalizedQuestions | backend/services/question_generator.py:44-90 | The method's post-processing equals `ExtractQuestions` and returns at most `num_questions` questions. |
| QuestionGenerator.ExtractBound | backend/services/question_generator.py:44-90 | For any reply, at most `num_questions` questions come back. |
| QuestionGenerator.FencedReplyTrimmed | backend/services/question_generator.py:44 | A fenced reply has no outer whitespace for the first strip to remove. |
| QuestionGenerator.FencedReplySameQuestions | backend/services/question_generator.py:44-90 | A payload wrapped in a "```json" fence yields the same questions as the bare payload. |
| Sentiment.RemoveMarkers | backend/services/sentiment.py:81-90 | The step-by-step cleaning of the reply equals `CleanContent`. |
| Sentiment.StrippersAgree | backend/services/sentiment.py:84-87 | The sentiment cleaner and the question generator drop the same opening marker, except after "```json```". |
| Sentiment.NoClosingFence | backend/services/sentiment.py:88-89 | A payload not ending in a backquote has no closing fence to drop, with or without a marker before it. |
| Sentiment.MarkedPayloadTrimmed | backend/services/sentiment.py:90 | A trimmed payload behind a marker stays trimmed. |
| Sentiment.CleanerKeepsSecondMarker | backend/services/sentiment.py:81-90 | "```json```" + payload is cleaned to "```" + payload: the second marker survives the `elif`. |
| Sentiment.GeneratorDropsSecondMarker | backend/services/question_generator.py:47-54 | The same input loses both markers in the question generator. |
| Sentiment.AnalyzeCommunication | backend/services/sentiment.py:81-100 | The parsed cleaned reply when it parses, otherwise the default record. |
| Sentiment.DefaultCommunicationShape | backend/services/sentiment.py:97-100 | The default is exactly `{"strengths": [..], "improvements": [..]}`, each with its one placeholder. |
| Sentiment.DropBullets | backend/services/sentiment.py:164 | Exactly the leading run of '-', bullet and whitespace characters is removed. |
| Sentiment.BulletRun | backend/services/sentiment.py:164 | A bullet run before a text is exactly what is removed. |
| Sentiment.InsightOf | backend/services/sentiment.py:157-168 | A line contributes a non-empty insight or nothing. |
| Sentiment.LineInsight | backend/services/sentiment.py:157-168 | One pass of the fallback loop computes the line's `InsightOf`. |
| Sentiment.InsightsOfLines | backend/services/sentiment.py:156-168 | The loop appends the insights of the lines in order. |
| Sentiment.CollectInsights | backend/services/sentiment.py:154-168 | Splitting on newlines and looping gives the insights of the reply's lines. |
| Sentiment.GenerateBehavioralInsights | backend/services/sentiment.py:138-170 | The parsed cleaned reply when it parses, otherwise the fallback insight record. |
| Sentiment.ParseFailureGivesRecord | backend/services/sentiment.py:149-170 | On a parse failure the result is the fallback record of the cleaned text. |
| Sentiment.FallbackAtMostFour | backend/services/sentiment.py:154-170 | The fallback is `{"insights": xs}` with at most four strings: the first insights of the text, in order. |
| Sentiment.QuoteMarkerSurvives | backend/services/sentiment.py:159-166 | A "> " line counts as marked, but its quote sign is not stripped. |
| Sentiment.BulletMarkerStripped | backend/services/sentiment.py:159-166 | After a "- " or bullet marker, the marker run is removed and the text kept. |
| Sentiment.UnmarkedLineKeptIffLong | backend/services/sentiment.py:167-168 | An unmarked line is kept, whole and stripped, exactly when it is longer than ten characters. |
| VideoAnalysis.AnalyzeText | backend/services/video_analysis.py:60-82 | The summariser is called first, on the transcript text, and every stage receives that text; no timestamps are produced. |
| VideoAnalysis.AnalyzeVideo | backend/services/video_analysis.py:23-93 | An invalid URL calls nothing; otherwise the transcriber is called first, and every later stage works on its text. |
| VideoAnalysis.ToJson | backend/services/video_analysis.py:14-20 | The returned dictionary always has the six keys of the record. |
| VideoAnalysis.InvalidUrlRejected | backend/services/video_analysis.py:39-40 | An empty URL, or one not starting with "http", gives the error record with the invalid-URL message and calls nothing. |
| VideoAnalysis.MissingTextShortCircuits | backend/services/video_analysis.py:46-55 | A transcript without usable text gives the degraded record, and no generator runs. |
| VideoAnalysis.WhitespaceTextAnalysed | backend/services/video_analysis.py:46-62 | A whitespace-only transcript is not empty: the summariser is called on it. |
| VideoAnalysis.InsightsOnlyWithJobDescription | backend/services/video_analysis.py:64-67 | Insights are requested only for a truthy job description; otherwise the field is `{}`. |
| VideoAnalysis.SuccessRecord | backend/services/video_analysis.py:75-82 | On success the record holds the transcript verbatim, the summary, the communication analysis and the insights (or `{}`). |
| VideoAnalysis.RepliesPostProcessed | backend/services/video_analysis.py:60-82 | With stages built from the model's replies, the record holds the sentiment post-processing of those replies. |
| VideoAnalysis.LateFailureDiscardsAll | backend/services/video_analysis.py:84-93 | A later stage that raises discards the earlier results: the error record with that message. |
| VideoAnalysis.SameSixKeys | backend/services/video_analysis.py:23-93 | Every path returns a dictionary with the same six keys. |
| InterviewsRouter.JobDescriptionFor | backend/routers/interviews.py:19-29 | A description is used only with a recruiter and a working lookup, and then it is the first row's text. |
| InterviewsRouter.LookupOnlyWithRecruiter | backend/routers/interviews.py:19-29 | Without a recruiter, or when the lookup raises, no description is used. |
| InterviewsRouter.LookupReadsFirstRow | backend/routers/interviews.py:21-27 | The first row's text description is the one used. |
| InterviewsRouter.NoRowNoDescription | backend/routers/interviews.py:21-27 | No row, or a null or absent description, means no description. |
| InterviewsRouter.AnalyzeVideoEndpoint | backend/routers/interviews.py:13-56 | A row is stored only with a user, a question index and a working upsert, and then it holds that user's analysis for that index. |
| InterviewsRouter.AnalysisAlwaysTruthy | backend/routers/interviews.py:33-34 | The analysis dictionary is never falsy, so the "Failed to analyze video" branch is unreachable. |
| InterviewsRouter.ResponseIsAnalysis | backend/routers/interviews.py:56 | The endpoint returns the analysis dictionary unchanged. |
| InterviewsRouter.StoredIff | backend/routers/interviews.py:36-54 | A row is stored exactly when a user and a question index are given and the upsert works. |
| InterviewsRouter.IndexZeroStored | backend/routers/interviews.py:39 | Question index 0 is stored like any other index. |
| InterviewsRouter.StoredRowContents | backend/routers/interviews.py:41-51 | The stored row carries the question text (or ""), the summary, the transcript and the serialised analyses. |
| InterviewsRouter.StorageFailureInvisible | backend/routers/interviews.py:53-54 | A failing upsert leaves the response unchanged and stores nothing. |
| ResumesRouter.UploadResume | backend/routers/resumes.py:26-71 | Success only for an accepted type within 5 MiB, with the four response keys and the stored name; failures are 400 or 500. |
| ResumesRouter.UploadTypeCheckedFirst | backend/routers/resumes.py:30-34 | A wrong content type is refused with 400 whatever the size. |
| ResumesRouter.UploadSizeLimit | backend/routers/resumes.py:36-42 | An accepted type is refused as too large exactly above 5 MiB (5242880 bytes). |
| ResumesRouter.StoredFileNameParts | backend/routers/resumes.py:45 | The stored name splits back into the user id, the timestamp and the original name. |
| ResumesRouter.FromModelShape | backend/routers/resumes.py:111 | Questions generated from a model reply are at most three question objects. |
| ResumesRouter.Prepare | backend/routers/resumes.py:80-113 | When the ladder succeeds it yields between one and three question objects. |
| ResumesRouter.FirstInsertFailure | backend/routers/resumes.py:116-122 | The first index from `from` on whose insert raises, or the count when none does. |
| ResumesRouter.Generate | backend/routers/resumes.py:74-128 | At most three rows are inserted. |
| ResumesRouter.QuestionTable.InsertQuestions | backend/routers/resumes.py:116-122 | The loop appends one numbered row per question, in order, stopping at the first failing insert and reporting it. |
| ResumesRouter.QuestionTable.GenerateResumeQuestions | backend/routers/resumes.py:74-128 | The table gains exactly the rows `Generate` inserts, and the response is `Generate`'s. |
| ResumesRouter.NoResumeNoRows | backend/routers/resumes.py:85-86 | No resume: the fixed error and no rows. |
| ResumesRouter.BlankResumeNoRows | backend/routers/resumes.py:107-108 | Resume text that is blank after strip: the fixed error and no rows. |
| ResumesRouter.DownloadStatusReported | backend/routers/resumes.py:92-94 | A download other than 200 reports its status code and inserts nothing. |
| ResumesRouter.NoQuestionsNoRows | backend/routers/resumes.py:111-113 | No generated questions: the fixed error and no rows. |
| ResumesRouter.OneRowPerQuestion | backend/routers/resumes.py:116-124 | When every insert works there is one row per question, with index equal to its position, and success is reported. |
| ResumesRouter.FailedInsertKeepsEarlierRows | backend/routers/resumes.py:116-128 | A raising insert keeps the rows before it and returns its message. |
| ResumesRouter.InsertByIndex | backend/routers/resumes.py:152 | Insertion adds exactly the element: a permutation of the list plus `x`. |
| ResumesRouter.SortByIndex | backend/routers/resumes.py:152 | The sort is a permutation of its input. |
| ResumesRouter.InsertKeepsSorted | backend/routers/resumes.py:152 | Inserting into a list sorted by index keeps it sorted. |
| ResumesRouter.InsertKeepsBound | backend/routers/resumes.py:152 | A lower bound on every index survives insertion of an element above it. |
| ResumesRouter.SortByIndexSorted | backend/routers/resumes.py:152 | The sort puts rows in ascending `question_index` order. |
| ResumesRouter.Formatted | backend/routers/resumes.py:149-152 | One formatted record per row. |
| ResumesRouter.PersonalizedSortedAndComplete | backend/routers/resumes.py:138-154 | The questions are `{"question": text}` records of a permutation of the rows, in ascending index order. |
| ResumesRouter.NoDataNoQuestions | backend/routers/resumes.py:149-154 | No rows give an empty question list. |
| InvitesRouter.ErrorPersists | backend/routers/invites.py:46-57 | Once a send raises, later invites do not change the outcome. |
| InvitesRouter.BulkManageInvites | backend/routers/invites.py:40-66 | The loop over the invites gives the bulk response: one send per invite in order, or 500 on the first raise. |
| InvitesRouter.OneResultPerInvite | backend/routers/invites.py:46-64 | Success exactly when every send returns; then there is one result per invite, in order, naming its e-mail. |
| InvitesRouter.TotalsAddUp | backend/routers/invites.py:59-64 | Sent and failed add up to the number of invites. |
| InvitesRouter.MissingFieldsDefaulted | backend/routers/invites.py:53-57 | A reply without "success" counts as failed; one without "message" reads "Unknown error". |
| InvitesRouter.MarkExpired | backend/routers/invites.py:88-90 | Marking expired keeps every row's id and code and the row count. |
| InvitesRouter.InviteStatus | backend/routers/invites.py:69-102 | The response always has "valid", and the table changes only on a valid (expired) answer. |
| InvitesRouter.InviteTable.GetInviteStatus | backend/routers/invites.py:69-102 | The route's response and the table afterwards are those of `InviteStatus` on the table before. |
| InvitesRouter.ExpiredFlagMatchesStatus | backend/routers/invites.py:93-100 | The "expired" flag is true exactly when the reported status is "expired". |
| InvitesRouter.StalePendingExpires | backend/routers/invites.py:82-91 | A pending invite more than thirty days old is reported and stored as expired. |
| InvitesRouter.MarkExpiredOnlyThatRow | backend/routers/invites.py:88-90 | Only rows with that id change, and only their status. |
| InvitesRouter.RecentOrSettledKept | backend/routers/invites.py:82-100 | An invite exactly thirty days old, or one not pending, keeps its status and the table. |
| InvitesRouter.FailuresInvalid | backend/routers/invites.py:73-102 | An unknown code, an unreadable date and a failing update each answer `valid: False` with their message. |
| JobsRouter.FirstIndex | backend/routers/jobs.py:46-47 | The index of the recruiter's first row: it matches, and no earlier row does. |
| JobsRouter.FirstRow | backend/routers/jobs.py:46-47 | There is a first row exactly when the recruiter has a row, and it is theirs. |
| JobsRouter.FirstIndexUnique | backend/routers/jobs.py:46-47 | A matching index with no match before it is the first row. |
| JobsRouter.Rewritten | backend/routers/jobs.py:22-24 | The update keeps the row count. |
| JobsRouter.GetJobDescription | backend/routers/jobs.py:38-53 | The response is `{"success": true, "description": ..}`. |
| JobsRouter.JobTable.UpdateJobDescription | backend/routers/jobs.py:12-35 | The table becomes the upsert of the old table; row ids stay distinct; the data returned is the recruiter's rows or the one new row. |
| JobsRouter.JobTable.Get | backend/routers/jobs.py:38-48 | A read of the table succeeds with exactly the keys `success` and `description`. The description is "" for a recruiter without rows; otherwise it is the description of the recruiter's first row in table order, "" when the field is absent. |
| JobsRouter.FirstMatchDescription | backend/routers/jobs.py:46-47 | The description read is that of the matching row with no matching row before it. |
| JobsRouter.UpdateRewritesOnlyOwnRows | backend/routers/jobs.py:16-24 | An update rewrites exactly the recruiter's rows and leaves the others. |
| JobsRouter.InsertOnlyWhenAbsent | backend/routers/jobs.py:16-31 | A row is inserted exactly when the recruiter has none, after the old rows. |
| JobsRouter.GetAfterUpdate | backend/routers/jobs.py:12-53 | After an update with `d`, a read returns `d`. |
| JobsRouter.NoRowGivesEmpty | backend/routers/jobs.py:46-48 | A recruiter with no row gets success with "". |
| JobsRouter.AbsentFieldGivesEmpty | backend/routers/jobs.py:47 | A first row without a description field gives "". |
| Dashboard.FilteredVideos | frontend/app/recruiters/components/Dashboard.tsx:204-237 | Exactly the videos passing every test are kept. |
| Dashboard.FilteredIsSubsequence | frontend/app/recruiters/components/Dashboard.tsx:204-237 | The filtered list keeps the videos' order and adds nothing. |
| Dashboard.ClearedShowsAll | frontend/app/recruiters/components/Dashboard.tsx:204-237 | With the cleared filters every video is shown. |
| Dashboard.DisabledTests | frontend/app/recruiters/components/Dashboard.tsx:42-94 | An empty query, "all" levels and a zero minimum rating switch their tests off. |
| Dashboard.NoExperienceNeverMatches | frontend/app/recruiters/components/Dashboard.tsx:68-85 | A video without candidate experience matches no specific level. |
| Dashboard.Buckets | frontend/app/recruiters/components/Dashboard.tsx:74-84 | "0-2", "3-5" and "5+" hold 0..2, 3..5 and above 5; other levels and NaN hold nothing. |
| Dashboard.ParseIntReadsLeadingNumber | frontend/app/recruiters/components/Dashboard.tsx:72 | `parseInt` reads the leading number of "3-5 years" or "5+". |
| Dashboard.ExperienceMatch | frontend/app/recruiters/components/Dashboard.tsx:68-85 | Experience "n..." matches exactly the selected levels whose bucket holds n. |
| Dashboard.DateBounds | frontend/app/recruiters/components/Dashboard.tsx:97-124 | The start bound is inclusive, the end bound lets through one more day, and a video without a date passes. |
| FilterPanel.ToggleExperience | frontend/app/recruiters/components/FilterPanel.tsx:16-40 | The new selection is `["all"]` or a non-empty list without "all"; choosing "all" gives `["all"]`. |
| FilterPanel.ToggleSpecific | frontend/app/recruiters/components/FilterPanel.tsx:22-37 | A selected level is removed (falling back to `["all"]`), an unselected one appended, "all" dropped. |
| FilterPanel.ToggleNoDuplicates | frontend/app/recruiters/components/FilterPanel.tsx:16-40 | The toggle never introduces a duplicate. |
| FilterPanel.ToggleTwiceRestores | frontend/app/recruiters/components/FilterPanel.tsx:16-40 | Toggling an unselected level twice restores the selection. |
| FilterPanel.ToggleFromAllTwice | frontend/app/recruiters/components/FilterPanel.tsx:16-40 | From `["all"]`, a level is selected alone and then deselected back to `["all"]`. |
| FilterPanel.ToggleSpecificTwice | frontend/app/recruiters/components/FilterPanel.tsx:16-40 | Without "all", a new level is appended and then removed again. |
| FilterPanel.DateHandlersIndependent | frontend/app/recruiters/components/FilterPanel.tsx:50-64 | Each date handler replaces its own bound and keeps the other; an empty field clears it. |
| FilterPanel.ClearFilters | frontend/app/recruiters/components/FilterPanel.tsx:66-71 | Clearing restores the initial filters whatever they were. |
| NewInterview.Items | frontend/app/recruiters/components/NewInterview.tsx:64-81 | A question list's content without positions, one entry per question. |
| NewInterview.FindIndex | frontend/app/recruiters/components/NewInterview.tsx:65-66 | The first index with that id, or none when no question has it. |
| NewInterview.Swap | frontend/app/recruiters/components/NewInterview.tsx:69-73 | The two positions trade values and every other position is kept. |
| NewInterview.Renumber | frontend/app/recruiters/components/NewInterview.tsx:76-78 | Every `order` becomes its index and the contents are kept. |
| NewInterview.RenumberInPlace | frontend/app/recruiters/components/NewInterview.tsx:76-78 | The in-place loop leaves the array equal to `Renumber` of its old contents. |
| NewInterview.InterviewDraft.AddQuestion | frontend/app/recruiters/components/NewInterview.tsx:46-56 | The list becomes `Added` of the old list and input; the input is cleared only when something was added. |
| NewInterview.InterviewDraft.RemoveQuestion | frontend/app/recruiters/components/NewInterview.tsx:59-61 | The list loses the question with that id; nothing else changes. |
| NewInterview.InterviewDraft.MoveQuestion | frontend/app/recruiters/components/NewInterview.tsx:64-81 | The array copy, swap and renumbering loop give `Moved` of the old list; nothing else changes. |
| NewInterview.InterviewDraft.AddEmail | frontend/app/recruiters/components/NewInterview.tsx:84-90 | The list becomes `EmailAdded`; the input is cleared only when the list grew. |
| NewInterview.InterviewDraft.RemoveEmail | frontend/app/recruiters/components/NewInterview.tsx:93-95 | Every copy of that e-mail is removed; nothing else changes. |
| NewInterview.InterviewDraft.CreateInterview | frontend/app/recruiters/components/NewInterview.tsx:98-105 | Creation goes on exactly when there is no refusal, and the message is the refusal or cleared. |
| NewInterview.AddedQuestion | frontend/app/recruiters/components/NewInterview.tsx:46-56 | A blank input adds nothing; otherwise the trimmed text is appended, numbered with the old length, keeping the list numbered. |
| NewInterview.RemovedQuestion | frontend/app/recruiters/components/NewInterview.tsx:59-61 | Exactly the entries with that id are dropped, the rest kept in order. |
| NewInterview.MoveUnknownId | frontend/app/recruiters/components/NewInterview.tsx:65-66 | An unknown id leaves the list as it is, `order` fields included. |
| NewInterview.MoveSwapsNeighbour | frontend/app/recruiters/components/NewInterview.tsx:64-81 | The question trades places with its neighbour in that direction, or stays at the edge, and all are renumbered. |
| NewInterview.SwapSameMultiset | frontend/app/recruiters/components/NewInterview.tsx:69-73 | A swap rearranges the questions and loses none. |
| NewInterview.SwapInPieces | frontend/app/recruiters/components/NewInterview.tsx:69-73 | The same, for the two positions in ascending order. |
| NewInterview.UpThenDown | frontend/app/recruiters/components/NewInterview.tsx:64-81 | Moving up then down restores a numbered list. |
| NewInterview.EmailListStaysDistinct | frontend/app/recruiters/components/NewInterview.tsx:84-90 | Adding keeps the list duplicate-free; a blank or known e-mail changes nothing. |
| NewInterview.CreateRefusedIff | frontend/app/recruiters/components/NewInterview.tsx:98-102 | Creation is refused exactly when the title is blank or there are no questions, with that one message. |
| RecordingControls.FormatTime | frontend/app/candidates/components/RecordingControls.tsx:23-29 | The label has at least five characters, with the colon third from the end. |
| RecordingControls.PaddedValue | frontend/app/candidates/components/RecordingControls.tsx:26-27 | Zero padding keeps a printed number's value. |
| RecordingControls.SecondsFieldTwoDigits | frontend/app/candidates/components/RecordingControls.tsx:25-28 | The seconds field is two digits worth `seconds % 60`. |
| RecordingControls.MinutesFieldWhole | frontend/app/candidates/components/RecordingControls.tsx:24-28 | The minutes field is `seconds / 60`, padded to at least two digits and never cut short. |
| RecordingControls.FiveCharacters | frontend/app/candidates/components/RecordingControls.tsx:23-29 | Below 100 minutes the label is exactly "MM:SS". |
| RecordingControls.FormatTimeReadsBack | frontend/app/candidates/components/RecordingControls.tsx:23-29 | Reading the label back as minutes * 60 + seconds gives the time. |
| RecordingControls.TimeColor | frontend/app/candidates/components/RecordingControls.tsx:32-36 | The colour is white, yellow or red. |
| RecordingControls.TimeColorBands | frontend/app/candidates/components/RecordingControls.tsx:32-36 | White under 30 seconds, yellow from 30 to 59, red from 60. |
| UploadResumePage.UploadPage.ValidateAndSetFile | frontend/app/candidates/upload-resume/page.tsx:31-43 | The error is cleared and then set by `FileError`; the file is kept only when there is no error. |
| UploadResumePage.TypeBeforeSize | frontend/app/candidates/upload-resume/page.tsx:34-41 | The type is checked before the size; exactly 5 MiB is accepted. |
| UploadResumePage.PageAgreesWithServer | frontend/app/candidates/upload-resume/page.tsx:7-8 | The page keeps exactly the files the upload route accepts by type and size. |
| Middleware.Decide | frontend/middleware.ts:4-63 | Auth pages are always let through, and every redirect goes to one of the four fixed pages. |
| Middleware.UnauthenticatedGoToLogin | frontend/middleware.ts:37-44 | Without a session, each protected area redirects to its own login page and other paths pass. |
| Middleware.SignedInKeptOnOwnSide | frontend/middleware.ts:46-59 | A recruiter is sent away from candidate pages and others from recruiter pages; other cases pass. |
| Middleware.MissingRolesMeanCandidate | frontend/middleware.ts:47 | Missing roles behave as an empty list: not a recruiter. |
| Middleware.NoRedirectLoops | frontend/middleware.ts:4-63 | Following a redirect with the same session is let through. |
| OnboardingStep.PageOf | frontend/hooks/useCandidateOnboardingStep.ts:51-57 | Each step's page is one of the three onboarding pages. |
| OnboardingStep.Onboarding.constructor | frontend/hooks/useCandidateOnboardingStep.ts:6-8 | The hook starts loading, at the profile step, without a profile. |
| OnboardingStep.Onboarding.FetchProfile | frontend/hooks/useCandidateOnboardingStep.ts:12-43 | Loading ends; without a user nothing else changes; with one, the step is `StepFor` the profile and resumes. |
| OnboardingStep.Onboarding.RedirectIfNeeded | frontend/hooks/useCandidateOnboardingStep.ts:49-58 | No redirect while loading or on the right page; otherwise a redirect to the step's page. |
| OnboardingStep.StepConditions | frontend/hooks/useCandidateOnboardingStep.ts:28-41 | Profile step exactly when the profile is incomplete; resume step when complete without resumes; dashboard otherwise. |
| OnboardingStep.PagesDistinct | frontend/hooks/useCandidateOnboardingStep.ts:51-57 | Different steps live on different pages. |
| AddInterviewModal.SanitizeCode | frontend/app/candidates/components/AddInterviewModal.tsx:186 | The code holds only digits, at most six. |
| AddInterviewModal.SanitizeIdempotent | frontend/app/candidates/components/AddInterviewModal.tsx:186 | Cleaning a clean code changes nothing. |
| AddInterviewModal.SanitizeKeepsDigits | frontend/app/candidates/components/AddInterviewModal.tsx:186 | The code is the first six digits of the input, in order; a clean code is kept. |
| AddInterviewModal.SetStatus | frontend/app/candidates/components/AddInterviewModal.tsx:84-87 | A status update keeps the row count. |
| AddInterviewModal.SetStatusOnlyThatRow | frontend/app/candidates/components/AddInterviewModal.tsx:84-87 | The rows with that id get the new status and nothing else changes in them; every other row is kept. |
| AddInterviewModal.AddInterviewDialog.constructor | frontend/app/candidates/components/AddInterviewModal.tsx:15-17 | The code starts as the initial code or "", not loading, without a message. |
| AddInterviewModal.AddInterviewDialog.ChangeCode | frontend/app/candidates/components/AddInterviewModal.tsx:186 | Typing stores the cleaned code and nothing else. |
| AddInterviewModal.AddInterviewDialog.HandleAddInterview | frontend/app/candidates/components/AddInterviewModal.tsx:19-144 | The message and both tables become those of `AddInterview`; loading ends unless the code was blank. |
| AddInterviewModal.AddInterviewDialog.ApplyInvite | frontend/app/candidates/components/AddInterviewModal.tsx:63-130 | The message and tables become those of `ForInvite` for the one invite. |
| AddInterviewModal.BlankCodeRefused | frontend/app/candidates/components/AddInterviewModal.tsx:20-23 | A blank code is refused before any lookup. |
| AddInterviewModal.MatchCountChecked | frontend/app/candidates/components/AddInterviewModal.tsx:51-58 | No match or several matches are refused, and nothing is written. |
| AddInterviewModal.NonPendingRefused | frontend/app/candidates/components/AddInterviewModal.tsx:64-75 | A non-pending invite draws its status's error, and nothing is written. |
| AddInterviewModal.StatusMessages | frontend/app/candidates/components/AddInterviewModal.tsx:64-73 | "expired", "accepted" and "completed" each draw their own message, and no other status does. |
| AddInterviewModal.StaleInviteExpires | frontend/app/candidates/components/AddInterviewModal.tsx:77-91 | A pending invite older than thirty days is marked expired, unless that update fails, and nobody joins. |
| AddInterviewModal.ExistingAccessRefused | frontend/app/candidates/components/AddInterviewModal.tsx:94-104 | A user who already holds a participant row is not added again. |
| AddInterviewModal.ForInviteJoinsIffSuccess | frontend/app/candidates/components/AddInterviewModal.tsx:106-130 | For the one invite, a participant row is added exactly on success, and it is for that invite. |
| AddInterviewModal.JoinsIffSuccess | frontend/app/candidates/components/AddInterviewModal.tsx:19-144 | A participant row is appended exactly when success is reported; it is the user's, active, and the only change. |
| AddInterviewModal.SuccessConditions | frontend/app/candidates/components/AddInterviewModal.tsx:51-130 | Success needs one pending, recent invite not yet joined; the row names its interview and the invite becomes accepted unless that update fails. |
| VideoAnalysisHook.SafeParseJson | frontend/app/recruiters/hooks/useVideoAnalysis.ts:15-26 | A falsy value gives null and a non-string truthy value is returned as is. |
| VideoAnalysisHook.SafeParseText | frontend/app/recruiters/hooks/useVideoAnalysis.ts:17-24 | A string is parsed, and one that does not parse gives null. |
| VideoAnalysisHook.SummaryOf | frontend/app/recruiters/hooks/useVideoAnalysis.ts:97 | The summary shown is never empty. |
| VideoAnalysisHook.EmptySummaryReplaced | frontend/app/recruiters/hooks/useVideoAnalysis.ts:97 | A missing or empty summary shows "No summary available"; any other is kept. |
| VideoAnalysisHook.AnalysisOf | frontend/app/recruiters/hooks/useVideoAnalysis.ts:86-101 | An answer always gives a full analysis with a non-empty summary. |
| VideoAnalysisHook.FindByUrl | frontend/app/recruiters/hooks/useVideoAnalysis.ts:67 | The first answer with that URL, or none when no answer has it. |
| VideoAnalysisHook.RelevantAnswerChoice | frontend/app/recruiters/hooks/useVideoAnalysis.ts:66-75 | The answer used is the first with the video's URL, else the newest. |
| VideoAnalysisHook.AnalysisHook.AnalyzeVideo | frontend/app/recruiters/hooks/useVideoAnalysis.ts:28-122 | No video changes nothing; otherwise analysing ends and the panel and cache are `VideoOutcome`'s. |
| VideoAnalysisHook.AnalysisHook.AnalyzeAnswer | frontend/app/recruiters/hooks/useVideoAnalysis.ts:125-183 | No answer changes nothing; otherwise analysing ends and the panel and cache are `AnswerOutcome`'s. |
| VideoAnalysisHook.CachedVideoNeedsNoFetch | frontend/app/recruiters/hooks/useVideoAnalysis.ts:35-39 | A cached video is shown from the cache whatever the table holds. |
| VideoAnalysisHook.NoAnswersFixedSummary | frontend/app/recruiters/hooks/useVideoAnalysis.ts:57-62 | A candidate without answers gets the fixed summary, and nothing is cached. |
| VideoAnalysisHook.CacheFilledUnderKey | frontend/app/recruiters/hooks/useVideoAnalysis.ts:103-109 | A fresh analysis is cached under its key and shown; other entries are unchanged. |
| VideoAnalysisHook.AnswerKeysDistinct | frontend/app/recruiters/hooks/useVideoAnalysis.ts:132 | Different question indices of one user never share a cache key. |
| VideoAnalysisHook.IntToStringReadsBack | frontend/app/recruiters/hooks/useVideoAnalysis.ts:132 | A printed index reads back as the same integer. |
| VideoAnalysisHook.IntToStringInjective | frontend/app/recruiters/hooks/useVideoAnalysis.ts:132 | Different integers print differently. |
| InterviewSlice.InterviewStore.constructor | frontend/store/slices/interviewSlice.ts:14-23 | The store starts in `initialState`. |
| InterviewSlice.InterviewStore.SetCurrentQuestionIndex | frontend/store/slices/interviewSlice.ts:29-31 | Only the current index changes. |
| InterviewSlice.InterviewStore.AddRecordedAnswer | frontend/store/slices/interviewSlice.ts:32-34 | Only that index's entry is written; other answers are kept. |
| InterviewSlice.InterviewStore.SetIsRecording | frontend/store/slices/interviewSlice.ts:35-37 | Only the recording flag changes. |
| InterviewSlice.InterviewStore.SetIsInterviewFinished | frontend/store/slices/interviewSlice.ts:38-40 | Only the finished flag changes. |
| InterviewSlice.InterviewStore.SetProcessingStatus | frontend/store/slices/interviewSlice.ts:41-43 | Only the status changes. |
| InterviewSlice.InterviewStore.SetIsAnalysisComplete | frontend/store/slices/interviewSlice.ts:44-46 | Only the analysis flag changes. |
| InterviewSlice.InterviewStore.SetQuestions | frontend/store/slices/interviewSlice.ts:47-50 | The questions are stored and their loading ends. |
| InterviewSlice.InterviewStore.SetQuestionsLoading | frontend/store/slices/interviewSlice.ts:51-53 | Only the loading flag changes. |
| InterviewSlice.InterviewStore.ResetInterview | frontend/store/slices/interviewSlice.ts:54-56 | Back to `initialState` from any state. |
| AuthSlice.RolesOf | frontend/store/slices/authSlice.ts:36-38 | The roles are always truthy. |
| AuthSlice.RolesPrecedence | frontend/store/slices/authSlice.ts:36-38 | User-metadata roles win, even an empty list; then app-metadata roles; otherwise `[]`. |
| AuthSlice.OrNull | frontend/store/slices/authSlice.ts:41-42 | `x \|\| null` never keeps an empty string. |
| AuthSlice.LoginOutcome | frontend/store/slices/authSlice.ts:23-49 | Sign-in success always gives a user record with the user's id; a failure passes its message on. |
| AuthSlice.AuthStore.constructor | frontend/store/slices/authSlice.ts:16-21 | The store starts in `initialState`, and the flag agrees with the user. |
| AuthSlice.AuthStore.SetUser | frontend/store/slices/authSlice.ts:68-71 | The user is stored, and the flag says whether there is one. |
| AuthSlice.AuthStore.SetLoading | frontend/store/slices/authSlice.ts:72-74 | Only `loading` changes. |
| AuthSlice.AuthStore.SetError | frontend/store/slices/authSlice.ts:75-77 | Only `error` changes. |
| AuthSlice.AuthStore.LoginPending | frontend/store/slices/authSlice.ts:81-84 | Loading starts and the error is cleared. |
| AuthSlice.AuthStore.LoginFulfilled | frontend/store/slices/authSlice.ts:85-89 | Loading ends and the user is stored as authenticated. |
| AuthSlice.AuthStore.LoginRejected | frontend/store/slices/authSlice.ts:90-93 | Loading ends and the message is stored; the user is kept. |
| AuthSlice.AuthStore.LogoutFulfilled | frontend/store/slices/authSlice.ts:94-97 | The user is dropped and the flag cleared. |
| AuthSlice.AuthStore.Login | frontend/store/slices/authSlice.ts:23-49 | After a login, loading has ended; on success the user is authenticated without an error; on failure the user is kept and the message stored. |
| ProfileSlice.ProfileStore.constructor | frontend/store/slices/profileSlice.ts:20-25 | The store starts in `initialState`. |
| ProfileSlice.ProfileStore.SetShowProfileForm | frontend/store/slices/profileSlice.ts:83-85 | Only the form flag changes. |
| ProfileSlice.ProfileStore.FetchPending | frontend/store/slices/profileSlice.ts:89-92 | Loading starts and the error is cleared. |
| ProfileSlice.ProfileStore.FetchFulfilled | frontend/store/slices/profileSlice.ts:93-97 | The profile is stored, and the form is shown exactly when it has no name. |
| ProfileSlice.ProfileStore.FetchRejected | frontend/store/slices/profileSlice.ts:98-101 | Loading ends and the message is stored; the loaded profile is kept. |
| ProfileSlice.ProfileStore.UpdateFulfilled | frontend/store/slices/profileSlice.ts:102-105 | The submitted profile is stored and the form hidden. |
| ProfileSlice.ProfileStore.UpdateRejected | frontend/store/slices/profileSlice.ts:106-108 | Only the error changes. |
| ProfileSlice.ProfileStore.Fetch | frontend/store/slices/profileSlice.ts:27-50 | After a fetch, loading has ended; on success the profile is stored and the form shown exactly when it has no name; on failure the old profile is kept and the message stored. |

## Left out

- Network and database I/O are left out: the language model, the transcriber, Supabase queries, storage uploads and downloads, and e-mail sending. They are parameters (oracles) or `Result` values; latency, retries and concurrency are not modelled.
- `summarize_text` (backend/services/sentiment.py:14-46) is an oracle. Its prompt and its token limits are not modelled.
- JSON parsing (`json.loads`, `JSON.parse`) is an abstract `string -> Option<Json>`. Only the decode error is modelled as a failure; other exceptions it could raise are not.
- The emoji class of the insight fallback (sentiment.py:159) is an abstract set of leading characters. The bullet glyph is modelled as the three characters stored in the source file.
- Whitespace is the ASCII set. Unicode whitespace, case folding beyond ASCII, and JavaScript's UTF-16 lengths are not modelled.
- Dates are milliseconds given as parameters (`now`, `parseTime`). `setDate` across daylight-saving changes is modelled as exactly 86 400 000 ms per day.
- `Date.now()` identifiers and `generateInviteCode` randomness (NewInterview.tsx:41-43) are parameters or left out.
- `createInterview` after its guard (NewInterview.tsx:104 on) sets the loading flag and then does database I/O; none of it is modelled.
- `NewInterview.InterviewDraft.MoveQuestion`: the source's shallow copy shares question objects with the old list. The model works on values, so that aliasing is not captured.
- The rating filter `matchesRatingMin` (Dashboard.tsx:89-94) uses a floating-point mock score. It is a parameter of the filter.
- The search and rating setters of the filter panel (FilterPanel.tsx:42-48) are plain field assignments and are not modelled separately.
- JSON numbers (`Json.JNum`) are integers. A model reply holding fractional numbers is outside the range of the abstract parser, so the model does not say what happens to one.
- `parseInt` is modelled for decimal text only. Hex prefixes and radix detection are left out.
- The summary file write of the video analysis (video_analysis.py:69-73) is a side effect. Only the file name it reports is modelled, and the hash behind it is an abstract function. The summariser's output is always a string in the model, so the write never raises; a `None` summary, which would make the write raise, is not modelled.
- The order rows come back from a query is the order of the row sequence given. Database ordering guarantees are not modelled.
- `.single()` is modelled as "no row" for zero rows and as an error for several rows. Other client-library behaviour is not modelled.
- Upsert conflict resolution (interviews.py:41-51) is modelled as the stored row. Conflicts on other keys are not modelled.
- The invite send and manage endpoints (invites.py:12-37) and the cleanup endpoint (invites.py:105-123) only wrap the mail sender and table maintenance, and are not modelled.
- The job-description routes answer HTTP 500 when a query raises (jobs.py:34-35 and 49-53). The table model's reads and writes do not fail, so these answers are not modelled.
- `get_job_description_me` (jobs.py:56-68) is `get_job_description` for the signed-in user, and is modelled by `JobsRouter.JobTable.Get`.
- The legacy endpoints that delegate to the modelled ones (interviews.py:66-69, jobs.py:73-82, resumes.py:162-165, invites.py:127-130) are not modelled separately.
- The HTTP 400 and 500 handlers of the analysis endpoint (interviews.py:57-62) are not modelled. `analyze_video` catches its own failures, so the endpoint never sees them.
- `ResumesRouter.SortByIndex`: Python's sort is stable, but stability is not stated. Only ordering by index and the permutation are proved.
- The route guard's `config.matcher` (middleware.ts:65-67) is routing configuration and is left out.
- `router.replace` in the onboarding hook is returned as the target page, not performed.
- Console logging, `setTimeout` and the `onSuccess`/`onClose` callbacks of the add-interview dialog are left out.
- The async thunks of the auth and profile slices (`loginUser`, `logoutUser`, `fetchProfile`, `updateProfile`) are I/O. Their results are inputs of the reducers; only `loginUser`'s role and field defaults are modelled.
- `VideoAnalysisHook.AnalysisHook.AnalyzeVideo`: the message for a thrown value that is not an `Error` is not modelled, because the only throw in the try block is an `Error`.
- `VideoAnalysisHook.AnalysisHook.AnalyzeAnswer`: the catch branch is not modelled, because nothing in its try block throws.
