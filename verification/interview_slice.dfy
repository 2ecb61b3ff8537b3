/**
 * The candidate interview slice of the Redux store: the current question,
 * the recorded answers by question index, and the session flags.
 */
module InterviewSlice {
  /** A recorded answer's bytes. */
  type Blob = seq<bv8>

  /** `InterviewState`, as a value. */
  datatype InterviewState = InterviewState(
    currentQuestionIndex: int,
    recordedAnswers: map<int, Blob>,
    isRecording: bool,
    isInterviewFinished: bool,
    processingStatus: string,
    isAnalysisComplete: bool,
    questions: seq<string>,
    isQuestionsLoading: bool)

  /** `initialState` (lines 14-23). */
  const Initial: InterviewState :=
    InterviewState(0, map[], false, false, "", false, [], true)

  /** The slice's state, one field per state entry; each method is a reducer. */
  class InterviewStore {
    var currentQuestionIndex: int
    var recordedAnswers: map<int, Blob>
    var isRecording: bool
    var isInterviewFinished: bool
    var processingStatus: string
    var isAnalysisComplete: bool
    var questions: seq<string>
    var isQuestionsLoading: bool

    function State(): InterviewState
      reads this
    {
      InterviewState(currentQuestionIndex, recordedAnswers, isRecording, isInterviewFinished,
        processingStatus, isAnalysisComplete, questions, isQuestionsLoading)
    }

    constructor ()
      ensures State() == Initial
    {
      currentQuestionIndex := 0;
      recordedAnswers := map[];
      isRecording := false;
      isInterviewFinished := false;
      processingStatus := "";
      isAnalysisComplete := false;
      questions := [];
      isQuestionsLoading := true;
    }

    method SetCurrentQuestionIndex(index: int)
      modifies this
      ensures State() == old(State()).(currentQuestionIndex := index)
    {
      currentQuestionIndex := index;
    }

    /** `state.recordedAnswers[index] = blob`: only that entry is written. */
    method AddRecordedAnswer(index: int, blob: Blob)
      modifies this
      ensures State() == old(State()).(recordedAnswers := old(recordedAnswers)[index := blob])
      ensures recordedAnswers.Keys == old(recordedAnswers).Keys + {index} && recordedAnswers[index] == blob
      ensures forall k :: k in old(recordedAnswers) && k != index ==> recordedAnswers[k] == old(recordedAnswers)[k]
    {
      recordedAnswers := recordedAnswers[index := blob];
    }

    method SetIsRecording(value: bool)
      modifies this
      ensures State() == old(State()).(isRecording := value)
    {
      isRecording := value;
    }

    method SetIsInterviewFinished(value: bool)
      modifies this
      ensures State() == old(State()).(isInterviewFinished := value)
    {
      isInterviewFinished := value;
    }

    method SetProcessingStatus(status: string)
      modifies this
      ensures State() == old(State()).(processingStatus := status)
    {
      processingStatus := status;
    }

    method SetIsAnalysisComplete(value: bool)
      modifies this
      ensures State() == old(State()).(isAnalysisComplete := value)
    {
      isAnalysisComplete := value;
    }

    /** Storing the questions also ends their loading. */
    method SetQuestions(qs: seq<string>)
      modifies this
      ensures State() == old(State()).(questions := qs, isQuestionsLoading := false)
    {
      questions := qs;
      isQuestionsLoading := false;
    }

    method SetQuestionsLoading(value: bool)
      modifies this
      ensures State() == old(State()).(isQuestionsLoading := value)
    {
      isQuestionsLoading := value;
    }

    /** `resetInterview`: back to the initial state, whatever the state was. */
    method ResetInterview()
      modifies this
      ensures State() == Initial
    {
      currentQuestionIndex := Initial.currentQuestionIndex;
      recordedAnswers := Initial.recordedAnswers;
      isRecording := Initial.isRecording;
      isInterviewFinished := Initial.isInterviewFinished;
      processingStatus := Initial.processingStatus;
      isAnalysisComplete := Initial.isAnalysisComplete;
      questions := Initial.questions;
      isQuestionsLoading := Initial.isQuestionsLoading;
    }
  }
}
