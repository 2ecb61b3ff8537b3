/**
 * The recruiter's new-interview form: the question list (add, remove, move
 * with renumbering), the invite e-mail list, and the check `createInterview`
 * makes before it writes anything.  The form state is a class whose methods
 * are the component's handlers; the functions beside it say what each
 * handler computes.
 */
module NewInterview {
  import opened Wrappers
  import opened Text
  import opened Seqs

  /** `InterviewQuestion` */
  datatype Question = Question(id: string, text: string, order: int)

  datatype Direction = Up | Down

  datatype Message = Message(isError: bool, text: string)

  const MissingTitleOrQuestions: string := "Please provide a title and at least one question."

  /** Every question's `order` is its position. */
  predicate Numbered(qs: seq<Question>) {
    forall i :: 0 <= i < |qs| ==> qs[i].order == i
  }

  /** A question without its position: what a reordering must preserve. */
  function Item(q: Question): (string, string) {
    (q.id, q.text)
  }

  function Items(qs: seq<Question>): (r: seq<(string, string)>)
    ensures |r| == |qs|
  {
    seq(|qs|, i requires 0 <= i < |qs| => Item(qs[i]))
  }

  /** `addQuestion` (lines 46-56): the new list; `now` stands for `Date.now()`. */
  function Added(qs: seq<Question>, input: string, now: nat): seq<Question> {
    var text := Trim(input);
    if text != "" then qs + [Question(NatToString(now), text, |qs|)] else qs
  }

  /** `removeQuestion` (lines 59-61). */
  function QuestionsWithout(qs: seq<Question>, id: string): seq<Question> {
    Filter(qs, (q: Question) => q.id != id)
  }

  /** `questions.findIndex(q => q.id === id)`, with `None` for -1. */
  function FindIndex(qs: seq<Question>, id: string): (r: Option<nat>)
    ensures r.Some? ==> r.value < |qs| && qs[r.value].id == id
    ensures r.Some? ==> forall j :: 0 <= j < r.value ==> qs[j].id != id
    ensures r.None? ==> forall j :: 0 <= j < |qs| ==> qs[j].id != id
  {
    if qs == [] then None
    else if qs[0].id == id then Some(0)
    else
      match FindIndex(qs[1..], id)
      case None => None
      case Some(k) => Some(k + 1)
  }

  /** The destructuring swap of lines 70 and 72. */
  function Swap<T>(s: seq<T>, i: nat, j: nat): (r: seq<T>)
    requires i < |s| && j < |s|
    ensures |r| == |s| && r[i] == s[j] && r[j] == s[i]
    ensures forall k :: 0 <= k < |s| && k != i && k != j ==> r[k] == s[k]
  {
    s[i := s[j]][j := s[i]]
  }

  /** The `forEach` of lines 76-78. */
  function Renumber(qs: seq<Question>): (r: seq<Question>)
    ensures Numbered(r) && Items(r) == Items(qs)
  {
    seq(|qs|, i requires 0 <= i < |qs| => qs[i].(order := i))
  }

  /** `moveQuestion(id, direction)` (lines 64-81): the new list. */
  function Moved(qs: seq<Question>, id: string, dir: Direction): seq<Question> {
    match FindIndex(qs, id)
    case None => qs
    case Some(i) =>
      if dir == Up && i > 0 then Renumber(Swap(qs, i, i - 1))
      else if dir == Down && i < |qs| - 1 then Renumber(Swap(qs, i, i + 1))
      else Renumber(qs)
  }

  /** `addEmail` (lines 84-90): the new invite list. */
  function EmailAdded(emails: seq<string>, input: string): seq<string> {
    var email := Trim(input);
    if email != "" && email !in emails then emails + [email] else emails
  }

  /** The guard of lines 99-102: the error to show, or `None` to go on. */
  function CreateRefusal(title: string, qs: seq<Question>): Option<Message> {
    if IsBlank(title) || qs == [] then Some(Message(true, MissingTitleOrQuestions)) else None
  }

  /** The `forEach` of lines 76-78: every question's `order` becomes its index. */
  method RenumberInPlace(a: array<Question>)
    modifies a
    ensures a[..] == Renumber(old(a[..]))
  {
    var i := 0;
    while i < a.Length
      invariant 0 <= i <= a.Length
      invariant forall k :: 0 <= k < i ==> a[k] == old(a[k]).(order := k)
      invariant forall k :: i <= k < a.Length ==> a[k] == old(a[k])
    {
      a[i] := a[i].(order := i);
      i := i + 1;
    }
  }

  /** The form's state. */
  class InterviewDraft {
    var questions: seq<Question>
    var newQuestion: string
    var inviteEmail: string
    var inviteEmails: seq<string>
    var interviewTitle: string
    var message: Option<Message>

    constructor ()
      ensures questions == [] && newQuestion == "" && inviteEmail == "" && inviteEmails == []
      ensures interviewTitle == "" && message == None
    {
      questions := [];
      newQuestion := "";
      inviteEmail := "";
      inviteEmails := [];
      interviewTitle := "";
      message := None;
    }

    method AddQuestion(now: nat)
      modifies this
      ensures questions == Added(old(questions), old(newQuestion), now)
      ensures newQuestion == if IsBlank(old(newQuestion)) then old(newQuestion) else ""
      ensures inviteEmail == old(inviteEmail) && inviteEmails == old(inviteEmails)
      ensures interviewTitle == old(interviewTitle) && message == old(message)
    {
      var text := Trim(newQuestion);
      if text != "" {
        questions := questions + [Question(NatToString(now), text, |questions|)];
        newQuestion := "";
      }
    }

    method RemoveQuestion(id: string)
      modifies this
      ensures questions == QuestionsWithout(old(questions), id)
      ensures newQuestion == old(newQuestion) && inviteEmail == old(inviteEmail)
      ensures inviteEmails == old(inviteEmails) && interviewTitle == old(interviewTitle) && message == old(message)
    {
      questions := Filter(questions, (q: Question) => q.id != id);
    }

    /** Copies the list into an array, swaps in place and renumbers in a loop. */
    method MoveQuestion(id: string, dir: Direction)
      modifies this
      ensures questions == Moved(old(questions), id, dir)
      ensures newQuestion == old(newQuestion) && inviteEmail == old(inviteEmail)
      ensures inviteEmails == old(inviteEmails) && interviewTitle == old(interviewTitle) && message == old(message)
    {
      var found := FindIndex(questions, id);
      if found.None? {
        return;
      }
      var index := found.value;
      var qs := questions;
      var a := new Question[|qs|](i requires 0 <= i < |qs| => qs[i]);
      if dir == Up && index > 0 {
        a[index], a[index - 1] := a[index - 1], a[index];
        assert a[..] == Swap(qs, index, index - 1);
      } else if dir == Down && index < a.Length - 1 {
        a[index], a[index + 1] := a[index + 1], a[index];
        assert a[..] == Swap(qs, index, index + 1);
      } else {
        assert a[..] == qs;
      }
      assert Moved(qs, id, dir) == Renumber(a[..]);
      RenumberInPlace(a);
      questions := a[..];
    }

    method AddEmail()
      modifies this
      ensures inviteEmails == EmailAdded(old(inviteEmails), old(inviteEmail))
      ensures inviteEmail == if inviteEmails == old(inviteEmails) then old(inviteEmail) else ""
      ensures questions == old(questions) && newQuestion == old(newQuestion)
      ensures interviewTitle == old(interviewTitle) && message == old(message)
    {
      var email := Trim(inviteEmail);
      if email != "" && email !in inviteEmails {
        inviteEmails := inviteEmails + [email];
        inviteEmail := "";
      }
    }

    method RemoveEmail(email: string)
      modifies this
      ensures inviteEmails == Remove(old(inviteEmails), email)
      ensures questions == old(questions) && newQuestion == old(newQuestion) && inviteEmail == old(inviteEmail)
      ensures interviewTitle == old(interviewTitle) && message == old(message)
    {
      inviteEmails := Remove(inviteEmails, email);
    }

    /** The start of `createInterview`: refuse with a message, or clear it and go on. */
    method CreateInterview() returns (proceed: bool)
      modifies this
      ensures proceed <==> CreateRefusal(old(interviewTitle), old(questions)).None?
      ensures message == CreateRefusal(old(interviewTitle), old(questions))
      ensures questions == old(questions) && inviteEmails == old(inviteEmails) && interviewTitle == old(interviewTitle)
      ensures newQuestion == old(newQuestion) && inviteEmail == old(inviteEmail)
    {
      if Trim(interviewTitle) == "" || |questions| == 0 {
        message := Some(Message(true, MissingTitleOrQuestions));
        return false;
      }
      message := None;
      proceed := true;
    }
  }

  // ---------------------------------------------------------------------------
  // Properties
  // ---------------------------------------------------------------------------

  /**
   * Adding appends the trimmed text numbered with the old length, only when
   * it is not blank; a numbered list stays numbered.
   */
  lemma AddedQuestion(qs: seq<Question>, input: string, now: nat)
    ensures IsBlank(input) ==> Added(qs, input, now) == qs
    ensures !IsBlank(input) ==>
      Added(qs, input, now) == qs + [Question(NatToString(now), Trim(input), |qs|)]
    ensures Numbered(qs) ==> Numbered(Added(qs, input, now))
  {
  }

  /** Removing drops exactly the entries with that id and keeps the rest in order. */
  lemma RemovedQuestion(qs: seq<Question>, id: string)
    ensures var r := QuestionsWithout(qs, id);
      (forall k :: 0 <= k < |r| ==> r[k].id != id) &&
      (forall k :: 0 <= k < |qs| && qs[k].id != id ==> qs[k] in r) &&
      IsSubsequence(r, qs)
  {
    FilterIsSubsequence(qs, (q: Question) => q.id != id);
  }

  /** An unknown id leaves the list as it is, order fields included. */
  lemma MoveUnknownId(qs: seq<Question>, id: string, dir: Direction)
    requires forall j :: 0 <= j < |qs| ==> qs[j].id != id
    ensures Moved(qs, id, dir) == qs
  {
  }

  /**
   * A found question trades places with its neighbour in the chosen direction,
   * or with nobody at the edge; the questions are the same as before, and
   * every `order` is its index afterwards.
   */
  lemma MoveSwapsNeighbour(qs: seq<Question>, id: string, dir: Direction, i: nat)
    requires FindIndex(qs, id) == Some(i)
    ensures var r := Moved(qs, id, dir);
      Numbered(r) && multiset(Items(r)) == multiset(Items(qs)) &&
      (dir == Up && i > 0 ==> Items(r) == Swap(Items(qs), i, i - 1)) &&
      (dir == Down && i < |qs| - 1 ==> Items(r) == Swap(Items(qs), i, i + 1)) &&
      ((dir == Up && i == 0) || (dir == Down && i == |qs| - 1) ==> Items(r) == Items(qs))
  {
    var items := Items(qs);
    if dir == Up && i > 0 {
      assert Items(Swap(qs, i, i - 1)) == Swap(items, i, i - 1);
      SwapSameMultiset(items, i, i - 1);
    } else if dir == Down && i < |qs| - 1 {
      assert Items(Swap(qs, i, i + 1)) == Swap(items, i, i + 1);
      SwapSameMultiset(items, i, i + 1);
    }
  }

  /** A swap rearranges the elements and loses none. */
  lemma SwapSameMultiset<T>(s: seq<T>, i: nat, j: nat)
    requires i < |s| && j < |s|
    ensures multiset(Swap(s, i, j)) == multiset(s)
  {
    if i < j {
      SwapInPieces(s, i, j);
    } else if j < i {
      SwapInPieces(s, j, i);
      assert Swap(s, i, j) == Swap(s, j, i);
    }
  }

  /** A swap of `i < j`, written as the five pieces around the two positions. */
  lemma SwapInPieces<T>(s: seq<T>, i: nat, j: nat)
    requires i < j < |s|
    ensures multiset(Swap(s, i, j)) == multiset(s)
  {
    var a, b, c := s[..i], s[i + 1..j], s[j + 1..];
    assert s == a + [s[i]] + b + [s[j]] + c;
    assert Swap(s, i, j) == a + [s[j]] + b + [s[i]] + c;
  }

  /** Moving a question up and then down again restores the list, renumbered. */
  lemma UpThenDown(qs: seq<Question>, id: string, i: nat)
    requires FindIndex(qs, id) == Some(i) && i > 0
    ensures Moved(Moved(qs, id, Up), id, Down) == Renumber(qs)
    ensures Numbered(qs) ==> Moved(Moved(qs, id, Up), id, Down) == qs
  {
    var once := Moved(qs, id, Up);
    assert once[i - 1].id == id;
    assert forall j :: 0 <= j < i - 1 ==> once[j].id == qs[j].id;
    assert FindIndex(once, id) == Some(i - 1) by {
      var f := FindIndex(once, id);
      assert f.Some?;
      assert !(f.value < i - 1) && !(f.value > i - 1);
    }
    var twice := Moved(once, id, Down);
    assert |twice| == |qs|;
    forall k | 0 <= k < |qs| ensures twice[k] == qs[k].(order := k) {
      assert Item(twice[k]) == Item(qs[k]);
    }
  }

  /** Adding an e-mail keeps the list free of duplicates; a blank or known one changes nothing. */
  lemma EmailListStaysDistinct(emails: seq<string>, input: string)
    ensures NoDuplicates(emails) ==> NoDuplicates(EmailAdded(emails, input))
    ensures IsBlank(input) || Trim(input) in emails ==> EmailAdded(emails, input) == emails
  {
    var r := EmailAdded(emails, input);
    if NoDuplicates(emails) && r != emails {
      forall i, j | 0 <= i < j < |r| ensures r[i] != r[j] {
        if j == |emails| {
          assert r[i] in emails;
        }
      }
    }
  }

  /** Creation is refused exactly when the title is blank or there are no questions. */
  lemma CreateRefusedIff(title: string, qs: seq<Question>)
    ensures CreateRefusal(title, qs).Some? <==> IsBlank(title) || qs == []
    ensures CreateRefusal(title, qs).Some? ==> CreateRefusal(title, qs).value == Message(true, MissingTitleOrQuestions)
  {
  }
}
