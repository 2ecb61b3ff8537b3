/**
 * The candidate's "Add Interview" dialog: the code input filter and the
 * ladder of checks `handleAddInterview` runs before it makes the candidate a
 * participant of the invited interview.
 */
module AddInterviewModal {
  import opened Wrappers
  import opened Text
  import opened Seqs

  /** An `interview_invites` row as the dialog reads it. */
  datatype InviteRecord = InviteRecord(
    id: nat, email: string, status: string, createdAt: string, interviewId: string, inviteCode: string)

  /** An `interview_participants` row. */
  datatype Participant = Participant(interviewId: string, userId: string, status: string, joinedAt: string)

  /** Which of the dialog's database calls fail. */
  datatype Faults = Faults(lookupFails: bool, expireFails: bool, insertFails: bool, acceptFails: bool)

  const CodeLength: nat := 6
  /** Thirty days, in the milliseconds JavaScript dates count. */
  const ThirtyDaysMs: int := 30 * 24 * 60 * 60 * 1000

  /** The messages the dialog shows; only `Added` is shown as a success. */
  datatype Notice =
    | EnterCode | MustLogIn | LookupFailed | InvalidCode | DuplicateCode
    | ExpiredCode | UsedCode | CompletedInterview | NoLongerValid
    | AlreadyJoined | AddFailed | Added
  {
    predicate IsError() {
      this != Added
    }

    function Text(): string {
      match this
      case EnterCode => "Please enter an interview code."
      case MustLogIn => "You must be logged in to add an interview."
      case LookupFailed => "Error checking invite code. Please try again."
      case InvalidCode => "Invalid interview code. Please check the code and try again."
      case DuplicateCode => "Duplicate invite codes found. Please contact support."
      case ExpiredCode => "This interview code has expired. Please contact the recruiter for a new invitation."
      case UsedCode => "This interview code has already been used. Please contact the recruiter if you need access."
      case CompletedInterview => "This interview has already been completed."
      case NoLongerValid => "This interview code is no longer valid. Please contact the recruiter for assistance."
      case AlreadyJoined => "You already have access to this interview."
      case AddFailed => "Failed to add interview. Please try again."
      case Added => "Interview added successfully! You can now access it from your dashboard."
    }
  }

  /** The input's `onChange` (line 186): drop every non-digit, keep the first six. */
  function SanitizeCode(s: string): (r: string)
    ensures AllDigits(r) && |r| <= CodeLength
  {
    var digits := Filter(s, IsDigit);
    SliceTo(digits, CodeLength)
  }

  /** The message for an invite that is not pending (lines 64-75). */
  function StatusMessage(status: string): Notice {
    if status == "expired" then ExpiredCode
    else if status == "accepted" then UsedCode
    else if status == "completed" then CompletedInterview
    else NoLongerValid
  }

  /** `.eq("invite_code", code)` on the invite table. */
  function WithCode(invites: seq<InviteRecord>, code: string): seq<InviteRecord> {
    Filter(invites, (r: InviteRecord) => r.inviteCode == code)
  }

  /** `.update({status}).eq("id", id)`. */
  function SetStatus(invites: seq<InviteRecord>, id: nat, status: string): (r: seq<InviteRecord>)
    ensures |r| == |invites|
  {
    seq(|invites|, i requires 0 <= i < |invites| =>
      if invites[i].id == id then invites[i].(status := status) else invites[i])
  }

  /** A status update writes only the status, and only of the rows with that id. */
  lemma SetStatusOnlyThatRow(invites: seq<InviteRecord>, id: nat, status: string)
    ensures forall i :: 0 <= i < |invites| ==>
      (invites[i].id == id ==> SetStatus(invites, id, status)[i] == invites[i].(status := status)) &&
      (invites[i].id != id ==> SetStatus(invites, id, status)[i] == invites[i])
  {
  }

  /**
   * `inviteDate < thirtyDaysAgo` (lines 78-82); `created` is `None` for a date
   * that does not parse, which compares false and so never expires.
   */
  predicate Stale(created: Option<int>, now: int) {
    created.Some? && created.value < now - ThirtyDaysMs
  }

  /** The number of participant rows for this interview and user. */
  function AccessRows(participants: seq<Participant>, interviewId: string, userId: string): nat {
    |Filter(participants, (p: Participant) => p.interviewId == interviewId && p.userId == userId)|
  }

  datatype AddResult = AddResult(message: Notice, invites: seq<InviteRecord>, participants: seq<Participant>)

  /**
   * The checks on the one matching invite (lines 63-130): the result for the
   * signed-in user `userId`.
   */
  function ForInvite(
    invite: InviteRecord, userId: string, invites: seq<InviteRecord>, participants: seq<Participant>,
    faults: Faults, parseTime: string -> Option<int>, now: int, joinedAt: string): AddResult
  {
    if invite.status != "pending" then
      AddResult(StatusMessage(invite.status), invites, participants)
    else if Stale(parseTime(invite.createdAt), now) then
      var after := if faults.expireFails then invites else SetStatus(invites, invite.id, "expired");
      AddResult(ExpiredCode, after, participants)
    else if AccessRows(participants, invite.interviewId, userId) == 1 then
      AddResult(AlreadyJoined, invites, participants)
    else if faults.insertFails then AddResult(AddFailed, invites, participants)
    else
      var joined := participants + [Participant(invite.interviewId, userId, "active", joinedAt)];
      var after := if faults.acceptFails then invites else SetStatus(invites, invite.id, "accepted");
      AddResult(Added, after, joined)
  }

  /**
   * `handleAddInterview` (lines 19-144) as a function of the tables: the message
   * shown and both tables afterwards.  `user` is the signed-in user's id,
   * `parseTime` stands for `new Date(created_at)`, `now` for the clock and
   * `joinedAt` for the ISO time stamp written with the new participant.
   */
  function AddInterview(
    code: string, user: Option<string>, invites: seq<InviteRecord>, participants: seq<Participant>,
    faults: Faults, parseTime: string -> Option<int>, now: int, joinedAt: string): AddResult
  {
    var code := Trim(code);
    if code == "" then AddResult(EnterCode, invites, participants)
    else if user.None? then AddResult(MustLogIn, invites, participants)
    else if faults.lookupFails then AddResult(LookupFailed, invites, participants)
    else
      var matches := WithCode(invites, code);
      if |matches| == 0 then AddResult(InvalidCode, invites, participants)
      else if |matches| > 1 then AddResult(DuplicateCode, invites, participants)
      else ForInvite(matches[0], user.value, invites, participants, faults, parseTime, now, joinedAt)
  }

  /** The dialog's state, with the two tables it reads and writes. */
  class AddInterviewDialog {
    var inviteCode: string
    var isLoading: bool
    var message: Option<Notice>
    var invites: seq<InviteRecord>
    var participants: seq<Participant>

    /** `useState(initialCode || "")` and the other initial values (lines 15-17). */
    constructor (initialCode: Option<string>, invites: seq<InviteRecord>, participants: seq<Participant>)
      ensures inviteCode == initialCode.GetOr("") && !isLoading && message == None
      ensures this.invites == invites && this.participants == participants
    {
      inviteCode := initialCode.GetOr("");
      isLoading := false;
      message := None;
      this.invites := invites;
      this.participants := participants;
    }

    /** Typing in the code field. */
    method ChangeCode(value: string)
      modifies this
      ensures inviteCode == SanitizeCode(value)
      ensures isLoading == old(isLoading) && message == old(message)
      ensures invites == old(invites) && participants == old(participants)
    {
      inviteCode := SanitizeCode(value);
    }

    method HandleAddInterview(
      user: Option<string>, faults: Faults, parseTime: string -> Option<int>, now: int, joinedAt: string)
      modifies this
      ensures var r := AddInterview(old(inviteCode), user, old(invites), old(participants), faults, parseTime, now, joinedAt);
        message == Some(r.message) && invites == r.invites && participants == r.participants
      ensures isLoading == if IsBlank(old(inviteCode)) then old(isLoading) else false
      ensures inviteCode == old(inviteCode)
    {
      var code := Trim(inviteCode);
      if code == "" {
        message := Some(EnterCode);
        return;
      }
      isLoading := true;
      message := None;
      if user.None? {
        message := Some(MustLogIn);
        isLoading := false;
        return;
      }
      if faults.lookupFails {
        message := Some(LookupFailed);
        isLoading := false;
        return;
      }
      var matches := WithCode(invites, code);
      if |matches| == 0 {
        message := Some(InvalidCode);
      } else if |matches| > 1 {
        message := Some(DuplicateCode);
      } else {
        ApplyInvite(matches[0], user.value, faults, parseTime, now, joinedAt);
      }
      isLoading := false;
    }

    /** The part of `handleAddInterview` after the one invite is found. */
    method ApplyInvite(
      invite: InviteRecord, userId: string, faults: Faults, parseTime: string -> Option<int>, now: int, joinedAt: string)
      modifies this
      ensures var r := ForInvite(invite, userId, old(invites), old(participants), faults, parseTime, now, joinedAt);
        message == Some(r.message) && invites == r.invites && participants == r.participants
      ensures inviteCode == old(inviteCode) && isLoading == old(isLoading)
    {
      if invite.status != "pending" {
        message := Some(StatusMessage(invite.status));
      } else if Stale(parseTime(invite.createdAt), now) {
        if !faults.expireFails {
          invites := SetStatus(invites, invite.id, "expired");
        }
        message := Some(ExpiredCode);
      } else if AccessRows(participants, invite.interviewId, userId) == 1 {
        message := Some(AlreadyJoined);
      } else if faults.insertFails {
        message := Some(AddFailed);
      } else {
        participants := participants + [Participant(invite.interviewId, userId, "active", joinedAt)];
        if !faults.acceptFails {
          invites := SetStatus(invites, invite.id, "accepted");
        }
        message := Some(Added);
      }
    }
  }

  // ---------------------------------------------------------------------------
  // Properties
  // ---------------------------------------------------------------------------

  /** Filtering an already clean code changes nothing. */
  lemma SanitizeIdempotent(s: string)
    ensures SanitizeCode(SanitizeCode(s)) == SanitizeCode(s)
  {
    var r := SanitizeCode(s);
    FilterKeepsAll(r, IsDigit);
  }

  /** Digits are kept in order, up to the first six of them. */
  lemma SanitizeKeepsDigits(s: string)
    ensures SanitizeCode(s) == SliceTo(Filter(s, IsDigit), CodeLength)
    ensures IsSubsequence(SanitizeCode(s), s)
    ensures AllDigits(s) && |s| <= CodeLength ==> SanitizeCode(s) == s
  {
    var digits := Filter(s, IsDigit);
    FilterIsSubsequence(s, IsDigit);
    PrefixOfSubsequence(digits, s, |SanitizeCode(s)|);
    if AllDigits(s) {
      FilterKeepsAll(s, IsDigit);
    }
  }

  /** A code that is blank once trimmed is refused before anything is looked up. */
  lemma BlankCodeRefused(
    code: string, user: Option<string>, invites: seq<InviteRecord>, participants: seq<Participant>,
    faults: Faults, parseTime: string -> Option<int>, now: int, joinedAt: string)
    requires IsBlank(code)
    ensures AddInterview(code, user, invites, participants, faults, parseTime, now, joinedAt) ==
      AddResult(EnterCode, invites, participants)
  {
  }

  /** No matching invite, or more than one, is refused and nothing is written. */
  lemma MatchCountChecked(
    code: string, user: string, invites: seq<InviteRecord>, participants: seq<Participant>,
    faults: Faults, parseTime: string -> Option<int>, now: int, joinedAt: string)
    requires !IsBlank(code) && !faults.lookupFails
    ensures var r := AddInterview(code, Some(user), invites, participants, faults, parseTime, now, joinedAt);
      (|WithCode(invites, Trim(code))| == 0 ==> r == AddResult(InvalidCode, invites, participants)) &&
      (|WithCode(invites, Trim(code))| > 1 ==> r == AddResult(DuplicateCode, invites, participants))
  {
  }

  /** Nobody joins through an invite that is not pending, and each status has its message. */
  lemma NonPendingRefused(
    code: string, user: string, invites: seq<InviteRecord>, participants: seq<Participant>,
    faults: Faults, parseTime: string -> Option<int>, now: int, joinedAt: string)
    requires !IsBlank(code) && !faults.lookupFails
    requires |WithCode(invites, Trim(code))| == 1
    requires WithCode(invites, Trim(code))[0].status != "pending"
    ensures var r := AddInterview(code, Some(user), invites, participants, faults, parseTime, now, joinedAt);
      r.participants == participants && r.invites == invites && r.message.IsError() &&
      r.message == StatusMessage(WithCode(invites, Trim(code))[0].status)
  {
  }

  /** Each status draws its own message, and no other status draws those three. */
  lemma StatusMessages(status: string)
    ensures StatusMessage(status) == ExpiredCode <==> status == "expired"
    ensures StatusMessage(status) == UsedCode <==> status == "accepted"
    ensures StatusMessage(status) == CompletedInterview <==> status == "completed"
  {
  }

  /** A pending invite older than thirty days is marked expired and nobody joins. */
  lemma StaleInviteExpires(
    code: string, user: string, invites: seq<InviteRecord>, participants: seq<Participant>,
    faults: Faults, parseTime: string -> Option<int>, now: int, joinedAt: string)
    requires !IsBlank(code) && !faults.lookupFails
    requires |WithCode(invites, Trim(code))| == 1
    requires WithCode(invites, Trim(code))[0].status == "pending"
    requires Stale(parseTime(WithCode(invites, Trim(code))[0].createdAt), now)
    ensures var r := AddInterview(code, Some(user), invites, participants, faults, parseTime, now, joinedAt);
      var invite := WithCode(invites, Trim(code))[0];
      r.participants == participants && r.message == ExpiredCode &&
      r.invites == (if faults.expireFails then invites else SetStatus(invites, invite.id, "expired"))
  {
  }

  /** On the one invite, a participant row is added exactly on success, and it is that invite's. */
  lemma ForInviteJoinsIffSuccess(
    invite: InviteRecord, userId: string, invites: seq<InviteRecord>, participants: seq<Participant>,
    faults: Faults, parseTime: string -> Option<int>, now: int, joinedAt: string)
    ensures var r := ForInvite(invite, userId, invites, participants, faults, parseTime, now, joinedAt);
      (r.participants != participants <==> r.message == Added) &&
      (r.participants == participants ||
       r.participants == participants + [Participant(invite.interviewId, userId, "active", joinedAt)])
  {
  }

  /** A participant row is added exactly when the dialog reports success, and it is the only change to that table. */
  lemma JoinsIffSuccess(
    code: string, user: Option<string>, invites: seq<InviteRecord>, participants: seq<Participant>,
    faults: Faults, parseTime: string -> Option<int>, now: int, joinedAt: string)
    ensures var r := AddInterview(code, user, invites, participants, faults, parseTime, now, joinedAt);
      (r.participants != participants <==> r.message == Added) &&
      (r.participants == participants || (
        user.Some? && |r.participants| == |participants| + 1 && r.participants[..|participants|] == participants &&
        r.participants[|participants|].userId == user.value && r.participants[|participants|].status == "active"))
  {
    var c := Trim(code);
    if c != "" && user.Some? && !faults.lookupFails {
      var matches := WithCode(invites, c);
      if |matches| == 1 {
        ForInviteJoinsIffSuccess(matches[0], user.value, invites, participants, faults, parseTime, now, joinedAt);
      }
    }
  }

  /**
   * Success needs a single pending, recent invite the user has not joined; the
   * new row names that invite's interview and the invite becomes accepted
   * unless that update fails.
   */
  lemma SuccessConditions(
    code: string, user: string, invites: seq<InviteRecord>, participants: seq<Participant>,
    faults: Faults, parseTime: string -> Option<int>, now: int, joinedAt: string)
    requires AddInterview(code, Some(user), invites, participants, faults, parseTime, now, joinedAt).message == Added
    ensures var matches := WithCode(invites, Trim(code));
      |matches| == 1 && matches[0].status == "pending" && !Stale(parseTime(matches[0].createdAt), now) &&
      AccessRows(participants, matches[0].interviewId, user) != 1 && !faults.insertFails &&
      AddInterview(code, Some(user), invites, participants, faults, parseTime, now, joinedAt) ==
        AddResult(Added,
          if faults.acceptFails then invites else SetStatus(invites, matches[0].id, "accepted"),
          participants + [Participant(matches[0].interviewId, user, "active", joinedAt)])
  {
  }

  /** A user who already holds exactly one participant row for the interview is not added again. */
  lemma ExistingAccessRefused(
    code: string, user: string, invites: seq<InviteRecord>, participants: seq<Participant>,
    faults: Faults, parseTime: string -> Option<int>, now: int, joinedAt: string)
    requires !IsBlank(code) && !faults.lookupFails
    requires |WithCode(invites, Trim(code))| == 1
    requires WithCode(invites, Trim(code))[0].status == "pending"
    requires !Stale(parseTime(WithCode(invites, Trim(code))[0].createdAt), now)
    requires AccessRows(participants, WithCode(invites, Trim(code))[0].interviewId, user) == 1
    ensures AddInterview(code, Some(user), invites, participants, faults, parseTime, now, joinedAt) ==
      AddResult(AlreadyJoined, invites, participants)
  {
  }
}
