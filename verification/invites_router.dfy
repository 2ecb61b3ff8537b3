/**
 * The invitation routes: `bulk_manage_invites` sends one e-mail per invite and
 * totals the outcomes; `get_invite_status` reads an invite by code and marks a
 * pending invite older than thirty days as expired, in the table and in the
 * answer.  The mail sender, the clock and date parsing are inputs.
 */
module InvitesRouter {
  import opened Wrappers
  import opened JsonValue
  import opened Seqs
  import opened Http

  /** The `InterviewInvite` request body. */
  datatype Invite = Invite(email: string, inviteCode: string, interviewTitle: string, recruiterName: string)

  // ---------------------------------------------------------------------------
  // Bulk sending
  // ---------------------------------------------------------------------------

  /** One entry of `results`. */
  datatype SendResult = SendResult(email: string, success: Json, message: Json)

  const UnknownError: string := "Unknown error"

  /** `d.get(key, default)` */
  function Lookup(d: map<string, Json>, key: string, default: Json): Json {
    if key in d then d[key] else default
  }

  /** The entry of lines 53-57 for one invite and the sender's reply. */
  function ResultFor(invite: Invite, reply: map<string, Json>): SendResult {
    SendResult(invite.email, Lookup(reply, "success", JBool(false)), Lookup(reply, "message", JStr(UnknownError)))
  }

  /**
   * The results of the loop of lines 46-57, or the message of the first send
   * that raised, which aborts the whole request.
   */
  function BulkResults(invites: seq<Invite>, send: Invite -> Result<map<string, Json>, string>): Result<seq<SendResult>, string>
  {
    if invites == [] then Ok([])
    else
      match BulkResults(invites[..|invites| - 1], send)
      case Err(m) => Err(m)
      case Ok(rs) =>
        match send(invites[|invites| - 1])
        case Err(m) => Err(m)
        case Ok(reply) => Ok(rs + [ResultFor(invites[|invites| - 1], reply)])
  }

  /** `if r["success"]` */
  predicate Sent(r: SendResult) {
    PyTruthy(r.success)
  }

  function ResultJson(r: SendResult): Json {
    JObj(map["email" := JStr(r.email), "success" := r.success, "message" := r.message])
  }

  /** `bulk_manage_invites` (lines 40-66). */
  function BulkResponse(invites: seq<Invite>, send: Invite -> Result<map<string, Json>, string>): Result<Json, HttpError> {
    match BulkResults(invites, send)
    case Err(m) => Err(HttpError(500, m))
    case Ok(rs) => Ok(JObj(map[
      "success" := JBool(true),
      "results" := JArr(seq(|rs|, k requires 0 <= k < |rs| => ResultJson(rs[k]))),
      "total_sent" := JNum(Count(rs, Sent)),
      "total_failed" := JNum(Count(rs, r => !Sent(r)))]))
  }

  /** Once a send has raised, later invites do not change the outcome. */
  lemma {:induction false} ErrorPersists(invites: seq<Invite>, k: nat, send: Invite -> Result<map<string, Json>, string>)
    requires k <= |invites| && BulkResults(invites[..k], send).Err?
    ensures BulkResults(invites, send) == BulkResults(invites[..k], send)
    decreases |invites|
  {
    if k < |invites| {
      var init := invites[..|invites| - 1];
      assert init[..k] == invites[..k];
      ErrorPersists(init, k, send);
    } else {
      assert invites[..k] == invites;
    }
  }

  /** The loop of lines 44-64 as it runs: one send per invite, in order. */
  method BulkManageInvites(invites: seq<Invite>, send: Invite -> Result<map<string, Json>, string>)
    returns (response: Result<Json, HttpError>)
    ensures response == BulkResponse(invites, send)
  {
    var results: seq<SendResult> := [];
    var i := 0;
    while i < |invites|
      invariant 0 <= i <= |invites|
      invariant BulkResults(invites[..i], send) == Ok(results)
    {
      assert invites[..i + 1][..i] == invites[..i];
      var invite := invites[i];
      var reply := send(invite);
      if reply.Err? {
        ErrorPersists(invites, i + 1, send);
        return Err(HttpError(500, reply.error));
      }
      results := results + [ResultFor(invite, reply.value)];
      i := i + 1;
    }
    assert invites[..|invites|] == invites;
    response := Ok(JObj(map[
      "success" := JBool(true),
      "results" := JArr(seq(|results|, k requires 0 <= k < |results| => ResultJson(results[k]))),
      "total_sent" := JNum(Count(results, Sent)),
      "total_failed" := JNum(Count(results, r => !Sent(r)))]));
  }

  /**
   * The request succeeds exactly when every send returns; then there is one
   * result per invite, in input order, carrying that invite's e-mail.
   */
  lemma {:induction false} OneResultPerInvite(invites: seq<Invite>, send: Invite -> Result<map<string, Json>, string>)
    ensures BulkResults(invites, send).Ok? <==> forall i :: 0 <= i < |invites| ==> send(invites[i]).Ok?
    ensures BulkResults(invites, send).Ok? ==>
      var rs := BulkResults(invites, send).value;
      |rs| == |invites| &&
      forall i :: 0 <= i < |invites| ==>
        rs[i].email == invites[i].email && rs[i] == ResultFor(invites[i], send(invites[i]).value)
    decreases |invites|
  {
    if invites != [] {
      var init := invites[..|invites| - 1];
      OneResultPerInvite(init, send);
      assert forall i :: 0 <= i < |init| ==> init[i] == invites[i];
    }
  }

  /** Sent and failed add up to the number of invites. */
  lemma TotalsAddUp(invites: seq<Invite>, send: Invite -> Result<map<string, Json>, string>)
    requires BulkResults(invites, send).Ok?
    ensures var rs := BulkResults(invites, send).value;
      Count(rs, Sent) + Count(rs, r => !Sent(r)) == |invites|
  {
    OneResultPerInvite(invites, send);
    CountSplits(BulkResults(invites, send).value, Sent);
  }

  /** A reply without "success" counts as failed; one without "message" reads "Unknown error". */
  lemma MissingFieldsDefaulted(invite: Invite, reply: map<string, Json>)
    ensures "success" !in reply ==> !Sent(ResultFor(invite, reply))
    ensures "message" !in reply ==> ResultFor(invite, reply).message == JStr(UnknownError)
    ensures ResultFor(invite, reply).email == invite.email
  {
  }

  // ---------------------------------------------------------------------------
  // Invite status
  // ---------------------------------------------------------------------------

  /** An `interview_invites` row; `createdAt` is the stored ISO text. */
  datatype InviteRow = InviteRow(id: nat, inviteCode: string, email: string, status: string, createdAt: string, interview: Json)

  /** Thirty days, in the seconds the clock and date parsing count in. */
  const ThirtyDays: int := 30 * 24 * 60 * 60

  const InvalidCodeMessage: string := "Invalid invite code"
  const StatusErrorPrefix: string := "Error checking invite status: "

  /** The rows whose code is `code` (`.eq('invite_code', code)`). */
  function WithCode(rows: seq<InviteRow>, code: string): seq<InviteRow> {
    Filter(rows, (r: InviteRow) => r.inviteCode == code)
  }

  /** `.update({'status': 'expired'}).eq('id', id)` on the row values. */
  function MarkExpired(rows: seq<InviteRow>, id: nat): (out: seq<InviteRow>)
    ensures |out| == |rows|
    ensures forall i :: 0 <= i < |rows| ==> out[i].id == rows[i].id && out[i].inviteCode == rows[i].inviteCode
  {
    seq(|rows|, i requires 0 <= i < |rows| => if rows[i].id == id then rows[i].(status := "expired") else rows[i])
  }

  /** The invite is older than thirty days: `invite_date < now - timedelta(days=30)`. */
  predicate Stale(created: int, now: int) {
    created < now - ThirtyDays
  }

  function Invalid(message: string): Json {
    JObj(map["valid" := JBool(false), "message" := JStr(message)])
  }

  function ValidResponse(invite: InviteRow, status: string): Json {
    JObj(map[
      "valid" := JBool(true),
      "status" := JStr(status),
      "email" := JStr(invite.email),
      "created_at" := JStr(invite.createdAt),
      "interview" := invite.interview,
      "expired" := JBool(status == "expired")])
  }

  datatype StatusOutcome = StatusOutcome(response: Json, rows: seq<InviteRow>)

  /**
   * `get_invite_status` (lines 69-102).  `parseTime` reads a stored date (or
   * raises); `manyError` is what `.single()` raises on several rows;
   * `updateError` is the update raising.  Every raise is answered with
   * `valid: False` and leaves the table as it was.
   */
  function InviteStatus(
    rows: seq<InviteRow>, code: string, now: int, parseTime: string -> Result<int, string>,
    manyError: string, updateError: Option<string>): (o: StatusOutcome)
    ensures o.response.JObj? && "valid" in o.response.fields
    ensures o.rows != rows ==> o.response.fields["valid"] == JBool(true)
  {
    var matches := WithCode(rows, code);
    if matches == [] then StatusOutcome(Invalid(InvalidCodeMessage), rows)
    else if |matches| > 1 then StatusOutcome(Invalid(StatusErrorPrefix + manyError), rows)
    else
      var invite := matches[0];
      match parseTime(invite.createdAt)
      case Err(m) => StatusOutcome(Invalid(StatusErrorPrefix + m), rows)
      case Ok(created) =>
        if Stale(created, now) && invite.status == "pending" then
          if updateError.Some? then StatusOutcome(Invalid(StatusErrorPrefix + updateError.value), rows)
          else StatusOutcome(ValidResponse(invite, "expired"), MarkExpired(rows, invite.id))
        else StatusOutcome(ValidResponse(invite, invite.status), rows)
  }

  /** The `interview_invites` table. */
  class InviteTable {
    var rows: seq<InviteRow>

    constructor (initial: seq<InviteRow>)
      ensures rows == initial
    {
      rows := initial;
    }

    /** `get_invite_status`, updating the table in place. */
    method GetInviteStatus(code: string, now: int, parseTime: string -> Result<int, string>,
      manyError: string, updateError: Option<string>) returns (response: Json)
      modifies this
      ensures response == InviteStatus(old(rows), code, now, parseTime, manyError, updateError).response
      ensures rows == InviteStatus(old(rows), code, now, parseTime, manyError, updateError).rows
    {
      var matches := WithCode(rows, code);
      if matches == [] {
        return Invalid(InvalidCodeMessage);
      }
      if |matches| > 1 {
        return Invalid(StatusErrorPrefix + manyError);
      }
      var invite := matches[0];
      var created := parseTime(invite.createdAt);
      if created.Err? {
        return Invalid(StatusErrorPrefix + created.error);
      }
      if Stale(created.value, now) && invite.status == "pending" {
        if updateError.Some? {
          return Invalid(StatusErrorPrefix + updateError.value);
        }
        rows := MarkExpired(rows, invite.id);
        invite := invite.(status := "expired");
      }
      response := ValidResponse(invite, invite.status);
    }
  }

  /** The "expired" flag is true exactly when the reported status is "expired". */
  lemma ExpiredFlagMatchesStatus(
    rows: seq<InviteRow>, code: string, now: int, parseTime: string -> Result<int, string>,
    manyError: string, updateError: Option<string>)
    ensures var r := InviteStatus(rows, code, now, parseTime, manyError, updateError).response;
      r.fields["valid"] == JBool(true) ==>
        "status" in r.fields && "expired" in r.fields && r.fields["status"].JStr? &&
        r.fields["expired"] == JBool(r.fields["status"].s == "expired")
  {
  }

  /** A pending invite dated more than thirty days back is reported and stored as expired. */
  lemma StalePendingExpires(
    rows: seq<InviteRow>, code: string, now: int, parseTime: string -> Result<int, string>,
    manyError: string, invite: InviteRow, created: int)
    requires WithCode(rows, code) == [invite] && invite.status == "pending"
    requires parseTime(invite.createdAt) == Ok(created) && Stale(created, now)
    ensures var o := InviteStatus(rows, code, now, parseTime, manyError, None);
      o.response.fields["status"] == JStr("expired") && o.response.fields["expired"] == JBool(true) &&
      o.rows == MarkExpired(rows, invite.id)
  {
  }

  /** Marking expired changes only the status of the rows with that id. */
  lemma MarkExpiredOnlyThatRow(rows: seq<InviteRow>, id: nat)
    ensures forall i :: 0 <= i < |rows| ==>
      (rows[i].id == id ==> MarkExpired(rows, id)[i] == rows[i].(status := "expired")) &&
      (rows[i].id != id ==> MarkExpired(rows, id)[i] == rows[i])
  {
  }

  /** An invite exactly thirty days old, or a non-pending one, keeps its status and the table. */
  lemma RecentOrSettledKept(
    rows: seq<InviteRow>, code: string, now: int, parseTime: string -> Result<int, string>,
    manyError: string, updateError: Option<string>, invite: InviteRow, created: int)
    requires WithCode(rows, code) == [invite] && parseTime(invite.createdAt) == Ok(created)
    requires created >= now - ThirtyDays || invite.status != "pending"
    ensures var o := InviteStatus(rows, code, now, parseTime, manyError, updateError);
      o.response == ValidResponse(invite, invite.status) && o.rows == rows
  {
  }

  /**
   * An unknown code, an unreadable date and a failing update each answer
   * `valid: False` with their message and leave the table as it was.
   */
  lemma FailuresInvalid(
    rows: seq<InviteRow>, code: string, now: int, parseTime: string -> Result<int, string>,
    manyError: string, m: string)
    ensures WithCode(rows, code) == [] ==>
      InviteStatus(rows, code, now, parseTime, manyError, Some(m)) == StatusOutcome(Invalid(InvalidCodeMessage), rows)
    ensures |WithCode(rows, code)| == 1 && parseTime(WithCode(rows, code)[0].createdAt) == Err(m) ==>
      InviteStatus(rows, code, now, parseTime, manyError, None) == StatusOutcome(Invalid(StatusErrorPrefix + m), rows)
    ensures (|WithCode(rows, code)| == 1 && WithCode(rows, code)[0].status == "pending" &&
             parseTime(WithCode(rows, code)[0].createdAt).Ok? &&
             Stale(parseTime(WithCode(rows, code)[0].createdAt).value, now)) ==>
      InviteStatus(rows, code, now, parseTime, manyError, Some(m)) == StatusOutcome(Invalid(StatusErrorPrefix + m), rows)
  {
  }
}
