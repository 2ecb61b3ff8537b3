/**
 * The `job_descriptions` table and the two routes over it:
 * `update_job_description` rewrites the recruiter's rows when there are any
 * and inserts one otherwise; `get_job_description` reads the first row.
 */
module JobsRouter {
  import opened Wrappers
  import opened JsonValue
  import opened Seqs

  /** A column value as the query hands it back: absent from the row, null, or text. */
  datatype Cell = Absent | Null | Text(s: string)

  datatype JobRow = JobRow(id: nat, recruiterId: string, description: Cell)

  /** Some row belongs to the recruiter (`existing.data` is non-empty). */
  predicate HasRow(rows: seq<JobRow>, recruiter: string) {
    exists i | 0 <= i < |rows| :: rows[i].recruiterId == recruiter
  }

  /** The index of the recruiter's first row. */
  function FirstIndex(rows: seq<JobRow>, recruiter: string): (k: nat)
    requires HasRow(rows, recruiter)
    ensures k < |rows| && rows[k].recruiterId == recruiter
    ensures forall j :: 0 <= j < k ==> rows[j].recruiterId != recruiter
  {
    if rows[0].recruiterId == recruiter then 0
    else
      assert HasRow(rows[1..], recruiter) by {
        var i :| 0 <= i < |rows| && rows[i].recruiterId == recruiter;
        assert rows[1..][i - 1] == rows[i];
      }
      1 + FirstIndex(rows[1..], recruiter)
  }

  /** `.eq('recruiter_id', recruiter)` followed by `data[0]`, when there is data. */
  function FirstRow(rows: seq<JobRow>, recruiter: string): (o: Option<JobRow>)
    ensures o.None? <==> !HasRow(rows, recruiter)
    ensures o.Some? ==> o.value.recruiterId == recruiter
  {
    if HasRow(rows, recruiter) then Some(rows[FirstIndex(rows, recruiter)]) else None
  }

  /** No row before index `k` belongs to the recruiter. */
  predicate NoMatchBefore(rows: seq<JobRow>, recruiter: string, k: nat)
    requires k <= |rows|
  {
    forall j :: 0 <= j < k ==> rows[j].recruiterId != recruiter
  }

  /** Any index that matches with no match before it is the first index. */
  lemma FirstIndexUnique(rows: seq<JobRow>, recruiter: string, k: nat)
    requires k < |rows| && rows[k].recruiterId == recruiter
    requires forall j :: 0 <= j < k ==> rows[j].recruiterId != recruiter
    ensures FirstRow(rows, recruiter) == Some(rows[k])
  {
    var f := FirstIndex(rows, recruiter);
    assert !(f < k) && !(k < f);
  }

  /** `.update({"description": d}).eq('recruiter_id', recruiter)` on the row values. */
  function Rewritten(rows: seq<JobRow>, recruiter: string, d: string): (out: seq<JobRow>)
    ensures |out| == |rows|
  {
    seq(|rows|, i requires 0 <= i < |rows| =>
      if rows[i].recruiterId == recruiter then rows[i].(description := Text(d)) else rows[i])
  }

  /** The table after `update_job_description(recruiter, d)`; `id` is the id a new row gets. */
  function Upserted(rows: seq<JobRow>, recruiter: string, d: string, id: nat): seq<JobRow> {
    if HasRow(rows, recruiter) then Rewritten(rows, recruiter, d)
    else rows + [JobRow(id, recruiter, Text(d))]
  }

  /** `row.get('description', '')`: an absent field reads as "", a null stays null. */
  function CellValue(c: Cell): Json {
    match c
    case Absent => JStr("")
    case Null => JNull
    case Text(s) => JStr(s)
  }

  /** `result.data[0].get('description', '')`, or "" when the recruiter has no row. */
  function DescriptionOf(rows: seq<JobRow>, recruiter: string): Json {
    match FirstRow(rows, recruiter)
    case None => JStr("")
    case Some(row) => CellValue(row.description)
  }

  /** The response of `get_job_description` (lines 41-48). */
  function GetJobDescription(rows: seq<JobRow>, recruiter: string): (resp: Json)
    ensures resp.JObj? && resp.fields.Keys == {"success", "description"}
    ensures resp.fields["success"] == JBool(true)
  {
    JObj(map["success" := JBool(true), "description" := DescriptionOf(rows, recruiter)])
  }

  /** The table, with the serial id the database assigns to the next insert. */
  class JobTable {
    var rows: seq<JobRow>
    var nextId: nat

    /** Row ids are distinct and below the next id. */
    ghost predicate Valid()
      reads this
    {
      (forall i :: 0 <= i < |rows| ==> rows[i].id < nextId) &&
      (forall i, j :: 0 <= i < j < |rows| ==> rows[i].id != rows[j].id)
    }

    constructor ()
      ensures rows == [] && nextId == 0 && Valid()
    {
      rows := [];
      nextId := 0;
    }

    /** `update_job_description` (lines 13-33); `data` is what the query returns. */
    method UpdateJobDescription(recruiter: string, d: string) returns (data: seq<JobRow>)
      requires Valid()
      modifies this
      ensures Valid()
      ensures rows == Upserted(old(rows), recruiter, d, old(nextId))
      ensures HasRow(old(rows), recruiter) ==>
        nextId == old(nextId) && data == Filter(rows, (row: JobRow) => row.recruiterId == recruiter)
      ensures !HasRow(old(rows), recruiter) ==>
        nextId == old(nextId) + 1 && data == [JobRow(old(nextId), recruiter, Text(d))]
    {
      if HasRow(rows, recruiter) {
        rows := Rewritten(rows, recruiter, d);
        data := Filter(rows, (row: JobRow) => row.recruiterId == recruiter);
      } else {
        var row := JobRow(nextId, recruiter, Text(d));
        rows := rows + [row];
        nextId := nextId + 1;
        data := [row];
      }
    }

    /**
     * `get_job_description` over the current table: always a success, with
     * "" for a recruiter without rows and otherwise the description of the
     * recruiter's first row in table order.
     */
    function Get(recruiter: string): (resp: Json)
      reads this
      ensures resp.JObj? && resp.fields.Keys == {"success", "description"}
      ensures resp.fields["success"] == JBool(true)
      ensures !HasRow(rows, recruiter) ==> resp.fields["description"] == JStr("")
      ensures forall k :: 0 <= k < |rows| && rows[k].recruiterId == recruiter && NoMatchBefore(rows, recruiter, k) ==>
        resp.fields["description"] == CellValue(rows[k].description)
    {
      FirstMatchDescription(rows, recruiter);
      GetJobDescription(rows, recruiter)
    }
  }

  // ---------------------------------------------------------------------------
  // Properties
  // ---------------------------------------------------------------------------

  /** An update rewrites exactly the recruiter's rows and leaves the others as they were. */
  lemma UpdateRewritesOnlyOwnRows(rows: seq<JobRow>, recruiter: string, d: string, id: nat)
    requires HasRow(rows, recruiter)
    ensures var out := Upserted(rows, recruiter, d, id);
      |out| == |rows| &&
      forall i :: 0 <= i < |rows| ==>
        (rows[i].recruiterId == recruiter ==> out[i] == rows[i].(description := Text(d))) &&
        (rows[i].recruiterId != recruiter ==> out[i] == rows[i])
  {
  }

  /** A row is inserted only when the recruiter has none, and the old rows stay in front. */
  lemma InsertOnlyWhenAbsent(rows: seq<JobRow>, recruiter: string, d: string, id: nat)
    ensures var out := Upserted(rows, recruiter, d, id);
      (HasRow(rows, recruiter) <==> |out| == |rows|) &&
      (!HasRow(rows, recruiter) ==> out[..|rows|] == rows && out[|rows|] == JobRow(id, recruiter, Text(d)))
  {
  }

  /** The description read is that of any matching row with no match before it. */
  lemma FirstMatchDescription(rows: seq<JobRow>, recruiter: string)
    ensures forall k :: 0 <= k < |rows| && rows[k].recruiterId == recruiter && NoMatchBefore(rows, recruiter, k) ==>
      DescriptionOf(rows, recruiter) == CellValue(rows[k].description)
  {
    forall k | 0 <= k < |rows| && rows[k].recruiterId == recruiter && NoMatchBefore(rows, recruiter, k)
      ensures DescriptionOf(rows, recruiter) == CellValue(rows[k].description)
    {
      FirstIndexUnique(rows, recruiter, k);
    }
  }

  /** After `update(r, d)`, `get(r)` returns `d`. */
  lemma GetAfterUpdate(rows: seq<JobRow>, recruiter: string, d: string, id: nat)
    ensures DescriptionOf(Upserted(rows, recruiter, d, id), recruiter) == JStr(d)
  {
    var out := Upserted(rows, recruiter, d, id);
    if HasRow(rows, recruiter) {
      var k := FirstIndex(rows, recruiter);
      FirstIndexUnique(out, recruiter, k);
    } else {
      forall j | 0 <= j < |rows| ensures out[j].recruiterId != recruiter {
        assert out[j] == rows[j];
      }
      FirstIndexUnique(out, recruiter, |rows|);
    }
  }

  /** A recruiter with no row gets success with an empty description. */
  lemma NoRowGivesEmpty(rows: seq<JobRow>, recruiter: string)
    requires !HasRow(rows, recruiter)
    ensures GetJobDescription(rows, recruiter) == JObj(map["success" := JBool(true), "description" := JStr("")])
  {
  }

  /** A first row lacking the description field gives "". */
  lemma AbsentFieldGivesEmpty(rows: seq<JobRow>, recruiter: string)
    requires FirstRow(rows, recruiter).Some? && FirstRow(rows, recruiter).value.description == Absent
    ensures DescriptionOf(rows, recruiter) == JStr("")
  {
  }
}
