/**
 The conversion_jobs table (backend/internal/files/jobs.go): every method is one
 atomic UPDATE or INSERT, so each is a function on a row and a method that applies it.
 Job ids are numbered in order of creation.
 */
module JobTable {

  datatype Status = Queued | Converting | Converted | Failed

  datatype Row = Row(status: Status, attempts: nat)

  /** What became of a call to the database or the broker: it took effect and said so, it
      had no effect and returned an error, or it took effect and still returned an error. */
  datatype Reply = Ok | Refused | Unheard {
    predicate Applied() { !Refused? }
  }

  const FRESH := Row(Queued, 0)

  /** The WHERE clause of Claim. */
  predicate Claimable(r: Row, redelivered: bool) {
    r.status != Converted && (r.status != Converting || redelivered)
  }

  function ClaimedRow(r: Row): Row {
    Row(Converting, r.attempts + 1)
  }

  function WithStatus(r: Row, status: Status, reply: Reply): Row {
    if reply.Applied() then r.(status := status) else r
  }

  class PgJobRepository {
    var rows: seq<Row>

    constructor ()
      ensures rows == []
    {
      rows := [];
    }

    method Create() returns (job: nat)
      modifies this
      ensures job == |old(rows)| && rows == old(rows) + [Row(Queued, 0)]
    {
      job := |rows|;
      rows := rows + [FRESH];
    }

    /** No row, or a row the WHERE clause rejects, reads as "not claimed". A row just claimed refuses
        every unflagged claim until somebody writes it again, whatever state it started in; a
        flagged claim loses only to 'converted'. */
    method Claim(job: nat, redelivered: bool, reply: Reply)
      returns (attempts: nat, claimed: bool, err: bool)
      modifies this
      ensures err <==> !reply.Ok?
      ensures claimed <==> (reply.Ok? && job < |old(rows)| &&
        old(rows)[job].status in (if redelivered then {Queued, Failed, Converting} else {Queued, Failed}))
      ensures claimed ==> job < |rows| && attempts == rows[job].attempts
      ensures claimed ==> rows == old(rows)[job := Row(Converting, old(rows)[job].attempts + 1)]
      ensures claimed ==> forall flagged :: Claimable(rows[job], flagged) <==> flagged
      ensures !claimed ==> attempts == 0
      ensures rows == if job < |old(rows)| && Claimable(old(rows)[job], redelivered) && reply.Applied()
                      then old(rows)[job := ClaimedRow(old(rows)[job])] else old(rows)
    {
      attempts, claimed, err := 0, false, !reply.Ok?;
      if job < |rows| && Claimable(rows[job], redelivered) && reply.Applied() {
        rows := rows[job := ClaimedRow(rows[job])];
        if reply.Ok? {
          attempts, claimed := rows[job].attempts, true;
        }
      }
    }

    /** Unconditional, exactly as in the source: the WHERE clause names only the id. */
    method UpdateStatus(job: nat, status: Status, reply: Reply) returns (err: bool)
      modifies this
      ensures err <==> !reply.Ok?
      ensures rows == if job < |old(rows)|
                      then old(rows)[job := WithStatus(old(rows)[job], status, reply)] else old(rows)
      ensures rows == if job < |old(rows)| && !reply.Refused?
                      then old(rows)[job := Row(status, old(rows)[job].attempts)] else old(rows)
    {
      err := !reply.Ok?;
      if job < |rows| {
        rows := rows[job := WithStatus(rows[job], status, reply)];
      }
    }

    /** The job half of Requeue, also unconditional; Pipeline has the batch. */
    method Requeue(job: nat, reply: Reply) returns (err: bool)
      modifies this
      ensures err <==> !reply.Ok?
      ensures rows == if job < |old(rows)|
                      then old(rows)[job := WithStatus(old(rows)[job], Queued, reply)] else old(rows)
      ensures rows == if job < |old(rows)| && !reply.Refused?
                      then old(rows)[job := Row(Queued, old(rows)[job].attempts)] else old(rows)
    {
      err := UpdateStatus(job, Queued, reply);
    }
  }
}
