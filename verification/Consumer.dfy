/**
 Consumer.process and handleFailure as they run (backend/internal/convert/queue.go:450-567),
 with the job marks of Convert (backend/internal/convert/pipeline.go:94-120), proved to be a
 path of the step machine: however each call to the database and the broker answers, one
 call of Process performs exactly the actions Protocol.Act prescribes, one after another,
 from the arrival of the delivery to its ack.
 */
module Consumers {
  import opened Wrappers
  import opened JobTable
  import opened Protocol

  /** What one delivery can see and change: its row, its own progress, and what it publishes. */
  datatype Local = Local(row: Option<Row>, d: Delivery, retry: seq<Body>, dead: seq<Body>, tally: Tally)

  function Apply(maxAttempts: nat, l: Local, r: Reply): Local
    requires l.d.Live()
  {
    Absorbed(l, Act(maxAttempts, l.row, l.d, r))
  }

  function Absorbed(l: Local, e: Effect): Local {
    Local(e.row, e.next, if e.toRetry then l.retry + [l.d.body] else l.retry,
          if e.toDead then l.dead + [l.d.body] else l.dead, Counted(l.tally, e.event))
  }

  /** Where the machine is after n actions from l, the i-th call answering reply(i). */
  function Replay(maxAttempts: nat, l: Local, reply: nat -> Reply, n: nat): Local {
    if n == 0 then l
    else
      var l' := Replay(maxAttempts, l, reply, n - 1);
      if l'.d.Live() then Apply(maxAttempts, l', reply(n - 1)) else l'
  }

  /** Numbered local states, closed under the next action of the machine. */
  ghost predicate Closed(maxAttempts: nat, reply: nat -> Reply, path: iset<(nat, Local)>) {
    forall n, l :: (n, l) in path && l.d.Live() ==> (n + 1, Apply(maxAttempts, l, reply(n))) in path
  }

  lemma Advance(maxAttempts: nat, reply: nat -> Reply, path: iset<(nat, Local)>, n: nat, l: Local)
    requires Closed(maxAttempts, reply, path) && (n, l) in path && l.d.Live()
    ensures (n + 1, Apply(maxAttempts, l, reply(n))) in path
  {
  }

  ghost predicate OnPath(maxAttempts: nat, start: Local, reply: nat -> Reply, n: nat, l: Local) {
    l == Replay(maxAttempts, start, reply, n)
  }

  lemma PathIsClosed(maxAttempts: nat, start: Local, reply: nat -> Reply)
    ensures Closed(maxAttempts, reply, iset n: nat, l | OnPath(maxAttempts, start, reply, n, l) :: (n, l))
  {
    hide Act, Absorbed;
    forall n: nat, l | OnPath(maxAttempts, start, reply, n, l) && l.d.Live()
      ensures OnPath(maxAttempts, start, reply, n + 1, Apply(maxAttempts, l, reply(n)))
    {
    }
  }

  /** A local action is a Move of the machine, seen from the delivery that makes it. */
  lemma ApplyIsMove(maxAttempts: nat, s: State, d: nat, r: Reply)
    requires Valid(s) && Enabled(s, Move(d, r))
    ensures var b := s.ds[d].body; var s' := Moved(maxAttempts, s, d, r);
      var l := Apply(maxAttempts, Local(RowOf(s, b), s.ds[d], [], [], s.tally), r);
      && l.row == RowOf(s', b) && l.d == s'.ds[d] && l.tally == s'.tally
      && s'.retry == s.retry + multiset(l.retry) && s'.dead == s.dead + multiset(l.dead)
  {
    var e := Act(maxAttempts, RowOf(s, s.ds[d].body), s.ds[d], r);
    ActFrame(maxAttempts, RowOf(s, s.ds[d].body), s.ds[d], r);
    AbsorbedIsEnacted(s, d, e);
  }

  lemma AbsorbedIsEnacted(s: State, d: nat, e: Effect)
    requires d < |s.ds| && e.row.Some? == RowOf(s, s.ds[d].body).Some?
    ensures var b := s.ds[d].body; var s' := Enacted(s, d, e);
      var l := Absorbed(Local(RowOf(s, b), s.ds[d], [], [], s.tally), e);
      && l.row == RowOf(s', b) && l.d == s'.ds[d] && l.tally == s'.tally
      && s'.retry == s.retry + multiset(l.retry) && s'.dead == s.dead + multiset(l.dead)
  {
    assert [] + [s.ds[d].body] == [s.ds[d].body];
  }

  function RowIn(rows: seq<Row>, b: Body): Option<Row> {
    if b.For? && b.job < |rows| then Some(rows[b.job]) else None
  }

  /** How the marks of one Convert leave a job that was 'converting', its calls from c on answering
      as they do: the work is the third of five. */
  function LastMark(answer: nat -> Reply, c: nat): Status {
    if !(answer(c).Ok? && answer(c + 1).Ok? && answer(c + 3).Ok?) || answer(c + 4).Refused? then Converting
    else if answer(c + 2).Ok? then Converted
    else Failed
  }

  /** The work and all four marks answer. */
  predicate AllOk(answer: nat -> Reply, c: nat) {
    answer(c).Ok? && answer(c + 1).Ok? && answer(c + 2).Ok? && answer(c + 3).Ok? && answer(c + 4).Ok?
  }

  /** There is a row to claim, and this delivery may claim it: a 'queued' or 'failed' one, and a
      'converting' one only if the delivery is flagged. */
  predicate Available(rows: seq<Row>, body: Body, flagged: bool) {
    body.For? && body.job < |rows|
    && rows[body.job].status in (if flagged then {Queued, Failed, Converting} else {Queued, Failed})
  }

  /** What a delivery leaves behind: rows, queues and counters. */
  datatype Ledger = Ledger(rows: seq<Row>, retry: seq<Body>, dead: seq<Body>, tally: Tally)

  function Sent(body: Body, reply: Reply): seq<Body> {
    if reply.Refused? then [] else [body]
  }

  /** A claimed job of which Convert was called: a success when the work and every mark answer, the
      calls from 1 on; otherwise a failure, given up when attempts are spent, and put back and
      retried when not. */
  ghost predicate Settles(maxAttempts: nat, body: Body, attempts: nat, answer: nat -> Reply, last: nat, a: Ledger, b: Ledger)
    requires body.For?
  {
    body.job < |b.rows| &&
    if AllOk(answer, 1) then
      && b.rows[body.job] == Row(Converted, attempts) && b.retry == a.retry && b.dead == a.dead
      && b.tally == a.tally.(succeeded := a.tally.succeeded + 1)
    else if attempts >= maxAttempts then
      && last >= 1 && b.rows[body.job] == Row(LastMark(answer, 1), attempts)
      && b.dead == a.dead + Sent(body, answer(last - 1)) && b.retry == a.retry
      && b.tally == a.tally.(failed := a.tally.failed + 1, exhausted := a.tally.exhausted + 1)
    else
      && last >= 2
      && b.rows[body.job] == Row(if answer(last - 2).Refused? then LastMark(answer, 1) else Queued, attempts)
      && b.retry == a.retry + Sent(body, answer(last - 1)) && b.dead == a.dead
      && b.tally == a.tally.(failed := a.tally.failed + 1, retried := a.tally.retried + 1)
  }

  /** What a delivery does, outcome by outcome; last is the number of its calls before the ack. An undecodable
      message goes to the dead queue; a claim in error is parked and counted nowhere; a claim lost
      counts as skipped and changes nothing else; a claim won is converted. */
  ghost predicate Outcome(maxAttempts: nat, body: Body, flagged: bool, answer: nat -> Reply, last: nat, a: Ledger, b: Ledger) {
    if body.Malformed? then
      && b.rows == a.rows && b.retry == a.retry && b.dead == a.dead + Sent(body, answer(0))
      && b.tally == a.tally.(malformed := a.tally.malformed + 1)
    else if !answer(0).Ok? then
      && b.dead == a.dead && b.retry == a.retry + Sent(body, answer(1)) && b.tally == a.tally
      && (answer(0).Refused? || !Available(a.rows, body, flagged) ==> b.rows == a.rows)
      && (answer(0).Unheard? && Available(a.rows, body, flagged) ==>
            b.rows == a.rows[body.job := Row(Converting, a.rows[body.job].attempts + 1)])
    else if !Available(a.rows, body, flagged) then
      && b.rows == a.rows && b.retry == a.retry && b.dead == a.dead
      && b.tally == a.tally.(skipped := a.tally.skipped + 1)
    else
      Settles(maxAttempts, body, a.rows[body.job].attempts + 1, answer, last, a, b)
  }

  datatype Queue = RetryQueue | DeadQueue

  class Consumer {
    const maxAttempts: nat
    const claims: PgJobRepository

    var retry: seq<Body>
    var dead: seq<Body>
    var tally: Tally
    var acks: nat

    /** The environment: how the i-th call of the current delivery answers, and how many calls
        have been made. */
    var answer: nat -> Reply
    var calls: nat

    /** Where those calls have brought the delivery, and the states it may be in. */
    ghost var at: Delivery
    ghost var path: iset<(nat, Local)>

    constructor (maxAttempts: nat, claims: PgJobRepository)
      ensures this.maxAttempts == maxAttempts && this.claims == claims
      ensures retry == [] && dead == [] && acks == 0 && tally == INIT.tally
    {
      this.maxAttempts, this.claims := maxAttempts, claims;
      retry, dead, acks, tally := [], [], 0, INIT.tally;
      answer, calls := _ => Ok, 0;
      at, path := Delivery(Malformed, false, Gone, 0, false), iset{};
    }

    ghost function View(): Local
      reads this, claims
    {
      Local(RowIn(claims.rows, at.body), at, retry, dead, tally)
    }

    ghost function Books(): Ledger
      reads this, claims
    {
      Ledger(claims.rows, retry, dead, tally)
    }

    /** The calls made so far are a path of the machine, once the counter owed for the last of
        them has been bumped. */
    ghost predicate OnTrack(owed: Event)
      reads this, claims
    {
      Closed(maxAttempts, answer, path) && (calls, View().(tally := Counted(tally, owed))) in path
    }

    ghost predicate OthersKept(rows: seq<Row>, b: Body)
      reads claims
    {
      |claims.rows| == |rows| && forall j :: 0 <= j < |rows| && b != For(j) ==> claims.rows[j] == rows[j]
    }

    /** publishTo: a failure is logged, never returned. */
    method PublishTo(queue: Queue, body: Body, r: Reply)
      modifies this`retry, this`dead
      ensures retry == if queue.RetryQueue? && !r.Refused? then old(retry) + [body] else old(retry)
      ensures dead == if queue.DeadQueue? && !r.Refused? then old(dead) + [body] else old(dead)
    {
      if r.Applied() {
        match queue
        case RetryQueue => retry := retry + [body];
        case DeadQueue => dead := dead + [body];
      }
    }

    method Ack()
      requires OnTrack(Quiet) && at.pc.Acking?
      modifies this`acks, this`calls, this`at
      ensures OnTrack(Quiet) && acks == old(acks) + 1 && at == old(at).(pc := Gone) && calls == old(calls) + 1
    {
      Advance(maxAttempts, answer, path, calls, View());
      acks := acks + 1;
      calls, at := calls + 1, at.(pc := Gone);
    }

    /** The message does not decode: nothing names a job, so it is set aside as it is. */
    method Discard()
      requires OnTrack(Quiet) && at.pc.Received? && at.body.Malformed?
      modifies this`retry, this`dead, this`tally, this`calls, this`at
      ensures OnTrack(Quiet) && at == old(at).(pc := Acking) && calls == old(calls) + 1
      ensures tally == old(tally).(malformed := old(tally.malformed) + 1) && retry == old(retry)
      ensures dead == old(dead) + (if answer(old(calls)).Refused? then [] else [Malformed])
    {
      Advance(maxAttempts, answer, path, calls, View());
      PublishTo(DeadQueue, Malformed, answer(calls));
      tally := tally.(malformed := tally.malformed + 1);
      calls, at := calls + 1, at.(pc := Acking);
    }

    method Claim(body: Body, flagged: bool) returns (attempts: nat, claimed: bool, err: bool)
      requires OnTrack(Quiet) && !body.Malformed?
      requires at == Delivery(body, flagged, Received, 0, false)
      modifies this`tally, this`calls, this`at, claims
      ensures OnTrack(Quiet) && OthersKept(old(claims.rows), body)
      ensures claimed ==> body.For? && !err
      ensures calls == old(calls) + 1 && (err <==> !answer(old(calls)).Ok?)
      ensures claimed <==> answer(old(calls)).Ok? && Available(old(claims.rows), body, flagged)
      ensures claimed ==> attempts == old(claims.rows)[body.job].attempts + 1
      ensures claimed ==> claims.rows[body.job] == Row(Converting, attempts)
      ensures err && !(answer(old(calls)).Unheard? && Available(old(claims.rows), body, flagged)) ==>
        claims.rows == old(claims.rows)
      ensures answer(old(calls)).Unheard? && Available(old(claims.rows), body, flagged) ==>
        claims.rows == old(claims.rows)[body.job := Row(Converting, old(claims.rows)[body.job].attempts + 1)]
      ensures !claimed && !err ==> claims.rows == old(claims.rows)
      ensures tally == if err || claimed then old(tally) else old(tally).(skipped := old(tally.skipped) + 1)
      ensures at == Delivery(body, flagged,
        if err then ParkPublish else if claimed then MarkFileConverting else Acking, attempts, false)
    {
      Advance(maxAttempts, answer, path, calls, View());
      attempts, claimed, err := claims.Claim(if body.For? then body.job else |claims.rows|, flagged, answer(calls));
      if !err && !claimed { tally := tally.(skipped := tally.skipped + 1); }
      calls, at := calls + 1, Delivery(body, flagged,
        if err then ParkPublish else if claimed then MarkFileConverting else Acking, attempts, false);
    }

    /** The claim returned an error: park the message on the retry queue. */
    method Park(body: Body)
      requires OnTrack(Quiet) && at.pc.ParkPublish? && at.body == body
      modifies this`retry, this`dead, this`calls, this`at
      ensures OnTrack(Quiet) && at == old(at).(pc := Acking) && calls == old(calls) + 1
      ensures retry == old(retry) + (if answer(old(calls)).Refused? then [] else [body]) && dead == old(dead)
    {
      Advance(maxAttempts, answer, path, calls, View());
      PublishTo(RetryQueue, body, answer(calls));
      calls, at := calls + 1, at.(pc := Acking);
    }

    /** files.UpdateStatus inside Convert: only whether it answers matters to the job. */
    method MarkFile() returns (err: bool)
      requires OnTrack(Quiet)
      requires at.pc.MarkFileConverting? || at.pc.MarkFileFailed? || at.pc.MarkFileConverted?
      modifies this`calls, this`at
      ensures OnTrack(if err then RunFailed else Quiet)
      ensures calls == old(calls) + 1 && (err <==> !answer(old(calls)).Ok?)
      ensures at == old(at).(pc := at.pc)
      ensures at.pc == if err then (if at.attempts >= maxAttempts then DeadPublish else Requeueing)
                       else if old(at.pc).MarkFileConverting? then MarkJobConverting
                       else if old(at.pc).MarkFileFailed? then MarkJobFailed else MarkJobConverted
    {
      Advance(maxAttempts, answer, path, calls, View());
      err := !answer(calls).Ok?;
      at := Act(maxAttempts, View().row, at, answer(calls)).next;
      calls := calls + 1;
    }

    /** BundleConverter.convert, of which the job sees only success or failure. */
    method Work() returns (err: bool)
      requires OnTrack(Quiet) && at.pc.Work?
      modifies this`calls, this`at
      ensures OnTrack(Quiet)
      ensures calls == old(calls) + 1 && (err <==> !answer(old(calls)).Ok?)
      ensures at == old(at).(pc := if err then MarkFileFailed else MarkFileConverted)
    {
      Advance(maxAttempts, answer, path, calls, View());
      err := !answer(calls).Ok?;
      calls, at := calls + 1, at.(pc := if err then MarkFileFailed else MarkFileConverted);
    }

    /** jobs.UpdateStatus inside Convert. */
    method MarkJob(job: nat, status: Status) returns (err: bool)
      requires OnTrack(Quiet) && at.body == For(job)
      requires match status
        case Converting => at.pc.MarkJobConverting?
        case Failed => at.pc.MarkJobFailed?
        case Converted => at.pc.MarkJobConverted?
        case Queued => false
      modifies this`calls, this`at, claims
      ensures OnTrack(if err || status == Failed then RunFailed
                      else if status == Converted then Succeeded else Quiet)
      ensures at == old(at).(pc := at.pc) && OthersKept(old(claims.rows), For(job))
      ensures calls == old(calls) + 1 && (err <==> !answer(old(calls)).Ok?)
      ensures job < |claims.rows| ==>
        claims.rows[job] == if answer(old(calls)).Refused? then old(claims.rows)[job] else Row(status, old(claims.rows)[job].attempts)
      ensures at.pc == if err || status == Failed then (if at.attempts >= maxAttempts then DeadPublish else Requeueing)
                       else if status == Converted then Acking else Pc.Work
    {
      Advance(maxAttempts, answer, path, calls, View());
      ghost var next := Act(maxAttempts, View().row, at, answer(calls)).next;
      err := claims.UpdateStatus(job, status, answer(calls));
      calls, at := calls + 1, next;
    }

    /** Convert, statement by statement: it succeeds when the work and all four marks answer, and a
        failure leaves the row at its last mark that took effect. */
    method Convert(job: nat) returns (err: bool)
      requires OnTrack(Quiet) && at.pc.MarkFileConverting? && at.body == For(job)
      modifies this`calls, this`at, claims
      ensures OnTrack(if err then RunFailed else Succeeded)
      ensures at == old(at).(pc := at.pc) && OthersKept(old(claims.rows), For(job))
      ensures at.pc == if !err then Acking else if at.attempts >= maxAttempts then DeadPublish else Requeueing
      ensures !err <==> AllOk(answer, old(calls))
      ensures !err ==> calls == old(calls) + 5
      ensures job < |claims.rows| && old(claims.rows)[job].status == Converting ==>
        claims.rows[job] == Row(LastMark(answer, old(calls)), old(claims.rows)[job].attempts)
    {
      hide OnTrack, Act, View;
      err := MarkFile();
      if err { return; }
      err := MarkJob(job, Converting);
      if err { return; }

      var failed := Work();
      if failed {
        err := MarkFile();
        if err { return; }
        var _ := MarkJob(job, Failed);
        return true;
      }

      err := MarkFile();
      if err { return; }
      err := MarkJob(job, Converted);
    }

    method GiveUp(job: nat)
      requires OnTrack(Quiet) && at.body == For(job) && at.pc.DeadPublish?
      modifies this`retry, this`dead, this`tally, this`calls, this`at
      ensures OnTrack(Quiet) && at == old(at).(pc := Acking) && calls == old(calls) + 1
      ensures tally == old(tally).(exhausted := old(tally.exhausted) + 1) && retry == old(retry)
      ensures dead == old(dead) + (if answer(old(calls)).Refused? then [] else [For(job)])
    {
      Advance(maxAttempts, answer, path, calls, View());
      PublishTo(DeadQueue, For(job), answer(calls));
      tally := tally.(exhausted := tally.exhausted + 1);
      calls, at := calls + 1, at.(pc := Acking);
    }

    /** An error here is logged, and the retry scheduled regardless. */
    method PutBack(job: nat)
      requires OnTrack(Quiet) && at.body == For(job) && at.pc.Requeueing?
      modifies this`calls, this`at, claims
      ensures OnTrack(Quiet) && at == old(at).(pc := RetryPublish) && OthersKept(old(claims.rows), For(job))
      ensures calls == old(calls) + 1
      ensures job < |claims.rows| ==>
        claims.rows[job] == if answer(old(calls)).Refused? then old(claims.rows)[job] else Row(Queued, old(claims.rows)[job].attempts)
    {
      Advance(maxAttempts, answer, path, calls, View());
      var _ := claims.Requeue(job, answer(calls));
      calls, at := calls + 1, at.(pc := RetryPublish);
    }

    method ScheduleRetry(job: nat)
      requires OnTrack(Quiet) && at.body == For(job) && at.pc.RetryPublish?
      modifies this`retry, this`dead, this`tally, this`calls, this`at
      ensures OnTrack(Quiet) && at == old(at).(pc := Acking) && calls == old(calls) + 1
      ensures tally == old(tally).(retried := old(tally.retried) + 1) && dead == old(dead)
      ensures retry == old(retry) + (if answer(old(calls)).Refused? then [] else [For(job)])
    {
      Advance(maxAttempts, answer, path, calls, View());
      PublishTo(RetryQueue, For(job), answer(calls));
      tally := tally.(retried := tally.retried + 1);
      calls, at := calls + 1, at.(pc := Acking);
    }

    method HandleFailure(job: nat, attempts: nat)
      requires OnTrack(Quiet) && at.body == For(job) && at.attempts == attempts
      requires at.pc == if attempts >= maxAttempts then DeadPublish else Requeueing
      modifies this`retry, this`dead, this`tally, this`calls, this`at, claims
      ensures OnTrack(Quiet) && at == old(at).(pc := Acking) && OthersKept(old(claims.rows), For(job))
      ensures attempts >= maxAttempts ==> (
        && calls == old(calls) + 1 && claims.rows == old(claims.rows)
        && tally == old(tally).(exhausted := old(tally.exhausted) + 1) && retry == old(retry)
        && dead == old(dead) + (if answer(old(calls)).Refused? then [] else [For(job)]))
      ensures attempts < maxAttempts ==> (
        && calls == old(calls) + 2
        && (job < |claims.rows| ==>
              claims.rows[job] == if answer(old(calls)).Refused? then old(claims.rows)[job] else Row(Queued, old(claims.rows)[job].attempts))
        && tally == old(tally).(retried := old(tally.retried) + 1) && dead == old(dead)
        && retry == old(retry) + (if answer(old(calls) + 1).Refused? then [] else [For(job)]))
    {
      if attempts >= maxAttempts {
        GiveUp(job);
        return;
      }
      PutBack(job);
      ScheduleRetry(job);
    }

    /** JobsProcessedTotal. */
    method CountProcessed(success: bool)
      requires OnTrack(if success then Succeeded else RunFailed)
      modifies this`tally
      ensures OnTrack(Quiet)
      ensures success ==> tally == old(tally).(succeeded := old(tally.succeeded) + 1)
      ensures !success ==> tally == old(tally).(failed := old(tally.failed) + 1)
    {
      hide Closed, RowIn;
      if success {
        tally := tally.(succeeded := tally.succeeded + 1);
      } else {
        tally := tally.(failed := tally.failed + 1);
      }
    }

    /** The rest of process once the claim is won: Convert, and what a failure costs. */
    method Attempt(job: nat, attempts: nat)
      requires OnTrack(Quiet) && at.pc.MarkFileConverting? && at.body == For(job) && at.attempts == attempts && calls == 1
      requires job < |claims.rows| && claims.rows[job] == Row(Converting, attempts)
      modifies this`retry, this`dead, this`tally, this`calls, this`at, claims
      ensures OnTrack(Quiet) && at == old(at).(pc := Acking) && OthersKept(old(claims.rows), For(job))
      ensures Settles(maxAttempts, For(job), attempts, answer, calls, old(Books()), Books())
    {
      hide OnTrack, Act, View;
      var convErr := Convert(job);
      CountProcessed(!convErr);
      if !convErr { return; }
      HandleFailure(job, attempts);
    }

    /** process, whatever set of states contains its path. */
    method ProcessWithin(body: Body, flagged: bool)
      requires OnTrack(Quiet) && at == Delivery(body, flagged, Received, 0, false) && calls == 0
      modifies this`retry, this`dead, this`tally, this`acks, this`calls, this`at, claims
      ensures OnTrack(Quiet) && at.pc.Gone? && acks == old(acks) + 1
      ensures OthersKept(old(claims.rows), body)
      ensures calls > 0 && Outcome(maxAttempts, body, flagged, answer, calls - 1, old(Books()), Books())
    {
      hide OnTrack, Act, View, LastMark, AllOk;
      if body.Malformed? {
        Discard();
        Ack();
        return;
      }

      var attempts, claimed, err := Claim(body, flagged);
      if err {
        Park(body);
        Ack();
        return;
      }
      if !claimed {
        Ack();
        return;
      }

      Attempt(body.job, attempts);
      Ack();
    }

    /** process: whatever the calls answer, the delivery is acked exactly once and no other job's row
        is touched. Outcome says what became of it, case by case; and row, queues and counters end
        where the machine ends when it is given the same answers in the same order. */
    method Process(body: Body, flagged: bool, answers: nat -> Reply)
      modifies this, claims
      ensures acks == old(acks) + 1 && at.pc.Gone?
      ensures OthersKept(old(claims.rows), body)
      ensures View() == Replay(maxAttempts,
        Local(RowIn(old(claims.rows), body), Delivery(body, flagged, Received, 0, false),
              old(retry), old(dead), old(tally)), answers, calls)
      ensures calls > 0 && Outcome(maxAttempts, body, flagged, answers, calls - 1, old(Books()), Books())
    {
      answer, calls := answers, 0;
      at := Delivery(body, flagged, Received, 0, false);
      ghost var start := View();
      path := iset n: nat, l | OnPath(maxAttempts, start, answers, n, l) :: (n, l);
      PathIsClosed(maxAttempts, start, answers);
      hide Act;
      ProcessWithin(body, flagged);
    }
  }
}
