/**
 The counters of the consumer against the history of the jobs: what a worker counts is what
 happened to some job, in every run and whatever fails.
 */
module ProtocolHistory {
  import opened Wrappers
  import opened JobTable
  import opened Protocol
  import opened ProtocolLedger
  import opened Sums

  function Won(): Job -> nat { (j: Job) => j.won }

  function Retried(): Job -> nat { (j: Job) => j.retried }

  /** A delivery whose claim of the job was heard. */
  function Claimed(job: nat): Delivery -> nat {
    (d: Delivery) => if d.Names(job) && d.attempts > 0 then 1 else 0
  }

  ghost predicate StartsCounted(s: State) {
    forall job: nat :: job < |s.jobs| ==> s.jobs[job].started == Total(s.ds, Claimed(job))
  }

  ghost predicate Kept(maxAttempts: nat, s: State) {
    && Valid(s) && AttemptsInRange(maxAttempts, s)
    && s.tally.succeeded == Total(s.jobs, Won()) && s.tally.retried == Total(s.jobs, Retried())
    && StartsCounted(s)
  }

  /** What an action may count, and for whom. */
  lemma ActCounts(maxAttempts: nat, row: Option<Row>, d: Delivery, reply: Reply)
    requires d.Live()
    ensures var e := Act(maxAttempts, row, d, reply);
      && (e.event.Succeeded? ==> d.pc.MarkJobConverted?) && (e.event.RetryScheduled? ==> d.pc.RetryPublish?)
      && (e.event.Started? <==> e.next.attempts != d.attempts || (d.pc.Received? && e.next.pc.MarkFileConverting?))
      && (e.event.Started? ==> d.pc.Received? && row.Some? && e.next.attempts > 0)
  {
  }

  lemma RowIs(s: State, b: Body)
    ensures RowOf(s, b).Some? <==> b.For? && b.job < |s.jobs|
    ensures RowOf(s, b).Some? ==> RowOf(s, b).value == s.jobs[b.job].row
  {
  }

  lemma MoveCountsSums(maxAttempts: nat, s: State, d: nat, reply: Reply)
    requires Kept(maxAttempts, s) && Enabled(s, Move(d, reply))
    ensures var s' := Moved(maxAttempts, s, d, reply);
      s'.tally.succeeded == Total(s'.jobs, Won()) && s'.tally.retried == Total(s'.jobs, Retried())
  {
    hide Act, StartsCounted, RowOf, Total;
    var b := s.ds[d].body;
    var row := RowOf(s, b);
    var e := Act(maxAttempts, row, s.ds[d], reply);
    ActCounts(maxAttempts, row, s.ds[d], reply);
    ActFrame(maxAttempts, row, s.ds[d], reply);
    RowIs(s, b);
    InRange(maxAttempts, s, d);
    assert Fits(b, |s.jobs|) && ((s.ds[d].Holding() || s.ds[d].attempts > 0) ==> b.For?);
    hide Valid, AttemptsInRange;
    if row.Some? {
      var j := Recorded(s.jobs[b.job].(row := e.row.value), e.event);
      TotalUpdate(s.jobs, b.job, j, Won());
      TotalUpdate(s.jobs, b.job, j, Retried());
    }
  }

  lemma MoveCountsStarts(maxAttempts: nat, s: State, d: nat, reply: Reply, job: nat)
    requires Kept(maxAttempts, s) && Enabled(s, Move(d, reply)) && job < |s.jobs|
    ensures var s' := Moved(maxAttempts, s, d, reply);
      job < |s'.jobs| && s'.jobs[job].started == Total(s'.ds, Claimed(job))
  {
    var b := s.ds[d].body;
    var row := RowOf(s, b);
    var e := Act(maxAttempts, row, s.ds[d], reply);
    ActCounts(maxAttempts, row, s.ds[d], reply);
    ActFrame(maxAttempts, row, s.ds[d], reply);
    assert s.ds[d].pc.Received? ==> s.ds[d].attempts == 0;
    MoveCopies(maxAttempts, s, d, reply, job);
    hide Act, Valid, AttemptsInRange;
    TotalUpdate(s.ds, d, e.next, Claimed(job));
  }

  lemma HistoryMove(maxAttempts: nat, s: State, d: nat, reply: Reply)
    requires Kept(maxAttempts, s) && Enabled(s, Move(d, reply))
    ensures Kept(maxAttempts, Moved(maxAttempts, s, d, reply))
  {
    ValidNext(maxAttempts, s, Move(d, reply));
    MoveKeepsRange(maxAttempts, s, d, reply);
    MoveCountsSums(maxAttempts, s, d, reply);
    hide Valid, AttemptsInRange, Act;
    var s' := Moved(maxAttempts, s, d, reply);
    forall job: nat | job < |s'.jobs| ensures s'.jobs[job].started == Total(s'.ds, Claimed(job)) {
      MoveCountsStarts(maxAttempts, s, d, reply, job);
    }
  }

  lemma HistoryArrival(maxAttempts: nat, s: State, l: Label)
    requires Kept(maxAttempts, s) && Enabled(s, l) && !l.Move? && !l.Lose? && !l.Crash?
    ensures Kept(maxAttempts, Next(maxAttempts, s, l))
  {
    ValidNext(maxAttempts, s, l);
    EnvironmentAttempts(maxAttempts, s, l);
    var s' := Next(maxAttempts, s, l);
    match l
    case Create =>
      TotalAppend(s.jobs, Job(FRESH, 0, 0, 0, 0, 0), Won());
      TotalAppend(s.jobs, Job(FRESH, 0, 0, 0, 0, 0), Retried());
      NobodyYet(s);
    case Publish(b) =>
      if b.For? {
        TotalUpdate(s.jobs, b.job, s'.jobs[b.job], Won());
        TotalUpdate(s.jobs, b.job, s'.jobs[b.job], Retried());
      }
    case Deliver(c) =>
      forall job: nat ensures Total(s'.ds, Claimed(job)) == Total(s.ds, Claimed(job)) {
        TotalAppend(s.ds, Delivery(c.body, c.flagged, Received, 0, false), Claimed(job));
      }
    case _ =>
  }

  lemma NobodyYet(s: State)
    requires Valid(s)
    ensures Total(s.ds, Claimed(|s.jobs|)) == 0
  {
    forall i | 0 <= i < |s.ds| ensures !s.ds[i].Names(|s.jobs|) {
      assert Fits(s.ds[i].body, |s.jobs|);
    }
    TotalZero(s.ds, Claimed(|s.jobs|));
  }

  lemma HistoryLoss(maxAttempts: nat, s: State, l: Label)
    requires Kept(maxAttempts, s) && Enabled(s, l) && (l.Lose? || l.Crash?)
    ensures Kept(maxAttempts, Next(maxAttempts, s, l))
  {
    ValidNext(maxAttempts, s, l);
    EnvironmentAttempts(maxAttempts, s, l);
    LossKeepsSums(maxAttempts, s, l);
    hide Valid, AttemptsInRange, Moved;
    var s' := Next(maxAttempts, s, l);
    forall job: nat ensures Total(s'.ds, Claimed(job)) == Total(s.ds, Claimed(job)) {
      TotalUpdate(s.ds, l.d, s'.ds[l.d], Claimed(job));
    }
  }

  lemma LossKeepsSums(maxAttempts: nat, s: State, l: Label)
    requires Enabled(s, l) && (l.Lose? || l.Crash?)
    ensures var s' := Next(maxAttempts, s, l);
      Total(s'.jobs, Won()) == Total(s.jobs, Won()) && Total(s'.jobs, Retried()) == Total(s.jobs, Retried())
  {
    hide Moved;
    var s' := Next(maxAttempts, s, l);
    var b := s.ds[l.d].body;
    if b.For? && b.job < |s.jobs| {
      TotalUpdate(s.jobs, b.job, s'.jobs[b.job], Won());
      TotalUpdate(s.jobs, b.job, s'.jobs[b.job], Retried());
    }
  }

  lemma HistoryStep(maxAttempts: nat, s: State, l: Label)
    requires Kept(maxAttempts, s) && Enabled(s, l)
    ensures Kept(maxAttempts, Next(maxAttempts, s, l))
  {
    hide Kept, Moved, Taken;
    if l.Move? { HistoryMove(maxAttempts, s, l.d, l.reply); }
    else if l.Lose? || l.Crash? { HistoryLoss(maxAttempts, s, l); }
    else { HistoryArrival(maxAttempts, s, l); }
  }

  /** A job's copies are counted when the API publishes one and when the broker takes one back: from a
      lost session, or from a dead worker that had not lost it before. */
  lemma CopiesCounted(maxAttempts: nat, s: State, l: Label, job: nat)
    requires Valid(s) && Enabled(s, l) && job < |s.jobs|
    ensures job < |Next(maxAttempts, s, l).jobs|
    ensures Next(maxAttempts, s, l).jobs[job].published
      == s.jobs[job].published + (if l == Publish(For(job)) then 1 else 0)
    ensures Next(maxAttempts, s, l).jobs[job].redelivered
      == s.jobs[job].redelivered
         + (if (l.Lose? || l.Crash?) && s.ds[l.d].body == For(job) && !s.ds[l.d].lost then 1 else 0)
  {
    hide Act, Valid;
    if l.Move? { ActFrame(maxAttempts, RowOf(s, s.ds[l.d].body), s.ds[l.d], l.reply); }
  }

  lemma {:induction false} HistoryRun(maxAttempts: nat, s: State, ls: seq<Label>)
    requires Kept(maxAttempts, s) && Admits(maxAttempts, NOTHING, s, ls)
    ensures Kept(maxAttempts, After(maxAttempts, NOTHING, s, ls))
    decreases |ls|
  {
    hide Kept, Next;
    if ls != [] {
      HistoryStep(maxAttempts, s, ls[0]);
      HistoryRun(maxAttempts, Next(maxAttempts, s, ls[0]), ls[1..]);
    }
  }

  /** In every reachable state, the successes counted are those of the jobs, the retries counted
      are those scheduled for them, and a job's Convert calls are the deliveries that claimed it. */
  lemma CountersAreHistory(maxAttempts: nat, ls: seq<Label>)
    requires Admits(maxAttempts, NOTHING, INIT, ls)
    ensures var s := After(maxAttempts, NOTHING, INIT, ls);
      && s.tally.succeeded == Total(s.jobs, Won()) && s.tally.retried == Total(s.jobs, Retried())
      && forall job: nat :: job < |s.jobs| ==> s.jobs[job].started == Total(s.ds, Claimed(job))
  {
    HistoryRun(maxAttempts, INIT, ls);
  }
}
