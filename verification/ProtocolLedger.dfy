/**
 Counting arguments over every run: the retry ledger (no assumption on faults), message
 conservation (no crashes, publishes land) and termination.
 */
module ProtocolLedger {
  import opened Wrappers
  import opened JobTable
  import opened Protocol
  import opened Sums

  // ---------------------------------------------------------------------------
  // The retry ledger
  // ---------------------------------------------------------------------------

  /** A live attempt that may still schedule a failure retry for the job. */
  function Owes(maxAttempts: nat, job: nat): Delivery -> nat {
    (d: Delivery) =>
      if d.Names(job) && (d.Holding() || d.pc.RetryPublish?) && 0 < d.attempts < maxAttempts then 1 else 0
  }

  /** A live delivery of the job that has not settled its claim. */
  function Waiting(job: nat): Delivery -> nat {
    (d: Delivery) => if d.Names(job) && (d.pc.Received? || d.pc.ParkPublish?) then 1 else 0
  }

  /** Retries the first `attempts` claims can have paid for. */
  function Afforded(maxAttempts: nat, attempts: nat): nat {
    if attempts < maxAttempts then attempts else if maxAttempts == 0 then 0 else maxAttempts - 1
  }

  function CopiesOf(s: State, job: nat): nat {
    s.main[Copy(For(job), false)] + s.main[Copy(For(job), true)] + s.retry[For(job)]
  }

  ghost predicate AttemptsInRange(maxAttempts: nat, s: State) {
    forall d :: 0 <= d < |s.ds| ==>
      && (s.ds[d].Holding() ==> s.ds[d].attempts > 0)
      && (s.ds[d].pc.Requeueing? || s.ds[d].pc.RetryPublish? ==> 0 < s.ds[d].attempts < maxAttempts)
  }

  ghost predicate RetriesPaid(maxAttempts: nat, j: Job, ds: seq<Delivery>, job: nat) {
    j.retried + Total(ds, Owes(maxAttempts, job)) <= Afforded(maxAttempts, j.row.attempts)
  }

  ghost predicate StartsPaid(j: Job, copies: nat, ds: seq<Delivery>, job: nat) {
    j.started + copies + Total(ds, Waiting(job)) <= j.published + j.redelivered + j.retried
  }

  ghost predicate Balanced(maxAttempts: nat, s: State, job: nat)
    requires job < |s.jobs|
  {
    && RetriesPaid(maxAttempts, s.jobs[job], s.ds, job)
    && StartsPaid(s.jobs[job], CopiesOf(s, job), s.ds, job)
  }

  ghost predicate Ledger(maxAttempts: nat, s: State) {
    && Valid(s) && AttemptsInRange(maxAttempts, s)
    && (forall job: nat :: job < |s.jobs| ==> Balanced(maxAttempts, s, job))
  }

  /** An action's retry is paid for by the claim that made it possible. */
  lemma ActPaysRetries(maxAttempts: nat, row: Option<Row>, d: Delivery, reply: Reply, job: nat)
    requires d.Live() && d.Names(job) && row.Some?
    requires d.Holding() ==> d.attempts > 0
    requires d.pc.Requeueing? || d.pc.RetryPublish? ==> 0 < d.attempts < maxAttempts
    ensures var e := Act(maxAttempts, row, d, reply);
      && e.next.Names(job) && e.row.Some?
      && (if e.event.RetryScheduled? then 1 else 0) + Owes(maxAttempts, job)(e.next) + Afforded(maxAttempts, row.value.attempts)
         <= Owes(maxAttempts, job)(d) + Afforded(maxAttempts, e.row.value.attempts)
  {
  }

  /** A call of Convert, and a message put back, use up a copy that had not claimed or a retry. */
  lemma ActPaysStarts(maxAttempts: nat, row: Option<Row>, d: Delivery, reply: Reply, job: nat)
    requires d.Live() && d.Names(job)
    ensures var e := Act(maxAttempts, row, d, reply);
      (if e.event.Started? then 1 else 0) + (if e.toRetry then 1 else 0) + Waiting(job)(e.next)
      <= Waiting(job)(d) + (if e.event.RetryScheduled? then 1 else 0)
  {
  }

  lemma MoveCopies(maxAttempts: nat, s: State, d: nat, reply: Reply, job: nat)
    requires Valid(s) && Enabled(s, Move(d, reply)) && job < |s.jobs|
    ensures var b := s.ds[d].body;
      var e := Act(maxAttempts, RowOf(s, b), s.ds[d], reply);
      var s' := Moved(maxAttempts, s, d, reply);
      && CopiesOf(s', job) == CopiesOf(s, job) + (if e.toRetry && b == For(job) then 1 else 0)
      && s'.jobs[job] == (if b == For(job) then Recorded(s.jobs[job].(row := e.row.value), e.event) else s.jobs[job])
  {
    ActFrame(maxAttempts, RowOf(s, s.ds[d].body), s.ds[d], reply);
  }

  lemma InRange(maxAttempts: nat, s: State, d: nat)
    requires AttemptsInRange(maxAttempts, s) && d < |s.ds|
    ensures s.ds[d].Holding() ==> s.ds[d].attempts > 0
    ensures s.ds[d].pc.Requeueing? || s.ds[d].pc.RetryPublish? ==> 0 < s.ds[d].attempts < maxAttempts
  {
  }

  lemma MoveBalances(maxAttempts: nat, s: State, d: nat, reply: Reply, job: nat)
    requires Ledger(maxAttempts, s) && Enabled(s, Move(d, reply)) && job < |s.jobs|
    ensures Balanced(maxAttempts, Moved(maxAttempts, s, d, reply), job)
  {
    hide Act, CopiesOf, Valid, AttemptsInRange;
    var b := s.ds[d].body;
    var e := Act(maxAttempts, RowOf(s, b), s.ds[d], reply);
    assert AttemptsInRange(maxAttempts, s) && Balanced(maxAttempts, s, job);
    InRange(maxAttempts, s, d);
    MoveCopies(maxAttempts, s, d, reply, job);
    TotalUpdate(s.ds, d, e.next, Owes(maxAttempts, job));
    TotalUpdate(s.ds, d, e.next, Waiting(job));
    if b == For(job) {
      ActPaysRetries(maxAttempts, RowOf(s, b), s.ds[d], reply, job);
      ActPaysStarts(maxAttempts, RowOf(s, b), s.ds[d], reply, job);
    } else {
      ActFrame(maxAttempts, RowOf(s, b), s.ds[d], reply);
    }
  }

  lemma ActRange(maxAttempts: nat, row: Option<Row>, d: Delivery, reply: Reply)
    requires d.Live() && (d.Holding() ==> d.attempts > 0)
    requires d.pc.Requeueing? || d.pc.RetryPublish? ==> 0 < d.attempts < maxAttempts
    ensures var e := Act(maxAttempts, row, d, reply).next;
      && (e.Holding() ==> e.attempts > 0)
      && (e.pc.Requeueing? || e.pc.RetryPublish? ==> 0 < e.attempts < maxAttempts)
      && (e.pc.Received? ==> d.pc.Received?)
  {
  }

  lemma MoveKeepsRange(maxAttempts: nat, s: State, d: nat, reply: Reply)
    requires AttemptsInRange(maxAttempts, s) && Enabled(s, Move(d, reply))
    ensures AttemptsInRange(maxAttempts, Moved(maxAttempts, s, d, reply))
  {
    hide Act;
    var s' := Moved(maxAttempts, s, d, reply);
    ActRange(maxAttempts, RowOf(s, s.ds[d].body), s.ds[d], reply);
    assert forall e :: 0 <= e < |s.ds| && e != d ==> s'.ds[e] == s.ds[e];
  }

  lemma MoveKeepsLedger(maxAttempts: nat, s: State, d: nat, reply: Reply)
    requires Ledger(maxAttempts, s) && Enabled(s, Move(d, reply))
    ensures Ledger(maxAttempts, Moved(maxAttempts, s, d, reply))
  {
    hide Act, Balanced, AttemptsInRange, Valid;
    var s' := Moved(maxAttempts, s, d, reply);
    ValidNext(maxAttempts, s, Move(d, reply));
    forall job: nat | job < |s'.jobs|
      ensures Balanced(maxAttempts, s', job)
    {
      MoveBalances(maxAttempts, s, d, reply, job);
    }
    MoveKeepsRange(maxAttempts, s, d, reply);
  }

  lemma FreshJobBalances(maxAttempts: nat, s: State)
    requires Ledger(maxAttempts, s)
    ensures Balanced(maxAttempts, Next(maxAttempts, s, Create), |s.jobs|)
  {
    var job := |s.jobs|;
    assert !Fits(For(job), job);
    assert Copy(For(job), false) !in s.main && Copy(For(job), true) !in s.main && For(job) !in s.retry;
    forall i | 0 <= i < |s.ds| ensures !s.ds[i].Names(job) {
      assert Fits(s.ds[i].body, job);
    }
    TotalZero(s.ds, Owes(maxAttempts, job));
    TotalZero(s.ds, Waiting(job));
  }

  lemma TakenBalances(maxAttempts: nat, s: State, d: nat, next: Delivery, lost: bool, job: nat)
    requires Ledger(maxAttempts, s) && d < |s.ds| && job < |s.jobs|
    requires next == s.ds[d].(pc := Gone) || (next == s.ds[d].(lost := true) && !lost)
    ensures Balanced(maxAttempts, (if lost then s else Taken(s, d)).(ds := s.ds[d := next]), job)
  {
    assert Balanced(maxAttempts, s, job);
    TotalUpdate(s.ds, d, next, Owes(maxAttempts, job));
    TotalUpdate(s.ds, d, next, Waiting(job));
  }

  lemma DeliveryBalances(maxAttempts: nat, s: State, c: Copy, job: nat)
    requires Ledger(maxAttempts, s) && c in s.main && job < |s.jobs|
    ensures Balanced(maxAttempts, Next(maxAttempts, s, Deliver(c)), job)
  {
    assert Balanced(maxAttempts, s, job);
    var d := Delivery(c.body, c.flagged, Received, 0, false);
    TotalAppend(s.ds, d, Owes(maxAttempts, job));
    TotalAppend(s.ds, d, Waiting(job));
  }

  lemma EnvironmentBalances(maxAttempts: nat, s: State, l: Label, job: nat)
    requires Ledger(maxAttempts, s) && Enabled(s, l) && !l.Move? && job < |s.jobs|
    ensures Balanced(maxAttempts, Next(maxAttempts, s, l), job)
  {
    if l.Deliver? {
      DeliveryBalances(maxAttempts, s, l.copy, job);
    } else if l.Lose? {
      TakenBalances(maxAttempts, s, l.d, s.ds[l.d].(lost := true), false, job);
    } else if l.Crash? {
      TakenBalances(maxAttempts, s, l.d, s.ds[l.d].(pc := Gone), s.ds[l.d].lost, job);
    } else {
      assert Balanced(maxAttempts, s, job);
    }
  }

  lemma EnvironmentAttempts(maxAttempts: nat, s: State, l: Label)
    requires AttemptsInRange(maxAttempts, s) && Enabled(s, l) && !l.Move?
    ensures AttemptsInRange(maxAttempts, Next(maxAttempts, s, l))
  {
  }

  lemma LedgerStep(maxAttempts: nat, s: State, l: Label)
    requires Ledger(maxAttempts, s) && Enabled(s, l)
    ensures Ledger(maxAttempts, Next(maxAttempts, s, l))
  {
    if l.Move? {
      MoveKeepsLedger(maxAttempts, s, l.d, l.reply);
    } else {
      ValidNext(maxAttempts, s, l);
      EnvironmentAttempts(maxAttempts, s, l);
      var s' := Next(maxAttempts, s, l);
      forall job: nat | job < |s'.jobs|
        ensures Balanced(maxAttempts, s', job)
      {
        if job < |s.jobs| { EnvironmentBalances(maxAttempts, s, l, job); }
        else { FreshJobBalances(maxAttempts, s); }
      }
    }
  }

  lemma {:induction false} LedgerRun(maxAttempts: nat, s: State, ls: seq<Label>)
    requires Ledger(maxAttempts, s) && Admits(maxAttempts, NOTHING, s, ls)
    ensures Ledger(maxAttempts, After(maxAttempts, NOTHING, s, ls))
    decreases |ls|
  {
    if ls != [] {
      LedgerStep(maxAttempts, s, ls[0]);
      LedgerRun(maxAttempts, Next(maxAttempts, s, ls[0]), ls[1..]);
    }
  }

  /** The retry ledger, whatever fails: a job's failures schedule at most maxAttempts - 1
      retries, and Convert is called for it at most once for each copy published, each copy
      the broker took back and each of those retries. */
  lemma RetryLedger(maxAttempts: nat, ls: seq<Label>, job: nat)
    requires maxAttempts >= 1
    requires Admits(maxAttempts, NOTHING, INIT, ls)
    requires job < |After(maxAttempts, NOTHING, INIT, ls).jobs|
    ensures var j := After(maxAttempts, NOTHING, INIT, ls).jobs[job];
      && j.retried <= maxAttempts - 1
      && j.started <= j.published + j.redelivered + maxAttempts - 1
  {
    LedgerRun(maxAttempts, INIT, ls);
    assert Balanced(maxAttempts, After(maxAttempts, NOTHING, INIT, ls), job);
  }

  /** Every claim of a job returned its own attempt number. */
  ghost predicate DistinctAttempts(s: State) {
    forall d :: 0 <= d < |s.ds| && s.ds[d].body.For? && s.ds[d].body.job < |s.jobs| && s.ds[d].attempts > 0 ==>
      && s.ds[d].attempts <= s.jobs[s.ds[d].body.job].row.attempts
      && forall e :: 0 <= e < |s.ds| && e != d && s.ds[e].body == s.ds[d].body ==>
           s.ds[e].attempts != s.ds[d].attempts
  }

  lemma ActAttempts(maxAttempts: nat, row: Option<Row>, d: Delivery, reply: Reply)
    requires d.Live() && row.Some?
    ensures var e := Act(maxAttempts, row, d, reply);
      && e.row.value.attempts >= row.value.attempts
      && (e.next.attempts == d.attempts
          || (e.next.attempts == row.value.attempts + 1 && e.row.value.attempts == row.value.attempts + 1))
  {
  }

  lemma MoveKeepsDistinct(maxAttempts: nat, s: State, d: nat, reply: Reply)
    requires Valid(s) && DistinctAttempts(s) && Enabled(s, Move(d, reply))
    ensures DistinctAttempts(Moved(maxAttempts, s, d, reply))
  {
    hide Act;
    var s' := Moved(maxAttempts, s, d, reply);
    var b := s.ds[d].body;
    ActFrame(maxAttempts, RowOf(s, b), s.ds[d], reply);
    if b.For? { ActAttempts(maxAttempts, RowOf(s, b), s.ds[d], reply); }
    assert forall e :: 0 <= e < |s'.ds| && e != d ==> s'.ds[e] == s.ds[e];
  }

  lemma UntouchedKeepsDistinct(s: State, s': State)
    requires Valid(s) && DistinctAttempts(s) && Untouched(s, s')
    ensures DistinctAttempts(s')
  {
    forall d: nat | d < |s.ds|
      ensures s'.ds[d].body == s.ds[d].body && s'.ds[d].attempts == s.ds[d].attempts
      ensures Fits(s.ds[d].body, |s.jobs|)
    {
    }
  }

  lemma DistinctStep(maxAttempts: nat, s: State, l: Label)
    requires Valid(s) && DistinctAttempts(s) && Enabled(s, l)
    ensures DistinctAttempts(Next(maxAttempts, s, l))
  {
    if l.Move? { MoveKeepsDistinct(maxAttempts, s, l.d, l.reply); }
    else {
      EnvironmentFrame(maxAttempts, s, l);
      UntouchedKeepsDistinct(s, Next(maxAttempts, s, l));
    }
  }

  lemma {:induction false} DistinctRun(maxAttempts: nat, s: State, ls: seq<Label>)
    requires Valid(s) && DistinctAttempts(s) && Admits(maxAttempts, NOTHING, s, ls)
    ensures DistinctAttempts(After(maxAttempts, NOTHING, s, ls))
    decreases |ls|
  {
    if ls != [] {
      ValidNext(maxAttempts, s, ls[0]);
      DistinctStep(maxAttempts, s, ls[0]);
      DistinctRun(maxAttempts, Next(maxAttempts, s, ls[0]), ls[1..]);
    }
  }

  /** In every reachable state no two claims of one job returned the same attempt number, so
      no two failures of it see the same side of the maxAttempts limit by accident. */
  lemma ClaimsAreNumbered(maxAttempts: nat, ls: seq<Label>)
    requires Admits(maxAttempts, NOTHING, INIT, ls)
    ensures DistinctAttempts(After(maxAttempts, NOTHING, INIT, ls))
  {
    DistinctRun(maxAttempts, INIT, ls);
  }

  // ---------------------------------------------------------------------------
  // Message conservation
  // ---------------------------------------------------------------------------

  /** A delivery whose message has not been counted as processed, skipped or malformed. */
  function Undecided(): Delivery -> nat {
    (d: Delivery) => if d.pc.Received? || d.pc.ParkPublish? || d.Converting() then 1 else 0
  }

  /** A failed attempt not yet counted as retried or exhausted. */
  function Unsettled(): Delivery -> nat {
    (d: Delivery) => if d.pc.Requeueing? || d.pc.RetryPublish? || d.pc.DeadPublish? then 1 else 0
  }

  ghost predicate Conserved(s: State) {
    var t := s.tally;
    && t.put + t.retried == t.succeeded + t.failed + t.skipped + t.malformed
                            + |s.main| + |s.retry| + Total(s.ds, Undecided())
    && t.failed == t.retried + t.exhausted + Total(s.ds, Unsettled())
    && |s.dead| == t.malformed + t.exhausted
  }

  /** An action that puts a copy back or decides one counts it, */
  lemma ActCountsCopies(maxAttempts: nat, row: Option<Row>, d: Delivery, reply: Reply, t: Tally)
    requires d.Live() && (Publishing(d.pc, d.body) ==> reply.Ok?)
    ensures var e := Act(maxAttempts, row, d, reply); var t' := Counted(t, e.event);
      var toRetry := if e.toRetry then 1 else 0;
      && t'.put == t.put
      && t'.retried + Undecided()(d) + t.succeeded + t.failed + t.skipped + t.malformed
         == t.retried + Undecided()(e.next) + t'.succeeded + t'.failed + t'.skipped + t'.malformed + toRetry
  {
    hide Claimable, Mark;
  }

  /** and a failure is counted twice: when it happens, and when it is retried or given up. */
  lemma ActCountsFailures(maxAttempts: nat, row: Option<Row>, d: Delivery, reply: Reply, t: Tally)
    requires d.Live() && (Publishing(d.pc, d.body) ==> reply.Ok?)
    ensures var e := Act(maxAttempts, row, d, reply); var t' := Counted(t, e.event);
      var toDead := if e.toDead then 1 else 0;
      && t'.failed + Unsettled()(d) + t.retried + t.exhausted
         == t.failed + Unsettled()(e.next) + t'.retried + t'.exhausted
      && toDead + t.malformed + t.exhausted == t'.malformed + t'.exhausted
  {
    hide Claimable, Mark;
  }

  lemma MoveConserves(maxAttempts: nat, s: State, d: nat, reply: Reply)
    requires Conserved(s) && Enabled(s, Move(d, reply)) && PublishesLand(s, Move(d, reply))
    ensures Conserved(Moved(maxAttempts, s, d, reply))
  {
    hide Act;
    var row := RowOf(s, s.ds[d].body);
    var e := Act(maxAttempts, row, s.ds[d], reply);
    var s' := Moved(maxAttempts, s, d, reply);
    ActCountsCopies(maxAttempts, row, s.ds[d], reply, s.tally);
    ActCountsFailures(maxAttempts, row, s.ds[d], reply, s.tally);
    TotalUpdate(s.ds, d, e.next, Undecided());
    TotalUpdate(s.ds, d, e.next, Unsettled());
    assert |s'.retry| == |s.retry| + (if e.toRetry then 1 else 0);
    assert |s'.dead| == |s.dead| + (if e.toDead then 1 else 0);
  }

  lemma TrafficConserves(maxAttempts: nat, s: State, l: Label)
    requires Conserved(s) && Enabled(s, l) && !l.Move? && NoCrashes(l)
    ensures Conserved(Next(maxAttempts, s, l))
  {
    hide Moved;
    if l.Deliver? { ArrivalConserves(maxAttempts, s, l.copy); }
  }

  lemma ArrivalConserves(maxAttempts: nat, s: State, c: Copy)
    requires Conserved(s) && c in s.main
    ensures Conserved(Next(maxAttempts, s, Deliver(c)))
  {
    hide Moved;
    var d := Delivery(c.body, c.flagged, Received, 0, false);
    TotalAppend(s.ds, d, Undecided());
    TotalAppend(s.ds, d, Unsettled());
  }

  lemma ConservedStep(maxAttempts: nat, s: State, l: Label)
    requires Conserved(s) && Allowed(maxAttempts, CALM, s, l)
    ensures Conserved(Next(maxAttempts, s, l))
  {
    if l.Move? { MoveConserves(maxAttempts, s, l.d, l.reply); }
    else { TrafficConserves(maxAttempts, s, l); }
  }

  lemma {:induction false} ConservedRun(maxAttempts: nat, s: State, ls: seq<Label>)
    requires Conserved(s) && Admits(maxAttempts, CALM, s, ls)
    ensures Conserved(After(maxAttempts, CALM, s, ls))
    decreases |ls|
  {
    if ls != [] {
      ConservedStep(maxAttempts, s, ls[0]);
      ConservedRun(maxAttempts, Next(maxAttempts, s, ls[0]), ls[1..]);
    }
  }

  /** No delivery is between its arrival and its ack. */
  predicate Idle(s: State) {
    forall d :: 0 <= d < |s.ds| ==> s.ds[d].pc.Acking? || s.ds[d].pc.Gone?
  }

  ghost predicate Accounted(s: State) {
    var t := s.tally;
    && t.put + t.retried == t.succeeded + t.failed + t.skipped + t.malformed + |s.main| + |s.retry|
    && t.failed == t.retried + t.exhausted
    && |s.dead| == t.malformed + t.exhausted
  }

  lemma IdleIsAccounted(s: State)
    requires Conserved(s) && Idle(s)
    ensures Accounted(s)
  {
    TotalZero(s.ds, Undecided());
    TotalZero(s.ds, Unsettled());
  }

  /** Message conservation: without crashes, and with publishes that land, whenever no
      delivery is mid-process the counters account for every copy exactly. */
  lemma MessageConservation(maxAttempts: nat, ls: seq<Label>)
    requires Admits(maxAttempts, CALM, INIT, ls) && Idle(After(maxAttempts, CALM, INIT, ls))
    ensures Accounted(After(maxAttempts, CALM, INIT, ls))
  {
    ConservedRun(maxAttempts, INIT, ls);
    IdleIsAccounted(After(maxAttempts, CALM, INIT, ls));
  }

  // ---------------------------------------------------------------------------
  // Termination
  // ---------------------------------------------------------------------------

  /** How many more actions the worker and the message it may put back can take. Attempts that
      can still be retried weigh what the whole next round trip does. */
  function Stage(maxAttempts: nat): Delivery -> nat {
    (d: Delivery) =>
      var again := if d.attempts < maxAttempts then 11 else 0;
      match d.pc
      case Received => 8
      case ParkPublish => 12
      case MarkFileConverting => 7 + again
      case MarkJobConverting => 6 + again
      case Work => 5 + again
      case MarkFileFailed => 4 + again
      case MarkJobFailed => 3 + again
      case MarkFileConverted => 4 + again
      case MarkJobConverted => 3 + again
      case Requeueing => 13
      case RetryPublish => 12
      case DeadPublish => 2
      case Acking => 1
      case Gone => 0
  }

  function Deficit(maxAttempts: nat): Job -> nat {
    (j: Job) => if j.row.attempts < maxAttempts then 11 * (maxAttempts - j.row.attempts) else 0
  }

  function Measure(maxAttempts: nat, s: State): nat {
    Total(s.ds, Stage(maxAttempts)) + 9 * |s.main| + 10 * |s.retry| + Total(s.jobs, Deficit(maxAttempts))
  }

  /** What the environment does to a run: new jobs and copies, lost sessions, dead workers and
      claims that return an error. Everything else is the system running down. */
  predicate Disturbance(s: State, l: Label) {
    match l
    case Create => true
    case Publish(_) => true
    case Lose(_) => true
    case Crash(_) => true
    case Move(d, reply) => d < |s.ds| && s.ds[d].pc.Received? && !s.ds[d].body.Malformed? && !reply.Ok?
    case _ => false
  }

  function Disturbances(maxAttempts: nat, s: State, ls: seq<Label>): nat
    requires Admits(maxAttempts, NOTHING, s, ls)
    decreases |ls|
  {
    if ls == [] then 0
    else (if Disturbance(s, ls[0]) then 1 else 0) + Disturbances(maxAttempts, Next(maxAttempts, s, ls[0]), ls[1..])
  }

  /** What an action takes off the measure, apart from its row's deficit. */
  function Left(maxAttempts: nat, e: Effect): nat {
    Stage(maxAttempts)(e.next) + (if e.toRetry then 10 else 0)
  }

  function Owed(maxAttempts: nat, row: Option<Row>): nat {
    if row.Some? then Deficit(maxAttempts)(Job(row.value, 0, 0, 0, 0, 0)) else 0
  }

  lemma ClaimRunsDown(maxAttempts: nat, row: Option<Row>, d: Delivery, reply: Reply)
    requires d.pc.Received?
    ensures var e := Act(maxAttempts, row, d, reply);
      Left(maxAttempts, e) + Owed(maxAttempts, e.row) + 1
      <= Stage(maxAttempts)(d) + Owed(maxAttempts, row) + (if !d.body.Malformed? && !reply.Ok? then 10 else 0)
  {
  }

  lemma WorkRunsDown(maxAttempts: nat, row: Option<Row>, d: Delivery, reply: Reply)
    requires d.Live() && !d.pc.Received?
    requires d.pc.Requeueing? || d.pc.RetryPublish? ==> 0 < d.attempts < maxAttempts
    ensures var e := Act(maxAttempts, row, d, reply);
      Left(maxAttempts, e) + 1 <= Stage(maxAttempts)(d)
      && e.row.Some? == row.Some? && (row.Some? ==> e.row.value.attempts == row.value.attempts)
  {
  }

  lemma ActRunsDown(maxAttempts: nat, row: Option<Row>, d: Delivery, reply: Reply)
    requires d.Live()
    requires d.pc.Requeueing? || d.pc.RetryPublish? ==> 0 < d.attempts < maxAttempts
    ensures var e := Act(maxAttempts, row, d, reply);
      e.row.Some? == row.Some?
      && Left(maxAttempts, e) + Owed(maxAttempts, e.row) + 1
         <= Stage(maxAttempts)(d) + Owed(maxAttempts, row)
            + (if d.pc.Received? && !d.body.Malformed? && !reply.Ok? then 10 else 0)
  {
    ActFrame(maxAttempts, row, d, reply);
    if d.pc.Received? { ClaimRunsDown(maxAttempts, row, d, reply); }
    else { WorkRunsDown(maxAttempts, row, d, reply); }
  }

  lemma WritingCosts(maxAttempts: nat, s: State, b: Body, row: Row, e: Event)
    requires b.For? && b.job < |s.jobs|
    ensures Total(Written(s, b, Some(row), e), Deficit(maxAttempts)) + Deficit(maxAttempts)(s.jobs[b.job])
            == Total(s.jobs, Deficit(maxAttempts)) + Deficit(maxAttempts)(s.jobs[b.job].(row := row))
  {
    TotalUpdate(s.jobs, b.job, Recorded(s.jobs[b.job].(row := row), e), Deficit(maxAttempts));
  }

  lemma MoveRunsDown(maxAttempts: nat, s: State, d: nat, reply: Reply)
    requires Valid(s) && AttemptsInRange(maxAttempts, s) && Enabled(s, Move(d, reply))
    ensures Measure(maxAttempts, Moved(maxAttempts, s, d, reply)) + 1
            <= Measure(maxAttempts, s) + (if Disturbance(s, Move(d, reply)) then 10 else 0)
  {
    var b := s.ds[d].body;
    var row := RowOf(s, b);
    var e := Act(maxAttempts, row, s.ds[d], reply);
    var s' := Moved(maxAttempts, s, d, reply);
    ActRunsDown(maxAttempts, row, s.ds[d], reply);
    TotalUpdate(s.ds, d, e.next, Stage(maxAttempts));
    assert |s'.retry| == |s.retry| + (if e.toRetry then 1 else 0);
    if row.Some? {
      WritingCosts(maxAttempts, s, b, e.row.value, e.event);
    } else {
      assert s'.jobs == s.jobs;
    }
  }

  lemma TakingCosts(maxAttempts: nat, s: State, d: nat)
    requires d < |s.ds|
    ensures Measure(maxAttempts, Taken(s, d)) == Measure(maxAttempts, s) + 9
  {
    var b := s.ds[d].body;
    if b.For? && b.job < |s.jobs| {
      TotalUpdate(s.jobs, b.job, Taken(s, d).jobs[b.job], Deficit(maxAttempts));
    }
  }

  lemma StoppingCosts(maxAttempts: nat, s: State, d: nat, next: Delivery)
    requires d < |s.ds| && (next == s.ds[d].(pc := Gone) || next == s.ds[d].(lost := true))
    ensures Measure(maxAttempts, s.(ds := s.ds[d := next])) <= Measure(maxAttempts, s)
  {
    TotalUpdate(s.ds, d, next, Stage(maxAttempts));
  }

  lemma LossRunsDown(maxAttempts: nat, s: State, l: Label)
    requires Enabled(s, l) && (l.Lose? || l.Crash?)
    ensures Measure(maxAttempts, Next(maxAttempts, s, l)) <= Measure(maxAttempts, s) + 9
  {
    TakingCosts(maxAttempts, s, l.d);
    var s' := if l.Crash? && s.ds[l.d].lost then s else Taken(s, l.d);
    StoppingCosts(maxAttempts, s', l.d, Next(maxAttempts, s, l).ds[l.d]);
  }

  lemma ArrivalRunsDown(maxAttempts: nat, s: State, l: Label)
    requires Valid(s) && Enabled(s, l) && (l.Deliver? || l.Expire?)
    ensures Measure(maxAttempts, Next(maxAttempts, s, l)) + 1 <= Measure(maxAttempts, s)
  {
    if l.Deliver? {
      TotalAppend(s.ds, Delivery(l.copy.body, l.copy.flagged, Received, 0, false), Stage(maxAttempts));
    }
  }

  lemma PublicationRunsDown(maxAttempts: nat, s: State, l: Label)
    requires Valid(s) && Enabled(s, l) && (l.Create? || l.Publish?)
    ensures Measure(maxAttempts, Next(maxAttempts, s, l)) <= Measure(maxAttempts, s) + 11 * maxAttempts + 9
  {
    var s' := Next(maxAttempts, s, l);
    if l.Create? {
      TotalAppend(s.jobs, Job(FRESH, 0, 0, 0, 0, 0), Deficit(maxAttempts));
    } else if l.body.For? {
      TotalUpdate(s.jobs, l.body.job, s'.jobs[l.body.job], Deficit(maxAttempts));
    }
  }

  /** What one disturbance can add to the measure, and the step it takes. */
  function Cost(maxAttempts: nat): nat {
    11 * maxAttempts + 10
  }

  lemma StepRunsDown(maxAttempts: nat, s: State, l: Label)
    requires Valid(s) && AttemptsInRange(maxAttempts, s) && Enabled(s, l)
    ensures Measure(maxAttempts, Next(maxAttempts, s, l)) + 1
            <= Measure(maxAttempts, s) + (if Disturbance(s, l) then Cost(maxAttempts) else 0)
  {
    match l
    case Move(d, reply) => MoveRunsDown(maxAttempts, s, d, reply);
    case Lose(_) => LossRunsDown(maxAttempts, s, l);
    case Crash(_) => LossRunsDown(maxAttempts, s, l);
    case Deliver(_) => ArrivalRunsDown(maxAttempts, s, l);
    case Expire(_) => ArrivalRunsDown(maxAttempts, s, l);
    case _ => PublicationRunsDown(maxAttempts, s, l);
  }

  /** What the disturbances of a run can have added to the measure. */
  function Charge(maxAttempts: nat, s: State, ls: seq<Label>): nat
    requires Admits(maxAttempts, NOTHING, s, ls)
    decreases |ls|
  {
    if ls == [] then 0
    else (if Disturbance(s, ls[0]) then Cost(maxAttempts) else 0) + Charge(maxAttempts, Next(maxAttempts, s, ls[0]), ls[1..])
  }

  lemma OneMore(c: nat, n: nat)
    ensures c * (1 + n) == c + c * n
  {
  }

  lemma {:induction false} ChargePerDisturbance(maxAttempts: nat, s: State, ls: seq<Label>)
    requires Admits(maxAttempts, NOTHING, s, ls)
    ensures Charge(maxAttempts, s, ls) == Cost(maxAttempts) * Disturbances(maxAttempts, s, ls)
    decreases |ls|
  {
    if ls != [] {
      var s' := Next(maxAttempts, s, ls[0]);
      ChargePerDisturbance(maxAttempts, s', ls[1..]);
      if Disturbance(s, ls[0]) {
        OneMore(Cost(maxAttempts), Disturbances(maxAttempts, s', ls[1..]));
      }
    }
  }

  lemma {:induction false} RunsDown(maxAttempts: nat, s: State, ls: seq<Label>)
    requires Ledger(maxAttempts, s) && Admits(maxAttempts, NOTHING, s, ls)
    ensures |ls| + Measure(maxAttempts, After(maxAttempts, NOTHING, s, ls))
            <= Measure(maxAttempts, s) + Charge(maxAttempts, s, ls)
    decreases |ls|
  {
    if ls != [] {
      LedgerStep(maxAttempts, s, ls[0]);
      StepRunsDown(maxAttempts, s, ls[0]);
      RunsDown(maxAttempts, Next(maxAttempts, s, ls[0]), ls[1..]);
    }
  }

  /** Every run terminates: the whole run is no longer than a constant times the number of
      times the environment disturbed it, so after the last disturbance only finitely many
      actions remain. No assumption on faults. */
  lemma EveryRunTerminates(maxAttempts: nat, ls: seq<Label>)
    requires Admits(maxAttempts, NOTHING, INIT, ls)
    ensures |ls| <= (11 * maxAttempts + 10) * Disturbances(maxAttempts, INIT, ls)
  {
    RunsDown(maxAttempts, INIT, ls);
    ChargePerDisturbance(maxAttempts, INIT, ls);
  }
}
