/**
 Short runs showing that each environment assumption is needed. All of them concern one job.
 */
module ProtocolWitness {
  import opened JobTable
  import opened Protocol
  import opened ProtocolSafety
  import opened ProtocolStranding

  /** The job says 'converting', nobody is working on it, and nothing is left on a queue. */
  predicate Stranded(s: State, job: nat) {
    && job < |s.jobs| && s.jobs[job].row.status == Converting
    && s.main == multiset{} && s.retry == multiset{}
    && forall d :: 0 <= d < |s.ds| ==> !s.ds[d].Live()
  }

  /** Then only new publications can move, and being unflagged none of them claims: without the
      loss of a further session or worker, the row never changes again. */
  lemma StrandedStays(maxAttempts: nat, s: State, ls: seq<Label>, job: nat)
    requires Stranded(s, job) && Admits(maxAttempts, UNBROKEN, s, ls)
    ensures var s' := After(maxAttempts, UNBROKEN, s, ls);
      job < |s'.jobs| && s'.jobs[job].row == s.jobs[job].row
  {
    OrphanRun(maxAttempts, s, ls, job);
  }

  ghost predicate Reachable(maxAttempts: nat, t: Trust, s: State) {
    exists ls :: Admits(maxAttempts, t, INIT, ls) && After(maxAttempts, t, INIT, ls) == s
  }

  predicate Follows(maxAttempts: nat, t: Trust, s: State, l: Label, s': State) {
    Allowed(maxAttempts, t, s, l) && Next(maxAttempts, s, l) == s'
  }

  lemma {:induction false} Extend(maxAttempts: nat, t: Trust, s: State, ls: seq<Label>, l: Label)
    requires Admits(maxAttempts, t, s, ls) && Allowed(maxAttempts, t, After(maxAttempts, t, s, ls), l)
    ensures Admits(maxAttempts, t, s, ls + [l])
    ensures After(maxAttempts, t, s, ls + [l]) == Next(maxAttempts, After(maxAttempts, t, s, ls), l)
    decreases |ls|
  {
    if ls == [] {
      assert ls + [l] == [l] && [l][1..] == [];
    } else {
      assert (ls + [l])[1..] == ls[1..] + [l];
      Extend(maxAttempts, t, Next(maxAttempts, s, ls[0]), ls[1..], l);
    }
  }

  /** A property of states that the steps of the machine preserve. The runs below show what any
      such property holds of; being reachable is one. */
  ghost predicate Closed(maxAttempts: nat, t: Trust, r: State -> bool) {
    r(INIT) && forall s, l, s' :: r(s) && Follows(maxAttempts, t, s, l, s') ==> r(s')
  }

  lemma ReachableIsClosed(maxAttempts: nat, t: Trust)
    ensures Closed(maxAttempts, t, s => Reachable(maxAttempts, t, s))
  {
    assert Reachable(maxAttempts, t, INIT) by {
      assert Admits(maxAttempts, t, INIT, []) && After(maxAttempts, t, INIT, []) == INIT;
    }
    forall s, l, s' | Reachable(maxAttempts, t, s) && Follows(maxAttempts, t, s, l, s')
      ensures Reachable(maxAttempts, t, s')
    {
      var ls :| Admits(maxAttempts, t, INIT, ls) && After(maxAttempts, t, INIT, ls) == s;
      Extend(maxAttempts, t, INIT, ls, l);
    }
  }

  lemma Then(maxAttempts: nat, t: Trust, r: State -> bool, s: State, l: Label, s': State)
    requires Closed(maxAttempts, t, r) && r(s) && Follows(maxAttempts, t, s, l, s')
    ensures r(s')
  {
  }

  const PLAIN := Copy(For(0), false)
  const FLAGGED := Copy(For(0), true)

  function D(flagged: bool, pc: Pc, attempts: nat, lost: bool): Delivery {
    Delivery(For(0), flagged, pc, attempts, lost)
  }

  /** A state with one job that has scheduled no retry yet, and nothing parked. */
  function One(row: Row, published: nat, redelivered: nat, started: nat, main: multiset<Copy>,
               ds: seq<Delivery>, tally: Tally): State {
    State([Job(row, published, redelivered, 0, started, 0)], main, multiset{}, multiset{}, ds, tally)
  }

  const CREATED := One(Row(Queued, 0), 0, 0, 0, multiset{}, [], Tally(0, 0, 0, 0, 0, 0, 0))
  const PUT := One(Row(Queued, 0), 1, 0, 0, multiset{PLAIN}, [], Tally(1, 0, 0, 0, 0, 0, 0))
  const OPENED := One(Row(Queued, 0), 1, 0, 0, multiset{},
    [D(false, Received, 0, false)], Tally(1, 0, 0, 0, 0, 0, 0))

  /** How every one of these runs starts: one job, published once and delivered. */
  lemma Opening(maxAttempts: nat, t: Trust, r: State -> bool)
    requires Closed(maxAttempts, t, r)
    ensures r(OPENED)
  {
    Published(maxAttempts, t, r);
    Then(maxAttempts, t, r, PUT, Deliver(PLAIN), OPENED);
  }

  lemma Published(maxAttempts: nat, t: Trust, r: State -> bool)
    requires Closed(maxAttempts, t, r)
    ensures r(PUT)
  {
    Then(maxAttempts, t, r, INIT, Create, CREATED);
    Then(maxAttempts, t, r, CREATED, Publish(For(0)), PUT);
  }

  /** A claim followed by a failed conversion, up to the mark on the job. */
  lemma FailedAttempt(maxAttempts: nat, t: Trust, r: State -> bool, s: State, d: nat, s': State)
    requires Closed(maxAttempts, t, r) && r(s) && Allowed(maxAttempts, t, s, Move(d, Ok))
    requires |s.jobs| == 1 && s.ds[d].Names(0) && s.ds[d].pc.Received?
    requires Claimable(s.jobs[0].row, s.ds[d].flagged)
    requires s' == Failing(maxAttempts, Starting(s, d), d)
    ensures r(s')
  {
    Then(maxAttempts, t, r, s, Move(d, Ok), Starting(s, d));
    ToWork(maxAttempts, t, r, Starting(s, d), d);
    FailedWork(maxAttempts, t, r, Starting(s, d), d);
  }

  /** Where a successful claim leaves the job, and where its failure does. */
  function Starting(s: State, d: nat): State
    requires |s.jobs| == 1 && d < |s.ds|
  {
    var j, a := s.jobs[0], s.jobs[0].row.attempts + 1;
    s.(jobs := [j.(row := Row(Converting, a), started := j.started + 1)],
       ds := s.ds[d := s.ds[d].(pc := MarkFileConverting, attempts := a)])
  }

  function Failing(maxAttempts: nat, s: State, d: nat): State
    requires |s.jobs| == 1 && d < |s.ds|
  {
    var j, x := s.jobs[0], s.ds[d];
    s.(jobs := [j.(row := Row(Failed, j.row.attempts))],
       ds := s.ds[d := x.(pc := if x.attempts >= maxAttempts then DeadPublish else Requeueing)],
       tally := s.tally.(failed := s.tally.failed + 1))
  }

  function At(s: State, d: nat, pc: Pc): State
    requires d < |s.ds|
  {
    s.(ds := s.ds[d := s.ds[d].(pc := pc)])
  }

  lemma ToWork(maxAttempts: nat, t: Trust, r: State -> bool, s: State, d: nat)
    requires Closed(maxAttempts, t, r) && r(s) && |s.jobs| == 1 && d < |s.ds|
    requires s.ds[d].Names(0) && s.ds[d].pc.MarkFileConverting? && s.jobs[0].row.status == Converting
    ensures r(At(s, d, Work))
  {
    var marked := At(s, d, MarkJobConverting);
    Then(maxAttempts, t, r, s, Move(d, Ok), marked);
    MarkedJob(maxAttempts, t, r, marked, d);
    assert At(marked, d, Work) == At(s, d, Work);
  }

  lemma MarkedJob(maxAttempts: nat, t: Trust, r: State -> bool, s: State, d: nat)
    requires Closed(maxAttempts, t, r) && r(s) && |s.jobs| == 1 && d < |s.ds|
    requires s.ds[d].Names(0) && s.ds[d].pc.MarkJobConverting? && s.jobs[0].row.status == Converting
    ensures r(At(s, d, Work))
  {
    Then(maxAttempts, t, r, s, Move(d, Ok), At(s, d, Work));
  }

  lemma FailedWork(maxAttempts: nat, t: Trust, r: State -> bool, s: State, d: nat)
    requires |s.jobs| == 1 && d < |s.ds| && s.ds[d].Names(0)
    requires Closed(maxAttempts, t, r) && r(At(s, d, Work))
    ensures r(Failing(maxAttempts, s, d))
  {
    Then(maxAttempts, t, r, At(s, d, Work), Move(d, Refused), At(s, d, MarkFileFailed));
    Then(maxAttempts, t, r, At(s, d, MarkFileFailed), Move(d, Ok), At(s, d, MarkJobFailed));
    FailedMark(maxAttempts, t, r, s, d);
  }

  lemma FailedMark(maxAttempts: nat, t: Trust, r: State -> bool, s: State, d: nat)
    requires |s.jobs| == 1 && d < |s.ds| && s.ds[d].Names(0)
    requires Closed(maxAttempts, t, r) && r(At(s, d, MarkJobFailed))
    ensures r(Failing(maxAttempts, s, d))
  {
    Then(maxAttempts, t, r, At(s, d, MarkJobFailed), Move(d, Ok), Failing(maxAttempts, s, d));
  }

  const ARRIVAL := NOTHING.(loneArrival := true, guardedRequeue := true)

  const ARRIVAL_TAKEN_BACK := One(Row(Queued, 0), 1, 1, 0, multiset{FLAGGED},
    [D(false, Gone, 0, false)], Tally(1, 0, 0, 0, 0, 0, 0))
  const ARRIVAL_PUT_AGAIN := One(Row(Queued, 0), 2, 1, 0, multiset{FLAGGED, PLAIN},
    [D(false, Gone, 0, false)], Tally(2, 0, 0, 0, 0, 0, 0))
  const ARRIVAL_FLAGGED_IN := One(Row(Queued, 0), 2, 1, 0, multiset{PLAIN},
    [D(false, Gone, 0, false), D(true, Received, 0, false)], Tally(2, 0, 0, 0, 0, 0, 0))
  const ARRIVAL_BOTH_IN := One(Row(Queued, 0), 2, 1, 0, multiset{},
    [D(false, Gone, 0, false), D(true, Received, 0, false), D(false, Received, 0, false)], Tally(2, 0, 0, 0, 0, 0, 0))
  const ARRIVAL_ONE_CLAIMED := One(Row(Converting, 1), 2, 1, 1, multiset{},
    [D(false, Gone, 0, false), D(true, Received, 0, false), D(false, MarkFileConverting, 1, false)], Tally(2, 0, 0, 0, 0, 0, 0))
  const ARRIVAL_BOTH_CLAIMED := One(Row(Converting, 2), 2, 1, 2, multiset{},
    [D(false, Gone, 0, false), D(true, MarkFileConverting, 2, false), D(false, MarkFileConverting, 1, false)], Tally(2, 0, 0, 0, 0, 0, 0))

  lemma ArrivalPart1(r: State -> bool)
    requires Closed(3, ARRIVAL, r)
    ensures r(ARRIVAL_FLAGGED_IN)
  {
    Opening(3, ARRIVAL, r);
    Then(3, ARRIVAL, r, OPENED, Crash(0), ARRIVAL_TAKEN_BACK);
    Then(3, ARRIVAL, r, ARRIVAL_TAKEN_BACK, Publish(For(0)), ARRIVAL_PUT_AGAIN);
    Then(3, ARRIVAL, r, ARRIVAL_PUT_AGAIN, Deliver(FLAGGED), ARRIVAL_FLAGGED_IN);
  }

  lemma ArrivalPart2(r: State -> bool)
    requires Closed(3, ARRIVAL, r)
    ensures r(ARRIVAL_BOTH_CLAIMED)
  {
    ArrivalPart1(r);
    Then(3, ARRIVAL, r, ARRIVAL_FLAGGED_IN, Deliver(PLAIN), ARRIVAL_BOTH_IN);
    Then(3, ARRIVAL, r, ARRIVAL_BOTH_IN, Move(2, Ok), ARRIVAL_ONE_CLAIMED);
    Then(3, ARRIVAL, r, ARRIVAL_ONE_CLAIMED, Move(1, Ok), ARRIVAL_BOTH_CLAIMED);
  }

  /** A1 read at the arrival of the flagged copy is too weak: delivered while nobody holds the
      job and claimed after an unflagged duplicate has been claimed, it puts a second worker
      inside Convert. */
  lemma ArrivalGuardIsNotEnough() returns (s: State)
    ensures Reachable(3, ARRIVAL, s) && !Exclusive(s)
  {
    ReachableIsClosed(3, ARRIVAL);
    ArrivalPart2(s => Reachable(3, ARRIVAL, s));
    s := ARRIVAL_BOTH_CLAIMED;
    assert InConvert(s, 1, 0) && InConvert(s, 2, 0);
  }

  const REQUEUE := NOTHING.(loneRedelivery := true)

  const REQUEUE_MARKED_FAILED := One(Row(Failed, 1), 1, 0, 1, multiset{},
    [D(false, Requeueing, 1, false)], Tally(1, 0, 1, 0, 0, 0, 0))
  const REQUEUE_PUT_AGAIN := One(Row(Failed, 1), 2, 0, 1, multiset{PLAIN},
    [D(false, Requeueing, 1, false)], Tally(2, 0, 1, 0, 0, 0, 0))
  const REQUEUE_SECOND_IN := One(Row(Failed, 1), 2, 0, 1, multiset{},
    [D(false, Requeueing, 1, false), D(false, Received, 0, false)], Tally(2, 0, 1, 0, 0, 0, 0))
  const REQUEUE_SECOND_CLAIMED := One(Row(Converting, 2), 2, 0, 2, multiset{},
    [D(false, Requeueing, 1, false), D(false, MarkFileConverting, 2, false)], Tally(2, 0, 1, 0, 0, 0, 0))
  const REQUEUE_PUT_BACK := One(Row(Queued, 2), 2, 0, 2, multiset{},
    [D(false, RetryPublish, 1, false), D(false, MarkFileConverting, 2, false)], Tally(2, 0, 1, 0, 0, 0, 0))
  const REQUEUE_PUT_THRICE := One(Row(Queued, 2), 3, 0, 2, multiset{PLAIN},
    [D(false, RetryPublish, 1, false), D(false, MarkFileConverting, 2, false)], Tally(3, 0, 1, 0, 0, 0, 0))
  const REQUEUE_THIRD_IN := One(Row(Queued, 2), 3, 0, 2, multiset{},
    [D(false, RetryPublish, 1, false), D(false, MarkFileConverting, 2, false), D(false, Received, 0, false)], Tally(3, 0, 1, 0, 0, 0, 0))
  const REQUEUE_THIRD_CLAIMED := One(Row(Converting, 3), 3, 0, 3, multiset{},
    [D(false, RetryPublish, 1, false), D(false, MarkFileConverting, 2, false), D(false, MarkFileConverting, 3, false)], Tally(3, 0, 1, 0, 0, 0, 0))

  lemma RequeuePart1(r: State -> bool)
    requires Closed(2, REQUEUE, r)
    ensures r(REQUEUE_MARKED_FAILED)
  {
    Opening(2, REQUEUE, r);
    FailedAttempt(2, REQUEUE, r, OPENED, 0, REQUEUE_MARKED_FAILED);
  }

  lemma RequeuePart2(r: State -> bool)
    requires Closed(2, REQUEUE, r)
    ensures r(REQUEUE_SECOND_CLAIMED)
  {
    RequeuePart1(r);
    Then(2, REQUEUE, r, REQUEUE_MARKED_FAILED, Publish(For(0)), REQUEUE_PUT_AGAIN);
    Then(2, REQUEUE, r, REQUEUE_PUT_AGAIN, Deliver(PLAIN), REQUEUE_SECOND_IN);
    Then(2, REQUEUE, r, REQUEUE_SECOND_IN, Move(1, Ok), REQUEUE_SECOND_CLAIMED);
  }

  lemma RequeuePart3(r: State -> bool)
    requires Closed(2, REQUEUE, r)
    ensures r(REQUEUE_PUT_THRICE)
  {
    RequeuePart2(r);
    Then(2, REQUEUE, r, REQUEUE_SECOND_CLAIMED, Move(0, Ok), REQUEUE_PUT_BACK);
    Then(2, REQUEUE, r, REQUEUE_PUT_BACK, Publish(For(0)), REQUEUE_PUT_THRICE);
  }

  lemma RequeuePart4(r: State -> bool)
    requires Closed(2, REQUEUE, r)
    ensures r(REQUEUE_THIRD_CLAIMED)
  {
    RequeuePart3(r);
    Then(2, REQUEUE, r, REQUEUE_PUT_THRICE, Deliver(PLAIN), REQUEUE_THIRD_IN);
    Then(2, REQUEUE, r, REQUEUE_THIRD_IN, Move(2, Ok), REQUEUE_THIRD_CLAIMED);
  }

  /** Without A2, Requeue puts back a job that somebody else has claimed since it was marked
      failed, and a third worker claims it. */
  lemma UnguardedRequeueIsUnsafe() returns (s: State)
    ensures Reachable(2, REQUEUE, s) && !Exclusive(s)
  {
    ReachableIsClosed(2, REQUEUE);
    RequeuePart4(s => Reachable(2, REQUEUE, s));
    s := REQUEUE_THIRD_CLAIMED;
    assert InConvert(s, 1, 0) && InConvert(s, 2, 0);
  }

  const CLAIM_ERROR := OWNERSHIP.(claimsInSession := true, heardFinish := true, publishesLand := true)

  const CLAIM_ERROR_CLAIMED := One(Row(Converting, 1), 1, 0, 1, multiset{},
    [D(false, MarkFileConverting, 1, false)], Tally(1, 0, 0, 0, 0, 0, 0))
  const CLAIM_ERROR_TAKEN_BACK := One(Row(Converting, 1), 1, 1, 1, multiset{FLAGGED},
    [D(false, Gone, 1, false)], Tally(1, 0, 0, 0, 0, 0, 0))
  const CLAIM_ERROR_FLAGGED_IN := One(Row(Converting, 1), 1, 1, 1, multiset{},
    [D(false, Gone, 1, false), D(true, Received, 0, false)], Tally(1, 0, 0, 0, 0, 0, 0))
  const CLAIM_ERROR_CLAIM_REFUSED := One(Row(Converting, 1), 1, 1, 1, multiset{},
    [D(false, Gone, 1, false), D(true, ParkPublish, 0, false)], Tally(1, 0, 0, 0, 0, 0, 0))
  const CLAIM_ERROR_PARKED := One(Row(Converting, 1), 1, 1, 1, multiset{},
    [D(false, Gone, 1, false), D(true, Acking, 0, false)], Tally(1, 0, 0, 0, 0, 0, 0)).(retry := multiset{For(0)})
  const CLAIM_ERROR_FLAGGED_ACKED := One(Row(Converting, 1), 1, 1, 1, multiset{},
    [D(false, Gone, 1, false), D(true, Gone, 0, false)], Tally(1, 0, 0, 0, 0, 0, 0)).(retry := multiset{For(0)})
  const CLAIM_ERROR_EXPIRED := One(Row(Converting, 1), 1, 1, 1, multiset{PLAIN},
    [D(false, Gone, 1, false), D(true, Gone, 0, false)], Tally(1, 0, 0, 0, 0, 0, 0))
  const CLAIM_ERROR_UNFLAGGED_IN := One(Row(Converting, 1), 1, 1, 1, multiset{},
    [D(false, Gone, 1, false), D(true, Gone, 0, false), D(false, Received, 0, false)], Tally(1, 0, 0, 0, 0, 0, 0))
  const CLAIM_ERROR_SKIPPED := One(Row(Converting, 1), 1, 1, 1, multiset{},
    [D(false, Gone, 1, false), D(true, Gone, 0, false), D(false, Acking, 0, false)], Tally(1, 0, 0, 1, 0, 0, 0))
  const CLAIM_ERROR_OVER := One(Row(Converting, 1), 1, 1, 1, multiset{},
    [D(false, Gone, 1, false), D(true, Gone, 0, false), D(false, Gone, 0, false)], Tally(1, 0, 0, 1, 0, 0, 0))

  lemma ClaimErrorPart1(r: State -> bool)
    requires Closed(3, CLAIM_ERROR, r)
    ensures r(CLAIM_ERROR_FLAGGED_IN)
  {
    Opening(3, CLAIM_ERROR, r);
    Then(3, CLAIM_ERROR, r, OPENED, Move(0, Ok), CLAIM_ERROR_CLAIMED);
    Then(3, CLAIM_ERROR, r, CLAIM_ERROR_CLAIMED, Crash(0), CLAIM_ERROR_TAKEN_BACK);
    Then(3, CLAIM_ERROR, r, CLAIM_ERROR_TAKEN_BACK, Deliver(FLAGGED), CLAIM_ERROR_FLAGGED_IN);
  }

  lemma ClaimErrorPart2(r: State -> bool)
    requires Closed(3, CLAIM_ERROR, r)
    ensures r(CLAIM_ERROR_FLAGGED_ACKED)
  {
    ClaimErrorPart1(r);
    Then(3, CLAIM_ERROR, r, CLAIM_ERROR_FLAGGED_IN, Move(1, Refused), CLAIM_ERROR_CLAIM_REFUSED);
    Then(3, CLAIM_ERROR, r, CLAIM_ERROR_CLAIM_REFUSED, Move(1, Ok), CLAIM_ERROR_PARKED);
    Then(3, CLAIM_ERROR, r, CLAIM_ERROR_PARKED, Move(1, Ok), CLAIM_ERROR_FLAGGED_ACKED);
  }

  lemma ClaimErrorPart3(r: State -> bool)
    requires Closed(3, CLAIM_ERROR, r)
    ensures r(CLAIM_ERROR_UNFLAGGED_IN)
  {
    ClaimErrorPart2(r);
    Then(3, CLAIM_ERROR, r, CLAIM_ERROR_FLAGGED_ACKED, Expire(For(0)), CLAIM_ERROR_EXPIRED);
    Then(3, CLAIM_ERROR, r, CLAIM_ERROR_EXPIRED, Deliver(PLAIN), CLAIM_ERROR_UNFLAGGED_IN);
  }

  lemma ClaimErrorPart4(r: State -> bool)
    requires Closed(3, CLAIM_ERROR, r)
    ensures r(CLAIM_ERROR_OVER)
  {
    ClaimErrorPart3(r);
    Then(3, CLAIM_ERROR, r, CLAIM_ERROR_UNFLAGGED_IN, Move(2, Ok), CLAIM_ERROR_SKIPPED);
    Then(3, CLAIM_ERROR, r, CLAIM_ERROR_SKIPPED, Move(2, Ok), CLAIM_ERROR_OVER);
  }

  /** A claim error on a redelivery strands its job: the copy parked on the retry queue comes back
      without the flag, and only a flagged copy may claim a 'converting' row. */
  lemma ClaimErrorStrandsARedelivery() returns (s: State)
    ensures Reachable(3, CLAIM_ERROR, s) && Stranded(s, 0)
  {
    ReachableIsClosed(3, CLAIM_ERROR);
    ClaimErrorPart4(s => Reachable(3, CLAIM_ERROR, s));
    s := CLAIM_ERROR_OVER;
  }

  const UNMARKED := ONE_EFFECT.(claimsInSession := true, publishesLand := true, noCrashes := true)

  const UNMARKED_CLAIMED := One(Row(Converting, 1), 1, 0, 1, multiset{},
    [D(false, MarkFileConverting, 1, false)], Tally(1, 0, 0, 0, 0, 0, 0))
  const UNMARKED_FILE_MARKED := One(Row(Converting, 1), 1, 0, 1, multiset{},
    [D(false, MarkJobConverting, 1, false)], Tally(1, 0, 0, 0, 0, 0, 0))
  const UNMARKED_AT_WORK := One(Row(Converting, 1), 1, 0, 1, multiset{},
    [D(false, Work, 1, false)], Tally(1, 0, 0, 0, 0, 0, 0))
  const UNMARKED_WORK_FAILED := One(Row(Converting, 1), 1, 0, 1, multiset{},
    [D(false, MarkFileFailed, 1, false)], Tally(1, 0, 0, 0, 0, 0, 0))
  const UNMARKED_MARK_REFUSED := One(Row(Converting, 1), 1, 0, 1, multiset{},
    [D(false, DeadPublish, 1, false)], Tally(1, 0, 1, 0, 0, 0, 0))
  const UNMARKED_GIVEN_UP := One(Row(Converting, 1), 1, 0, 1, multiset{},
    [D(false, Acking, 1, false)], Tally(1, 0, 1, 0, 0, 0, 1)).(dead := multiset{For(0)})
  const UNMARKED_OVER := One(Row(Converting, 1), 1, 0, 1, multiset{},
    [D(false, Gone, 1, false)], Tally(1, 0, 1, 0, 0, 0, 1)).(dead := multiset{For(0)})

  lemma UnmarkedPart1(r: State -> bool)
    requires Closed(1, UNMARKED, r)
    ensures r(UNMARKED_AT_WORK)
  {
    Opening(1, UNMARKED, r);
    Then(1, UNMARKED, r, OPENED, Move(0, Ok), UNMARKED_CLAIMED);
    Then(1, UNMARKED, r, UNMARKED_CLAIMED, Move(0, Ok), UNMARKED_FILE_MARKED);
    Then(1, UNMARKED, r, UNMARKED_FILE_MARKED, Move(0, Ok), UNMARKED_AT_WORK);
  }

  lemma UnmarkedPart2(r: State -> bool)
    requires Closed(1, UNMARKED, r)
    ensures r(UNMARKED_MARK_REFUSED)
  {
    UnmarkedPart1(r);
    Then(1, UNMARKED, r, UNMARKED_AT_WORK, Move(0, Refused), UNMARKED_WORK_FAILED);
    Then(1, UNMARKED, r, UNMARKED_WORK_FAILED, Move(0, Refused), UNMARKED_MARK_REFUSED);
  }

  lemma UnmarkedPart3(r: State -> bool)
    requires Closed(1, UNMARKED, r)
    ensures r(UNMARKED_OVER)
  {
    UnmarkedPart2(r);
    Then(1, UNMARKED, r, UNMARKED_MARK_REFUSED, Move(0, Ok), UNMARKED_GIVEN_UP);
    Then(1, UNMARKED, r, UNMARKED_GIVEN_UP, Move(0, Ok), UNMARKED_OVER);
  }

  /** A refused 'failed' mark strands a job with no crash and no second copy: on the last attempt the
      message is dead-lettered and the row still says 'converting'. */
  lemma UnmarkedFailureStrandsAJob() returns (s: State)
    ensures Reachable(1, UNMARKED, s) && Stranded(s, 0)
  {
    ReachableIsClosed(1, UNMARKED);
    UnmarkedPart3(s => Reachable(1, UNMARKED, s));
    s := UNMARKED_OVER;
  }

  const UNHEARD := OWNERSHIP

  const UNHEARD_CLAIMED := One(Row(Converting, 1), 1, 0, 1, multiset{},
    [D(false, MarkFileConverting, 1, false)], Tally(1, 0, 0, 0, 0, 0, 0))
  const UNHEARD_FILE_MARKED := One(Row(Converting, 1), 1, 0, 1, multiset{},
    [D(false, MarkJobConverting, 1, false)], Tally(1, 0, 0, 0, 0, 0, 0))
  const UNHEARD_AT_WORK := One(Row(Converting, 1), 1, 0, 1, multiset{},
    [D(false, Work, 1, false)], Tally(1, 0, 0, 0, 0, 0, 0))
  const UNHEARD_WORK_DONE := One(Row(Converting, 1), 1, 0, 1, multiset{},
    [D(false, MarkFileConverted, 1, false)], Tally(1, 0, 0, 0, 0, 0, 0))
  const UNHEARD_FILE_DONE := One(Row(Converting, 1), 1, 0, 1, multiset{},
    [D(false, MarkJobConverted, 1, false)], Tally(1, 0, 0, 0, 0, 0, 0))
  const UNHEARD_UNHEARD_MARK := One(Row(Converted, 1), 1, 0, 1, multiset{},
    [D(false, Requeueing, 1, false)], Tally(1, 0, 1, 0, 0, 0, 0))

  lemma UndonePart1(r: State -> bool)
    requires Closed(3, UNHEARD, r)
    ensures r(UNHEARD_AT_WORK)
  {
    Opening(3, UNHEARD, r);
    Then(3, UNHEARD, r, OPENED, Move(0, Ok), UNHEARD_CLAIMED);
    Then(3, UNHEARD, r, UNHEARD_CLAIMED, Move(0, Ok), UNHEARD_FILE_MARKED);
    Then(3, UNHEARD, r, UNHEARD_FILE_MARKED, Move(0, Ok), UNHEARD_AT_WORK);
  }

  lemma UndonePart2(r: State -> bool)
    requires Closed(3, UNHEARD, r)
    ensures r(UNHEARD_UNHEARD_MARK)
  {
    UndonePart1(r);
    Then(3, UNHEARD, r, UNHEARD_AT_WORK, Move(0, Ok), UNHEARD_WORK_DONE);
    Then(3, UNHEARD, r, UNHEARD_WORK_DONE, Move(0, Ok), UNHEARD_FILE_DONE);
    Then(3, UNHEARD, r, UNHEARD_FILE_DONE, Move(0, Unheard), UNHEARD_UNHEARD_MARK);
  }

  /** Without A4 a converted job does not stay converted: the last write lands, its error sends
      the job through handleFailure, and Requeue puts it back. */
  lemma UnheardFinishIsUndone() returns (s: State, undone: State)
    ensures Reachable(3, UNHEARD, s) && Follows(3, UNHEARD, s, Move(0, Ok), undone)
    ensures |s.jobs| == |undone.jobs| == 1
    ensures s.jobs[0].row.status == Converted && undone.jobs[0].row.status == Queued
  {
    ReachableIsClosed(3, UNHEARD);
    UndonePart2(s => Reachable(3, UNHEARD, s));
    s := UNHEARD_UNHEARD_MARK;
    undone := Next(3, s, Move(0, Ok));
  }

  const LATE_CLAIM := OWNERSHIP.(callsSuffice := true)

  const LATE_LOST := One(Row(Queued, 0), 1, 1, 0, multiset{FLAGGED},
    [D(false, Received, 0, true)], Tally(1, 0, 0, 0, 0, 0, 0))
  const LATE_BOTH_IN := One(Row(Queued, 0), 1, 1, 0, multiset{},
    [D(false, Received, 0, true), D(true, Received, 0, false)], Tally(1, 0, 0, 0, 0, 0, 0))
  const LATE_FLAGGED_FAILED := One(Row(Failed, 1), 1, 1, 1, multiset{},
    [D(false, Received, 0, true), D(true, DeadPublish, 1, false)], Tally(1, 0, 1, 0, 0, 0, 0))
  const LATE_GIVEN_UP := One(Row(Failed, 1), 1, 1, 1, multiset{},
    [D(false, Received, 0, true), D(true, Acking, 1, false)], Tally(1, 0, 1, 0, 0, 0, 1)).(dead := multiset{For(0)})
  const LATE_FLAGGED_ACKED := One(Row(Failed, 1), 1, 1, 1, multiset{},
    [D(false, Received, 0, true), D(true, Gone, 1, false)], Tally(1, 0, 1, 0, 0, 0, 1)).(dead := multiset{For(0)})
  const LATE_CLAIMED := One(Row(Converting, 2), 1, 1, 2, multiset{},
    [D(false, MarkFileConverting, 2, true), D(true, Gone, 1, false)], Tally(1, 0, 1, 0, 0, 0, 1)).(dead := multiset{For(0)})
  const LATE_OVER := One(Row(Converting, 2), 1, 1, 2, multiset{},
    [D(false, Gone, 2, true), D(true, Gone, 1, false)], Tally(1, 0, 1, 0, 0, 0, 1)).(dead := multiset{For(0)})

  lemma LateClaimPart1(r: State -> bool)
    requires Closed(1, LATE_CLAIM, r)
    ensures r(LATE_BOTH_IN)
  {
    Opening(1, LATE_CLAIM, r);
    Then(1, LATE_CLAIM, r, OPENED, Lose(0), LATE_LOST);
    Then(1, LATE_CLAIM, r, LATE_LOST, Deliver(FLAGGED), LATE_BOTH_IN);
  }

  lemma LateClaimPart2(r: State -> bool)
    requires Closed(1, LATE_CLAIM, r)
    ensures r(LATE_FLAGGED_FAILED)
  {
    LateClaimPart1(r);
    FailedAttempt(1, LATE_CLAIM, r, LATE_BOTH_IN, 1, LATE_FLAGGED_FAILED);
  }

  lemma LateClaimPart3(r: State -> bool)
    requires Closed(1, LATE_CLAIM, r)
    ensures r(LATE_FLAGGED_ACKED)
  {
    LateClaimPart2(r);
    Then(1, LATE_CLAIM, r, LATE_FLAGGED_FAILED, Move(1, Ok), LATE_GIVEN_UP);
    Then(1, LATE_CLAIM, r, LATE_GIVEN_UP, Move(1, Ok), LATE_FLAGGED_ACKED);
  }

  lemma LateClaimPart4(r: State -> bool)
    requires Closed(1, LATE_CLAIM, r)
    ensures r(LATE_OVER)
  {
    LateClaimPart3(r);
    Then(1, LATE_CLAIM, r, LATE_FLAGGED_ACKED, Move(0, Ok), LATE_CLAIMED);
    Then(1, LATE_CLAIM, r, LATE_CLAIMED, Crash(0), LATE_OVER);
  }

  /** Without A5 a worker that claims after its message was taken back, and then dies, strands the
      job: the redelivered copy has been used up by then. */
  lemma LateClaimStrandsAJob() returns (s: State)
    ensures Reachable(1, LATE_CLAIM, s) && Stranded(s, 0)
  {
    ReachableIsClosed(1, LATE_CLAIM);
    LateClaimPart4(s => Reachable(1, LATE_CLAIM, s));
    s := LATE_OVER;
  }

  // ---------------------------------------------------------------------------
  // A message no claim ever takes
  // ---------------------------------------------------------------------------

  const EVERY_GUARD := Trust(true, true, true, true, true, true, true, true)
  const POISON := Copy(Stray, false)

  function Handled(pc: Pc): Delivery {
    Delivery(Stray, false, pc, 0, false)
  }

  /** One message that names no row, after k deliveries that are over and those in ds. */
  function Poisoned(k: nat, main: multiset<Copy>, retry: multiset<Body>, ds: seq<Delivery>): State {
    State([], main, retry, multiset{}, seq(k, _ => Handled(Gone)) + ds, Tally(1, 0, 0, 0, 0, 0, 0))
  }

  function Round(k: nat): seq<Label> {
    [Deliver(POISON), Move(k, Refused), Move(k, Ok), Move(k, Ok), Expire(Stray)]
  }

  /** One publication, and n rounds through the main queue and the retry queue. */
  function Rounds(n: nat): (ls: seq<Label>)
    ensures |ls| == 1 + 5 * n && ls[0] == Publish(Stray)
    ensures forall i :: 1 <= i < |ls| ==> ls[i].Deliver? || ls[i].Move? || ls[i].Expire?
  {
    if n == 0 then [Publish(Stray)] else Rounds(n - 1) + Round(n - 1)
  }

  lemma Chain(maxAttempts: nat, ls: seq<Label>, s: State, l: Label, s': State)
    requires Admits(maxAttempts, EVERY_GUARD, INIT, ls) && After(maxAttempts, EVERY_GUARD, INIT, ls) == s
    requires Follows(maxAttempts, EVERY_GUARD, s, l, s')
    ensures Admits(maxAttempts, EVERY_GUARD, INIT, ls + [l]) && After(maxAttempts, EVERY_GUARD, INIT, ls + [l]) == s'
  {
    Extend(maxAttempts, EVERY_GUARD, INIT, ls, l);
  }

  lemma PoisonPublished(maxAttempts: nat)
    ensures Follows(maxAttempts, EVERY_GUARD, INIT, Publish(Stray), Poisoned(0, multiset{POISON}, multiset{}, []))
  {
    hide CallsSuffice, HeardFinish, GuardedRequeue, ClaimsInSession, LoneRedelivery;
    QuietGuards(maxAttempts, INIT, Publish(Stray));
  }

  lemma PoisonArrives(maxAttempts: nat, k: nat)
    ensures Follows(maxAttempts, EVERY_GUARD, Poisoned(k, multiset{POISON}, multiset{}, []), Deliver(POISON),
      Poisoned(k, multiset{}, multiset{}, [Handled(Received)]))
  {
    hide CallsSuffice, HeardFinish, GuardedRequeue, ClaimsInSession, LoneRedelivery;
    var s := Poisoned(k, multiset{POISON}, multiset{}, []);
    QuietGuards(maxAttempts, s, Deliver(POISON));
  }

  lemma QuietGuards(maxAttempts: nat, s: State, l: Label)
    requires !l.Move?
    ensures LoneRedelivery(s, l) && GuardedRequeue(s, l) && HeardFinish(maxAttempts, s, l)
      && ClaimsInSession(s, l) && CallsSuffice(maxAttempts, s, l) && PublishesLand(s, l)
  {
  }

  lemma PoisonMoves(maxAttempts: nat, k: nat, pc: Pc, reply: Reply, pc': Pc, retry: multiset<Body>, retry': multiset<Body>)
    requires match pc
      case Received => reply.Refused? && pc'.ParkPublish? && retry == retry' == multiset{}
      case ParkPublish => reply.Ok? && pc'.Acking? && retry == multiset{} && retry' == multiset{Stray}
      case Acking => reply.Ok? && pc'.Gone? && retry == retry' == multiset{Stray}
      case _ => false
    ensures Follows(maxAttempts, EVERY_GUARD, Poisoned(k, multiset{}, retry, [Handled(pc)]), Move(k, reply),
      Poisoned(k, multiset{}, retry', [Handled(pc')]))
  {
    var s, s' := Poisoned(k, multiset{}, retry, [Handled(pc)]), Poisoned(k, multiset{}, retry', [Handled(pc')]);
    assert s.ds[k] == Handled(pc);
    assert s.ds[k := Handled(pc')] == s'.ds;
  }

  lemma PoisonReturns(maxAttempts: nat, k: nat)
    ensures Follows(maxAttempts, EVERY_GUARD, Poisoned(k, multiset{}, multiset{Stray}, [Handled(Gone)]), Expire(Stray),
      Poisoned(k + 1, multiset{POISON}, multiset{}, []))
  {
    hide CallsSuffice, HeardFinish, GuardedRequeue, ClaimsInSession, LoneRedelivery;
    var s, s' := Poisoned(k, multiset{}, multiset{Stray}, [Handled(Gone)]), Poisoned(k + 1, multiset{POISON}, multiset{}, []);
    QuietGuards(maxAttempts, s, Expire(Stray));
    assert s.ds == s'.ds;
  }

  lemma PoisonRound(maxAttempts: nat, k: nat, ls: seq<Label>)
    requires Admits(maxAttempts, EVERY_GUARD, INIT, ls)
    requires After(maxAttempts, EVERY_GUARD, INIT, ls) == Poisoned(k, multiset{POISON}, multiset{}, [])
    ensures Admits(maxAttempts, EVERY_GUARD, INIT, ls + Round(k))
    ensures After(maxAttempts, EVERY_GUARD, INIT, ls + Round(k)) == Poisoned(k + 1, multiset{POISON}, multiset{}, [])
  {
    hide Admits, After, Follows, Poisoned;
    var none, parked := multiset{}, multiset{Stray};
    PoisonArrives(maxAttempts, k);
    Chain(maxAttempts, ls, Poisoned(k, multiset{POISON}, none, []), Deliver(POISON), Poisoned(k, multiset{}, none, [Handled(Received)]));
    var ls1 := ls + [Deliver(POISON)];
    PoisonMoves(maxAttempts, k, Received, Refused, ParkPublish, none, none);
    Chain(maxAttempts, ls1, Poisoned(k, multiset{}, none, [Handled(Received)]), Move(k, Refused),
      Poisoned(k, multiset{}, none, [Handled(ParkPublish)]));
    var ls2 := ls1 + [Move(k, Refused)];
    PoisonMoves(maxAttempts, k, ParkPublish, Ok, Acking, none, parked);
    Chain(maxAttempts, ls2, Poisoned(k, multiset{}, none, [Handled(ParkPublish)]), Move(k, Ok),
      Poisoned(k, multiset{}, parked, [Handled(Acking)]));
    var ls3 := ls2 + [Move(k, Ok)];
    PoisonMoves(maxAttempts, k, Acking, Ok, Gone, parked, parked);
    Chain(maxAttempts, ls3, Poisoned(k, multiset{}, parked, [Handled(Acking)]), Move(k, Ok),
      Poisoned(k, multiset{}, parked, [Handled(Gone)]));
    var ls4 := ls3 + [Move(k, Ok)];
    PoisonReturns(maxAttempts, k);
    Chain(maxAttempts, ls4, Poisoned(k, multiset{}, parked, [Handled(Gone)]), Expire(Stray),
      Poisoned(k + 1, multiset{POISON}, none, []));
    assert ls4 + [Expire(Stray)] == ls + Round(k);
  }

  /** A message whose claim always returns an error, as one without a usable job id does, goes round
      for ever: one publication admits runs of any length, with every guard respected, no session
      or worker lost and every publication landing. So the claim errors in the bound on the length
      of a run cannot be left out. */
  lemma {:induction false} PoisonCirclesForever(maxAttempts: nat, n: nat)
    ensures Admits(maxAttempts, EVERY_GUARD, INIT, Rounds(n))
    ensures After(maxAttempts, EVERY_GUARD, INIT, Rounds(n)) == Poisoned(n, multiset{POISON}, multiset{}, [])
  {
    hide Follows, Poisoned, Round;
    if n == 0 {
      PoisonPublished(maxAttempts);
      assert [] + [Publish(Stray)] == Rounds(0);
      Chain(maxAttempts, [], INIT, Publish(Stray), Poisoned(0, multiset{POISON}, multiset{}, []));
    } else {
      hide Admits, After;
      PoisonCirclesForever(maxAttempts, n - 1);
      PoisonRound(maxAttempts, n - 1, Rounds(n - 1));
    }
  }
}
