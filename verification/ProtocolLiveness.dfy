/**
 No stranded job: when the calls that matter suffice (RELIABLE), a job that is neither converted nor
 out of attempts always has a message somewhere that will bring a worker to it. ProtocolStranding
 shows that no less will do.
 */
module ProtocolLiveness {
  import opened JobTable
  import opened Protocol
  import opened ProtocolSafety
  import opened ProtocolLedger

  /** Nothing more is owed to the job. */
  predicate Settled(maxAttempts: nat, r: Row) {
    r.status == Converted || (r.status == Failed && r.attempts >= maxAttempts)
  }

  predicate Waits(s: State, job: nat) {
    Copy(For(job), false) in s.main || Copy(For(job), true) in s.main || For(job) in s.retry
  }

  /** An unacked delivery, still the broker's, whose worker has yet to deal with the message. */
  predicate Carrier(s: State, d: nat, job: nat) {
    d < |s.ds| && s.ds[d].Names(job) && !s.ds[d].lost
    && (s.ds[d].pc.Received? || s.ds[d].pc.ParkPublish? || s.ds[d].Holding() || s.ds[d].pc.RetryPublish?)
  }

  ghost predicate HasCopy(s: State, job: nat) {
    Waits(s, job) || exists d: nat :: Carrier(s, d, job)
  }

  /** An unclaimed delivery of a message the broker marked as redelivered. */
  predicate Redelivery(s: State, d: nat, job: nat) {
    d < |s.ds| && s.ds[d].Names(job) && !s.ds[d].lost && s.ds[d].pc.Received? && s.ds[d].flagged
  }

  ghost predicate HasFlaggedCopy(s: State, job: nat) {
    Copy(For(job), true) in s.main || exists d: nat :: Redelivery(s, d, job)
  }

  /** Nobody holds the job whose death would bring its message back. */
  ghost predicate Unowned(s: State, job: nat) {
    forall d: nat :: Holder(s, d, job) ==> s.ds[d].lost
  }

  ghost predicate Covered(maxAttempts: nat, s: State, job: nat)
    requires job < |s.jobs|
  {
    && (s.jobs[job].published > 0 && !Settled(maxAttempts, s.jobs[job].row) ==> HasCopy(s, job))
    && (s.jobs[job].row.status == Converting && Unowned(s, job) ==> HasFlaggedCopy(s, job))
    && (forall d: nat :: Holder(s, d, job) ==>
          s.ds[d].attempts == s.jobs[job].row.attempts && (s.ds[d].pc.Requeueing? ==> s.ds[d].attempts < maxAttempts))
  }

  ghost predicate Tended(maxAttempts: nat, s: State) {
    && Sound(s)
    && (forall job: nat :: job < |s.jobs| ==> Covered(maxAttempts, s, job))
  }

  /** A flagged copy survives any action of a delivery other than the flagged one itself. */
  lemma FlagSurvives(s: State, s': State, d: nat, job: nat)
    requires HasFlaggedCopy(s, job) && s'.main == s.main
    requires d < |s.ds| == |s'.ds| && !Redelivery(s, d, job)
    requires forall e: nat :: e < |s.ds| && e != d ==> s'.ds[e] == s.ds[e]
    ensures HasFlaggedCopy(s', job)
  {
    if Copy(For(job), true) !in s.main {
      var e: nat :| Redelivery(s, e, job);
      assert Redelivery(s', e, job);
    }
  }

  /** Any flagged copy is a copy. */
  lemma FlaggedIsCopy(s: State, job: nat)
    requires HasFlaggedCopy(s, job)
    ensures HasCopy(s, job)
  {
    if Copy(For(job), true) !in s.main {
      var e: nat :| Redelivery(s, e, job);
      assert Carrier(s, e, job);
    }
  }

  ghost predicate SameBut(s: State, s': State, d: nat) {
    && s'.main == s.main && d < |s.ds| == |s'.ds|
    && forall e: nat :: e < |s.ds| && e != d ==> s'.ds[e] == s.ds[e]
  }

  /** A successful claim: the claimant becomes the one holder, in session. */
  lemma ClaimCovers(maxAttempts: nat, s: State, d: nat, job: nat)
    requires Tended(maxAttempts, s) && Enabled(s, Move(d, Ok)) && job < |s.jobs|
    requires s.ds[d].pc.Received? && s.ds[d].Names(job) && Claimable(s.jobs[job].row, s.ds[d].flagged)
    requires LoneRedelivery(s, Move(d, Ok)) && GuardedRequeue(s, Move(d, Ok)) && ClaimsInSession(s, Move(d, Ok))
    ensures Covered(maxAttempts, Moved(maxAttempts, s, d, Ok), job)
  {
    assert Claims(s, Move(d, Ok));
    var s' := Moved(maxAttempts, s, d, Ok);
    assert Carrier(s', d, job) && Holder(s', d, job);
    assert SameBut(s, s', d);
    forall e: nat | Holder(s', e, job) ensures e == d {
      assert e != d ==> Holder(s, e, job);
      ClaimantIsAlone(s, d, Ok, job, e);
    }
  }

  /** A claim that finds nothing to claim: whoever the job belongs to, or a flagged copy, still
      covers it. */
  lemma SkipCovers(maxAttempts: nat, s: State, d: nat, job: nat)
    requires Tended(maxAttempts, s) && Enabled(s, Move(d, Ok)) && job < |s.jobs|
    requires s.ds[d].pc.Received? && s.ds[d].Names(job) && !Claimable(s.jobs[job].row, s.ds[d].flagged)
    ensures Covered(maxAttempts, Moved(maxAttempts, s, d, Ok), job)
  {
    var s' := Moved(maxAttempts, s, d, Ok);
    assert Covered(maxAttempts, s, job) && SameBut(s, s', d);
    assert forall e: nat :: Holder(s', e, job) <==> Holder(s, e, job);
    if HasFlaggedCopy(s, job) && !s.ds[d].flagged {
      FlagSurvives(s, s', d, job);
      FlaggedIsCopy(s', job);
    }
    if s.jobs[job].row.status == Converting && !Unowned(s, job) {
      var e: nat :| Holder(s, e, job) && !s.ds[e].lost;
      assert Carrier(s', e, job);
    }
  }

  /** A claim that returned an error without taking effect is parked, and its message with it. */
  lemma ParkingCovers(maxAttempts: nat, s: State, d: nat, reply: Reply, job: nat)
    requires Tended(maxAttempts, s) && Enabled(s, Move(d, reply)) && job < |s.jobs|
    requires s.ds[d].pc.Received? && s.ds[d].Names(job) && !reply.Ok? && !Claims(s, Move(d, reply))
    requires s.ds[d].lost || Suffices(maxAttempts, s.jobs[job].row, s.ds[d], reply)
    ensures Covered(maxAttempts, Moved(maxAttempts, s, d, reply), job)
  {
    var s' := Moved(maxAttempts, s, d, reply);
    assert Covered(maxAttempts, s, job) && SameBut(s, s', d);
    assert s'.jobs[job].row == s.jobs[job].row && s'.jobs[job].published == s.jobs[job].published;
    assert forall e: nat :: Holder(s', e, job) <==> Holder(s, e, job);
    if e: nat :| Carrier(s, e, job) { assert Carrier(s', e, job); }
    if s.jobs[job].row.status == Converting && HasFlaggedCopy(s, job) { FlagSurvives(s, s', d, job); }
  }

  /** The holder keeps its job until it has settled it or is about to publish the retry. */
  lemma HolderFrame(maxAttempts: nat, s: State, d: nat, reply: Reply, job: nat)
    requires Enabled(s, Move(d, reply)) && job < |s.jobs|
    requires s.ds[d].Holding() && s.ds[d].Names(job)
    requires s.ds[d].attempts == s.jobs[job].row.attempts
    ensures var s' := Moved(maxAttempts, s, d, reply);
      && SameBut(s, s', d) && |s'.jobs| == |s.jobs| && s'.retry == s.retry
      && s'.jobs[job].published == s.jobs[job].published && s'.jobs[job].row.attempts == s.jobs[job].row.attempts
      && s'.ds[d] == s.ds[d].(pc := s'.ds[d].pc) && !s'.ds[d].pc.Received?
      && (s'.ds[d].pc.Requeueing? ==> s.ds[d].attempts < maxAttempts)
      && (s'.jobs[job].row.status == Converting ==> s.jobs[job].row.status == Converting || s.ds[d].Converting())
      && (s.ds[d].Converting() || s'.jobs[job].row.status == s.jobs[job].row.status || s.ds[d].pc.Requeueing?)
  {
  }

  /** What a call that suffices leaves behind. */
  lemma HolderGoesOn(maxAttempts: nat, s: State, d: nat, reply: Reply, job: nat)
    requires Enabled(s, Move(d, reply)) && job < |s.jobs|
    requires s.ds[d].Holding() && s.ds[d].Names(job) && s.ds[d].attempts == s.jobs[job].row.attempts
    requires !s.ds[d].lost && Suffices(maxAttempts, s.jobs[job].row, s.ds[d], reply)
    ensures var s' := Moved(maxAttempts, s, d, reply);
      && (Settled(maxAttempts, s'.jobs[job].row) || s'.ds[d].Holding() || s'.ds[d].pc.RetryPublish?)
      && (s'.jobs[job].row.status == Converting ==> s'.ds[d].Holding())
  {
  }

  /** Every step of a holder in session, from its first write to its Requeue. */
  lemma HolderCovers(maxAttempts: nat, s: State, d: nat, reply: Reply, job: nat)
    requires Tended(maxAttempts, s) && Enabled(s, Move(d, reply)) && job < |s.jobs|
    requires s.ds[d].Holding() && s.ds[d].Names(job)
    requires !s.ds[d].lost && Suffices(maxAttempts, s.jobs[job].row, s.ds[d], reply)
    ensures Covered(maxAttempts, Moved(maxAttempts, s, d, reply), job)
  {
    hide Sound, Settled, Suffices;
    assert Covered(maxAttempts, s, job) && Holder(s, d, job);
    HolderFrame(maxAttempts, s, d, reply, job);
    HolderGoesOn(maxAttempts, s, d, reply, job);
    hide Moved;
    var s' := Moved(maxAttempts, s, d, reply);
    assert forall e: nat :: Holder(s', e, job) ==> Holder(s, e, job);
    assert s'.ds[d].Holding() ==> Holder(s', d, job);
    assert s'.ds[d].Holding() || s'.ds[d].pc.RetryPublish? ==> Carrier(s', d, job);
  }

  /** And of one whose message the broker has taken back, whatever its calls answer. */
  lemma LostHolderCovers(maxAttempts: nat, s: State, d: nat, reply: Reply, job: nat)
    requires Tended(maxAttempts, s) && Enabled(s, Move(d, reply)) && job < |s.jobs|
    requires s.ds[d].Holding() && s.ds[d].Names(job) && s.ds[d].lost
    ensures Covered(maxAttempts, Moved(maxAttempts, s, d, reply), job)
  {
    assert Covered(maxAttempts, s, job) && Holder(s, d, job);
    assert s.ds[d].Converting() ==> InConvert(s, d, job);
    assert Unowned(s, job);
    assert s.jobs[job].row.status != Converted;
    HolderFrame(maxAttempts, s, d, reply, job);
    hide Sound, Moved;
    var s' := Moved(maxAttempts, s, d, reply);
    assert forall e: nat :: Holder(s', e, job) ==> Holder(s, e, job);
    if HasFlaggedCopy(s, job) {
      FlagSurvives(s, s', d, job);
      FlaggedIsCopy(s', job);
    }
    if e: nat :| Carrier(s, e, job) { assert Carrier(s', e, job); }
  }

  /** Publishing and acking leave the row alone, and hold nothing. */
  lemma TailFrame(maxAttempts: nat, s: State, d: nat, reply: Reply, job: nat)
    requires Enabled(s, Move(d, reply)) && job < |s.jobs|
    requires !s.ds[d].pc.Received? && !s.ds[d].Holding()
    ensures var s' := Moved(maxAttempts, s, d, reply);
      && SameBut(s, s', d) && |s'.jobs| == |s.jobs|
      && s'.jobs[job].row == s.jobs[job].row && s'.jobs[job].published == s.jobs[job].published
      && (forall b :: b in s.retry ==> b in s'.retry)
      && (forall b :: b in s'.retry ==> b in s.retry || (b == s.ds[d].body && reply.Applied()))
      && ((s.ds[d].pc.RetryPublish? || s.ds[d].pc.ParkPublish?) && reply.Applied() ==> s.ds[d].body in s'.retry)
      && (s'.ds[d].pc.Acking? || s'.ds[d].pc.Gone?)
  {
  }

  /** Parking, scheduling the retry and acking: the row is no longer this worker's business. */
  lemma TailCovers(maxAttempts: nat, s: State, d: nat, reply: Reply, job: nat)
    requires Tended(maxAttempts, s) && Enabled(s, Move(d, reply)) && job < |s.jobs|
    requires !s.ds[d].pc.Received? && !s.ds[d].Holding() && s.ds[d].Names(job)
    requires Suffices(maxAttempts, s.jobs[job].row, s.ds[d], reply)
    ensures Covered(maxAttempts, Moved(maxAttempts, s, d, reply), job)
  {
    TailFrame(maxAttempts, s, d, reply, job);
    hide Moved;
    var s' := Moved(maxAttempts, s, d, reply);
    assert Covered(maxAttempts, s, job);
    if HasFlaggedCopy(s, job) { FlagSurvives(s, s', d, job); }
    assert forall e: nat :: Holder(s', e, job) <==> Holder(s, e, job);
    if e: nat :| Carrier(s, e, job) && e != d { assert Carrier(s', e, job); }
  }

  /** An action of a delivery of some other message. */
  lemma OtherCovers(maxAttempts: nat, s: State, d: nat, reply: Reply, job: nat)
    requires Tended(maxAttempts, s) && Enabled(s, Move(d, reply)) && job < |s.jobs|
    requires !s.ds[d].Names(job)
    ensures Covered(maxAttempts, Moved(maxAttempts, s, d, reply), job)
  {
    hide Act;
    var s' := Moved(maxAttempts, s, d, reply);
    assert Covered(maxAttempts, s, job) && SameBut(s, s', d);
    ActFrame(maxAttempts, RowOf(s, s.ds[d].body), s.ds[d], reply);
    if HasFlaggedCopy(s, job) { FlagSurvives(s, s', d, job); }
    assert forall e: nat :: Holder(s', e, job) <==> Holder(s, e, job);
    if e: nat :| Carrier(s, e, job) { assert Carrier(s', e, job); }
  }

  /** A job stays covered through every action of a worker on it that suffices, and every action on
      another job. */
  lemma MoveCovers(maxAttempts: nat, s: State, d: nat, reply: Reply, job: nat)
    requires Tended(maxAttempts, s) && job < |s.jobs|
    requires Allowed(maxAttempts, STEADY, s, Move(d, reply))
    requires s.ds[d].Names(job) ==> Suffices(maxAttempts, s.jobs[job].row, s.ds[d], reply)
    ensures Covered(maxAttempts, Moved(maxAttempts, s, d, reply), job)
  {
    hide Moved, Covered, Sound;
    if !s.ds[d].Names(job) { OtherCovers(maxAttempts, s, d, reply, job); }
    else if s.ds[d].Holding() {
      if s.ds[d].lost { LostHolderCovers(maxAttempts, s, d, reply, job); }
      else { HolderCovers(maxAttempts, s, d, reply, job); }
    }
    else if !s.ds[d].pc.Received? { TailCovers(maxAttempts, s, d, reply, job); }
    else if !reply.Ok? { ParkingCovers(maxAttempts, s, d, reply, job); }
    else if Claimable(s.jobs[job].row, s.ds[d].flagged) { ClaimCovers(maxAttempts, s, d, job); }
    else { SkipCovers(maxAttempts, s, d, job); }
  }

  /** A message the broker takes back is a flagged copy, which covers its job on its own. */
  lemma TakenBackCovers(maxAttempts: nat, s: State, l: Label, job: nat)
    requires Tended(maxAttempts, s) && Enabled(s, l) && (l.Lose? || l.Crash?) && job < |s.jobs|
    requires s.ds[l.d].Names(job) && !s.ds[l.d].lost
    ensures Covered(maxAttempts, Next(maxAttempts, s, l), job)
  {
    var s' := Next(maxAttempts, s, l);
    assert Covered(maxAttempts, s, job);
    assert Copy(For(job), true) in s'.main;
    assert forall e: nat :: Holder(s', e, job) ==> Holder(s, e, job);
  }

  /** What losing a session or a worker changes: at most one more flagged copy on the main queue,
      and the delivery itself. */
  lemma LossShape(maxAttempts: nat, s: State, l: Label, job: nat)
    requires Enabled(s, l) && (l.Lose? || l.Crash?) && job < |s.jobs|
    ensures var s' := Next(maxAttempts, s, l);
      && |s'.jobs| == |s.jobs| && |s'.ds| == |s.ds| && s'.retry == s.retry
      && s'.jobs[job].row == s.jobs[job].row && s'.jobs[job].published == s.jobs[job].published
      && (forall c :: c in s.main ==> c in s'.main)
      && (forall e: nat :: e < |s.ds| && e != l.d ==> s'.ds[e] == s.ds[e])
      && s'.ds[l.d] == if l.Lose? then s.ds[l.d].(lost := true) else s.ds[l.d].(pc := Gone)
  {
    hide Moved;
  }

  /** The end of a delivery that no longer counted, or of another job's. */
  lemma LossCovers(maxAttempts: nat, s: State, l: Label, job: nat)
    requires Tended(maxAttempts, s) && Enabled(s, l) && (l.Lose? || l.Crash?) && job < |s.jobs|
    requires !s.ds[l.d].Names(job) || s.ds[l.d].lost
    ensures Covered(maxAttempts, Next(maxAttempts, s, l), job)
  {
    hide Sound, Settled;
    var s' := Next(maxAttempts, s, l);
    assert Covered(maxAttempts, s, job);
    LossShape(maxAttempts, s, l, job);
    hide Next;
    if e: nat :| Carrier(s, e, job) { assert Carrier(s', e, job); }
    if e: nat :| Redelivery(s, e, job) { assert Redelivery(s', e, job); }
    if e: nat :| Holder(s, e, job) && !s.ds[e].lost { assert Holder(s', e, job); }
  }

  lemma PublicationShape(maxAttempts: nat, s: State, l: Label, job: nat)
    requires Valid(s) && Enabled(s, l) && job < |s.jobs|
    requires l.Expire? || l.Publish? || l.Create?
    ensures var s' := Next(maxAttempts, s, l);
      && job < |s'.jobs| && s'.ds == s.ds && s'.jobs[job].row == s.jobs[job].row
      && (s'.jobs[job].published == s.jobs[job].published || Waits(s', job))
      && (Waits(s, job) ==> Waits(s', job)) && (forall c :: c in s.main ==> c in s'.main)
  {
    hide Moved;
  }

  /** New jobs, publications and expiries only add copies. */
  lemma PublicationCovers(maxAttempts: nat, s: State, l: Label, job: nat)
    requires Tended(maxAttempts, s) && Enabled(s, l) && job < |s.jobs|
    requires l.Expire? || l.Publish? || l.Create?
    ensures Covered(maxAttempts, Next(maxAttempts, s, l), job)
  {
    assert Covered(maxAttempts, s, job) && Valid(s);
    PublicationShape(maxAttempts, s, l, job);
    hide Next, Sound, Settled, Waits;
    var s' := Next(maxAttempts, s, l);
    assert forall e: nat :: Holder(s', e, job) <==> Holder(s, e, job);
    if e: nat :| Carrier(s, e, job) { assert Carrier(s', e, job); }
    if e: nat :| Redelivery(s, e, job) { assert Redelivery(s', e, job); }
  }

  /** A copy handed to a worker is still a copy, flagged if it was. */
  lemma DeliveryCovers(maxAttempts: nat, s: State, c: Copy, job: nat)
    requires Tended(maxAttempts, s) && c in s.main && job < |s.jobs|
    ensures Covered(maxAttempts, Next(maxAttempts, s, Deliver(c)), job)
  {
    hide Moved;
    var s' := Next(maxAttempts, s, Deliver(c));
    assert Covered(maxAttempts, s, job);
    assert s'.ds[..|s.ds|] == s.ds && forall x :: x in s.main && x != c ==> x in s'.main;
    assert forall e: nat :: Holder(s', e, job) <==> Holder(s, e, job);
    if c.body == For(job) {
      assert Carrier(s', |s.ds|, job);
      assert c.flagged ==> Redelivery(s', |s.ds|, job);
    }
    if e: nat :| Carrier(s, e, job) { assert Carrier(s', e, job); }
    if e: nat :| Redelivery(s, e, job) { assert Redelivery(s', e, job); }
  }

  lemma TendedStep(maxAttempts: nat, s: State, l: Label)
    requires Tended(maxAttempts, s) && Allowed(maxAttempts, RELIABLE, s, l)
    ensures Tended(maxAttempts, Next(maxAttempts, s, l))
  {
    hide Covered, Moved, Taken;
    var s' := Next(maxAttempts, s, l);
    OneEffectStep(maxAttempts, s, l);
    forall job: nat | job < |s'.jobs|
      ensures Covered(maxAttempts, s', job)
    {
      if job >= |s.jobs| { NewJobCovered(maxAttempts, s, l); }
      else if l.Move? { MoveCovers(maxAttempts, s, l.d, l.reply, job); }
      else if l.Deliver? { DeliveryCovers(maxAttempts, s, l.copy, job); }
      else if !l.Lose? && !l.Crash? { PublicationCovers(maxAttempts, s, l, job); }
      else if s.ds[l.d].Names(job) && !s.ds[l.d].lost { TakenBackCovers(maxAttempts, s, l, job); }
      else { LossCovers(maxAttempts, s, l, job); }
    }
  }

  lemma NewJobCovered(maxAttempts: nat, s: State, l: Label)
    requires Valid(s) && Enabled(s, l) && |Next(maxAttempts, s, l).jobs| > |s.jobs|
    ensures |Next(maxAttempts, s, l).jobs| == |s.jobs| + 1
    ensures Covered(maxAttempts, Next(maxAttempts, s, l), |s.jobs|)
  {
    assert l.Create?;
    forall d: nat | d < |s.ds| ensures !s.ds[d].Names(|s.jobs|) {
      assert Fits(s.ds[d].body, |s.jobs|);
    }
  }

  lemma {:induction false} TendedRun(maxAttempts: nat, s: State, ls: seq<Label>)
    requires Tended(maxAttempts, s) && Admits(maxAttempts, RELIABLE, s, ls)
    ensures Tended(maxAttempts, After(maxAttempts, RELIABLE, s, ls))
    decreases |ls|
  {
    if ls != [] {
      TendedStep(maxAttempts, s, ls[0]);
      TendedRun(maxAttempts, Next(maxAttempts, s, ls[0]), ls[1..]);
    }
  }

  /** No stranded job: with duplicates, lost sessions and dead workers anywhere in the run, an
      enqueued job that is not settled has a copy on the main queue, on the retry queue or in
      the hands of a worker in session; and one left 'converting' by a worker that is gone, or
      out of session, has a copy flagged redelivered, whose claim the row will accept. */
  lemma NoStrandedJob(maxAttempts: nat, ls: seq<Label>, job: nat)
    requires Admits(maxAttempts, RELIABLE, INIT, ls)
    requires job < |After(maxAttempts, RELIABLE, INIT, ls).jobs|
    ensures var s := After(maxAttempts, RELIABLE, INIT, ls); var j := s.jobs[job];
      && (j.published > 0 && !Settled(maxAttempts, j.row) ==> HasCopy(s, job))
      && (j.row.status == Converting && Unowned(s, job) ==> HasFlaggedCopy(s, job) && Claimable(j.row, true))
  {
    TendedRun(maxAttempts, INIT, ls);
    assert Covered(maxAttempts, After(maxAttempts, RELIABLE, INIT, ls), job);
  }

  // ---------------------------------------------------------------------------
  // Coming to rest
  // ---------------------------------------------------------------------------

  /** The queues are empty, and nobody is running but workers whose message was taken back before
      they claimed, which may claim no more. */
  predicate AtRest(s: State) {
    && s.main == multiset{} && s.retry == multiset{}
    && forall d :: 0 <= d < |s.ds| && s.ds[d].Live() ==> s.ds[d].pc.Received? && s.ds[d].lost && s.ds[d].body.For?
  }

  predicate AllSettled(maxAttempts: nat, s: State) {
    forall job: nat :: job < |s.jobs| && s.jobs[job].published > 0 ==> Settled(maxAttempts, s.jobs[job].row)
  }

  lemma AtRestSettled(maxAttempts: nat, s: State)
    requires Tended(maxAttempts, s) && AtRest(s)
    ensures AllSettled(maxAttempts, s)
  {
    hide Sound;
    forall job: nat | job < |s.jobs| && s.jobs[job].published > 0
      ensures Settled(maxAttempts, s.jobs[job].row)
    {
      assert Covered(maxAttempts, s, job);
    }
  }

  /** A run that has come to rest has settled every job it enqueued: each is converted, or
      failed with its attempts spent. */
  lemma RestIsSettled(maxAttempts: nat, ls: seq<Label>)
    requires Admits(maxAttempts, RELIABLE, INIT, ls) && AtRest(After(maxAttempts, RELIABLE, INIT, ls))
    ensures AllSettled(maxAttempts, After(maxAttempts, RELIABLE, INIT, ls))
  {
    TendedRun(maxAttempts, INIT, ls);
    AtRestSettled(maxAttempts, After(maxAttempts, RELIABLE, INIT, ls));
  }

  /** Short of rest something can always happen that is not a disturbance. */
  lemma Progress(maxAttempts: nat, s: State) returns (l: Label)
    requires Valid(s) && !AtRest(s)
    ensures Allowed(maxAttempts, RELIABLE, s, l) && !Disturbance(s, l)
  {
    if c :| c in s.main {
      l := Deliver(c);
    } else if b :| b in s.retry {
      l := Expire(b);
    } else if d :| 0 <= d < |s.ds| && s.ds[d].Live() && !s.ds[d].pc.Received? {
      l := Move(d, Ok);
    } else {
      var d :| 0 <= d < |s.ds| && s.ds[d].Live() && !(s.ds[d].lost && s.ds[d].body.For?);
      l := Move(d, Ok);
    }
  }

  /** A run the environment leaves alone. */
  predicate Calm(maxAttempts: nat, s: State, ls: seq<Label>)
    requires Admits(maxAttempts, RELIABLE, s, ls)
    decreases |ls|
  {
    ls == [] || (!Disturbance(s, ls[0]) && Calm(maxAttempts, Next(maxAttempts, s, ls[0]), ls[1..]))
  }

  lemma RangeStep(maxAttempts: nat, s: State, l: Label)
    requires Valid(s) && AttemptsInRange(maxAttempts, s) && Enabled(s, l)
    ensures AttemptsInRange(maxAttempts, Next(maxAttempts, s, l))
  {
    if l.Move? {
      MoveKeepsRange(maxAttempts, s, l.d, l.reply);
    } else {
      EnvironmentAttempts(maxAttempts, s, l);
    }
  }

  lemma {:induction false} RangeRun(maxAttempts: nat, s: State, ls: seq<Label>)
    requires Valid(s) && AttemptsInRange(maxAttempts, s) && Admits(maxAttempts, RELIABLE, s, ls)
    ensures AttemptsInRange(maxAttempts, After(maxAttempts, RELIABLE, s, ls))
    decreases |ls|
  {
    hide Valid, AttemptsInRange, Next;
    if ls != [] {
      ValidNext(maxAttempts, s, ls[0]);
      RangeStep(maxAttempts, s, ls[0]);
      RangeRun(maxAttempts, Next(maxAttempts, s, ls[0]), ls[1..]);
    }
  }

  lemma {:induction false} CalmRunsDown(maxAttempts: nat, s: State, ls: seq<Label>)
    requires Valid(s) && AttemptsInRange(maxAttempts, s)
    requires Admits(maxAttempts, RELIABLE, s, ls) && Calm(maxAttempts, s, ls)
    ensures |ls| + Measure(maxAttempts, After(maxAttempts, RELIABLE, s, ls)) <= Measure(maxAttempts, s)
    decreases |ls|
  {
    hide Valid, AttemptsInRange, Next, Measure, Disturbance;
    if ls != [] {
      ValidNext(maxAttempts, s, ls[0]);
      RangeStep(maxAttempts, s, ls[0]);
      StepRunsDown(maxAttempts, s, ls[0]);
      CalmRunsDown(maxAttempts, Next(maxAttempts, s, ls[0]), ls[1..]);
    }
  }

  /** Only the environment can still do something. */
  ghost predicate Stuck(maxAttempts: nat, s: State) {
    forall l :: Allowed(maxAttempts, RELIABLE, s, l) ==> Disturbance(s, l)
  }

  lemma StuckIsAtRest(maxAttempts: nat, s: State)
    requires Valid(s) && Stuck(maxAttempts, s)
    ensures AtRest(s)
  {
    hide Valid, Allowed, Disturbance;
    if !AtRest(s) { var l := Progress(maxAttempts, s); }
  }

  /** However a run has gone, once the environment leaves it alone every continuation, whatever
      its conversions and its calls that do not matter come to, is no longer than the measure,
      and ends only at rest, with every job that was ever enqueued settled. */
  lemma SettlesByItself(maxAttempts: nat, past: seq<Label>, calm: seq<Label>)
    requires Admits(maxAttempts, RELIABLE, INIT, past)
    requires var now := After(maxAttempts, RELIABLE, INIT, past);
      Admits(maxAttempts, RELIABLE, now, calm) && Calm(maxAttempts, now, calm)
    ensures var now := After(maxAttempts, RELIABLE, INIT, past);
      var later := After(maxAttempts, RELIABLE, now, calm);
      && |calm| <= Measure(maxAttempts, now)
      && (Stuck(maxAttempts, later) ==> AtRest(later) && AllSettled(maxAttempts, later))
  {
    StartsTended(maxAttempts);
    hide Tended, Valid, AttemptsInRange, Measure, AtRest, AllSettled, Stuck, Admits, After, Calm;
    TendedRun(maxAttempts, INIT, past);
    RangeRun(maxAttempts, INIT, past);
    var now := After(maxAttempts, RELIABLE, INIT, past);
    TendedIsValid(maxAttempts, now);
    CalmRunsDown(maxAttempts, now, calm);
    TendedRun(maxAttempts, now, calm);
    var later := After(maxAttempts, RELIABLE, now, calm);
    TendedIsValid(maxAttempts, later);
    if Stuck(maxAttempts, later) {
      StuckIsAtRest(maxAttempts, later);
      AtRestSettled(maxAttempts, later);
    }
  }

  lemma StartsTended(maxAttempts: nat)
    ensures Tended(maxAttempts, INIT) && Valid(INIT) && AttemptsInRange(maxAttempts, INIT)
  {
  }

  lemma TendedIsValid(maxAttempts: nat, s: State)
    requires Tended(maxAttempts, s)
    ensures Valid(s)
  {
  }
}
