/**
 Exactly which calls strand a job: when one delivery is all that is left of it, the call its worker
 is about to make keeps the job covered if and only if it suffices; and if it does not, the job stays
 where it is for as long as no session is lost and nobody publishes it again.
 */
module ProtocolStranding {
  import opened Wrappers
  import opened JobTable
  import opened Protocol
  import opened ProtocolSafety
  import opened ProtocolLiveness

  // ---------------------------------------------------------------------------
  // The calls that matter
  // ---------------------------------------------------------------------------

  /** Nothing but this delivery can bring a worker to the job. */
  ghost predicate OnlyCarrier(s: State, d: nat, job: nat) {
    !Waits(s, job) && Carrier(s, d, job) && forall e: nat :: Carrier(s, e, job) ==> e == d
  }

  ghost predicate Owed(maxAttempts: nat, s: State, job: nat) {
    job < |s.jobs| && s.jobs[job].published > 0 && !Settled(maxAttempts, s.jobs[job].row)
  }

  /** The delivery's claim returns an error it should not have: what is parked has no flag, and
      the row only takes a flagged one. */
  lemma ClaimUncovers(maxAttempts: nat, s: State, d: nat, reply: Reply, job: nat)
    requires Tended(maxAttempts, s) && Owed(maxAttempts, s, job) && OnlyCarrier(s, d, job)
    requires Allowed(maxAttempts, STEADY, s, Move(d, reply)) && s.ds[d].pc.Received?
    requires !Suffices(maxAttempts, s.jobs[job].row, s.ds[d], reply)
    ensures !Covered(maxAttempts, Moved(maxAttempts, s, d, reply), job)
  {
    var s' := Moved(maxAttempts, s, d, reply);
    assert s'.main == s.main && s'.jobs[job].row.status == Converting && s'.ds[d].pc.ParkPublish?;
    assert forall e: nat :: e < |s.ds| && e != d ==> s'.ds[e] == s.ds[e];
    assert forall e: nat :: Redelivery(s', e, job) ==> Carrier(s, e, job);
    assert forall e: nat :: Holder(s', e, job) && !s'.ds[e].lost ==> Carrier(s, e, job);
  }

  lemma HolderUncovers(maxAttempts: nat, s: State, d: nat, reply: Reply, job: nat)
    requires Tended(maxAttempts, s) && Owed(maxAttempts, s, job) && OnlyCarrier(s, d, job)
    requires Allowed(maxAttempts, STEADY, s, Move(d, reply)) && s.ds[d].Holding()
    requires !Suffices(maxAttempts, s.jobs[job].row, s.ds[d], reply)
    ensures !Covered(maxAttempts, Moved(maxAttempts, s, d, reply), job)
  {
    var s' := Moved(maxAttempts, s, d, reply);
    assert s.ds[d].Converting() ==> InConvert(s, d, job);
    assert s'.main == s.main && s'.jobs[job].row.status == Converting && !s'.ds[d].Holding();
    assert forall e: nat :: e < |s.ds| && e != d ==> s'.ds[e] == s.ds[e];
    assert forall e: nat :: Redelivery(s', e, job) ==> Carrier(s, e, job);
    assert forall e: nat :: Holder(s', e, job) && !s'.ds[e].lost ==> Carrier(s, e, job);
  }

  /** The message is parked, or its retry published, and the publication does not land. */
  lemma PublishUncovers(maxAttempts: nat, s: State, d: nat, reply: Reply, job: nat)
    requires Tended(maxAttempts, s) && Owed(maxAttempts, s, job) && OnlyCarrier(s, d, job)
    requires Enabled(s, Move(d, reply)) && (s.ds[d].pc.ParkPublish? || s.ds[d].pc.RetryPublish?)
    requires !Suffices(maxAttempts, s.jobs[job].row, s.ds[d], reply)
    ensures !Covered(maxAttempts, Moved(maxAttempts, s, d, reply), job)
  {
    TailFrame(maxAttempts, s, d, reply, job);
    hide Moved;
    var s' := Moved(maxAttempts, s, d, reply);
    assert !Waits(s', job);
    assert forall e: nat :: Carrier(s', e, job) ==> Carrier(s, e, job);
  }

  /** What a job needs of the calls made for it is exact: when one delivery is all there is left of
      an unsettled job, whatever its worker does next leaves the job covered if and only if the
      call suffices. */
  lemma SufficesExactly(maxAttempts: nat, s: State, d: nat, reply: Reply, job: nat)
    requires Tended(maxAttempts, s) && Owed(maxAttempts, s, job) && OnlyCarrier(s, d, job)
    requires Allowed(maxAttempts, STEADY, s, Move(d, reply))
    ensures Covered(maxAttempts, Moved(maxAttempts, s, d, reply), job)
      <==> Suffices(maxAttempts, s.jobs[job].row, s.ds[d], reply)
  {
    hide Covered, Moved, Tended;
    if Suffices(maxAttempts, s.jobs[job].row, s.ds[d], reply) {
      MoveCovers(maxAttempts, s, d, reply, job);
    } else if s.ds[d].Holding() {
      HolderUncovers(maxAttempts, s, d, reply, job);
    } else if s.ds[d].pc.Received? {
      ClaimUncovers(maxAttempts, s, d, reply, job);
    } else {
      PublishUncovers(maxAttempts, s, d, reply, job);
    }
  }

  // ---------------------------------------------------------------------------
  // Jobs nobody comes back to
  // ---------------------------------------------------------------------------

  predicate Done(d: Delivery) {
    d.pc.DeadPublish? || d.pc.Acking? || d.pc.Gone?
  }

  /** The row says 'converting', nobody holds the job, and no copy that could claim it is left. */
  predicate Orphan(s: State, job: nat) {
    && job < |s.jobs| && s.jobs[job].row.status == Converting && Copy(For(job), true) !in s.main
    && forall d :: 0 <= d < |s.ds| && s.ds[d].Names(job) ==>
         !s.ds[d].Holding() && !(s.ds[d].pc.Received? && s.ds[d].flagged)
  }

  /** No copy of the job is left at all. */
  predicate Forgotten(s: State, job: nat) {
    && job < |s.jobs| && !Waits(s, job)
    && forall d :: 0 <= d < |s.ds| && s.ds[d].Names(job) ==> Done(s.ds[d])
  }

  /** The row is as it was, and no publication is forgotten. */
  predicate Unmoved(s: State, s': State, job: nat) {
    && job < |s.jobs| && job < |s'.jobs|
    && s'.jobs[job].row == s.jobs[job].row && s'.jobs[job].published >= s.jobs[job].published
  }

  lemma OrphanStep(maxAttempts: nat, s: State, l: Label, job: nat)
    requires Orphan(s, job) && Allowed(maxAttempts, UNBROKEN, s, l)
    ensures var s' := Next(maxAttempts, s, l); Orphan(s', job) && Unmoved(s, s', job)
  {
    if l.Move? { OrphanMove(maxAttempts, s, l.d, l.reply, job); }
  }

  lemma OrphanMove(maxAttempts: nat, s: State, d: nat, reply: Reply, job: nat)
    requires Orphan(s, job) && Enabled(s, Move(d, reply))
    ensures var s' := Moved(maxAttempts, s, d, reply); Orphan(s', job) && Unmoved(s, s', job)
  {
    hide Act;
    var b := s.ds[d].body;
    ActFrame(maxAttempts, RowOf(s, b), s.ds[d], reply);
    if b == For(job) { ActOwnership(maxAttempts, RowOf(s, b), s.ds[d], reply); }
    var s' := Moved(maxAttempts, s, d, reply);
    assert forall e :: 0 <= e < |s.ds| && e != d ==> s'.ds[e] == s.ds[e];
  }

  lemma {:induction false} OrphanRun(maxAttempts: nat, s: State, ls: seq<Label>, job: nat)
    requires Orphan(s, job) && Admits(maxAttempts, UNBROKEN, s, ls)
    ensures var s' := After(maxAttempts, UNBROKEN, s, ls); Orphan(s', job) && Unmoved(s, s', job)
    decreases |ls|
  {
    assert Unmoved(s, s, job);
    hide Orphan, Next, Unmoved;
    if ls != [] {
      OrphanStep(maxAttempts, s, ls[0], job);
      OrphanRun(maxAttempts, Next(maxAttempts, s, ls[0]), ls[1..], job);
    }
  }

  lemma ForgottenStep(maxAttempts: nat, s: State, l: Label, job: nat)
    requires Forgotten(s, job) && Allowed(maxAttempts, UNBROKEN, s, l) && l != Publish(For(job))
    ensures var s' := Next(maxAttempts, s, l); Forgotten(s', job) && Unmoved(s, s', job)
  {
    if l.Move? { ForgottenMove(maxAttempts, s, l.d, l.reply, job); }
    else { ForgottenTraffic(maxAttempts, s, l, job); }
  }

  lemma ForgottenTraffic(maxAttempts: nat, s: State, l: Label, job: nat)
    requires Forgotten(s, job) && Enabled(s, l) && !l.Move? && NoCrashes(l) && l != Publish(For(job))
    ensures var s' := Next(maxAttempts, s, l); Forgotten(s', job) && Unmoved(s, s', job)
  {
    hide Moved, Done;
    var s' := Next(maxAttempts, s, l);
    if l.Deliver? { assert l.copy.body != For(job); }
    assert s'.ds[..|s.ds|] == s.ds;
  }

  lemma ForgottenMove(maxAttempts: nat, s: State, d: nat, reply: Reply, job: nat)
    requires Forgotten(s, job) && Enabled(s, Move(d, reply))
    ensures var s' := Moved(maxAttempts, s, d, reply); Forgotten(s', job) && Unmoved(s, s', job)
  {
    hide Act;
    var b := s.ds[d].body;
    ActFrame(maxAttempts, RowOf(s, b), s.ds[d], reply);
    if b == For(job) { DoneActs(maxAttempts, RowOf(s, b), s.ds[d], reply); }
    var s' := Moved(maxAttempts, s, d, reply);
    assert forall e :: 0 <= e < |s.ds| && e != d ==> s'.ds[e] == s.ds[e];
  }

  lemma DoneActs(maxAttempts: nat, row: Option<Row>, d: Delivery, reply: Reply)
    requires d.Live() && Done(d)
    ensures var e := Act(maxAttempts, row, d, reply); Done(e.next) && e.row == row && !e.toRetry
  {
  }

  lemma {:induction false} ForgottenRun(maxAttempts: nat, s: State, ls: seq<Label>, job: nat)
    requires Forgotten(s, job) && Admits(maxAttempts, UNBROKEN, s, ls) && Publish(For(job)) !in ls
    ensures var s' := After(maxAttempts, UNBROKEN, s, ls); Forgotten(s', job) && Unmoved(s, s', job)
    decreases |ls|
  {
    assert Unmoved(s, s, job);
    hide Forgotten, Next, Unmoved;
    if ls != [] {
      ForgottenStep(maxAttempts, s, ls[0], job);
      ForgottenRun(maxAttempts, Next(maxAttempts, s, ls[0]), ls[1..], job);
    }
  }

  // ---------------------------------------------------------------------------
  // A call that does not suffice
  // ---------------------------------------------------------------------------

  /** Every other delivery of the job is over but for its ack. */
  predicate LastDelivery(s: State, d: nat, job: nat) {
    && !Waits(s, job) && d < |s.ds| && s.ds[d].Names(job) && !Done(s.ds[d])
    && forall e :: 0 <= e < |s.ds| && s.ds[e].Names(job) && e != d ==> Done(s.ds[e])
  }

  lemma LastIsOnly(maxAttempts: nat, s: State, d: nat, job: nat)
    requires Tended(maxAttempts, s) && Owed(maxAttempts, s, job) && LastDelivery(s, d, job)
    ensures OnlyCarrier(s, d, job)
  {
    hide Sound;
    assert Covered(maxAttempts, s, job);
  }

  lemma InsufficientStrands(maxAttempts: nat, s: State, d: nat, reply: Reply, job: nat)
    requires Tended(maxAttempts, s) && Owed(maxAttempts, s, job) && LastDelivery(s, d, job)
    requires Allowed(maxAttempts, STEADY, s, Move(d, reply))
    requires !Suffices(maxAttempts, s.jobs[job].row, s.ds[d], reply)
    ensures var s' := Moved(maxAttempts, s, d, reply);
      Owed(maxAttempts, s', job) && (Orphan(s', job) || Forgotten(s', job))
  {
    var s' := Moved(maxAttempts, s, d, reply);
    assert Holder(s, d, job) <==> s.ds[d].Holding();
    assert s.ds[d].Converting() ==> InConvert(s, d, job);
    assert forall e :: 0 <= e < |s.ds| && e != d ==> s'.ds[e] == s.ds[e];
    LastIsOnly(maxAttempts, s, d, job);
    if s.ds[d].pc.ParkPublish? || s.ds[d].pc.RetryPublish? {
      TailFrame(maxAttempts, s, d, reply, job);
    }
  }

  /** After any run under the guards, when one delivery is all that is left of an unsettled job: a
      call that suffices leaves the job covered, and one that does not leaves it unsettled however
      the system goes on, as long as it loses no session or worker and nobody publishes the job. */
  lemma SufficesOrStrands(maxAttempts: nat, past: seq<Label>, d: nat, reply: Reply, job: nat, future: seq<Label>)
    requires Admits(maxAttempts, RELIABLE, INIT, past)
    requires var s := After(maxAttempts, RELIABLE, INIT, past);
      && Owed(maxAttempts, s, job) && LastDelivery(s, d, job) && Allowed(maxAttempts, STEADY, s, Move(d, reply))
      && Admits(maxAttempts, UNBROKEN, Next(maxAttempts, s, Move(d, reply)), future)
      && Publish(For(job)) !in future
    ensures var s := After(maxAttempts, RELIABLE, INIT, past); var s' := Next(maxAttempts, s, Move(d, reply));
      if Suffices(maxAttempts, s.jobs[job].row, s.ds[d], reply) then Covered(maxAttempts, s', job)
      else Owed(maxAttempts, After(maxAttempts, UNBROKEN, s', future), job)
  {
    StartsTended(maxAttempts);
    hide Tended, Moved, Covered, Suffices, Orphan, Forgotten;
    TendedRun(maxAttempts, INIT, past);
    var s := After(maxAttempts, RELIABLE, INIT, past);
    var s' := Next(maxAttempts, s, Move(d, reply));
    if Suffices(maxAttempts, s.jobs[job].row, s.ds[d], reply) {
      MoveCovers(maxAttempts, s, d, reply, job);
    } else {
      InsufficientStrands(maxAttempts, s, d, reply, job);
      if Orphan(s', job) {
        OrphanRun(maxAttempts, s', future, job);
      } else {
        ForgottenRun(maxAttempts, s', future, job);
      }
    }
  }
}
