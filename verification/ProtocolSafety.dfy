/**
 Exclusive conversion and one final effect: what every run keeps when the environment
 respects the guards in OWNERSHIP (A1, A2) and ONE_EFFECT (also A4).
 */
module ProtocolSafety {
  import opened Wrappers
  import opened JobTable
  import opened Protocol

  /** Delivery d is converting the job, or has yet to put it back after a failed attempt. */
  predicate Holder(s: State, d: nat, job: nat) {
    d < |s.ds| && s.ds[d].Holding() && s.ds[d].Names(job)
  }

  predicate InConvert(s: State, d: nat, job: nat) {
    d < |s.ds| && s.ds[d].Converting() && s.ds[d].Names(job)
  }

  /** At most one live worker is inside Convert for any job. */
  ghost predicate Exclusive(s: State) {
    forall d: nat, e: nat, job: nat :: InConvert(s, d, job) && InConvert(s, e, job) ==> d == e
  }

  /** The inductive form: one holder a job, and a job being converted says so in its row. */
  ghost predicate OneHolder(s: State) {
    && (forall d: nat, e: nat, job: nat :: Holder(s, d, job) && Holder(s, e, job) ==> d == e)
    && (forall d: nat, job: nat :: InConvert(s, d, job) && job < |s.jobs| ==> s.jobs[job].row.status == Converting)
  }

  /** A worker action changes its row only by claiming it or by already holding it. */
  lemma ActOwnership(maxAttempts: nat, row: Option<Row>, d: Delivery, reply: Reply)
    requires d.Live()
    ensures var e := Act(maxAttempts, row, d, reply);
      && (e.row != row ==>
            d.Holding() || (d.pc.Received? && reply.Applied() && row.Some? && Claimable(row.value, d.flagged)))
      && (e.next.Holding() && !d.Holding() ==>
            d.pc.Received? && reply.Applied() && row.Some? && Claimable(row.value, d.flagged) && e.row == Some(ClaimedRow(row.value))
            && e.next.attempts == row.value.attempts + 1)
      && (e.next.Converting() && d.Converting() && row.Some? && row.value.status == Converting ==>
            e.row.value.status == Converting)
      && (e.next.Converting() ==> d.Converting() || d.pc.Received?)
  {
  }

  /** Claiming leaves no room for a second holder. */
  lemma ClaimantIsAlone(s: State, d: nat, reply: Reply, job: nat, e: nat)
    requires Valid(s) && OneHolder(s) && d < |s.ds| && job < |s.jobs|
    requires Claims(s, Move(d, reply)) && s.ds[d].Names(job)
    requires LoneRedelivery(s, Move(d, reply)) && GuardedRequeue(s, Move(d, reply))
    requires forall h: nat :: Holder(s, h, job) ==> s.ds[h].attempts > 0
    ensures !Holder(s, e, job)
  {
    assert Holder(s, e, job) ==> Claimant(s, e, job);
    assert InConvert(s, e, job) ==> s.jobs[job].row.status == Converting;
  }

  /** Whoever holds a job has claimed it, so has a positive attempt number. */
  ghost predicate HoldersClaimed(s: State) {
    forall d: nat :: d < |s.ds| && (s.ds[d].Holding() || s.ds[d].pc.RetryPublish?) ==> s.ds[d].attempts > 0
  }

  /** What a worker's action leaves to another holder: its hold, its row, and the job to itself. */
  lemma MoveSparesOthers(maxAttempts: nat, s: State, d: nat, reply: Reply, e: nat, job: nat)
    requires Valid(s) && OneHolder(s) && HoldersClaimed(s)
    requires Enabled(s, Move(d, reply))
    requires LoneRedelivery(s, Move(d, reply)) && GuardedRequeue(s, Move(d, reply))
    requires e != d && Holder(Moved(maxAttempts, s, d, reply), e, job)
    ensures var s' := Moved(maxAttempts, s, d, reply);
      Holder(s, e, job) && !Holder(s', d, job) && job < |s.jobs| && s'.jobs[job].row == s.jobs[job].row
  {
    hide Act;
    var s' := Moved(maxAttempts, s, d, reply);
    var b := s.ds[d].body;
    ActFrame(maxAttempts, RowOf(s, b), s.ds[d], reply);
    ActOwnership(maxAttempts, RowOf(s, b), s.ds[d], reply);
    assert s'.ds[e] == s.ds[e] && Holder(s, e, job);
    assert Fits(b, |s.jobs|) && Fits(s.ds[e].body, |s.jobs|);
    if b == For(job) {
      assert !s.ds[d].Holding() by { assert Holder(s, d, job) ==> d == e; }
      if Claims(s, Move(d, reply)) {
        ClaimantIsAlone(s, d, reply, job, e);
      }
    }
  }

  lemma MoveKeepsOneHolder(maxAttempts: nat, s: State, d: nat, reply: Reply)
    requires Valid(s) && OneHolder(s) && HoldersClaimed(s)
    requires Enabled(s, Move(d, reply))
    requires LoneRedelivery(s, Move(d, reply)) && GuardedRequeue(s, Move(d, reply))
    ensures OneHolder(Moved(maxAttempts, s, d, reply))
  {
    hide Act, LoneRedelivery, GuardedRequeue, HoldersClaimed;
    var s' := Moved(maxAttempts, s, d, reply);
    var b := s.ds[d].body;
    forall e: nat, job: nat | Holder(s', e, job) && e != d
      ensures Holder(s, e, job) && !Holder(s', d, job) && job < |s.jobs| && s'.jobs[job].row == s.jobs[job].row
    {
      MoveSparesOthers(maxAttempts, s, d, reply, e, job);
    }
    forall e: nat, job: nat | InConvert(s', e, job) && job < |s'.jobs|
      ensures s'.jobs[job].row.status == Converting
    {
      assert Holder(s', e, job);
      if e == d {
        ActFrame(maxAttempts, RowOf(s, b), s.ds[d], reply);
        ActOwnership(maxAttempts, RowOf(s, b), s.ds[d], reply);
        assert s.ds[d].Converting() ==> InConvert(s, d, job);
      } else {
        assert s'.ds[e] == s.ds[e] && InConvert(s, e, job);
      }
    }
  }

  lemma ActClaims(maxAttempts: nat, row: Option<Row>, d: Delivery, reply: Reply)
    requires d.Live()
    ensures var e := Act(maxAttempts, row, d, reply);
      && (e.next.attempts != d.attempts ==> e.next.attempts > 0)
      && (e.next.Holding() || e.next.pc.RetryPublish? ==> d.Holding() || e.next.attempts > 0)
  {
  }

  lemma MoveKeepsHoldersClaimed(maxAttempts: nat, s: State, d: nat, reply: Reply)
    requires HoldersClaimed(s) && Enabled(s, Move(d, reply))
    ensures HoldersClaimed(Moved(maxAttempts, s, d, reply))
  {
    hide Act;
    var s' := Moved(maxAttempts, s, d, reply);
    ActClaims(maxAttempts, RowOf(s, s.ds[d].body), s.ds[d], reply);
    assert forall e: nat :: e < |s.ds| && e != d ==> s'.ds[e] == s.ds[e];
  }

  /** The broker and the API give nobody a new hold on a job. */
  lemma UntouchedHolders(s: State, s': State)
    requires Untouched(s, s')
    ensures forall d: nat, job: nat :: Holder(s', d, job) ==> Holder(s, d, job)
    ensures forall d: nat, job: nat :: InConvert(s', d, job) ==> InConvert(s, d, job)
  {
  }

  lemma UntouchedKeepsOneHolder(s: State, s': State)
    requires Valid(s) && OneHolder(s) && HoldersClaimed(s) && Untouched(s, s')
    ensures OneHolder(s') && HoldersClaimed(s')
  {
    UntouchedHolders(s, s');
    forall d: nat, job: nat | InConvert(s', d, job) && job < |s'.jobs|
      ensures s'.jobs[job].row.status == Converting
    {
      assert Fits(s.ds[d].body, |s.jobs|);
    }
  }

  lemma ExclusiveStep(maxAttempts: nat, s: State, l: Label)
    requires Valid(s) && OneHolder(s) && HoldersClaimed(s) && Enabled(s, l)
    requires LoneRedelivery(s, l) && GuardedRequeue(s, l)
    ensures OneHolder(Next(maxAttempts, s, l)) && HoldersClaimed(Next(maxAttempts, s, l))
  {
    if l.Move? {
      MoveKeepsOneHolder(maxAttempts, s, l.d, l.reply);
      MoveKeepsHoldersClaimed(maxAttempts, s, l.d, l.reply);
    } else {
      EnvironmentFrame(maxAttempts, s, l);
      UntouchedKeepsOneHolder(s, Next(maxAttempts, s, l));
    }
  }

  lemma {:induction false} ExclusiveRun(maxAttempts: nat, s: State, ls: seq<Label>)
    requires Valid(s) && OneHolder(s) && HoldersClaimed(s)
    requires Admits(maxAttempts, OWNERSHIP, s, ls)
    ensures OneHolder(After(maxAttempts, OWNERSHIP, s, ls))
    decreases |ls|
  {
    if ls != [] {
      ValidNext(maxAttempts, s, ls[0]);
      ExclusiveStep(maxAttempts, s, ls[0]);
      ExclusiveRun(maxAttempts, Next(maxAttempts, s, ls[0]), ls[1..]);
    }
  }

  /** Exclusive conversion: in every state any run respecting A1 and A2 can reach, whatever
      copies were duplicated, lost, redelivered, parked or expired on the way, at most one
      live worker is inside Convert for a given job. */
  lemma ExclusiveConversion(maxAttempts: nat, ls: seq<Label>)
    requires Admits(maxAttempts, OWNERSHIP, INIT, ls)
    ensures Exclusive(After(maxAttempts, OWNERSHIP, INIT, ls))
  {
    ExclusiveRun(maxAttempts, INIT, ls);
    var s := After(maxAttempts, OWNERSHIP, INIT, ls);
    assert forall d: nat, job: nat :: InConvert(s, d, job) ==> Holder(s, d, job);
  }

  // ---------------------------------------------------------------------------
  // One final effect
  // ---------------------------------------------------------------------------

  /** Nobody works on a converted job, and Convert has succeeded for a job at most once,
      and only if the job is converted. */
  ghost predicate OneEffect(s: State) {
    forall job: nat :: job < |s.jobs| ==>
      && s.jobs[job].won <= (if s.jobs[job].row.status == Converted then 1 else 0)
      && (s.jobs[job].row.status == Converted ==> forall d: nat :: !Holder(s, d, job))
  }

  ghost predicate Sound(s: State) {
    Valid(s) && OneHolder(s) && HoldersClaimed(s) && OneEffect(s)
  }

  /** How a row becomes converted, and how a success is counted. */
  lemma ActWins(maxAttempts: nat, row: Option<Row>, d: Delivery, reply: Reply)
    requires d.Live() && row.Some?
    requires d.pc.MarkJobConverted? && d.attempts < maxAttempts ==> !reply.Unheard?
    ensures var e := Act(maxAttempts, row, d, reply);
      && e.row.Some?
      && (e.event.Succeeded? ==> d.Holding() && e.row.value.status == Converted)
      && (e.row.value.status == Converted && row.value.status != Converted ==> d.Holding() && !e.next.Holding())
      && (row.value.status == Converted && !d.Holding() ==> e.row.value.status == Converted && !e.next.Holding())
  {
  }

  lemma MoveKeepsOneEffect(maxAttempts: nat, s: State, d: nat, reply: Reply, job: nat)
    requires Sound(s) && Enabled(s, Move(d, reply)) && job < |s.jobs|
    requires HeardFinish(maxAttempts, s, Move(d, reply))
    ensures var s' := Moved(maxAttempts, s, d, reply); var j := s'.jobs[job];
      && (s.jobs[job].row.status == Converted ==> j.row.status == Converted)
      && j.won <= (if j.row.status == Converted then 1 else 0)
      && (j.row.status == Converted ==> forall e: nat :: !Holder(s', e, job))
  {
    var s' := Moved(maxAttempts, s, d, reply);
    var b := s.ds[d].body;
    ActFrame(maxAttempts, RowOf(s, b), s.ds[d], reply);
    if b == For(job) {
      ActWins(maxAttempts, RowOf(s, b), s.ds[d], reply);
      assert s.ds[d].Holding() ==> Holder(s, d, job);
    }
    forall e: nat | Holder(s', e, job)
      ensures s'.jobs[job].row.status != Converted
    {
      if e != d {
        assert s'.ds[e] == s.ds[e];
        assert Holder(s, e, job);
      }
    }
  }

  lemma UntouchedKeepsOneEffect(s: State, s': State)
    requires OneEffect(s) && Untouched(s, s')
    ensures OneEffect(s')
    ensures forall job: nat :: job < |s.jobs| ==> s'.jobs[job].row == s.jobs[job].row
  {
    UntouchedHolders(s, s');
  }

  lemma OneEffectStep(maxAttempts: nat, s: State, l: Label)
    requires Sound(s) && Allowed(maxAttempts, ONE_EFFECT, s, l)
    ensures Sound(Next(maxAttempts, s, l))
    ensures forall job: nat :: job < |s.jobs| && s.jobs[job].row.status == Converted ==>
      job < |Next(maxAttempts, s, l).jobs| && Next(maxAttempts, s, l).jobs[job].row.status == Converted
  {
    ValidNext(maxAttempts, s, l);
    ExclusiveStep(maxAttempts, s, l);
    if l.Move? {
      forall job: nat | job < |s.jobs| {
        MoveKeepsOneEffect(maxAttempts, s, l.d, l.reply, job);
      }
    } else {
      EnvironmentFrame(maxAttempts, s, l);
      UntouchedKeepsOneEffect(s, Next(maxAttempts, s, l));
    }
  }

  lemma {:induction false} OneEffectRun(maxAttempts: nat, s: State, ls: seq<Label>)
    requires Sound(s) && Admits(maxAttempts, ONE_EFFECT, s, ls)
    ensures Sound(After(maxAttempts, ONE_EFFECT, s, ls))
    ensures forall job: nat :: job < |s.jobs| && s.jobs[job].row.status == Converted ==>
      job < |After(maxAttempts, ONE_EFFECT, s, ls).jobs|
      && After(maxAttempts, ONE_EFFECT, s, ls).jobs[job].row.status == Converted
    decreases |ls|
  {
    if ls != [] {
      OneEffectStep(maxAttempts, s, ls[0]);
      OneEffectRun(maxAttempts, Next(maxAttempts, s, ls[0]), ls[1..]);
    }
  }

  /** One final effect: a converted job stays converted in every continuation of the run, and
      Convert has returned success for it at most once, however many copies were delivered. */
  lemma OneFinalEffect(maxAttempts: nat, past: seq<Label>, future: seq<Label>, job: nat)
    requires Admits(maxAttempts, ONE_EFFECT, INIT, past)
    requires Admits(maxAttempts, ONE_EFFECT, After(maxAttempts, ONE_EFFECT, INIT, past), future)
    requires job < |After(maxAttempts, ONE_EFFECT, INIT, past).jobs|
    ensures var now := After(maxAttempts, ONE_EFFECT, INIT, past);
      var later := After(maxAttempts, ONE_EFFECT, now, future);
      && now.jobs[job].won <= 1
      && (now.jobs[job].won == 1 ==> now.jobs[job].row.status == Converted)
      && (now.jobs[job].row.status == Converted ==>
            job < |later.jobs| && later.jobs[job].row.status == Converted && later.jobs[job].won <= 1)
  {
    OneEffectRun(maxAttempts, INIT, past);
    OneEffectRun(maxAttempts, After(maxAttempts, ONE_EFFECT, INIT, past), future);
  }
}
