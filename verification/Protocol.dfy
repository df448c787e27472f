/**
 The conversion-job protocol as a step machine: the API publishing copies of job messages,
 the broker's three queues, and workers running Consumer.process one atomic action at a
 time (backend/internal/convert/queue.go, with the row transitions of
 backend/internal/files/jobs.go and the job marks of backend/internal/convert/pipeline.go).

 A delivery is never removed from the state, so its index names it for ever; the worker
 handling it is the program counter it carries.
 */
module Protocol {
  import opened Wrappers
  import opened JobTable

  /** A message body: not decodable, decodable but naming no row (or nothing the database takes
      for an id), or naming a job. */
  datatype Body = Malformed | Stray | For(job: nat)

  /** A copy waiting on the main queue; flagged means the broker will mark it redelivered. */
  datatype Copy = Copy(body: Body, flagged: bool)

  /** Where the worker stands in process, Convert and handleFailure. */
  datatype Pc =
    | Received            // about to decode and claim
    | ParkPublish         // the claim returned an error: about to park on the retry queue
    | MarkFileConverting  // Convert, first write
    | MarkJobConverting
    | Work                // everything BundleConverter.convert does
    | MarkFileFailed
    | MarkJobFailed
    | MarkFileConverted
    | MarkJobConverted    // Convert, last write
    | Requeueing          // handleFailure with attempts left
    | RetryPublish
    | DeadPublish         // handleFailure with attempts spent
    | Acking
    | Gone                // acked, or the worker died

  /** lost: the broker has taken the message back, though the worker may still be running. */
  datatype Delivery = Delivery(body: Body, flagged: bool, pc: Pc, attempts: nat, lost: bool) {
    predicate Live() { !pc.Gone? }

    /** Inside Convert. */
    predicate Converting() {
      pc.MarkFileConverting? || pc.MarkJobConverting? || pc.Work? || pc.MarkFileFailed?
      || pc.MarkJobFailed? || pc.MarkFileConverted? || pc.MarkJobConverted?
    }

    /** Inside Convert, or due to put the job back with Requeue. */
    predicate Holding() { Converting() || pc.Requeueing? }

    predicate Names(job: nat) { body == For(job) }
  }

  /** What a worker action adds to the counters, and to the job's history. */
  datatype Event = Quiet | BadBody | Skipped | Started | Succeeded | RunFailed | RetryScheduled | GaveUp

  datatype Effect = Effect(row: Option<Row>, next: Delivery, toRetry: bool, toDead: bool, event: Event)

  function Mark(row: Option<Row>, status: Status, reply: Reply): Option<Row> {
    match row
    case None => None
    case Some(r) => Some(WithStatus(r, status, reply))
  }

  /** Convert returned an error: count it, and choose between another go and giving up. */
  function AfterFailure(maxAttempts: nat, row: Option<Row>, d: Delivery): Effect {
    Effect(row, d.(pc := if d.attempts >= maxAttempts then DeadPublish else Requeueing),
           false, false, RunFailed)
  }

  /** One atomic action of the worker handling d, on the row its message names. */
  function Act(maxAttempts: nat, row: Option<Row>, d: Delivery, reply: Reply): Effect
    requires d.Live()
  {
    match d.pc
    case Received =>
      if d.body.Malformed? then
        Effect(row, d.(pc := Acking), false, reply.Applied(), BadBody)
      else
        var hit := row.Some? && Claimable(row.value, d.flagged);
        var row' := if hit && reply.Applied() then Some(ClaimedRow(row.value)) else row;
        if !reply.Ok? then
          Effect(row', d.(pc := ParkPublish), false, false, Quiet)
        else if hit then
          Effect(row', d.(pc := MarkFileConverting, attempts := row'.value.attempts), false, false, Started)
        else
          Effect(row, d.(pc := Acking), false, false, Skipped)
    case ParkPublish =>
      Effect(row, d.(pc := Acking), reply.Applied(), false, Quiet)
    case MarkFileConverting =>
      if reply.Ok? then Effect(row, d.(pc := MarkJobConverting), false, false, Quiet)
      else AfterFailure(maxAttempts, row, d)
    case MarkJobConverting =>
      var row' := Mark(row, Converting, reply);
      if reply.Ok? then Effect(row', d.(pc := Work), false, false, Quiet)
      else AfterFailure(maxAttempts, row', d)
    case Work =>
      Effect(row, d.(pc := if reply.Ok? then MarkFileConverted else MarkFileFailed), false, false, Quiet)
    case MarkFileFailed =>
      if reply.Ok? then Effect(row, d.(pc := MarkJobFailed), false, false, Quiet)
      else AfterFailure(maxAttempts, row, d)
    case MarkJobFailed =>
      AfterFailure(maxAttempts, Mark(row, Failed, reply), d)
    case MarkFileConverted =>
      if reply.Ok? then Effect(row, d.(pc := MarkJobConverted), false, false, Quiet)
      else AfterFailure(maxAttempts, row, d)
    case MarkJobConverted =>
      var row' := Mark(row, Converted, reply);
      if reply.Ok? then Effect(row', d.(pc := Acking), false, false, Succeeded)
      else AfterFailure(maxAttempts, row', d)
    case Requeueing =>
      Effect(Mark(row, Queued, reply), d.(pc := RetryPublish), false, false, Quiet)
    case RetryPublish =>
      Effect(row, d.(pc := Acking), reply.Applied(), false, RetryScheduled)
    case DeadPublish =>
      Effect(row, d.(pc := Acking), false, reply.Applied(), GaveUp)
    case Acking =>
      Effect(row, d.(pc := Gone), false, false, Quiet)
  }

  /** The Prometheus counters, plus put: copies the API put on the main queue. */
  datatype Tally = Tally(put: nat, succeeded: nat, failed: nat, skipped: nat,
                         malformed: nat, retried: nat, exhausted: nat)

  function Counted(t: Tally, e: Event): Tally {
    match e
    case BadBody => t.(malformed := t.malformed + 1)
    case Skipped => t.(skipped := t.skipped + 1)
    case Succeeded => t.(succeeded := t.succeeded + 1)
    case RunFailed => t.(failed := t.failed + 1)
    case RetryScheduled => t.(retried := t.retried + 1)
    case GaveUp => t.(exhausted := t.exhausted + 1)
    case _ => t
  }

  /** A job's row and its history: copies published by the API, copies the broker took back,
      failure retries scheduled, Convert calls, and Convert calls that returned success. */
  datatype Job = Job(row: Row, published: nat, redelivered: nat, retried: nat, started: nat, won: nat)

  function Recorded(j: Job, e: Event): Job {
    match e
    case Started => j.(started := j.started + 1)
    case Succeeded => j.(won := j.won + 1)
    case RetryScheduled => j.(retried := j.retried + 1)
    case _ => j
  }

  datatype State = State(jobs: seq<Job>, main: multiset<Copy>, retry: multiset<Body>, dead: multiset<Body>,
                         ds: seq<Delivery>, tally: Tally)

  const INIT := State([], multiset{}, multiset{}, multiset{}, [], Tally(0, 0, 0, 0, 0, 0, 0))

  predicate Fits(b: Body, jobs: nat) {
    b.For? ==> b.job < jobs
  }

  ghost predicate ValidQueues(main: multiset<Copy>, retry: multiset<Body>, jobs: nat) {
    && (forall c :: c in main ==> Fits(c.body, jobs))
    && (forall b :: b in retry ==> Fits(b, jobs))
  }

  ghost predicate ValidDeliveries(ds: seq<Delivery>, jobs: nat) {
    forall d :: 0 <= d < |ds| ==>
      && Fits(ds[d].body, jobs)
      && (ds[d].Holding() || ds[d].attempts > 0 ==> ds[d].body.For?)
      && (ds[d].pc.Received? ==> ds[d].attempts == 0)
  }

  ghost predicate Valid(s: State) {
    ValidQueues(s.main, s.retry, |s.jobs|) && ValidDeliveries(s.ds, |s.jobs|)
  }

  datatype Label =
    | Create
    | Publish(body: Body)
    | Deliver(copy: Copy)
    | Move(d: nat, reply: Reply)
    | Expire(body: Body)
    | Lose(d: nat)
    | Crash(d: nat)

  predicate Enabled(s: State, l: Label) {
    match l
    case Create => true
    case Publish(body) => Fits(body, |s.jobs|)
    case Deliver(copy) => copy in s.main
    case Move(d, _) => d < |s.ds| && s.ds[d].Live()
    case Expire(body) => body in s.retry
    case Lose(d) => d < |s.ds| && s.ds[d].Live() && !s.ds[d].lost
    case Crash(d) => d < |s.ds| && s.ds[d].Live()
  }

  function RowOf(s: State, b: Body): Option<Row> {
    if b.For? && b.job < |s.jobs| then Some(s.jobs[b.job].row) else None
  }

  function Taken(s: State, d: nat): State
    requires d < |s.ds|
  {
    var b := s.ds[d].body;
    var jobs := if b.For? && b.job < |s.jobs|
                then s.jobs[b.job := s.jobs[b.job].(redelivered := s.jobs[b.job].redelivered + 1)]
                else s.jobs;
    s.(jobs := jobs, main := s.main + multiset{Copy(b, true)})
  }

  function Written(s: State, b: Body, row: Option<Row>, e: Event): seq<Job> {
    if b.For? && b.job < |s.jobs| && row.Some?
    then s.jobs[b.job := Recorded(s.jobs[b.job].(row := row.value), e)]
    else s.jobs
  }

  /** The state once delivery d has had effect e. */
  function Enacted(s: State, d: nat, e: Effect): State
    requires d < |s.ds|
  {
    var b := s.ds[d].body;
    State(Written(s, b, e.row, e.event), s.main,
          if e.toRetry then s.retry + multiset{b} else s.retry,
          if e.toDead then s.dead + multiset{b} else s.dead,
          s.ds[d := e.next], Counted(s.tally, e.event))
  }

  function Moved(maxAttempts: nat, s: State, d: nat, reply: Reply): State
    requires d < |s.ds| && s.ds[d].Live()
  {
    Enacted(s, d, Act(maxAttempts, RowOf(s, s.ds[d].body), s.ds[d], reply))
  }

  function Next(maxAttempts: nat, s: State, l: Label): State
    requires Enabled(s, l)
  {
    match l
    case Create =>
      s.(jobs := s.jobs + [Job(FRESH, 0, 0, 0, 0, 0)])
    case Publish(b) =>
      s.(jobs := if b.For? then s.jobs[b.job := s.jobs[b.job].(published := s.jobs[b.job].published + 1)]
                 else s.jobs,
         main := s.main + multiset{Copy(b, false)},
         tally := s.tally.(put := s.tally.put + 1))
    case Deliver(c) =>
      s.(main := s.main - multiset{c}, ds := s.ds + [Delivery(c.body, c.flagged, Received, 0, false)])
    case Move(d, reply) =>
      Moved(maxAttempts, s, d, reply)
    case Expire(b) =>
      // Dead-lettering republishes the message, so the redelivered flag is not carried over.
      s.(retry := s.retry - multiset{b}, main := s.main + multiset{Copy(b, false)})
    case Lose(d) =>
      Taken(s, d).(ds := s.ds[d := s.ds[d].(lost := true)])
    case Crash(d) =>
      var s' := if s.ds[d].lost then s else Taken(s, d);
      s'.(ds := s.ds[d := s.ds[d].(pc := Gone)])
  }

  /** What every worker action leaves alone, whatever it does. */
  lemma ActFrame(maxAttempts: nat, row: Option<Row>, d: Delivery, reply: Reply)
    requires d.Live()
    ensures var e := Act(maxAttempts, row, d, reply);
      && e.next.body == d.body && e.next.flagged == d.flagged && e.next.lost == d.lost
      && e.row.Some? == row.Some? && !e.next.pc.Received?
      && (e.next.attempts != d.attempts ==> d.pc.Received? && row.Some?)
      && (e.next.Holding() ==> d.Holding() || (d.pc.Received? && row.Some?))
  {
  }

  lemma ValidMoved(maxAttempts: nat, s: State, d: nat, reply: Reply)
    requires Valid(s) && Enabled(s, Move(d, reply))
    ensures var s' := Moved(maxAttempts, s, d, reply); |s'.jobs| == |s.jobs| && ValidDeliveries(s'.ds, |s'.jobs|)
  {
    hide Act;
    ActFrame(maxAttempts, RowOf(s, s.ds[d].body), s.ds[d], reply);
    var s' := Moved(maxAttempts, s, d, reply);
    assert forall e :: 0 <= e < |s.ds| && e != d ==> s'.ds[e] == s.ds[e];
  }

  lemma ValidNextDeliveries(maxAttempts: nat, s: State, l: Label)
    requires Valid(s) && Enabled(s, l)
    ensures var s' := Next(maxAttempts, s, l);
      |s'.jobs| >= |s.jobs| && ValidDeliveries(s'.ds, |s'.jobs|)
  {
    hide Moved, Taken;
    if l.Move? {
      ValidMoved(maxAttempts, s, l.d, l.reply);
    } else if l.Deliver? {
      assert Fits(l.copy.body, |s.jobs|);
    } else if l.Lose? || l.Crash? {
      ValidLoss(maxAttempts, s, l);
    }
  }

  lemma ValidLoss(maxAttempts: nat, s: State, l: Label)
    requires Valid(s) && Enabled(s, l) && (l.Lose? || l.Crash?)
    ensures var s' := Next(maxAttempts, s, l);
      |s'.jobs| == |s.jobs| && ValidDeliveries(s'.ds, |s'.jobs|)
  {
    hide Moved;
  }

  lemma MoveQueues(maxAttempts: nat, s: State, d: nat, reply: Reply)
    requires Valid(s) && Enabled(s, Move(d, reply))
    ensures var s' := Moved(maxAttempts, s, d, reply); ValidQueues(s'.main, s'.retry, |s.jobs|)
  {
    hide Act;
    assert Fits(s.ds[d].body, |s.jobs|);
    hide ValidDeliveries;
    var s' := Moved(maxAttempts, s, d, reply);
    assert s'.main == s.main && forall b :: b in s'.retry ==> b in s.retry || b == s.ds[d].body;
  }

  lemma TrafficQueues(maxAttempts: nat, s: State, l: Label)
    requires Valid(s) && Enabled(s, l) && !l.Move? && !l.Lose? && !l.Crash?
    ensures var s' := Next(maxAttempts, s, l); ValidQueues(s'.main, s'.retry, |s'.jobs|)
  {
    hide Moved, Taken, ValidDeliveries;
    if l.Expire? { assert Fits(l.body, |s.jobs|); }
  }

  lemma LossQueues(maxAttempts: nat, s: State, l: Label)
    requires Valid(s) && Enabled(s, l) && (l.Lose? || l.Crash?)
    ensures var s' := Next(maxAttempts, s, l); ValidQueues(s'.main, s'.retry, |s.jobs|)
  {
    hide Moved;
    assert Fits(s.ds[l.d].body, |s.jobs|);
    hide ValidDeliveries;
  }

  lemma ValidNext(maxAttempts: nat, s: State, l: Label)
    requires Valid(s) && Enabled(s, l)
    ensures Valid(Next(maxAttempts, s, l))
    ensures |Next(maxAttempts, s, l).jobs| >= |s.jobs|
  {
    hide Moved, ValidQueues, ValidDeliveries;
    ValidNextDeliveries(maxAttempts, s, l);
    if l.Move? {
      ValidMoved(maxAttempts, s, l.d, l.reply);
      MoveQueues(maxAttempts, s, l.d, l.reply);
    } else if l.Lose? || l.Crash? {
      ValidLoss(maxAttempts, s, l);
      LossQueues(maxAttempts, s, l);
    } else {
      TrafficQueues(maxAttempts, s, l);
    }
  }

  /** No row has been written and no worker has acted: there may be a fresh job, an unclaimed
      delivery, a lost session or a dead worker. */
  ghost predicate Untouched(s: State, s': State) {
    && |s.jobs| <= |s'.jobs| && |s.ds| <= |s'.ds|
    && (forall job: nat :: job < |s.jobs| ==>
          s'.jobs[job].row == s.jobs[job].row && s'.jobs[job].won == s.jobs[job].won)
    && (forall job: nat :: |s.jobs| <= job < |s'.jobs| ==> s'.jobs[job] == Job(FRESH, 0, 0, 0, 0, 0))
    && (forall d: nat :: d < |s.ds| ==>
          s'.ds[d] == s.ds[d].(lost := s'.ds[d].lost) || s'.ds[d] == s.ds[d].(pc := Gone))
    && (forall d: nat :: |s.ds| <= d < |s'.ds| ==>
          s'.ds[d].pc.Received? && s'.ds[d].attempts == 0 && !s'.ds[d].lost)
  }

  lemma EnvironmentFrame(maxAttempts: nat, s: State, l: Label)
    requires Enabled(s, l) && !l.Move?
    ensures Untouched(s, Next(maxAttempts, s, l))
  {
    hide Untouched, Next, Enabled;
    match l
    case Create => ArrivalFrame(maxAttempts, s, l);
    case Deliver(_) => ArrivalFrame(maxAttempts, s, l);
    case Expire(_) => ArrivalFrame(maxAttempts, s, l);
    case Publish(_) => PublishFrame(maxAttempts, s, l);
    case Lose(_) => LossFrame(maxAttempts, s, l);
    case Crash(_) => LossFrame(maxAttempts, s, l);
  }

  lemma ArrivalFrame(maxAttempts: nat, s: State, l: Label)
    requires Enabled(s, l) && (l.Create? || l.Deliver? || l.Expire?)
    ensures Untouched(s, Next(maxAttempts, s, l))
  {
    var s' := Next(maxAttempts, s, l);
    assert s'.ds[..|s.ds|] == s.ds && s'.jobs[..|s.jobs|] == s.jobs;
  }

  lemma PublishFrame(maxAttempts: nat, s: State, l: Label)
    requires Enabled(s, l) && l.Publish?
    ensures Untouched(s, Next(maxAttempts, s, l))
  {
    var s' := Next(maxAttempts, s, l);
    assert s'.ds == s.ds && |s'.jobs| == |s.jobs|;
  }

  lemma LossFrame(maxAttempts: nat, s: State, l: Label)
    requires Enabled(s, l) && (l.Lose? || l.Crash?)
    ensures Untouched(s, Next(maxAttempts, s, l))
  {
    var s' := Next(maxAttempts, s, l);
    assert |s'.jobs| == |s.jobs| && |s'.ds| == |s.ds|;
    assert forall d: nat :: d < |s.ds| && d != l.d ==> s'.ds[d] == s.ds[d];
  }

  // ---------------------------------------------------------------------------
  // Environment assumptions, each a guard on one step
  // ---------------------------------------------------------------------------

  /** Some other live worker is between its claim of the job and its ack. */
  predicate Claimant(s: State, e: nat, job: nat)
    requires e < |s.ds|
  {
    s.ds[e].Live() && s.ds[e].attempts > 0 && s.ds[e].Names(job)
  }

  /** The UPDATE of a claim takes effect, whether or not its worker hears of it. */
  predicate Claims(s: State, l: Label) {
    l.Move? && l.d < |s.ds| && s.ds[l.d].pc.Received? && l.reply.Applied()
    && var row := RowOf(s, s.ds[l.d].body); row.Some? && Claimable(row.value, s.ds[l.d].flagged)
  }

  /** A1 (backend/internal/files/jobs.go:46-51): a flagged delivery claims its job only while
      no live worker is between its own claim of that job and its ack. */
  predicate LoneRedelivery(s: State, l: Label) {
    Claims(s, l) && s.ds[l.d].flagged ==>
      forall e :: 0 <= e < |s.ds| ==> !Claimant(s, e, s.ds[l.d].body.job)
  }

  /** The weaker reading of A1: the guard holds when the flagged copy is delivered. */
  predicate LoneArrival(s: State, l: Label) {
    l.Deliver? && l.copy.flagged && l.copy.body.For? ==>
      forall e :: 0 <= e < |s.ds| ==> !Claimant(s, e, l.copy.body.job)
  }

  /** A2: nobody claims a job between a worker's 'failed' mark and the same worker's Requeue. */
  predicate GuardedRequeue(s: State, l: Label) {
    Claims(s, l) ==>
      forall e :: 0 <= e < |s.ds| ==> !(s.ds[e].pc.Requeueing? && s.ds[e].Names(s.ds[l.d].body.job))
  }

  /** A4: while attempts remain, the write that marks a job converted does not take effect
      and still return an error. */
  predicate HeardFinish(maxAttempts: nat, s: State, l: Label) {
    l.Move? && l.d < |s.ds| && s.ds[l.d].pc.MarkJobConverted? && s.ds[l.d].attempts < maxAttempts ==>
      !l.reply.Unheard?
  }

  /** A5: a worker whose message the broker took back before it claimed does not go on to claim. */
  predicate ClaimsInSession(s: State, l: Label) {
    Claims(s, l) ==> !s.ds[l.d].lost
  }

  /** What the call a worker is about to make must do for its job not to be stranded: a claim that
      returns an error must not have taken effect, nor use up the flag that a 'converting' row asks
      for; parking and the publication of a retry must land; Requeue must take effect unless the
      row has left 'converting'; and on the last attempt every mark of Convert must take effect,
      the ones before the end also telling the worker so. Nothing is asked of any other call, nor
      of a worker whose message the broker has taken back. */
  predicate Suffices(maxAttempts: nat, row: Row, d: Delivery, reply: Reply) {
    var last := d.attempts >= maxAttempts;
    d.lost ||
    match d.pc
    case Received =>
      reply.Ok? || (if reply.Refused? then !(d.flagged && row.status == Converting) else !Claimable(row, d.flagged))
    case ParkPublish => reply.Applied()
    case Requeueing => reply.Applied() || row.status != Converting
    case RetryPublish => reply.Applied()
    case MarkFileConverting => last ==> reply.Ok?
    case MarkJobConverting => last ==> reply.Ok?
    case MarkFileFailed => last ==> reply.Ok?
    case MarkJobFailed => last ==> reply.Applied()
    case MarkFileConverted => last ==> reply.Ok?
    case MarkJobConverted => last ==> reply.Applied()
    case _ => true
  }

  predicate CallsSuffice(maxAttempts: nat, s: State, l: Label) {
    l.Move? && l.d < |s.ds| ==>
      var row := RowOf(s, s.ds[l.d].body); row.Some? ==> Suffices(maxAttempts, row.value, s.ds[l.d], l.reply)
  }

  predicate Publishing(pc: Pc, b: Body) {
    pc.ParkPublish? || pc.RetryPublish? || pc.DeadPublish? || (pc.Received? && b.Malformed?)
  }

  predicate PublishesLand(s: State, l: Label) {
    l.Move? && l.d < |s.ds| && Publishing(s.ds[l.d].pc, s.ds[l.d].body) ==> l.reply.Ok?
  }

  predicate NoCrashes(l: Label) {
    !l.Lose? && !l.Crash?
  }

  /** Which of the guards a run is known to respect. */
  datatype Trust = Trust(loneRedelivery: bool, loneArrival: bool, guardedRequeue: bool, heardFinish: bool,
                         claimsInSession: bool, callsSuffice: bool, publishesLand: bool, noCrashes: bool)

  const NOTHING := Trust(false, false, false, false, false, false, false, false)
  const OWNERSHIP := NOTHING.(loneRedelivery := true, guardedRequeue := true)
  const ONE_EFFECT := OWNERSHIP.(heardFinish := true)
  const STEADY := ONE_EFFECT.(claimsInSession := true)
  const RELIABLE := STEADY.(callsSuffice := true)
  const CALM := NOTHING.(publishesLand := true, noCrashes := true)
  const UNBROKEN := NOTHING.(noCrashes := true)

  predicate Allowed(maxAttempts: nat, t: Trust, s: State, l: Label) {
    && Enabled(s, l)
    && (t.loneRedelivery ==> LoneRedelivery(s, l))
    && (t.loneArrival ==> LoneArrival(s, l))
    && (t.guardedRequeue ==> GuardedRequeue(s, l))
    && (t.heardFinish ==> HeardFinish(maxAttempts, s, l))
    && (t.claimsInSession ==> ClaimsInSession(s, l))
    && (t.callsSuffice ==> CallsSuffice(maxAttempts, s, l))
    && (t.publishesLand ==> PublishesLand(s, l))
    && (t.noCrashes ==> NoCrashes(l))
  }

  /** ls is a run from s that respects the guards in t. */
  predicate Admits(maxAttempts: nat, t: Trust, s: State, ls: seq<Label>)
    decreases |ls|
  {
    ls == [] || (Allowed(maxAttempts, t, s, ls[0]) && Admits(maxAttempts, t, Next(maxAttempts, s, ls[0]), ls[1..]))
  }

  function After(maxAttempts: nat, t: Trust, s: State, ls: seq<Label>): State
    requires Admits(maxAttempts, t, s, ls)
    decreases |ls|
  {
    if ls == [] then s else After(maxAttempts, t, Next(maxAttempts, s, ls[0]), ls[1..])
  }
}
