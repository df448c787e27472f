/**
 One conversion attempt, write by write (backend/internal/convert/pipeline.go:94-246), against
 the rows of one file (backend/internal/files/repository.go, outputs.go) and the object store.
 Any call may fail, with or without taking effect, and the worker may die around any call.
 */
module Pipeline {
  import opened Wrappers
  import opened Reports
  import opened Bundles
  import V = Validation
  import opened Conformance
  import opened Archive
  import Gate
  import J = JobTable
  import P = Protocol

  datatype FileStatus = Pending | Ready | Converting | Converted | Failed

  /** What a caller learns of a call: success, an error, or nothing because the worker died. */
  datatype Answer = Done | Refused | Crash

  /** How a call turns out: it replies, or the worker dies before or after it takes effect. */
  datatype Fate = Replies(reply: J.Reply) | Dies(applied: bool) {
    predicate Takes() { if Dies? then applied else reply.Applied() }

    function Answer(): Answer {
      if Dies? then Crash else if reply.Ok? then Done else Refused
    }

    /** The reply that has the same effect; nobody lives to hear that of a dead worker's call. */
    function Heard(): J.Reply {
      if Replies? then reply else if applied then J.Unheard else J.Refused
    }
  }

  const FINE := Replies(J.Ok)

  /** A row of file_outputs. */
  datatype Output = Output(objectKey: string, name: string, position: nat, size: nat)

  function FileKey(base: string, name: string): string {
    base + "-bundle/" + name
  }

  function ResultKey(base: string): string {
    base + "-result.zip"
  }

  function RowAt(base: string, files: seq<File>, k: nat): Output
    requires k < |files|
  {
    Output(FileKey(base, files[k].name), files[k].name, k, |files[k].content|)
  }

  function Rows(base: string, files: seq<File>): seq<Output> {
    seq(|files|, k requires 0 <= k < |files| => RowAt(base, files, k))
  }

  /** Every file is stored under its key with its content. */
  ghost predicate Stored(objects: map<string, string>, base: string, files: seq<File>) {
    forall k :: 0 <= k < |files| ==>
      FileKey(base, files[k].name) in objects && objects[FileKey(base, files[k].name)] == files[k].content
  }

  /** The rows of a file and the object store hold this bundle: its rows in reading order from 0,
      every object and the archive, and a verdict that let it through, which it still passes. */
  ghost predicate Holds(base: string, archive: seq<File> -> string, outputs: seq<Output>,
    objects: map<string, string>, validation: Option<Verdict>, files: seq<File>)
  {
    && outputs == Rows(base, Ordered(files)) && Stored(objects, base, Ordered(files))
    && ResultKey(base) in objects && objects[ResultKey(base)] == archive(Ordered(files))
    && validation.Some? && validation.value.Publishable() && V.Publishable(V.FileMap(files))
  }

  /** What one attempt was given to convert. */
  datatype Given = Given(src: Source, units: seq<Unit>)

  /** They hold the complete bundle of this document, with whatever its log came to say. */
  ghost predicate HoldsFor(base: string, archive: seq<File> -> string, outputs: seq<Output>,
    objects: map<string, string>, validation: Option<Verdict>, g: Given)
  {
    g.units != [] &&
    exists journal :: Holds(base, archive, outputs, objects, validation, BundleFiles(g.src, Concepts(g.units), journal))
  }

  /** They hold the complete bundle of one of these attempts. */
  ghost predicate Whole(base: string, archive: seq<File> -> string, outputs: seq<Output>,
    objects: map<string, string>, validation: Option<Verdict>, given: seq<Given>)
  {
    exists k :: 0 <= k < |given| && HoldsFor(base, archive, outputs, objects, validation, given[k])
  }

  function Asked(src: Source, extracted: Option<seq<Unit>>): seq<Given> {
    if extracted.Some? then [Given(src, extracted.value)] else []
  }

  /** The reply of a call that never touches the job's row, as far as the job can tell. */
  function Said(a: Answer): J.Reply {
    if a.Done? then J.Ok else J.Refused
  }

  /** A delivery whose claim has just won. */
  function Begun(task: P.Delivery): P.Delivery {
    task.(pc := P.MarkFileConverting)
  }

  /** Row and delivery once the worker has acted on these replies in turn. */
  ghost function Run(maxAttempts: nat, row: Option<J.Row>, d: P.Delivery, replies: seq<J.Reply>): (Option<J.Row>, P.Delivery)
    decreases |replies|
  {
    if replies == [] then (row, d)
    else
      var (row', d') := Run(maxAttempts, row, d, replies[..|replies| - 1]);
      if !d'.Live() then (row', d')
      else
        var e := P.Act(maxAttempts, row', d', replies[|replies| - 1]);
        (e.row, e.next)
  }

  /** That leaves the job in this row and the delivery at this point of Convert, or just past it. */
  ghost predicate Stands(maxAttempts: nat, before: J.Row, d: P.Delivery, replies: seq<J.Reply>, row: J.Row, pc: P.Pc) {
    Run(maxAttempts, Some(before), d, replies) == (Some(row), d.(pc := pc))
  }

  lemma OneMoreReply(maxAttempts: nat, before: J.Row, d: P.Delivery, replies: seq<J.Reply>, row: J.Row, pc: P.Pc, reply: J.Reply)
    requires Stands(maxAttempts, before, d, replies, row, pc) && pc != P.Gone
    ensures var e := P.Act(maxAttempts, Some(row), d.(pc := pc), reply);
      Run(maxAttempts, Some(before), d, replies + [reply]) == (e.row, e.next)
  {
    hide P.Act;
    assert (replies + [reply])[..|replies|] == replies;
  }

  lemma NoReply(maxAttempts: nat, row: J.Row, d: P.Delivery)
    ensures Stands(maxAttempts, row, d, [], row, d.pc)
  {
  }

  /** Convert has returned an error: another go, or giving up. */
  function AfterError(maxAttempts: nat, d: P.Delivery): P.Pc {
    if d.attempts >= maxAttempts then P.DeadPublish else P.Requeueing
  }

  function OnJob(status: J.Status): P.Pc {
    match status
    case Converting => P.MarkJobConverting
    case Converted => P.MarkJobConverted
    case _ => P.MarkJobFailed
  }

  lemma FileMarked(maxAttempts: nat, before: J.Row, d: P.Delivery, replies: seq<J.Reply>, row: J.Row, pc: P.Pc, reply: J.Reply)
    requires Stands(maxAttempts, before, d, replies, row, pc)
    requires pc == P.MarkFileConverting || pc == P.MarkFileFailed || pc == P.MarkFileConverted
    ensures Stands(maxAttempts, before, d, replies + [reply], row,
      if !reply.Ok? then AfterError(maxAttempts, d)
      else OnJob(if pc == P.MarkFileConverting then J.Converting else if pc == P.MarkFileFailed then J.Failed else J.Converted))
  {
    hide Run;
    OneMoreReply(maxAttempts, before, d, replies, row, pc, reply);
  }

  lemma JobMarked(maxAttempts: nat, before: J.Row, d: P.Delivery, replies: seq<J.Reply>, row: J.Row, status: J.Status, reply: J.Reply)
    requires status != J.Queued && Stands(maxAttempts, before, d, replies, row, OnJob(status))
    ensures Stands(maxAttempts, before, d, replies + [reply], J.WithStatus(row, status, reply),
      if !reply.Ok? || status == J.Failed then AfterError(maxAttempts, d)
      else if status == J.Converting then P.Work else P.Acking)
  {
    hide Run;
    OneMoreReply(maxAttempts, before, d, replies, row, OnJob(status), reply);
  }

  lemma Worked(maxAttempts: nat, before: J.Row, d: P.Delivery, replies: seq<J.Reply>, row: J.Row, reply: J.Reply)
    requires Stands(maxAttempts, before, d, replies, row, P.Work)
    ensures Stands(maxAttempts, before, d, replies + [reply], row,
      if reply.Ok? then P.MarkFileConverted else P.MarkFileFailed)
  {
    hide Run;
    OneMoreReply(maxAttempts, before, d, replies, row, P.Work, reply);
  }

  /** The step machine, given these replies, leaves the job in this row, and is about to ack when
      the caller learns of success, and to choose between another go and giving up when it learns
      of a failure. */
  ghost predicate Tracks(maxAttempts: nat, before: J.Row, d: P.Delivery, replies: seq<J.Reply>, after: J.Row, a: Answer) {
    exists pc :: Stands(maxAttempts, before, d, replies, after, pc)
      && (a.Done? ==> pc == P.Acking) && (a.Refused? ==> pc == AfterError(maxAttempts, d))
  }

  /** Build, the check, and the log.md that records it: the verdict is that of the files before
      log.md was rewritten, and holds of the files after. */
  method BuildAndValidate(src: Source, units: seq<Unit>, journal: Journal) returns (b: Bundle, verdict: Verdict)
    requires units != []
    ensures b.files == BundleFiles(src, Concepts(units), b.Journaled())
    ensures verdict.Publishable() <==> V.Publishable(BundleMap(src, units, ""))
    ensures verdict.Publishable() <==> V.Publishable(V.FileMap(b.files))
    ensures DistinctNames(Ordered(b.files))
  {
    hide BundleFiles, Concepts, LogText, WithLog, Ordered, DistinctNames, V.Publishable, V.FileMap, BundleMap,
      V.PlatformVerdict, V.OKFVerdict, V.Decided;
    var log := new Log();
    var built := Build(src, units, log, journal);
    b := built;
    ghost var before := b.Journaled();
    var report := V.Validate(b);
    log.Step("bundle validado");
    b.SetValidation(report);
    GateHolds(src, units, before, b.Journaled());
    verdict := report.verdict;
  }

  class BundleConverter {
    const base: string
    const archive: seq<File> -> string
    var status: FileStatus
    var validation: Option<Verdict>
    var outputs: seq<Output>
    var objects: map<string, string>
    var job: J.Row
    var plan: seq<Fate>

    /** The documents given to attempts so far. */
    ghost var given: seq<Given>

    constructor (base: string, archive: seq<File> -> string, plan: seq<Fate>)
      ensures this.base == base && this.archive == archive && this.plan == plan
      ensures status == Ready && outputs == [] && validation == None && given == [] && Consistent()
    {
      this.base, this.archive, this.plan := base, archive, plan;
      status, validation, outputs, objects, job := Ready, None, [], map[], J.FRESH;
      given := [];
    }

    /** What the download handler relies on. */
    ghost predicate Consistent()
      reads this
    {
      status == Converted ==> Whole(base, archive, outputs, objects, validation, given)
    }

    method Next() returns (f: Fate)
      modifies this`plan
      ensures old(plan) == [] ==> f == FINE && plan == []
    {
      if plan == [] { return FINE; }
      f := plan[0];
      plan := plan[1..];
    }

    method UpdateStatus(s: FileStatus) returns (a: Answer)
      modifies this`plan, this`status
      ensures status == s || (status == old(status) && !a.Done?)
      ensures old(plan) == [] ==> a == Done && plan == []
    {
      var f := Next();
      if f.Takes() { status := s; }
      return f.Answer();
    }

    method UpdateJob(s: J.Status) returns (a: Answer, ghost heard: J.Reply)
      modifies this`plan, this`job
      ensures job == J.WithStatus(old(job), s, heard) && (a.Done? <==> heard.Ok?)
      ensures old(plan) == [] ==> a == Done && plan == []
    {
      var f := Next();
      heard := f.Heard();
      if f.Takes() { job := job.(status := s); }
      return f.Answer(), heard;
    }

    method ClearForFile() returns (a: Answer)
      modifies this`plan, this`outputs
      ensures outputs == [] || (outputs == old(outputs) && !a.Done?)
      ensures old(plan) == [] ==> a == Done && plan == []
    {
      var f := Next();
      if f.Takes() { outputs := []; }
      return f.Answer();
    }

    method SetVerdict(v: Option<Verdict>) returns (a: Answer)
      modifies this`plan, this`validation
      ensures validation == v || (validation == old(validation) && !a.Done?)
      ensures old(plan) == [] ==> a == Done && plan == []
    {
      var f := Next();
      if f.Takes() { validation := v; }
      return f.Answer();
    }

    method PutObject(key: string, content: string) returns (a: Answer)
      modifies this`plan, this`objects
      ensures objects == old(objects)[key := content] || (objects == old(objects) && !a.Done?)
      ensures old(plan) == [] ==> a == Done && plan == []
    {
      var f := Next();
      if f.Takes() { objects := objects[key := content]; }
      return f.Answer();
    }

    /** INSERT INTO file_outputs, whose object_key is unique. */
    method CreateOutput(row: Output) returns (a: Answer)
      modifies this`plan, this`outputs
      ensures outputs == old(outputs) + [row] || (outputs == old(outputs) && !a.Done?)
      ensures old(plan) == [] ==> plan == []
      ensures old(plan) == [] && (forall r :: r in old(outputs) ==> r.objectKey != row.objectKey) ==> a == Done
    {
      var f := Next();
      if exists r :: r in outputs && r.objectKey == row.objectKey {
        return if f.Answer().Done? then Refused else f.Answer();
      }
      if f.Takes() { outputs := outputs + [row]; }
      return f.Answer();
    }

    method GetObject() returns (a: Answer)
      modifies this`plan
      ensures old(plan) == [] ==> a == Done && plan == []
    {
      var f := Next();
      return f.Answer();
    }

    /** store: every file, its row, and last the archive. */
    method Store(files: seq<File>) returns (a: Answer)
      requires DistinctNames(files) && outputs == []
      modifies this`plan, this`outputs, this`objects
      ensures a.Done? ==> (
        && outputs == Rows(base, files) && Stored(objects, base, files)
        && ResultKey(base) in objects && objects[ResultKey(base)] == archive(files))
      ensures a.Done? ==> (
        && |outputs| == |files|
        && (forall k :: 0 <= k < |files| ==>
              && outputs[k].position == k && outputs[k].name == files[k].name && outputs[k].size == |files[k].content|
              && outputs[k].objectKey == base + "-bundle/" + files[k].name
              && outputs[k].objectKey in objects && objects[outputs[k].objectKey] == files[k].content)
        && base + "-result.zip" in objects && objects[base + "-result.zip"] == archive(files))
      ensures old(plan) == [] ==> a == Done && plan == []
    {
      for i := 0 to |files|
        invariant outputs == Rows(base, files)[..i] && Stored(objects, base, files[..i])
        invariant old(plan) == [] ==> plan == []
      {
        var f := files[i];
        var key := FileKey(base, f.name);
        a := PutObject(key, f.content);
        if !a.Done? { return; }
        KeysDiffer(base, files, i);
        a := CreateOutput(Output(key, f.name, i, |f.content|));
        if !a.Done? { return; }
      }
      ResultKeyDiffers(base, files);
      assert files[..|files|] == files;
      a := PutObject(ResultKey(base), archive(files));
    }

    /** convert: from clearing the previous attempt to storing the new bundle. extracted is what
        extractUnits makes of the document, if it succeeds. */
    method Attempt(src: Source, extracted: Option<seq<Unit>>, journal: Journal) returns (a: Answer)
      modifies this`plan, this`outputs, this`objects, this`validation, this`given
      ensures given == old(given) + Asked(src, extracted)
      ensures a.Done? ==>
        extracted.Some? && HoldsFor(base, archive, outputs, objects, validation, Given(src, extracted.value))
      ensures old(plan) == [] ==> plan == []
      ensures old(plan) == [] ==> (a == Done <==> Convertible(src, extracted)) && a != Crash
      ensures old(plan) == [] && !Convertible(src, extracted) ==>
        outputs == [] && validation == if extracted.None? || extracted.value == [] then None else Some(Invalid)
    {
      hide HoldsFor, Convertible, BundleFiles, Concepts, Ordered, Rows, Stored, DistinctNames, V.Publishable,
        V.FileMap, BundleMap;
      given := given + Asked(src, extracted);
      a := ClearForFile();
      if !a.Done? { return; }
      a := SetVerdict(None);
      if !a.Done? { return; }
      a := GetObject();
      if !a.Done? { return; }
      ConvertibleIs(src, extracted);
      if extracted.None? { return Refused; }

      if |extracted.value| == 0 { return Refused; }
      var b, verdict := BuildAndValidate(src, extracted.value, journal);
      a := SetVerdict(Some(verdict));
      if !a.Done? { return; }
      if !verdict.Publishable() { return Refused; }

      var ordered := b.OrderedFiles();
      a := Store(ordered);
      if a.Done? { IsHeld(base, archive, outputs, objects, validation, src, extracted.value, b.Journaled()); }
    }

    /** Convert. However its calls turn out, and wherever the worker dies, the file does not come
        to read as converted without the complete bundle of a document it was given behind it, and
        on success of this one; when every call succeeds, it does so exactly if the document can be
        converted; and to the job, all of it is the run of the step machine that hears the replies
        in trail. */
    method Convert(src: Source, extracted: Option<seq<Unit>>, journal: Journal,
      ghost maxAttempts: nat, ghost task: P.Delivery) returns (a: Answer, ghost trail: seq<J.Reply>)
      requires Consistent()
      modifies this
      ensures Consistent()
      ensures given == old(given) || given == old(given) + Asked(src, extracted)
      ensures a.Done? ==> status == Converted && job.status == J.Converted
      ensures a.Done? ==>
        extracted.Some? && HoldsFor(base, archive, outputs, objects, validation, Given(src, extracted.value))
      ensures job.status == J.Converted && old(job).status != J.Converted ==> status == Converted
      ensures Tracks(maxAttempts, old(job), Begun(task), trail, job, a)
      ensures old(plan) == [] ==> (
        && (a == Done <==> Convertible(src, extracted))
        && status == (if Convertible(src, extracted) then Converted else Failed)
        && job.status == (if Convertible(src, extracted) then J.Converted else J.Failed))
      ensures old(plan) == [] && !Convertible(src, extracted) ==>
        outputs == [] && validation == if extracted.None? || extracted.value == [] then None else Some(Invalid)
    {
      hide Whole, HoldsFor, Convertible, Stands;
      ghost var heard, row, d := J.Ok, job, Begun(task);
      trail := [];
      NoReply(maxAttempts, row, d);

      a := UpdateStatus(Converting);
      FileMarked(maxAttempts, row, d, trail, job, P.MarkFileConverting, Said(a));
      trail := trail + [Said(a)];
      if !a.Done? { return; }
      ghost var was := job;
      a, heard := UpdateJob(J.Converting);
      JobMarked(maxAttempts, row, d, trail, was, J.Converting, heard);
      trail := trail + [heard];
      if !a.Done? { return; }

      a := Attempt(src, extracted, journal);
      Worked(maxAttempts, row, d, trail, job, Said(a));
      trail := trail + [Said(a)];
      was := job;
      if a.Refused? {
        var marked := UpdateStatus(Failed);
        FileMarked(maxAttempts, row, d, trail, job, P.MarkFileFailed, Said(marked));
        trail := trail + [Said(marked)];
        if marked.Crash? { return Crash, trail; }
        if !marked.Done? { return; }
        marked, heard := UpdateJob(J.Failed);
        JobMarked(maxAttempts, row, d, trail, was, J.Failed, heard);
        trail := trail + [heard];
        return if marked.Crash? then Crash else Refused, trail;
      }
      if a.Crash? { return; }
      LastIsWhole(base, archive, outputs, objects, validation, given);
      a := UpdateStatus(Converted);
      FileMarked(maxAttempts, row, d, trail, job, P.MarkFileConverted, Said(a));
      trail := trail + [Said(a)];
      if !a.Done? { return; }
      a, heard := UpdateJob(J.Converted);
      JobMarked(maxAttempts, row, d, trail, was, J.Converted, heard);
      trail := trail + [heard];
    }

    /** What else writes the status: Requeue, whose batch puts job and file back together or not at
        all; */
    method Requeue() returns (a: Answer, ghost heard: J.Reply)
      requires Consistent()
      modifies this`plan, this`status, this`job
      ensures Consistent() && (a.Done? <==> heard.Ok?)
      ensures job == J.WithStatus(old(job), J.Queued, heard)
      ensures status == if heard.Applied() then Ready else old(status)
    {
      hide Whole;
      var f := Next();
      heard := f.Heard();
      if f.Takes() { job, status := job.(status := J.Queued), Ready; }
      return f.Answer(), heard;
    }

    /** the confirmation of an upload; */
    method MarkReady()
      requires Consistent()
      modifies this`status
      ensures status == Ready && Consistent()
    {
      status := Ready;
    }

    /** and claiming a retry: the update, and when it reports no row, the read that tells what the file has come to. */
    method MarkRetrying() returns (won: bool, a: Answer)
      requires Consistent()
      modifies this`plan, this`status
      ensures Consistent()
      ensures status == old(status) || (old(status) == Failed && status == Converting)
      ensures won ==> a.Done? && old(status) == Failed && status == Converting
      ensures a.Done? && !won ==> status == old(status) != Failed
      ensures old(plan) == [] ==> a == Done && (won <==> old(status) == Failed) && plan == []
    {
      hide Whole;
      var f := Next();
      var hit := status == Failed;
      if hit && f.Takes() { status := Converting; }
      if !f.Answer().Done? || hit { return f.Answer().Done?, f.Answer(); }
      f := Next();
      return false, f.Answer();
    }
  }

  /** The verdict on the files before log.md is rewritten holds of the files that are stored. */
  lemma GateHolds(src: Source, units: seq<Unit>, before: string, after: string)
    requires units != []
    ensures var checked := BundleFiles(src, Concepts(units), before);
      var stored := WithLog(checked, LogText(src, after));
      && stored == BundleFiles(src, Concepts(units), after)
      && (V.Publishable(V.FileMap(checked)) <==> V.Publishable(BundleMap(src, units, "")))
      && (V.Publishable(V.FileMap(stored)) <==> V.Publishable(V.FileMap(checked)))
      && DistinctNames(Ordered(stored))
  {
    hide V.Publishable, Ordered, BundleFiles, LogText, WithLog, Concepts, V.FileMap, DistinctNames;
    StoredIsBundle(src, units, before, after);
    StoredIsBundle(src, units, before, "");
    Gate.CheckedIsStored(src, units, before, after);
    Gate.CheckedIsStored(src, units, before, "");
    OrderedNamesAreDistinct(src, units, after);
  }

  lemma StoredIsBundle(src: Source, units: seq<Unit>, before: string, after: string)
    ensures WithLog(BundleFiles(src, Concepts(units), before), LogText(src, after))
      == BundleFiles(src, Concepts(units), after)
  {
    hide LogText, WithLog, Pages, Concepts;
    RefreshesLast(src, units, LogText(src, before), LogText(src, after));
  }

  /** What happens to a file over its life: attempts, confirmations and retries. */
  datatype Visit =
    | Attempted(src: Source, extracted: Option<seq<Unit>>, task: P.Delivery)
    | PutBack
    | Confirmed
    | Retried

  /** Some visit was the attempt at this document. */
  ghost predicate Offered(visits: seq<Visit>, g: Given) {
    exists k :: 0 <= k < |visits| && visits[k].Attempted? && visits[k].src == g.src && visits[k].extracted == Some(g.units)
  }

  method Receive(c: BundleConverter, v: Visit, journal: Journal, ghost maxAttempts: nat)
    requires c.Consistent()
    modifies c
    ensures c.Consistent()
    ensures c.given == old(c.given) || (v.Attempted? && c.given == old(c.given) + Asked(v.src, v.extracted))
  {
    match v
    case Attempted(src, extracted, task) =>
      var _, _ := c.Convert(src, extracted, journal, maxAttempts, task);
    case PutBack =>
      var _, _ := c.Requeue();
    case Confirmed =>
      c.MarkReady();
    case Retried =>
      var _, _ := c.MarkRetrying();
  }

  /** Over any number of attempts, one at a time, each of which may fail or die anywhere, and
      with requeues, confirmations and retries in between, the download is never offered too early, and is
      always the bundle of a document that one of the attempts was given. */
  method Live(c: BundleConverter, visits: seq<Visit>, journal: Journal, ghost maxAttempts: nat)
    requires c.Consistent()
    modifies c
    ensures c.Consistent() && old(c.given) <= c.given
    ensures forall k :: |old(c.given)| <= k < |c.given| ==> Offered(visits, c.given[k])
  {
    hide Whole, Offered;
    for i := 0 to |visits|
      invariant c.Consistent() && old(c.given) <= c.given
      invariant forall k :: |old(c.given)| <= k < |c.given| ==> Offered(visits, c.given[k])
    {
      ghost var before := c.given;
      Receive(c, visits[i], journal, maxAttempts);
      if c.given != before { AskedIsOffered(visits, i); }
    }
  }

  lemma AskedIsOffered(visits: seq<Visit>, i: nat)
    requires i < |visits| && visits[i].Attempted?
    ensures forall g :: g in Asked(visits[i].src, visits[i].extracted) ==> Offered(visits, g)
  {
  }

  /** Whether the document yields units and their bundle passes the gate. */
  ghost predicate Convertible(src: Source, extracted: Option<seq<Unit>>) {
    extracted.Some? && extracted.value != [] && V.Publishable(BundleMap(src, extracted.value, ""))
  }

  lemma ConvertibleIs(src: Source, extracted: Option<seq<Unit>>)
    ensures Convertible(src, extracted) <==>
      extracted.Some? && extracted.value != [] && V.Publishable(BundleMap(src, extracted.value, ""))
  {
  }

  lemma IsHeld(base: string, archive: seq<File> -> string, outputs: seq<Output>, objects: map<string, string>,
    validation: Option<Verdict>, src: Source, units: seq<Unit>, journal: string)
    requires units != []
    requires Holds(base, archive, outputs, objects, validation, BundleFiles(src, Concepts(units), journal))
    ensures HoldsFor(base, archive, outputs, objects, validation, Given(src, units))
  {
    hide Holds, BundleFiles, Concepts;
  }

  /** Wherever a bundle is held, its rows in order of position list index.md, log.md and the concepts
      as the document has them, and each leads to the content of its file. */
  lemma ListedInReadingOrder(base: string, archive: seq<File> -> string, outputs: seq<Output>, objects: map<string, string>,
    validation: Option<Verdict>, src: Source, units: seq<Unit>, journal: string)
    requires Holds(base, archive, outputs, objects, validation, BundleFiles(src, Concepts(units), journal))
    ensures |outputs| == |units| + 2
    ensures forall k :: 0 <= k < |outputs| ==> outputs[k].position == k && outputs[k].objectKey in objects
    ensures outputs[0].name == "index.md" && outputs[1].name == "log.md"
    ensures forall i :: 0 <= i < |units| ==> outputs[i + 2].name == NameAt(units, i)
    ensures objects[outputs[0].objectKey] == IndexText(src, Concepts(units))
    ensures objects[outputs[1].objectKey] == LogText(src, journal)
    ensures forall i :: 0 <= i < |units| ==> objects[outputs[i + 2].objectKey] == ConceptText(src, Concepts(units), i)
  {
    hide BundleFiles, Ordered, IndexText, LogText, ConceptText, Concepts, NameAt, ConceptFiles, V.Publishable, V.FileMap;
    ReadingOrder(src, units, journal);
    PagesLength(src, units);
    forall i | 0 <= i < |units| ensures ConceptFiles(src, Concepts(units))[i] == File(NameAt(units, i), ConceptText(src, Concepts(units), i)) {
      PageHolds(src, units, i);
    }
  }

  lemma PageHolds(src: Source, units: seq<Unit>, i: nat)
    requires i < |units|
    ensures |ConceptFiles(src, Concepts(units))| == |units|
    ensures ConceptFiles(src, Concepts(units))[i] == File(NameAt(units, i), ConceptText(src, Concepts(units), i))
  {
    hide ConceptText, SlugAt, TitleOf;
  }

  lemma LastIsWhole(base: string, archive: seq<File> -> string, outputs: seq<Output>, objects: map<string, string>,
    validation: Option<Verdict>, given: seq<Given>)
    requires given != [] && HoldsFor(base, archive, outputs, objects, validation, given[|given| - 1])
    ensures Whole(base, archive, outputs, objects, validation, given)
  {
    hide HoldsFor;
  }

  lemma KeysDiffer(base: string, files: seq<File>, i: nat)
    requires DistinctNames(files) && i < |files|
    ensures forall k :: 0 <= k < i ==> FileKey(base, files[k].name) != FileKey(base, files[i].name)
  {
    forall k | 0 <= k < i ensures FileKey(base, files[k].name) != FileKey(base, files[i].name) {
      if FileKey(base, files[k].name) == FileKey(base, files[i].name) {
        KeyIsInjective(base, files[k].name, files[i].name);
      }
    }
  }

  lemma KeyIsInjective(base: string, a: string, b: string)
    requires FileKey(base, a) == FileKey(base, b)
    ensures a == b
  {
    var prefix := base + "-bundle/";
    assert FileKey(base, a)[|prefix|..] == a && FileKey(base, b)[|prefix|..] == b;
  }

  lemma ResultKeyDiffers(base: string, files: seq<File>)
    ensures forall k :: 0 <= k < |files| ==> FileKey(base, files[k].name) != ResultKey(base)
  {
    forall k | 0 <= k < |files| ensures FileKey(base, files[k].name) != ResultKey(base) {
      assert FileKey(base, files[k].name)[|base| + 1] == 'b' && ResultKey(base)[|base| + 1] == 'r';
    }
  }
}
