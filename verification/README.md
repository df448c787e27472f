# Verification of the document-to-bundle converter

A Dafny model of the conversion backend: the job protocol between the API, the broker's queues
and the workers; one conversion attempt, write by write; the generator of a knowledge bundle and
the validator that reads it back; file naming; and the segmenter that splits a document into
units. `dafny verify dfyconfig.toml` checks all of it.

## What is modelled

**The job protocol** (`JobTable`, `Protocol`, `ProtocolSafety`, `ProtocolLedger`, `ProtocolHistory`,
`ProtocolLiveness`, `ProtocolStranding`, `ProtocolWitness`, `Consumer`). A state holds the job rows
with their history, the main, retry and dead queues as multisets of message copies, and every
delivery with the program counter of the worker handling it. Steps are: a new job, a publication
(any number of copies of any message, decodable or not), a delivery, one action of a worker, the
expiry of a retry, the loss of a session whose worker goes on, and the death of a worker. Every call
to the database or the broker may succeed, fail, or take effect and still return an error.
`Consumer` holds `process` and `handleFailure` as imperative code and proves that, whatever the
calls answer, one delivery performs exactly the actions of the step machine, and `Pipeline` that the
marks of one attempt on the job are the machine's too.

Guarantees that hold only under assumptions on the environment name them as guards on steps:

- A1: a flagged delivery claims its job only while no live worker is between its own claim of that
  job and its ack.
- A2: no other delivery of a job is claimed between a worker's 'failed' mark and its Requeue.
- A4: while attempts remain, the write that marks a job converted does not take effect and still
  return an error.
- A5: a worker whose message was taken back before it claimed does not go on to claim.
- Calls that must not fail for a job not to be stranded (`Protocol.Suffices`). A claim may return
  an error if it did not take effect, unless it was made for a flagged copy of a job left
  'converting'; parking the message and publishing a retry must land; Requeue must take effect
  unless the job has already left 'converting', as it has once the 'failed' mark took effect; and on
  the last attempt the marks of Convert must take effect, and tell the worker so where it has to go
  on. Nothing is asked of the conversion itself, of the dead queue, of the marks of earlier attempts
  or of a worker whose message was taken back.

A claim, in A1, A2 and A5, is one that takes effect. A1, A2, A4 and A5 each come with a reachable
state that shows what happens without them. The last guard is exact: when one delivery is all that
is left of a job, the job stays covered if and only if the call suffices
(`ProtocolStranding.SufficesExactly`), and any other call strands it
(`ProtocolStranding.SufficesOrStrands`). No assumption that a failed publish leaves no message (it
would be A3) turned out to be needed anywhere.

**One attempt** (`Pipeline`). `Convert`, `convert` and `store` as imperative code over the file row,
its output rows and the object store. The outcome of every call, including the death of the worker
before or after it takes effect, is chosen by an arbitrary plan.

**Bundles** (`Text`, `Slug`, `Frontmatter`, `LinkScan`, `Report`, `Bundle`, `Archive`, `Validate`,
`Conformance`, `IndexPage`, `Gate`, `Navigation`). The text of a page is a sequence of code points;
a byte that is not part of valid UTF-8 reads as U+FFFD, which is how Go's range loops and package
regexp read it. Pages are printed exactly as in the source, except that the fixed Spanish wording is
a record of labels without brackets or backslashes (four of them, those that stand right before a
link or close the introduction of index.md, end in a character no link target holds, as in the
source), the size of the original is any text `humanSize` can print, and the body of log.md below
its heading is an arbitrary function of the log and the report. The link pattern is a left-to-right
scanner: a backslash always takes the next character along (never a line break), and the first
bracket left over ends the text.

**Segmentation** (`Splitting`, `Substance`, `Segmenting`). Documents are byte strings. The line
patterns and `titleFromBody` are parameters; white space is what `strings.TrimSpace` takes, in its
UTF-8 encodings.

## Findings

Where the code and its comments disagree, the model follows the code.

- The generator can produce a bundle its own gate refuses (against pipeline.go:76-79). index.md
  names what its introduction names, then what each entry names by its own title and file, then
  log.md (`IndexPage.IndexReadsBack`), and the gate refuses exactly when one of these files is
  missing or a concept is not among them (`Gate.PublishableExactly`). There are three causes:
  - a heading whose link is not found (`LinkScan.LinkLost`), such as `C:\` or `Ver [1]\`, where a
    backslash takes the closing bracket along (`Gate.TrailingBackslashIsRefused`);
  - a heading that writes a link of its own: a backslash in front of a closing bracket escapes the
    escape, against bundle.go:442-443, and the bracket is free (`LinkScan.LinkInjected`,
    `Gate.DanglingInjectionIsRefused`; `\](x)` is one, `Gate.FreedBracketIsRefused`);
  - a file name that holds a link: `a[x](y).md` puts `[x](y)` into index.md, which then
    dangles (`Gate.BracketedNameIsRefused`). Brackets alone, as in `Informe [final].pdf`, do
    no harm (`IndexPage.BracketsAloneAreQuiet`).
- A1 as the comment at jobs.go:46-51 has it, on the arrival of the flagged copy, does not give
  exclusivity; it has to hold at the claim (`ProtocolWitness.ArrivalGuardIsNotEnough`).
- 'failed' is claimable and Requeue is unconditional, so a job can be put back to 'queued' under a
  worker that has claimed it in between (`ProtocolWitness.UnguardedRequeueIsUnsafe`, against
  queue.go:537-539).
- A claim that fails with an error on a redelivery parks an unflagged copy, which can never claim a
  job left 'converting': the job is stranded (`ProtocolWitness.ClaimErrorStrandsARedelivery`). An
  error on an unflagged copy, or on one of a job not left 'converting', does no harm if the claim
  had no effect and parking lands.
- A message whose claim returns an error every time, as one whose job id is no UUID does (`{}`
  decodes), is parked and comes back for ever: one publication keeps the system running without end
  (`ProtocolWitness.PoisonCirclesForever`). Nothing counts the rounds; `maxAttempts` counts claims.
- A 'failed' mark that is refused on the last attempt (pipeline.go:104-108) leaves the message
  dead-lettered and the job 'converting' with no copy and no worker, without any crash or
  redelivery (`ProtocolWitness.UnmarkedFailureStrandsAJob`).
- A final write that lands but reports an error is followed by Requeue, which undoes 'converted'
  (`ProtocolWitness.UnheardFinishIsUndone`).
- The fence line that closes a code block can itself become a heading, titled with the fence, when
  an underline follows it: `Segmenting.FenceHeadingExactly` says exactly when,
  `Segmenting.ClosingFenceBecomesHeading` gives a document.
- log.md is rewritten after the bundle was checked (against validate.go:120-123). That this never
  changes the outcome is `Gate.CheckedIsStored`.

## Model

| member | source | states |
|---|---|---|
| `JobTable.PgJobRepository.Claim` | backend/internal/files/jobs.go:35-80 | who wins, the attempt number returned and the rows afterwards, for each way the call can turn out; once claimed, a row refuses every unflagged claim until it is written again, and a flagged claim loses only to 'converted' |
| `JobTable.PgJobRepository.UpdateStatus` | backend/internal/files/jobs.go:128-143 | sets the status of that row and no other, keeping its attempts, whatever it was before |
| `JobTable.PgJobRepository.Requeue` | backend/internal/files/jobs.go:90-102 | puts the job back to 'queued' unconditionally |
| `Consumers.Consumer.Process` | backend/internal/convert/queue.go:450-549 | for any message and any answers: one ack, no other row touched, and `Outcome` case by case: undecodable, claim in error, claim lost, success, failure given up, failure retried, with the row, both queues and every counter in each; and the step machine ends in the same state on the same answers |
| `Consumers.Consumer.HandleFailure` | backend/internal/convert/queue.go:513-549 | follows the machine from a failed attempt to the ack, by way of the dead queue when attempts are spent and of Requeue and the retry queue otherwise |
| `Consumers.Consumer.Convert` | backend/internal/convert/pipeline.go:94-120 | follows the machine through the marks on file and job, and reports success only after the final mark |
| `Consumers.Consumer.PublishTo` | backend/internal/convert/queue.go:551-559 | a publish that fails is not reported; the queue holds one more message exactly when it took effect |
| `Consumers.ApplyIsMove` | backend/internal/convert/queue.go:450-549 | one action of `process`, seen from its delivery, is one step of the global machine |
| `Protocol.ValidNext` | backend/internal/convert/queue.go:450-549 | every step keeps every queue and delivery naming existing jobs and only claimants holding attempt numbers |
| `ProtocolSafety.ExclusiveConversion` | backend/internal/convert/queue.go:445-507 | under A1 and A2, in every reachable state at most one live worker is inside Convert for a job, whatever was duplicated, lost, redelivered, parked or expired |
| `ProtocolSafety.OneFinalEffect` | backend/internal/files/jobs.go:52-67 | under A1, A2 and A4 a converted job stays converted in every continuation, and Convert has returned success at most once for it |
| `ProtocolLedger.RetryLedger` | backend/internal/convert/queue.go:513-549 | with no assumption on faults, failures schedule at most maxAttempts-1 retries, and Convert starts at most once per published copy, per copy taken back and per such retry |
| `ProtocolLedger.ClaimsAreNumbered` | backend/internal/files/jobs.go:55-71 | in every reachable state, no two claims of a job returned the same attempt number |
| `ProtocolLedger.MessageConservation` | backend/internal/convert/queue.go:450-549 | without crashes and with publishes that land, copies put plus retries equal processed plus skipped plus malformed plus pending; failures equal retries plus exhausted; the dead queue holds the malformed and exhausted |
| `ProtocolLedger.StepRunsDown` | backend/internal/convert/queue.go:450-549 | every step that is not a disturbance lowers the measure, and a disturbance raises it by a bounded amount |
| `ProtocolLedger.EveryRunTerminates` | backend/internal/convert/queue.go:450-549 | the length of every run is bounded by its number of publications, crashes, losses and claim errors |
| `ProtocolHistory.CountersAreHistory` | backend/internal/convert/queue.go:450-549 | in every reachable state the successes counted are those of the jobs, the retries counted those scheduled for them, and the Convert calls of a job the deliveries that claimed it |
| `ProtocolHistory.CopiesCounted` | backend/internal/convert/queue.go:450-549 | which steps count as a publication of a job and as a copy taken back |
| `ProtocolLiveness.NoStrandedJob` | backend/internal/convert/queue.go:462-549 | under A1, A2, A4, A5 and with calls that suffice (`Protocol.Suffices`), with crashes, duplicates and claim errors allowed, an unsettled enqueued job has a copy in a queue or with a worker in session, and one left 'converting' without an owner in session has a flagged copy whose claim succeeds |
| `ProtocolLiveness.RestIsSettled` | backend/internal/convert/queue.go:450-549 | under the same guards, when queues are empty and no worker can go on, every enqueued job is converted, or failed with its attempts spent |
| `ProtocolLiveness.Progress` | backend/internal/convert/queue.go:450-549 | in every well-formed state short of rest, some step that no guard forbids and that is no disturbance is possible |
| `ProtocolLiveness.SettlesByItself` | backend/internal/convert/queue.go:450-549 | after any run under the guards, every undisturbed continuation, whatever its conversions and unguarded calls come to, is no longer than the measure, and once only disturbances are left to happen the system is at rest with every job settled |
| `ProtocolStranding.SufficesExactly` | backend/internal/convert/queue.go:462-549 | when one delivery is all that is left of an unsettled job, the next call of its worker leaves the job covered if and only if it suffices |
| `ProtocolStranding.SufficesOrStrands` | backend/internal/convert/queue.go:450-549 | after any run under the guards, a call that suffices leaves such a job covered, and one that does not leaves it unsettled in every continuation without a lost session or worker and without a new publication of it |
| `ProtocolWitness.ArrivalGuardIsNotEnough` | backend/internal/files/jobs.go:46-51 | with A1 only at arrival, two workers convert one job at once in a reachable state |
| `ProtocolWitness.UnguardedRequeueIsUnsafe` | backend/internal/convert/queue.go:537-545 | without A2, two workers convert one job at once in a reachable state |
| `ProtocolWitness.ClaimErrorStrandsARedelivery` | backend/internal/convert/queue.go:462-473 | one claim error on a flagged delivery reaches a state where the job is 'converting' with no copy and no worker left |
| `ProtocolWitness.UnmarkedFailureStrandsAJob` | backend/internal/convert/pipeline.go:104-108 | one refused 'failed' mark on the last attempt strands the job, with every other guard respected and no crash |
| `ProtocolWitness.StrandedStays` | backend/internal/files/jobs.go:57-68 | the row of a job stranded in 'converting' never changes again, whatever is published, unless a further session or worker is lost |
| `ProtocolWitness.PoisonCirclesForever` | backend/internal/convert/queue.go:462-473 | one message whose claim always errs makes runs of any length, with every guard respected and nothing lost |
| `ProtocolWitness.UnheardFinishIsUndone` | backend/internal/convert/pipeline.go:113-119 | without A4, a converted job is put back to 'queued' |
| `ProtocolWitness.LateClaimStrandsAJob` | backend/internal/convert/queue.go:462-480 | without A5, a late claim followed by the death of its worker strands the job |
| `Pipeline.BuildAndValidate` | backend/internal/convert/pipeline.go:164-215 | the verdict is that of the bundle before log.md is rewritten, does not depend on the log, and holds of the files that go on to be stored |
| `Pipeline.BundleConverter.CreateOutput` | backend/internal/files/outputs.go:50-58 | appends the row, or leaves the table alone when the key exists or the call fails |
| `Pipeline.BundleConverter.Store` | backend/internal/convert/pipeline.go:217-246 | success means that row k, for every k, is at position k with the name, size and key of file k and the key leads to its content, and that the archive is stored; without faults it succeeds |
| `Pipeline.ListedInReadingOrder` | backend/internal/files/outputs.go:60-90 | wherever a bundle is held, its rows by position list index.md, log.md and the concepts in document order, and each key leads to that page |
| `Pipeline.BundleConverter.Attempt` | backend/internal/convert/pipeline.go:122-180 | success means the complete bundle of the document given is stored under a publishable verdict which the stored files still pass; without faults, success is exactly convertibility, and a document that is not leaves no rows and the verdict that refused it, if it got that far |
| `Pipeline.BundleConverter.Convert` | backend/internal/convert/pipeline.go:94-120 | with any fault or death around any call, status 'converted' always has the complete bundle of a document given to some attempt behind it, on success that of this one, and the job is marked converted only after the file; the job ends where the step machine ends on the same replies; without faults, file and job end 'converted' exactly for convertible documents and 'failed' otherwise |
| `Pipeline.BundleConverter.Requeue` | backend/internal/files/jobs.go:82-102 | puts job and file back together or not at all, and the published state stays consistent |
| `Pipeline.BundleConverter.MarkRetrying` | backend/internal/files/repository.go:175-199 | only a failed file is won; a call that fails may have won it all the same, and the published state stays consistent |
| `Pipeline.Live` | backend/internal/files/repository.go:42-50 | the same over any sequence of attempts, requeues, confirmations and retries of a file: what is behind 'converted' is always the bundle of a document that one of the attempts was given |
| `Slug.Slugify` | backend/internal/bundle/slug.go:32-57 | the loop with its dash flag yields `Slugified`, whose properties the next row states |
| `Slug.SlugifiedIsCanonical` | backend/internal/bundle/slug.go:28-70 | a slug has at most 48 ASCII letters and digits joined by single dashes, and such strings are exactly the fixed points |
| `Slug.UniqueSlug` | backend/internal/bundle/slug.go:76-88 | the search ends for every finite set of taken names, records its result and returns `Unique` |
| `Slug.UniqueIsFree` | backend/internal/bundle/slug.go:71-88 | the name returned was free, and is the first free candidate |
| `Slug.FirstFreeIsLeast` | backend/internal/bundle/slug.go:80-86 | the pigeonhole argument: forgetting the candidates already seen loses nothing, as no later one repeats them |
| `SlugLaws.LettersKeepAll` | backend/internal/bundle/slug.go:32-57 | dashes apart, the slug letters are exactly those kept of the title, in order |
| `SlugLaws.KeptIsWritten` | backend/internal/bundle/slug.go:32-57 | a character with something to keep is written as it is |
| `SlugLaws.GapIsDash` | backend/internal/bundle/slug.go:32-57 | a run of other characters is one dash after a letter and nothing at the start |
| `SlugLaws.FoldTable` | backend/internal/bundle/slug.go:18-26 | the folding table, letter by letter |
| `SlugLaws.FoldPairs` | backend/internal/bundle/slug.go:18-26 | two letters fold to a pair |
| `SlugLaws.OnlyTheseFold` | backend/internal/bundle/slug.go:18-26 | and no other character is folded |
| `SlugLaws.LowerTable` | backend/internal/bundle/slug.go:36 | accented capitals fold like their small letters |
| `SlugLaws.NothingElse` | backend/internal/bundle/slug.go:42-50 | no other character leaves anything in a slug |
| `SlugLaws.TruncatedIs` | backend/internal/bundle/slug.go:56-69 | beyond 48 characters the cut is at the last dash past the middle, or at 48 |
| `SlugLaws.SlugIs` | backend/internal/bundle/slug.go:53-57 | the slug is the cut letters without a dash at the end |
| `Bundles.NameConcepts` | backend/internal/bundle/bundle.go:187-213 | the loop over the mutable set of taken slugs yields `Concepts`: unit i keeps its content and gets position i+1 and the first free slug after those handed out before |
| `Bundles.SlugsAreDistinct` | backend/internal/bundle/bundle.go:185-199 | no two units share a slug |
| `Bundles.NamesAreDistinct` | backend/internal/bundle/bundle.go:201-209 | file names are pairwise distinct, can be linked to, and are never index.md or log.md |
| `PageContents.TitleIs` | backend/internal/bundle/bundle.go:193-197 | a title is the trimmed heading, or the section number if that is blank |
| `PageContents.ConceptKeeps` | backend/internal/bundle/bundle.go:199-209 | a concept keeps the body and origin of its unit and counts positions from one |
| `PageContents.NameParts` | backend/internal/bundle/bundle.go:199-207 | a file name is the position in two or more digits, a dash, the slug of the title (with the first number not handed out before, on collision) and .md |
| `Frontmatter.UnquoteInverts` | backend/internal/bundle/frontmatter.go:71-83 | unquoting inverts quoting up to line breaks and tabs, and exactly on text without them |
| `Frontmatter.Render` | backend/internal/bundle/frontmatter.go:41-69 | field by field, yields the block `Rendered` that the round trip below is about, in fixed order with empty fields left out |
| `FrontmatterLaws.RenderedIs` | backend/internal/bundle/frontmatter.go:41-69 | the block, field by field, each with its key and value and left out when empty |
| `FrontmatterLaws.YamlStringConcat` | backend/internal/bundle/frontmatter.go:71-83 | quoting works character by character between quotes |
| `FrontmatterLaws.YamlStringOne` | backend/internal/bundle/frontmatter.go:71-83 | what each character becomes |
| `FrontmatterLaws.QuotedAppend` | backend/internal/bundle/frontmatter.go:53-59 | tags are quoted one by one, with a comma between |
| `Frontmatter.ParseFrontmatter` | backend/internal/bundle/validate.go:434-456 | the loop over lines yields `Parsed` of the shortest leading block, later fields winning, and fails exactly when there is no block |
| `FrontmatterLaws.OpeningIs` | backend/internal/bundle/validate.go:434-436 | a block runs from an opening fence, with either line end, to the first closing one |
| `FrontmatterLaws.FieldExactly` | backend/internal/bundle/validate.go:438-440 | a line is a field if and only if it is a key, a colon and a value, trimmed |
| `FrontmatterLaws.LastLineWins` | backend/internal/bundle/validate.go:445-456 | a key is read exactly when a line declares it, with the value of the last such line |
| `Frontmatter.FrontmatterRoundTrip` | backend/internal/bundle/frontmatter.go:41-69 | whatever follows the block, parsing recovers exactly the printed fields |
| `PageContents.HeaderReads` | backend/internal/bundle/frontmatter.go:41-69 | type, title, description, source and timestamp of a full header are read back, and no other keys |
| `FrontmatterLaws.UnquoteIs` | backend/internal/bundle/validate.go:458-466 | spaces go, then the quotes around what is left |
| `FrontmatterLaws.UnescapeIs` | backend/internal/bundle/validate.go:458-466 | then the backslash in front of each quote or backslash |
| `LinkScan.ExtractRelativeLinks` | backend/internal/bundle/validate.go:406-432 | the filter loop keeps, in order, exactly the files named by links that stay inside the bundle |
| `LinkPattern.MatchExactly` | backend/internal/bundle/validate.go:400-404 | the scanner finds a match at a place if and only if the pattern, as a relation on texts, has one there |
| `LinkPattern.LeftmostFirst` | backend/internal/bundle/validate.go:412 | the leftmost match counts and the search goes on after it |
| `LinkPattern.NoneWithout` | backend/internal/bundle/validate.go:412 | without a match anywhere nothing is found |
| `LinkPattern.OutsideIs` | backend/internal/bundle/validate.go:415-418 | a target leads out exactly when :// occurs in it or it begins with #, / or mailto: |
| `LinkPattern.FileOfTarget` | backend/internal/bundle/validate.go:414-427 | a target that leads out names nothing, and any other its text up to the first #, without a leading ./ |
| `LinkPattern.FilesOfTargets` | backend/internal/bundle/validate.go:411-431 | a page names exactly the files its targets name |
| `LinkPattern.ExternalLinkNamesNothing` | backend/internal/bundle/validate.go:415-418 | a link that leads out adds nothing to what a page names |
| `PageContents.ExternalLinkIsFree` | backend/internal/bundle/validate.go:264-289 | where an external link in a page leads never changes either verdict |
| `LinkScan.LinksSplit` | backend/internal/bundle/validate.go:398-432 | the links of two texts put together are the links of each, whenever the first does not end in a character a link target can hold and the second opens with a bracket or has none |
| `LinkScan.LinkFound` | backend/internal/bundle/bundle.go:442-446 | the link of a linkable title is found with its file, and scanning goes on right after it |
| `LinkScan.LinkLost` | backend/internal/bundle/bundle.go:442-446 | the link of a title that is neither linkable nor writes a link of its own yields nothing |
| `LinkScan.LinkInjected` | backend/internal/bundle/bundle.go:442-446 | the link of every other title yields first the target the title itself names; the three kinds cover all titles |
| `LinkScan.LinkAfterAnything` | backend/internal/bundle/validate.go:400-404 | a link at the start of a line is found however the text before it ends, after what that text links to |
| `LinkPattern.EscapeConcat` | backend/internal/bundle/bundle.go:442-446 | a backslash goes in front of each bracket and nothing else changes |
| `Bundles.Build` | backend/internal/bundle/bundle.go:100-136 | nothing exactly for no units; otherwise every concept, index.md and a log.md that shows the log as it then stands: the one given or a new one, with the three steps of the build added |
| `PageContents.ConceptPage` | backend/internal/bundle/bundle.go:266-306 | a concept page is its header, its title, the trimmed body of its unit or the notice that there is none, the rule, and the links to the index and to the neighbours it has |
| `PageContents.BundleHoldsText` | backend/internal/bundle/bundle.go:266-306 | in every bundle, the page of every unit with text holds that text before the rule |
| `PageContents.ConceptHeaderIs` | backend/internal/bundle/bundle.go:271-278 | the metadata of a concept page |
| `PageContents.IndexPageIs` | backend/internal/bundle/bundle.go:230-264 | index.md is its header, introduction, one numbered entry for each concept in order, and the link to log.md |
| `PageContents.JoinConcat` | backend/internal/bundle/bundle.go:230-264 | the builder writes texts one after another |
| `PageContents.IntroIs` | backend/internal/bundle/bundle.go:243-254 | the introduction, with a dash for what is blank |
| `PageContents.IndexHeaderIs` | backend/internal/bundle/bundle.go:234-241 | the metadata of index.md |
| `PageContents.LogPageIs` | backend/internal/bundle/bundle.go:308-322 | log.md is its metadata, its title and the record |
| `PageContents.TagsAre` | backend/internal/bundle/bundle.go:225-228 | the tags name the format and the bundle |
| `Bundles.Bundle.RefreshLog` | backend/internal/bundle/bundle.go:138-152 | replaces the content of the first log.md, or adds one |
| `RuleLaws.WithLogIs` | backend/internal/bundle/bundle.go:142-152 | the first log.md gets the content, or one is added at the end |
| `Bundles.Bundle.SetValidation` | backend/internal/bundle/bundle.go:158-169 | attaches the report and re-renders log.md, leaving the other files |
| `Bundles.RefreshesLast` | backend/internal/bundle/bundle.go:142-152 | in a built bundle the re-rendering touches the last file only |
| `Bundles.Bundle.Find` | backend/internal/bundle/bundle.go:171-179 | the content of the first file of that name |
| `RuleLaws.FoundIs` | backend/internal/bundle/bundle.go:171-179 | nothing exactly when no file has the name, and otherwise the first that has |
| `Bundles.Bundle.OrderedFiles` | backend/internal/bundle/archive.go:65-81 | two passes yield the reserved files that exist, then every other file in order |
| `RuleLaws.OrderedIs` | backend/internal/bundle/archive.go:65-81 | reserved files first, where they are there |
| `RuleLaws.UnreservedConcat` | backend/internal/bundle/archive.go:65-81 | the others in their own order, none twice |
| `RuleLaws.UnreservedOne` | backend/internal/bundle/archive.go:65-81 | and which those are |
| `Archive.ReadingOrder` | backend/internal/bundle/archive.go:61-81 | for a built bundle that order is index.md, log.md and the concepts in document order: every file once |
| `Reports.VerdictFor` | backend/internal/bundle/validate.go:149-163 | invalid exactly when an error rule of the scope failed, else with warnings exactly when a warning rule did |
| `Reports.Worst` | backend/internal/bundle/validate.go:165-174 | the maximum of the verdicts |
| `Validation.MinimumStructureCheck` | backend/internal/bundle/validate.go:178-202 | passes exactly when index.md and log.md are there and not blank and some concept is |
| `Validation.IndexLinksCheck` | backend/internal/bundle/validate.go:204-229 | passes exactly when index.md exists and none of its links dangles |
| `Validation.ConceptsIndexedCheck` | backend/internal/bundle/validate.go:231-262 | passes exactly when index.md links every concept |
| `Validation.ConceptLinksCheck` | backend/internal/bundle/validate.go:264-289 | passes exactly when no link outside index.md dangles |
| `Validation.FrontmatterCheck` | backend/internal/bundle/validate.go:293-309 | passes exactly when every file opens with a block |
| `Validation.TypeFieldCheck` | backend/internal/bundle/validate.go:311-333 | passes exactly when every file declares a non-blank type |
| `Validation.StandardFieldsCheck` | backend/internal/bundle/validate.go:335-367 | passes exactly when every file with a block has the four standard fields |
| `Validation.ReservedTypesCheck` | backend/internal/bundle/validate.go:369-396 | passes exactly when index.md and log.md, where readable, declare their roles |
| `Validation.Validate` | backend/internal/bundle/validate.go:120-147 | the eight checks decide the properties above, both verdicts follow from them, the overall one is the worse, and publishable means both are |
| `RuleLaws.StructureRule` | backend/internal/bundle/validate.go:178-202 | the structure rule in terms of the files |
| `RuleLaws.LinkRules` | backend/internal/bundle/validate.go:204-289 | the three link rules in terms of the files |
| `RuleLaws.MetadataRules` | backend/internal/bundle/validate.go:293-367 | the three metadata rules in terms of the fields the files declare |
| `RuleLaws.RoleRule` | backend/internal/bundle/validate.go:369-396 | the role rule |
| `RuleLaws.VerdictsAre` | backend/internal/bundle/validate.go:120-174 | which rules make a scope invalid, which give warnings, and when a bundle may be published |
| `PageContents.LaterFileCounts` | backend/internal/bundle/validate.go:122-126 | of two files with one name the later counts |
| `Conformance.FullHeader` | backend/internal/bundle/validate.go:311-396 | what the rules see in any file that opens with a printed header |
| `Conformance.BuiltBundleConforms` | backend/internal/bundle/validate.go:291-396 | the conformance verdict of every built bundle is valid, or with warnings exactly when the conversion has no time |
| `IndexPage.IndexReadsBack` | backend/internal/bundle/bundle.go:230-264 | for every source and every list of concepts, the validator extracts from index.md what its introduction names, then what each entry names by its own title and file name, then log.md |
| `IndexPage.CleanIsQuiet` | backend/internal/bundle/bundle.go:230-252 | a source without opening brackets makes the introduction name nothing |
| `IndexPage.BracketsAloneAreQuiet` | backend/internal/bundle/bundle.go:230-252 | neither does one whose closing brackets are never followed by a parenthesis |
| `IndexPage.OwnLink` | backend/internal/bundle/bundle.go:442-446 | an entry whose title writes no link of its own names its file if the title is linkable and nothing otherwise |
| `Gate.PublishableExactly` | backend/internal/bundle/validate.go:204-262 | for every source and all units, a generated bundle passes the gate if and only if every file named by the introduction and the entries of index.md is in the bundle, and every concept is among them |
| `Gate.PublishableByTitles` | backend/internal/bundle/validate.go:204-262 | when no title writes a link of its own, that is settled title by title: nothing missing is named by the introduction, and each concept has a linkable title or is named there |
| `Gate.NoBackslashNoRefusal` | backend/internal/convert/pipeline.go:76-81 | with headings without backslashes, a bundle passes the gate exactly when the introduction of index.md names no missing file |
| `Gate.CleanBundlePasses` | backend/internal/convert/pipeline.go:76-81 | from a source without opening brackets and headings without backslashes comes a bundle that passes, whose index.md yields the concepts in document order and then log.md |
| `Gate.TrailingBackslashIsRefused` | backend/internal/convert/pipeline.go:76-81 | the bundle of one unit headed by a drive letter and a backslash is refused, when the source has no brackets |
| `Gate.DanglingInjectionIsRefused` | backend/internal/bundle/validate.go:204-229 | a title that writes a link of its own to a file that is not in the bundle costs publication, whatever the rest of the document and the source |
| `Gate.FreedBracketIsRefused` | backend/internal/bundle/validate.go:204-229 | the bundle of one unit headed `\](x)` is refused, whatever its source |
| `Gate.BracketedNameIsRefused` | backend/internal/bundle/bundle.go:230-252 | every bundle of a file titled `A[x](y)` is refused, whatever its units |
| `Gate.CheckedIsStored` | backend/internal/convert/pipeline.go:188-215 | rewriting log.md after the check changes neither the outcome of the gate nor the conformance verdict, for every report and log |
| `Navigation.ConceptNavigates` | backend/internal/bundle/bundle.go:291-303 | whatever a concept and its neighbours are called and hold, its page names index.md and then what the links to its neighbours name, last |
| `Navigation.BundleIsNavigable` | backend/internal/bundle/bundle.go:291-303 | in every bundle each concept links to index.md, and to its neighbours where their titles are linkable; and if the bundle is publishable, or the title linkable, index.md links back to it |
| `Segmenting.DetectHeadings` | backend/internal/convert/segment.go:169-217 | the single pass with its look-back collects exactly the headings the lines define one by one |
| `Segmenting.HeadingsIncrease` | backend/internal/convert/segment.go:169-217 | heading lines are strictly increasing, despite the look-back |
| `Segmenting.HeadingsAreDefined` | backend/internal/convert/segment.go:169-217 | every heading is in range and is what its line defines |
| `Segmenting.HeadingsAreComplete` | backend/internal/convert/segment.go:169-217 | every line that defines a heading is collected |
| `SegmentLaws.HeadingExactly` | backend/internal/convert/segment.go:169-217 | a line is a heading if and only if it says so outside fences, by its marks or by the plain conventions, or does not and has text with an underline below it, level 1 by equals signs and 2 by dashes |
| `SegmentLaws.FencedIsOdd` | backend/internal/convert/segment.go:173-179 | a line is fenced exactly when an odd number of fence lines come before it |
| `Segmenting.NoHeadingInFence` | backend/internal/convert/segment.go:54-56 | a heading lies outside every fence, or is the line that closes one and is underlined |
| `Segmenting.FenceHeadingExactly` | backend/internal/convert/segment.go:175-206 | a fence line is a heading if and only if it closes a fence, the next line is an underline and neither a fence nor an ATX heading, and the fence does not itself read as an underline; the heading is then titled with the fence |
| `Segmenting.ClosingFenceBecomesHeading` | backend/internal/convert/segment.go:175-206 | a document in which it happens |
| `Segmenting.SplitLevel` | backend/internal/convert/segment.go:258-282 | the shallowest level up to 6 that occurs more than once, else the shallowest; and it occurs |
| `Segmenting.SplitsAtOneLevel` | backend/internal/convert/segment.go:258-282 | that determines the level |
| `SegmentLaws.CountIsTwo` | backend/internal/convert/segment.go:258-282 | a level counts as occurring more than once exactly when two headings have it |
| `SegmentLaws.SplitLevelIs` | backend/internal/convert/segment.go:258-282 | the split level is the shallowest up to 6 that two headings have, or else the shallowest of all |
| `SegmentLaws.AtLevelConcat` | backend/internal/convert/segment.go:98-103 | the splits of a document are those of its parts, in order |
| `SegmentLaws.AtLevelOne` | backend/internal/convert/segment.go:98-103 | and a heading is one exactly when it has the level |
| `Segmenting.SplitLeadingHeading` | backend/internal/convert/segment.go:284-303 | the body is what follows the peeled heading lines |
| `SegmentLaws.PeelsMarked` | backend/internal/convert/segment.go:284-292 | a marked first line is taken off and gives the title |
| `SegmentLaws.PeelsUnderlined` | backend/internal/convert/segment.go:294-300 | a first line with an underline below is taken off with it and gives the title |
| `SegmentLaws.PeelsOnlyHeadings` | backend/internal/convert/segment.go:284-303 | nothing else is taken off |
| `SegmentLaws.PeelsNothing` | backend/internal/convert/segment.go:302 | and then the title is taken from the text |
| `Segmenting.SegmentText` | backend/internal/convert/segment.go:86-136 | the units are the preamble and the sections at the split level, or the unstructured units; there are none exactly when the text is all white space; and the log gets the headings found and the level, or the way the text was cut |
| `SegmentLaws.LinesAreLines` | backend/internal/convert/segment.go:89 | no line holds a line break |
| `SegmentLaws.LinesAreTheOnly` | backend/internal/convert/segment.go:89 | the lines are the only texts without line breaks that join to the text |
| `SegmentLaws.UnixIs` | backend/internal/convert/segment.go:87 | every carriage return before a line break goes, and nothing else changes |
| `SegmentLaws.SectionIs` | backend/internal/convert/segment.go:122-133 | section k has the title, level and line of split k and the trimmed lines up to the next one |
| `SegmentLaws.StructuredAre` | backend/internal/convert/segment.go:106-133 | the units are that of the preamble, unless nothing is left of it, and the sections |
| `SegmentLaws.TrimIs` | backend/internal/convert/segment.go:112-130 | trimming takes the white space off both ends, all of it and nothing else |
| `SegmentLaws.SpaceIsEncoded` | backend/internal/convert/segment.go:112-130 | white space in bytes is the UTF-8 encoding of white space in characters |
| `SegmentLaws.SolidIs` | backend/internal/convert/segment.go:86-136 | text without white space is all content |
| `Segmenting.SectionsTile` | backend/internal/convert/segment.go:106-133 | preamble lines, heading lines and section lines make up the document, each line once and in order |
| `Segmenting.StructuredKeepsContent` | backend/internal/convert/segment.go:106-133 | up to white space, the document is the preamble followed by each heading line and body |
| `Segmenting.PreambleKeepsContent` | backend/internal/convert/segment.go:108-120 | the preamble unit leaves out only whole leading lines |
| `Segmenting.SegmentWithoutHeadings` | backend/internal/convert/segment.go:138-167 | the branches on emptiness and size yield `Unstructured`, whose losslessness the next row states, and the note of the branch |
| `Segmenting.UnstructuredIsLossless` | backend/internal/convert/segment.go:138-167 | up to white space, the bodies in order are the document, each of 1 to 20000 bytes |
| `SegmentLaws.UnstructuredAre` | backend/internal/convert/segment.go:138-167 | a text up to the limit is one unit, and a longer one a unit for each block, numbered in order |
| `Segmenting.SplitParagraphs` | backend/internal/convert/extract.go:98-110 | the blocks of the parts between blank lines, trimmed, non-empty and cut to size |
| `SegmentLaws.PartsAre` | backend/internal/convert/extract.go:98-100 | the parts are what stands before the first blank line, and the parts of what follows it |
| `SegmentLaws.BlankLineIs` | backend/internal/convert/extract.go:17-18 | whatever the blank-line pattern matches is a blank line |
| `SegmentLaws.BlankLineMatches` | backend/internal/convert/extract.go:17-18 | and nothing else is |
| `SegmentLaws.BlocksOf` | backend/internal/convert/extract.go:102-109 | each part is trimmed, left out when empty and cut when too long |
| `Splitting.SplitOversizedBlock` | backend/internal/convert/extract.go:112-138 | the loop over the shrinking block, with its search backwards for a character start, yields `Pieces`, whose properties the next rows state |
| `Splitting.PiecesRestore` | backend/internal/convert/extract.go:112-138 | for every byte string, the pieces concatenate to it and each has 1 to 20000 bytes |
| `SegmentLaws.FirstPiece` | backend/internal/convert/extract.go:116-135 | a piece ends before the last character that starts within the limit, or at the limit if none does |
| `Splitting.PiecesOfText` | backend/internal/convert/extract.go:112-138 | for valid UTF-8 (section 3 of RFC 3629) the pieces are valid, all but the last have at least 19997 bytes, and there are at most len/19997 + 1 |
| `SegmentLaws.CharIsEncoded` | backend/internal/convert/extract.go:123 | a character start is that of a UTF-8 encoding |

## Left out

- `ProtocolSafety.ExclusiveConversion`: holds under A1 and A2 only; the witnesses show that neither can be dropped.
- `ProtocolSafety.OneFinalEffect`: needs A4 besides A1 and A2, because Requeue undoes a final mark that was not heard.
- `ProtocolLiveness.NoStrandedJob`: needs A1, A2, A4, A5 and calls that suffice; `ProtocolStranding.SufficesOrStrands` shows that every other call can strand a job.
- `JobTable.PgJobRepository.Claim`: the columns `error` and `finished_at`, which no decision reads.
- `JobTable.PgJobRepository.UpdateStatus`: the same two columns.
- `JobTable.PgJobRepository.Requeue`: the same two columns; the whole batch, with the file, is `Pipeline.BundleConverter.Requeue`.
- `Validation.Validate`: the wording and order of the details of a failed check, which the source takes from sorting or map iteration.
- The Spanish wording of the pages, which is a parameter, and of the messages of the segmenter and the converter in the log.
- `Segmenting.SegmentText`: the line patterns themselves, which are parameters.
- `Pipeline.BundleConverter.CreateOutput`: uniqueness of object keys across files, which follows from the uploads' own unique keys.
- `documentTitle` and the cases of an empty or odd file name: the title is any non-empty text.
- `humanSize`, the clock, and the body of log.md below its heading.
- Messages naming deleted jobs beyond their claim finding no row.
- User-initiated retry and repeated confirmation as sources of further jobs: nothing is claimed about two attempts on one file at a time.
- AMQP connections, channel recovery and back-off, context cancellation: a lost session appears as a copy taken back while the worker lives or dies.
- HTML, PDF and CSV extraction, format detection, zip and JSON encoding, object storage beyond a map.
- Authentication, configuration, HTTP handlers, metrics beyond the counters of the consumer, the frontend and the scripts.
