/**
 Building a knowledge bundle (backend/internal/bundle/bundle.go, archive.go): naming the
 concepts, printing every file, and re-rendering log.md.
 */
module Bundles {
  import opened Wrappers
  import opened Text
  import Slug
  import opened Frontmatter
  import opened LinkScan
  import opened Reports

  const INDEX_FILE := "index.md"
  const LOG_FILE := "log.md"

  /** What documentTitle makes of a file name; never empty. */
  type Title = s: string | s != "" witness "Documento"

  /** A size as humanSize prints it. */
  type SizeText = s: string | forall c :: c in s ==> '0' <= c <= '9' || c in ".—BKM " witness "—"

  /** A fixed piece of text between the values of a page: no bracket, no backslash. */
  type Label = s: string | '[' !in s && ']' !in s && '\\' !in s

  type Word = s: Label | s != "" witness "-"

  /** A label that ends in a space or the like, as those in front of a link do. */
  type Break = s: Word | Settled(s) witness " "

  /** The wording of the generated pages, which the source has in Spanish. */
  datatype Wording = Wording(
    indexOf: Word, having: Label, units: Label,
    unit: Word, of: Label, inDocument: Label, end: Label,
    logOf: Word, traceOf: Word, toBundle: Label,
    generatedFrom: Label, facts: Label, contentType: Label, size: Label, count: Label,
    converted: Label, job: Label, concepts: Break,
    noContent: string, index: Label, previous: Break, following: Break, trace: Break)

  datatype Unit = Unit(title: string, body: string, origin: string)

  datatype Source = Source(title: Title, originalName: string, contentType: string, size: SizeText,
                           jobId: string, convertedAt: Time, words: Wording)

  datatype File = File(name: string, content: string)

  datatype Concept = Concept(title: string, body: string, origin: string, position: nat, fileName: string)

  /** log.md below its heading and metadata: the recorded steps, the table of units and the
      validation section. Any text at all may stand there. */
  type Journal = (seq<string>, Option<Report>) -> string

  // ---------------------------------------------------------------------------
  // Naming
  // ---------------------------------------------------------------------------

  function TitleOf(u: Unit, position: nat): (title: string)
    ensures title != ""
  {
    var title := TrimSpace(u.title);
    if title == "" then "Sección " + Decimal(position) else title
  }

  function BaseOf(u: Unit, position: nat): string {
    var slug := Slug.Slugified(TitleOf(u, position));
    if slug == "" then "seccion-" + Decimal(position) else slug
  }

  function Bases(units: seq<Unit>): seq<string> {
    seq(|units|, i requires 0 <= i < |units| => BaseOf(units[i], i + 1))
  }

  function FileName(position: nat, slug: string): string {
    Padded(position) + "-" + slug + ".md"
  }

  function SlugAt(units: seq<Unit>, i: nat): string
    requires i < |units|
  {
    Slug.Free(Bases(units)[i], Slug.Handed(Bases(units)[..i]))
  }

  function ConceptAt(units: seq<Unit>, i: nat): Concept
    requires i < |units|
  {
    Concept(TitleOf(units[i], i + 1), units[i].body, units[i].origin, i + 1,
            FileName(i + 1, SlugAt(units, i)))
  }

  function Concepts(units: seq<Unit>): (concepts: seq<Concept>)
    ensures |concepts| == |units|
  {
    seq(|units|, i requires 0 <= i < |units| => ConceptAt(units, i))
  }

  method NameUnit(u: Unit, position: nat, taken: set<string>)
    returns (title: string, slug: string, taken': set<string>)
    ensures title == TitleOf(u, position)
    ensures slug == Slug.Free(BaseOf(u, position), taken) && taken' == taken + {slug}
  {
    title := TrimSpace(u.title);
    if title == "" { title := "Sección " + Decimal(position); }
    var base := Slug.Slugify(title);
    slug, taken' := Slug.UniqueSlug(base, "seccion-" + Decimal(position), taken);
  }

  method NameConcepts(units: seq<Unit>) returns (concepts: seq<Concept>)
    ensures concepts == Concepts(units)
  {
    hide TitleOf, BaseOf, FileName, Concepts, Slug.Free;
    var taken := {};
    concepts := [];
    ghost var all := Concepts(units);
    for i := 0 to |units|
      invariant taken == TakenBefore(units, i)
      invariant concepts == all[..i]
    {
      var title, slug;
      title, slug, taken := NameUnit(units[i], i + 1, taken);
      NameStep(units, i, title, slug);
      var name := FileName(i + 1, slug);
      concepts := concepts + [Concept(title, units[i].body, units[i].origin, i + 1, name)];
      assert concepts == all[..i] + [all[i]];
    }
  }

  function TakenBefore(units: seq<Unit>, i: nat): set<string>
    requires i <= |units|
  {
    Slug.Handed(Bases(units)[..i])
  }

  lemma NameStep(units: seq<Unit>, i: nat, title: string, slug: string)
    requires i < |units| && title == TitleOf(units[i], i + 1)
    requires slug == Slug.Free(BaseOf(units[i], i + 1), TakenBefore(units, i))
    ensures TakenBefore(units, i + 1) == TakenBefore(units, i) + {slug}
    ensures Concepts(units)[i] == Concept(title, units[i].body, units[i].origin, i + 1, FileName(i + 1, slug))
  {
    hide TitleOf, BaseOf, FileName, Slug.Free, Slug.Handed;
    Slug.HandedStep(Bases(units), i);
  }

  /** No two sections share a slug, however alike their headings are. */
  lemma SlugsAreDistinct(units: seq<Unit>, i: nat, j: nat)
    requires i < j < |units|
    ensures SlugAt(units, i) != SlugAt(units, j)
  {
    Slug.HandedOnce(Bases(units), i, j);
  }

  /** Every name handed out can be linked to, is not one of the reserved names, and is not
      handed out twice. */
  lemma NamesAreDistinct(units: seq<Unit>, i: nat, j: nat)
    requires i < |units| && j < |units|
    ensures var name := ConceptAt(units, i).fileName;
      && LinkName(name) && name != INDEX_FILE && name != LOG_FILE
      && (name == ConceptAt(units, j).fileName ==> i == j)
  {
    hide ConceptAt, LinkName, Before, Padded;
    NameIs(units, i);
    NameIs(units, j);
    if ConceptAt(units, i).fileName == ConceptAt(units, j).fileName { PaddedInjective(i + 1, j + 1); }
  }

  lemma NameIs(units: seq<Unit>, i: nat)
    requires i < |units|
    ensures var name := ConceptAt(units, i).fileName;
      && LinkName(name) && name != INDEX_FILE && name != LOG_FILE && Before(name, '-') == Padded(i + 1)
  {
    hide SlugAt, TitleOf, Slug.SlugChars, FileName, LinkName, Before, Padded;
    SlugAtChars(units, i);
    NameShape(i + 1, SlugAt(units, i));
    assert INDEX_FILE[0] == 'i' && LOG_FILE[0] == 'l';
  }

  lemma SlugAtChars(units: seq<Unit>, i: nat)
    requires i < |units|
    ensures Slug.SlugChars(SlugAt(units, i))
  {
    BaseChars(units[i], i + 1);
    Slug.FreeChars(Bases(units)[i], Slug.Handed(Bases(units)[..i]));
  }

  lemma BaseChars(u: Unit, position: nat)
    ensures Slug.SlugChars(BaseOf(u, position))
  {
    Slug.SlugifiedIsCanonical(TitleOf(u, position));
    forall c | c in "seccion-" + Decimal(position) ensures Slug.SlugChar(c) {
      if c !in "seccion-" { assert c in Decimal(position); }
    }
  }

  lemma NameShape(position: nat, slug: string)
    requires Slug.SlugChars(slug)
    ensures var name := FileName(position, slug);
      && LinkName(name) && '0' <= name[0] <= '9' && Before(name, '-') == Padded(position)
  {
    var digits, name := Padded(position), FileName(position, slug);
    assert name == digits + ("-" + (slug + ".md")) && name[0] == digits[0];
    BeforeDash(digits, slug + ".md");
    forall c | c in name ensures TargetChar(c) && NameChar(c) {
      if c in slug { assert Slug.SlugChar(c); }
      assert c in digits || c == '-' || c in slug || c in ".md";
    }
  }

  lemma {:induction false} BeforeDash(digits: string, rest: string)
    requires forall c :: c in digits ==> c != '-'
    ensures Before(digits + ("-" + rest), '-') == digits
  {
    var s := digits + ("-" + rest);
    if digits == "" {
      assert s[0] == '-';
    } else {
      assert digits[0] in digits && s[1..] == digits[1..] + ("-" + rest);
      assert forall c :: c in digits[1..] ==> c in digits;
      BeforeDash(digits[1..], rest);
    }
  }

  // ---------------------------------------------------------------------------
  // Printing
  // ---------------------------------------------------------------------------

  function Join(parts: seq<string>): string {
    if parts == [] then "" else parts[0] + Join(parts[1..])
  }

  function Root(title: string): string {
    var root := Slug.Slugified(title);
    if root == "" then "bundle" else root
  }

  function Tags(src: Source): (tags: seq<string>)
    ensures tags != []
  {
    ["okf", Root(src.title)]
  }

  function OrDash(s: string): string {
    if TrimSpace(s) == "" then "—" else s
  }

  function FormatTime(t: Time): string {
    if t.Zero? then "—" else t.display
  }

  function IndexDescription(src: Source, count: nat): (description: string)
    ensures description != ""
  {
    src.words.indexOf + src.originalName + src.words.having + Decimal(count) + src.words.units
  }

  function IndexHeader(src: Source, count: nat): Header {
    Header("index", src.title, IndexDescription(src, count), Tags(src), src.convertedAt, src.originalName)
  }

  function IndexIntro(src: Source, count: nat): string {
    Join(IntroParts(src, count))
  }

  function IntroParts(src: Source, count: nat): seq<string> {
    var w := src.words;
    ["# ", src.title, "\n\n", w.generatedFrom, src.originalName, w.facts, src.originalName,
     w.contentType, OrDash(src.contentType), w.size, src.size, w.count, Decimal(count),
     w.converted, FormatTime(src.convertedAt), w.job, OrDash(src.jobId), w.concepts]
  }

  function Item(c: Concept): string {
    Decimal(c.position) + ". " + Link(c.title, c.fileName) + "\n"
  }

  function Items(concepts: seq<Concept>): string {
    if concepts == [] then "" else Item(concepts[0]) + Items(concepts[1..])
  }

  const LOG_LINK := "[" + LOG_FILE + "](" + LOG_FILE + ")"

  function IndexFooter(src: Source): string {
    src.words.trace + (LOG_LINK + ".\n")
  }

  function IndexText(src: Source, concepts: seq<Concept>): string {
    Rendered(IndexHeader(src, |concepts|)) + (IndexIntro(src, |concepts|) + (Items(concepts) + IndexFooter(src)))
  }

  method WriteItems(b: string, concepts: seq<Concept>) returns (b': string)
    ensures b' == b + Items(concepts)
  {
    b' := b;
    for i := 0 to |concepts|
      invariant b' + Items(concepts[i..]) == b + Items(concepts)
    {
      ItemsStep(b', concepts[i..]);
      assert concepts[i..][1..] == concepts[i + 1..];
      b' := b' + Item(concepts[i]);
    }
    assert concepts[|concepts|..] == [];
  }

  lemma ItemsStep(b: string, concepts: seq<Concept>)
    requires concepts != []
    ensures b + Items(concepts) == b + Item(concepts[0]) + Items(concepts[1..])
  {
  }

  method RenderIndex(src: Source, concepts: seq<Concept>) returns (b: string)
    ensures b == IndexText(src, concepts)
  {
    hide Rendered, IndexHeader, IndexIntro, Items, IndexFooter;
    var header := Render(IndexHeader(src, |concepts|));
    var items := WriteItems("", concepts);
    b := header + (IndexIntro(src, |concepts|) + (items + IndexFooter(src)));
  }

  function ConceptDescription(src: Source, concepts: seq<Concept>, c: Concept): (description: string)
    ensures description != ""
  {
    src.words.unit + Decimal(c.position) + src.words.of + Decimal(|concepts|) + src.words.inDocument
    + src.originalName + src.words.end
  }

  function ConceptHeader(src: Source, concepts: seq<Concept>, c: Concept): Header {
    Header("concept", c.title, ConceptDescription(src, concepts, c), Tags(src), src.convertedAt, src.originalName)
  }

  function BodyText(src: Source, body: string): string {
    if TrimSpace(body) == "" then src.words.noContent else TrimSpace(body)
  }

  function Content(src: Source, c: Concept): string {
    "# " + c.title + "\n\n" + BodyText(src, c.body) + "\n\n---\n"
  }

  function Previous(src: Source, concepts: seq<Concept>, i: nat): string
    requires i < |concepts|
  {
    if i == 0 then "" else src.words.previous + Link(concepts[i - 1].title, concepts[i - 1].fileName)
  }

  function Following(src: Source, concepts: seq<Concept>, i: nat): string
    requires i < |concepts|
  {
    if i + 1 == |concepts| then "" else src.words.following + Link(concepts[i + 1].title, concepts[i + 1].fileName)
  }

  /** What follows the link to index.md at the foot of a concept. */
  function Neighbours(src: Source, concepts: seq<Concept>, i: nat): string
    requires i < |concepts|
  {
    Previous(src, concepts, i) + (Following(src, concepts, i) + "\n")
  }

  function ConceptText(src: Source, concepts: seq<Concept>, i: nat): string
    requires i < |concepts|
  {
    Rendered(ConceptHeader(src, concepts, concepts[i]))
    + (Content(src, concepts[i]) + LineLink(src.words.index, INDEX_FILE, Neighbours(src, concepts, i)))
  }

  method RenderConcept(src: Source, concepts: seq<Concept>, i: nat) returns (b: string)
    requires i < |concepts|
    ensures b == ConceptText(src, concepts, i)
  {
    hide Rendered, ConceptHeader, Content, Link, LineLink;
    var header := Render(ConceptHeader(src, concepts, concepts[i]));
    var footer := "\n[" + src.words.index + "](" + INDEX_FILE + ")";
    var prev, next := "", "";
    if i > 0 { prev := src.words.previous + Link(concepts[i - 1].title, concepts[i - 1].fileName); }
    if i + 1 < |concepts| {
      next := src.words.following + Link(concepts[i + 1].title, concepts[i + 1].fileName);
    }
    var neighbours := prev + (next + "\n");
    LineLinkIs(src.words.index, INDEX_FILE, neighbours);
    b := header + (Content(src, concepts[i]) + (footer + neighbours));
  }

  function LogTitle(src: Source): (title: string)
    ensures title != ""
  {
    src.words.logOf + src.title
  }

  function LogDescription(src: Source): (description: string)
    ensures description != ""
  {
    src.words.traceOf + src.originalName + src.words.toBundle
  }

  function LogHeader(src: Source): Header {
    Header("log", LogTitle(src), LogDescription(src), Tags(src), src.convertedAt, src.originalName)
  }

  function LogText(src: Source, journal: string): string {
    Rendered(LogHeader(src)) + (LogHeading(src) + journal)
  }

  function LogHeading(src: Source): string {
    "# " + LogTitle(src) + "\n\n"
  }

  // ---------------------------------------------------------------------------
  // Files
  // ---------------------------------------------------------------------------

  function ConceptFile(src: Source, concepts: seq<Concept>, i: nat): File
    requires i < |concepts|
  {
    File(concepts[i].fileName, ConceptText(src, concepts, i))
  }

  function ConceptFiles(src: Source, concepts: seq<Concept>): seq<File> {
    seq(|concepts|, i requires 0 <= i < |concepts| => ConceptFile(src, concepts, i))
  }

  /** Every file but log.md. */
  function Pages(src: Source, concepts: seq<Concept>): (pages: seq<File>)
    ensures |pages| == |concepts| + 1
  {
    ConceptFiles(src, concepts) + [File(INDEX_FILE, IndexText(src, concepts))]
  }

  /** The files of a built bundle, with journal as the body of log.md. */
  function BundleFiles(src: Source, concepts: seq<Concept>, journal: string): seq<File> {
    Pages(src, concepts) + [File(LOG_FILE, LogText(src, journal))]
  }

  /** files with the content of the first log.md replaced, or a log.md added at the end. */
  function WithLog(files: seq<File>, content: string): seq<File> {
    if files == [] then [File(LOG_FILE, content)]
    else if files[0].name == LOG_FILE then [File(LOG_FILE, content)] + files[1..]
    else [files[0]] + WithLog(files[1..], content)
  }

  function Found(files: seq<File>, name: string): Option<string> {
    if files == [] then None
    else if files[0].name == name then Some(files[0].content)
    else Found(files[1..], name)
  }

  function Named(files: seq<File>, name: string): seq<File> {
    match Found(files, name) case Some(content) => [File(name, content)] case None => []
  }

  predicate Reserved(name: string) {
    name == INDEX_FILE || name == LOG_FILE
  }

  function Unreserved(files: seq<File>): seq<File> {
    if files == [] then []
    else (if Reserved(files[0].name) then [] else [files[0]]) + Unreserved(files[1..])
  }

  /** Reading order: index.md, log.md, then the concepts. */
  function Ordered(files: seq<File>): seq<File> {
    Named(files, INDEX_FILE) + Named(files, LOG_FILE) + Unreserved(files)
  }

  method ReplaceLog(files: seq<File>, content: string) returns (files': seq<File>)
    ensures files' == WithLog(files, content)
  {
    for i := 0 to |files|
      invariant WithLog(files, content) == files[..i] + WithLog(files[i..], content)
    {
      if files[i].name == LOG_FILE {
        return files[i := File(LOG_FILE, content)];
      }
      assert files[i..][1..] == files[i + 1..];
    }
    files' := files + [File(LOG_FILE, content)];
  }

  /** The trace of a conversion, shared by everyone who writes to it. */
  class Log {
    var entries: seq<string>

    constructor ()
      ensures entries == []
    {
      entries := [];
    }

    method Step(message: string)
      modifies this
      ensures entries == old(entries) + [message]
    {
      entries := entries + [message];
    }
  }

  class Bundle {
    const src: Source
    const concepts: seq<Concept>
    const log: Log
    const journal: Journal
    var files: seq<File>
    var validation: Option<Report>

    constructor (src: Source, concepts: seq<Concept>, log: Log, journal: Journal)
      ensures this.src == src && this.concepts == concepts && this.log == log && this.journal == journal
      ensures files == [] && validation == None
    {
      this.src, this.concepts, this.log, this.journal := src, concepts, log, journal;
      files, validation := [], None;
    }

    /** What log.md would say now. */
    function Journaled(): string
      reads this, log
    {
      journal(log.entries, validation)
    }

    method RefreshLog()
      modifies this`files
      ensures files == WithLog(old(files), LogText(src, Journaled()))
    {
      files := ReplaceLog(files, LogText(src, journal(log.entries, validation)));
    }

    method SetValidation(r: Report)
      modifies this
      ensures validation == Some(r)
      ensures files == WithLog(old(files), LogText(src, Journaled()))
    {
      validation := Some(r);
      RefreshLog();
    }

    method Find(name: string) returns (content: Option<string>)
      ensures content == Found(files, name)
    {
      for i := 0 to |files|
        invariant Found(files, name) == Found(files[i..], name)
      {
        if files[i].name == name { return Some(files[i].content); }
        assert files[i..][1..] == files[i + 1..];
      }
      return None;
    }

    method OrderedFiles() returns (ordered: seq<File>)
      ensures ordered == Ordered(files)
    {
      ordered := [];
      var content := Find(INDEX_FILE);
      if content.Some? { ordered := ordered + [File(INDEX_FILE, content.value)]; }
      content := Find(LOG_FILE);
      if content.Some? { ordered := ordered + [File(LOG_FILE, content.value)]; }
      for i := 0 to |files|
        invariant ordered + Unreserved(files[i..]) == Ordered(files)
      {
        if files[i].name != INDEX_FILE && files[i].name != LOG_FILE { ordered := ordered + [files[i]]; }
        assert files[i..][1..] == files[i + 1..];
      }
    }
  }

  function UnitsNamed(count: nat): string {
    Decimal(count) + " unidad(es) de conocimiento nombradas y ordenadas"
  }

  function DocumentsWritten(count: nat): string {
    Decimal(count) + " documento(s) de concepto generados en Markdown con frontmatter OKF"
  }

  function IndexWritten(count: nat): string {
    "index.md generado con " + Decimal(count) + " enlace(s) en el orden del documento de origen"
  }

  method RenderPages(src: Source, concepts: seq<Concept>, log: Log) returns (files: seq<File>)
    modifies log
    ensures files == Pages(src, concepts)
    ensures log.entries == old(log.entries) + [DocumentsWritten(|concepts|), IndexWritten(|concepts|)]
  {
    hide ConceptText, IndexText, DocumentsWritten, IndexWritten;
    files := [];
    for i := 0 to |concepts|
      invariant |files| == i && forall k :: 0 <= k < i ==> files[k] == ConceptFile(src, concepts, k)
      invariant log.entries == old(log.entries)
    {
      var content := RenderConcept(src, concepts, i);
      files := files + [File(concepts[i].fileName, content)];
    }
    assert files == ConceptFiles(src, concepts);
    log.Step(DocumentsWritten(|concepts|));
    var index := RenderIndex(src, concepts);
    files := files + [File(INDEX_FILE, index)];
    log.Step(IndexWritten(|concepts|));
    assert log.entries == old(log.entries) + [DocumentsWritten(|concepts|), IndexWritten(|concepts|)];
  }

  function BuildEntries(count: nat): seq<string> {
    [UnitsNamed(count), DocumentsWritten(count), IndexWritten(count)]
  }

  lemma EntriesAdded(earlier: seq<string>, count: nat)
    ensures earlier + [UnitsNamed(count)] + [DocumentsWritten(count), IndexWritten(count)] == earlier + BuildEntries(count)
  {
    hide UnitsNamed, DocumentsWritten, IndexWritten;
  }

  /** The bundle of a document: nothing when it has no units, and otherwise every required file.
      Its log is the one given, or a new one, with the three steps of the build added. */
  method Build(src: Source, units: seq<Unit>, log: Log?, journal: Journal) returns (b: Bundle?)
    modifies log
    ensures b == null <==> units == []
    ensures b == null && log != null ==> log.entries == old(log.entries)
    ensures b != null ==> (
      && fresh(b) && b.src == src && b.journal == journal
      && b.validation == None && b.concepts == Concepts(units)
      && (if log == null then fresh(b.log) else b.log == log)
      && b.log.entries == (if log == null then [] else old(log.entries)) + BuildEntries(|units|)
      && b.files == BundleFiles(src, Concepts(units), b.Journaled()))
  {
    hide Pages, LogText, Concepts, WithLog, UnitsNamed, DocumentsWritten, IndexWritten, BuildEntries;
    if |units| == 0 { return null; }
    var steps := log;
    if steps == null { steps := new Log(); }
    ghost var earlier := steps.entries;
    var concepts := NameConcepts(units);
    steps.Step(UnitsNamed(|concepts|));
    b := new Bundle(src, concepts, steps, journal);
    var pages := RenderPages(src, concepts, steps);
    EntriesAdded(earlier, |units|);
    b.files := pages + [File(LOG_FILE, "")];
    b.RefreshLog();
    RefreshesLast(src, units, "", LogText(src, b.Journaled()));
  }

  /** Re-rendering log.md leaves every other file of a built bundle as it was. */
  lemma RefreshesLast(src: Source, units: seq<Unit>, before: string, content: string)
    ensures var pages := Pages(src, Concepts(units));
      WithLog(pages + [File(LOG_FILE, before)], content) == pages + [File(LOG_FILE, content)]
  {
    hide Pages, WithLog;
    var pages := Pages(src, Concepts(units));
    forall k | 0 <= k < |pages| ensures pages[k].name != LOG_FILE {
      PageName(src, units, k);
    }
    WithLogLast(pages, before, content);
  }

  lemma PageName(src: Source, units: seq<Unit>, k: nat)
    requires k <= |units|
    ensures Pages(src, Concepts(units))[k].name == if k < |units| then ConceptAt(units, k).fileName else INDEX_FILE
    ensures Pages(src, Concepts(units))[k].name != LOG_FILE
  {
    hide ConceptText, IndexText, ConceptAt, LinkName;
    if k < |units| { NamesAreDistinct(units, k, k); }
  }

  lemma {:induction false} WithLogLast(files: seq<File>, before: string, content: string)
    requires forall k :: 0 <= k < |files| ==> files[k].name != LOG_FILE
    ensures WithLog(files + [File(LOG_FILE, before)], content) == files + [File(LOG_FILE, content)]
  {
    if files != [] {
      assert (files + [File(LOG_FILE, before)])[1..] == files[1..] + [File(LOG_FILE, before)];
      WithLogLast(files[1..], before, content);
    }
  }
}
