/**
 What is on the pages, set down from the units alone: names and titles, each concept's page, index.md
 and log.md, and what the validator makes of them (backend/internal/bundle/bundle.go:187-330).
 */
module PageContents {
  import opened Wrappers
  import opened Text
  import Slug
  import F = Frontmatter
  import FL = FrontmatterLaws
  import opened LinkScan
  import LP = LinkPattern
  import opened Reports
  import opened Bundles
  import opened Validation
  import opened Conformance

  // ---------------------------------------------------------------------------
  // Titles and names
  // ---------------------------------------------------------------------------

  /** The heading without the spaces around it, or "Sección" and the position. */
  lemma TitleIs(units: seq<Unit>, i: nat)
    requires i < |units|
    ensures Concepts(units)[i].title
      == if TrimSpace(units[i].title) == "" then "Sección " + Decimal(i + 1) else TrimSpace(units[i].title)
  {
    hide TrimSpace, FileName, SlugAt;
  }

  /** The body and the origin of the unit, and its place in the document, counted from one. */
  lemma ConceptKeeps(units: seq<Unit>, i: nat)
    requires i < |units|
    ensures Concepts(units)[i].body == units[i].body && Concepts(units)[i].origin == units[i].origin
    ensures Concepts(units)[i].position == i + 1
  {
    hide TitleOf, FileName, SlugAt;
  }

  /** The position in at least two digits, a dash, a slug and .md; the slug is that of the title, or
      "seccion-" and the position when nothing of the title is left, with a number from 2 on added
      when it has been handed out before: the first number that has not been. */
  lemma NameParts(units: seq<Unit>, i: nat) returns (digits: string, slug: string, n: nat)
    requires i < |units|
    ensures Concepts(units)[i].fileName == digits + "-" + slug + ".md" && slug == SlugAt(units, i)
    ensures |digits| >= 2 && (|digits| > 2 ==> digits[0] != '0')
    ensures (forall k :: 0 <= k < |digits| ==> '0' <= digits[k] <= '9') && Value(digits) == i + 1
    ensures var base := Slug.Slugified(Concepts(units)[i].title);
      Numbered(units, i, if base == "" then "seccion-" + Decimal(i + 1) else base, n)
  {
    hide TitleOf, Slug.Slugified, SlugAt, Numbered;
    digits, slug := Padded(i + 1), SlugAt(units, i);
    PaddedValue(i + 1);
    n := FirstNumber(units, i);
  }

  function Try(start: string, n: nat): string {
    if n == 1 then start else start + "-" + Decimal(n)
  }

  /** The slug of unit i is start with number n, and every smaller number was handed out before. */
  ghost predicate Numbered(units: seq<Unit>, i: nat, start: string, n: nat)
    requires i < |units|
  {
    && n >= 1 && SlugAt(units, i) == Try(start, n)
    && forall m: nat :: 1 <= m < n ==> HandedOut(units, i, Try(start, m))
  }

  ghost predicate HandedOut(units: seq<Unit>, i: nat, slug: string)
    requires i < |units|
  {
    exists j :: 0 <= j < i && SlugAt(units, j) == slug
  }

  lemma FirstNumber(units: seq<Unit>, i: nat) returns (n: nat)
    requires i < |units|
    ensures Numbered(units, i, BaseOf(units[i], i + 1), n)
  {
    hide BaseOf, Slug.FirstFree, Slug.Handed;
    var base, taken := BaseOf(units[i], i + 1), Slug.Handed(Bases(units)[..i]);
    n := Slug.FirstFree(base, 1, taken);
    Slug.FirstFreeIsLeast(base, 1, taken);
    assert Bases(units)[i] == base && SlugAt(units, i) == Slug.Candidate(base, n);
    forall m: nat | 1 <= m < n ensures HandedOut(units, i, Try(base, m)) {
      assert Slug.Candidate(base, m) in taken;
      var j := HandedFrom(units, i, Slug.Candidate(base, m));
      assert SlugAt(units, j) == Try(base, m);
    }
  }

  lemma {:induction false} HandedFrom(units: seq<Unit>, i: nat, slug: string) returns (j: nat)
    requires i <= |units| && slug in Slug.Handed(Bases(units)[..i])
    ensures j < i && SlugAt(units, j) == slug
  {
    hide BaseOf, Slug.Free;
    j := i - 1;
    assert Bases(units)[..i][..j] == Bases(units)[..j];
    if slug != SlugAt(units, j) { j := HandedFrom(units, i - 1, slug); }
  }

  /** Tags name the format and the bundle, which is called after the title. */
  lemma TagsAre(src: Source)
    ensures Tags(src) == ["okf", if Slug.Slugified(src.title) == "" then "bundle" else Slug.Slugified(src.title)]
  {
    hide Slug.Slugified;
  }

  // ---------------------------------------------------------------------------
  // Pages
  // ---------------------------------------------------------------------------

  /** Join puts texts one after another. */
  lemma {:induction false} JoinConcat(a: seq<string>, b: seq<string>)
    ensures Join(a + b) == Join(a) + Join(b) && Join([]) == ""
  {
    if a == [] {
      assert a + b == b;
    } else {
      assert (a + b)[0] == a[0] && (a + b)[1..] == a[1..] + b;
      JoinConcat(a[1..], b);
      assert a[0] + (Join(a[1..]) + Join(b)) == (a[0] + Join(a[1..])) + Join(b);
    }
  }

  lemma JoinOne(s: string)
    ensures Join([s]) == s
  {
    assert [s][1..] == [];
  }

  lemma ConceptHeaderIs(src: Source, units: seq<Unit>, i: nat)
    requires i < |units|
    ensures ConceptHeader(src, Concepts(units), Concepts(units)[i]) == F.Header("concept", Concepts(units)[i].title,
      src.words.unit + Decimal(i + 1) + src.words.of + Decimal(|units|) + src.words.inDocument + src.originalName + src.words.end,
      Tags(src), src.convertedAt, src.originalName)
  {
    hide Concepts, Tags;
    ConceptKeeps(units, i);
  }

  /** [title](file), the brackets of the title escaped. */
  function LinkTo(c: Concept): string {
    "[" + EscapeLinkText(c.title) + "](" + c.fileName + ")"
  }

  /** A concept's page: its metadata, its title, the text of its unit without the spaces around it, or
      the notice that there is none, a rule, and the links to the index and to its neighbours. */
  lemma ConceptPage(src: Source, units: seq<Unit>, i: nat)
    requires i < |units|
    ensures var cs := Concepts(units); var body := TrimSpace(units[i].body);
      ConceptText(src, cs, i) == F.Rendered(ConceptHeader(src, cs, cs[i])) + (
        "# " + cs[i].title + "\n\n" + (if body == "" then src.words.noContent else body) + "\n\n---\n"
        + ("\n[" + src.words.index + "](" + "index.md" + ")"
           + ((if i == 0 then "" else src.words.previous + LinkTo(cs[i - 1]))
              + ((if i + 1 == |units| then "" else src.words.following + LinkTo(cs[i + 1])) + "\n"))))
  {
    hide F.Rendered, ConceptHeader, TrimSpace, Concepts, EscapeLinkText, LineLink;
    var cs := Concepts(units);
    ConceptKeeps(units, i);
    LineLinkIs(src.words.index, INDEX_FILE, Neighbours(src, cs, i));
  }

  /** No page loses the text of its unit: every page of a bundle holds it, just before the rule. */
  lemma BundleHoldsText(src: Source, units: seq<Unit>, journal: string, i: nat) returns (before: string, after: string)
    requires i < |units| && TrimSpace(units[i].body) != ""
    ensures NameAt(units, i) in BundleMap(src, units, journal)
    ensures BundleMap(src, units, journal)[NameAt(units, i)] == before + ("\n\n" + (TrimSpace(units[i].body) + ("\n\n---\n" + after)))
  {
    hide BundleMap, Concepts, NameAt, ConceptText, TrimSpace, F.Rendered, ConceptHeader, LinkTo;
    BundleHolds(src, units, journal, i);
    FileNames(src, units, journal, i, i);
    ConceptPage(src, units, i);
    var cs := Concepts(units);
    before := F.Rendered(ConceptHeader(src, cs, cs[i])) + ("# " + cs[i].title);
    after := "\n[" + src.words.index + "](" + "index.md" + ")"
      + ((if i == 0 then "" else src.words.previous + LinkTo(cs[i - 1]))
         + ((if i + 1 == |units| then "" else src.words.following + LinkTo(cs[i + 1])) + "\n"));
    Reparted(F.Rendered(ConceptHeader(src, cs, cs[i])), "# " + cs[i].title, TrimSpace(units[i].body), after);
  }

  lemma Reparted(header: string, title: string, body: string, after: string)
    ensures header + (title + "\n\n" + body + "\n\n---\n" + after)
      == (header + title) + ("\n\n" + (body + ("\n\n---\n" + after)))
  {
  }

  lemma IndexHeaderIs(src: Source, count: nat)
    ensures IndexHeader(src, count) == F.Header("index", src.title,
      src.words.indexOf + src.originalName + src.words.having + Decimal(count) + src.words.units,
      Tags(src), src.convertedAt, src.originalName)
  {
    hide Tags;
  }

  /** One numbered entry for each concept, in document order. */
  function EntryLine(c: Concept, number: nat): string {
    Decimal(number) + ". " + LinkTo(c) + "\n"
  }

  lemma {:induction false} ItemsAre(concepts: seq<Concept>, first: nat)
    requires forall k :: 0 <= k < |concepts| ==> concepts[k].position == first + k
    ensures Items(concepts) == Join(seq(|concepts|, k requires 0 <= k < |concepts| => EntryLine(concepts[k], first + k)))
  {
    hide EscapeLinkText;
    if concepts != [] {
      var lines := seq(|concepts|, k requires 0 <= k < |concepts| => EntryLine(concepts[k], first + k));
      var rest := concepts[1..];
      ItemsAre(rest, first + 1);
      assert lines[1..] == seq(|rest|, k requires 0 <= k < |rest| => EntryLine(rest[k], first + 1 + k));
      assert Item(concepts[0]) == lines[0];
    }
  }

  /** The title and the facts of the conversion; a fact that is not known is a dash. */
  lemma IntroIs(src: Source, count: nat)
    ensures var w := src.words;
      IndexIntro(src, count) == Join(["# ", src.title, "\n\n", w.generatedFrom, src.originalName, w.facts, src.originalName,
        w.contentType, if TrimSpace(src.contentType) == "" then "—" else src.contentType, w.size, src.size,
        w.count, Decimal(count), w.converted, if src.convertedAt.Zero? then "—" else src.convertedAt.display,
        w.job, if TrimSpace(src.jobId) == "" then "—" else src.jobId, w.concepts])
  {
    hide TrimSpace, Join;
  }

  /** index.md: metadata, introduction, the entries and the link to log.md. */
  lemma IndexPageIs(src: Source, units: seq<Unit>)
    ensures var cs := Concepts(units);
      IndexText(src, cs) == F.Rendered(IndexHeader(src, |units|)) + (IndexIntro(src, |units|) + (
        Join(seq(|units|, k requires 0 <= k < |units| => EntryLine(cs[k], k + 1)))
        + (src.words.trace + ("[" + "log.md" + "](" + "log.md" + ")" + ".\n"))))
  {
    hide F.Rendered, IndexHeader, IndexIntro, EntryLine, Items, Join;
    var cs := Concepts(units);
    forall k | 0 <= k < |units| ensures cs[k].position == 1 + k { ConceptKeeps(units, k); }
    hide Concepts;
    ItemsAre(cs, 1);
    assert seq(|cs|, k requires 0 <= k < |cs| => EntryLine(cs[k], 1 + k))
      == seq(|units|, k requires 0 <= k < |units| => EntryLine(cs[k], k + 1));
  }

  /** log.md: metadata, title, and the record of the conversion. */
  lemma LogPageIs(src: Source, journal: string)
    ensures var title := src.words.logOf + src.title;
      LogText(src, journal) == F.Rendered(F.Header("log", title, src.words.traceOf + src.originalName + src.words.toBundle,
        Tags(src), src.convertedAt, src.originalName)) + ("# " + title + "\n\n" + journal)
  {
    hide F.Rendered, Tags;
  }

  // ---------------------------------------------------------------------------
  // What is read back
  // ---------------------------------------------------------------------------

  /** Every field of a full header is read back with its value, the source too, and nothing else is. */
  lemma HeaderReads(h: F.Header, rest: string)
    requires Full(h)
    ensures F.Parsed(F.Rendered(h) + rest).Some?
    ensures var m := F.Parsed(F.Rendered(h) + rest).value;
      && F.UnquoteYAML(F.Field(m, "type")) == h.kind
      && F.UnquoteYAML(F.Field(m, "title")) == Mapped(h.title, F.Flat)
      && F.UnquoteYAML(F.Field(m, "description")) == Mapped(h.description, F.Flat)
      && F.Field(m, "source") == (if h.source == "" then "" else F.YamlString(h.source))
      && F.Field(m, "timestamp") == (if h.timestamp.Zero? then "" else h.timestamp.rfc3339)
      && forall key :: key in m ==> key in ["type", "title", "description", "tags", "source", "timestamp"]
  {
    hide F.Rendered, F.Parsed, F.Pairs, F.AsMap, F.YamlString, F.UnquoteYAML, F.Quoted, F.Field, F.Flat;
    F.FrontmatterRoundTrip(h, rest);
    FieldsFound(h);
    TimestampFound(h);
    SourceFound(h);
    F.UnquoteInverts(h.kind);
    F.UnquoteInverts(h.title);
    F.UnquoteInverts(h.description);
    forall key | key in F.AsMap(F.Pairs(h)) ensures key in ["type", "title", "description", "tags", "source", "timestamp"] {
      OnlyTheseKeys(h, key);
    }
  }

  lemma SourceFound(h: F.Header)
    ensures F.Field(F.AsMap(F.Pairs(h)), "source") == if h.source == "" then "" else F.YamlString(h.source)
  {
    hide F.YamlString, F.Quoted, F.AsMap;
    var ps := F.Pairs(h);
    if h.source == "" {
      AsMapMisses(ps, "source");
    } else {
      AsMapFinds(ps, ("source", F.YamlString(h.source)));
    }
  }

  lemma OnlyTheseKeys(h: F.Header, key: string)
    requires key in F.AsMap(F.Pairs(h))
    ensures key in ["type", "title", "description", "tags", "source", "timestamp"]
  {
    hide F.YamlString, F.Quoted, F.AsMap;
    if key !in ["type", "title", "description", "tags", "source", "timestamp"] { AsMapMisses(F.Pairs(h), key); }
  }

  /** Of two files with one name, the later one counts. */
  lemma {:induction false} LaterFileCounts(files: seq<File>, i: nat)
    requires i < |files| && forall j :: i < j < |files| ==> files[j].name != files[i].name
    ensures files[i].name in FileMap(files) && FileMap(files)[files[i].name] == files[i].content
  {
    if i < |files| - 1 { LaterFileCounts(files[..|files| - 1], i); }
  }

  // ---------------------------------------------------------------------------
  // Links out of the bundle
  // ---------------------------------------------------------------------------

  /** Two collections of files the validator cannot tell apart. */
  ghost predicate Alike(m: Files, m': Files) {
    && m.Keys == m'.Keys
    && forall name :: name in m ==>
         && RelativeLinks(m[name]) == RelativeLinks(m'[name]) && Blank(m[name]) == Blank(m'[name])
         && F.Parsed(m[name]) == F.Parsed(m'[name])
  }

  lemma AlikeVerdicts(m: Files, m': Files)
    requires Alike(m, m')
    ensures PlatformVerdict(m) == PlatformVerdict(m') && OKFVerdict(m) == OKFVerdict(m')
  {
    hide RelativeLinks, Blank, F.Parsed, F.Field, F.UnquoteYAML;
    AlikePlatform(m, m');
    AlikePlatform(m', m);
    AlikeMetadata(m, m');
    AlikeMetadata(m', m);
  }

  lemma AlikePlatform(m: Files, m': Files)
    requires Alike(m, m')
    ensures PlatformSound(m) ==> PlatformSound(m')
    ensures ConceptLinksResolve(m) ==> ConceptLinksResolve(m')
  {
    hide RelativeLinks, Blank, F.Parsed;
    forall name | name in m ensures name in m' {}
    if PlatformSound(m) {
      var concept :| concept in m && !Reserved(concept);
      assert concept in m';
    }
  }

  lemma AlikeMetadata(m: Files, m': Files)
    requires Alike(m, m')
    ensures FrontmatterPresent(m) ==> FrontmatterPresent(m')
    ensures TypeFieldPresent(m) ==> TypeFieldPresent(m')
    ensures StandardFieldsPresent(m) ==> StandardFieldsPresent(m')
    ensures ReservedTypesMatch(m) ==> ReservedTypesMatch(m')
  {
    hide RelativeLinks, Blank, F.Parsed, F.Field, F.UnquoteYAML;
    forall name | name in m' ensures name in m {}
  }

  /** A page after its metadata, with a link in it. */
  function Linking(h: F.Header, p: string, text: string, target: string, s: string): string {
    (F.Rendered(h) + p) + ("[" + text + "](" + target + ")" + s)
  }

  /** Where a link out of the bundle leads never changes a verdict: the page it is on names what the
      text before and after it names. */
  lemma ExternalLinkIsFree(m: Files, name: string, h: F.Header, p: string, text: string, u: string, v: string, s: string)
    requires p != "" && Settled(p) && Open(text)
    requires LP.Target(u) && LP.LeadsOut(u) && LP.Target(v) && LP.LeadsOut(v)
    ensures var a, b := m[name := Linking(h, p, text, u, s)], m[name := Linking(h, p, text, v, s)];
      && PlatformVerdict(a) == PlatformVerdict(b) && OKFVerdict(a) == OKFVerdict(b)
      && (LinksResolve(a, name) <==> forall file ::
            file in RelativeLinks(F.Rendered(h) + p) + RelativeLinks(s) ==> file == name || file in m)
  {
    hide RelativeLinks, F.Rendered, F.Parsed, Blank, LP.LeadsOut, LP.Target, Open, PlatformVerdict, OKFVerdict;
    Named(h, p, text, u, s);
    Named(h, p, text, v, s);
    AlikeVerdicts(m[name := Linking(h, p, text, u, s)], m[name := Linking(h, p, text, v, s)]);
  }

  lemma Named(h: F.Header, p: string, text: string, target: string, s: string)
    requires p != "" && Settled(p) && Open(text) && LP.Target(target) && LP.LeadsOut(target)
    ensures var page := Linking(h, p, text, target, s);
      && RelativeLinks(page) == RelativeLinks(F.Rendered(h) + p) + RelativeLinks(s)
      && F.Parsed(page) == Some(F.AsMap(F.Pairs(h))) && !Blank(page)
  {
    hide RelativeLinks, F.Parsed, F.Pairs, LP.LeadsOut, LP.Target, Open;
    var header, link := F.Rendered(h), "[" + text + "](" + target + ")" + s;
    LP.ExternalLinkNamesNothing(header + p, text, target, s);
    F.FrontmatterRoundTrip(h, p + link);
    assert (header + p) + link == header + (p + link);
    assert header[0] == '-';
    TrimKeeps((header + p) + link, 0);
  }
}
