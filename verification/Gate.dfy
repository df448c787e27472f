/**
 The publish gate against the bundles the generator makes: exactly which of them it refuses, and
 why the bundle that is stored gets the outcome of the bundle that was checked
 (backend/internal/bundle/bundle.go:142-169 against backend/internal/bundle/validate.go:178-289,
 backend/internal/convert/pipeline.go:188-215).
 */
module Gate {
  import opened Text
  import Slug
  import F = Frontmatter
  import opened LinkScan
  import opened Bundles
  import opened IndexPage
  import opened Validation
  import opened Conformance

  // ---------------------------------------------------------------------------
  // Which bundles the gate refuses
  // ---------------------------------------------------------------------------

  function UnitTitle(units: seq<Unit>, i: nat): string
    requires i < |units|
  {
    TitleOf(units[i], i + 1)
  }

  /** The names of the files a document with these units gets. */
  ghost predicate InBundle(units: seq<Unit>, name: string) {
    Reserved(name) || exists i :: 0 <= i < |units| && name == NameAt(units, i)
  }

  /** What the text of index.md before its entries links to. */
  function PrefaceFiles(src: Source, units: seq<Unit>): seq<string> {
    RelativeLinks(Preface(src, |units|))
  }

  /** Every file index.md names apart from log.md. */
  function NamedFiles(src: Source, units: seq<Unit>): seq<string> {
    PrefaceFiles(src, units) + EntryFiles(Concepts(units))
  }

  lemma ConceptsAre(units: seq<Unit>, k: nat)
    requires k < |units|
    ensures Concepts(units)[k].title == UnitTitle(units, k) && Concepts(units)[k].fileName == NameAt(units, k)
  {
    hide TitleOf, SlugAt;
  }

  lemma StructureIsComplete(src: Source, units: seq<Unit>, journal: string)
    requires units != []
    ensures MinimumStructure(BundleMap(src, units, journal))
  {
    hide BundleMap, IndexText, LogText, ConceptText, FileAt;
    var m := BundleMap(src, units, journal);
    ReservedFiles(src, units, journal);
    TextsAreNotBlank(src, Concepts(units), journal);
    BundleHolds(src, units, journal, 0);
    FileNames(src, units, journal, 0, 0);
    assert FileAt(src, units, journal, 0).name in m;
  }

  lemma TextsAreNotBlank(src: Source, concepts: seq<Concept>, journal: string)
    ensures !Blank(IndexText(src, concepts)) && !Blank(LogText(src, journal))
  {
    hide F.Lines, IndexIntro, Items, IndexFooter, LogHeading, IndexHeader, LogHeader, F.Pairs;
    assert IndexText(src, concepts)[0] == '-' && LogText(src, journal)[0] == '-';
    TrimKeeps(IndexText(src, concepts), 0);
    TrimKeeps(LogText(src, journal), 0);
  }

  lemma FilesInBundle(src: Source, units: seq<Unit>, journal: string, name: string)
    ensures name in BundleMap(src, units, journal) <==> InBundle(units, name)
  {
    hide BundleMap, NameAt, IndexText, LogText, ConceptText, Concepts;
    if name in BundleMap(src, units, journal) {
      var k := BundleHoldsOnly(src, units, journal, name);
      FileNames(src, units, journal, k, k);
    } else {
      if name == INDEX_FILE || name == LOG_FILE { ReservedFiles(src, units, journal); }
      if i :| 0 <= i < |units| && name == NameAt(units, i) {
        BundleHolds(src, units, journal, i);
        FileNames(src, units, journal, i, i);
      }
    }
  }

  lemma NotReserved(units: seq<Unit>, i: nat)
    requires i < |units|
    ensures !Reserved(NameAt(units, i))
  {
    hide ConceptAt;
    NamesAreDistinct(units, i, i);
  }

  /** What the gate asks of index.md, in terms of the files it names. */
  ghost predicate Sound(src: Source, units: seq<Unit>) {
    && (forall name :: name in NamedFiles(src, units) ==> InBundle(units, name))
    && (forall i :: 0 <= i < |units| ==> NameAt(units, i) in NamedFiles(src, units))
  }

  lemma IndexAgainstFiles(src: Source, units: seq<Unit>, journal: string)
    ensures var m := BundleMap(src, units, journal);
      IndexLinksResolve(m) && EveryConceptIsIndexed(m) <==> Sound(src, units)
  {
    hide BundleMap, IndexText, LogText, NamedFiles, RelativeLinks, NameAt, InBundle, Reserved, Concepts;
    var m := BundleMap(src, units, journal);
    ReservedFiles(src, units, journal);
    IndexNames(src, units);
    forall name ensures name in m <==> InBundle(units, name) { FilesInBundle(src, units, journal, name); }
    forall i | 0 <= i < |units| ensures InBundle(units, NameAt(units, i)) && !Reserved(NameAt(units, i)) {
      ConceptName(units, i);
    }
    LogIsReserved(units);
    forall name | name in m && !Reserved(name) ensures exists i :: 0 <= i < |units| && name == NameAt(units, i) {
      ConceptOfBundle(units, name);
    }
    IndexSound(m, src, units);
  }

  lemma IndexSound(m: Files, src: Source, units: seq<Unit>)
    requires INDEX_FILE in m && RelativeLinks(m[INDEX_FILE]) == NamedFiles(src, units) + [LOG_FILE]
    requires (forall name :: name in m <==> InBundle(units, name)) && InBundle(units, LOG_FILE) && Reserved(LOG_FILE)
    requires forall i :: 0 <= i < |units| ==> InBundle(units, NameAt(units, i)) && !Reserved(NameAt(units, i))
    requires forall name :: name in m && !Reserved(name) ==> exists i :: 0 <= i < |units| && name == NameAt(units, i)
    ensures IndexLinksResolve(m) && EveryConceptIsIndexed(m) <==> Sound(src, units)
  {
    hide NamedFiles, RelativeLinks, NameAt, InBundle, Reserved;
    var linked := RelativeLinks(m[INDEX_FILE]);
    assert forall name :: name in linked <==> name in NamedFiles(src, units) || name == LOG_FILE;
    assert IndexLinksResolve(m) <==> forall name :: name in NamedFiles(src, units) ==> InBundle(units, name);
    if EveryConceptIsIndexed(m) {
      forall i | 0 <= i < |units| ensures NameAt(units, i) in NamedFiles(src, units) {
        assert NameAt(units, i) in linked;
      }
    }
  }

  lemma ConceptOfBundle(units: seq<Unit>, name: string)
    requires InBundle(units, name) && !Reserved(name)
    ensures exists i :: 0 <= i < |units| && name == NameAt(units, i)
  {
  }

  lemma ConceptName(units: seq<Unit>, i: nat)
    requires i < |units|
    ensures InBundle(units, NameAt(units, i)) && !Reserved(NameAt(units, i))
  {
    hide NameAt;
    NotReserved(units, i);
  }

  lemma IndexNames(src: Source, units: seq<Unit>)
    ensures RelativeLinks(IndexText(src, Concepts(units))) == NamedFiles(src, units) + [LOG_FILE]
  {
    hide IndexText, RelativeLinks, Concepts, EntryFiles, Preface;
    IndexReadsBack(src, Concepts(units));
  }

  lemma LogIsReserved(units: seq<Unit>)
    ensures InBundle(units, LOG_FILE) && Reserved(LOG_FILE)
  {
  }

  /** The gate refuses a generated bundle exactly when index.md names a file the bundle does not
      have, or fails to name one of its concepts. What it names is what its text before the
      entries names and what each entry names by its own title: no assumption on either. */
  lemma PublishableExactly(src: Source, units: seq<Unit>, journal: string)
    requires units != []
    ensures Publishable(BundleMap(src, units, journal)) <==>
      && (forall name :: name in NamedFiles(src, units) ==> InBundle(units, name))
      && (forall i :: 0 <= i < |units| ==> NameAt(units, i) in NamedFiles(src, units))
  {
    hide BundleMap, MinimumStructure, IndexLinksResolve, EveryConceptIsIndexed, ConceptLinksResolve, OKFVerdict,
      NamedFiles, InBundle, NameAt;
    StructureIsComplete(src, units, journal);
    IndexAgainstFiles(src, units, journal);
    BuiltBundleConforms(src, units, journal);
  }

  // ---------------------------------------------------------------------------
  // Kinds of titles
  // ---------------------------------------------------------------------------

  ghost predicate NoInjection(units: seq<Unit>) {
    forall i :: 0 <= i < |units| ==> !Injecting(UnitTitle(units, i))
  }

  lemma NamedByTitle(src: Source, units: seq<Unit>)
    requires NoInjection(units)
    ensures NamedFiles(src, units) == PrefaceFiles(src, units) + Indexed(Concepts(units))
  {
    hide RelativeLinks, Concepts, LinkName, Injecting, UnitTitle, Preface;
    forall k | 0 <= k < |units|
      ensures LinkName(Concepts(units)[k].fileName) && !Injecting(Concepts(units)[k].title)
    {
      ConceptsAre(units, k);
      NamesAreDistinct(units, k, k);
      assert !Injecting(UnitTitle(units, k));
    }
    EntriesByTitle(Concepts(units));
  }

  lemma IndexedByTitle(units: seq<Unit>, i: nat)
    requires i < |units|
    ensures NameAt(units, i) in Indexed(Concepts(units)) <==> Linkable(UnitTitle(units, i))
  {
    hide Concepts, Linkable, UnitTitle;
    ConceptsAre(units, i);
    if Linkable(UnitTitle(units, i)) { IndexedHolds(Concepts(units), i); }
    if NameAt(units, i) in Indexed(Concepts(units)) {
      var k := IndexedIs(Concepts(units), NameAt(units, i));
      ConceptsAre(units, k);
      NamesAreDistinct(units, i, k);
    }
  }

  lemma IndexedInBundle(units: seq<Unit>, name: string)
    requires name in Indexed(Concepts(units))
    ensures InBundle(units, name)
  {
    hide Concepts, Linkable, NameAt;
    var k := IndexedIs(Concepts(units), name);
    ConceptsAre(units, k);
  }

  /** When no title writes a link of its own, the outcome is settled title by title: the bundle
      passes exactly when the text before the entries names no missing file and every concept
      has a linkable title or is named there. */
  lemma PublishableByTitles(src: Source, units: seq<Unit>, journal: string)
    requires units != [] && NoInjection(units)
    ensures Publishable(BundleMap(src, units, journal)) <==>
      && (forall name :: name in PrefaceFiles(src, units) ==> InBundle(units, name))
      && (forall i :: 0 <= i < |units| ==>
            Linkable(UnitTitle(units, i)) || NameAt(units, i) in PrefaceFiles(src, units))
  {
    hide Publishable, BundleMap, Linkable, UnitTitle, NameAt, InBundle, PrefaceFiles, Indexed, Concepts, NoInjection;
    PublishableExactly(src, units, journal);
    NamedByTitle(src, units);
    hide NamedFiles;
    forall i | 0 <= i < |units|
      ensures NameAt(units, i) in Indexed(Concepts(units)) <==> Linkable(UnitTitle(units, i))
    {
      IndexedByTitle(units, i);
    }
    forall name | name in Indexed(Concepts(units)) ensures InBundle(units, name) { IndexedInBundle(units, name); }
  }

  lemma TrimIsPart(s: string, c: char)
    requires c in TrimSpace(s)
    ensures c in s
  {
    TrimLeftIsPart(s);
    TrimRightIsPart(TrimLeft(s));
  }

  lemma {:induction false} TrimLeftIsPart(s: string)
    ensures forall c :: c in TrimLeft(s) ==> c in s
  {
    if s != "" && IsSpace(s[0]) {
      TrimLeftIsPart(s[1..]);
      assert forall c :: c in s[1..] ==> c in s;
    }
  }

  lemma {:induction false} TrimRightIsPart(s: string)
    ensures forall c :: c in TrimRight(s) ==> c in s
  {
    if s != "" && IsSpace(s[|s| - 1]) {
      TrimRightIsPart(s[..|s| - 1]);
      assert forall c :: c in s[..|s| - 1] ==> c in s;
    }
  }

  /** Headings without backslashes never cost a bundle its publication: it passes exactly when
      the text before the entries names no missing file. */
  lemma NoBackslashNoRefusal(src: Source, units: seq<Unit>, journal: string)
    requires units != []
    requires forall i :: 0 <= i < |units| ==> '\\' !in units[i].title
    ensures Publishable(BundleMap(src, units, journal)) <==>
      forall name :: name in PrefaceFiles(src, units) ==> InBundle(units, name)
  {
    hide Publishable, BundleMap, Injecting, Linkable, InBundle, PrefaceFiles, UnitTitle;
    TitlesAreLinkable(units);
    PublishableByTitles(src, units, journal);
  }

  lemma TitlesAreLinkable(units: seq<Unit>)
    requires forall i :: 0 <= i < |units| ==> '\\' !in units[i].title
    ensures forall i :: 0 <= i < |units| ==> !Injecting(UnitTitle(units, i)) && Linkable(UnitTitle(units, i))
  {
    hide Injecting, Linkable, Through;
    forall i | 0 <= i < |units| ensures !Injecting(UnitTitle(units, i)) && Linkable(UnitTitle(units, i)) {
      TitleWithoutBackslash(units[i], i + 1);
      WithoutBackslash(UnitTitle(units, i));
    }
  }

  /** The usual case in closed form: from a source without brackets and headings without
      backslashes comes an index that names the concepts in document order and then log.md, and
      a bundle that passes. */
  lemma CleanBundlePasses(src: Source, units: seq<Unit>, journal: string)
    requires units != [] && CleanSource(src)
    requires forall i :: 0 <= i < |units| ==> '\\' !in units[i].title
    ensures RelativeLinks(IndexText(src, Concepts(units)))
      == seq(|units|, i requires 0 <= i < |units| => NameAt(units, i)) + [LOG_FILE]
    ensures Publishable(BundleMap(src, units, journal))
  {
    hide Publishable, BundleMap, CleanSource, IndexText, RelativeLinks, Preface, InBundle, NameAt, UnitTitle, Linkable, Injecting,
      Concepts, EntryFiles, Indexed;
    CleanIsQuiet(src, |units|);
    NoBackslashNoRefusal(src, units, journal);
    IndexNames(src, units);
    TitlesAreLinkable(units);
    NamedByTitle(src, units);
    forall k | 0 <= k < |units|
      ensures Linkable(Concepts(units)[k].title) && Concepts(units)[k].fileName == NameAt(units, k)
    {
      ConceptsAre(units, k);
    }
    AllIndexed(Concepts(units));
  }

  lemma TitleWithoutBackslash(u: Unit, position: nat)
    requires '\\' !in u.title
    ensures '\\' !in TitleOf(u, position)
  {
    hide TrimSpace;
    if '\\' in TrimSpace(u.title) { TrimIsPart(u.title, '\\'); }
    assert '\\' !in Decimal(position);
  }

  // ---------------------------------------------------------------------------
  // Bundles that are refused
  // ---------------------------------------------------------------------------

  /** One heading that ends in a backslash. */
  lemma TrailingBackslashIsRefused(src: Source, journal: string)
    requires CleanSource(src)
    ensures !Publishable(BundleMap(src, [Unit("C:\\", "", "")], journal))
  {
    hide Publishable, BundleMap, TrimSpace, CleanSource, Linkable, Injecting, Preface, RelativeLinks;
    var units := [Unit("C:\\", "", "")];
    TitleKept(units, "C:\\");
    BackslashTitle();
    CleanIsQuiet(src, 1);
    PublishableByTitles(src, units, journal);
  }

  lemma TitleKept(units: seq<Unit>, title: string)
    requires |units| == 1 && units[0].title == title != "" && !IsSpace(title[0]) && !IsSpace(title[|title| - 1])
    ensures UnitTitle(units, 0) == title
  {
    hide TrimSpace;
    TrimNothing(title);
  }

  lemma BackslashTitle()
    ensures !Injecting("C:\\") && !Linkable("C:\\")
  {
    var title := "C:\\";
    assert title[1..] == ":\\" && title[1..][1..] == "\\";
    assert Through("\\").Swallows?;
    assert Through(title) == Through(title[1..]) == Through(title[1..][1..]);
  }

  /** A heading that writes a link of its own to a file that is not there, whatever else the
      document holds. */
  lemma DanglingInjectionIsRefused(src: Source, units: seq<Unit>, journal: string, i: nat)
    requires i < |units| && Injecting(UnitTitle(units, i))
    requires var file := FileOf(InjectedTarget(UnitTitle(units, i), NameAt(units, i)));
      file != "" && !InBundle(units, file)
    ensures !Publishable(BundleMap(src, units, journal))
  {
    hide Publishable, BundleMap, Injecting, InjectedTarget, Links, Link, FileOf, Concepts, UnitTitle, NameAt, InBundle, Preface;
    var c := Concepts(units)[i];
    ConceptsAre(units, i);
    LinkInjected(c.title, c.fileName);
    FirstFile(Links(Link(c.title, c.fileName)));
    EntryIsRead(Concepts(units), i, FileOf(InjectedTarget(c.title, c.fileName)));
    PublishableExactly(src, units, journal);
  }

  lemma FirstFile(targets: seq<string>)
    requires targets != [] && FileOf(targets[0]) != ""
    ensures FileOf(targets[0]) in FilesOf(targets)
  {
    hide FileOf;
  }

  /** One such heading: its backslash frees a bracket, and it links to x. */
  lemma FreedBracketIsRefused(src: Source, journal: string)
    ensures !Publishable(BundleMap(src, [Unit("\\](x)", "", "")], journal))
  {
    hide Publishable, BundleMap, TrimSpace, Injecting, InjectedTarget, FileOf, InBundle, NameAt;
    var units := [Unit("\\](x)", "", "")];
    TitleKept(units, "\\](x)");
    FreedTitle(NameAt(units, 0));
    NotInBundle(units, "x");
    DanglingInjectionIsRefused(src, units, journal, 0);
  }

  lemma FreedTitle(file: string)
    ensures Injecting("\\](x)") && InjectedTarget("\\](x)", file) == "x" && FileOf("x") == "x"
  {
    var title := "\\](x)";
    assert title[2..] == "(x)";
    assert Through(title) == Frees("(x)");
    FreedTarget(file);
    assert LinkName("x");
    NameIsFile("x");
  }

  lemma FreedTarget(file: string)
    ensures var r := EscapeLinkText("x)") + ("](" + (file + ")")); TargetLength(r) == 1 && r[..1] == "x"
    ensures "(x)"[1..] == "x)"
  {
    NothingToEscape("x)");
    var r := "x)" + ("](" + (file + ")"));
    assert r[0] == 'x' && r[1..][0] == ')';
  }

  lemma NotInBundle(units: seq<Unit>, name: string)
    requires name == "x" || name == "y"
    ensures !InBundle(units, name)
  {
    hide NameAt;
    forall i | 0 <= i < |units| ensures NameAt(units, i) != name { NameStartsWithDigit(units, i); }
    assert INDEX_FILE[0] == 'i' && LOG_FILE[0] == 'l';
  }

  lemma NameStartsWithDigit(units: seq<Unit>, k: nat)
    requires k < |units|
    ensures NameAt(units, k) != "" && '0' <= NameAt(units, k)[0] <= '9'
  {
    hide SlugAt, TitleOf, Slug.SlugChars;
    SlugAtChars(units, k);
    NameShape(k + 1, SlugAt(units, k));
  }

  /** Nor do headings have to be at fault: a file called a[x](y).md, whose title is A[x](y), puts
      a link to y into index.md before the first entry. */
  lemma BracketedNameIsRefused(src: Source, units: seq<Unit>, journal: string)
    requires units != [] && src.title == "A[x](y)"
    ensures !Publishable(BundleMap(src, units, journal))
  {
    hide Publishable, BundleMap, InBundle, NameAt, Preface, RelativeLinks, EntryFiles;
    hide Clean, Open, LinkName;
    BracketedTitle();
    TitleLinks(src, |units|, "A", "x", "y", "");
    NotInBundle(units, "y");
    PublishableExactly(src, units, journal);
  }

  /** A link in the title, as frontmatter quotes it, is a link of index.md. */
  lemma TitleLinks(src: Source, count: nat, before: string, text: string, file: string, after: string)
    requires Mapped(src.title, F.YamlEscape) == before + ("[" + (text + Tail(file, after)))
    requires Clean(before) && Open(text) && LinkName(file)
    ensures file in RelativeLinks(Preface(src, count))
  {
    hide Preface, RelativeLinks, LinkName, Open, Clean, Tail;
    var head, rest := PrefaceOpens(src, count);
    CleanConcat(head, before);
    TailGrows(file, after, rest);
    LinkShapes(head, before, text, Tail(file, after), rest);
    FirstLink(head + before, text, file, after + rest);
  }

  lemma BracketedTitle()
    ensures Mapped("A[x](y)", F.YamlEscape) == "A" + ("[" + ("x" + Tail("y", "")))
    ensures Clean("A") && Open("x") && LinkName("y")
  {
    hide Mapped, Tail;
    QuoteFree();
    NothingToQuote("A[x](y)");
    BracketedShape();
    OpenWithout("x");
  }

  lemma QuoteFree()
    ensures forall c :: c in "A[x](y)" ==> c != '\\' && c != '"' && c != '\n' && c != '\t' && c != '\r'
  {
    forall c | c in "A[x](y)" ensures c != '\\' && c != '"' && c != '\n' && c != '\t' && c != '\r' {
      assert c == 'A' || c == '[' || c == 'x' || c == ']' || c == '(' || c == 'y' || c == ')';
    }
  }

  lemma BracketedShape()
    ensures "A[x](y)" == "A" + ("[" + ("x" + Tail("y", "")))
  {
  }

  lemma TailGrows(file: string, after: string, rest: string)
    ensures Tail(file, after) + rest == Tail(file, after + rest)
  {
  }

  lemma LinkShapes(head: string, before: string, text: string, tail: string, rest: string)
    ensures head + ((before + ("[" + (text + tail))) + rest) == (head + before) + ("[" + (text + (tail + rest)))
  {
  }

  lemma FirstLink(before: string, text: string, file: string, after: string)
    requires Clean(before) && Open(text) && LinkName(file)
    ensures file in RelativeLinks(before + ("[" + (text + Tail(file, after))))
  {
    hide Links, FilesOf, FileOf, LinkName, Open, Clean, Tail;
    var link := "[" + (text + Tail(file, after));
    LinksSkipClean(before, link);
    LinkAtIs(text, file, after);
    LinksStep(link, Links(link));
    NameIsFile(file);
    NotEmpty(file);
    FirstFile(Links(link));
  }

  lemma NotEmpty(file: string)
    requires LinkName(file)
    ensures file != ""
  {
  }

  lemma LinksSkipClean(before: string, s: string)
    requires Clean(before)
    ensures Links(before + s) == Links(s)
  {
    LinksSkip(before, s);
  }

  lemma CleanConcat(a: string, b: string)
    requires Clean(a) && Clean(b)
    ensures Clean(a + b)
  {
  }

  /** The page opens with the quoted title, after text without brackets. */
  lemma PrefaceOpens(src: Source, count: nat) returns (head: string, rest: string)
    ensures Preface(src, count) == head + (Mapped(src.title, F.YamlEscape) + rest) && Clean(head)
  {
    hide IndexIntro, F.Pairs, F.YamlEscape, F.Line, Clean, IndexDescription, Tags;
    var h := IndexHeader(src, count);
    var kind := F.Line(("type", F.YamlString(h.kind)));
    var more := LinesOpen(h);
    CleanKind(h.kind);
    head := "---\n" + (kind + "title: \"");
    rest := "\"\n" + (more + ("---\n\n" + IndexIntro(src, count)));
    HeadIsClean(kind);
    TitleLine(h.title);
    Nested("---\n", kind, Mapped(h.title, F.YamlEscape), more, IndexIntro(src, count));
  }

  lemma LinesOpen(h: F.Header) returns (more: string)
    requires h.title != ""
    ensures F.Lines(F.Pairs(h)) == (F.Line(("type", F.YamlString(h.kind))) + F.Line(("title", F.YamlString(h.title)))) + more
  {
    hide F.YamlString, F.Quoted, F.Line;
    var first := [("type", F.YamlString(h.kind)), ("title", F.YamlString(h.title))];
    var later := F.Pairs(h)[2..];
    assert F.Pairs(h) == first + later;
    F.LinesAppend(first, later);
    TwoLines(first[0], first[1]);
    more := F.Lines(later);
  }

  lemma TwoLines(p: F.Pair, q: F.Pair)
    ensures F.Lines([p, q]) == F.Line(p) + F.Line(q)
  {
    hide F.Line;
    assert [p, q][1..] == [q] && [q][1..] == [];
    assert F.Lines([q]) == F.Line(q) + F.Lines([]) == F.Line(q);
  }

  lemma TitleLine(title: string)
    ensures F.Line(("title", F.YamlString(title))) == "title: \"" + Mapped(title, F.YamlEscape) + "\"\n"
  {
  }

  lemma CleanKind(kind: string)
    requires kind == "index"
    ensures Clean(F.Line(("type", F.YamlString(kind))))
  {
    CleanYaml(kind);
  }

  lemma HeadIsClean(line: string)
    requires Clean(line)
    ensures Clean("---\n" + (line + "title: \""))
  {
  }

  lemma Nested(fence: string, line: string, title: string, more: string, intro: string)
    ensures (fence + ((line + ("title: \"" + title + "\"\n")) + more) + "---\n\n") + intro
      == (fence + (line + "title: \"")) + (title + ("\"\n" + (more + ("---\n\n" + intro))))
  {
  }

  lemma {:induction false} NothingToQuote(s: string)
    requires forall c :: c in s ==> c != '\\' && c != '"' && c != '\n' && c != '\t' && c != '\r'
    ensures Mapped(s, F.YamlEscape) == s
  {
    if s != "" {
      assert s[0] in s && forall c :: c in s[1..] ==> c in s;
      NothingToQuote(s[1..]);
    }
  }

  // ---------------------------------------------------------------------------
  // The bundle that is stored is not the bundle that was checked
  // ---------------------------------------------------------------------------

  lemma LogOnlyDiffers(src: Source, units: seq<Unit>, before: string, after: string, name: string)
    ensures name in BundleMap(src, units, before) <==> name in BundleMap(src, units, after)
    ensures name in BundleMap(src, units, before) && name != LOG_FILE ==>
      BundleMap(src, units, before)[name] == BundleMap(src, units, after)[name]
  {
    hide BundleMap;
    if name in BundleMap(src, units, before) { LogOnlyDiffersOneWay(src, units, before, after, name); }
    if name in BundleMap(src, units, after) { LogOnlyDiffersOneWay(src, units, after, before, name); }
  }

  lemma LogOnlyDiffersOneWay(src: Source, units: seq<Unit>, before: string, after: string, name: string)
    requires name in BundleMap(src, units, before)
    ensures name in BundleMap(src, units, after)
    ensures name != LOG_FILE ==> BundleMap(src, units, before)[name] == BundleMap(src, units, after)[name]
  {
    hide BundleMap, IndexText, LogText, ConceptText, Concepts;
    var k := BundleHoldsOnly(src, units, before, name);
    BundleHolds(src, units, before, k);
    BundleHolds(src, units, after, k);
    FileNames(src, units, before, k, k);
  }

  /** The same names, and the same contents but for log.md. */
  ghost predicate SameButLog(m: Files, m': Files) {
    && m.Keys == m'.Keys
    && forall name :: name in m && name != LOG_FILE ==> m[name] == m'[name]
  }

  lemma SoundKept(m: Files, m': Files)
    requires PlatformSound(m) && SameButLog(m, m') && LOG_FILE in m' && !Blank(m'[LOG_FILE])
    ensures PlatformSound(m')
  {
    hide RelativeLinks, Reserved, Blank;
    assert INDEX_FILE[0] != LOG_FILE[0];
    var concept :| concept in m && !Reserved(concept);
    assert concept in m' && !Reserved(concept);
  }

  lemma PlatformKept(src: Source, units: seq<Unit>, before: string, after: string)
    requires PlatformSound(BundleMap(src, units, before))
    ensures PlatformSound(BundleMap(src, units, after))
  {
    hide BundleMap, Blank, IndexText, LogText, PlatformSound, Concepts;
    var m, m' := BundleMap(src, units, before), BundleMap(src, units, after);
    forall name ensures (name in m <==> name in m') && (name in m && name != LOG_FILE ==> m[name] == m'[name]) {
      LogOnlyDiffers(src, units, before, after, name);
    }
    ReservedFiles(src, units, after);
    TextsAreNotBlank(src, Concepts(units), after);
    SoundKept(m, m');
  }

  /** The gate covers the artifact that is published. Attaching the report rewrites log.md
      after the check; whatever it then says, the rewritten files are let through exactly when
      the checked ones were, and their conformance verdict is the same. */
  lemma CheckedIsStored(src: Source, units: seq<Unit>, before: string, after: string)
    ensures var checked := BundleFiles(src, Concepts(units), before);
      var stored := WithLog(checked, LogText(src, after));
      && (Publishable(FileMap(stored)) <==> Publishable(FileMap(checked)))
      && OKFVerdict(FileMap(stored)) == OKFVerdict(FileMap(checked))
  {
    hide PlatformSound, ConceptLinksResolve, OKFVerdict, FileMap, Pages, LogText, Concepts, WithLog;
    RefreshesLast(src, units, LogText(src, before), LogText(src, after));
    BuiltBundleConforms(src, units, before);
    BuiltBundleConforms(src, units, after);
    if PlatformSound(BundleMap(src, units, before)) { PlatformKept(src, units, before, after); }
    if PlatformSound(BundleMap(src, units, after)) { PlatformKept(src, units, after, before); }
  }
}
