/**
 Finding one's way through a bundle by its links, whatever its documents hold
 (backend/internal/bundle/bundle.go:256-306).
 */
module Navigation {
  import F = Frontmatter
  import opened LinkScan
  import opened Bundles
  import opened IndexPage
  import opened Validation
  import opened Conformance
  import opened Gate

  function LinkFiles(c: Concept): seq<string> {
    RelativeLinks(Link(c.title, c.fileName))
  }

  /** What the links to the neighbours name: the one before, then the one after. */
  function NeighbourFiles(concepts: seq<Concept>, i: nat): seq<string>
    requires i < |concepts|
  {
    (if i == 0 then [] else LinkFiles(concepts[i - 1]))
    + (if i + 1 == |concepts| then [] else LinkFiles(concepts[i + 1]))
  }

  /** A concept's page up to its navigation line. */
  function Page(src: Source, concepts: seq<Concept>, i: nat): string
    requires i < |concepts|
  {
    F.Rendered(ConceptHeader(src, concepts, concepts[i])) + Content(src, concepts[i])
  }

  /** A label, a link, and more text. */
  lemma LabelledLink(before: string, words: Break, c: Concept)
    requires Settled(before)
    ensures RelativeLinks(before + (words + Link(c.title, c.fileName))) == RelativeLinks(before) + LinkFiles(c)
    ensures Settled(before + (words + Link(c.title, c.fileName)))
  {
    hide RelativeLinks, Link;
    var text: string := words;
    var link := Link(c.title, c.fileName);
    LinkEnds(c.title, c.fileName);
    assert before + (text + link) == (before + text) + link;
    PartsRead(before, text, link);
  }

  lemma NeighbourLinks(src: Source, concepts: seq<Concept>, i: nat)
    requires i < |concepts|
    ensures RelativeLinks(")" + Neighbours(src, concepts, i)) == NeighbourFiles(concepts, i)
  {
    hide RelativeLinks, Link, LinkFiles, Settled;
    var before := ")" + Previous(src, concepts, i);
    PreviousLinks(src, concepts, i);
    FollowingLinks(src, concepts, i, before);
    var all := before + Following(src, concepts, i);
    RelativeLinksSplit(all, "\n");
    GapLinks("\n");
    NeighboursShape(src, concepts, i);
  }

  lemma NeighboursShape(src: Source, concepts: seq<Concept>, i: nat)
    requires i < |concepts|
    ensures ")" + Neighbours(src, concepts, i)
      == ((")" + Previous(src, concepts, i)) + Following(src, concepts, i)) + "\n"
  {
    hide Previous, Following;
  }

  lemma PreviousLinks(src: Source, concepts: seq<Concept>, i: nat)
    requires i < |concepts|
    ensures var before := ")" + Previous(src, concepts, i);
      RelativeLinks(before) == (if i == 0 then [] else LinkFiles(concepts[i - 1])) && Settled(before)
  {
    hide RelativeLinks, Link, LinkFiles;
    NothingLinked(")");
    if i == 0 {
      assert ")" + Previous(src, concepts, i) == ")";
    } else {
      LabelledLink(")", src.words.previous, concepts[i - 1]);
    }
  }

  lemma FollowingLinks(src: Source, concepts: seq<Concept>, i: nat, before: string)
    requires i < |concepts| && Settled(before)
    ensures var all := before + Following(src, concepts, i);
      && RelativeLinks(all)
        == RelativeLinks(before) + (if i + 1 == |concepts| then [] else LinkFiles(concepts[i + 1]))
      && Settled(all)
  {
    hide RelativeLinks, Link, LinkFiles;
    if i + 1 == |concepts| {
      assert before + Following(src, concepts, i) == before;
    } else {
      LabelledLink(before, src.words.following, concepts[i + 1]);
    }
  }

  /** Whatever Markdown a concept holds, and however it ends, its page links last to index.md and
      then to what the links to its neighbours name. */
  lemma ConceptNavigates(src: Source, concepts: seq<Concept>, i: nat)
    requires i < |concepts|
    ensures RelativeLinks(ConceptText(src, concepts, i))
      == RelativeLinks(Page(src, concepts, i) + "\n") + [INDEX_FILE] + NeighbourFiles(concepts, i)
  {
    hide Links, LineLink, Page, Neighbours, LinkName, FilesOf, Open, NeighbourFiles, ConceptText;
    PageThenLine(src, concepts, i);
    ReservedNames();
    OpenWithout(src.words.index);
    LinkAfterAnything(Page(src, concepts, i), src.words.index, INDEX_FILE, Neighbours(src, concepts, i));
    NeighbourLinks(src, concepts, i);
    LastFiles(Links(Page(src, concepts, i) + "\n"), Links(")" + Neighbours(src, concepts, i)));
  }

  lemma PageThenLine(src: Source, concepts: seq<Concept>, i: nat)
    requires i < |concepts|
    ensures ConceptText(src, concepts, i)
      == Page(src, concepts, i) + LineLink(src.words.index, INDEX_FILE, Neighbours(src, concepts, i))
  {
    hide F.Rendered, ConceptHeader, Content, LineLink, Neighbours;
  }

  lemma LastFiles(before: seq<string>, after: seq<string>)
    ensures FilesOf(before + [INDEX_FILE] + after) == FilesOf(before) + [INDEX_FILE] + FilesOf(after)
  {
    hide LinkName, FilesOf;
    ReservedNames();
    FilesOfConcat(before + [INDEX_FILE], after);
    FilesOfConcat(before, [INDEX_FILE]);
    FilesOfNames([INDEX_FILE]);
  }

  ghost predicate LinksTo(files: Files, from: string, to: string) {
    from in files && to in files && to in RelativeLinks(files[from])
  }

  lemma ConceptFound(src: Source, units: seq<Unit>, journal: string, k: nat)
    requires k < |units|
    ensures NameAt(units, k) in BundleMap(src, units, journal)
    ensures BundleMap(src, units, journal)[NameAt(units, k)] == ConceptText(src, Concepts(units), k)
  {
    hide BundleMap, Concepts, NameAt, ConceptText;
    BundleHolds(src, units, journal, k);
    FileNames(src, units, journal, k, k);
  }

  lemma ConceptLinksTo(src: Source, units: seq<Unit>, journal: string, i: nat, file: string)
    requires i < |units|
    requires file == INDEX_FILE || (file in NeighbourFiles(Concepts(units), i) && file in BundleMap(src, units, journal))
    ensures LinksTo(BundleMap(src, units, journal), NameAt(units, i), file)
  {
    hide BundleMap, Concepts, IndexText, LogText, RelativeLinks, NameAt, ConceptText, NeighbourFiles, Page;
    ReservedFiles(src, units, journal);
    ConceptFound(src, units, journal, i);
    ConceptNavigates(src, Concepts(units), i);
  }

  lemma NeighbourAt(units: seq<Unit>, i: nat, j: nat)
    requires i < |units| && j < |units| && (i + 1 == j || j + 1 == i) && Linkable(UnitTitle(units, j))
    ensures NameAt(units, j) in NeighbourFiles(Concepts(units), i)
  {
    hide Concepts, NameAt, RelativeLinks, Link, Linkable, UnitTitle;
    ConceptsAre(units, j);
    LinkableName(units, j);
  }

  lemma LinkableName(units: seq<Unit>, j: nat)
    requires j < |units| && Linkable(UnitTitle(units, j))
    ensures RelativeLinks(Link(UnitTitle(units, j), NameAt(units, j))) == [NameAt(units, j)]
  {
    hide RelativeLinks, Link, LinkName, UnitTitle, ConceptAt;
    NamesAreDistinct(units, j, j);
    OwnLink(UnitTitle(units, j), NameAt(units, j));
  }

  /** In every bundle, whatever its bodies and titles hold, each concept links back to index.md,
      and to each neighbour whose title is linkable. In every bundle the gate lets through,
      index.md links to each concept, so that each can be reached from each other. */
  lemma BundleIsNavigable(src: Source, units: seq<Unit>, journal: string, i: nat, j: nat)
    requires i < |units| && j < |units|
    ensures var m := BundleMap(src, units, journal);
      && LinksTo(m, NameAt(units, i), INDEX_FILE)
      && (Linkable(UnitTitle(units, j)) && (i + 1 == j || j + 1 == i) ==> LinksTo(m, NameAt(units, i), NameAt(units, j)))
      && (Publishable(m) || Linkable(UnitTitle(units, j)) ==> LinksTo(m, INDEX_FILE, NameAt(units, j)))
  {
    hide BundleMap, Concepts, LinksTo, NameAt, Linkable, UnitTitle, Publishable, NamedFiles;
    ConceptLinksTo(src, units, journal, i, INDEX_FILE);
    ConceptFound(src, units, journal, j);
    if Linkable(UnitTitle(units, j)) && (i + 1 == j || j + 1 == i) {
      NeighbourAt(units, i, j);
      ConceptLinksTo(src, units, journal, i, NameAt(units, j));
    }
    if Publishable(BundleMap(src, units, journal)) { PublishableExactly(src, units, journal); }
    if Linkable(UnitTitle(units, j)) { LinkableIsNamed(src, units, j); }
    if NameAt(units, j) in NamedFiles(src, units) { IndexLinksTo(src, units, journal, j); }
  }

  lemma LinkableIsNamed(src: Source, units: seq<Unit>, j: nat)
    requires j < |units| && Linkable(UnitTitle(units, j))
    ensures NameAt(units, j) in NamedFiles(src, units)
  {
    hide Concepts, NameAt, RelativeLinks, Link, Linkable, UnitTitle;
    ConceptsAre(units, j);
    LinkableName(units, j);
    EntryIsRead(Concepts(units), j, NameAt(units, j));
  }

  lemma IndexLinksTo(src: Source, units: seq<Unit>, journal: string, j: nat)
    requires j < |units| && NameAt(units, j) in NamedFiles(src, units)
    ensures LinksTo(BundleMap(src, units, journal), INDEX_FILE, NameAt(units, j))
  {
    hide BundleMap, Concepts, IndexText, LogText, RelativeLinks, NameAt, ConceptText, NamedFiles;
    ReservedFiles(src, units, journal);
    ConceptFound(src, units, journal, j);
    IndexNames(src, units);
  }
}
