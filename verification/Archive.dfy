/**
 The reading order of a built bundle (backend/internal/bundle/archive.go:61-81).
 */
module Archive {
  import opened Bundles
  import opened Conformance

  lemma {:induction false} FoundSkips(a: seq<File>, b: seq<File>, name: string)
    requires forall k :: 0 <= k < |a| ==> a[k].name != name
    ensures Found(a + b, name) == Found(b, name)
  {
    if a == [] {
      assert a + b == b;
    } else {
      assert (a + b)[1..] == a[1..] + b;
      FoundSkips(a[1..], b, name);
    }
  }

  lemma {:induction false} UnreservedKeeps(a: seq<File>, b: seq<File>)
    requires forall k :: 0 <= k < |a| ==> !Reserved(a[k].name)
    requires forall k :: 0 <= k < |b| ==> Reserved(b[k].name)
    ensures Unreserved(a + b) == a
  {
    hide Reserved;
    if a == [] {
      assert a + b == b;
      if b != [] {
        assert b == [] + b && [] + b[1..] == b[1..];
        UnreservedKeeps([], b[1..]);
      }
    } else {
      assert (a + b)[1..] == a[1..] + b;
      UnreservedKeeps(a[1..], b);
    }
  }

  /** index.md, log.md, then the concepts as they appear in the document: every file, once. */
  lemma ReadingOrder(src: Source, units: seq<Unit>, journal: string)
    ensures Ordered(BundleFiles(src, Concepts(units), journal))
      == [File(INDEX_FILE, IndexText(src, Concepts(units))), File(LOG_FILE, LogText(src, journal))]
         + ConceptFiles(src, Concepts(units))
  {
    var concepts := Concepts(units);
    var pages := ConceptFiles(src, concepts);
    var index, log := File(INDEX_FILE, IndexText(src, concepts)), File(LOG_FILE, LogText(src, journal));
    assert BundleFiles(src, concepts, journal) == pages + [index, log];
    assert |pages| == |units|;
    forall k | 0 <= k < |units| ensures !Reserved(pages[k].name) { PageIsConcept(src, units, k); }
    hide ConceptFiles, IndexText, LogText, BundleFiles, Concepts;
    InOrder(pages, index, log);
  }

  lemma PageIsConcept(src: Source, units: seq<Unit>, k: nat)
    requires k < |units|
    ensures ConceptFiles(src, Concepts(units))[k].name == NameAt(units, k)
    ensures !Reserved(ConceptFiles(src, Concepts(units))[k].name)
  {
    hide ConceptText, SlugAt, TitleOf;
    NamesAreDistinct(units, k, k);
  }

  lemma InOrder(pages: seq<File>, index: File, log: File)
    requires index.name == INDEX_FILE && log.name == LOG_FILE
    requires forall k :: 0 <= k < |pages| ==> !Reserved(pages[k].name)
    ensures Ordered(pages + [index, log]) == [index, log] + pages
  {
    FoundSkips(pages, [index, log], INDEX_FILE);
    FoundSkips(pages + [index], [log], LOG_FILE);
    assert INDEX_FILE[0] != LOG_FILE[0];
    assert pages + [index, log] == (pages + [index]) + [log];
    UnreservedKeeps(pages, [index, log]);
  }

  ghost predicate DistinctNames(files: seq<File>) {
    forall j, k :: 0 <= j < k < |files| ==> files[j].name != files[k].name
  }

  lemma OrderedNamesAreDistinct(src: Source, units: seq<Unit>, journal: string)
    ensures DistinctNames(Ordered(BundleFiles(src, Concepts(units), journal)))
  {
    hide ConceptFiles, IndexText, LogText, BundleFiles, Ordered, Concepts, NameAt;
    ReadingOrder(src, units, journal);
    var pages := ConceptFiles(src, Concepts(units));
    PagesLength(src, units);
    assert INDEX_FILE[0] != LOG_FILE[0];
    forall j, k | 0 <= j < k < |pages| ensures pages[j].name != pages[k].name {
      PageIsConcept(src, units, j);
      PageIsConcept(src, units, k);
      DistinctAt(units, j, k);
    }
    forall k | 0 <= k < |pages| ensures !Reserved(pages[k].name) { PageIsConcept(src, units, k); }
  }

  lemma PagesLength(src: Source, units: seq<Unit>)
    ensures |ConceptFiles(src, Concepts(units))| == |units|
  {
    hide ConceptFile, Concepts;
  }

  lemma DistinctAt(units: seq<Unit>, j: nat, k: nat)
    requires j < k < |units|
    ensures NameAt(units, j) != NameAt(units, k)
  {
    hide ConceptAt;
    NamesAreDistinct(units, j, k);
  }
}
