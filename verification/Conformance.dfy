/**
 What the validator reads back from the metadata the generator prints: the Open Knowledge
 Format verdict of a built bundle (backend/internal/bundle/bundle.go:93-136 against
 backend/internal/bundle/validate.go:291-396).
 */
module Conformance {
  import opened Text
  import opened Frontmatter
  import opened LinkScan
  import opened Reports
  import opened Bundles
  import opened Validation

  // ---------------------------------------------------------------------------
  // Looking fields up
  // ---------------------------------------------------------------------------

  lemma {:induction false} AsMapFinds(ps: seq<Pair>, p: Pair)
    requires p in ps && forall q :: q in ps && q.0 == p.0 ==> q == p
    ensures p.0 in AsMap(ps) && AsMap(ps)[p.0] == p.1
  {
    var last := ps[|ps| - 1];
    assert last in ps;
    if last.0 != p.0 {
      assert ps == ps[..|ps| - 1] + [last];
      AsMapFinds(ps[..|ps| - 1], p);
    }
  }

  lemma {:induction false} AsMapMisses(ps: seq<Pair>, key: string)
    requires forall q :: q in ps ==> q.0 != key
    ensures key !in AsMap(ps)
  {
    if ps != [] {
      assert ps[|ps| - 1] in ps;
      AsMapMisses(ps[..|ps| - 1], key);
    }
  }

  /** Headers as the bundle writes them: a plain kind and a value for every standard field. */
  predicate Full(h: Header) {
    h.title != "" && h.description != "" && h.tags != [] && Flattened(h.kind)
  }

  predicate Flattened(s: string) {
    !Has(s, '\n') && !Has(s, '\t') && !Has(s, '\r')
  }

  lemma FieldsFound(h: Header)
    requires Full(h)
    ensures var m := AsMap(Pairs(h));
      && Field(m, "type") == YamlString(h.kind)
      && Field(m, "title") == YamlString(h.title)
      && Field(m, "description") == YamlString(h.description)
      && Field(m, "tags") == "[" + Quoted(h.tags) + "]"
  {
    hide YamlString, Quoted, AsMap;
    var ps := Pairs(h);
    AsMapFinds(ps, ("type", YamlString(h.kind)));
    AsMapFinds(ps, ("title", YamlString(h.title)));
    AsMapFinds(ps, ("description", YamlString(h.description)));
    AsMapFinds(ps, ("tags", "[" + Quoted(h.tags) + "]"));
  }

  lemma TimestampFound(h: Header)
    ensures Field(AsMap(Pairs(h)), "timestamp") == if h.timestamp.Zero? then "" else h.timestamp.rfc3339
  {
    hide YamlString, Quoted, AsMap;
    var ps := Pairs(h);
    if h.timestamp.Zero? {
      AsMapMisses(ps, "timestamp");
    } else {
      AsMapFinds(ps, ("timestamp", h.timestamp.rfc3339));
    }
  }

  /** What the rules see in a file that opens with a full header. */
  lemma FullHeader(h: Header, rest: string)
    requires Full(h)
    ensures var content := Rendered(h) + rest;
      && HasType(content) && HasFrontmatter(content)
      && (HasStandardFields(content) <==> h.timestamp.Instant?)
      && UnquoteYAML(Field(Parsed(content).value, "type")) == h.kind
  {
    hide Rendered, Parsed, Pairs, AsMap, YamlString, UnquoteYAML, Quoted, Field, TrimSpace;
    FrontmatterRoundTrip(h, rest);
    FieldsFound(h);
    TimestampFound(h);
    QuotedIsNotBlank(h.kind);
    QuotedIsNotBlank(h.title);
    QuotedIsNotBlank(h.description);
    TagsAreNotBlank(h.tags);
    StampIsNotBlank(h.timestamp);
    UnquoteInverts(h.kind);
    StandardFieldsAre(Rendered(h) + rest);
  }

  lemma StandardFieldsAre(content: string)
    ensures HasStandardFields(content) <==>
      HasField(content, "title") && HasField(content, "description")
      && HasField(content, "tags") && HasField(content, "timestamp")
  {
    hide HasField;
    assert STANDARD_FIELDS[0] == "title" && STANDARD_FIELDS[1] == "description";
    assert STANDARD_FIELDS[2] == "tags" && STANDARD_FIELDS[3] == "timestamp";
  }

  lemma QuotedIsNotBlank(s: string)
    ensures !Blank(YamlString(s))
  {
    TrimKeeps(YamlString(s), 0);
  }

  lemma TagsAreNotBlank(tags: seq<string>)
    ensures !Blank("[" + Quoted(tags) + "]")
  {
    TrimKeeps("[" + Quoted(tags) + "]", 0);
  }

  lemma StampIsNotBlank(t: Time)
    ensures Blank(if t.Zero? then "" else t.rfc3339) <==> t.Zero?
  {
    if t.Instant? {
      assert GoodPair(("timestamp", t.rfc3339)) by { StampIsGood(t.rfc3339); }
      TrimKeeps(t.rfc3339, 0);
    }
  }

  // ---------------------------------------------------------------------------
  // The files of a bundle by name
  // ---------------------------------------------------------------------------

  lemma {:induction false} FileMapFinds(files: seq<File>, i: nat)
    requires i < |files| && forall j :: 0 <= j < |files| && files[j].name == files[i].name ==> i == j
    ensures files[i].name in FileMap(files) && FileMap(files)[files[i].name] == files[i].content
  {
    if i < |files| - 1 { FileMapFinds(files[..|files| - 1], i); }
  }

  lemma {:induction false} FileMapNames(files: seq<File>, name: string) returns (i: nat)
    requires name in FileMap(files)
    ensures i < |files| && files[i].name == name
  {
    i := |files| - 1;
    if files[i].name != name { i := FileMapNames(files[..i], name); }
  }

  /** The files a bundle is made of, by name. */
  ghost function BundleMap(src: Source, units: seq<Unit>, journal: string): Files {
    FileMap(BundleFiles(src, Concepts(units), journal))
  }

  function NameAt(units: seq<Unit>, i: nat): string
    requires i < |units|
  {
    ConceptAt(units, i).fileName
  }

  /** One file of the bundle: the concepts in order, then index.md, then log.md. */
  function FileAt(src: Source, units: seq<Unit>, journal: string, k: nat): File
    requires k <= |units| + 1
  {
    if k < |units| then ConceptFile(src, Concepts(units), k)
    else if k == |units| then File(INDEX_FILE, IndexText(src, Concepts(units)))
    else File(LOG_FILE, LogText(src, journal))
  }

  lemma FilesAre(src: Source, units: seq<Unit>, journal: string)
    ensures var files := BundleFiles(src, Concepts(units), journal);
      |files| == |units| + 2 && forall k :: 0 <= k < |files| ==> files[k] == FileAt(src, units, journal, k)
  {
    hide IndexText, LogText, ConceptFile, Concepts;
    var files := BundleFiles(src, Concepts(units), journal);
    assert |files| == |units| + 2;
  }

  lemma FileNames(src: Source, units: seq<Unit>, journal: string, j: nat, k: nat)
    requires j <= |units| + 1 && k <= |units| + 1
    ensures FileAt(src, units, journal, j).name == FileAt(src, units, journal, k).name ==> j == k
    ensures k < |units| ==> FileAt(src, units, journal, k).name == NameAt(units, k)
    ensures Reserved(FileAt(src, units, journal, k).name) <==> k >= |units|
  {
    hide IndexText, LogText, ConceptText, ConceptAt;
    if k < |units| {
      NamesAreDistinct(units, k, if j < |units| then j else k);
    }
    if j < |units| { NamesAreDistinct(units, j, j); }
    assert INDEX_FILE[0] == 'i' && LOG_FILE[0] == 'l';
  }

  /** A bundle holds every concept, index.md and log.md, each under its own name, and no more. */
  lemma BundleHolds(src: Source, units: seq<Unit>, journal: string, k: nat)
    requires k <= |units| + 1
    ensures var f := FileAt(src, units, journal, k);
      f.name in BundleMap(src, units, journal) && BundleMap(src, units, journal)[f.name] == f.content
  {
    hide FileAt, BundleFiles, FileMap, Concepts;
    FilesAre(src, units, journal);
    var files := BundleFiles(src, Concepts(units), journal);
    forall j | 0 <= j < |files| && files[j].name == files[k].name ensures k == j {
      FileNames(src, units, journal, j, k);
    }
    FileMapFinds(files, k);
  }

  lemma BundleHoldsOnly(src: Source, units: seq<Unit>, journal: string, name: string) returns (k: nat)
    requires name in BundleMap(src, units, journal)
    ensures k <= |units| + 1 && name == FileAt(src, units, journal, k).name
  {
    hide FileAt, BundleFiles, FileMap, Concepts;
    FilesAre(src, units, journal);
    k := FileMapNames(BundleFiles(src, Concepts(units), journal), name);
  }

  // ---------------------------------------------------------------------------
  // Conformance
  // ---------------------------------------------------------------------------

  predicate Conforms(src: Source, content: string) {
    && HasType(content) && HasFrontmatter(content)
    && (HasStandardFields(content) <==> src.convertedAt.Instant?)
  }

  lemma FileConforms(src: Source, units: seq<Unit>, journal: string, k: nat)
    requires k <= |units| + 1
    ensures Conforms(src, FileAt(src, units, journal, k).content)
  {
    hide Conforms, ConceptText, IndexText, LogText;
    if k < |units| {
      ConceptConforms(src, Concepts(units), k);
    } else if k == |units| {
      IndexConforms(src, Concepts(units));
    } else {
      LogConforms(src, journal);
    }
  }

  lemma HeadersAreFull(src: Source, concepts: seq<Concept>, c: Concept)
    requires c.title != ""
    ensures Full(ConceptHeader(src, concepts, c)) && Full(IndexHeader(src, |concepts|)) && Full(LogHeader(src))
  {
    hide ConceptDescription, IndexDescription, LogDescription, LogTitle, Tags, Flattened;
    KindsAreFlat();
  }

  lemma KindsAreFlat()
    ensures Flattened("concept") && Flattened("index") && Flattened("log")
  {
  }

  lemma ConceptConforms(src: Source, concepts: seq<Concept>, i: nat)
    requires i < |concepts| && concepts[i].title != ""
    ensures Conforms(src, ConceptText(src, concepts, i))
  {
    hide Rendered, Content, Neighbours, LineLink, HasType, HasFrontmatter, HasStandardFields, Full, ConceptDescription, Tags;
    var h := ConceptHeader(src, concepts, concepts[i]);
    HeadersAreFull(src, concepts, concepts[i]);
    FullHeader(h, Content(src, concepts[i]) + LineLink(src.words.index, INDEX_FILE, Neighbours(src, concepts, i)));
  }

  lemma IndexConforms(src: Source, concepts: seq<Concept>)
    ensures var content := IndexText(src, concepts);
      Conforms(src, content) && UnquoteYAML(Field(Parsed(content).value, "type")) == "index"
  {
    hide Rendered, IndexIntro, Items, IndexFooter, IndexDescription, Tags, Full,
      HasType, HasFrontmatter, HasStandardFields, UnquoteYAML, Field, Parsed;
    HeadersAreFull(src, concepts, Concept("-", "", "", 1, ""));
    FullHeader(IndexHeader(src, |concepts|), IndexIntro(src, |concepts|) + (Items(concepts) + IndexFooter(src)));
  }

  lemma LogConforms(src: Source, journal: string)
    ensures var content := LogText(src, journal);
      Conforms(src, content) && UnquoteYAML(Field(Parsed(content).value, "type")) == "log"
  {
    hide Rendered, LogHeading, LogTitle, LogDescription, Tags, Full, HasType, HasFrontmatter, HasStandardFields, UnquoteYAML, Field, Parsed;
    HeadersAreFull(src, [], Concept("-", "", "", 1, ""));
    FullHeader(LogHeader(src), LogHeading(src) + journal);
  }

  /** Conformance is unconditional: whatever the units hold and whatever log.md says, the
      verdict is valid, unless the conversion has no time, which costs a warning. */
  lemma BuiltBundleConforms(src: Source, units: seq<Unit>, journal: string)
    ensures OKFVerdict(BundleMap(src, units, journal)) == if src.convertedAt.Zero? then WithWarnings else Valid
  {
    hide BundleMap, IndexText, LogText, HasType, HasFrontmatter, HasStandardFields, ReservedTypesMatch;
    var m := BundleMap(src, units, journal);
    forall name | name in m ensures Conforms(src, m[name]) {
      EveryFileConforms(src, units, journal, name);
    }
    ReservedFiles(src, units, journal);
    assert StandardFieldsPresent(m) <==> src.convertedAt.Instant? by {
      assert Conforms(src, m[INDEX_FILE]);
    }
    RolesMatch(src, units, journal);
  }

  lemma EveryFileConforms(src: Source, units: seq<Unit>, journal: string, name: string)
    requires name in BundleMap(src, units, journal)
    ensures Conforms(src, BundleMap(src, units, journal)[name])
  {
    hide BundleMap, FileAt, Conforms;
    var k := BundleHoldsOnly(src, units, journal, name);
    BundleHolds(src, units, journal, k);
    FileConforms(src, units, journal, k);
  }

  lemma ReservedFiles(src: Source, units: seq<Unit>, journal: string)
    ensures var m := BundleMap(src, units, journal);
      && INDEX_FILE in m && m[INDEX_FILE] == IndexText(src, Concepts(units))
      && LOG_FILE in m && m[LOG_FILE] == LogText(src, journal)
  {
    hide BundleMap, IndexText, LogText;
    BundleHolds(src, units, journal, |units|);
    BundleHolds(src, units, journal, |units| + 1);
  }

  lemma RolesMatch(src: Source, units: seq<Unit>, journal: string)
    ensures ReservedTypesMatch(BundleMap(src, units, journal))
  {
    hide BundleMap, IndexText, LogText, UnquoteYAML, Field, Parsed, HasFrontmatter, Conforms;
    ReservedFiles(src, units, journal);
    IndexConforms(src, Concepts(units));
    LogConforms(src, journal);
  }
}
