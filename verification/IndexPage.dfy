/**
 The page index.md as the validator reads it: what comes before the entries, the entries one by
 one, and the footer (backend/internal/bundle/bundle.go:230-264 against
 backend/internal/bundle/validate.go:400-432).
 */
module IndexPage {
  import opened Wrappers
  import opened Text
  import Slug
  import F = Frontmatter
  import opened LinkScan
  import opened Bundles

  // ---------------------------------------------------------------------------
  // Text in front of the index entries
  // ---------------------------------------------------------------------------

  /** No opening bracket, so no link. */
  predicate Clean(s: string) {
    '[' !in s
  }

  /** Names and identifiers that put no bracket into index.md. */
  predicate CleanSource(src: Source) {
    Clean(src.title) && Clean(src.originalName) && Clean(src.contentType) && Clean(src.jobId)
  }

  lemma {:induction false} CleanJoin(parts: seq<string>)
    requires forall k :: 0 <= k < |parts| ==> Clean(parts[k])
    ensures Clean(Join(parts))
  {
    if parts != [] { CleanJoin(parts[1..]); }
  }

  lemma CleanYaml(s: string)
    requires Clean(s)
    ensures Clean(F.YamlString(s))
  {
    CleanEscape(s);
  }

  lemma {:induction false} CleanEscape(s: string)
    requires Clean(s)
    ensures Clean(Mapped(s, F.YamlEscape))
  {
    if s != "" {
      assert s[0] in s;
      CleanEscape(s[1..]);
    }
  }

  lemma {:induction false} CleanLines(ps: seq<F.Pair>)
    requires forall k :: 0 <= k < |ps| ==> Clean(ps[k].0) && Clean(ps[k].1)
    ensures Clean(F.Lines(ps))
  {
    if ps != [] { CleanLines(ps[1..]); }
  }

  function Front(h: F.Header): seq<F.Pair> {
    [("type", F.YamlString(h.kind))]
    + F.If(h.title != "", "title", F.YamlString(h.title))
    + F.If(h.description != "", "description", F.YamlString(h.description))
  }

  function Back(h: F.Header): seq<F.Pair> {
    F.If(h.source != "", "source", F.YamlString(h.source))
    + (if h.timestamp.Zero? then [] else [("timestamp", h.timestamp.rfc3339)])
  }

  function TagLine(h: F.Header): F.Pair {
    ("tags", "[" + F.Quoted(h.tags) + "]")
  }

  predicate CleanHeader(h: F.Header) {
    && Clean(h.kind) && Clean(h.title) && Clean(h.description) && Clean(h.source) && h.tags != []
    && Clean(F.Quoted(h.tags)) && Open(F.Quoted(h.tags))
  }

  lemma FrontIsClean(h: F.Header)
    requires CleanHeader(h)
    ensures Clean(F.Lines(Front(h)))
  {
    hide F.YamlString, F.Quoted;
    CleanYaml(h.kind);
    CleanYaml(h.title);
    CleanYaml(h.description);
    CleanLines(Front(h));
  }

  lemma BackIsClean(h: F.Header)
    requires CleanHeader(h)
    ensures Clean(F.Lines(Back(h)))
  {
    hide F.YamlString, F.Quoted;
    CleanYaml(h.source);
    if h.timestamp.Instant? {
      var stamp: string := h.timestamp.rfc3339;
      assert F.ClockText(stamp);
      forall c | c in stamp ensures c != '[' { assert F.ClockChar(c); }
    }
    CleanLines(Back(h));
  }

  lemma LinesSplit(h: F.Header)
    requires h.tags != []
    ensures F.Lines(F.Pairs(h)) == F.Lines(Front(h)) + (F.Line(TagLine(h)) + F.Lines(Back(h)))
  {
    hide F.YamlString, F.Quoted, F.Line;
    assert F.Pairs(h) == Front(h) + ([TagLine(h)] + Back(h));
    F.LinesAppend(Front(h), [TagLine(h)] + Back(h));
    assert ([TagLine(h)] + Back(h))[1..] == Back(h);
  }

  /** A bracketed list on a line of its own is not a link. */
  lemma ListIsNoLink(before: string, list: string, after: string)
    requires Clean(before) && Clean(list) && Open(list)
    ensures Links(before + ("[" + (list + ("]\n" + after)))) == Links(after)
  {
    hide Links;
    var s := "[" + (list + ("]\n" + after));
    LinksSkip(before, s);
    NoTarget(list, after);
    LinksMiss(s);
    assert s[1..] == (list + "]\n") + after;
    LinksSkip(list + "]\n", after);
  }

  lemma NoTarget(list: string, after: string)
    requires Open(list)
    ensures LinkAt("[" + (list + ("]\n" + after))) == None
  {
    var s := "[" + (list + ("]\n" + after));
    OpenIsPassed(list, "]\n" + after);
    assert s[1..] == list + ("]\n" + after) && ("]\n" + after)[1..] == "\n" + after;
  }

  function BeforeTags(h: F.Header): string {
    "---\n" + F.Lines(Front(h)) + "tags: "
  }

  function AfterTags(h: F.Header): string {
    F.Lines(Back(h)) + "---\n\n"
  }

  lemma HeaderShape(h: F.Header, rest: string)
    requires h.tags != []
    ensures F.Rendered(h) + rest == BeforeTags(h) + ("[" + (F.Quoted(h.tags) + ("]\n" + (AfterTags(h) + rest))))
  {
    hide F.Pairs, F.Lines, F.Quoted, Front, Back;
    LinesSplit(h);
    assert F.Line(TagLine(h)) == "tags: [" + F.Quoted(h.tags) + "]\n";
  }

  lemma HeaderHasNoLinks(h: F.Header, rest: string)
    requires CleanHeader(h)
    ensures Links(F.Rendered(h) + rest) == Links(rest)
  {
    hide F.Rendered, F.Quoted, F.Lines;
    HeaderShape(h, rest);
    FrontIsClean(h);
    BackIsClean(h);
    ListIsNoLink(BeforeTags(h), F.Quoted(h.tags), AfterTags(h) + rest);
    LinksSkip(AfterTags(h), rest);
  }

  // ---------------------------------------------------------------------------
  // index.md up to its entries
  // ---------------------------------------------------------------------------

  lemma {:induction false} SlugStaysPlain(s: string)
    requires Slug.SlugChars(s)
    ensures var m := Mapped(s, F.YamlEscape); Clean(m) && ']' !in m && '\\' !in m
  {
    if s != "" {
      assert s[0] in s && Slug.SlugChar(s[0]);
      SlugStaysPlain(s[1..]);
    }
  }

  lemma RootIsSlug(title: string)
    ensures Slug.SlugChars(Root(title))
  {
    Slug.SlugifiedIsCanonical(title);
  }

  lemma QuotedTwo(a: string, b: string)
    ensures F.Quoted([a, b]) == F.YamlString(a) + (", " + F.YamlString(b))
  {
    hide F.YamlString;
    assert [a, b][..1] == [a] && F.Quoted([a]) == F.YamlString(a);
  }

  lemma TagsAreOpen(src: Source)
    ensures var list := F.Quoted(Tags(src)); Clean(list) && Open(list)
  {
    hide Root, F.YamlString, F.Quoted, GapText;
    RootIsSlug(src.title);
    QuotedSlug("okf");
    QuotedSlug(Root(src.title));
    QuotedTwo("okf", Root(src.title));
    GapConcat(", ", F.YamlString(Root(src.title)));
    GapConcat(F.YamlString("okf"), ", " + F.YamlString(Root(src.title)));
    GapIsOpen(F.Quoted(Tags(src)));
  }

  lemma GapConcat(a: string, b: string)
    requires b != "" && (GapText(a) || a == ", ") && (GapText(b) || b == ", ")
    ensures GapText(a + b)
  {
  }

  lemma GapIsOpen(s: string)
    requires GapText(s)
    ensures Clean(s) && Open(s)
  {
    OpenWithout(s);
  }

  lemma QuotedSlug(s: string)
    requires Slug.SlugChars(s)
    ensures GapText(F.YamlString(s)) && F.YamlString(s) != ""
  {
    SlugStaysPlain(s);
  }

  lemma DecimalIsClean(n: nat)
    ensures Clean(Decimal(n))
  {
  }

  lemma IndexDescriptionIsClean(src: Source, count: nat)
    requires Clean(src.originalName)
    ensures Clean(IndexDescription(src, count))
  {
    hide Decimal;
    DecimalIsClean(count);
  }

  lemma IndexHeaderIsClean(src: Source, count: nat)
    requires CleanSource(src)
    ensures CleanHeader(IndexHeader(src, count))
  {
    hide IndexDescription, F.Quoted, Tags;
    IndexDescriptionIsClean(src, count);
    TagsAreOpen(src);
  }

  lemma TimeIsClean(t: F.Time)
    ensures Clean(FormatTime(t))
  {
    if t.Instant? {
      var display: string := t.display;
      assert F.ClockText(display);
      forall c | c in display ensures c != '[' { assert F.ClockChar(c); }
    }
  }

  lemma SizeIsClean(size: SizeText)
    ensures Clean(size)
  {
    var text: string := size;
    assert forall c :: c in text ==> '0' <= c <= '9' || c in ".—BKM ";
  }

  lemma IndexIntroIsClean(src: Source, count: nat)
    requires CleanSource(src)
    ensures Clean(IndexIntro(src, count))
  {
    hide Decimal, FormatTime, Join, TrimSpace;
    DecimalIsClean(count);
    TimeIsClean(src.convertedAt);
    SizeIsClean(src.size);
    CleanJoin(IntroParts(src, count));
  }

  // ---------------------------------------------------------------------------
  // The entries of index.md
  // ---------------------------------------------------------------------------

  /** The entries of index.md and the footer, split at the first opening bracket. */
  function Entries(src: Source, concepts: seq<Concept>): string {
    Items(concepts) + IndexFooter(src)
  }

  function Lead(src: Source, concepts: seq<Concept>): string {
    if concepts == [] then src.words.trace else Decimal(concepts[0].position) + ". "
  }

  function FromBracket(src: Source, concepts: seq<Concept>): string {
    if concepts == [] then LOG_LINK + ".\n"
    else Link(concepts[0].title, concepts[0].fileName) + ("\n" + Entries(src, concepts[1..]))
  }

  lemma EntriesSplit(src: Source, concepts: seq<Concept>)
    ensures Entries(src, concepts) == Lead(src, concepts) + FromBracket(src, concepts)
  {
    hide Decimal, Link;
    if concepts != [] {
      var c := concepts[0];
      Regroup(Decimal(c.position), Link(c.title, c.fileName), Items(concepts[1..]), IndexFooter(src));
    }
  }

  lemma Regroup(number: string, link: string, items: string, footer: string)
    ensures (number + ". " + link + "\n" + items) + footer == (number + ". ") + (link + ("\n" + (items + footer)))
  {
  }

  lemma LeadIsGap(src: Source, concepts: seq<Concept>)
    ensures GapText(Lead(src, concepts)) && Settled(Lead(src, concepts)) && Lead(src, concepts) != ""
    ensures FromBracket(src, concepts) != "" && FromBracket(src, concepts)[0] == '['
  {
    hide Decimal, EscapeLinkText, Entries;
    if concepts != [] { DecimalIsGap(concepts[0].position); }
  }

  lemma DecimalIsGap(n: nat)
    ensures GapText(Decimal(n) + ". ")
  {
  }

  /** The files each entry names, by its own title and file name alone, in document order. */
  function EntryFiles(concepts: seq<Concept>): seq<string> {
    if concepts == [] then []
    else RelativeLinks(Link(concepts[0].title, concepts[0].fileName)) + EntryFiles(concepts[1..])
  }

  /** An entry up to the next bracket names what its link alone names. */
  lemma OneEntry(link: string, lead: string, s: string)
    requires link != "" && link[|link| - 1] == ')' && lead != "" && GapText(lead) && Settled(lead)
    requires s != "" && s[0] == '['
    ensures RelativeLinks(link + ("\n" + (lead + s))) == RelativeLinks(link) + RelativeLinks(s)
  {
    hide RelativeLinks;
    var gap := "\n" + lead;
    assert link + ("\n" + (lead + s)) == (link + gap) + s;
    RelativeLinksSplit(link, gap);
    NothingLinked(gap);
    RelativeLinksSplit(link + gap, s);
  }

  lemma {:induction false} EntriesRead(src: Source, concepts: seq<Concept>)
    ensures RelativeLinks(FromBracket(src, concepts)) == EntryFiles(concepts) + [LOG_FILE]
  {
    hide Link, Lead, Entries, RelativeLinks, GapText, Settled;
    if concepts == [] {
      FooterLink(src);
    } else {
      var link := Link(concepts[0].title, concepts[0].fileName);
      EntriesRead(src, concepts[1..]);
      EntriesSplit(src, concepts[1..]);
      LeadIsGap(src, concepts[1..]);
      LinkEnds(concepts[0].title, concepts[0].fileName);
      OneEntry(link, Lead(src, concepts[1..]), FromBracket(src, concepts[1..]));
    }
  }

  lemma LinkEnds(title: string, file: string)
    ensures var link := Link(title, file); link != "" && link[|link| - 1] == ')' && link[0] == '[' && Settled(link)
  {
    hide EscapeLinkText;
  }

  lemma FooterLink(src: Source)
    ensures RelativeLinks(LOG_LINK + ".\n") == [LOG_FILE]
  {
    hide LinkName, RelativeLinks, Link;
    LogLink();
    ReservedNames();
    NameLink(LOG_FILE);
  }

  lemma NameLink(file: string)
    requires LinkName(file)
    ensures RelativeLinks(Link(file, file) + ".\n") == [file]
  {
    hide RelativeLinks, Link, Linkable, Injecting, Through;
    assert '\\' !in file;
    hide LinkName;
    WithoutBackslash(file);
    OwnLink(file, file);
    LinkEnds(file, file);
    RelativeLinksSplit(Link(file, file), ".\n");
    GapLinks(".\n");
  }

  lemma LogLink()
    ensures Link(LOG_FILE, LOG_FILE) == LOG_LINK
  {
    hide EscapeLinkText;
    NothingToEscape(LOG_FILE);
  }

  lemma ReservedNames()
    ensures LinkName(INDEX_FILE) && LinkName(LOG_FILE)
  {
  }

  lemma WithoutBackslash(title: string)
    requires '\\' !in title
    ensures Through(title).Ends? && Linkable(title) && !Injecting(title)
  {
    ThroughPlain(title);
  }

  lemma {:induction false} ThroughPlain(title: string)
    requires '\\' !in title
    ensures Through(title).Ends?
  {
    if title != "" {
      assert title[0] in title;
      ThroughPlain(title[1..]);
    }
  }

  lemma {:induction false} FilesOfNames(names: seq<string>)
    requires forall k :: 0 <= k < |names| ==> LinkName(names[k])
    ensures FilesOf(names) == names
  {
    if names != [] {
      NameIsFile(names[0]);
      FilesOfNames(names[1..]);
    }
  }

  // ---------------------------------------------------------------------------
  // The whole page
  // ---------------------------------------------------------------------------

  /** index.md up to its first entry. */
  function Preface(src: Source, count: nat): string {
    F.Rendered(IndexHeader(src, count)) + IndexIntro(src, count)
  }

  lemma {:induction false} JoinEnds(parts: seq<string>)
    requires parts != [] && parts[|parts| - 1] != ""
    ensures var last := parts[|parts| - 1]; Join(parts) != "" && Join(parts)[|Join(parts)| - 1] == last[|last| - 1]
  {
    if |parts| > 1 {
      JoinEnds(parts[1..]);
      assert parts[1..][|parts| - 2] == parts[|parts| - 1];
    } else {
      assert parts[1..] == [] && Join(parts) == parts[0] + "";
    }
  }

  lemma PrefaceIsSettled(src: Source, count: nat)
    ensures Settled(Preface(src, count))
  {
    hide F.Rendered, IndexHeader, Join, Decimal, OrDash, FormatTime;
    var concepts: string := src.words.concepts;
    assert Settled(concepts) && IntroParts(src, count)[|IntroParts(src, count)| - 1] == concepts;
    JoinEnds(IntroParts(src, count));
  }

  /** Whatever the titles and the source hold, the validator reads back from index.md what the
      text before the entries names, then what each entry names by itself, then log.md. */
  lemma IndexReadsBack(src: Source, concepts: seq<Concept>)
    ensures RelativeLinks(IndexText(src, concepts))
      == RelativeLinks(Preface(src, |concepts|)) + EntryFiles(concepts) + [LOG_FILE]
  {
    hide RelativeLinks, IndexText, Preface, FromBracket, Lead, GapText, Settled, EntryFiles;
    PageShape(src, concepts);
    PrefaceIsSettled(src, |concepts|);
    LeadIsGap(src, concepts);
    PartsRead(Preface(src, |concepts|), Lead(src, concepts), FromBracket(src, concepts));
    EntriesRead(src, concepts);
    assert RelativeLinks(Preface(src, |concepts|)) + (EntryFiles(concepts) + [LOG_FILE])
      == RelativeLinks(Preface(src, |concepts|)) + EntryFiles(concepts) + [LOG_FILE];
  }

  lemma PartsRead(before: string, lead: string, rest: string)
    requires Settled(before) && GapText(lead) && Settled(lead) && lead != "" && rest != "" && rest[0] == '['
    ensures RelativeLinks((before + lead) + rest) == RelativeLinks(before) + RelativeLinks(rest)
  {
    hide RelativeLinks, GapText;
    RelativeLinksSplit(before, lead);
    GapLinks(lead);
    SettledConcat(before, lead);
    hide Settled;
    RelativeLinksSplit(before + lead, rest);
  }

  lemma PageShape(src: Source, concepts: seq<Concept>)
    ensures IndexText(src, concepts)
      == (Preface(src, |concepts|) + Lead(src, concepts)) + FromBracket(src, concepts)
  {
    hide F.Rendered, IndexHeader, IndexIntro, FromBracket, Lead, Items, IndexFooter;
    EntriesSplit(src, concepts);
    Reassociate(F.Rendered(IndexHeader(src, |concepts|)), IndexIntro(src, |concepts|),
                Lead(src, concepts), FromBracket(src, concepts));
  }

  lemma Reassociate(a: string, b: string, c: string, d: string)
    ensures a + (b + (c + d)) == ((a + b) + c) + d
  {
  }

  lemma GapLinks(gap: string)
    requires GapText(gap)
    ensures RelativeLinks(gap) == []
  {
    NothingLinked(gap);
  }

  lemma SettledConcat(a: string, b: string)
    requires Settled(b) && b != ""
    ensures Settled(a + b)
  {
  }

  /** A source without opening brackets puts no link in front of the entries. */
  lemma CleanIsQuiet(src: Source, count: nat)
    requires CleanSource(src)
    ensures RelativeLinks(Preface(src, count)) == []
  {
    hide Links, F.Rendered, IndexIntro, IndexHeader, CleanHeader, CleanSource;
    IndexHeaderIsClean(src, count);
    IndexIntroIsClean(src, count);
    HeaderHasNoLinks(IndexHeader(src, count), IndexIntro(src, count));
    NothingLinked(IndexIntro(src, count));
  }

  /** Nor does one whose brackets are never followed by a parenthesis. */
  lemma BracketsAloneAreQuiet(src: Source, count: nat)
    requires !Contains(Preface(src, count), "](")
    ensures RelativeLinks(Preface(src, count)) == []
  {
    NoTargetNoLinks(Preface(src, count));
  }

  // ---------------------------------------------------------------------------
  // Titles one by one
  // ---------------------------------------------------------------------------

  /** The entry of a title that is not injecting names its own file or nothing. */
  lemma OwnLink(title: string, file: string)
    requires LinkName(file) && !Injecting(title)
    ensures RelativeLinks(Link(title, file)) == if Linkable(title) then [file] else []
  {
    hide Links, Link, FilesOf, LinkName, Linkable, Injecting;
    if Linkable(title) {
      LinkFound(title, file, "");
      assert Link(title, file) + "" == Link(title, file) && ")" + "" == ")";
      NothingLinked(")");
      assert [file] + [] == [file];
      FilesOfNames([file]);
    } else {
      LinkLost(title, file);
      FilesOfNames([]);
    }
  }

  /** The files of the concepts whose titles are linkable, in document order. */
  function Indexed(concepts: seq<Concept>): seq<string> {
    if concepts == [] then []
    else (if Linkable(concepts[0].title) then [concepts[0].fileName] else []) + Indexed(concepts[1..])
  }

  lemma {:induction false} EntriesByTitle(concepts: seq<Concept>)
    requires forall k :: 0 <= k < |concepts| ==> LinkName(concepts[k].fileName) && !Injecting(concepts[k].title)
    ensures EntryFiles(concepts) == Indexed(concepts)
  {
    hide RelativeLinks, Link, Linkable, LinkName, Injecting;
    if concepts != [] {
      OwnLink(concepts[0].title, concepts[0].fileName);
      EntriesByTitle(concepts[1..]);
    }
  }

  lemma {:induction false} AllIndexed(concepts: seq<Concept>)
    requires forall k :: 0 <= k < |concepts| ==> Linkable(concepts[k].title)
    ensures |Indexed(concepts)| == |concepts|
    ensures forall k :: 0 <= k < |concepts| ==> Indexed(concepts)[k] == concepts[k].fileName
  {
    hide Linkable;
    if concepts != [] { AllIndexed(concepts[1..]); }
  }

  lemma {:induction false} IndexedHolds(concepts: seq<Concept>, k: nat)
    requires k < |concepts| && Linkable(concepts[k].title)
    ensures concepts[k].fileName in Indexed(concepts)
  {
    if k > 0 { IndexedHolds(concepts[1..], k - 1); }
  }

  lemma {:induction false} IndexedIs(concepts: seq<Concept>, name: string) returns (k: nat)
    requires name in Indexed(concepts)
    ensures k < |concepts| && concepts[k].fileName == name && Linkable(concepts[k].title)
  {
    if Linkable(concepts[0].title) && concepts[0].fileName == name {
      k := 0;
    } else {
      var i := IndexedIs(concepts[1..], name);
      k := i + 1;
    }
  }

  /** An entry is part of the page whatever the others hold. */
  lemma {:induction false} EntryIsRead(concepts: seq<Concept>, k: nat, file: string)
    requires k < |concepts| && file in RelativeLinks(Link(concepts[k].title, concepts[k].fileName))
    ensures file in EntryFiles(concepts)
  {
    hide RelativeLinks;
    if k > 0 { EntryIsRead(concepts[1..], k - 1, file); }
  }
}
