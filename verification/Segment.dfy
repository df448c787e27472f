/**
 Splitting a document into units (backend/internal/convert/segment.go and splitParagraphs in
 extract.go:98-110), on bytes. The line patterns are parameters: any classification of lines
 will do.
 */
module Segmenting {
  import opened Wrappers
  import opened Splitting
  import opened Substance

  const NEWLINE: Byte := 10
  const RETURN: Byte := 13
  const EQUALS: Byte := 61

  datatype Mark = Mark(level: nat, title: Bytes)

  datatype Heading = Heading(level: nat, title: Bytes, line: nat)

  /** What the patterns say of a line: fenceRE, atxRE, setextRE, the plain-text conventions
      (none of them in markup style), and the title titleFromBody takes from a body. */
  datatype Rules = Rules(fence: Bytes -> bool, atx: Bytes -> Option<Mark>, underline: Bytes -> bool,
                         plain: Bytes -> Option<Mark>, titleOf: Bytes -> Bytes)

  datatype Origin = Preamble(lines: nat) | Section(level: nat, line: nat) | Whole | Block(index: nat, count: nat)

  datatype Unit = Unit(title: Bytes, body: Bytes, origin: Origin)

  // ---------------------------------------------------------------------------
  // Headings, line by line
  // ---------------------------------------------------------------------------

  /** Whether an odd number of fence lines comes before line i. */
  predicate Fenced(r: Rules, lines: seq<Bytes>, i: nat)
    requires i <= |lines|
  {
    i > 0 && (Fenced(r, lines, i - 1) != r.fence(lines[i - 1]))
  }

  /** A line headings are looked for on. */
  predicate Prose(r: Rules, lines: seq<Bytes>, i: nat)
    requires i < |lines|
  {
    !r.fence(lines[i]) && !Fenced(r, lines, i) && Trim(lines[i]) != []
  }

  /** A heading that line i declares itself. */
  function Direct(r: Rules, lines: seq<Bytes>, i: nat): Option<Mark>
    requires i < |lines|
  {
    if !Prose(r, lines, i) then None
    else if r.atx(lines[i]).Some? then r.atx(lines[i])
    else if i > 0 && r.underline(lines[i]) then None
    else r.plain(lines[i])
  }

  /** A heading that line i becomes because the next line underlines it. */
  function Underlined(r: Rules, lines: seq<Bytes>, i: nat): Option<Mark>
    requires i < |lines|
  {
    if i + 1 == |lines| || !Prose(r, lines, i + 1) || r.atx(lines[i + 1]).Some? || !r.underline(lines[i + 1])
    then None
    else
      var above := Trim(lines[i]);
      if above == [] || r.underline(above) || Direct(r, lines, i).Some? then None
      else Some(Mark(if Trim(lines[i + 1])[0] == EQUALS then 1 else 2, above))
  }

  function HeadingAt(r: Rules, lines: seq<Bytes>, i: nat): Option<Mark>
    requires i < |lines|
  {
    if Direct(r, lines, i).Some? then Direct(r, lines, i) else Underlined(r, lines, i)
  }

  function At(i: nat, mark: Option<Mark>): seq<Heading> {
    match mark case None => [] case Some(m) => [Heading(m.level, m.title, i)]
  }

  /** The headings among the first n lines. */
  function Headings(r: Rules, lines: seq<Bytes>, n: nat): seq<Heading>
    requires n <= |lines|
  {
    if n == 0 then [] else Headings(r, lines, n - 1) + At(n - 1, HeadingAt(r, lines, n - 1))
  }

  /** What has been collected when line n - 1 is done: it may still be underlined. */
  function Collected(r: Rules, lines: seq<Bytes>, n: nat): seq<Heading>
    requires n <= |lines|
  {
    if n == 0 then [] else Headings(r, lines, n - 1) + At(n - 1, Direct(r, lines, n - 1))
  }

  /** The single pass with its look-back finds exactly the headings the lines define. */
  method DetectHeadings(r: Rules, lines: seq<Bytes>) returns (headings: seq<Heading>)
    ensures headings == Headings(r, lines, |lines|)
  {
    hide Trim, Headings;
    headings := [];
    var inFence := false;
    for i := 0 to |lines|
      invariant inFence == Fenced(r, lines, i)
      invariant headings == Collected(r, lines, i)
    {
      CollectedStep(r, lines, i);
      var line := lines[i];
      if r.fence(line) {
        inFence := !inFence;
        continue;
      }
      if inFence || Trim(line) == [] { continue; }
      var atx := r.atx(line);
      if atx.Some? {
        headings := headings + [Heading(atx.value.level, atx.value.title, i)];
        continue;
      }
      if i > 0 && r.underline(line) {
        var above := Trim(lines[i - 1]);
        var alreadyRecorded := |headings| > 0 && headings[|headings| - 1].line == i - 1;
        if above == [] || r.underline(above) || alreadyRecorded { continue; }
        var level := if Trim(line)[0] == EQUALS then 1 else 2;
        headings := headings + [Heading(level, above, i - 1)];
        continue;
      }
      var plain := r.plain(line);
      if plain.Some? { headings := headings + [Heading(plain.value.level, plain.value.title, i)]; }
    }
    LastLine(r, lines);
  }

  lemma CollectedStep(r: Rules, lines: seq<Bytes>, i: nat)
    requires i < |lines|
    ensures Collected(r, lines, i + 1) == Headings(r, lines, i) + At(i, Direct(r, lines, i))
    ensures i == 0 ==> Headings(r, lines, i) == []
    ensures i > 0 && Underlined(r, lines, i - 1).None? ==> Headings(r, lines, i) == Collected(r, lines, i)
    ensures i > 0 && Underlined(r, lines, i - 1).Some? ==> (
      && Direct(r, lines, i - 1).None? && Direct(r, lines, i).None?
      && Headings(r, lines, i) == Collected(r, lines, i) + At(i - 1, Underlined(r, lines, i - 1)))
    ensures i > 0 ==> (Direct(r, lines, i - 1).Some? <==>
      |Collected(r, lines, i)| > 0 && Collected(r, lines, i)[|Collected(r, lines, i)| - 1].line == i - 1)
  {
    hide Trim, Fenced;
    if i > 0 { HeadingsBelow(r, lines, i - 1); }
  }

  lemma {:induction false} HeadingsBelow(r: Rules, lines: seq<Bytes>, n: nat)
    requires n <= |lines|
    ensures forall k :: 0 <= k < |Headings(r, lines, n)| ==> Headings(r, lines, n)[k].line < n
  {
    if n > 0 { HeadingsBelow(r, lines, n - 1); }
  }

  lemma LastLine(r: Rules, lines: seq<Bytes>)
    ensures Collected(r, lines, |lines|) == Headings(r, lines, |lines|)
  {
  }

  ghost predicate Increasing(hs: seq<Heading>) {
    forall j, k :: 0 <= j < k < |hs| ==> hs[j].line < hs[k].line
  }

  /** Headings come in line order, one to a line. */
  lemma {:induction false} HeadingsIncrease(r: Rules, lines: seq<Bytes>, n: nat)
    requires n <= |lines|
    ensures Increasing(Headings(r, lines, n))
  {
    hide HeadingAt;
    if n > 0 {
      HeadingsIncrease(r, lines, n - 1);
      HeadingsBelow(r, lines, n - 1);
    }
  }

  /** Every heading is what its line defines. */
  lemma {:induction false} HeadingsAreDefined(r: Rules, lines: seq<Bytes>, n: nat, k: nat)
    requires n <= |lines| && k < |Headings(r, lines, n)|
    ensures var h := Headings(r, lines, n)[k];
      h.line < n && HeadingAt(r, lines, h.line) == Some(Mark(h.level, h.title))
  {
    hide HeadingAt;
    if k < |Headings(r, lines, n - 1)| { HeadingsAreDefined(r, lines, n - 1, k); }
  }

  /** Every line that defines a heading has it collected. */
  lemma {:induction false} HeadingsAreComplete(r: Rules, lines: seq<Bytes>, n: nat, i: nat) returns (k: nat)
    requires i < n <= |lines| && HeadingAt(r, lines, i).Some?
    ensures k < |Headings(r, lines, n)| && Headings(r, lines, n)[k].line == i
  {
    hide HeadingAt;
    if i == n - 1 {
      k := |Headings(r, lines, n)| - 1;
    } else {
      k := HeadingsAreComplete(r, lines, n - 1, i);
    }
  }

  /** No heading lies strictly inside a fence: between an opening fence line and its closing
      one nothing is a heading, and a fence line is one only if it closes and is underlined. */
  lemma NoHeadingInFence(r: Rules, lines: seq<Bytes>, i: nat)
    requires i < |lines| && HeadingAt(r, lines, i).Some?
    ensures Fenced(r, lines, i) <==> r.fence(lines[i])
    ensures r.fence(lines[i]) ==> i + 1 < |lines| && r.underline(lines[i + 1]) && Trim(lines[i + 1]) != []
  {
    hide Trim;
  }

  /** Exactly when a fence line is a heading: it closes a fence, the next line is an underline and
      neither a fence nor an ATX heading, and the fence itself does not read as an underline. */
  lemma FenceHeadingExactly(r: Rules, lines: seq<Bytes>, i: nat)
    requires i < |lines| && r.fence(lines[i])
    ensures HeadingAt(r, lines, i).Some? <==>
      && Fenced(r, lines, i) && i + 1 < |lines|
      && Trim(lines[i + 1]) != [] && !r.fence(lines[i + 1]) && r.atx(lines[i + 1]).None? && r.underline(lines[i + 1])
      && Trim(lines[i]) != [] && !r.underline(Trim(lines[i]))
    ensures HeadingAt(r, lines, i).Some? ==>
      HeadingAt(r, lines, i) == Some(Mark(if Trim(lines[i + 1])[0] == EQUALS then 1 else 2, Trim(lines[i])))
  {
    hide Trim;
    assert Direct(r, lines, i) == None;
  }

  /** Which does happen: a closing fence with an underline right below it becomes a heading,
      titled with the fence itself. */
  lemma ClosingFenceBecomesHeading(r: Rules, fence: Bytes, code: Bytes, rule: Bytes)
    requires r.fence(fence) && !r.fence(code) && !r.fence(rule) && r.underline(rule)
    requires !r.underline(fence) && r.atx(rule).None? && Trim(fence) == fence && fence != [] && Trim(rule) == rule
    requires rule != [] && rule[0] != EQUALS
    ensures Headings(r, [fence, code, fence, rule], 4) == [Heading(2, fence, 2)]
  {
    hide Trim;
    var lines := [fence, code, fence, rule];
    assert !Fenced(r, lines, 0);
    assert Fenced(r, lines, 1);
    assert Fenced(r, lines, 2);
    assert !Fenced(r, lines, 3);
    assert !Prose(r, lines, 0) && !Prose(r, lines, 1) && !Prose(r, lines, 2) && Prose(r, lines, 3);
    assert Direct(r, lines, 3) == None && Direct(r, lines, 2) == None;
    assert HeadingAt(r, lines, 2) == Some(Mark(2, fence)) && HeadingAt(r, lines, 3) == None;
    assert HeadingAt(r, lines, 0) == None && HeadingAt(r, lines, 1) == None;
    ThreeLines(r, lines);
  }

  lemma ThreeLines(r: Rules, lines: seq<Bytes>)
    requires |lines| == 4
    requires HeadingAt(r, lines, 0) == None && HeadingAt(r, lines, 1) == None && HeadingAt(r, lines, 3) == None
    ensures Headings(r, lines, 4) == At(2, HeadingAt(r, lines, 2))
  {
    hide HeadingAt;
    assert Headings(r, lines, 1) == [];
    assert Headings(r, lines, 2) == [];
    assert Headings(r, lines, 3) == At(2, HeadingAt(r, lines, 2));
  }

  // ---------------------------------------------------------------------------
  // The level to split at
  // ---------------------------------------------------------------------------

  function Count(hs: seq<Heading>, level: nat): nat {
    if hs == [] then 0 else (if hs[0].level == level then 1 else 0) + Count(hs[1..], level)
  }

  predicate Shallowest(hs: seq<Heading>, level: nat) {
    && (exists k :: 0 <= k < |hs| && hs[k].level == level)
    && (forall k :: 0 <= k < |hs| ==> level <= hs[k].level)
  }

  /** The shallowest level, up to 6, that occurs more than once; failing that, the shallowest. */
  predicate SplitsAt(hs: seq<Heading>, level: nat) {
    if level <= 6 && Count(hs, level) > 1 then forall l: nat :: l < level ==> Count(hs, l) <= 1
    else Shallowest(hs, level) && forall l: nat :: l <= 6 ==> Count(hs, l) <= 1
  }

  lemma {:induction false} CountAppend(hs: seq<Heading>, h: Heading, level: nat)
    ensures Count(hs + [h], level) == Count(hs, level) + (if h.level == level then 1 else 0)
  {
    if hs != [] {
      CountAppend(hs[1..], h, level);
      assert (hs + [h])[1..] == hs[1..] + [h];
    }
  }

  lemma {:induction false} CountIsZero(hs: seq<Heading>, level: nat)
    ensures Count(hs, level) == 0 <==> forall k :: 0 <= k < |hs| ==> hs[k].level != level
  {
    if hs != [] { CountIsZero(hs[1..], level); }
  }

  function CountOf(counts: map<nat, nat>, level: nat): nat {
    if level in counts then counts[level] else 0
  }

  method CountLevels(hs: seq<Heading>) returns (counts: map<nat, nat>)
    ensures forall l: nat :: CountOf(counts, l) == Count(hs, l)
  {
    counts := map[];
    for i := 0 to |hs|
      invariant forall l: nat :: CountOf(counts, l) == Count(hs[..i], l)
    {
      assert hs[..i + 1] == hs[..i] + [hs[i]];
      var level := hs[i].level;
      var counts' := counts[level := CountOf(counts, level) + 1];
      forall l: nat ensures CountOf(counts', l) == Count(hs[..i + 1], l) {
        CountAppend(hs[..i], hs[i], l);
        assert CountOf(counts, l) == Count(hs[..i], l);
      }
      counts := counts';
    }
    assert hs[..|hs|] == hs;
  }

  method SplitLevel(hs: seq<Heading>) returns (level: nat)
    requires hs != []
    ensures SplitsAt(hs, level)
    ensures Count(hs, level) > 0
  {
    var counts := CountLevels(hs);
    var shallowest := hs[0].level;
    for i := 0 to |hs|
      invariant exists k :: 0 <= k < |hs| && hs[k].level == shallowest
      invariant forall k :: 0 <= k < i ==> shallowest <= hs[k].level
    {
      if hs[i].level < shallowest { shallowest := hs[i].level; }
    }
    forall l: nat ensures Count(hs, l) == 0 <==> forall k :: 0 <= k < |hs| ==> hs[k].level != l {
      CountIsZero(hs, l);
    }
    level := shallowest;
    while level <= 6
      invariant shallowest <= level
      invariant forall l: nat :: l < level && (l <= 6 || l < shallowest) ==> Count(hs, l) <= 1
      decreases 7 - level
    {
      if CountOf(counts, level) > 1 { return; }
      level := level + 1;
    }
    level := shallowest;
  }

  /** The level is determined by the headings alone. */
  lemma SplitsAtOneLevel(hs: seq<Heading>, l: nat, l': nat)
    requires SplitsAt(hs, l) && SplitsAt(hs, l')
    ensures l == l'
  {
  }

  // ---------------------------------------------------------------------------
  // Lines of a text
  // ---------------------------------------------------------------------------

  function FirstReturn(text: Bytes): (n: nat)
    ensures n <= |text| && (n < |text| ==> n + 2 <= |text| && text[n] == RETURN && text[n + 1] == NEWLINE)
  {
    if |text| < 2 then |text|
    else if text[0] == RETURN && text[1] == NEWLINE then 0
    else 1 + FirstReturn(text[1..])
  }

  /** strings.ReplaceAll(text, "\r\n", "\n"). */
  function Unix(text: Bytes): Bytes
    decreases |text|
  {
    var n := FirstReturn(text);
    if n == |text| then text else text[..n] + [NEWLINE] + Unix(text[n + 2..])
  }

  function LineEnd(text: Bytes): (n: nat)
    ensures n <= |text| && (n < |text| ==> text[n] == NEWLINE)
  {
    if text == [] || text[0] == NEWLINE then 0 else 1 + LineEnd(text[1..])
  }

  /** strings.Split(text, "\n"). */
  function Lines(text: Bytes): (lines: seq<Bytes>)
    ensures lines != []
    decreases |text|
  {
    var n := LineEnd(text);
    if n == |text| then [text] else [text[..n]] + Lines(text[n + 1..])
  }

  /** strings.Join(lines, "\n"). */
  function Join(lines: seq<Bytes>): Bytes {
    if lines == [] then []
    else if |lines| == 1 then lines[0]
    else lines[0] + [NEWLINE] + Join(lines[1..])
  }

  lemma {:induction false} LinesJoin(text: Bytes)
    ensures Join(Lines(text)) == text
    decreases |text|
  {
    hide Join, LineEnd;
    var n := LineEnd(text);
    if n == |text| {
      JoinOne(text);
    } else {
      var rest := Lines(text[n + 1..]);
      LinesJoin(text[n + 1..]);
      JoinHead(text[..n], rest);
      assert text == text[..n] + [NEWLINE] + text[n + 1..];
    }
  }

  lemma JoinOne(line: Bytes)
    ensures Join([line]) == line
  {
  }

  lemma JoinHead(line: Bytes, rest: seq<Bytes>)
    requires rest != []
    ensures Join([line] + rest) == line + [NEWLINE] + Join(rest)
  {
    assert ([line] + rest)[1..] == rest;
  }

  lemma {:induction false} SolidOfUnix(text: Bytes)
    ensures Solid(Unix(text)) == Solid(text)
    decreases |text|
  {
    hide Solid;
    var n := FirstReturn(text);
    if n < |text| {
      SolidOfUnix(text[n + 2..]);
      SolidAround(text[..n], [NEWLINE], Unix(text[n + 2..]));
      SolidAround(text[..n], [RETURN, NEWLINE], text[n + 2..]);
      assert text == text[..n] + [RETURN, NEWLINE] + text[n + 2..];
    }
  }

  lemma {:induction false} SolidOfJoin(a: seq<Bytes>, b: seq<Bytes>)
    ensures Solid(Join(a + b)) == Solid(Join(a)) + Solid(Join(b))
  {
    hide Solid;
    if a == [] {
      assert a + b == b && Solid([]) == [] by { SolidOfBlank([]); }
    } else if b == [] {
      assert a + b == a && Solid([]) == [] by { SolidOfBlank([]); }
    } else if |a| == 1 {
      assert (a + b)[1..] == b;
      SolidAround(a[0], [NEWLINE], Join(b));
    } else {
      SolidOfJoin(a[1..], b);
      assert (a + b)[1..] == a[1..] + b;
      SolidAround(a[0], [NEWLINE], Join(a[1..]));
      SolidAround(a[0], [NEWLINE], Join(a[1..] + b));
    }
  }

  // ---------------------------------------------------------------------------
  // Sections
  // ---------------------------------------------------------------------------

  function AtLevel(hs: seq<Heading>, level: nat): seq<Heading> {
    if hs == [] then [] else (if hs[0].level == level then [hs[0]] else []) + AtLevel(hs[1..], level)
  }

  /** Headings to split at: within the document, in line order. */
  predicate Splits(hs: seq<Heading>, count: nat) {
    && (forall k :: 0 <= k < |hs| ==> hs[k].line < count)
    && (forall k :: 0 <= k < |hs| - 1 ==> hs[k].line < hs[k + 1].line)
  }

  function End(splits: seq<Heading>, count: nat): nat
    requires splits != []
  {
    if |splits| > 1 then splits[1].line else count
  }

  function Sections(lines: seq<Bytes>, splits: seq<Heading>): seq<Unit>
    requires Splits(splits, |lines|)
  {
    if splits == [] then []
    else
      var h := splits[0];
      [Unit(h.title, Trim(Join(lines[h.line + 1..End(splits, |lines|)])), Section(h.level, h.line + 1))]
      + Sections(lines, splits[1..])
  }

  /** The lines from the first split on: each heading line, then the lines of its section. */
  function Covered(lines: seq<Bytes>, splits: seq<Heading>): seq<Bytes>
    requires Splits(splits, |lines|)
  {
    if splits == [] then []
    else
      var h := splits[0];
      [lines[h.line]] + lines[h.line + 1..End(splits, |lines|)] + Covered(lines, splits[1..])
  }

  /** Segmentation tiles the document: the preamble, then the heading line and the lines of
      each section, make up the lines of the document, each once and in order. */
  lemma {:induction false} SectionsTile(lines: seq<Bytes>, splits: seq<Heading>)
    requires splits != [] && Splits(splits, |lines|)
    ensures lines[..splits[0].line] + Covered(lines, splits) == lines
  {
    hide Covered;
    CoveredIsRest(lines, splits);
  }

  lemma {:induction false} CoveredIsRest(lines: seq<Bytes>, splits: seq<Heading>)
    requires splits != [] && Splits(splits, |lines|)
    ensures Covered(lines, splits) == lines[splits[0].line..]
  {
    var i, j := splits[0].line, End(splits, |lines|);
    if |splits| > 1 { CoveredIsRest(lines, splits[1..]); }
    assert Covered(lines, splits[1..]) == lines[j..];
    Regroup(lines, i, j);
  }

  lemma Regroup(lines: seq<Bytes>, i: nat, j: nat)
    requires i < j <= |lines|
    ensures [lines[i]] + lines[i + 1..j] + lines[j..] == lines[i..]
  {
  }

  /** What the sections hold: their heading lines and their bodies, without white space. */
  function SolidSections(lines: seq<Bytes>, splits: seq<Heading>): Bytes
    requires Splits(splits, |lines|)
  {
    if splits == [] then []
    else
      Solid(lines[splits[0].line]) + Solid(Sections(lines, splits)[0].body) + SolidSections(lines, splits[1..])
  }

  lemma {:induction false} SectionsKeepContent(lines: seq<Bytes>, splits: seq<Heading>)
    requires Splits(splits, |lines|)
    ensures Solid(Join(Covered(lines, splits))) == SolidSections(lines, splits)
  {
    hide Solid, Trim, Join;
    if splits != [] {
      var h := splits[0];
      SectionsKeepContent(lines, splits[1..]);
      OneSection(lines[h.line], lines[h.line + 1..End(splits, |lines|)], Covered(lines, splits[1..]));
    } else {
      NothingSolid();
    }
  }

  lemma NothingSolid()
    ensures Solid(Join([])) == []
  {
    SolidOfBlank([]);
  }

  lemma OneSection(line: Bytes, inner: seq<Bytes>, rest: seq<Bytes>)
    ensures Solid(Join([line] + inner + rest)) == Solid(line) + Solid(Trim(Join(inner))) + Solid(Join(rest))
  {
    hide Solid, Trim;
    TrimKeeps(Join(inner));
    SolidOfJoin([line] + inner, rest);
    SolidOfJoin([line], inner);
  }

  // ---------------------------------------------------------------------------
  // Documents without headings
  // ---------------------------------------------------------------------------

  function SpacesAndTabs(s: Bytes): (n: nat)
    ensures n <= |s| && forall k :: 0 <= k < n ==> Space1(s[k])
  {
    if s != [] && (s[0] == 32 || s[0] == 9) then 1 + SpacesAndTabs(s[1..]) else 0
  }

  function Newlines(s: Bytes): (n: nat)
    ensures n <= |s| && forall k :: 0 <= k < n ==> Space1(s[k])
  {
    if s != [] && s[0] == NEWLINE then 1 + Newlines(s[1..]) else 0
  }

  /** \r?\n at the start of s. */
  function LineBreak(s: Bytes): (n: nat)
    ensures n <= |s| && forall k :: 0 <= k < n ==> Space1(s[k])
  {
    if |s| >= 1 && s[0] == NEWLINE then 1
    else if |s| >= 2 && s[0] == RETURN && s[1] == NEWLINE then 2
    else 0
  }

  /** The length of the match of blankLineRE at the start of s, or 0. */
  function BlankLine(s: Bytes): (n: nat)
    ensures n <= |s| && forall k :: 0 <= k < n ==> Space1(s[k])
  {
    var first := LineBreak(s);
    if first == 0 then 0
    else
      var gap := first + SpacesAndTabs(s[first..]);
      var second := LineBreak(s[gap..]);
      if second == 0 then 0 else gap + second + Newlines(s[gap + second..])
  }

  function FirstBlank(s: Bytes): (n: nat)
    ensures n <= |s| && (n < |s| ==> BlankLine(s[n..]) > 0)
  {
    if s == [] || BlankLine(s) > 0 then 0 else 1 + FirstBlank(s[1..])
  }

  /** blankLineRE.Split(s, -1). */
  function Parts(s: Bytes): seq<Bytes>
    decreases |s|
  {
    var n := FirstBlank(s);
    if n == |s| then [s] else [s[..n]] + Parts(s[n + BlankLine(s[n..])..])
  }

  /** The blocks of one part: trimmed, left out when empty, cut when oversized. */
  function PartBlocks(part: Bytes): seq<Bytes> {
    if Trim(part) == [] then [] else Pieces(Trim(part))
  }

  function Blocks(parts: seq<Bytes>): seq<Bytes> {
    if parts == [] then [] else PartBlocks(parts[0]) + Blocks(parts[1..])
  }

  lemma {:induction false} BlocksAppend(parts: seq<Bytes>, last: Bytes)
    ensures Blocks(parts + [last]) == Blocks(parts) + PartBlocks(last)
  {
    hide PartBlocks;
    if parts == [] {
      assert [last][1..] == [];
    } else {
      BlocksAppend(parts[1..], last);
      assert (parts + [last])[1..] == parts[1..] + [last];
    }
  }

  method SplitParagraphs(s: Bytes) returns (out: seq<Bytes>)
    ensures out == Blocks(Parts(s))
  {
    hide Trim, Pieces, Parts;
    var parts := Parts(s);
    out := [];
    for i := 0 to |parts|
      invariant out == Blocks(parts[..i])
    {
      BlocksAppend(parts[..i], parts[i]);
      assert parts[..i + 1] == parts[..i] + [parts[i]];
      var p := Trim(parts[i]);
      if p == [] { continue; }
      var pieces := SplitOversizedBlock(p);
      out := out + pieces;
    }
    assert parts[..|parts|] == parts;
  }

  lemma {:induction false} SolidOfParts(s: Bytes)
    ensures SolidOf(Parts(s)) == Solid(s)
    decreases |s|
  {
    hide Solid, BlankLine, FirstBlank;
    var n := FirstBlank(s);
    if n < |s| {
      var end := n + BlankLine(s[n..]);
      SolidOfParts(s[end..]);
      SolidAround(s[..n], s[n..end], s[end..]);
      assert s == s[..n] + s[n..end] + s[end..];
      assert Parts(s)[1..] == Parts(s[end..]);
    } else {
      assert Parts(s)[1..] == [];
    }
  }

  lemma {:induction false} SolidOfBlocks(parts: seq<Bytes>)
    ensures SolidOf(Blocks(parts)) == SolidOf(parts)
  {
    hide Solid, Trim, Pieces;
    if parts != [] {
      SolidOfBlocks(parts[1..]);
      var p := Trim(parts[0]);
      TrimKeeps(parts[0]);
      TrimIsEmpty(parts[0]);
      SolidOfPieces(p);
      SolidOfConcat(PartBlocks(parts[0]), Blocks(parts[1..]));
    }
  }

  predicate Bounded(pieces: seq<Bytes>) {
    forall k :: 0 <= k < |pieces| ==> 1 <= |pieces[k]| <= MAX
  }

  lemma {:induction false} BlocksAreBounded(parts: seq<Bytes>)
    ensures Bounded(Blocks(parts))
  {
    hide Trim, Pieces;
    if parts != [] {
      BlocksAreBounded(parts[1..]);
      PiecesRestore(Trim(parts[0]));
    }
  }

  function BlockUnits(r: Rules, blocks: seq<Bytes>): seq<Unit> {
    seq(|blocks|, i requires 0 <= i < |blocks| => Unit(r.titleOf(blocks[i]), blocks[i], Block(i + 1, |blocks|)))
  }

  function Unstructured(r: Rules, text: Bytes): seq<Unit> {
    var trimmed := Trim(text);
    if trimmed == [] then []
    else if |trimmed| <= MAX then [Unit(r.titleOf(trimmed), trimmed, Whole)]
    else BlockUnits(r, Blocks(Parts(trimmed)))
  }

  /** What the segmenter adds to the log. */
  datatype Note = Structure(headings: nat, level: nat) | Brief | Paragraphs(blocks: nat)

  function UnstructuredNotes(text: Bytes): seq<Note> {
    var trimmed := Trim(text);
    if trimmed == [] then []
    else if |trimmed| <= MAX then [Brief]
    else [Paragraphs(|Blocks(Parts(trimmed))|)]
  }

  method SegmentWithoutHeadings(r: Rules, text: Bytes) returns (units: seq<Unit>, notes: seq<Note>)
    ensures units == Unstructured(r, text)
    ensures notes == UnstructuredNotes(text)
  {
    hide Trim, Blocks, Parts;
    var trimmed := Trim(text);
    if trimmed == [] { return [], []; }
    if |trimmed| <= MAX { return [Unit(r.titleOf(trimmed), trimmed, Whole)], [Brief]; }
    var blocks := SplitParagraphs(trimmed);
    units, notes := [], [Paragraphs(|blocks|)];
    for i := 0 to |blocks|
      invariant units == BlockUnits(r, blocks)[..i]
    {
      units := units + [Unit(r.titleOf(blocks[i]), blocks[i], Block(i + 1, |blocks|))];
    }
  }

  function Bodies(units: seq<Unit>): seq<Bytes> {
    seq(|units|, i requires 0 <= i < |units| => units[i].body)
  }

  /** Without headings nothing but white space is lost: the bodies, in order, hold the text of
      the document, none is empty, and none is longer than the limit. */
  lemma UnstructuredIsLossless(r: Rules, text: Bytes)
    ensures var units := Unstructured(r, text);
      SolidOf(Bodies(units)) == Solid(text) && Bounded(Bodies(units))
  {
    hide Solid, Trim, Blocks, Parts;
    var trimmed, units := Trim(text), Unstructured(r, text);
    TrimKeeps(text);
    TrimIsEmpty(text);
    if trimmed != [] && |trimmed| <= MAX {
      assert Bodies(units) == [trimmed] && Bodies(units)[1..] == [];
    } else if trimmed != [] {
      var blocks := Blocks(Parts(trimmed));
      assert Bodies(units) == blocks;
      SolidOfBlocks(Parts(trimmed));
      SolidOfParts(trimmed);
      BlocksAreBounded(Parts(trimmed));
    }
  }

  // ---------------------------------------------------------------------------
  // The whole document
  // ---------------------------------------------------------------------------

  function Min(a: nat, b: nat): nat {
    if a <= b then a else b
  }

  /** How much of a preamble its leading heading takes: an ATX line, a line and its underline,
      everything when that is all there is, or nothing. */
  function Peel(r: Rules, s: Bytes): (k: nat)
    ensures k <= |s|
  {
    var n := LineEnd(s);
    var rest := s[Min(n + 1, |s|)..];
    var m := LineEnd(rest);
    if r.atx(s[..n]).Some? then Min(n + 1, |s|)
    else if m < |rest| && r.underline(rest[..m]) then n + 1 + m + 1
    else if r.underline(rest) then |s|
    else 0
  }

  function PeeledTitle(r: Rules, s: Bytes): Bytes {
    var first := s[..LineEnd(s)];
    if r.atx(first).Some? then r.atx(first).value.title
    else if Peel(r, s) > 0 then Trim(first)
    else r.titleOf(s)
  }

  method SplitLeadingHeading(r: Rules, preamble: Bytes) returns (title: Bytes, body: Bytes)
    requires preamble != []
    ensures title == PeeledTitle(r, preamble) && body == Trim(preamble[Peel(r, preamble)..])
  {
    hide Trim;
    var n := LineEnd(preamble);
    var first, rest := preamble[..n], preamble[Min(n + 1, |preamble|)..];
    var atx := r.atx(first);
    if atx.Some? { return atx.value.title, Trim(rest); }
    var m := LineEnd(rest);
    if m < |rest| && r.underline(rest[..m]) {
      assert rest[m + 1..] == preamble[n + 1 + m + 1..];
      return Trim(first), Trim(rest[m + 1..]);
    }
    if r.underline(rest) {
      assert preamble[|preamble|..] == [];
      TrimNothing();
      return Trim(first), [];
    }
    assert preamble[0..] == preamble;
    return r.titleOf(preamble), Trim(preamble);
  }

  lemma TrimNothing()
    ensures Trim([]) == []
  {
  }

  /** At most one unit for what comes before the first section, and none for a lone title. */
  function PreambleUnits(r: Rules, before: seq<Bytes>): seq<Unit> {
    var preamble := Trim(Join(before));
    if preamble == [] then []
    else
      var body := Trim(preamble[Peel(r, preamble)..]);
      if body == [] then [] else [Unit(PeeledTitle(r, preamble), body, Preamble(|before|))]
  }

  function Structured(r: Rules, lines: seq<Bytes>, splits: seq<Heading>): seq<Unit>
    requires splits != [] && Splits(splits, |lines|)
  {
    PreambleUnits(r, lines[..splits[0].line]) + Sections(lines, splits)
  }

  lemma {:induction false} AtLevelIsPart(hs: seq<Heading>, level: nat)
    ensures forall h :: h in AtLevel(hs, level) ==> h in hs
    ensures AtLevel(hs, level) == [] <==> Count(hs, level) == 0
  {
    if hs != [] {
      AtLevelIsPart(hs[1..], level);
      assert forall h :: h in hs[1..] ==> h in hs;
    }
  }

  lemma {:induction false} AtLevelSplits(hs: seq<Heading>, level: nat, count: nat)
    requires Increasing(hs) && forall k :: 0 <= k < |hs| ==> hs[k].line < count
    ensures Splits(AtLevel(hs, level), count)
  {
    if hs != [] {
      AtLevelSplits(hs[1..], level, count);
      AtLevelIsPart(hs[1..], level);
      var rest := AtLevel(hs[1..], level);
      if rest != [] { LaterIsBelow(hs, rest[0]); }
    }
  }

  lemma LaterIsBelow(hs: seq<Heading>, h: Heading)
    requires Increasing(hs) && hs != [] && h in hs[1..]
    ensures hs[0].line < h.line
  {
    var k :| 0 <= k < |hs[1..]| && hs[1..][k] == h;
    assert hs[k + 1] == h;
  }

  method MakeSections(lines: seq<Bytes>, splits: seq<Heading>) returns (units: seq<Unit>)
    requires Splits(splits, |lines|)
    ensures units == Sections(lines, splits)
  {
    hide Trim, Join;
    units := [];
    for i := 0 to |splits|
      invariant Splits(splits[i..], |lines|)
      invariant units + Sections(lines, splits[i..]) == Sections(lines, splits)
    {
      var h := splits[i];
      var end := if i + 1 < |splits| then splits[i + 1].line else |lines|;
      SectionsStep(lines, splits[i..], end);
      assert splits[i..][1..] == splits[i + 1..];
      units := units + [Unit(h.title, Trim(Join(lines[h.line + 1..end])), Section(h.level, h.line + 1))];
    }
  }

  lemma SectionsStep(lines: seq<Bytes>, splits: seq<Heading>, end: nat)
    requires splits != [] && Splits(splits, |lines|) && end == End(splits, |lines|)
    ensures Splits(splits[1..], |lines|)
    ensures Sections(lines, splits)
      == [Unit(splits[0].title, Trim(Join(lines[splits[0].line + 1..end])), Section(splits[0].level, splits[0].line + 1))]
        + Sections(lines, splits[1..])
  {
    hide Trim, Join;
  }

  /** A document is split at the headings of one level when it has any, and is kept whole or
      cut by paragraphs when it has none; level is that level. */
  method SegmentText(r: Rules, text: Bytes) returns (units: seq<Unit>, notes: seq<Note>, ghost level: nat)
    ensures var lines := Lines(Unix(text)); var hs := Headings(r, lines, |lines|);
      if hs == [] then units == Unstructured(r, Unix(text)) && notes == UnstructuredNotes(Unix(text))
      else SplitsAt(hs, level) && AtLevel(hs, level) != [] && Splits(AtLevel(hs, level), |lines|)
           && units == Structured(r, lines, AtLevel(hs, level)) && notes == [Structure(|hs|, level)]
    ensures units == [] <==> Solid(text) == []
  {
    hide Trim, Join, Solid, Unix, Lines, Headings, SplitsAt, Splits, AtLevel, Sections, Unstructured, UnstructuredNotes, Peel;
    level := 0;
    var lines := Lines(Unix(text));
    var headings := DetectHeadings(r, lines);
    if |headings| == 0 {
      units, notes := SegmentWithoutHeadings(r, Unix(text));
      SolidOfUnix(text);
      UnstructuredIsEmpty(r, Unix(text));
      return;
    }
    var at := SplitLevel(headings);
    level, notes := at, [Structure(|headings|, at)];
    var splits := Select(headings, at);
    HeadingsIncrease(r, lines, |lines|);
    HeadingsBelow(r, lines, |lines|);
    AtLevelSplits(headings, at, |lines|);
    AtLevelIsPart(headings, at);
    InRange(splits, |lines|);
    units := [];
    var preamble := Trim(Join(lines[..splits[0].line]));
    if preamble != [] {
      var title, body := SplitLeadingHeading(r, preamble);
      if body != [] { units := [Unit(title, body, Preamble(splits[0].line))]; }
    }
    assert units == PreambleUnits(r, lines[..splits[0].line]);
    var sections := MakeSections(lines, splits);
    units := units + sections;
    HeadingsMeanText(r, text, headings);
    SectionsAreThere(lines, splits);
  }

  lemma InRange(splits: seq<Heading>, count: nat)
    requires splits != [] && Splits(splits, count)
    ensures splits[0].line < count
  {
  }

  lemma SectionsAreThere(lines: seq<Bytes>, splits: seq<Heading>)
    requires splits != [] && Splits(splits, |lines|)
    ensures Sections(lines, splits) != []
  {
    hide Trim, Join;
  }

  method Select(hs: seq<Heading>, level: nat) returns (splits: seq<Heading>)
    ensures splits == AtLevel(hs, level)
  {
    splits := [];
    for i := 0 to |hs|
      invariant splits + AtLevel(hs[i..], level) == AtLevel(hs, level)
    {
      assert hs[i..][1..] == hs[i + 1..];
      if hs[i].level == level { splits := splits + [hs[i]]; }
    }
  }

  lemma UnstructuredIsEmpty(r: Rules, text: Bytes)
    ensures Unstructured(r, text) == [] <==> Solid(text) == []
  {
    hide Solid, Trim, Blocks, Parts;
    UnstructuredIsLossless(r, text);
    TrimIsEmpty(text);
    assert Unstructured(r, text) == [] ==> Bodies(Unstructured(r, text)) == [];
  }

  lemma SolidOfLine(lines: seq<Bytes>, i: nat)
    requires i < |lines| && Solid(lines[i]) != []
    ensures Solid(Join(lines)) != []
  {
    hide Solid;
    SolidOfJoin(lines[..i], [lines[i]] + lines[i + 1..]);
    SolidOfJoin([lines[i]], lines[i + 1..]);
    assert lines == lines[..i] + ([lines[i]] + lines[i + 1..]);
    JoinOne(lines[i]);
  }

  lemma HeadingsMeanText(r: Rules, text: Bytes, hs: seq<Heading>)
    requires var lines := Lines(Unix(text)); hs == Headings(r, lines, |lines|) && hs != []
    ensures Solid(text) != []
  {
    hide Solid, Trim, Join, Unix, Lines, Headings;
    var lines := Lines(Unix(text));
    HeadingsAreDefined(r, lines, |lines|, 0);
    var i := hs[0].line;
    assert Trim(lines[i]) != [];
    TrimIsEmpty(lines[i]);
    SolidOfLine(lines, i);
    LinesJoin(Unix(text));
    SolidOfUnix(text);
  }

  /** With headings, the content of the document is that of the lines before the first split,
      of the split heading lines and of the bodies of the sections, in order. */
  lemma {:induction false} StructuredKeepsContent(r: Rules, text: Bytes, splits: seq<Heading>)
    requires splits != [] && Splits(splits, |Lines(Unix(text))|)
    ensures var lines := Lines(Unix(text));
      && lines[..splits[0].line] + Covered(lines, splits) == lines
      && Solid(text) == Solid(Join(lines[..splits[0].line])) + SolidSections(lines, splits)
  {
    hide Solid, Trim, Join, Unix, Lines, Covered, SolidSections;
    var lines := Lines(Unix(text));
    SectionsTile(lines, splits);
    SolidOfJoin(lines[..splits[0].line], Covered(lines, splits));
    SectionsKeepContent(lines, splits);
    LinesJoin(Unix(text));
    SolidOfUnix(text);
  }

  /** The preamble loses nothing but its leading heading: what the unit's body leaves out is a
      run of whole lines at the front. */
  lemma PreambleKeepsContent(r: Rules, before: seq<Bytes>)
    ensures var preamble := Trim(Join(before)); var k := Peel(r, preamble);
      && Solid(Join(before)) == Solid(preamble[..k]) + SolidOf(Bodies(PreambleUnits(r, before)))
      && (0 < k < |preamble| ==> preamble[k - 1] == NEWLINE)
  {
    hide Solid, Trim, Join, LineEnd;
    var preamble := Trim(Join(before));
    var k := Peel(r, preamble);
    TrimKeeps(Join(before));
    PeelIsLines(r, preamble);
    PeelIsApart(preamble, k);
    TrimKeeps(preamble[k..]);
    TrimIsEmpty(preamble[k..]);
    var units := PreambleUnits(r, before);
    if preamble != [] && units != [] { assert Bodies(units) == [units[0].body] && Bodies(units)[1..] == []; }
  }

  lemma PeelIsLines(r: Rules, s: Bytes)
    ensures var k := Peel(r, s); 0 < k < |s| ==> s[k - 1] == NEWLINE
  {
  }

  lemma PeelIsApart(s: Bytes, k: nat)
    requires k <= |s| && (0 < k < |s| ==> s[k - 1] == NEWLINE)
    ensures Solid(s) == Solid(s[..k]) + Solid(s[k..])
  {
    hide Solid, Apart;
    var a, b := s[..k], s[k..];
    Halves(s, k);
    AfterNewline(a, b);
    SolidConcat(a, b);
  }

  lemma Halves(s: Bytes, k: nat)
    requires k <= |s|
    ensures s[..k] + s[k..] == s
  {
  }

  lemma AfterNewline(a: Bytes, b: Bytes)
    requires a == [] || b == [] || a[|a| - 1] == NEWLINE
    ensures Apart(a, b)
  {
  }
}
