/**
 The segmenter said without its own scans: what the lines of a text are, when a line is a heading,
 what becomes of a preamble, and where a text without headings is cut
 (backend/internal/convert/segment.go:86-303, backend/internal/convert/extract.go:98-138).
 */
module SegmentLaws {
  import opened Wrappers
  import T = Text
  import opened Splitting
  import opened Substance
  import opened Segmenting

  // ---------------------------------------------------------------------------
  // Lines
  // ---------------------------------------------------------------------------

  ghost predicate LineTexts(lines: seq<Bytes>) {
    lines != [] && forall k :: 0 <= k < |lines| ==> NEWLINE !in lines[k]
  }

  lemma {:induction false} LineEndIs(line: Bytes, rest: Bytes)
    requires NEWLINE !in line && (rest != [] ==> rest[0] == NEWLINE)
    ensures LineEnd(line + rest) == |line|
  {
    if line == [] {
      assert line + rest == rest;
    } else {
      assert line[0] in line && (line + rest)[1..] == line[1..] + rest;
      LineEndIs(line[1..], rest);
    }
  }

  lemma {:induction false} LineEndHasNone(text: Bytes)
    ensures NEWLINE !in text[..LineEnd(text)]
  {
    if text != [] && text[0] != NEWLINE {
      LineEndHasNone(text[1..]);
      assert text[..LineEnd(text)] == [text[0]] + text[1..][..LineEnd(text[1..])];
    }
  }

  /** No line holds a line break, */
  lemma {:induction false} LinesAreLines(text: Bytes)
    ensures LineTexts(Lines(text))
    decreases |text|
  {
    hide LineEnd;
    var n := LineEnd(text);
    LineEndHasNone(text);
    if n == |text| {
      assert text[..n] == text;
    } else {
      LinesAreLines(text[n + 1..]);
    }
  }

  /** and the lines are the only such texts that, joined by line breaks, give the text back. */
  lemma {:induction false} LinesAreTheOnly(lines: seq<Bytes>)
    requires LineTexts(lines)
    ensures Lines(Join(lines)) == lines
  {
    hide LineEnd, Join, Lines;
    var first, rest := lines[0], lines[1..];
    assert lines == [first] + rest;
    if rest == [] {
      assert lines == [first];
      JoinOne(first);
      OneLine(first);
    } else {
      LinesAreTheOnly(rest);
      JoinHead(first, rest);
      MoreLines(first, Join(rest));
    }
  }

  lemma OneLine(first: Bytes)
    requires NEWLINE !in first
    ensures Lines(first) == [first]
  {
    LineEndIs(first, []);
    assert first + [] == first;
  }

  lemma MoreLines(first: Bytes, more: Bytes)
    requires NEWLINE !in first
    ensures Lines(first + [NEWLINE] + more) == [first] + Lines(more)
  {
    hide LineEnd;
    var text := first + [NEWLINE] + more;
    LineEndIs(first, [NEWLINE] + more);
    assert text == first + ([NEWLINE] + more);
    assert text[..|first|] == first && text[|first| + 1..] == more;
  }

  ghost predicate Paired(s: Bytes, i: nat) {
    i + 1 < |s| && s[i] == RETURN && s[i + 1] == NEWLINE
  }

  lemma {:induction false} FirstReturnIs(text: Bytes)
    ensures forall i: nat :: i < FirstReturn(text) ==> !Paired(text, i)
  {
    if |text| >= 2 && !(text[0] == RETURN && text[1] == NEWLINE) {
      FirstReturnIs(text[1..]);
      forall i: nat | i < FirstReturn(text) ensures !Paired(text, i) {
        if i > 0 { assert !Paired(text[1..], i - 1); }
      }
    }
  }

  /** parts, with a carriage return and a line break between them. */
  function JoinPairs(parts: seq<Bytes>): Bytes {
    if parts == [] then []
    else if |parts| == 1 then parts[0]
    else parts[0] + [RETURN, NEWLINE] + JoinPairs(parts[1..])
  }

  /** Replacing the line ends replaces every pair and touches nothing else: what stands between the
      pairs has none, and comes back as it was, with a line break for each pair. */
  lemma {:induction false} UnixIs(text: Bytes) returns (parts: seq<Bytes>)
    ensures parts != [] && JoinPairs(parts) == text && Join(parts) == Unix(text)
    ensures forall k, i: nat :: 0 <= k < |parts| ==> !Paired(parts[k], i)
    decreases |text|
  {
    hide FirstReturn, Join;
    var n := FirstReturn(text);
    FirstReturnIs(text);
    forall i: nat ensures !Paired(text[..n], i) { if i < n { assert !Paired(text, i); } }
    if n == |text| {
      parts := [text];
      assert text[..n] == text;
      JoinOne(text);
    } else {
      var rest := UnixIs(text[n + 2..]);
      parts := [text[..n]] + rest;
      assert parts[1..] == rest;
      JoinHead(text[..n], rest);
      assert text[..n] + [RETURN, NEWLINE] + text[n + 2..] == text;
    }
  }

  // ---------------------------------------------------------------------------
  // White space
  // ---------------------------------------------------------------------------

  /** Section 3 of RFC 3629. */
  function Utf8(c: char): Bytes {
    var n := c as int;
    if n < 0x80 then [n]
    else if n < 0x800 then [0xC0 + n / 64, 0x80 + n % 64]
    else if n < 0x10000 then [0xE0 + n / 4096, 0x80 + n / 64 % 64, 0x80 + n % 64]
    else [0xF0 + n / 262144, 0x80 + n / 4096 % 64, 0x80 + n / 64 % 64, 0x80 + n % 64]
  }

  /** The encoding of a character is one character long, as far as the cutter can tell. */
  lemma CharIsEncoded(c: char, rest: Bytes)
    ensures CharLength(Utf8(c) + rest) == |Utf8(c)|
  {
    var n := c as int;
    var e, s := Utf8(c), Utf8(c) + rest;
    assert forall k :: 0 <= k < |e| ==> s[k] == e[k];
    if n >= 0x10000 { Digits(n); }
  }

  lemma Digits(n: nat)
    requires 0x10000 <= n < 0x110000
    ensures n / 262144 == 0 ==> n / 4096 % 64 >= 16
    ensures n / 262144 == 4 ==> n / 4096 % 64 < 16
    ensures n / 262144 <= 4
  {
  }

  /** White space in bytes is white space in characters, encoded. */
  lemma SpaceIsEncoded(c: char, rest: Bytes)
    ensures SpaceAt(Utf8(c) + rest) == if T.IsSpace(c) then |Utf8(c)| else 0
  {
    var n := c as int;
    var e, s := Utf8(c), Utf8(c) + rest;
    assert forall k :: 0 <= k < |e| ==> s[k] == e[k];
    if 0x80 <= n < 0x800 {
      assert n == 64 * (n / 64) + n % 64;
    } else if 0x800 <= n < 0x10000 {
      assert n == 4096 * (n / 4096) + 64 * (n / 64 % 64) + n % 64 by { Digits64(n); }
    }
  }

  lemma Digits64(n: nat)
    ensures n == 4096 * (n / 4096) + 64 * (n / 64 % 64) + n % 64
  {
    assert n / 64 / 64 == n / 4096;
  }

  lemma {:induction false} TrimStartIs(s: Bytes) returns (i: nat)
    ensures i <= |s| && TrimStart(s) == s[i..] && Solid(s[..i]) == [] && SpaceAt(s[i..]) == 0
    decreases |s|
  {
    hide SpaceAt, Solid;
    var n := SpaceAt(s);
    if n > 0 {
      i := TrimStartIs(s[n..]);
      SpaceThen(s, n, i);
      assert s[n..][i..] == s[n + i..];
      i := n + i;
    } else {
      i := 0;
      assert s[0..] == s && s[..0] == [];
      SolidNothing();
    }
  }

  lemma SolidNothing()
    ensures Solid([]) == []
  {
  }

  lemma SpaceThen(s: Bytes, n: nat, i: nat)
    requires n == SpaceAt(s) > 0 && i <= |s| - n && Solid(s[n..][..i]) == []
    ensures Solid(s[..n + i]) == []
  {
    var t := s[..n + i];
    assert SpaceAt(t) == n by {
      assert t[0] == s[0] && (n >= 2 ==> t[1] == s[1]) && (n == 3 ==> t[2] == s[2]);
    }
    assert t[n..] == s[n..][..i];
  }

  lemma {:induction false} TrimEndIs(s: Bytes) returns (j: nat)
    ensures j <= |s| && TrimEnd(s) == s[..j] && Solid(s[j..]) == [] && SpaceEnd(s[..j]) == 0
    decreases |s|
  {
    hide SpaceEnd, Solid, SpaceAt;
    var n := SpaceEnd(s);
    if n > 0 {
      var t := s[..|s| - n];
      j := TrimEndIs(t);
      assert t[..j] == s[..j];
      EndThen(s, n, j);
    } else {
      j := |s|;
      assert s[..j] == s && s[j..] == [];
      SolidNothing();
    }
  }

  lemma EndThen(s: Bytes, n: nat, j: nat)
    requires n == SpaceEnd(s) > 0 && j <= |s| - n && Solid(s[..|s| - n][j..]) == []
    ensures Solid(s[j..]) == []
  {
    hide Solid;
    var a, b := s[..|s| - n][j..], s[|s| - n..];
    assert s[j..] == a + b;
    SolidConcat(a, b);
    SolidOne(b);
  }

  lemma SolidOne(b: Bytes)
    requires SpaceAt(b) == |b|
    ensures Solid(b) == []
  {
    assert b != [] ==> b[SpaceAt(b)..] == [];
  }

  /** Trimming takes the white space off both ends, all of it, and nothing else. */
  lemma TrimIs(s: Bytes) returns (i: nat, j: nat)
    ensures i <= j <= |s| && Trim(s) == s[i..j] && Solid(s[..i]) == [] && Solid(s[j..]) == []
    ensures SpaceAt(s[i..j]) == 0 && SpaceEnd(s[i..j]) == 0
  {
    hide SpaceAt, SpaceEnd, Solid;
    i := TrimStartIs(s);
    var n := TrimEndIs(s[i..]);
    j := i + n;
    assert s[i..][..n] == s[i..j] && s[i..][n..] == s[j..];
    NoSpaceBefore(s[i..], n);
  }

  lemma NoSpaceBefore(s: Bytes, n: nat)
    requires n <= |s| && SpaceAt(s) == 0
    ensures SpaceAt(s[..n]) == 0
  {
  }

  /** Text that begins with no white space anywhere is all substance. */
  lemma {:induction false} SolidIs(s: Bytes)
    requires forall k :: 0 <= k < |s| ==> SpaceAt(s[k..]) == 0
    ensures Solid(s) == s
  {
    hide SpaceAt;
    if s != [] {
      assert s[0..] == s;
      forall k | 0 <= k < |s| - 1 ensures SpaceAt(s[1..][k..]) == 0 { assert s[1..][k..] == s[k + 1..]; }
      SolidIs(s[1..]);
    }
  }

  /** White space at the end is what would be white space at the start. */
  lemma SpaceEndIs(s: Bytes, n: nat)
    requires 0 < n <= |s| && SpaceAt(s[|s| - n..]) == n
    ensures SpaceEnd(s) > 0
  {
  }

  // ---------------------------------------------------------------------------
  // Headings
  // ---------------------------------------------------------------------------

  function FencesBefore(r: Rules, lines: seq<Bytes>, i: nat): nat
    requires i <= |lines|
  {
    if i == 0 then 0 else FencesBefore(r, lines, i - 1) + (if r.fence(lines[i - 1]) then 1 else 0)
  }

  /** Inside a fence: an odd number of fence lines before. */
  lemma {:induction false} FencedIsOdd(r: Rules, lines: seq<Bytes>, i: nat)
    requires i <= |lines|
    ensures Fenced(r, lines, i) <==> FencesBefore(r, lines, i) % 2 == 1
  {
    if i > 0 { FencedIsOdd(r, lines, i - 1); }
  }

  /** A line on which a heading or an underline is looked for. */
  ghost predicate Open(r: Rules, lines: seq<Bytes>, i: nat) {
    i < |lines| && !r.fence(lines[i]) && FencesBefore(r, lines, i) % 2 == 0 && Trim(lines[i]) != []
  }

  /** The heading a line says it is: by its marks, or, when it is not an underline below another line,
      by the conventions of plain text. */
  ghost predicate Declared(r: Rules, lines: seq<Bytes>, i: nat, m: Mark) {
    Open(r, lines, i) &&
    (r.atx(lines[i]) == Some(m)
     || (r.atx(lines[i]).None? && !(i > 0 && r.underline(lines[i])) && r.plain(lines[i]) == Some(m)))
  }

  /** The heading a line is by the underline below it: of level 1 by equals signs, of level 2 by
      dashes. */
  ghost predicate MadeByUnderline(r: Rules, lines: seq<Bytes>, i: nat, m: Mark) {
    && i + 1 < |lines| && Open(r, lines, i + 1) && r.atx(lines[i + 1]).None? && r.underline(lines[i + 1])
    && Trim(lines[i]) != [] && !r.underline(Trim(lines[i]))
    && m.title == Trim(lines[i]) && m.level == if Trim(lines[i + 1])[0] == EQUALS then 1 else 2
  }

  /** A line is a heading exactly when it says so, or when it does not and is underlined. */
  lemma HeadingExactly(r: Rules, lines: seq<Bytes>, i: nat, m: Mark)
    requires i < |lines|
    ensures HeadingAt(r, lines, i) == Some(m) <==>
      Declared(r, lines, i, m)
      || ((forall m' :: !Declared(r, lines, i, m')) && MadeByUnderline(r, lines, i, m))
  {
    hide Trim, Fenced, FencesBefore;
    FencedIsOdd(r, lines, i);
    DirectExactly(r, lines, i);
    if i + 1 < |lines| { FencedIsOdd(r, lines, i + 1); }
  }

  lemma DirectExactly(r: Rules, lines: seq<Bytes>, i: nat)
    requires i < |lines|
    ensures forall m :: Direct(r, lines, i) == Some(m) <==> Declared(r, lines, i, m)
    ensures Direct(r, lines, i).Some? <==> exists m :: Declared(r, lines, i, m)
  {
    hide Trim, Fenced, FencesBefore;
    FencedIsOdd(r, lines, i);
    if Direct(r, lines, i).Some? { assert Declared(r, lines, i, Direct(r, lines, i).value); }
  }

  // ---------------------------------------------------------------------------
  // Levels and sections
  // ---------------------------------------------------------------------------

  ghost predicate Twice(hs: seq<Heading>, level: nat) {
    exists j, k :: 0 <= j < k < |hs| && hs[j].level == level && hs[k].level == level
  }

  /** The split level: the shallowest up to 6 that two headings have, or, when no two headings share
      such a level, the shallowest of all. */
  lemma SplitLevelIs(hs: seq<Heading>, level: nat)
    requires SplitsAt(hs, level)
    ensures level <= 6 && Twice(hs, level) ==> forall l: nat :: l < level ==> !Twice(hs, l)
    ensures !(level <= 6 && Twice(hs, level)) ==>
      && (forall l: nat :: l <= 6 ==> !Twice(hs, l))
      && (exists k :: 0 <= k < |hs| && hs[k].level == level) && (forall k :: 0 <= k < |hs| ==> level <= hs[k].level)
  {
    hide Count;
    forall l: nat ensures Count(hs, l) > 1 <==> Twice(hs, l) { CountIsTwo(hs, l); }
  }

  /** A level occurs more than once exactly when two headings have it. */
  lemma {:induction false} CountIsTwo(hs: seq<Heading>, level: nat)
    ensures Count(hs, level) > 1 <==> Twice(hs, level)
  {
    if hs != [] {
      CountIsTwo(hs[1..], level);
      CountIsZero(hs[1..], level);
      if Count(hs, level) > 1 {
        if hs[0].level == level {
          var k :| 0 <= k < |hs[1..]| && hs[1..][k].level == level;
          assert hs[0].level == level && hs[k + 1].level == level;
        } else {
          var j, k :| 0 <= j < k < |hs[1..]| && hs[1..][j].level == level && hs[1..][k].level == level;
          assert hs[j + 1].level == level && hs[k + 1].level == level;
        }
      }
      if j, k :| 0 <= j < k < |hs| && hs[j].level == level && hs[k].level == level {
        assert hs[1..][k - 1].level == level;
        if j > 0 { assert hs[1..][j - 1].level == level; }
      }
    }
  }

  lemma AtLevelOne(h: Heading, level: nat)
    ensures AtLevel([h], level) == if h.level == level then [h] else []
  {
    assert [h][1..] == [];
  }

  /** The headings of one level, in order and each once: those before a place, then those after it. */
  lemma {:induction false} AtLevelConcat(a: seq<Heading>, b: seq<Heading>, level: nat)
    ensures AtLevel(a + b, level) == AtLevel(a, level) + AtLevel(b, level)
  {
    if a == [] {
      assert a + b == b;
    } else {
      assert (a + b)[0] == a[0] && (a + b)[1..] == a[1..] + b;
      AtLevelConcat(a[1..], b, level);
      var first := if a[0].level == level then [a[0]] else [];
      assert first + (AtLevel(a[1..], level) + AtLevel(b, level)) == (first + AtLevel(a[1..], level)) + AtLevel(b, level);
    }
  }

  /** One section for each split: titled by its heading, holding the lines up to the next one. */
  lemma {:induction false} SectionIs(lines: seq<Bytes>, splits: seq<Heading>, k: nat)
    requires Splits(splits, |lines|) && k < |splits|
    ensures |Sections(lines, splits)| == |splits|
    ensures var h := splits[k]; var end := if k + 1 < |splits| then splits[k + 1].line else |lines|;
      h.line < end <= |lines| && Sections(lines, splits)[k]
        == Unit(h.title, Trim(Join(lines[h.line + 1..end])), Section(h.level, h.line + 1))
  {
    hide Trim, Join;
    if k > 0 {
      SectionIs(lines, splits[1..], k - 1);
    } else if |splits| > 1 {
      SectionIs(lines, splits[1..], 0);
    }
  }

  // ---------------------------------------------------------------------------
  // The preamble
  // ---------------------------------------------------------------------------

  /** s is one line, or two, or a line and the rest after it. */
  lemma FirstLineIs(first: Bytes, rest: Bytes)
    requires NEWLINE !in first
    ensures LineEnd(first) == |first| && LineEnd(first + [NEWLINE] + rest) == |first|
    ensures var s := first + [NEWLINE] + rest; s[..|first|] == first && s[|first| + 1..] == rest
  {
    LineEndIs(first, []);
    assert first + [] == first;
    LineEndIs(first, [NEWLINE] + rest);
    assert first + [NEWLINE] + rest == first + ([NEWLINE] + rest);
  }

  /** A marked heading on the first line is taken off and gives the title. */
  lemma PeelsMarked(r: Rules, first: Bytes, rest: Bytes)
    requires NEWLINE !in first && r.atx(first).Some?
    ensures PeeledTitle(r, first) == r.atx(first).value.title && first[Peel(r, first)..] == []
    ensures var s := first + [NEWLINE] + rest;
      PeeledTitle(r, s) == r.atx(first).value.title && s[Peel(r, s)..] == rest
  {
    FirstLineIs(first, rest);
    assert first[..|first|] == first;
  }

  /** A first line with an underline below it is taken off with it and gives the title. */
  lemma PeelsUnderlined(r: Rules, first: Bytes, below: Bytes, rest: Bytes)
    requires NEWLINE !in first && NEWLINE !in below && r.atx(first).None? && r.underline(below)
    ensures var s := first + [NEWLINE] + (below + [NEWLINE] + rest);
      PeeledTitle(r, s) == Trim(first) && s[Peel(r, s)..] == rest
    ensures var s := first + [NEWLINE] + below; PeeledTitle(r, s) == Trim(first) && s[Peel(r, s)..] == []
  {
    hide Trim;
    var more := below + [NEWLINE] + rest;
    FirstLineIs(first, more);
    FirstLineIs(first, below);
    FirstLineIs(below, rest);
    var s := first + [NEWLINE] + more;
    assert s[|first| + 1 + |below| + 1..] == more[|below| + 1..];
  }

  /** Nothing else is taken off, and the title comes from the text itself. */
  lemma PeelsNothing(r: Rules, s: Bytes)
    requires Peel(r, s) == 0 && r.atx(s[..LineEnd(s)]).None?
    ensures PeeledTitle(r, s) == r.titleOf(s) && s[Peel(r, s)..] == s
  {
    hide Peel;
    assert s[0..] == s;
  }

  /** Nothing is, unless the first line is marked or something below it is an underline. */
  lemma PeelsOnlyHeadings(r: Rules, first: Bytes, rest: Bytes)
    requires NEWLINE !in first && r.atx(first).None?
    requires !r.underline(rest) && forall n :: 0 <= n < |rest| && rest[n] == NEWLINE && NEWLINE !in rest[..n] ==> !r.underline(rest[..n])
    ensures Peel(r, first + [NEWLINE] + rest) == 0
    ensures !r.underline([]) ==> Peel(r, first) == 0
  {
    FirstLineIs(first, rest);
    LineEndHasNone(rest);
    assert first[..|first|] == first && first[|first|..] == [];
  }

  /** What comes before the first split is one unit, titled and cut as above, unless nothing is left
      of it; the sections follow. */
  lemma StructuredAre(r: Rules, lines: seq<Bytes>, splits: seq<Heading>)
    requires splits != [] && Splits(splits, |lines|)
    ensures var units := Structured(r, lines, splits); var n := splits[0].line;
      var preamble := Trim(Join(lines[..n])); var body := Trim(preamble[Peel(r, preamble)..]);
      units == (if preamble == [] || body == [] then [] else [Unit(PeeledTitle(r, preamble), body, Preamble(n))])
        + Sections(lines, splits)
  {
    hide Trim, Join, Peel, PeeledTitle, Sections;
    assert |lines[..splits[0].line]| == splits[0].line;
  }

  // ---------------------------------------------------------------------------
  // Blank lines
  // ---------------------------------------------------------------------------

  predicate Break(b: Bytes) {
    b == [NEWLINE] || b == [RETURN, NEWLINE]
  }

  /** \r?\n[ \t]*\r?\n+, and no line break after it. */
  ghost predicate BlankMatch(m: Bytes, rest: Bytes, one: Bytes, gap: Bytes, two: Bytes, more: Bytes) {
    && m == one + (gap + (two + more)) && Break(one) && Break(two)
    && (forall k :: 0 <= k < |gap| ==> gap[k] == 32 || gap[k] == 9)
    && (forall k :: 0 <= k < |more| ==> more[k] == NEWLINE)
    && (rest != [] ==> rest[0] != NEWLINE)
  }

  lemma BreakIs(b: Bytes, rest: Bytes)
    requires Break(b)
    ensures LineBreak(b + rest) == |b|
  {
  }

  lemma {:induction false} SpacesIs(gap: Bytes, rest: Bytes)
    requires (forall k :: 0 <= k < |gap| ==> gap[k] == 32 || gap[k] == 9) && (rest != [] ==> rest[0] != 32 && rest[0] != 9)
    ensures SpacesAndTabs(gap + rest) == |gap|
  {
    if gap == [] {
      assert gap + rest == rest;
    } else {
      assert (gap + rest)[1..] == gap[1..] + rest;
      SpacesIs(gap[1..], rest);
    }
  }

  lemma {:induction false} NewlinesIs(more: Bytes, rest: Bytes)
    requires (forall k :: 0 <= k < |more| ==> more[k] == NEWLINE) && (rest != [] ==> rest[0] != NEWLINE)
    ensures Newlines(more + rest) == |more|
  {
    if more == [] {
      assert more + rest == rest;
    } else {
      assert (more + rest)[1..] == more[1..] + rest;
      NewlinesIs(more[1..], rest);
    }
  }

  /** A text begins with a blank line of length |m| if it is m and what follows. */
  lemma BlankLineIs(m: Bytes, rest: Bytes, one: Bytes, gap: Bytes, two: Bytes, more: Bytes)
    requires BlankMatch(m, rest, one, gap, two, more)
    ensures BlankLine(m + rest) == |m| > 0
  {
    hide LineBreak, SpacesAndTabs, Newlines;
    var s := m + rest;
    var after1, after2, after3 := gap + (two + (more + rest)), two + (more + rest), more + rest;
    assert s == one + after1 && s[|one|..] == after1;
    assert after1[|gap|..] == after2 && s[|one| + |gap|..] == after2;
    assert after2[|two|..] == after3 && s[|one| + |gap| + |two|..] == after3;
    BreakIs(one, after1);
    SpacesIs(gap, after2);
    BreakIs(two, after3);
    NewlinesIs(more, rest);
  }

  lemma {:induction false} SpacesStop(s: Bytes)
    ensures var n := SpacesAndTabs(s);
      (forall k :: 0 <= k < n ==> s[k] == 32 || s[k] == 9) && (n < |s| ==> s[n] != 32 && s[n] != 9)
  {
    if s != [] && (s[0] == 32 || s[0] == 9) {
      SpacesStop(s[1..]);
      assert forall k :: 0 < k < SpacesAndTabs(s) ==> s[k] == s[1..][k - 1];
    }
  }

  lemma {:induction false} NewlinesStop(s: Bytes)
    ensures var n := Newlines(s); (forall k :: 0 <= k < n ==> s[k] == NEWLINE) && (n < |s| ==> s[n] != NEWLINE)
  {
    if s != [] && s[0] == NEWLINE {
      NewlinesStop(s[1..]);
      assert forall k :: 0 < k < Newlines(s) ==> s[k] == s[1..][k - 1];
    }
  }

  lemma BreakFound(s: Bytes)
    requires LineBreak(s) > 0
    ensures Break(s[..LineBreak(s)])
  {
  }

  /** And only then. */
  lemma BlankLineMatches(s: Bytes) returns (one: Bytes, gap: Bytes, two: Bytes, more: Bytes)
    requires BlankLine(s) > 0
    ensures BlankMatch(s[..BlankLine(s)], s[BlankLine(s)..], one, gap, two, more)
  {
    hide LineBreak, SpacesAndTabs, Newlines;
    var a := LineBreak(s);
    var b := a + SpacesAndTabs(s[a..]);
    var c := b + LineBreak(s[b..]);
    var d := c + Newlines(s[c..]);
    assert d == BlankLine(s);
    hide BlankLine;
    BreakFound(s);
    SpacesStop(s[a..]);
    BreakFound(s[b..]);
    NewlinesStop(s[c..]);
    one, gap, two, more := s[..a], s[a..b], s[b..c], s[c..d];
    Quarters(s, a, b, c, d);
  }

  lemma Quarters(s: Bytes, a: nat, b: nat, c: nat, d: nat)
    requires a <= b <= c <= d <= |s|
    ensures s[..d] == s[..a] + (s[a..b] + (s[b..c] + s[c..d]))
    ensures s[b..][..c - b] == s[b..c]
    ensures forall k :: 0 <= k < b - a ==> s[a..b][k] == s[a..][k]
    ensures forall k :: 0 <= k < d - c ==> s[c..d][k] == s[c..][k]
    ensures d < |s| ==> s[c..][d - c] == s[d..][0]
  {
  }

  lemma {:induction false} FirstBlankIs(s: Bytes, i: nat)
    requires i < FirstBlank(s)
    ensures i < |s| && BlankLine(s[i..]) == 0
  {
    hide BlankLine;
    assert s[0..] == s;
    if i > 0 {
      FirstBlankIs(s[1..], i - 1);
      assert s[1..][i - 1..] == s[i..];
    }
  }

  /** The parts of a text are what its blank lines leave: the part before the first one, which no
      earlier position begins, and the parts of what follows it. */
  lemma PartsAre(s: Bytes) returns (n: nat)
    ensures n <= |s| && forall i: nat :: i < n ==> BlankLine(s[i..]) == 0
    ensures n == |s| ==> Parts(s) == [s]
    ensures n < |s| ==> BlankLine(s[n..]) > 0 && Parts(s) == [s[..n]] + Parts(s[n + BlankLine(s[n..])..])
  {
    hide BlankLine;
    n := FirstBlank(s);
    forall i: nat | i < n ensures BlankLine(s[i..]) == 0 { FirstBlankIs(s, i); }
  }

  // ---------------------------------------------------------------------------
  // Texts without headings
  // ---------------------------------------------------------------------------

  /** Each part is trimmed, left out when nothing is left, and cut when it is too long. */
  lemma BlocksOf(part: Bytes, parts: seq<Bytes>)
    ensures Blocks([]) == []
    ensures Blocks(parts + [part]) == Blocks(parts) + (if Trim(part) == [] then [] else Pieces(Trim(part)))
  {
    BlocksAppend(parts, part);
  }

  /** The first piece of a text that is too long ends before the last character that starts within
      the limit, or at the limit if none does. */
  lemma FirstPiece(s: Bytes) returns (cut: nat)
    ensures |s| <= MAX ==> Pieces(s) == [s]
    ensures |s| > MAX ==> 0 < cut <= MAX && Pieces(s) == [s[..cut]] + Pieces(s[cut..])
    ensures |s| > MAX ==> forall k :: cut < k <= MAX ==> Continues(s[k])
    ensures |s| > MAX && Continues(s[cut]) ==> cut == MAX && forall k :: 0 < k <= MAX ==> Continues(s[k])
  {
    cut := if |s| > MAX then Cut(s) else 0;
  }

  /** A short text is one unit; a long one is a unit for each block, numbered in order. */
  lemma UnstructuredAre(r: Rules, text: Bytes)
    ensures Trim(text) == [] ==> Unstructured(r, text) == [] && UnstructuredNotes(text) == []
    ensures 0 < |Trim(text)| <= 20_000 ==>
      Unstructured(r, text) == [Unit(r.titleOf(Trim(text)), Trim(text), Whole)] && UnstructuredNotes(text) == [Brief]
    ensures |Trim(text)| > 20_000 ==> (var blocks := Blocks(Parts(Trim(text))); var units := Unstructured(r, text);
      |units| == |blocks| && UnstructuredNotes(text) == [Paragraphs(|blocks|)]
      && forall k :: 0 <= k < |blocks| ==> units[k] == Unit(r.titleOf(blocks[k]), blocks[k], Block(k + 1, |blocks|)))
  {
    hide Trim, Blocks, Parts;
  }
}
