/**
 The link extractor of the validator (backend/internal/bundle/validate.go:400-432) and the
 escaping that is meant to survive it (backend/internal/bundle/bundle.go:442-446).

 The pattern `\[(?:\\.|[^\]\\])*\]\(([^)\s]+)` is deterministic: a backslash always takes the
 next character along, which may not be a line break, and the first bracket left over closes
 the text. So matching it is one scan to the right.
 */
module LinkScan {
  import opened Wrappers
  import opened Text

  // ---------------------------------------------------------------------------
  // The scanner
  // ---------------------------------------------------------------------------

  /** What follows the bracket that closes a link text, for s just after the opening one. */
  function AfterText(s: string): (r: Option<string>)
    ensures r.Some? ==> |r.value| < |s|
  {
    if s == "" then None
    else if s[0] == ']' then Some(s[1..])
    else if s[0] != '\\' then AfterText(s[1..])
    else if |s| == 1 || s[1] == '\n' then None
    else AfterText(s[2..])
  }

  predicate TargetChar(c: char) {
    c != ')' && c != ' ' && c != '\t' && c != '\n' && c != '\U{0C}' && c != '\r'
  }

  function TargetLength(s: string): (n: nat)
    ensures n <= |s|
  {
    if s != "" && TargetChar(s[0]) then 1 + TargetLength(s[1..]) else 0
  }

  datatype Match = Match(target: string, rest: string)

  /** The match that starts at the first character, if there is one. */
  function LinkAt(s: string): (m: Option<Match>)
    ensures m.Some? ==> |m.value.rest| < |s|
  {
    if s == "" || s[0] != '[' then None
    else match AfterText(s[1..])
      case None => None
      case Some(r) =>
        if r == "" || r[0] != '(' then None
        else
          var n := TargetLength(r[1..]);
          if n == 0 then None else Some(Match(r[1..][..n], r[1..][n..]))
  }

  /** The targets of all matches, leftmost first and not overlapping. */
  function Links(s: string): seq<string>
    decreases |s|
  {
    if s == "" then []
    else match LinkAt(s)
      case Some(m) => [m.target] + Links(m.rest)
      case None => Links(s[1..])
  }

  predicate Outside(target: string) {
    || Contains(target, "://") || StartsWith(target, "#")
    || StartsWith(target, "/") || StartsWith(target, "mailto:")
  }

  /** The file a link names, or nothing when it leads out of the bundle. */
  function FileOf(target: string): string {
    if Outside(target) then "" else TrimPrefix(Before(target, '#'), "./")
  }

  function FilesOf(targets: seq<string>): seq<string> {
    if targets == [] then []
    else
      var file := FileOf(targets[0]);
      (if file == "" then [] else [file]) + FilesOf(targets[1..])
  }

  function RelativeLinks(content: string): seq<string> {
    FilesOf(Links(content))
  }

  method ExtractRelativeLinks(content: string) returns (targets: seq<string>)
    ensures targets == RelativeLinks(content)
  {
    targets := [];
    var found := Links(content);
    for i := 0 to |found|
      invariant targets == FilesOf(found[..i])
    {
      FilesAppend(found[..i], found[i]);
      assert found[..i + 1] == found[..i] + [found[i]];
      var target := found[i];
      if Outside(target) { continue; }
      target := TrimPrefix(Before(target, '#'), "./");
      if target != "" { targets := targets + [target]; }
    }
    assert found[..|found|] == found;
  }

  lemma {:induction false} FilesAppend(targets: seq<string>, last: string)
    ensures FilesOf(targets + [last]) == FilesOf(targets) + (if FileOf(last) == "" then [] else [FileOf(last)])
  {
    if targets != [] {
      FilesAppend(targets[1..], last);
      assert (targets + [last])[1..] == targets[1..] + [last];
    }
  }

  // ---------------------------------------------------------------------------
  // Escaping
  // ---------------------------------------------------------------------------

  function EscapeBracket(c: char): string {
    if c == '[' then "\\[" else if c == ']' then "\\]" else [c]
  }

  function EscapeLinkText(s: string): string {
    Mapped(s, EscapeBracket)
  }

  /** How the scanner gets through an escaped title: to the closing bracket; past it, because a
      last backslash escapes it; not through at all, because of a backslash before a line break;
      or to a bracket of the title's own that a backslash set free, before rest. */
  datatype Passage = Ends | Swallows | Breaks | Frees(rest: string)

  function Through(title: string): (p: Passage)
    ensures p.Frees? ==> |p.rest| < |title|
  {
    if title == "" then Ends
    else if title[0] != '\\' then Through(title[1..])
    else if |title| == 1 then Swallows
    else if title[1] == '\n' then Breaks
    else if title[1] == ']' then Frees(title[2..])
    else Through(title[2..])
  }

  /** After a freed bracket: a parenthesis and something to link to. The brackets that follow the
      title are something. */
  predicate Injects(rest: string) {
    rest != "" && rest[0] == '(' && (|rest| == 1 || TargetChar(rest[1]))
  }

  /** The scan finds no link that starts here, and goes on inside the title. */
  predicate MovesOn(title: string) {
    var p := Through(title);
    p.Breaks? || (p.Frees? && !Injects(p.rest))
  }

  function AfterFirstOpen(title: string): string
    requires '[' in title
    ensures |AfterFirstOpen(title)| < |title|
  {
    if title[0] == '[' then title[1..] else AfterFirstOpen(title[1..])
  }

  /** Where the scan finally enters the title: after the first opening bracket, that of the link
      or one of its own, from which it does not move on. */
  function Entry(title: string): string
    decreases |title|
  {
    if MovesOn(title) && '[' in title then Entry(AfterFirstOpen(title)) else title
  }

  /** The three kinds of titles: those whose link is found, those that write a link of their own
      in its place, and those whose link is not found. */
  predicate Linkable(title: string) {
    Through(Entry(title)).Ends?
  }

  predicate Injecting(title: string) {
    Through(Entry(title)).Frees? && Injects(Through(Entry(title)).rest)
  }

  predicate Silent(title: string) {
    !Linkable(title) && !Injecting(title)
  }

  // ---------------------------------------------------------------------------
  // One character at a time
  // ---------------------------------------------------------------------------

  /** A stretch of text inside a link that the scanner gets through, pair by pair. */
  predicate Open(x: string) {
    if x == "" then true
    else if x[0] == ']' then false
    else if x[0] != '\\' then Open(x[1..])
    else |x| >= 2 && x[1] != '\n' && Open(x[2..])
  }

  lemma {:induction false} OpenIsPassed(x: string, s: string)
    requires Open(x)
    ensures AfterText(x + s) == AfterText(s)
  {
    if x == "" {
      assert x + s == s;
    } else if x[0] != '\\' {
      OpenIsPassed(x[1..], s);
      AfterOne(x, s);
    } else {
      OpenIsPassed(x[2..], s);
      AfterTwo(x, s);
    }
  }

  lemma AfterOne(x: string, s: string)
    requires x != "" && x[0] != ']' && x[0] != '\\'
    ensures AfterText(x + s) == AfterText(x[1..] + s)
  {
    assert (x + s)[1..] == x[1..] + s;
  }

  lemma AfterTwo(x: string, s: string)
    requires |x| >= 2 && x[0] == '\\' && x[1] != '\n'
    ensures AfterText(x + s) == AfterText(x[2..] + s)
  {
    assert (x + s)[2..] == x[2..] + s;
  }

  lemma {:induction false} OpenAppends(x: string, y: string)
    requires Open(x) && Open(y)
    ensures Open(x + y)
  {
    if x == "" {
      assert x + y == y;
    } else if x[0] != '\\' {
      OpenAppends(x[1..], y);
      assert (x + y)[1..] == x[1..] + y;
    } else {
      OpenAppends(x[2..], y);
      assert (x + y)[2..] == x[2..] + y;
    }
  }

  lemma {:induction false} OpenWithout(x: string)
    requires ']' !in x && '\\' !in x
    ensures Open(x)
  {
    if x != "" { OpenWithout(x[1..]); }
  }

  /** Text with no opening bracket holds no link. */
  lemma {:induction false} LinksSkip(p: string, s: string)
    requires '[' !in p
    ensures Links(p + s) == Links(s)
  {
    if p == "" {
      assert p + s == s;
    } else {
      assert p[0] in p && (p + s)[1..] == p[1..] + s;
      LinksSkip(p[1..], s);
    }
  }

  // ---------------------------------------------------------------------------
  // Escaped titles
  // ---------------------------------------------------------------------------

  /** Escaping one more character: what the scanner does with it before going on. */
  lemma EscapeStep(title: string, s: string)
    requires title != "" && title[0] != '\\'
    ensures var e := EscapeLinkText(title) + s;
      && e[|EscapeBracket(title[0])|..] == EscapeLinkText(title[1..]) + s
      && EscapeBracket(title[0]) == e[..|EscapeBracket(title[0])|]
  {
  }

  lemma EscapePair(title: string, s: string)
    requires |title| >= 2 && title[0] == '\\' && title[1] != ']'
    ensures var e := EscapeLinkText(title) + s;
      && e != "" && e[0] == '\\'
      && (title[1] != '[' ==> |e| >= 2 && e[1] == title[1] && e[2..] == EscapeLinkText(title[2..]) + s)
      && (title[1] == '[' ==> |e| >= 3 && e[1] == '\\' && e[2] == '[' && e[3..] == EscapeLinkText(title[2..]) + s)
  {
    assert EscapeLinkText(title) == "\\" + EscapeLinkText(title[1..]);
    assert EscapeLinkText(title[1..]) == EscapeBracket(title[1]) + EscapeLinkText(title[1..][1..]);
    assert title[1..][1..] == title[2..];
  }

  lemma EscapeFreed(title: string, s: string)
    requires |title| >= 2 && title[0] == '\\' && title[1] == ']'
    ensures var e := EscapeLinkText(title) + s;
      |e| >= 3 && e[0] == '\\' && e[1] == '\\' && e[2] == ']' && e[3..] == EscapeLinkText(title[2..]) + s
  {
    assert EscapeLinkText(title) == "\\" + EscapeLinkText(title[1..]);
    assert EscapeLinkText(title[1..]) == "\\]" + EscapeLinkText(title[1..][1..]);
    assert title[1..][1..] == title[2..];
  }

  /** A title that keeps its own brackets in is got through up to its end. */
  lemma {:induction false} OpenEscaped(title: string, s: string)
    requires Through(title).Ends? ==> Open(s)
    requires Through(title).Swallows? ==> s != "" && s[0] != '\n' && Open(s[1..])
    requires Through(title).Ends? || Through(title).Swallows?
    ensures Open(EscapeLinkText(title) + s)
  {
    if title == "" {
      assert EscapeLinkText(title) + s == s;
    } else if title[0] != '\\' {
      OpenEscaped(title[1..], s);
      OpenHead(title, s);
    } else if |title| == 1 {
      OpenLast(title, s);
    } else {
      OpenEscaped(title[2..], s);
      OpenPair(title, s);
    }
  }

  lemma OpenHead(title: string, s: string)
    requires title != "" && title[0] != '\\' && Open(EscapeLinkText(title[1..]) + s)
    ensures Open(EscapeLinkText(title) + s)
  {
    EscapeStep(title, s);
  }

  lemma OpenLast(title: string, s: string)
    requires title == "\\" && s != "" && s[0] != '\n' && Open(s[1..])
    ensures Open(EscapeLinkText(title) + s)
  {
    var e := EscapeLinkText(title) + s;
    assert EscapeLinkText(title[1..]) == "" && e == "\\" + s && e[2..] == s[1..];
  }

  lemma OpenPair(title: string, s: string)
    requires |title| >= 2 && title[0] == '\\' && title[1] != '\n' && title[1] != ']'
    requires Open(EscapeLinkText(title[2..]) + s)
    ensures Open(EscapeLinkText(title) + s)
  {
    var e := EscapeLinkText(title) + s;
    EscapePair(title, s);
    if title[1] == '[' { assert Open(e[2..]) by { assert e[2..][1..] == e[3..]; } }
  }

  /** Where the other titles leave the link text. */
  lemma {:induction false} LeftEscaped(title: string, s: string)
    requires Through(title).Breaks? || Through(title).Frees?
    ensures Through(title).Breaks? ==> AfterText(EscapeLinkText(title) + s) == None
    ensures Through(title).Frees? ==>
      AfterText(EscapeLinkText(title) + s) == Some(EscapeLinkText(Through(title).rest) + s)
  {
    var e := EscapeLinkText(title) + s;
    if title[0] != '\\' {
      LeftEscaped(title[1..], s);
      EscapeStep(title, s);
      if title[0] == '[' || title[0] == ']' { assert e[..2] == EscapeBracket(title[0]); } else { assert e[..1] == [title[0]]; }
    } else if title[1] == '\n' {
      EscapePair(title, s);
    } else if title[1] == ']' {
      EscapeFreed(title, s);
      assert e[2..][1..] == e[3..];
    } else {
      LeftEscaped(title[2..], s);
      EscapePair(title, s);
      if title[1] == '[' { assert AfterText(e[2..]) == AfterText(e[3..]) by { assert e[2..][1..] == e[3..]; } }
    }
  }

  /** Outside a link, the escaped title is skipped up to its first opening bracket. */
  lemma {:induction false} LinksAdvance(title: string, s: string)
    ensures '[' !in title ==> Links(EscapeLinkText(title) + s) == Links(s)
    ensures '[' in title ==>
      Links(EscapeLinkText(title) + s) == Links("[" + (EscapeLinkText(AfterFirstOpen(title)) + s))
  {
    hide Links;
    if title == "" {
      assert EscapeLinkText(title) + s == s;
    } else {
      var rest := EscapeLinkText(title[1..]) + s;
      EscapeHead(title, s);
      if title[0] == '[' {
        LinksSkip("\\", "[" + rest);
      } else {
        LinksAdvance(title[1..], s);
        LinksSkip(EscapeBracket(title[0]), rest);
      }
    }
  }

  lemma EscapeHead(title: string, s: string)
    requires title != ""
    ensures EscapeLinkText(title) + s == EscapeBracket(title[0]) + (EscapeLinkText(title[1..]) + s)
    ensures title[0] == '[' ==> EscapeLinkText(title) + s == "\\" + ("[" + (EscapeLinkText(title[1..]) + s))
  {
  }

  // ---------------------------------------------------------------------------
  // Taking text apart
  // ---------------------------------------------------------------------------

  /** Inside an open link text, everything before the next opening bracket is lost: the scan
      from there on finds the same links. Without one there are none. */
  lemma {:induction false} LinksInside(x: string, s: string)
    requires Open(x) && (s != "" ==> s[0] == '[')
    ensures Links(x + s) == Links(s)
    decreases |x|, 0
  {
    var y := x + s;
    if x == "" {
      assert y == s;
    } else if x[0] == '[' {
      assert y == "[" + (x[1..] + s);
      LinksOpenedBy(x[1..], s);
    } else if x[0] != '\\' {
      assert y[1..] == x[1..] + s;
      LinksInside(x[1..], s);
    } else {
      assert y[1..] == [x[1]] + (x[2..] + s);
      LinksInside(x[2..], s);
      if x[1] == '[' {
        LinksOpenedBy(x[2..], s);
      } else {
        assert y[1..][1..] == x[2..] + s;
      }
    }
  }

  lemma {:induction false} LinksOpenedBy(x: string, s: string)
    requires Open(x) && (s != "" ==> s[0] == '[')
    ensures Links("[" + (x + s)) == Links(s)
    decreases |x|, 1
  {
    var y := "[" + (x + s);
    assert y[1..] == x + s;
    OpenIsPassed(x, s);
    assert s != "" ==> AfterText(s) == AfterText(s[1..]);
    assert LinkAt(y) == LinkAt(s);
    if LinkAt(s) == None { LinksInside(x, s); LinksMiss(y); }
  }

  lemma LinksMiss(s: string)
    requires s != "" && LinkAt(s) == None
    ensures Links(s) == Links(s[1..])
  {
  }

  lemma LinksStep(s: string, found: seq<string>)
    requires s != "" && found == Links(s)
    ensures LinkAt(s).Some? ==> found == [LinkAt(s).value.target] + Links(LinkAt(s).value.rest)
    ensures LinkAt(s).None? ==> found == Links(s[1..])
  {
  }

  /** No bracket and no backslash. */
  predicate GapText(gap: string) {
    '[' !in gap && ']' !in gap && '\\' !in gap
  }

  /** Text whose last character no link target runs past. */
  predicate Settled(p: string) {
    p != "" ==> !TargetChar(p[|p| - 1])
  }

  /** Where a link text that starts with q has got to at the end of q. */
  datatype Exit = Closed(rest: string) | Inside | Stuck

  function Leave(q: string): (e: Exit)
    ensures e.Closed? ==> |e.rest| < |q|
  {
    if q == "" then Inside
    else if q[0] == ']' then Closed(q[1..])
    else if q[0] != '\\' then Leave(q[1..])
    else if |q| == 1 || q[1] == '\n' then Stuck
    else Leave(q[2..])
  }

  lemma {:induction false} LeaveIsAfterText(q: string, s: string)
    requires Settled(q)
    ensures AfterText(q + s) == match Leave(q)
      case Closed(rest) => Some(rest + s)
      case Inside => AfterText(s)
      case Stuck => None
  {
    if q == "" {
      assert q + s == s;
    } else if q[0] == ']' {
      assert (q + s)[1..] == q[1..] + s;
    } else if q[0] != '\\' {
      LeaveIsAfterText(q[1..], s);
      AfterOne(q, s);
    } else if q[1] != '\n' {
      LeaveIsAfterText(q[2..], s);
      AfterTwo(q, s);
    }
  }

  lemma {:induction false} InsideIsOpen(q: string)
    requires Leave(q).Inside?
    ensures Open(q)
  {
    if q != "" { InsideIsOpen(if q[0] == '\\' then q[2..] else q[1..]); }
  }

  lemma {:induction false} ClosedIsSettled(q: string)
    requires Settled(q) && Leave(q).Closed?
    ensures Settled(Leave(q).rest) && Leave(q).rest != ""
  {
    if q[0] != ']' { ClosedIsSettled(if q[0] == '\\' then q[2..] else q[1..]); }
  }

  lemma {:induction false} TargetStops(q: string, s: string)
    requires q != "" && Settled(q)
    ensures TargetLength(q + s) == TargetLength(q) < |q|
  {
    assert (q + s)[1..] == q[1..] + s;
    if TargetChar(q[0]) { TargetStops(q[1..], s); }
  }

  /** What the extractor does at the first character of p: no match there, a link text that is
      still open at the end of p, or a match settled inside p. */
  datatype Step = Miss | Reach | Hit(target: string, rest: string)

  function StepIn(p: string): (step: Step)
    requires p != ""
    ensures step.Hit? ==> |step.rest| < |p|
  {
    if p[0] != '[' then Miss
    else match Leave(p[1..])
      case Stuck => Miss
      case Inside => Reach
      case Closed(q) =>
        if q == "" || q[0] != '(' || TargetLength(q[1..]) == 0 then Miss
        else Hit(q[1..][..TargetLength(q[1..])], q[1..][TargetLength(q[1..])..])
  }

  lemma ClosedInside(q: string, s: string)
    requires |q| >= 2 && Settled(q)
    ensures (q + s)[0] == q[0] && (q + s)[1..] == q[1..] + s
    ensures var n := TargetLength(q[1..]);
      && TargetLength(q[1..] + s) == n < |q[1..]| && Settled(q[1..][n..])
      && (q[1..] + s)[..n] == q[1..][..n] && (q[1..] + s)[n..] == q[1..][n..] + s
  {
    assert (q + s)[1..] == q[1..] + s;
    TargetStops(q[1..], s);
  }

  /** What follows a settled text does not change what is settled in it. */
  lemma StepHolds(p: string, s: string)
    requires p != "" && Settled(p)
    ensures !StepIn(p).Reach? ==> LinkAt(p + s) == match StepIn(p)
      case Hit(target, rest) => Some(Match(target, rest + s))
      case _ => None
    ensures StepIn(p).Hit? ==> Settled(StepIn(p).rest)
  {
    hide AfterText, TargetLength;
    assert (p + s)[1..] == p[1..] + s;
    if p[0] == '[' {
      LeaveIsAfterText(p[1..], s);
      match Leave(p[1..])
      case Stuck =>
      case Inside =>
      case Closed(q) =>
        ClosedIsSettled(p[1..]);
        ClosedHolds(q, s);
    }
  }

  lemma ClosedHolds(q: string, s: string)
    requires q != "" && Settled(q)
    ensures (q + s)[0] == q[0]
    ensures q[0] == '(' ==> (
      var n := TargetLength(q[1..]);
      && (q + s)[1..] == q[1..] + s && TargetLength(q[1..] + s) == n && Settled(q[1..][n..])
      && (q[1..] + s)[..n] == q[1..][..n] && (q[1..] + s)[n..] == q[1..][n..] + s)
  {
    if q[0] == '(' {
      assert |q| >= 2;
      ClosedInside(q, s);
    }
  }

  lemma MissSplits(p: string, s: string)
    requires p != "" && Settled(p) && StepIn(p).Miss?
    ensures Links(p + s) == Links(p[1..] + s) && Links(p) == Links(p[1..]) && Settled(p[1..])
  {
    hide Links, LinkAt, StepIn;
    StepHolds(p, s);
    StepHolds(p, "");
    assert p + "" == p && (p + s)[1..] == p[1..] + s;
    LinksStep(p + s, Links(p + s));
    LinksStep(p, Links(p));
  }

  lemma HitSplits(p: string, s: string)
    requires p != "" && Settled(p) && StepIn(p).Hit?
    ensures Links(p + s) == [StepIn(p).target] + Links(StepIn(p).rest + s)
    ensures Links(p) == [StepIn(p).target] + Links(StepIn(p).rest) && Settled(StepIn(p).rest)
  {
    hide Links, LinkAt, StepIn;
    StepHolds(p, s);
    StepHolds(p, "");
    assert p + "" == p && StepIn(p).rest + "" == StepIn(p).rest;
    LinksStep(p + s, Links(p + s));
    LinksStep(p, Links(p));
  }

  /** Links never cross from a settled text into an opening bracket or into text without
      brackets: each part yields its own. */
  lemma {:induction false} LinksSplit(p: string, s: string)
    requires Settled(p) && (s == "" || s[0] == '[' || GapText(s))
    ensures Links(p + s) == Links(p) + Links(s)
    decreases |p|
  {
    hide Links, LinkAt, StepIn, Settled, GapText;
    if p == "" {
      assert p + s == s;
      NoLinks();
    } else {
      match StepIn(p)
      case Miss =>
        MissSplits(p, s);
        LinksSplit(p[1..], s);
      case Reach =>
        ReachSplits(p, s);
      case Hit(target, rest) =>
        HitSplits(p, s);
        LinksSplit(rest, s);
    }
  }

  lemma RelativeLinksSplit(p: string, s: string)
    requires Settled(p) && (s == "" || s[0] == '[' || GapText(s))
    ensures RelativeLinks(p + s) == RelativeLinks(p) + RelativeLinks(s)
  {
    LinksSplit(p, s);
    FilesOfConcat(Links(p), Links(s));
  }

  lemma {:induction false} FilesOfConcat(a: seq<string>, b: seq<string>)
    ensures FilesOf(a + b) == FilesOf(a) + FilesOf(b)
  {
    hide FileOf;
    if a == [] {
      assert a + b == b;
    } else {
      var first := if FileOf(a[0]) == "" then [] else [FileOf(a[0])];
      assert (a + b)[0] == a[0] && (a + b)[1..] == a[1..] + b;
      FilesOfConcat(a[1..], b);
      assert first + (FilesOf(a[1..]) + FilesOf(b)) == (first + FilesOf(a[1..])) + FilesOf(b);
    }
  }

  /** Text without an opening bracket links to nothing. */
  lemma NothingLinked(s: string)
    requires '[' !in s
    ensures Links(s) == [] && RelativeLinks(s) == []
  {
    LinksSkip(s, "");
    assert s + "" == s;
  }

  /** Nor does text in which no parenthesis follows a closing bracket. */
  lemma {:induction false} NoTargetNoLinks(s: string)
    requires !Contains(s, "](")
    ensures Links(s) == []
    decreases |s|
  {
    hide AfterText;
    if s != "" {
      if s[0] == '[' && AfterText(s[1..]).Some? { AfterTextFollows(s[1..]); }
      assert LinkAt(s) == None;
      NoTargetNoLinks(s[1..]);
    }
  }

  lemma BothBrackets(s: string)
    ensures |s| > 1 && s[0] == ']' && s[1] == '(' ==> StartsWith(s, "](")
  {
    if |s| > 1 && s[0] == ']' && s[1] == '(' { assert s[..2] == "]("; }
  }

  lemma {:induction false} AfterTextFollows(s: string)
    requires AfterText(s).Some? && !Contains(s, "](")
    ensures AfterText(s).value != "" ==> AfterText(s).value[0] != '('
  {
    if s[0] == ']' {
      BothBrackets(s);
    } else if s[0] != '\\' {
      AfterTextFollows(s[1..]);
    } else {
      assert s[1..][1..] == s[2..];
      AfterTextFollows(s[2..]);
    }
  }

  lemma NoLinks()
    ensures Links("") == []
  {
  }

  lemma ReachSplits(p: string, s: string)
    requires p != "" && StepIn(p).Reach? && (s == "" || s[0] == '[' || GapText(s))
    ensures Links(p + s) == Links(s) && Links(p) == []
  {
    hide Links, AfterText;
    var x := p[1..];
    InsideIsOpen(x);
    NoLinks();
    LinksOpenedBy(x, "");
    assert p == "[" + (x + "");
    assert p + s == "[" + (x + s);
    if s == "" || s[0] == '[' {
      LinksOpenedBy(x, s);
    } else {
      OpenWithout(s);
      OpenAppends(x, s);
      LinksOpenedBy(x + s, "");
      assert (x + s) + "" == x + s;
      LinksSkip(s, "");
      assert s + "" == s;
    }
  }

  // ---------------------------------------------------------------------------
  // What a generated link yields
  // ---------------------------------------------------------------------------

  /** A name a link can carry: no bracket, no space, nothing FileOf would take off. */
  predicate LinkName(file: string) {
    && file != "" && (forall c :: c in file ==> TargetChar(c) && NameChar(c))
    && file[0] != '.'
  }

  predicate NameChar(c: char) {
    'a' <= c <= 'z' || '0' <= c <= '9' || c == '-' || c == '.'
  }

  function Link(title: string, file: string): string {
    "[" + EscapeLinkText(title) + "](" + file + ")"
  }

  lemma {:induction false} TargetIs(file: string, s: string)
    requires (forall c :: c in file ==> TargetChar(c)) && s != "" && !TargetChar(s[0])
    ensures TargetLength(file + s) == |file|
  {
    if file == "" {
      assert file + s == s;
    } else {
      assert file[0] in file && (file + s)[1..] == file[1..] + s;
      TargetIs(file[1..], s);
    }
  }

  /** From the opening bracket of a link on: an escaped title, then tail. */
  function Opened(title: string, tail: string): string {
    "[" + (EscapeLinkText(title) + tail)
  }

  function Tail(file: string, s: string): string {
    "](" + (file + (")" + s))
  }

  lemma LinkShape(title: string, file: string, s: string)
    ensures Link(title, file) + s == Opened(title, Tail(file, s))
  {
  }

  lemma TailIsTarget(file: string, s: string)
    requires LinkName(file)
    ensures var r := file + (")" + s); TargetLength(r) == |file| && r[..|file|] == file && r[|file|..] == ")" + s
  {
    TargetIs(file, ")" + s);
  }

  lemma TargetAfter(file: string, s: string)
    requires LinkName(file)
    ensures var r := "(" + (file + (")" + s));
      r[1..] == file + (")" + s) && TargetLength(r[1..]) == |file|
      && r[1..][..|file|] == file && r[1..][|file|..] == ")" + s
  {
    var r := "(" + (file + (")" + s));
    assert r[1..] == file + (")" + s);
    TailIsTarget(file, s);
  }

  lemma AfterTail(x: string, file: string, s: string)
    requires Open(x)
    ensures AfterText(x + Tail(file, s)) == Some("(" + (file + (")" + s)))
  {
    OpenIsPassed(x, Tail(file, s));
    assert Tail(file, s)[1..] == "(" + (file + (")" + s));
  }

  lemma LinkAtIs(x: string, file: string, s: string)
    requires Open(x) && LinkName(file)
    ensures LinkAt("[" + (x + Tail(file, s))) == Some(Match(file, ")" + s))
  {
    var y := "[" + (x + Tail(file, s));
    assert y[1..] == x + Tail(file, s);
    AfterTail(x, file, s);
    TargetAfter(file, s);
  }

  lemma {:induction false} EntryStays(title: string)
    ensures MovesOn(Entry(title)) ==> '[' !in Entry(title)
    decreases |title|
  {
    if MovesOn(title) && '[' in title { EntryStays(AfterFirstOpen(title)); }
  }

  lemma FreedMisses(rest: string, s: string)
    requires !Injects(rest) && s != "" && s[0] == ']'
    ensures var r := EscapeLinkText(rest) + s; r != "" && (r[0] != '(' || TargetLength(r[1..]) == 0)
  {
    var r := EscapeLinkText(rest) + s;
    if rest != "" && rest[0] == '(' {
      assert rest[1] != '[' && rest[1] != ']';
      assert EscapeLinkText(rest) == "(" + EscapeLinkText(rest[1..]);
      assert EscapeLinkText(rest[1..]) == [rest[1]] + EscapeLinkText(rest[1..][1..]);
      assert r[1..][0] == rest[1];
    }
  }

  lemma NoMatchHere(title: string, s: string)
    requires MovesOn(title) && s != "" && s[0] == ']'
    ensures LinkAt(Opened(title, s)) == None
  {
    hide TargetLength;
    assert Opened(title, s)[1..] == EscapeLinkText(title) + s;
    LeftEscaped(title, s);
    if Through(title).Frees? { FreedMisses(Through(title).rest, s); }
  }

  /** Where the scan moves on, it does so to the first opening bracket of the title, if any. */
  lemma LinksMoveOn(title: string, s: string)
    requires MovesOn(title) && s != "" && s[0] == ']'
    ensures '[' !in title ==> Links(Opened(title, s)) == Links(s)
    ensures '[' in title ==> Links(Opened(title, s)) == Links(Opened(AfterFirstOpen(title), s))
  {
    hide Links;
    NoMatchHere(title, s);
    LinksMiss(Opened(title, s));
    assert Opened(title, s)[1..] == EscapeLinkText(title) + s;
    LinksAdvance(title, s);
  }

  lemma {:induction false} LinksEnter(title: string, s: string)
    requires s != "" && s[0] == ']'
    ensures Links(Opened(title, s)) == Links(Opened(Entry(title), s))
    decreases |title|
  {
    hide Links, MovesOn;
    if MovesOn(title) && '[' in title {
      LinksMoveOn(title, s);
      LinksEnter(AfterFirstOpen(title), s);
    }
  }

  /** A linkable title makes a link that is found, with exactly the file it was given. */
  lemma LinkFound(title: string, file: string, s: string)
    requires Linkable(title) && LinkName(file)
    ensures Links(Link(title, file) + s) == [file] + Links(")" + s)
  {
    LinkShape(title, file, s);
    LinksEnter(title, Tail(file, s));
    var e := EscapeLinkText(Entry(title));
    OpenEscaped(Entry(title), "");
    assert e + "" == e;
    LinkAtIs(e, file, s);
  }

  /** A silent title makes a link that is not found, and writes none of its own. */
  lemma LinkLost(title: string, file: string)
    requires Silent(title) && LinkName(file)
    ensures Links(Link(title, file)) == []
  {
    hide Links, Entry;
    var inner, tail := Entry(title), Tail(file, "");
    LinkShape(title, file, "");
    assert Link(title, file) + "" == Link(title, file);
    LinksEnter(title, tail);
    EntryStays(title);
    TailIsOpen(file);
    NoLinks();
    if Through(inner).Swallows? {
      OpenEscaped(inner, tail);
      LinksOpenedBy(EscapeLinkText(inner) + tail, "");
      assert Opened(inner, tail) == "[" + ((EscapeLinkText(inner) + tail) + "");
    } else {
      LinksMoveOn(inner, tail);
      LinksSkip(tail, "");
      assert tail + "" == tail;
    }
  }

  lemma TailIsOpen(file: string)
    requires LinkName(file)
    ensures Tail(file, "")[0] == ']' && Open(Tail(file, "")[1..]) && '[' !in Tail(file, "")
  {
    var inner := "(" + (file + (")" + ""));
    assert Tail(file, "")[1..] == inner;
    OpenWithout(inner);
  }

  /** What an injecting title links to: the text after its freed bracket, up to the first
      character a target cannot hold; it may run into the brackets after the title. */
  function InjectedTarget(title: string, file: string): string
    requires Injecting(title)
  {
    var r := Injection(title, file);
    r[..TargetLength(r)]
  }

  function Injection(title: string, file: string): string
    requires Injecting(title)
  {
    EscapeLinkText(Through(Entry(title)).rest[1..]) + ("](" + (file + ")"))
  }

  lemma InjectionStarts(title: string, file: string)
    requires Injecting(title)
    ensures TargetLength(Injection(title, file)) > 0
  {
    var rest := Through(Entry(title)).rest;
    if |rest| > 1 { assert EscapeLinkText(rest[1..]) == EscapeBracket(rest[1]) + EscapeLinkText(rest[1..][1..]); }
    assert rest[1..] == "" ==> Injection(title, file)[0] == ']';
  }

  /** An injecting title writes a link of its own into the page, where the scan finds it first. */
  lemma LinkInjected(title: string, file: string)
    requires Injecting(title)
    ensures Links(Link(title, file)) != [] && Links(Link(title, file))[0] == InjectedTarget(title, file)
  {
    hide Links, TargetLength;
    var inner, tail := Entry(title), Tail(file, "");
    LinkShape(title, file, "");
    assert Link(title, file) + "" == Link(title, file);
    LinksEnter(title, tail);
    InjectedMatch(title, file);
    LinksStep(Opened(inner, tail), Links(Opened(inner, tail)));
  }

  lemma InjectedMatch(title: string, file: string)
    requires Injecting(title)
    ensures var m := LinkAt(Opened(Entry(title), Tail(file, "")));
      m.Some? && m.value.target == InjectedTarget(title, file)
  {
    hide TargetLength;
    var inner, tail := Entry(title), Tail(file, "");
    LeftEscaped(inner, tail);
    assert Opened(inner, tail)[1..] == EscapeLinkText(inner) + tail;
    var rest := Through(inner).rest;
    assert EscapeLinkText(rest) == "(" + EscapeLinkText(rest[1..]);
    assert (EscapeLinkText(rest) + tail)[1..] == Injection(title, file);
    InjectionStarts(title, file);
  }

  lemma {:induction false} NothingToEscape(s: string)
    requires '[' !in s && ']' !in s
    ensures EscapeLinkText(s) == s
  {
    if s != "" {
      assert s[0] in s;
      NothingToEscape(s[1..]);
    }
  }

  /** A file name comes through the filter for relative links unchanged. */
  lemma NameIsFile(file: string)
    requires LinkName(file)
    ensures FileOf(file) == file
  {
    assert file[0] in file;
    NotContained(file);
    StartsAt(file, "#", 0);
    StartsAt(file, "/", 0);
    StartsAt(file, "./", 0);
    StartsAt(file, "mailto:", 6);
    assert |file| > 6 ==> file[6] in file;
    BeforeIs(file);
  }

  lemma {:induction false} NotContained(file: string)
    requires forall c :: c in file ==> NameChar(c)
    ensures !Contains(file, "://")
  {
    StartsAt(file, "://", 0);
    if file != "" {
      assert file[0] in file;
      NotContained(file[1..]);
    }
  }

  lemma {:induction false} BeforeIs(file: string)
    requires '#' !in file
    ensures Before(file, '#') == file
  {
    if file != "" {
      assert file[0] in file;
      BeforeIs(file[1..]);
    }
  }

  // ---------------------------------------------------------------------------
  // A link after any text at all
  // ---------------------------------------------------------------------------

  /** A link on a line of its own: a line break, then a link text without brackets. */
  function LineLink(text: string, file: string, s: string): string {
    "\n[" + (text + Tail(file, s))
  }

  lemma LineLinkIs(text: string, file: string, s: string)
    ensures LineLink(text, file, s) == "\n[" + text + "](" + file + ")" + s
  {
  }

  /** However the text before it ends, a link at the start of a line is found: an unclosed
      link text runs into it, and a stray backslash stops at the line break. */
  lemma LinkAfterAnything(p: string, text: string, file: string, s: string)
    requires Open(text) && LinkName(file)
    ensures Links(p + LineLink(text, file, s)) == Links(p + "\n") + [file] + Links(")" + s)
  {
    hide Links;
    var link := "[" + (text + Tail(file, s));
    assert p + LineLink(text, file, s) == (p + "\n") + link;
    LinksSplit(p + "\n", link);
    LinkAtIs(text, file, s);
    LinksStep(link, Links(link));
  }
}
