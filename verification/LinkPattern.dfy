/**
 What the scanner of LinkScan finds, said without the scanner: the link pattern as a relation on
 texts, the choice of the leftmost match, and which targets name a file of the bundle
 (backend/internal/bundle/validate.go:398-432, backend/internal/bundle/bundle.go:442-446).
 */
module LinkPattern {
  import opened Wrappers
  import opened Text
  import opened LinkScan

  // ---------------------------------------------------------------------------
  // The pattern
  // ---------------------------------------------------------------------------

  /** One repetition of (?:\\.|[^\]\\]). */
  predicate Token(t: string) {
    || (|t| == 1 && t[0] != ']' && t[0] != '\\')
    || (|t| == 2 && t[0] == '\\' && t[1] != '\n')
  }

  function Joined(ts: seq<string>): string {
    if ts == [] then "" else ts[0] + Joined(ts[1..])
  }

  ghost predicate Tokens(ts: seq<string>) {
    forall k :: 0 <= k < |ts| ==> Token(ts[k])
  }

  /** A link text is what any number of repetitions match. */
  lemma {:induction false} TokensAreOpen(ts: seq<string>)
    requires Tokens(ts)
    ensures Open(Joined(ts))
  {
    if ts != [] {
      assert Token(ts[0]) && Tokens(ts[1..]);
      TokensAreOpen(ts[1..]);
      assert Joined(ts)[|ts[0]|..] == Joined(ts[1..]);
      assert Joined(ts)[0] == ts[0][0] && (|ts[0]| == 2 ==> Joined(ts)[1] == ts[0][1]);
    }
  }

  lemma {:induction false} OpenIsTokens(x: string) returns (ts: seq<string>)
    requires Open(x)
    ensures Tokens(ts) && Joined(ts) == x
  {
    if x == "" {
      ts := [];
    } else {
      var n := if x[0] == '\\' then 2 else 1;
      var rest := OpenIsTokens(x[n..]);
      ts := [x[..n]] + rest;
      assert ts[1..] == rest && x[..n] + x[n..] == x;
      forall k | 0 <= k < |ts| ensures Token(ts[k]) { assert k > 0 ==> ts[k] == rest[k - 1]; }
    }
  }

  lemma {:induction false} AfterIsText(s: string) returns (x: string)
    requires AfterText(s).Some?
    ensures Open(x) && s == x + ("]" + AfterText(s).value)
  {
    if s[0] == ']' {
      x := "";
    } else if s[0] != '\\' {
      x := AfterIsText(s[1..]);
      var y := [s[0]] + x;
      assert y[1..] == x;
      x := y;
    } else {
      x := AfterIsText(s[2..]);
      var y := s[..2] + x;
      assert y[2..] == x;
      x := y;
    }
  }

  /** ([^)\s]+): \s is one of five ASCII characters. */
  lemma TargetChars(c: char)
    ensures TargetChar(c) <==> c !in ")\t\n\U{0C}\r "
  {
  }

  predicate Target(target: string) {
    target != "" && forall c :: c in target ==> TargetChar(c)
  }

  lemma {:induction false} TargetLengthIs(s: string)
    ensures var n := TargetLength(s);
      (forall c :: c in s[..n] ==> TargetChar(c)) && (n < |s| ==> !TargetChar(s[n]))
  {
    if s != "" && TargetChar(s[0]) {
      TargetLengthIs(s[1..]);
      assert s[..TargetLength(s)] == [s[0]] + s[1..][..TargetLength(s[1..])];
    }
  }

  lemma {:induction false} TargetLengthOf(target: string, rest: string)
    requires (forall c :: c in target ==> TargetChar(c)) && (rest != "" ==> !TargetChar(rest[0]))
    ensures TargetLength(target + rest) == |target|
  {
    if target == "" {
      assert target + rest == rest;
    } else {
      assert target[0] in target && (target + rest)[1..] == target[1..] + rest;
      TargetLengthOf(target[1..], rest);
    }
  }

  /** s begins with a match of the whole pattern: a text in brackets, a parenthesis, and the longest
      target there is. */
  ghost predicate Matches(s: string, text: string, target: string, rest: string) {
    && s == "[" + text + "](" + target + rest
    && (exists ts :: Tokens(ts) && Joined(ts) == text)
    && Target(target) && (rest != "" ==> !TargetChar(rest[0]))
  }

  /** The scanner finds a match at the first character if and only if the pattern has one there,
      and it is the only one. */
  lemma MatchExactly(s: string, target: string, rest: string)
    ensures LinkAt(s) == Some(Match(target, rest)) <==> exists text :: Matches(s, text, target, rest)
  {
    if LinkAt(s) == Some(Match(target, rest)) {
      FoundMatches(s, target, rest);
    }
    if text :| Matches(s, text, target, rest) {
      MatchIsFound(s, text, target, rest);
    }
  }

  lemma FoundMatches(s: string, target: string, rest: string)
    requires LinkAt(s) == Some(Match(target, rest))
    ensures exists text :: Matches(s, text, target, rest)
  {
    FoundParts(s, target, rest);
    hide LinkAt, AfterText, TargetLength;
    var text := AfterIsText(s[1..]);
    var ts := OpenIsTokens(text);
    Assembled(s, text, target, rest);
    assert Matches(s, text, target, rest);
  }

  lemma FoundParts(s: string, target: string, rest: string)
    requires LinkAt(s) == Some(Match(target, rest))
    ensures s != "" && s[0] == '[' && AfterText(s[1..]) == Some("(" + (target + rest))
    ensures Target(target) && (rest != "" ==> !TargetChar(rest[0]))
  {
    hide AfterText;
    var r := AfterText(s[1..]).value;
    TargetLengthIs(r[1..]);
    assert r == "(" + r[1..];
    assert r[1..] == target + rest;
  }

  lemma Assembled(s: string, text: string, target: string, rest: string)
    requires s != "" && s[0] == '[' && s[1..] == text + ("]" + ("(" + (target + rest)))
    ensures s == "[" + text + "](" + target + rest
  {
    assert s == "[" + s[1..];
  }

  lemma MatchIsFound(s: string, text: string, target: string, rest: string)
    requires Matches(s, text, target, rest)
    ensures LinkAt(s) == Some(Match(target, rest))
  {
    hide LinkAt, AfterText, TargetLength, Open;
    var ts :| Tokens(ts) && Joined(ts) == text;
    TokensAreOpen(ts);
    var r := "](" + (target + rest);
    assert s[1..] == text + r;
    OpenIsPassed(text, r);
    AfterBracket(target + rest);
    TargetLengthOf(target, rest);
    LinkStarts(s, target, rest);
  }

  lemma AfterBracket(t: string)
    ensures AfterText("](" + t) == Some("(" + t)
  {
    assert ("](" + t)[1..] == "(" + t;
  }

  lemma LinkStarts(s: string, target: string, rest: string)
    requires s != "" && s[0] == '[' && AfterText(s[1..]) == Some("(" + (target + rest))
    requires TargetLength(target + rest) == |target| > 0
    ensures LinkAt(s) == Some(Match(target, rest))
  {
    hide AfterText, TargetLength;
    assert ("(" + (target + rest))[1..] == target + rest;
  }

  // ---------------------------------------------------------------------------
  // The leftmost match
  // ---------------------------------------------------------------------------

  /** The first position with a match is the one that counts, and the search goes on after it. */
  lemma {:induction false} LeftmostFirst(s: string, i: nat)
    requires i < |s| && LinkAt(s[i..]).Some? && forall j: nat :: j < i ==> LinkAt(s[j..]).None?
    ensures Links(s) == [LinkAt(s[i..]).value.target] + Links(LinkAt(s[i..]).value.rest)
  {
    hide LinkAt;
    assert s[0..] == s;
    if i > 0 {
      assert s[1..][i - 1..] == s[i..];
      forall j: nat | j < i - 1 ensures LinkAt(s[1..][j..]).None? { assert s[1..][j..] == s[j + 1..]; }
      LeftmostFirst(s[1..], i - 1);
    }
  }

  lemma {:induction false} NoneWithout(s: string)
    requires forall j: nat :: j < |s| ==> LinkAt(s[j..]).None?
    ensures Links(s) == []
  {
    hide LinkAt;
    if s != "" {
      assert s[0..] == s;
      forall j: nat | j < |s| - 1 ensures LinkAt(s[1..][j..]).None? { assert s[1..][j..] == s[j + 1..]; }
      NoneWithout(s[1..]);
    }
  }

  // ---------------------------------------------------------------------------
  // What a target names
  // ---------------------------------------------------------------------------

  /** An absolute URL, an anchor, an absolute path or an address: it has :// somewhere, or begins
      with #, / or mailto:. */
  ghost predicate LeadsOut(target: string) {
    || (exists i: nat :: i + 3 <= |target| && target[i] == ':' && target[i + 1] == '/' && target[i + 2] == '/')
    || (target != "" && (target[0] == '#' || target[0] == '/'))
    || (|target| >= 7 && target[..7] == "mailto:")
  }

  lemma SchemeOccurs(target: string, i: nat)
    ensures OccursAt(target, "://", i)
      <==> i + 3 <= |target| && target[i] == ':' && target[i + 1] == '/' && target[i + 2] == '/'
  {
    if i + 3 <= |target| {
      var p := target[i..i + 3];
      assert p[0] == target[i] && p[1] == target[i + 1] && p[2] == target[i + 2];
      assert p == [p[0], p[1], p[2]];
    }
  }

  lemma OutsideIs(target: string)
    ensures Outside(target) <==> LeadsOut(target)
  {
    ContainsIs(target, "://");
    if i: nat :| OccursAt(target, "://", i) {
      SchemeOccurs(target, i);
      assert target[i] == ':' && target[i + 1] == '/';
    }
    if i: nat :| i + 3 <= |target| && target[i] == ':' && target[i + 1] == '/' && target[i + 2] == '/' {
      SchemeOccurs(target, i);
    }
    hide Contains;
    assert StartsWith(target, "#") <==> target != "" && target[0] == '#';
    assert StartsWith(target, "/") <==> target != "" && target[0] == '/';
    assert StartsWith(target, "mailto:") <==> |target| >= 7 && target[..7] == "mailto:";
  }

  /** A target that leads out names nothing; any other names its text up to the first #, without a
      leading ./ . */
  lemma FileOfTarget(target: string) returns (path: string)
    ensures LeadsOut(target) ==> FileOf(target) == ""
    ensures path <= target && '#' !in path && (|path| < |target| ==> target[|path|] == '#')
    ensures !LeadsOut(target) ==>
      FileOf(target) == if |path| >= 2 && path[0] == '.' && path[1] == '/' then path[2..] else path
  {
    OutsideIs(target);
    path := Before(target, '#');
    BeforeCuts(target, '#');
    assert |path| >= 2 ==> path[..2] == [path[0], path[1]];
  }

  /** What a page names is what its links that do not lead out name, in order. */
  lemma {:induction false} FilesOfTargets(targets: seq<string>, file: string)
    ensures file in FilesOf(targets) <==> file != "" && exists k :: 0 <= k < |targets| && FileOf(targets[k]) == file
  {
    hide FileOf;
    if targets != [] {
      FilesOfTargets(targets[1..], file);
      if k :| 0 <= k < |targets| && FileOf(targets[k]) == file && k > 0 { assert targets[1..][k - 1] == targets[k]; }
      if k :| 0 <= k < |targets[1..]| && FileOf(targets[1..][k]) == file { assert targets[k + 1] == targets[1..][k]; }
    }
  }

  /** A link that leads out adds nothing to what a page names. */
  lemma ExternalLinkNamesNothing(p: string, text: string, target: string, s: string)
    requires Settled(p) && Open(text) && Target(target) && LeadsOut(target)
    ensures RelativeLinks(p + ("[" + text + "](" + target + ")" + s)) == RelativeLinks(p) + RelativeLinks(s)
  {
    hide Links, LinkAt, FilesOf, LeadsOut, Open, Settled, TargetLength;
    var link := "[" + text + "](" + target + ")" + s;
    LinkStands(text, target, s);
    RelativeLinksSplit(p, link);
    LinksStep(link, Links(link));
    FilesOfConcat([target], Links(")" + s));
    AfterLink(s);
    var path := FileOfTarget(target);
    OneTarget(target);
  }

  lemma LinkStands(text: string, target: string, s: string)
    requires Open(text) && Target(target)
    ensures var link := "[" + text + "](" + target + ")" + s; LinkAt(link) == Some(Match(target, ")" + s)) && link[0] == '['
  {
    hide LinkAt, Open;
    var link := "[" + text + "](" + target + ")" + s;
    var ts := OpenIsTokens(text);
    assert link == "[" + text + "](" + target + (")" + s);
    MatchIsFound(link, text, target, ")" + s);
  }

  lemma OneTarget(target: string)
    ensures FilesOf([target]) == if FileOf(target) == "" then [] else [FileOf(target)]
  {
    hide FileOf;
    assert [target][1..] == [];
  }

  lemma AfterLink(s: string)
    ensures Links(")" + s) == Links(s)
  {
    LinksSkip(")", s);
  }

  // ---------------------------------------------------------------------------
  // Escaping
  // ---------------------------------------------------------------------------

  /** escapeLinkText works character by character: a backslash in front of each bracket, and no
      other change. */
  lemma EscapeConcat(a: string, b: string)
    ensures EscapeLinkText(a + b) == EscapeLinkText(a) + EscapeLinkText(b)
    ensures EscapeLinkText("") == "" && EscapeLinkText("[") == "\\[" && EscapeLinkText("]") == "\\]"
    ensures forall c: char :: c != '[' && c != ']' ==> EscapeLinkText([c]) == [c]
  {
    MappedConcat(a, b, EscapeBracket);
    EscapeOne('[');
    EscapeOne(']');
    assert "[" == ['['] && "]" == [']'];
    forall c: char | c != '[' && c != ']' ensures EscapeLinkText([c]) == [c] { EscapeOne(c); }
  }

  lemma EscapeOne(c: char)
    ensures EscapeLinkText([c]) == EscapeBracket(c)
  {
    assert [c][1..] == "";
    assert Mapped([c], EscapeBracket) == EscapeBracket(c) + Mapped("", EscapeBracket);
  }

  lemma {:induction false} MappedConcat(a: string, b: string, f: char -> string)
    ensures Mapped(a + b, f) == Mapped(a, f) + Mapped(b, f)
  {
    if a == "" {
      assert a + b == b;
    } else {
      assert (a + b)[1..] == a[1..] + b;
      MappedConcat(a[1..], b, f);
    }
  }
}
