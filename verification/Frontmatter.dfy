/**
 The YAML frontmatter printer (backend/internal/bundle/frontmatter.go) and the parser the
 validator reads it back with (backend/internal/bundle/validate.go:434-466).
 */
module Frontmatter {
  import opened Wrappers
  import opened Text

  // ---------------------------------------------------------------------------
  // Strings
  // ---------------------------------------------------------------------------

  function YamlEscape(c: char): string {
    if c == '\\' then "\\\\"
    else if c == '"' then "\\\""
    else if c == '\n' || c == '\t' then " "
    else if c == '\r' then ""
    else [c]
  }

  function YamlString(s: string): string {
    "\"" + Mapped(s, YamlEscape) + "\""
  }

  function Unescape(s: string): string {
    if s == "" then ""
    else if |s| >= 2 && s[0] == '\\' && (s[1] == '"' || s[1] == '\\') then [s[1]] + Unescape(s[2..])
    else [s[0]] + Unescape(s[1..])
  }

  function UnquoteYAML(s: string): string {
    var t := TrimSpace(s);
    Unescape(if |t| >= 2 && t[0] == '"' && t[|t| - 1] == '"' then t[1..|t| - 1] else t)
  }

  function Flat(c: char): string {
    if c == '\n' || c == '\t' then " " else if c == '\r' then "" else [c]
  }

  lemma UnescapeOne(c: char, rest: string)
    ensures c != '\\' ==> Unescape([c] + rest) == [c] + Unescape(rest)
    ensures c == '"' || c == '\\' ==> Unescape("\\" + [c] + rest) == [c] + Unescape(rest)
  {
    assert ([c] + rest)[1..] == rest;
    assert ("\\" + [c] + rest)[2..] == rest;
  }

  lemma {:induction false} UnescapeEscaped(s: string)
    ensures Unescape(Mapped(s, YamlEscape)) == Mapped(s, Flat)
  {
    if s != "" {
      UnescapeEscaped(s[1..]);
      var rest := Mapped(s[1..], YamlEscape);
      UnescapeOne(s[0], rest);
      UnescapeOne(' ', rest);
      assert s[0] == '\r' ==> YamlEscape(s[0]) + rest == rest;
      assert s[0] == '\r' ==> Flat(s[0]) + Mapped(s[1..], Flat) == Mapped(s[1..], Flat);
    }
  }

  /** Unquoting undoes quoting, up to the line breaks and tabs quoting flattens: any text
      without them comes back exactly. */
  lemma UnquoteInverts(s: string)
    ensures UnquoteYAML(YamlString(s)) == Mapped(s, Flat)
    ensures !Has(s, '\n') && !Has(s, '\t') && !Has(s, '\r') ==> UnquoteYAML(YamlString(s)) == s
  {
    var q := YamlString(s);
    TrimNothing(q);
    assert q[1..|q| - 1] == Mapped(s, YamlEscape);
    UnescapeEscaped(s);
    if !Has(s, '\n') && !Has(s, '\t') && !Has(s, '\r') { FlatIsIdentity(s); }
  }

  lemma {:induction false} FlatIsIdentity(s: string)
    requires !Has(s, '\n') && !Has(s, '\t') && !Has(s, '\r')
    ensures Mapped(s, Flat) == s
  {
    if s != "" { FlatIsIdentity(s[1..]); }
  }

  lemma {:induction false} EscapedIsOneLine(s: string)
    ensures !Has(Mapped(s, YamlEscape), '\n') && !Has(Mapped(s, YamlEscape), '\r')
  {
    if s != "" { EscapedIsOneLine(s[1..]); }
  }

  // ---------------------------------------------------------------------------
  // Printing
  // ---------------------------------------------------------------------------

  /** A clock reading as time.Format prints it: digits, signs and the letters of "UTC" and
      RFC 3339, with no space at either end. */
  predicate ClockText(s: string) {
    && s != "" && s[0] != ' ' && s[|s| - 1] != ' '
    && forall i :: 0 <= i < |s| ==> ClockChar(s[i])
  }

  predicate ClockChar(c: char) {
    '0' <= c <= ':' || c == '-' || c == 'T' || c == 'Z' || c == 'U' || c == 'C' || c == ' '
  }

  type Stamp = s: string | ClockText(s) witness "0"

  /** time.Time: the zero value, or an instant in the two forms it is printed in. */
  datatype Time = Zero | Instant(rfc3339: Stamp, display: Stamp)

  datatype Header = Header(kind: string, title: string, description: string, tags: seq<string>,
                           timestamp: Time, source: string)

  type Pair = (string, string)

  function Quoted(tags: seq<string>): string {
    if tags == [] then ""
    else if |tags| == 1 then YamlString(tags[0])
    else Quoted(tags[..|tags| - 1]) + ", " + YamlString(tags[|tags| - 1])
  }

  function If(keep: bool, key: string, value: string): seq<Pair> {
    if keep then [(key, value)] else []
  }

  /** The fields of the block, in the order they are written. */
  function Pairs(h: Header): seq<Pair> {
    [("type", YamlString(h.kind))]
    + If(h.title != "", "title", YamlString(h.title))
    + If(h.description != "", "description", YamlString(h.description))
    + If(h.tags != [], "tags", "[" + Quoted(h.tags) + "]")
    + If(h.source != "", "source", YamlString(h.source))
    + (if h.timestamp.Zero? then [] else [("timestamp", h.timestamp.rfc3339)])
  }

  function Line(p: Pair): string {
    p.0 + ": " + p.1 + "\n"
  }

  function Lines(ps: seq<Pair>): string {
    if ps == [] then "" else Line(ps[0]) + Lines(ps[1..])
  }

  lemma {:induction false} LinesAppend(ps: seq<Pair>, qs: seq<Pair>)
    ensures Lines(ps + qs) == Lines(ps) + Lines(qs)
  {
    if ps == [] {
      assert ps + qs == qs;
    } else {
      LinesAppend(ps[1..], qs);
      assert (ps + qs)[1..] == ps[1..] + qs;
    }
  }

  function Rendered(h: Header): string {
    "---\n" + Lines(Pairs(h)) + "---\n\n"
  }

  method QuoteAll(tags: seq<string>) returns (joined: string)
    ensures joined == Quoted(tags)
  {
    joined := "";
    for i := 0 to |tags|
      invariant joined == Quoted(tags[..i])
    {
      assert tags[..i + 1][..i] == tags[..i];
      joined := if i == 0 then YamlString(tags[0]) else joined + ", " + YamlString(tags[i]);
    }
    assert tags[..|tags|] == tags;
  }

  lemma WriteLine(b: string, ps: seq<Pair>, keep: bool, key: string, value: string)
    requires b == "---\n" + Lines(ps)
    ensures (if keep then b + Line((key, value)) else b) == "---\n" + Lines(ps + If(keep, key, value))
  {
    var one := If(keep, key, value);
    LinesAppend(ps, one);
    if keep {
      assert one[1..] == [] && Lines(one) == Line((key, value));
    } else {
      assert ps + one == ps;
    }
  }

  method Render(h: Header) returns (b: string)
    ensures b == Rendered(h)
  {
    b := "---\n" + Line(("type", YamlString(h.kind)));
    ghost var ps := [("type", YamlString(h.kind))];
    assert ps[1..] == [];

    WriteLine(b, ps, h.title != "", "title", YamlString(h.title));
    ps := ps + If(h.title != "", "title", YamlString(h.title));
    if h.title != "" { b := b + Line(("title", YamlString(h.title))); }

    WriteLine(b, ps, h.description != "", "description", YamlString(h.description));
    ps := ps + If(h.description != "", "description", YamlString(h.description));
    if h.description != "" { b := b + Line(("description", YamlString(h.description))); }

    WriteLine(b, ps, h.tags != [], "tags", "[" + Quoted(h.tags) + "]");
    ps := ps + If(h.tags != [], "tags", "[" + Quoted(h.tags) + "]");
    if h.tags != [] {
      var quoted := QuoteAll(h.tags);
      b := b + Line(("tags", "[" + quoted + "]"));
    }

    WriteLine(b, ps, h.source != "", "source", YamlString(h.source));
    ps := ps + If(h.source != "", "source", YamlString(h.source));
    if h.source != "" { b := b + Line(("source", YamlString(h.source))); }

    if h.timestamp.Instant? {
      WriteLine(b, ps, true, "timestamp", h.timestamp.rfc3339);
      b := b + Line(("timestamp", h.timestamp.rfc3339));
      ps := ps + [("timestamp", h.timestamp.rfc3339)];
    }
    assert ps == Pairs(h);
    b := b + "---\n\n";
  }

  // ---------------------------------------------------------------------------
  // Parsing
  // ---------------------------------------------------------------------------

  /** \r?\n---\r?\n matches here. */
  predicate Closes(s: string) {
    StartsWith(s, "\n---\n") || StartsWith(s, "\n---\r\n")
    || StartsWith(s, "\r\n---\n") || StartsWith(s, "\r\n---\r\n")
  }

  /** The shortest text before the closing fence. */
  function Block(s: string): Option<string> {
    if Closes(s) then Some("")
    else if s == "" then None
    else match Block(s[1..])
      case Some(b) => Some([s[0]] + b)
      case None => None
  }

  /** frontmatterRE: the block the file opens with. */
  function Opening(content: string): Option<string> {
    if StartsWith(content, "---\n") then Block(content[4..])
    else if StartsWith(content, "---\r\n") then Block(content[5..])
    else None
  }

  predicate KeyStart(c: char) { 'A' <= c <= 'Z' || 'a' <= c <= 'z' || c == '_' }

  predicate KeyChar(c: char) { KeyStart(c) || '0' <= c <= '9' || c == '-' }

  function KeyLength(line: string): nat {
    if line != "" && KeyChar(line[0]) then 1 + KeyLength(line[1..]) else 0
  }

  /** fieldRE on one line: a key, a colon, and the rest of the line trimmed. */
  function FieldOf(line: string): Option<Pair> {
    var n := KeyLength(line);
    if 0 < n < |line| && KeyStart(line[0]) && line[n] == ':'
    then Some((line[..n], TrimSpace(line[n + 1..]))) else None
  }

  function LineEnd(s: string): (n: nat)
    ensures n <= |s| && !Has(s[..n], '\n') && (n < |s| ==> s[n] == '\n')
  {
    if s == "" || s[0] == '\n' then 0 else 1 + LineEnd(s[1..])
  }

  function WithField(fields: map<string, string>, line: string): map<string, string> {
    match FieldOf(line)
    case Some(f) => fields[f.0 := f.1]
    case None => fields
  }

  function Fields(block: string, fields: map<string, string>): map<string, string> {
    var n := LineEnd(block);
    var fields' := WithField(fields, block[..n]);
    if n < |block| then Fields(block[n + 1..], fields') else fields'
  }

  function Parsed(content: string): Option<map<string, string>> {
    match Opening(content)
    case Some(block) => Some(Fields(block, map[]))
    case None => None
  }

  method ParseFrontmatter(content: string) returns (fields: map<string, string>, ok: bool)
    ensures ok <==> Parsed(content).Some?
    ensures ok ==> fields == Parsed(content).value
  {
    fields, ok := map[], Opening(content).Some?;
    if ok {
      var rest := Opening(content).value;
      while true
        invariant Fields(rest, fields) == Parsed(content).value
        decreases |rest|
      {
        var n := LineEnd(rest);
        fields := WithField(fields, rest[..n]);
        if n == |rest| { return; }
        rest := rest[n + 1..];
      }
    }
  }

  function Field(fields: map<string, string>, key: string): string {
    if key in fields then fields[key] else ""
  }

  // ---------------------------------------------------------------------------
  // Round trip
  // ---------------------------------------------------------------------------

  predicate GoodPair(p: Pair) {
    && p.0 != "" && KeyStart(p.0[0]) && (forall i :: 0 <= i < |p.0| ==> KeyChar(p.0[i]))
    && p.1 != "" && !IsSpace(p.1[0]) && !IsSpace(p.1[|p.1| - 1])
    && !Has(p.1, '\n') && !Has(p.1, '\r')
  }

  function AsMap(ps: seq<Pair>): map<string, string> {
    if ps == [] then map[] else AsMap(ps[..|ps| - 1])[ps[|ps| - 1].0 := ps[|ps| - 1].1]
  }

  lemma {:induction false} KeyLengthIs(key: string, rest: string)
    requires forall i :: 0 <= i < |key| ==> KeyChar(key[i])
    requires rest != "" ==> !KeyChar(rest[0])
    ensures KeyLength(key + rest) == |key|
  {
    if key == "" {
      assert key + rest == rest;
    } else {
      KeyLengthIs(key[1..], rest);
      assert (key + rest)[1..] == key[1..] + rest;
    }
  }

  lemma FieldOfLine(p: Pair)
    requires GoodPair(p)
    ensures FieldOf(Bare(p)) == Some(p)
  {
    var line := p.0 + ": " + p.1;
    assert line == p.0 + (": " + p.1);
    KeyLengthIs(p.0, ": " + p.1);
    assert line[..|p.0|] == p.0 && line[|p.0| + 1..] == " " + p.1;
    assert TrimLeft(" " + p.1) == p.1 by { assert (" " + p.1)[1..] == p.1; }
    TrimNothing(p.1);
  }

  lemma {:induction false} LineEndIs(a: string, b: string)
    requires !Has(a, '\n') && (b != "" ==> b[0] == '\n')
    ensures LineEnd(a + b) == |a|
  {
    if a == "" {
      assert a + b == b;
    } else {
      assert a[0] in a && (a + b)[1..] == a[1..] + b;
      LineEndIs(a[1..], b);
    }
  }

  lemma {:induction false} BlockPrefix(line: string, s: string)
    requires !Has(line, '\n') && !Has(line, '\r') && Block(s).Some?
    ensures Block(line + s) == Some(line + Block(s).value)
  {
    if line == "" {
      assert line + s == s && line + Block(s).value == Block(s).value;
    } else {
      var c := line[0];
      assert c in line;
      BlockPrefix(line[1..], s);
      assert line + s == [c] + (line[1..] + s);
      BlockSkips(c, line[1..] + s);
      assert line + Block(s).value == [c] + (line[1..] + Block(s).value);
    }
  }

  lemma BlockSkips(c: char, s: string)
    requires c != '\n' && c != '\r' && Block(s).Some?
    ensures Block([c] + s) == Some([c] + Block(s).value)
  {
    var t := [c] + s;
    assert t[1..] == s;
    StartsAt(t, "\n---\n", 0);
    StartsAt(t, "\n---\r\n", 0);
    StartsAt(t, "\r\n---\n", 0);
    StartsAt(t, "\r\n---\r\n", 0);
    hide StartsWith;
    assert !Closes(t);
  }

  /** A line followed by the closing fence ends the block. */
  lemma BlockEndsAfter(line: string, rest: string)
    requires !Has(line, '\n') && !Has(line, '\r')
    ensures Block(line + ("\n---\n" + rest)) == Some(line)
  {
    var s := "\n---\n" + rest;
    assert s[..5] == "\n---\n";
    BlockPrefix(line, s);
    assert line + "" == line;
  }

  /** A line followed by anything but a dash goes into the block whole. */
  lemma BlockPasses(line: string, rest: string)
    requires !Has(line, '\n') && !Has(line, '\r')
    requires rest != "" && rest[0] != '-' && Block(rest).Some?
    ensures Block(line + ("\n" + rest)) == Some(line + ("\n" + Block(rest).value))
  {
    BlockLineBreak(rest);
    BlockPrefix(line, "\n" + rest);
  }

  lemma BlockLineBreak(rest: string)
    requires rest != "" && rest[0] != '-' && Block(rest).Some?
    ensures Block("\n" + rest) == Some("\n" + Block(rest).value)
  {
    var s := "\n" + rest;
    assert s[1..] == rest && s[1] == rest[0];
    NotClosing(s);
  }

  lemma NotClosing(s: string)
    requires |s| >= 2 && s[0] == '\n' && s[1] != '-'
    ensures !Closes(s)
  {
    StartsAt(s, "\n---\n", 1);
    StartsAt(s, "\n---\r\n", 1);
    StartsAt(s, "\r\n---\n", 0);
    StartsAt(s, "\r\n---\r\n", 0);
  }

  function Bare(p: Pair): string {
    p.0 + ": " + p.1
  }

  ghost predicate AllGood(ps: seq<Pair>) {
    forall p :: p in ps ==> GoodPair(p)
  }

  lemma OneLine(p: Pair)
    requires GoodPair(p)
    ensures !Has(Bare(p), '\n') && !Has(Bare(p), '\r') && Bare(p) != "" && Bare(p)[0] == p.0[0]
  {
    assert forall c :: c in Bare(p) ==> c in p.0 || c == ':' || c == ' ' || c in p.1;
  }

  /** The lines without the last line break. */
  function Body(ps: seq<Pair>): string
    requires ps != []
  {
    if |ps| == 1 then Bare(ps[0]) else Bare(ps[0]) + ("\n" + Body(ps[1..]))
  }

  lemma LinesHead(ps: seq<Pair>, rest: string)
    requires ps != []
    ensures Lines(ps) + rest == Bare(ps[0]) + ("\n" + (Lines(ps[1..]) + rest))
  {
  }

  lemma {:induction false} BlockIsBody(ps: seq<Pair>, rest: string)
    requires ps != [] && AllGood(ps)
    ensures Block(Lines(ps) + ("---\n" + rest)) == Some(Body(ps))
  {
    OneLine(ps[0]);
    LinesHead(ps, "---\n" + rest);
    var tail := Lines(ps[1..]) + ("---\n" + rest);
    if |ps| == 1 {
      assert "\n" + tail == "\n---\n" + rest;
      BlockEndsAfter(Bare(ps[0]), rest);
    } else {
      OneLine(ps[1]);
      LinesHead(ps[1..], "---\n" + rest);
      assert tail[0] == Bare(ps[1])[0];
      BlockIsBody(ps[1..], rest);
      BlockPasses(Bare(ps[0]), tail);
    }
  }

  lemma FieldsStep(line: string, rest: string, fields: map<string, string>)
    requires !Has(line, '\n')
    ensures Fields(line + ("\n" + rest), fields) == Fields(rest, WithField(fields, line))
  {
    LineEndIs(line, "\n" + rest);
    var s := line + ("\n" + rest);
    assert s[..|line|] == line && s[|line| + 1..] == rest;
  }

  lemma FieldsLast(line: string, fields: map<string, string>)
    requires !Has(line, '\n')
    ensures Fields(line, fields) == WithField(fields, line)
  {
    LineEndIs(line, "");
    assert line + "" == line && line[..|line|] == line;
  }

  lemma AsMapStep(done: seq<Pair>, p: Pair)
    requires GoodPair(p)
    ensures WithField(AsMap(done), Bare(p)) == AsMap(done + [p])
  {
    FieldOfLine(p);
    assert (done + [p])[..|done|] == done;
  }

  lemma {:induction false} FieldsOfBody(ps: seq<Pair>, done: seq<Pair>, fields: map<string, string>)
    requires ps != [] && AllGood(ps) && fields == AsMap(done)
    ensures Fields(Body(ps), fields) == AsMap(done + ps)
    decreases |ps|
  {
    var p, rest := ps[0], ps[1..];
    OneLine(p);
    AsMapStep(done, p);
    if rest == [] {
      FieldsLast(Bare(p), fields);
      assert ps == [p];
    } else {
      FieldsStep(Bare(p), Body(rest), fields);
      FieldsOfBody(rest, done + [p], WithField(fields, Bare(p)));
      assert done + ps == (done + [p]) + rest;
    }
  }

  lemma YamlStringIsGood(key: string, s: string)
    requires key != "" && KeyStart(key[0]) && forall i :: 0 <= i < |key| ==> KeyChar(key[i])
    ensures GoodPair((key, YamlString(s)))
  {
    EscapedIsOneLine(s);
  }

  lemma {:induction false} QuotedIsOneLine(tags: seq<string>)
    ensures !Has(Quoted(tags), '\n') && !Has(Quoted(tags), '\r')
  {
    if tags != [] {
      QuotedIsOneLine(tags[..|tags| - 1]);
      EscapedIsOneLine(tags[|tags| - 1]);
    }
  }

  lemma StampIsGood(stamp: Stamp)
    ensures GoodPair(("timestamp", stamp))
  {
    var s: string := stamp;
    assert ClockText(s);
    assert !IsSpace(s[0]) && !IsSpace(s[|s| - 1]) by {
      assert ClockChar(s[0]) && ClockChar(s[|s| - 1]);
    }
    forall c | c in s ensures c != '\n' && c != '\r' {
      assert ClockChar(c);
    }
    assert forall c :: KeyStart(c) ==> KeyChar(c);
  }

  lemma GoodIf(keep: bool, key: string, value: string)
    requires keep ==> GoodPair((key, value))
    ensures AllGood(If(keep, key, value))
  {
  }

  lemma PairsAreGood(h: Header)
    ensures AllGood(Pairs(h))
  {
    YamlStringIsGood("type", h.kind);
    YamlStringIsGood("title", h.title);
    YamlStringIsGood("description", h.description);
    YamlStringIsGood("source", h.source);
    TagsAreGood(h.tags);
    if h.timestamp.Instant? { StampIsGood(h.timestamp.rfc3339); }
    GoodIf(h.title != "", "title", YamlString(h.title));
    GoodIf(h.description != "", "description", YamlString(h.description));
    GoodIf(h.tags != [], "tags", "[" + Quoted(h.tags) + "]");
    GoodIf(h.source != "", "source", YamlString(h.source));
  }

  lemma TagsAreGood(tags: seq<string>)
    ensures GoodPair(("tags", "[" + Quoted(tags) + "]"))
  {
    QuotedIsOneLine(tags);
  }

  lemma OpeningIs(lines: string, content: string)
    ensures Opening("---\n" + lines + "---\n\n" + content) == Block(lines + ("---\n" + ("\n" + content)))
  {
    var s := "---\n" + lines + "---\n\n" + content;
    assert s[..4] == "---\n" && s[4..] == lines + ("---\n" + ("\n" + content));
  }

  /** Frontmatter round trip: whatever follows the block, parsing recovers exactly the fields
      that were printed, and nothing else. */
  lemma FrontmatterRoundTrip(h: Header, content: string)
    ensures Parsed(Rendered(h) + content) == Some(AsMap(Pairs(h)))
  {
    PairsAreGood(h);
    OpeningIs(Lines(Pairs(h)), content);
    BlockIsBody(Pairs(h), "\n" + content);
    FieldsOfBody(Pairs(h), [], map[]);
    assert [] + Pairs(h) == Pairs(h);
  }
}
