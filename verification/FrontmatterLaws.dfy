/**
 The metadata block said without its printer and its parser: the text that is printed, and what is
 read from any text whatever (backend/internal/bundle/frontmatter.go:41-83,
 backend/internal/bundle/validate.go:434-466).
 */
module FrontmatterLaws {
  import opened Wrappers
  import opened Text
  import opened Frontmatter

  // ---------------------------------------------------------------------------
  // What is printed
  // ---------------------------------------------------------------------------

  /** The block, line by line: the type first, then the fields that have a value. */
  lemma RenderedIs(h: Header)
    ensures Rendered(h) == "---\n" + (
      "type" + ": " + YamlString(h.kind) + "\n"
      + (if h.title == "" then "" else "title" + ": " + YamlString(h.title) + "\n")
      + (if h.description == "" then "" else "description" + ": " + YamlString(h.description) + "\n")
      + (if h.tags == [] then "" else "tags" + ": " + ("[" + Quoted(h.tags) + "]") + "\n")
      + (if h.source == "" then "" else "source" + ": " + YamlString(h.source) + "\n")
      + (if h.timestamp.Zero? then "" else "timestamp" + ": " + h.timestamp.rfc3339 + "\n")) + "---\n\n"
  {
    hide YamlString, Quoted, Lines, If, Line;
    var p1 := [("type", YamlString(h.kind))];
    var p2, p3 := If(h.title != "", "title", YamlString(h.title)), If(h.description != "", "description", YamlString(h.description));
    var p4, p5 := If(h.tags != [], "tags", "[" + Quoted(h.tags) + "]"), If(h.source != "", "source", YamlString(h.source));
    var p6 := if h.timestamp.Zero? then [] else [("timestamp", h.timestamp.rfc3339)];
    Printed("type", YamlString(h.kind));
    PrintedIf(h.title != "", "title", YamlString(h.title));
    PrintedIf(h.description != "", "description", YamlString(h.description));
    PrintedIf(h.tags != [], "tags", "[" + Quoted(h.tags) + "]");
    PrintedIf(h.source != "", "source", YamlString(h.source));
    if h.timestamp.Instant? { Printed("timestamp", h.timestamp.rfc3339); }
    LinesOfSix(p1, p2, p3, p4, p5, p6);
    NoLines();
  }

  lemma NoLines()
    ensures Lines([]) == ""
  {
  }

  lemma LinesOfSix(p1: seq<Pair>, p2: seq<Pair>, p3: seq<Pair>, p4: seq<Pair>, p5: seq<Pair>, p6: seq<Pair>)
    ensures Lines(p1 + p2 + p3 + p4 + p5 + p6) == Lines(p1) + Lines(p2) + Lines(p3) + Lines(p4) + Lines(p5) + Lines(p6)
  {
    hide Lines;
    LinesAppend(p1, p2);
    LinesAppend(p1 + p2, p3);
    LinesAppend(p1 + p2 + p3, p4);
    LinesAppend(p1 + p2 + p3 + p4, p5);
    LinesAppend(p1 + p2 + p3 + p4 + p5, p6);
  }

  lemma Printed(key: string, value: string)
    ensures Lines([(key, value)]) == key + ": " + value + "\n"
  {
    assert [(key, value)][1..] == [];
  }

  lemma PrintedIf(keep: bool, key: string, value: string)
    ensures Lines(If(keep, key, value)) == if keep then key + ": " + value + "\n" else ""
  {
    if keep { Printed(key, value); }
  }

  /** Tags are quoted one by one. */
  lemma QuotedTags(a: string, b: string)
    ensures Quoted([]) == "" && Quoted([a]) == YamlString(a) && Quoted([a, b]) == YamlString(a) + ", " + YamlString(b)
  {
    hide YamlString;
    assert [a, b][..1] == [a];
  }

  lemma QuotedAppend(tags: seq<string>, last: string)
    requires tags != []
    ensures Quoted(tags + [last]) == Quoted(tags) + ", " + YamlString(last)
  {
    hide YamlString;
    assert (tags + [last])[..|tags|] == tags;
  }

  /** Unquoting takes off the spaces, then a pair of quotes if there is one around the rest. */
  lemma UnquoteIs(s: string, inner: string)
    ensures TrimSpace(s) == "\"" + inner + "\"" ==> UnquoteYAML(s) == Unescape(inner)
    ensures var t := TrimSpace(s); |t| < 2 || t[0] != '"' || t[|t| - 1] != '"' ==> UnquoteYAML(s) == Unescape(t)
  {
    hide TrimSpace, Unescape;
    var t := TrimSpace(s);
    if t == "\"" + inner + "\"" { assert t[1..|t| - 1] == inner; }
  }

  /** and takes a backslash off a quote or a backslash, from left to right. */
  lemma UnescapeIs(s: string)
    ensures Unescape("") == ""
    ensures |s| >= 2 && s[0] == '\\' && s[1] in "\"\\" ==> Unescape(s) == [s[1]] + Unescape(s[2..])
    ensures s != "" && !(|s| >= 2 && s[0] == '\\' && s[1] in "\"\\") ==> Unescape(s) == [s[0]] + Unescape(s[1..])
  {
  }

  /** Quoting works character by character, between two quotes. */
  lemma YamlStringConcat(a: string, b: string)
    ensures YamlString(a + b) == "\"" + (Mapped(a, YamlEscape) + Mapped(b, YamlEscape)) + "\""
    ensures YamlString("") == "\"\""
  {
    MappedConcat(a, b, YamlEscape);
  }

  lemma {:induction false} MappedConcat(a: string, b: string, f: char -> string)
    ensures Mapped(a + b, f) == Mapped(a, f) + Mapped(b, f)
  {
    if a == "" {
      assert a + b == b;
    } else {
      assert (a + b)[1..] == a[1..] + b;
      MappedConcat(a[1..], b, f);
    }
  }

  /** A backslash and a quote get a backslash, a line break and a tab become a space, a carriage
      return is dropped, and every other character stays. */
  lemma YamlStringOne(c: char)
    ensures YamlString([c]) == "\"" + (
      if c == '\\' then "\\\\" else if c == '"' then "\\\"" else if c == '\n' then " " else if c == '\t' then " "
      else if c == '\r' then "" else [c]) + "\""
  {
    assert [c][1..] == "";
    assert Mapped([c], YamlEscape) == YamlEscape(c) + Mapped("", YamlEscape);
  }

  // ---------------------------------------------------------------------------
  // What is read
  // ---------------------------------------------------------------------------

  /** The closing fence, each of its line ends with or without a carriage return. */
  lemma ClosesIs(s: string)
    ensures Closes(s) <==>
      exists fence :: fence in ["\n---\n", "\n---\r\n", "\r\n---\n", "\r\n---\r\n"] && StartsWith(s, fence)
  {
    hide StartsWith;
    var fences := ["\n---\n", "\n---\r\n", "\r\n---\n", "\r\n---\r\n"];
    assert fences[0] in fences && fences[1] in fences && fences[2] in fences && fences[3] in fences;
  }

  ghost predicate EndsAt(s: string, k: nat) {
    k <= |s| && Closes(s[k..]) && forall j: nat :: j < k ==> !Closes(s[j..])
  }

  /** The block ends at the first closing fence, and there is none without one. */
  lemma {:induction false} BlockIs(s: string, k: nat)
    ensures EndsAt(s, k) ==> Block(s) == Some(s[..k])
    ensures Block(s).Some? && |Block(s).value| == k ==> EndsAt(s, k)
    decreases |s|
  {
    hide Closes;
    assert s[0..] == s;
    if !Closes(s) && s != "" && k > 0 {
      BlockIs(s[1..], k - 1);
      forall j: nat | j < |s| ensures s[1..][j..] == s[j + 1..] {}
      if EndsAt(s, k) {
        forall j: nat | j < k - 1 ensures !Closes(s[1..][j..]) { assert !Closes(s[j + 1..]); }
        assert EndsAt(s[1..], k - 1) && [s[0]] + s[1..][..k - 1] == s[..k];
      }
      if Block(s).Some? && |Block(s).value| == k {
        forall j: nat | j < k ensures !Closes(s[j..]) {
          if j > 0 { assert !Closes(s[1..][j - 1..]); }
        }
      }
    }
  }

  /** A file has a block when it opens with three dashes on a line of their own and a closing fence
      follows; the block is what stands between them. */
  lemma OpeningIs(content: string, n: nat, k: nat)
    requires (n == 4 && StartsWith(content, "---\n")) || (n == 5 && StartsWith(content, "---\r\n"))
    ensures EndsAt(content[n..], k) ==> Opening(content) == Some(content[n..][..k])
    ensures Opening(content).Some? && |Opening(content).value| == k ==> EndsAt(content[n..], k)
  {
    hide Closes;
    BlockIs(content[n..], k);
    if n == 5 { StartsAt(content, "---\n", 3); StartsAt(content, "---\r\n", 3); }
  }

  lemma NoOpening(content: string)
    requires !StartsWith(content, "---\n") && !StartsWith(content, "---\r\n")
    ensures Parsed(content) == None
  {
  }

  predicate Key(key: string) {
    key != "" && KeyStart(key[0]) && forall i :: 0 <= i < |key| ==> KeyChar(key[i])
  }

  lemma KeyChars(c: char)
    ensures KeyStart(c) <==> c == '_' || 'a' <= c <= 'z' || 'A' <= c <= 'Z'
    ensures KeyChar(c) <==> c == '_' || c == '-' || 'a' <= c <= 'z' || 'A' <= c <= 'Z' || '0' <= c <= '9'
  {
  }

  lemma {:induction false} KeyLengthLaw(line: string)
    ensures KeyLength(line) <= |line| && forall i :: 0 <= i < KeyLength(line) ==> KeyChar(line[i])
    ensures KeyLength(line) < |line| ==> !KeyChar(line[KeyLength(line)])
  {
    if line != "" && KeyChar(line[0]) {
      KeyLengthLaw(line[1..]);
      assert forall i :: 0 < i <= KeyLength(line[1..]) ==> line[i] == line[1..][i - 1];
    }
  }

  /** A line is a field exactly when it is a key, a colon and a value, which is trimmed. */
  lemma FieldExactly(line: string, key: string, value: string)
    ensures FieldOf(line) == Some((key, value)) <==>
      Key(key) && |key| < |line| && line[..|key|] == key && line[|key|] == ':' && value == TrimSpace(line[|key| + 1..])
  {
    hide TrimSpace;
    KeyLengthLaw(line);
    if Key(key) && |key| < |line| && line[..|key|] == key && line[|key|] == ':' {
      assert line == key + line[|key|..];
      KeyLengthIs(key, line[|key|..]);
      assert line[0] == key[0];
    }
  }

  /** Line [i, j) of a block. */
  predicate LineAt(block: string, i: nat, j: nat) {
    && i <= j <= |block| && (i == 0 || block[i - 1] == '\n') && (j == |block| || block[j] == '\n')
    && '\n' !in block[i..j]
  }

  predicate Declares(block: string, i: nat, j: nat, key: string) {
    i <= j <= |block| && LineAt(block, i, j) && FieldOf(block[i..j]).Some? && FieldOf(block[i..j]).value.0 == key
  }

  /** The value read for a key is that of the last line that declares it, and a key is read exactly
      when some line declares it. */
  lemma LastLineWins(block: string, key: string) returns (i: nat, j: nat)
    ensures key in Fields(block, map[]) ==>
      && Declares(block, i, j, key) && Fields(block, map[])[key] == FieldOf(block[i..j]).value.1
      && forall i': nat, j': nat :: Declares(block, i', j', key) ==> i' <= i
    ensures key !in Fields(block, map[]) ==> forall i': nat, j': nat :: !Declares(block, i', j', key)
  {
    var found;
    found, i, j := LastLineFrom(block, map[], key);
  }

  /** The same with fields already read: they stay unless the block declares them again. */
  lemma {:induction false} LastLineFrom(block: string, fields: map<string, string>, key: string)
    returns (found: bool, i: nat, j: nat)
    ensures found ==>
      && Declares(block, i, j, key) && key in Fields(block, fields)
      && Fields(block, fields)[key] == FieldOf(block[i..j]).value.1
      && forall i': nat, j': nat :: Declares(block, i', j', key) ==> i' <= i
    ensures !found ==>
      && (key in Fields(block, fields) <==> key in fields)
      && (key in fields ==> Fields(block, fields)[key] == fields[key])
      && forall i': nat, j': nat :: !Declares(block, i', j', key)
    decreases |block|
  {
    hide FieldOf, LineAt, Fields, LineEnd;
    var n := LineEnd(block);
    FieldsFirst(block, fields, n);
    FirstLine(block, n);
    assert block[0..n] == block[..n];
    found, i, j := false, 0, n;
    if n < |block| {
      var rest := block[n + 1..];
      found, i, j := LastLineFrom(rest, WithField(fields, block[..n]), key);
      LinesBelow(block, n, key);
      if found {
        ShiftBack(block, n, i, j);
        i, j := n + 1 + i, n + 1 + j;
        assert Declares(block, i, j, key);
        return;
      }
      i, j := 0, n;
    }
    if FieldOf(block[..n]).Some? && FieldOf(block[..n]).value.0 == key {
      found := true;
      assert Declares(block, 0, n, key);
    }
  }

  lemma FieldsFirst(block: string, fields: map<string, string>, n: nat)
    requires n == LineEnd(block)
    ensures Fields(block, fields)
      == var fields' := WithField(fields, block[..n]); if n < |block| then Fields(block[n + 1..], fields') else fields'
  {
    hide FieldOf;
  }

  lemma ShiftBack(block: string, n: nat, i: nat, j: nat)
    requires n < |block| && i <= j <= |block| - n - 1
    ensures block[n + 1..][i..j] == block[n + 1 + i..n + 1 + j]
  {
  }

  /** The first line ends at n, and no other line begins before n. */
  lemma FirstLine(block: string, n: nat)
    requires n == LineEnd(block)
    ensures LineAt(block, 0, n)
    ensures forall i: nat, j: nat :: LineAt(block, i, j) && i <= n ==> i == 0 && j == n
  {
    assert block[0..n] == block[..n];
  }

  /** Any other line is a line of what follows the first. */
  lemma LinesBelow(block: string, n: nat, key: string)
    requires n == LineEnd(block) < |block|
    ensures forall i: nat, j: nat :: i > n ==>
      (Declares(block, i, j, key) <==> j > n && Declares(block[n + 1..], i - n - 1, j - n - 1, key))
  {
    hide FieldOf, LineAt;
    var rest := block[n + 1..];
    forall i: nat, j: nat | i > n
      ensures Declares(block, i, j, key) <==> j > n && Declares(rest, i - n - 1, j - n - 1, key)
    {
      LineShifts(block, n, i, j);
    }
  }

  lemma LineShifts(block: string, n: nat, i: nat, j: nat)
    requires n == LineEnd(block) < |block| && i > n
    ensures LineAt(block, i, j) <==> j > n && LineAt(block[n + 1..], i - n - 1, j - n - 1)
    ensures i <= j <= |block| ==> block[i..j] == block[n + 1..][i - n - 1..j - n - 1]
    ensures LineAt(block, i, j) ==> i <= j <= |block|
  {
    hide LineAt, LineEnd;
    LineInRange(block, i, j);
    var rest := block[n + 1..];
    if i <= j <= |block| {
      ShiftBack(block, n, i - n - 1, j - n - 1);
      SameLine(block, rest, n, i, j);
    } else if j > n {
      LineInRange(rest, i - n - 1, j - n - 1);
    }
  }

  lemma LineInRange(block: string, i: nat, j: nat)
    ensures LineAt(block, i, j) ==> i <= j <= |block|
  {
  }

  lemma SameLine(block: string, rest: string, n: nat, i: nat, j: nat)
    requires n < i <= j <= |block| && block[n] == '\n' && |rest| == |block| - n - 1
    requires forall k :: n < k < |block| ==> rest[k - n - 1] == block[k]
    requires block[i..j] == rest[i - n - 1..j - n - 1]
    ensures LineAt(block, i, j) <==> LineAt(rest, i - n - 1, j - n - 1)
  {
  }
}
