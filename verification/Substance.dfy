/**
 White space in byte strings, as strings.TrimSpace sees it, and the text that is left when
 all of it is taken out.
 */
module Substance {
  import opened Splitting

  predicate Space1(b: Byte) {
    9 <= b <= 13 || b == 32
  }

  predicate Space2(b: Byte, c: Byte) {
    b == 0xC2 && (c == 0x85 || c == 0xA0)
  }

  predicate Space3(b: Byte, c: Byte, d: Byte) {
    || (b == 0xE1 && c == 0x9A && d == 0x80)
    || (b == 0xE2 && c == 0x80 && (0x80 <= d <= 0x8A || d == 0xA8 || d == 0xA9 || d == 0xAF))
    || (b == 0xE2 && c == 0x81 && d == 0x9F)
    || (b == 0xE3 && c == 0x80 && d == 0x80)
  }

  /** The length of the white space character s starts with, or 0. */
  function SpaceAt(s: Bytes): (n: nat)
    ensures n <= |s|
  {
    if |s| >= 1 && Space1(s[0]) then 1
    else if |s| >= 2 && Space2(s[0], s[1]) then 2
    else if |s| >= 3 && Space3(s[0], s[1], s[2]) then 3
    else 0
  }

  /** The length of the white space character s ends with, or 0. */
  function SpaceEnd(s: Bytes): (n: nat)
    ensures n <= |s|
    ensures n > 0 ==> SpaceAt(s[|s| - n..]) == n && !Continues(s[|s| - n])
  {
    var n := |s|;
    if n >= 1 && Space1(s[n - 1]) then 1
    else if n >= 2 && Space2(s[n - 2], s[n - 1]) then 2
    else if n >= 3 && Space3(s[n - 3], s[n - 2], s[n - 1]) then 3
    else 0
  }

  function TrimStart(s: Bytes): Bytes
    decreases |s|
  {
    if SpaceAt(s) > 0 then TrimStart(s[SpaceAt(s)..]) else s
  }

  function TrimEnd(s: Bytes): Bytes
    decreases |s|
  {
    if SpaceEnd(s) > 0 then TrimEnd(s[..|s| - SpaceEnd(s)]) else s
  }

  function Trim(s: Bytes): Bytes {
    TrimEnd(TrimStart(s))
  }

  /** The text without its white space. */
  function Solid(s: Bytes): Bytes
    decreases |s|
  {
    if s == [] then []
    else if SpaceAt(s) > 0 then Solid(s[SpaceAt(s)..])
    else [s[0]] + Solid(s[1..])
  }

  predicate Lead(b: Byte) {
    b == 0xC2 || b == 0xE1 || b == 0xE2 || b == 0xE3
  }

  /** No white space character lies across the seam of a and b. */
  predicate Apart(a: Bytes, b: Bytes) {
    || a == [] || b == [] || !Continues(b[0])
    || (!Lead(a[|a| - 1]) && (|a| >= 2 && Continues(a[|a| - 1]) ==> !Lead(a[|a| - 2])))
  }

  lemma SpaceAtSeam(a: Bytes, b: Bytes)
    requires a != [] && Apart(a, b)
    ensures SpaceAt(a + b) == SpaceAt(a)
  {
    var s := a + b;
    assert s[0] == a[0] && (|a| >= 2 ==> s[1] == a[1]) && (|a| >= 3 ==> s[2] == a[2]);
    assert |a| == 1 && b != [] ==> s[1] == b[0];
    assert |a| == 2 && b != [] ==> s[2] == b[0];
  }

  lemma ApartSuffix(a: Bytes, b: Bytes, n: nat)
    requires Apart(a, b) && n <= |a|
    ensures Apart(a[n..], b)
  {
  }

  /** Taking white space out works piece by piece. */
  lemma {:induction false} SolidConcat(a: Bytes, b: Bytes)
    requires Apart(a, b)
    ensures Solid(a + b) == Solid(a) + Solid(b)
    decreases |a|
  {
    hide SpaceAt, Apart;
    if a == [] {
      assert a + b == b;
    } else {
      SpaceAtSeam(a, b);
      var n := if SpaceAt(a) > 0 then SpaceAt(a) else 1;
      ApartSuffix(a, b, n);
      SolidConcat(a[n..], b);
      assert (a + b)[n..] == a[n..] + b;
    }
  }

  lemma {:induction false} TrimStartKeeps(s: Bytes)
    ensures Solid(TrimStart(s)) == Solid(s)
    decreases |s|
  {
    hide SpaceAt;
    if SpaceAt(s) > 0 { TrimStartKeeps(s[SpaceAt(s)..]); }
  }

  lemma {:induction false} TrimEndKeeps(s: Bytes)
    ensures Solid(TrimEnd(s)) == Solid(s)
    decreases |s|
  {
    hide SpaceAt, SpaceEnd;
    var n := SpaceEnd(s);
    if n > 0 {
      var a, b := s[..|s| - n], s[|s| - n..];
      TrimEndKeeps(a);
      SolidConcat(a, b);
      assert a + b == s;
      assert b[n..] == [];
      assert Solid(b) == Solid(b[n..]) == [];
    }
  }

  /** Trimming loses nothing but white space. */
  lemma TrimKeeps(s: Bytes)
    ensures Solid(Trim(s)) == Solid(s)
  {
    TrimStartKeeps(s);
    TrimEndKeeps(TrimStart(s));
  }

  lemma {:induction false} AllSpace(s: Bytes)
    requires Solid(s) == []
    ensures TrimStart(s) == []
    decreases |s|
  {
    hide SpaceAt;
    if s != [] { AllSpace(s[SpaceAt(s)..]); }
  }

  /** A text trims to nothing exactly when it is all white space. */
  lemma TrimIsEmpty(s: Bytes)
    ensures Trim(s) == [] <==> Solid(s) == []
  {
    TrimKeeps(s);
    if Solid(s) == [] { AllSpace(s); }
  }

  // ---------------------------------------------------------------------------
  // Seams
  // ---------------------------------------------------------------------------

  /** ASCII white space parts what is before it from what is after it. */
  lemma {:induction false} SolidOfBlank(s: Bytes)
    requires forall k :: 0 <= k < |s| ==> Space1(s[k])
    ensures Solid(s) == []
  {
    if s != [] {
      assert SpaceAt(s) == 1;
      SolidOfBlank(s[1..]);
    }
  }

  lemma SolidAround(a: Bytes, blank: Bytes, b: Bytes)
    requires blank != [] && forall k :: 0 <= k < |blank| ==> Space1(blank[k])
    ensures Solid(a + blank + b) == Solid(a) + Solid(b)
  {
    hide Solid;
    SolidConcat(a, blank);
    SolidConcat(a + blank, b);
    SolidOfBlank(blank);
  }

  lemma CutIsApart(s: Bytes)
    requires |s| > MAX
    ensures Apart(s[..Cut(s)], s[Cut(s)..])
  {
    var cut := Cut(s);
    if LastStart(s, MAX) == 0 {
      assert Continues(s[MAX - 1]) && Continues(s[MAX - 2]);
    }
  }

  function SolidOf(pieces: seq<Bytes>): Bytes {
    if pieces == [] then [] else Solid(pieces[0]) + SolidOf(pieces[1..])
  }

  lemma {:induction false} SolidOfConcat(a: seq<Bytes>, b: seq<Bytes>)
    ensures SolidOf(a + b) == SolidOf(a) + SolidOf(b)
  {
    hide Solid;
    if a == [] {
      assert a + b == b;
    } else {
      SolidOfConcat(a[1..], b);
      assert (a + b)[0] == a[0] && (a + b)[1..] == a[1..] + b;
      assert Solid(a[0]) + (SolidOf(a[1..]) + SolidOf(b)) == (Solid(a[0]) + SolidOf(a[1..])) + SolidOf(b);
    }
  }

  /** Cutting an oversized block loses nothing of it, even where it is not valid text. */
  lemma {:induction false} SolidOfPieces(s: Bytes)
    ensures SolidOf(Pieces(s)) == Solid(s)
    decreases |s|
  {
    hide Cut, Solid;
    if |s| > MAX {
      var a, b := s[..Cut(s)], s[Cut(s)..];
      SolidOfPieces(b);
      CutIsApart(s);
      SolidConcat(a, b);
      assert a + b == s && Pieces(s)[1..] == Pieces(b);
    } else {
      assert Pieces(s)[1..] == [];
    }
  }
}
