/**
 Splitting oversized blocks without cutting a character
 (backend/internal/convert/extract.go:112-138), on bytes.
 */
module Splitting {

  type Byte = b: int | 0 <= b < 256

  type Bytes = seq<Byte>

  /** maxParagraphBytes. */
  const MAX: nat := 20_000

  /** A byte that continues a character; utf8.RuneStart holds of every other one. */
  predicate Continues(b: Byte) {
    0x80 <= b < 0xC0
  }

  /** Where the loop over cut stops: the last character start at or before k, or 0. */
  function LastStart(s: Bytes, k: nat): (cut: nat)
    requires k < |s|
    ensures cut <= k && (cut > 0 ==> !Continues(s[cut])) && forall j :: cut < j <= k ==> Continues(s[j])
  {
    if k > 0 && Continues(s[k]) then LastStart(s, k - 1) else k
  }

  function Cut(s: Bytes): (cut: nat)
    requires |s| > MAX
    ensures 0 < cut <= MAX
  {
    var cut := LastStart(s, MAX);
    if cut == 0 then MAX else cut
  }

  function Pieces(s: Bytes): (pieces: seq<Bytes>)
    ensures pieces != []
    decreases |s|
  {
    if |s| <= MAX then [s] else [s[..Cut(s)]] + Pieces(s[Cut(s)..])
  }

  method SplitOversizedBlock(block: Bytes) returns (out: seq<Bytes>)
    ensures out == Pieces(block)
  {
    if |block| <= MAX { return [block]; }
    var s := block;
    out := [];
    while |s| > MAX
      invariant out + Pieces(s) == Pieces(block) && s != []
      decreases |s|
    {
      var cut := MAX;
      while cut > 0 && Continues(s[cut])
        invariant 0 <= cut <= MAX && LastStart(s, cut) == LastStart(s, MAX)
      {
        cut := cut - 1;
      }
      if cut == 0 { cut := MAX; }
      assert cut == Cut(s);
      out := out + [s[..cut]];
      s := s[cut..];
    }
    if |s| > 0 { out := out + [s]; }
  }

  function Concat(pieces: seq<Bytes>): Bytes {
    if pieces == [] then [] else pieces[0] + Concat(pieces[1..])
  }

  /** For every byte string, the pieces make up the input again, and each is within bounds. */
  lemma {:induction false} PiecesRestore(s: Bytes)
    ensures Concat(Pieces(s)) == s
    ensures s != [] ==> forall k :: 0 <= k < |Pieces(s)| ==> 1 <= |Pieces(s)[k]| <= MAX
    decreases |s|
  {
    hide Cut;
    if |s| > MAX {
      PiecesRestore(s[Cut(s)..]);
      ConcatHead(s[..Cut(s)], Pieces(s[Cut(s)..]));
      assert s[..Cut(s)] + s[Cut(s)..] == s;
    } else {
      ConcatHead(s, []);
    }
  }

  lemma ConcatHead(first: Bytes, rest: seq<Bytes>)
    ensures Concat([first] + rest) == first + Concat(rest)
  {
    assert ([first] + rest)[1..] == rest;
  }

  // ---------------------------------------------------------------------------
  // UTF-8, after section 3 of RFC 3629
  // ---------------------------------------------------------------------------

  predicate Within(b: Byte, low: int, high: int) {
    low <= b <= high
  }

  /** The length of the character s starts with, or 0 if it starts with none. */
  function CharLength(s: Bytes): (n: nat)
    ensures n <= |s| && n <= 4
    ensures n > 0 ==> !Continues(s[0]) && forall k :: 0 < k < n ==> Continues(s[k])
  {
    if s == [] then 0
    else if s[0] < 0x80 then 1
    else if |s| >= 2 && Within(s[0], 0xC2, 0xDF) && Continues(s[1]) then 2
    else if |s| >= 3 && Continues(s[2]) && (
      || (s[0] == 0xE0 && Within(s[1], 0xA0, 0xBF))
      || ((Within(s[0], 0xE1, 0xEC) || Within(s[0], 0xEE, 0xEF)) && Continues(s[1]))
      || (s[0] == 0xED && Within(s[1], 0x80, 0x9F))) then 3
    else if |s| >= 4 && Continues(s[2]) && Continues(s[3]) && (
      || (s[0] == 0xF0 && Within(s[1], 0x90, 0xBF))
      || (Within(s[0], 0xF1, 0xF3) && Continues(s[1]))
      || (s[0] == 0xF4 && Within(s[1], 0x80, 0x8F))) then 4
    else 0
  }

  predicate Valid(s: Bytes) {
    s == [] || (CharLength(s) > 0 && Valid(s[CharLength(s)..]))
  }

  lemma CharLengthOfPrefix(s: Bytes, k: nat)
    requires 0 < CharLength(s) <= k <= |s|
    ensures CharLength(s[..k]) == CharLength(s)
  {
    var n := CharLength(s);
    assert forall j :: 0 <= j < n ==> s[..k][j] == s[j];
  }

  /** Valid text can be cut before any byte that starts a character. */
  lemma {:induction false} CutKeepsValid(s: Bytes, k: nat)
    requires Valid(s) && k <= |s| && (k < |s| ==> !Continues(s[k]))
    ensures Valid(s[..k]) && Valid(s[k..])
    decreases |s|
  {
    hide CharLength;
    if k == 0 {
      assert s[0..] == s;
    } else {
      var n := CharLength(s);
      assert n <= k;
      CutKeepsValid(s[n..], k - n);
      CharLengthOfPrefix(s, k);
      Slices(s, n, k);
    }
  }

  lemma Slices(s: Bytes, n: nat, k: nat)
    requires n <= k <= |s|
    ensures s[..k][n..] == s[n..][..k - n] && s[k..] == s[n..][k - n..]
  {
  }

  /** In valid text, one of any four bytes in a row starts a character. */
  lemma {:induction false} StartIsNear(s: Bytes, k: nat)
    requires Valid(s) && k < |s|
    ensures exists j: nat :: j <= k < j + 4 && !Continues(s[j])
    decreases |s|
  {
    var n := CharLength(s);
    if k >= n {
      StartIsNear(s[n..], k - n);
      var j: nat :| j <= k - n < j + 4 && !Continues(s[n..][j]);
      assert !Continues(s[n + j]);
    }
  }

  lemma CutIsLate(s: Bytes)
    requires Valid(s) && |s| > MAX
    ensures MAX - 3 <= Cut(s) && !Continues(s[Cut(s)])
  {
    StartIsNear(s, MAX);
  }

  /** Valid text is cut into valid pieces, all but the last nearly full, and so into few. */
  lemma {:induction false} PiecesOfText(s: Bytes)
    requires Valid(s)
    ensures forall k :: 0 <= k < |Pieces(s)| ==> Valid(Pieces(s)[k])
    ensures forall k :: 0 <= k < |Pieces(s)| - 1 ==> |Pieces(s)[k]| >= MAX - 3
    ensures |Pieces(s)| <= |s| / (MAX - 3) + 1
    decreases |s|
  {
    if |s| > MAX {
      var cut := Cut(s);
      CutIsLate(s);
      CutKeepsValid(s, cut);
      PiecesOfText(s[cut..]);
      QuotientDrops(|s|, |s| - cut);
    }
  }

  lemma QuotientDrops(n: nat, rest: nat)
    requires rest + (MAX - 3) <= n
    ensures rest / (MAX - 3) + 1 <= n / (MAX - 3)
  {
  }
}
