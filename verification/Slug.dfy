/**
 File-name slugs (backend/internal/bundle/slug.go).
 */
module Slug {
  import opened Wrappers
  import opened Text

  const MAX_SLUG_LEN: nat := 48

  /** unicode.ToLower, as far as a slug can tell: beyond these ranges a letter and its lower
      case are both outside ASCII and outside the folding table, so both end up as a dash. */
  function Lower(c: char): char {
    if 'A' <= c <= 'Z' then (c as int + 32) as char
    else if 'À' <= c <= 'Þ' && c != '×' then (c as int + 32) as char
    else if c == '\U{130}' then 'i'
    else if c == '\U{212A}' then 'k'
    else if c == '\U{212B}' then 'å'
    else if c == '\U{1E9E}' then 'ß'
    else c
  }

  /** The foldings table. */
  function Fold(c: char): Option<string> {
    if c in "áàäâãå" then Some("a")
    else if c in "éèëê" then Some("e")
    else if c in "íìïî" then Some("i")
    else if c in "óòöôõø" then Some("o")
    else if c in "úùüû" then Some("u")
    else if c == 'ñ' then Some("n")
    else if c == 'ç' then Some("c")
    else if c == 'ß' then Some("ss")
    else if c == 'æ' then Some("ae")
    else None
  }

  predicate Alphanumeric(c: char) {
    'a' <= c <= 'z' || '0' <= c <= '9'
  }

  /** The letters and dashes the loop of slugify writes for the rest of a title. */
  function Letters(rest: string, lastDash: bool): string {
    if rest == "" then ""
    else
      var c := Lower(rest[0]);
      if Fold(c).Some? then Fold(c).value + Letters(rest[1..], false)
      else if Alphanumeric(c) then [c] + Letters(rest[1..], false)
      else if !lastDash then "-" + Letters(rest[1..], true)
      else Letters(rest[1..], true)
  }

  function LastDash(s: string): int {
    if s == "" then -1 else if s[|s| - 1] == '-' then |s| - 1 else LastDash(s[..|s| - 1])
  }

  function TruncateSlug(s: string): string {
    if |s| <= MAX_SLUG_LEN then s
    else
      var cut := s[..MAX_SLUG_LEN];
      var idx := LastDash(cut);
      if MAX_SLUG_LEN / 2 < idx < |cut| then cut[..idx] else cut
  }

  function TrimDashesLeft(s: string): string {
    if s != "" && s[0] == '-' then TrimDashesLeft(s[1..]) else s
  }

  function TrimDashesRight(s: string): string {
    if s != "" && s[|s| - 1] == '-' then TrimDashesRight(s[..|s| - 1]) else s
  }

  function Slugified(title: string): string {
    TrimDashesRight(TrimDashesLeft(TruncateSlug(Letters(TrimSpace(title), true))))
  }

  method Slugify(title: string) returns (slug: string)
    ensures slug == Slugified(title)
  {
    var runes := TrimSpace(title);
    var b := "";
    var lastDash := true; // leading dashes are suppressed
    for i := 0 to |runes|
      invariant b + Letters(runes[i..], lastDash) == Letters(runes, true)
    {
      assert runes[i..][1..] == runes[i + 1..];
      var r := Lower(runes[i]);
      if Fold(r).Some? {
        b, lastDash := b + Fold(r).value, false;
      } else if Alphanumeric(r) {
        b, lastDash := b + [r], false;
      } else if !lastDash {
        b, lastDash := b + "-", true;
      }
    }
    assert runes[|runes|..] == "" && b == Letters(runes, true);
    slug := TrimDashesRight(TrimDashesLeft(TruncateSlug(b)));
  }

  // ---------------------------------------------------------------------------
  // Canonical slugs
  // ---------------------------------------------------------------------------

  predicate SlugText(s: string) {
    && (forall i :: 0 <= i < |s| ==> Alphanumeric(s[i]) || s[i] == '-')
    && (forall i :: 0 <= i < |s| - 1 ==> !(s[i] == '-' && s[i + 1] == '-'))
  }

  /** At most 48 bytes of lower-case ASCII, words separated by single dashes. */
  predicate Canonical(s: string) {
    && SlugText(s) && |s| <= MAX_SLUG_LEN
    && (s != "" ==> s[0] != '-' && s[|s| - 1] != '-')
  }

  lemma {:induction false} LettersAreSlugText(rest: string, lastDash: bool)
    ensures SlugText(Letters(rest, lastDash))
    ensures lastDash && Letters(rest, lastDash) != "" ==> Letters(rest, lastDash)[0] != '-'
  {
    if rest != "" {
      LettersAreSlugText(rest[1..], false);
      LettersAreSlugText(rest[1..], true);
    }
  }

  lemma {:induction false} TrimmedDashes(s: string)
    requires SlugText(s) && (s != "" ==> s[0] != '-')
    ensures var t := TrimDashesRight(TrimDashesLeft(s));
      t <= s && (t != "" ==> t[0] != '-' && t[|t| - 1] != '-') && SlugText(t)
  {
    if s != "" && s[|s| - 1] == '-' { TrimmedDashes(s[..|s| - 1]); }
  }

  lemma {:induction false} LettersFix(s: string, lastDash: bool)
    requires SlugText(s) && (lastDash && s != "" ==> s[0] != '-')
    ensures Letters(s, lastDash) == s
  {
    if s != "" {
      assert SlugText(s[1..]);
      LettersFix(s[1..], s[0] == '-');
    }
  }

  /** slugify always produces a canonical slug, and the canonical slugs are exactly its fixed
      points: slugifying twice changes nothing. */
  lemma SlugifiedIsCanonical(title: string)
    ensures Canonical(Slugified(title))
    ensures Slugified(title) == title <==> Canonical(title)
    ensures Slugified(Slugified(title)) == Slugified(title)
  {
    SlugIsCanonical(title);
    if Canonical(title) { CanonicalIsFixed(title); }
    CanonicalIsFixed(Slugified(title));
  }

  lemma SlugIsCanonical(title: string)
    ensures Canonical(Slugified(title))
  {
    var letters := Letters(TrimSpace(title), true);
    LettersAreSlugText(TrimSpace(title), true);
    var cut := TruncateSlug(letters);
    assert cut <= letters;
    TrimmedDashes(cut);
  }

  lemma CanonicalIsFixed(s: string)
    requires Canonical(s)
    ensures Slugified(s) == s
  {
    TrimNothing(s);
    LettersFix(s, true);
  }

  // ---------------------------------------------------------------------------
  // Collisions
  // ---------------------------------------------------------------------------

  /** The n-th name uniqueSlug tries: the slug itself, then slug-2, slug-3 and so on. */
  function Candidate(slug: string, n: nat): string {
    if n <= 1 then slug else slug + "-" + Decimal(n)
  }

  lemma CandidateInjective(slug: string, m: nat, n: nat)
    requires 1 <= m && 1 <= n && Candidate(slug, m) == Candidate(slug, n)
    ensures m == n
  {
    if 2 <= m && 2 <= n {
      assert Candidate(slug, m)[|slug| + 1..] == Decimal(m);
      assert Candidate(slug, n)[|slug| + 1..] == Decimal(n);
      DecimalInjective(m, n);
    }
  }

  /** The first candidate from n on that is not in left; every one that is makes left smaller. */
  function FirstFree(slug: string, n: nat, left: set<string>): nat
    decreases |left|
  {
    var c := Candidate(slug, n);
    if c in left then FirstFree(slug, n + 1, left - {c}) else n
  }

  /** FirstFree stops at the least free number, although it forgets the names it has seen: no
      later candidate can be one of them. */
  lemma {:induction false} FirstFreeIsLeast(slug: string, n: nat, left: set<string>)
    requires n >= 1
    ensures var f := FirstFree(slug, n, left);
      && f >= n && Candidate(slug, f) !in left
      && forall m: nat :: n <= m < f ==> Candidate(slug, m) in left
    decreases |left|
  {
    var c := Candidate(slug, n);
    if c in left {
      FirstFreeIsLeast(slug, n + 1, left - {c});
      NotAgain(slug, n, FirstFree(slug, n + 1, left - {c}));
    }
  }

  lemma NotAgain(slug: string, n: nat, later: nat)
    requires 1 <= n < later
    ensures Candidate(slug, later) != Candidate(slug, n)
  {
    if Candidate(slug, later) == Candidate(slug, n) { CandidateInjective(slug, later, n); }
  }

  function Free(base: string, taken: set<string>): string {
    Candidate(base, FirstFree(base, 1, taken))
  }

  function Unique(slug: string, fallback: string, taken: set<string>): string {
    Free(if slug == "" then fallback else slug, taken)
  }

  /** The name handed out is free, and is the first free one of the candidates. */
  lemma UniqueIsFree(slug: string, fallback: string, taken: set<string>)
    ensures Unique(slug, fallback, taken) !in taken
    ensures var base := if slug == "" then fallback else slug;
      exists n: nat :: n >= 1 && Unique(slug, fallback, taken) == Candidate(base, n)
        && forall m: nat :: 1 <= m < n ==> Candidate(base, m) in taken
  {
    var base := if slug == "" then fallback else slug;
    FirstFreeIsLeast(base, 1, taken);
  }

  method UniqueSlug(slug: string, fallback: string, taken: set<string>)
    returns (candidate: string, taken': set<string>)
    ensures candidate == Unique(slug, fallback, taken) && taken' == taken + {candidate}
  {
    var base := if slug == "" then fallback else slug;
    candidate := base;
    var n := 2;
    ghost var left := taken;
    while candidate in taken
      invariant n >= 2 && left <= taken && candidate == Candidate(base, n - 1)
      invariant FirstFree(base, n - 1, left) == FirstFree(base, 1, taken)
      invariant forall m: nat :: m >= n - 1 && Candidate(base, m) in taken ==> Candidate(base, m) in left
      decreases |left|
    {
      forall m: nat | m >= n && Candidate(base, m) in taken
        ensures Candidate(base, m) in left - {candidate}
      {
        if Candidate(base, m) == candidate { CandidateInjective(base, m, n - 1); }
      }
      left := left - {candidate};
      candidate := base + "-" + Decimal(n);
      n := n + 1;
    }
    taken' := taken + {candidate};
  }

  /** The slugs handed out when the given ones are asked for in order. */
  function Handed(bases: seq<string>): set<string> {
    if bases == [] then {}
    else
      var before := Handed(bases[..|bases| - 1]);
      before + {Free(bases[|bases| - 1], before)}
  }

  lemma HandedStep(bases: seq<string>, i: nat)
    requires i < |bases|
    ensures Handed(bases[..i + 1]) == Handed(bases[..i]) + {Free(bases[i], Handed(bases[..i]))}
  {
    assert bases[..i + 1][..i] == bases[..i];
  }

  lemma {:induction false} HandedHolds(bases: seq<string>, i: nat, slug: string)
    requires i < |bases| && slug == Free(bases[i], Handed(bases[..i]))
    ensures slug in Handed(bases)
  {
    var last := |bases| - 1;
    if i < last {
      assert bases[..last][..i] == bases[..i];
      HandedHolds(bases[..last], i, slug);
    }
  }

  /** No slug is handed out twice. */
  lemma HandedOnce(bases: seq<string>, i: nat, j: nat)
    requires i < j < |bases|
    ensures Free(bases[i], Handed(bases[..i])) != Free(bases[j], Handed(bases[..j]))
  {
    assert bases[..j][..i] == bases[..i];
    HandedHolds(bases[..j], i, Free(bases[i], Handed(bases[..i])));
    FreeIsNew(bases[j], Handed(bases[..j]));
  }

  lemma FreeIsNew(base: string, taken: set<string>)
    ensures Free(base, taken) !in taken
  {
    FirstFreeIsLeast(base, 1, taken);
  }

  predicate SlugChar(c: char) {
    Alphanumeric(c) || c == '-'
  }

  predicate SlugChars(s: string) {
    forall c :: c in s ==> SlugChar(c)
  }

  lemma FreeChars(base: string, taken: set<string>)
    requires SlugChars(base)
    ensures SlugChars(Free(base, taken))
  {
    CandidateChars(base, FirstFree(base, 1, taken));
  }

  lemma CandidateChars(base: string, n: nat)
    requires SlugChars(base)
    ensures SlugChars(Candidate(base, n))
  {
    forall c | c in Candidate(base, n) ensures SlugChar(c) {
      if c !in base && c != '-' { assert c in Decimal(n); }
    }
  }
}
