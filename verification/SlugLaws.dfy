/**
 File-name slugs said without the loop that writes them (backend/internal/bundle/slug.go:11-70).
 */
module SlugLaws {
  import opened Wrappers
  import opened Text
  import opened Slug

  // ---------------------------------------------------------------------------
  // Letters
  // ---------------------------------------------------------------------------

  const FOLDED := "áàäâãåéèëêíìïîóòöôõøúùüûñç"
  const PLAIN := "aaaaaaeeeeiiiioooooouuuunc"

  /** Each accented letter is written as its plain one, two as a pair, and nothing else is folded. */
  lemma FoldTable()
    ensures |FOLDED| == |PLAIN| && forall k :: 0 <= k < |FOLDED| ==> Fold(FOLDED[k]) == Some([PLAIN[k]])
  {
  }

  lemma FoldPairs()
    ensures Fold('ß') == Some("ss") && Fold('æ') == Some("ae")
  {
  }

  lemma OnlyTheseFold(c: char)
    ensures Fold(c).Some? ==> c in FOLDED || c == 'ß' || c == 'æ'
  {
  }

  const CAPITALS := "ÁÀÄÂÃÅÉÈËÊÍÌÏÎÓÒÖÔÕØÚÙÜÛÑÇÆ"
  const SMALL := "áàäâãåéèëêíìïîóòöôõøúùüûñçæ"

  /** Capitals are written small. */
  lemma LowerTable()
    ensures |CAPITALS| == |SMALL| && forall k :: 0 <= k < |CAPITALS| ==> Lower(CAPITALS[k]) == SMALL[k]
  {
  }

  lemma LowerIs(c: char)
    ensures 'A' <= c <= 'Z' ==> 'a' <= Lower(c) <= 'z' && Lower(c) as int - 'a' as int == c as int - 'A' as int
    ensures 'a' <= c <= 'z' || '0' <= c <= '9' || c == 'ß' ==> Lower(c) == c
  {
  }

  lemma SmallStays()
    ensures forall k :: 0 <= k < |SMALL| ==> Lower(SMALL[k]) == SMALL[k]
  {
  }

  /** Nothing else reads as a letter of a slug, but for the four characters whose lower case does. */
  lemma NothingElse(c: char)
    requires Kept(c) != ""
    ensures 'a' <= c <= 'z' || 'A' <= c <= 'Z' || '0' <= c <= '9' || 'À' <= c <= 'ÿ'
      || c == '\U{130}' || c == '\U{212A}' || c == '\U{212B}' || c == '\U{1E9E}'
  {
  }

  /** What a character of a title leaves in the slug. */
  function Kept(c: char): string {
    if Fold(Lower(c)).Some? then Fold(Lower(c)).value
    else if Alphanumeric(Lower(c)) then [Lower(c)] else ""
  }

  // ---------------------------------------------------------------------------
  // Words and dashes
  // ---------------------------------------------------------------------------

  /** A character with something to keep is written as it is, wherever it stands. */
  lemma KeptIsWritten(c: char, rest: string, lastDash: bool)
    requires Kept(c) != ""
    ensures Letters([c] + rest, lastDash) == Kept(c) + Letters(rest, false)
  {
    assert ([c] + rest)[1..] == rest;
  }

  /** Any run of others is one dash after a letter, and nothing at the start or after a dash. */
  lemma {:induction false} GapIsDash(gap: string, rest: string, lastDash: bool)
    requires gap != "" && forall c :: c in gap ==> Kept(c) == ""
    ensures Letters(gap + rest, lastDash) == (if lastDash then "" else "-") + Letters(rest, true)
  {
    hide Fold, Lower, Alphanumeric;
    var c := gap[0];
    assert c in gap && (gap + rest)[1..] == gap[1..] + rest;
    NotKept(c);
    if |gap| > 1 {
      assert forall d :: d in gap[1..] ==> d in gap;
      GapIsDash(gap[1..], rest, true);
    } else {
      assert gap[1..] + rest == rest;
    }
  }

  lemma NotKept(c: char)
    requires Kept(c) == ""
    ensures Fold(Lower(c)).None? && !Alphanumeric(Lower(c))
  {
  }

  function Dashless(s: string): string {
    if s == "" then "" else (if s[0] == '-' then "" else [s[0]]) + Dashless(s[1..])
  }

  lemma {:induction false} DashlessConcat(a: string, b: string)
    ensures Dashless(a + b) == Dashless(a) + Dashless(b)
  {
    if a == "" {
      assert a + b == b;
    } else {
      assert (a + b)[1..] == a[1..] + b;
      DashlessConcat(a[1..], b);
    }
  }

  lemma KeptHasNoDash(c: char)
    ensures Dashless(Kept(c)) == Kept(c)
  {
  }

  /** Dashes apart, the letters written are those kept of the title, all of them in order. */
  lemma {:induction false} LettersKeepAll(rest: string, lastDash: bool)
    ensures Dashless(Letters(rest, lastDash)) == Mapped(rest, Kept)
  {
    hide Fold, Lower, Alphanumeric, Dashless, Kept;
    if rest == "" {
      NoLetters();
    } else {
      var c := rest[0];
      LettersKeepAll(rest[1..], false);
      LettersKeepAll(rest[1..], true);
      assert [c] + rest[1..] == rest;
      assert Mapped(rest, Kept) == Kept(c) + Mapped(rest[1..], Kept);
      if Kept(c) != "" {
        KeptIsWritten(c, rest[1..], lastDash);
        KeptHasNoDash(c);
        DashlessConcat(Kept(c), Letters(rest[1..], false));
      } else {
        GapIsDash([c], rest[1..], lastDash);
        DashlessConcat("-", Letters(rest[1..], true));
        assert "" + Letters(rest[1..], true) == Letters(rest[1..], true);
        assert "" + Mapped(rest[1..], Kept) == Mapped(rest[1..], Kept);
        NoLetters();
      }
    }
  }

  lemma NoLetters()
    ensures Dashless("") == "" && Dashless("-") == ""
  {
    assert "-"[1..] == "";
  }

  // ---------------------------------------------------------------------------
  // The end of a slug
  // ---------------------------------------------------------------------------

  lemma {:induction false} LastDashIs(s: string)
    ensures -1 <= LastDash(s) < |s| && (LastDash(s) >= 0 ==> s[LastDash(s)] == '-')
    ensures forall k :: LastDash(s) < k < |s| ==> s[k] != '-'
  {
    if s != "" && s[|s| - 1] != '-' { LastDashIs(s[..|s| - 1]); }
  }

  /** At most 48 characters: the whole text if it fits; otherwise up to its last dash within them,
      if that is past the middle, and the first 48 if there is none. */
  lemma TruncatedIs(s: string)
    ensures |s| <= 48 ==> TruncateSlug(s) == s
    ensures |s| > 48 ==> (var t := TruncateSlug(s);
      && t <= s && 24 < |t| <= 48
      && (|t| < 48 ==> s[|t|] == '-' && forall k :: |t| < k < 48 ==> s[k] != '-')
      && (|t| == 48 ==> forall k :: 24 < k < 48 ==> s[k] != '-'))
  {
    if |s| > 48 {
      LastDashIs(s[..MAX_SLUG_LEN]);
      assert forall k :: 0 <= k < 48 ==> s[..MAX_SLUG_LEN][k] == s[k];
    }
  }

  /** The slug of a title is what is left of its letters after the cut, without a dash at the end. */
  lemma SlugIs(title: string)
    ensures var cut := TruncateSlug(Letters(TrimSpace(title), true)); var slug := Slugified(title);
      (cut == slug || cut == slug + "-") && (slug != "" ==> slug[|slug| - 1] != '-')
  {
    hide Letters, TrimSpace, TruncateSlug;
    var letters := Letters(TrimSpace(title), true);
    LettersAreSlugText(TrimSpace(title), true);
    var cut := TruncateSlug(letters);
    assert cut <= letters by { TruncatedIs(letters); }
    AtMostOne(cut);
  }

  lemma AtMostOne(cut: string)
    requires SlugText(cut) && (cut != "" ==> cut[0] != '-')
    ensures var slug := TrimDashesRight(TrimDashesLeft(cut));
      (cut == slug || cut == slug + "-") && (slug != "" ==> slug[|slug| - 1] != '-')
  {
    if cut != "" && cut[|cut| - 1] == '-' {
      var rest := cut[..|cut| - 1];
      assert rest != "" ==> rest[|rest| - 1] != '-';
      assert cut == rest + "-";
    }
  }

  // ---------------------------------------------------------------------------
  // Numbers against collisions
  // ---------------------------------------------------------------------------

  /** The first try is the slug itself, and the n-th is numbered n. */
  lemma CandidateIs(slug: string, n: nat)
    ensures Candidate(slug, 1) == slug
    ensures n >= 2 ==> Candidate(slug, n) == slug + "-" + Decimal(n)
  {
  }
}
