/**
 * The breaking-news classifier: an article is breaking when its title or its description
 * contains one of four marker words, ignoring case.
 */
module Classifier {
  import opened NewsTypes

  /** The four case-insensitive patterns, in the order they are tried. */
  const Keywords: seq<string> := ["breaking", "urgent", "alert", "exclusive"]

  /**
   * The case folding of an `/i` regular expression without the `u` flag, restricted to what
   * matters for all-ASCII lower-case patterns: a character matches a pattern letter exactly
   * when its ASCII lower-case form is that letter.
   */
  function Lower(c: char): char
  {
    if 'A' <= c <= 'Z' then (c as int + 32) as char else c
  }

  function Folded(text: string): string
  {
    seq(|text|, n requires 0 <= n < |text| => Lower(text[n]))
  }

  /** Reference definition: `kw` occurs in `text` at position `i`, ignoring the case of ASCII letters. */
  ghost predicate OccursAt(text: string, kw: string, i: nat)
  {
    i + |kw| <= |text| && Folded(text)[i..i + |kw|] == kw
  }

  /** Reference definition: `kw` occurs somewhere in `text`, ignoring the case of ASCII letters. */
  ghost predicate ContainsIgnoringCase(text: string, kw: string)
  {
    exists i: nat :: OccursAt(text, kw, i)
  }

  /** Reference definition: some marker occurs in `text`. */
  ghost predicate MentionsMarker(text: string)
  {
    exists m :: 0 <= m < |Keywords| && ContainsIgnoringCase(text, Keywords[m])
  }

  /** Do the characters `j..` of `kw` match `text` from position `i + j` on? */
  function MatchesAt(text: string, kw: string, i: nat, j: nat): bool
    requires i + |kw| <= |text| && j <= |kw|
    decreases |kw| - j
  {
    j == |kw| || (Lower(text[i + j]) == kw[j] && MatchesAt(text, kw, i, j + 1))
  }

  /** `regex.test(text)` for the pattern `kw`, scanning start positions from `i` on. */
  function SearchFrom(text: string, kw: string, i: nat): bool
    decreases |text| - i
  {
    i + |kw| <= |text| && (MatchesAt(text, kw, i, 0) || SearchFrom(text, kw, i + 1))
  }

  /** `keywords.some(regex => regex.test(text))`, from the `k`-th keyword on. */
  function AnyFrom(text: string, kws: seq<string>, k: nat): bool
    decreases |kws| - k
  {
    k < |kws| && (SearchFrom(text, kws[k], 0) || AnyFrom(text, kws, k + 1))
  }

  /** `isBreakingNews(article)`: the title test and the description test, joined by `||`. */
  function IsBreakingNews(a: Article): bool
  {
    var titleMatches := AnyFrom(ToString(a.title), Keywords, 0);
    var descriptionMatches := AnyFrom(ToString(a.description), Keywords, 0);
    titleMatches || descriptionMatches
  }

  lemma {:induction false} MatchesAtIsSliceEquality(text: string, kw: string, i: nat, j: nat)
    requires i + |kw| <= |text| && j <= |kw|
    ensures MatchesAt(text, kw, i, j) <==> Folded(text)[i + j..i + |kw|] == kw[j..]
    decreases |kw| - j
  {
    if j < |kw| {
      MatchesAtIsSliceEquality(text, kw, i, j + 1);
      var f := Folded(text);
      assert f[i + j..i + |kw|] == [f[i + j]] + f[i + j + 1..i + |kw|];
      assert kw[j..] == [kw[j]] + kw[j + 1..];
    }
  }

  /** The scan finds `kw` from position `i` on exactly when some start position `>= i` matches. */
  lemma {:induction false} SearchFromFindsOccurrence(text: string, kw: string, i: nat)
    ensures SearchFrom(text, kw, i) <==> exists p: nat :: i <= p && OccursAt(text, kw, p)
    decreases |text| - i
  {
    if i + |kw| <= |text| {
      MatchesAtIsSliceEquality(text, kw, i, 0);
      assert kw[0..] == kw;
      SearchFromFindsOccurrence(text, kw, i + 1);
      if MatchesAt(text, kw, i, 0) {
        assert OccursAt(text, kw, i);
      }
      if p: nat :| i <= p && OccursAt(text, kw, p) {
        if p > i {
          assert SearchFrom(text, kw, i + 1);
        }
      }
    }
  }

  lemma {:induction false} AnyFromFindsMarker(text: string, kws: seq<string>, k: nat)
    ensures AnyFrom(text, kws, k) <==>
      exists m :: k <= m < |kws| && ContainsIgnoringCase(text, kws[m])
    decreases |kws| - k
  {
    if k < |kws| {
      SearchFromFindsOccurrence(text, kws[k], 0);
      AnyFromFindsMarker(text, kws, k + 1);
      if m :| k <= m < |kws| && ContainsIgnoringCase(text, kws[m]) {
        if m > k {
          assert AnyFrom(text, kws, k + 1);
        }
      }
    }
  }

  /**
   * The classifier is exactly "title or description mentions a marker, ignoring case".
   */
  lemma IsBreakingNewsSpec(a: Article)
    ensures IsBreakingNews(a) <==> MentionsMarker(ToString(a.title)) || MentionsMarker(ToString(a.description))
  {
    AnyFromFindsMarker(ToString(a.title), Keywords, 0);
    AnyFromFindsMarker(ToString(a.description), Keywords, 0);
  }

  /** A missing, null or empty field never matches: `"undefined"`, `"null"` and `""` hold no marker. */
  lemma {:induction false} BlankFieldNeverMatches(v: JsValue)
    requires v == Undefined || v == Null || v == Str("")
    ensures !AnyFrom(ToString(v), Keywords, 0)
  {
    assert Keywords == ["breaking", "urgent", "alert", "exclusive"];
    match v
    case Undefined =>
      assert !SearchFrom("undefined", "alert", 0);
    case Null =>
    case Str(_) =>
  }

  /** With a missing or empty description the verdict depends on the title alone. */
  lemma {:induction false} BlankDescriptionDefersToTitle(a: Article)
    requires a.description == Undefined || a.description == Null || a.description == Str("")
    ensures IsBreakingNews(a) == AnyFrom(ToString(a.title), Keywords, 0)
    ensures IsBreakingNews(a) <==> MentionsMarker(ToString(a.title))
  {
    BlankFieldNeverMatches(a.description);
    AnyFromFindsMarker(ToString(a.title), Keywords, 0);
    AnyFromFindsMarker(ToString(a.description), Keywords, 0);
  }

  /** Worked cases: a marker inside a longer word matches in any case. */
  lemma {:induction false} MarkerInsideWordMatches()
    ensures IsBreakingNews(Article(Str("Alerts"), Undefined, Undefined))
    ensures IsBreakingNews(Article(Str("EXCLUSIVELY"), Str(""), Undefined))
    ensures IsBreakingNews(Article(Str("Breaking: storm hits city"), Str(""), Undefined))
  {
    assert Keywords == ["breaking", "urgent", "alert", "exclusive"];
    assert MatchesAt("Breaking: storm hits city", "breaking", 0, 0);
  }

  /** Worked cases: empty fields and ordinary business news are not breaking. */
  lemma {:induction false} PlainTextDoesNotMatch()
    ensures !IsBreakingNews(Article(Str(""), Str(""), Undefined))
    ensures !IsBreakingNews(Article(Str("Quarterly earnings report"), Str("Company profits rose"), Undefined))
  {
    BlankFieldNeverMatches(Str(""));
    QuarterlyTextHasNoMarker();
    ProfitsTextHasNoMarker();
  }

  lemma {:induction false} QuarterlyTextHasNoMarker()
    ensures !AnyFrom("Quarterly earnings report", Keywords, 0)
  {
    assert Keywords == ["breaking", "urgent", "alert", "exclusive"];
    QuarterlyTextLacksBreaking();
    QuarterlyTextLacksUrgent();
    QuarterlyTextLacksAlert();
    QuarterlyTextLacksExclusive();
  }

  lemma {:induction false} QuarterlyTextLacksBreaking()
    ensures !SearchFrom("Quarterly earnings report", "breaking", 0)
  {
    var text := "Quarterly earnings report";
    assert Lower(text[0]) == 'q';
    assert !SearchFrom(text, "breaking", 16);
    assert !SearchFrom(text, "breaking", 14);
    assert !SearchFrom(text, "breaking", 12);
    assert !SearchFrom(text, "breaking", 10);
    assert !SearchFrom(text, "breaking", 8);
    assert !SearchFrom(text, "breaking", 6);
    assert !SearchFrom(text, "breaking", 4);
    assert !SearchFrom(text, "breaking", 2);
    assert !MatchesAt(text, "breaking", 0, 0);
    assert !SearchFrom(text, "breaking", 0);
  }

  lemma {:induction false} QuarterlyTextLacksUrgent()
    ensures !SearchFrom("Quarterly earnings report", "urgent", 0)
  {
    var text := "Quarterly earnings report";
    assert Lower(text[0]) == 'q';
    assert !SearchFrom(text, "urgent", 18);
    assert !SearchFrom(text, "urgent", 16);
    assert !SearchFrom(text, "urgent", 14);
    assert !SearchFrom(text, "urgent", 12);
    assert !SearchFrom(text, "urgent", 10);
    assert !SearchFrom(text, "urgent", 8);
    assert !SearchFrom(text, "urgent", 6);
    assert !SearchFrom(text, "urgent", 4);
    assert !SearchFrom(text, "urgent", 2);
    assert !MatchesAt(text, "urgent", 1, 0);
    assert !MatchesAt(text, "urgent", 0, 0);
    assert !SearchFrom(text, "urgent", 0);
  }

  lemma {:induction false} QuarterlyTextLacksAlert()
    ensures !SearchFrom("Quarterly earnings report", "alert", 0)
  {
    var text := "Quarterly earnings report";
    assert Lower(text[0]) == 'q';
    assert !SearchFrom(text, "alert", 20);
    assert !SearchFrom(text, "alert", 18);
    assert !SearchFrom(text, "alert", 16);
    assert !SearchFrom(text, "alert", 14);
    assert !SearchFrom(text, "alert", 12);
    assert !MatchesAt(text, "alert", 11, 0);
    assert !SearchFrom(text, "alert", 10);
    assert !SearchFrom(text, "alert", 8);
    assert !SearchFrom(text, "alert", 6);
    assert !SearchFrom(text, "alert", 4);
    assert !MatchesAt(text, "alert", 2, 0);
    assert !SearchFrom(text, "alert", 2);
    assert !MatchesAt(text, "alert", 0, 0);
    assert !SearchFrom(text, "alert", 0);
  }

  lemma {:induction false} QuarterlyTextLacksExclusive()
    ensures !SearchFrom("Quarterly earnings report", "exclusive", 0)
  {
    var text := "Quarterly earnings report";
    assert Lower(text[0]) == 'q';
    assert !SearchFrom(text, "exclusive", 16);
    assert !SearchFrom(text, "exclusive", 14);
    assert !SearchFrom(text, "exclusive", 12);
    assert !MatchesAt(text, "exclusive", 10, 0);
    assert !SearchFrom(text, "exclusive", 10);
    assert !SearchFrom(text, "exclusive", 8);
    assert !SearchFrom(text, "exclusive", 6);
    assert !MatchesAt(text, "exclusive", 5, 0);
    assert !SearchFrom(text, "exclusive", 4);
    assert !SearchFrom(text, "exclusive", 2);
    assert !MatchesAt(text, "exclusive", 0, 0);
    assert !SearchFrom(text, "exclusive", 0);
  }

  lemma {:induction false} ProfitsTextHasNoMarker()
    ensures !AnyFrom("Company profits rose", Keywords, 0)
  {
    assert Keywords == ["breaking", "urgent", "alert", "exclusive"];
    ProfitsTextLacksBreaking();
    ProfitsTextLacksUrgent();
    ProfitsTextLacksAlert();
    ProfitsTextLacksExclusive();
  }

  lemma {:induction false} ProfitsTextLacksBreaking()
    ensures !SearchFrom("Company profits rose", "breaking", 0)
  {
    var text := "Company profits rose";
    assert Lower(text[0]) == 'c';
    assert !SearchFrom(text, "breaking", 12);
    assert !SearchFrom(text, "breaking", 10);
    assert !SearchFrom(text, "breaking", 8);
    assert !SearchFrom(text, "breaking", 6);
    assert !SearchFrom(text, "breaking", 4);
    assert !SearchFrom(text, "breaking", 2);
    assert !MatchesAt(text, "breaking", 0, 0);
    assert !SearchFrom(text, "breaking", 0);
  }

  lemma {:induction false} ProfitsTextLacksUrgent()
    ensures !SearchFrom("Company profits rose", "urgent", 0)
  {
    var text := "Company profits rose";
    assert Lower(text[0]) == 'c';
    assert !SearchFrom(text, "urgent", 14);
    assert !SearchFrom(text, "urgent", 12);
    assert !SearchFrom(text, "urgent", 10);
    assert !SearchFrom(text, "urgent", 8);
    assert !SearchFrom(text, "urgent", 6);
    assert !SearchFrom(text, "urgent", 4);
    assert !SearchFrom(text, "urgent", 2);
    assert !MatchesAt(text, "urgent", 0, 0);
    assert !SearchFrom(text, "urgent", 0);
  }

  lemma {:induction false} ProfitsTextLacksAlert()
    ensures !SearchFrom("Company profits rose", "alert", 0)
  {
    var text := "Company profits rose";
    assert Lower(text[0]) == 'c';
    assert !SearchFrom(text, "alert", 14);
    assert !SearchFrom(text, "alert", 12);
    assert !SearchFrom(text, "alert", 10);
    assert !SearchFrom(text, "alert", 8);
    assert !SearchFrom(text, "alert", 6);
    assert !MatchesAt(text, "alert", 4, 0);
    assert !SearchFrom(text, "alert", 4);
    assert !SearchFrom(text, "alert", 2);
    assert !MatchesAt(text, "alert", 0, 0);
    assert !SearchFrom(text, "alert", 0);
  }

  lemma {:induction false} ProfitsTextLacksExclusive()
    ensures !SearchFrom("Company profits rose", "exclusive", 0)
  {
    var text := "Company profits rose";
    assert Lower(text[0]) == 'c';
    assert !SearchFrom(text, "exclusive", 10);
    assert !SearchFrom(text, "exclusive", 8);
    assert !SearchFrom(text, "exclusive", 6);
    assert !SearchFrom(text, "exclusive", 4);
    assert !SearchFrom(text, "exclusive", 2);
    assert !MatchesAt(text, "exclusive", 0, 0);
    assert !SearchFrom(text, "exclusive", 0);
  }
}
