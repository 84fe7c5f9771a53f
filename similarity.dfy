/**
 * Title similarity used to validate free-text search candidates: both texts
 * are normalized (lower-cased, reduced to alphanumerics and whitespace, then
 * re-joined with single spaces) and compared as sets of words with the Jaccard
 * index |A ∩ B| / |A ∪ B|.
 *
 * Unicode lower-casing and `char::is_alphanumeric` are tables the model takes
 * as given (a `CharTable`); floating-point division is exact division of reals.
 */
module Similarity {
  import opened Text

  /** `char::to_lowercase` (which may yield several characters) and `char::is_alphanumeric`. */
  datatype CharTable = CharTable(toLower: char -> string, isAlphanumeric: char -> bool)

  /** The least similarity a fuzzy candidate's title must reach, as the fraction 3/10. */
  const MinTitleSimilarity: real := 0.3

  /** `str::to_lowercase`, character by character. */
  function LowerAll(s: string, ct: CharTable): string {
    if s == [] then [] else ct.toLower(s[0]) + LowerAll(s[1..], ct)
  }

  /** Keep the characters that are alphanumeric or whitespace, in order. */
  function KeepWordChars(s: string, ct: CharTable): (r: string)
    ensures |r| <= |s|
    ensures forall i :: 0 <= i < |r| ==> ct.isAlphanumeric(r[i]) || IsWhitespace(r[i])
    ensures forall i :: 0 <= i < |s| && (ct.isAlphanumeric(s[i]) || IsWhitespace(s[i])) ==> s[i] in r
  {
    if s == [] then []
    else if ct.isAlphanumeric(s[0]) || IsWhitespace(s[0]) then [s[0]] + KeepWordChars(s[1..], ct)
    else KeepWordChars(s[1..], ct)
  }

  /**
   * Filtering a concatenation filters each part: together with
   * KeepWordCharsUnit this pins KeepWordChars down as the order-preserving
   * filter of word characters.
   */
  lemma {:induction false} KeepWordCharsAppend(a: string, b: string, ct: CharTable)
    ensures KeepWordChars(a + b, ct) == KeepWordChars(a, ct) + KeepWordChars(b, ct)
    decreases |a|
  {
    if a == [] {
      assert a + b == b;
    } else {
      assert (a + b)[0] == a[0] && (a + b)[1..] == a[1..] + b;
      KeepWordCharsAppend(a[1..], b, ct);
    }
  }

  /** A single character is kept exactly when it is alphanumeric or whitespace. */
  lemma KeepWordCharsUnit(c: char, ct: CharTable)
    ensures KeepWordChars([c], ct) == if ct.isAlphanumeric(c) || IsWhitespace(c) then [c] else []
  {
  }

  /** The words of the normalized text, before they are joined again. */
  function NormalizedWords(s: string, ct: CharTable): seq<string> {
    Words(KeepWordChars(LowerAll(s, ct), ct))
  }

  /** normalize_text. */
  function NormalizeText(s: string, ct: CharTable): string {
    JoinSpaces(NormalizedWords(s, ct))
  }

  /**
   * The normalized text is single-spaced, each of its characters is a space or
   * an alphanumeric non-whitespace character, and splitting it again gives back
   * exactly the words it was joined from.
   */
  lemma NormalizeTextShape(s: string, ct: CharTable)
    ensures var r := NormalizeText(s, ct);
            && SingleSpaced(r)
            && (forall i :: 0 <= i < |r| ==> r[i] == ' ' || (ct.isAlphanumeric(r[i]) && !IsWhitespace(r[i])))
            && Words(r) == NormalizedWords(s, ct)
            && (r == [] <==> NormalizedWords(s, ct) == [])
  {
    var kept := KeepWordChars(LowerAll(s, ct), ct);
    var ws := Words(kept);
    WordsAreWords(kept);
    JoinSpacesShape(ws);
    WordsOfJoin(ws);
    var r := JoinSpaces(ws);
    forall i | 0 <= i < |r| && r[i] != ' '
      ensures ct.isAlphanumeric(r[i]) && !IsWhitespace(r[i])
    {
      assert r[i] in Flatten(ws);
      assert r[i] in kept;
      FlattenOfWordsNoWhitespace(ws, r[i]);
    }
  }

  /** A character of a sequence of words is not whitespace. */
  lemma {:induction false} FlattenOfWordsNoWhitespace(ws: seq<string>, c: char)
    requires forall w :: w in ws ==> IsWord(w)
    requires c in Flatten(ws)
    ensures !IsWhitespace(c)
  {
    if ws != [] {
      assert Flatten(ws) == ws[0] + Flatten(ws[1..]);
      if c in ws[0] {
        assert ws[0] in ws;
        var i :| 0 <= i < |ws[0]| && ws[0][i] == c;
      } else {
        FlattenOfWordsNoWhitespace(ws[1..], c);
      }
    }
  }

  /** The set of words of a text (the `HashSet` built from `split_whitespace`). */
  function WordSet(s: string): set<string> {
    set w | w in Words(s)
  }

  /** text_similarity, exactly (no floating-point rounding). */
  function TextSimilarity(a: string, b: string, ct: CharTable): real {
    var an := NormalizeText(a, ct);
    var bn := NormalizeText(b, ct);
    if an == [] && bn == [] then 1.0
    else if an == [] || bn == [] then 0.0
    else
      var aw := WordSet(an);
      var bw := WordSet(bn);
      var union := |aw + bw|;
      if union == 0 then 0.0 else (|aw * bw| as real) / (union as real)
  }

  /** A non-empty normalized text has at least one word. */
  lemma NonEmptyNormalHasWords(s: string, ct: CharTable)
    requires NormalizeText(s, ct) != []
    ensures WordSet(NormalizeText(s, ct)) != {}
  {
    NormalizeTextShape(s, ct);
    var ws := Words(NormalizeText(s, ct));
    assert ws != [];
    assert ws[0] in WordSet(NormalizeText(s, ct));
  }

  lemma SimilaritySymmetric(a: string, b: string, ct: CharTable)
    ensures TextSimilarity(a, b, ct) == TextSimilarity(b, a, ct)
  {
    var aw := WordSet(NormalizeText(a, ct));
    var bw := WordSet(NormalizeText(b, ct));
    assert aw + bw == bw + aw;
    assert aw * bw == bw * aw;
  }

  /** Any text is fully similar to itself, including one that normalizes to nothing. */
  lemma SimilarityReflexive(a: string, ct: CharTable)
    ensures TextSimilarity(a, a, ct) == 1.0
  {
    var an := NormalizeText(a, ct);
    if an != [] {
      NonEmptyNormalHasWords(a, ct);
      var aw := WordSet(an);
      assert aw + aw == aw;
      assert aw * aw == aw;
    }
  }

  /** The Jaccard counts of two non-empty normalized texts: the intersection never exceeds the union, which is non-empty. */
  lemma JaccardCounts(a: string, b: string, ct: CharTable)
    requires NormalizeText(a, ct) != [] && NormalizeText(b, ct) != []
    ensures var aw := WordSet(NormalizeText(a, ct));
            var bw := WordSet(NormalizeText(b, ct));
            0 <= |aw * bw| <= |aw + bw| && |aw + bw| > 0
  {
    var aw := WordSet(NormalizeText(a, ct));
    var bw := WordSet(NormalizeText(b, ct));
    NonEmptyNormalHasWords(a, ct);
    var w :| w in aw;
    assert w in aw + bw;
    assert aw * bw <= aw + bw;
    SubsetCard(aw * bw, aw + bw);
  }

  lemma {:induction false} SubsetCard<T>(x: set<T>, y: set<T>)
    requires x <= y
    ensures |x| <= |y|
  {
    assert y == x + (y - x);
    assert x * (y - x) == {};
  }

  /**
   * The similarity of two texts: 1 when both normalize to nothing, 0 when
   * exactly one does, and otherwise the Jaccard index of their word sets, a
   * value between 0 and 1.
   */
  lemma SimilarityCases(a: string, b: string, ct: CharTable)
    ensures var an := NormalizeText(a, ct);
            var bn := NormalizeText(b, ct);
            var r := TextSimilarity(a, b, ct);
            && 0.0 <= r <= 1.0
            && (an == [] && bn == [] ==> r == 1.0)
            && ((an == []) != (bn == []) ==> r == 0.0)
            && (an != [] && bn != [] ==>
                  var aw := WordSet(an);
                  var bw := WordSet(bn);
                  |aw + bw| > 0 && r == (|aw * bw| as real) / (|aw + bw| as real))
  {
    var an := NormalizeText(a, ct);
    var bn := NormalizeText(b, ct);
    if an != [] && bn != [] {
      JaccardCounts(a, b, ct);
      var aw := WordSet(an);
      var bw := WordSet(bn);
      var i := |aw * bw| as real;
      var u := |aw + bw| as real;
      assert TextSimilarity(a, b, ct) == i / u;
      DivBounds(i, u);
    }
  }

  lemma DivBounds(i: real, u: real)
    requires 0.0 <= i <= u && u > 0.0
    ensures 0.0 <= i / u <= 1.0
  {
  }

  /**
   * The 0.3 acceptance threshold as integer arithmetic: a title passes iff both
   * texts normalize to nothing, or neither does and 10·|A ∩ B| ≥ 3·|A ∪ B|.
   */
  lemma SimilarityThreshold(a: string, b: string, ct: CharTable)
    ensures var an := NormalizeText(a, ct);
            var bn := NormalizeText(b, ct);
            var aw := WordSet(an);
            var bw := WordSet(bn);
            TextSimilarity(a, b, ct) >= MinTitleSimilarity <==>
              (an == [] && bn == []) || (an != [] && bn != [] && 10 * |aw * bw| >= 3 * |aw + bw|)
  {
    var an := NormalizeText(a, ct);
    var bn := NormalizeText(b, ct);
    if an != [] && bn != [] {
      JaccardCounts(a, b, ct);
      var aw := WordSet(an);
      var bw := WordSet(bn);
      ThresholdAsIntegers(|aw * bw|, |aw + bw|);
    }
  }

  lemma ThresholdAsIntegers(i: nat, u: nat)
    requires u > 0
    ensures (i as real) / (u as real) >= 0.3 <==> 10 * i >= 3 * u
  {
    var q := (i as real) / (u as real);
    assert q * (u as real) == i as real;
    if 10 * i >= 3 * u {
      assert (i as real) >= 0.3 * (u as real);
    } else {
      assert (i as real) < 0.3 * (u as real);
    }
  }
}
