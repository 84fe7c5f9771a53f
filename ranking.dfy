/**
 * Choosing among search results: candidates outside the duration tolerance are
 * dropped, the rest are ranked by completeness (synced, plain, instrumental,
 * nothing) and then by distance from the track's duration, and the first of
 * equally ranked candidates wins. A chosen item becomes a lyrics `Response`.
 *
 * Durations are reals; NaN and the `partial_cmp` fallback are not modelled.
 */
module Ranking {
  import opened Wrappers
  import opened Lrclib
  import opened Utils
  import opened Similarity

  /** One hit of the remote search. */
  datatype SearchItem = SearchItem(
    id: int,
    name: Option<string>,
    artistName: Option<string>,
    albumName: Option<string>,
    duration: Option<real>,
    instrumental: bool,
    plainLyrics: Option<string>,
    syncedLyrics: Option<string>)

  /** `f64::MAX`, the distance of an item without a duration. */
  const F64Max: real := 179769313486231570000000000000000000000000000000000000000000000000000000000000000000000000000000000000000000000000000000000000000000000000000000000000000000000000000000000000000000000000000000000000000000000000000000000000000000000000000000000000000000000000000000000000000000000000000000000000000000000000000.0

  function Abs(x: real): real {
    if x < 0.0 then -x else x
  }

  /** The completeness score: lower is better. */
  function Score(item: SearchItem): (s: nat)
    ensures s <= 3
  {
    if item.syncedLyrics.Some? then 0
    else if item.plainLyrics.Some? then 1
    else if item.instrumental then 2
    else 3
  }

  function Distance(item: SearchItem, duration: real): real {
    match item.duration
    case Some(d) => Abs(d - duration)
    case None => F64Max
  }

  predicate WithinTolerance(item: SearchItem, duration: real, tolerance: real) {
    item.duration.Some? && Abs(item.duration.value - duration) <= tolerance
  }

  /** `a` ranks strictly before `b`: the comparator of the min_by answers Less. */
  predicate Before(a: SearchItem, b: SearchItem, duration: real) {
    Score(a) < Score(b) || (Score(a) == Score(b) && Distance(a, duration) < Distance(b, duration))
  }

  /**
   * The filter followed by min_by, as one left-to-right pass: `best` is the
   * index of the running minimum among the eligible items before `i`, and it is
   * replaced only by a strictly better item, so ties keep the earlier one.
   */
  function BestIndexFrom(items: seq<SearchItem>, duration: real, tolerance: real, i: nat, best: Option<nat>): Option<nat>
    requires i <= |items|
    requires best.Some? ==> best.value < |items|
    decreases |items| - i
  {
    if i == |items| then best
    else if !WithinTolerance(items[i], duration, tolerance) then BestIndexFrom(items, duration, tolerance, i + 1, best)
    else if best.None? || Before(items[i], items[best.value], duration) then BestIndexFrom(items, duration, tolerance, i + 1, Some(i))
    else BestIndexFrom(items, duration, tolerance, i + 1, best)
  }

  function BestIndex(items: seq<SearchItem>, duration: real, tolerance: real): Option<nat> {
    BestIndexFrom(items, duration, tolerance, 0, Option.None)
  }

  /** pick_best_match. */
  function PickBestMatch(items: seq<SearchItem>, duration: real, tolerance: real): (r: Option<SearchItem>)
  {
    var k := BestIndex(items, duration, tolerance);
    BestIndexBounded(items, duration, tolerance, 0, Option.None);
    if k.Some? then Some(items[k.value]) else Option.None
  }

  lemma {:induction false} BestIndexBounded(items: seq<SearchItem>, duration: real, tolerance: real, i: nat, best: Option<nat>)
    requires i <= |items|
    requires best.Some? ==> best.value < |items|
    ensures var k := BestIndexFrom(items, duration, tolerance, i, best); k.Some? ==> k.value < |items|
    decreases |items| - i
  {
    if i < |items| {
      if !WithinTolerance(items[i], duration, tolerance) {
        BestIndexBounded(items, duration, tolerance, i + 1, best);
      } else if best.None? || Before(items[i], items[best.value], duration) {
        BestIndexBounded(items, duration, tolerance, i + 1, Some(i));
      } else {
        BestIndexBounded(items, duration, tolerance, i + 1, best);
      }
    }
  }

  /**
   * What the running minimum means after the first `i` items: none of them is
   * eligible, or `best` is an eligible one that no earlier-seen eligible item
   * beats, and that beats every eligible item before it.
   */
  predicate MinimumSoFar(items: seq<SearchItem>, duration: real, tolerance: real, i: nat, best: Option<nat>)
    requires i <= |items|
  {
    match best
    case None => forall j :: 0 <= j < i ==> !WithinTolerance(items[j], duration, tolerance)
    case Some(b) =>
      && b < i
      && WithinTolerance(items[b], duration, tolerance)
      && (forall j :: 0 <= j < i && WithinTolerance(items[j], duration, tolerance) ==> !Before(items[j], items[b], duration))
      && (forall j :: 0 <= j < b && WithinTolerance(items[j], duration, tolerance) ==> Before(items[b], items[j], duration))
  }

  lemma {:induction false} BestIndexFromMinimum(items: seq<SearchItem>, duration: real, tolerance: real, i: nat, best: Option<nat>)
    requires i <= |items|
    requires best.Some? ==> best.value < |items|
    requires MinimumSoFar(items, duration, tolerance, i, best)
    ensures MinimumSoFar(items, duration, tolerance, |items|, BestIndexFrom(items, duration, tolerance, i, best))
    decreases |items| - i
  {
    if i < |items| {
      var x := items[i];
      if !WithinTolerance(x, duration, tolerance) {
        BestIndexFromMinimum(items, duration, tolerance, i + 1, best);
      } else if best.None? || Before(x, items[best.value], duration) {
        if best.Some? {
          var b := best.value;
          forall j | 0 <= j < i && WithinTolerance(items[j], duration, tolerance)
            ensures Before(x, items[j], duration)
          {
            if j != b {
              assert !Before(items[j], items[b], duration);
            }
          }
        }
        BestIndexFromMinimum(items, duration, tolerance, i + 1, Some(i));
      } else {
        BestIndexFromMinimum(items, duration, tolerance, i + 1, best);
      }
    }
  }

  /**
   * The chosen item: there is none iff no item has a duration within the
   * tolerance; otherwise it is one of the items, within tolerance, not beaten by
   * any eligible item on (score, distance), and strictly better than every
   * eligible item before it, so that full ties go to the earliest.
   */
  lemma PickBestMatchSpec(items: seq<SearchItem>, duration: real, tolerance: real)
    ensures var k := BestIndex(items, duration, tolerance);
            var r := PickBestMatch(items, duration, tolerance);
            && (r.None? <==> forall j :: 0 <= j < |items| ==> !WithinTolerance(items[j], duration, tolerance))
            && (r.Some? ==>
                  && k.Some? && k.value < |items| && r.value == items[k.value]
                  && r.value.duration.Some?
                  && WithinTolerance(r.value, duration, tolerance)
                  && (forall j :: 0 <= j < |items| && WithinTolerance(items[j], duration, tolerance) ==>
                        Score(r.value) <= Score(items[j])
                        && (Score(r.value) == Score(items[j]) ==> Distance(r.value, duration) <= Distance(items[j], duration)))
                  && (forall j :: 0 <= j < k.value && WithinTolerance(items[j], duration, tolerance) ==>
                        Before(r.value, items[j], duration)))
  {
    BestIndexFromMinimum(items, duration, tolerance, 0, Option.None);
    BestIndexBounded(items, duration, tolerance, 0, Option.None);
  }

  /** A synced candidate within tolerance beats every unsynced one, whatever the distances. */
  lemma SyncedBeatsUnsynced(items: seq<SearchItem>, duration: real, tolerance: real, j: nat)
    requires j < |items| && WithinTolerance(items[j], duration, tolerance) && items[j].syncedLyrics.Some?
    ensures PickBestMatch(items, duration, tolerance).Some?
    ensures PickBestMatch(items, duration, tolerance).value.syncedLyrics.Some?
  {
    PickBestMatchSpec(items, duration, tolerance);
  }

  /** search_item_to_response. */
  function SearchItemToResponse(item: SearchItem): Response {
    match item.syncedLyrics
    case Some(synced) =>
      var plain := if item.plainLyrics.Some? then item.plainLyrics.value else StripTimestamp(synced);
      SyncedLyrics(synced, plain)
    case None =>
      match item.plainLyrics
      case Some(plain) => UnsyncedLyrics(plain)
      case None => if item.instrumental then IsInstrumental else Response.None
  }

  /**
   * The response variant is the one the completeness score ranks: score 0 gives
   * synced lyrics (with the item's plain text, or else the synced text without
   * its timestamps), 1 unsynced lyrics, 2 instrumental and 3 nothing.
   */
  lemma ResponseFollowsScore(item: SearchItem)
    ensures var r := SearchItemToResponse(item);
            && (Score(item) == 0 <==> r.SyncedLyrics?)
            && (Score(item) == 1 <==> r.UnsyncedLyrics?)
            && (Score(item) == 2 <==> r.IsInstrumental?)
            && (Score(item) == 3 <==> r.None?)
            && (r.SyncedLyrics? ==>
                  r.synced == item.syncedLyrics.value
                  && r.plain == item.plainLyrics.GetOr(StripTimestamp(item.syncedLyrics.value)))
            && (r.UnsyncedLyrics? ==> r.plain == item.plainLyrics.value)
  {
  }

  /** search_with_duration_tolerance, over the outcome of the field search. */
  function SearchWithDurationTolerance(results: Result<seq<SearchItem>, Error>, duration: real, tolerance: real): Result<Response, Error> {
    match results
    case Err(e) => Err(e)
    case Ok(items) =>
      match PickBestMatch(items, duration, tolerance)
      case Some(item) => Ok(SearchItemToResponse(item))
      case None => Ok(Response.None)
  }

  /** A free-text hit whose name is present and similar enough to the title. */
  predicate TitleMatches(title: string, item: SearchItem, ct: CharTable) {
    item.name.Some? && TextSimilarity(title, item.name.value, ct) >= MinTitleSimilarity
  }

  /** The fuzzy candidates: the hits whose titles match, in order. */
  function FuzzyCandidates(items: seq<SearchItem>, title: string, ct: CharTable): (r: seq<SearchItem>)
    ensures forall x :: x in r <==> x in items && TitleMatches(title, x, ct)
  {
    if items == [] then []
    else if TitleMatches(title, items[0], ct) then [items[0]] + FuzzyCandidates(items[1..], title, ct)
    else FuzzyCandidates(items[1..], title, ct)
  }

  /**
   * Selecting from a concatenation selects from each part: with
   * FuzzyCandidatesUnit this pins FuzzyCandidates down as the order-preserving
   * filter, which matters because the first of equal minima wins.
   */
  lemma {:induction false} FuzzyCandidatesAppend(a: seq<SearchItem>, b: seq<SearchItem>, title: string, ct: CharTable)
    ensures FuzzyCandidates(a + b, title, ct) == FuzzyCandidates(a, title, ct) + FuzzyCandidates(b, title, ct)
    decreases |a|
  {
    if a == [] {
      assert a + b == b;
    } else {
      assert (a + b)[0] == a[0] && (a + b)[1..] == a[1..] + b;
      FuzzyCandidatesAppend(a[1..], b, title, ct);
    }
  }

  /** A single hit is kept exactly when its title matches. */
  lemma FuzzyCandidatesUnit(x: SearchItem, title: string, ct: CharTable)
    ensures FuzzyCandidates([x], title, ct) == if TitleMatches(title, x, ct) then [x] else []
  {
  }

  /** search_fuzzy_fallback, over the outcome of the free-text search. */
  function SearchFuzzyFallback(results: Result<seq<SearchItem>, Error>, title: string, duration: real, tolerance: real, ct: CharTable): Result<Response, Error> {
    match results
    case Err(e) => Err(e)
    case Ok(items) =>
      match PickBestMatch(FuzzyCandidates(items, title, ct), duration, tolerance)
      case Some(item) => Ok(SearchItemToResponse(item))
      case None => Ok(Response.None)
  }

  /**
   * A lyrics answer from the fuzzy search comes from a hit of the search, within
   * the duration tolerance, whose name is present and passes the similarity
   * threshold, stated over integers: both titles normalize to nothing, or
   * 10·|A ∩ B| ≥ 3·|A ∪ B| for their word sets.
   */
  lemma FuzzyWinnerMatchesTitle(items: seq<SearchItem>, title: string, duration: real, tolerance: real, ct: CharTable)
    ensures var cands := FuzzyCandidates(items, title, ct);
            var w := PickBestMatch(cands, duration, tolerance);
            w.Some? ==>
              && w.value in items
              && w.value.name.Some?
              && WithinTolerance(w.value, duration, tolerance)
              && var an := NormalizeText(title, ct);
                 var bn := NormalizeText(w.value.name.value, ct);
                 (an == [] && bn == [])
                 || (an != [] && bn != [] && 10 * |WordSet(an) * WordSet(bn)| >= 3 * |WordSet(an) + WordSet(bn)|)
  {
    var cands := FuzzyCandidates(items, title, ct);
    PickBestMatchSpec(cands, duration, tolerance);
    var w := PickBestMatch(cands, duration, tolerance);
    if w.Some? {
      assert w.value in cands;
      SimilarityThreshold(title, w.value.name.value, ct);
    }
  }
}
