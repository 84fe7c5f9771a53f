/**
 * download_lyrics_for_track: a three-tier lookup that stops at the first tier
 * with an answer (exact lookup, then a field search within the duration
 * tolerance, then a free-text search checked by title similarity), followed by
 * persisting the answer beside the track.
 *
 * The remote service is an oracle: the outcome of the exact lookup, and the
 * outcome of each search query.
 */
module Resolution {
  import opened Wrappers
  import opened Lrclib
  import opened Similarity
  import opened Ranking
  import opened Paths
  import opened Persistence
  import opened Entities

  /** Which tier produced the answer. */
  datatype MatchSource = Exact | DurationFallback | FuzzyFallback | None

  /** The parameters of one search request. */
  datatype SearchQuery = SearchQuery(trackName: string, albumName: string, artistName: string, q: string)

  /** What the remote service answers: the exact lookup, and each search. */
  datatype Remote = Remote(exact: Result<Response, Error>, search: SearchQuery -> Result<seq<SearchItem>, Error>)

  /** The outcome of a lookup together with the searches it made, in order. */
  datatype Resolution = Resolution(outcome: Result<(Response, MatchSource), Error>, searches: seq<SearchQuery>)

  /** The field search of the first fallback. */
  function FieldQuery(track: PersistentTrack): SearchQuery {
    SearchQuery(track.title, track.albumName, track.artistName, "")
  }

  /** The free-text search of the second fallback: `"{title} {artist}"`. */
  function FuzzyQuery(track: PersistentTrack): SearchQuery {
    SearchQuery("", "", "", track.title + " " + track.artistName)
  }

  /** The lookup's decisions, tier by tier. */
  function Resolve(track: PersistentTrack, tolerance: real, fuzzyEnabled: bool, remote: Remote, ct: CharTable): Resolution {
    match remote.exact
    case Err(e) => Resolution(Err(e), [])
    case Ok(lyrics) =>
      if !lyrics.None? then Resolution(Ok((lyrics, Exact)), [])
      else if tolerance <= 0.0 then Resolution(Ok((Response.None, MatchSource.None)), [])
      else
        var fallback := SearchWithDurationTolerance(remote.search(FieldQuery(track)), track.duration, tolerance);
        if fallback.Ok? && !fallback.value.None? then
          Resolution(Ok((fallback.value, DurationFallback)), [FieldQuery(track)])
        else if !fuzzyEnabled then
          Resolution(Ok((Response.None, MatchSource.None)), [FieldQuery(track)])
        else
          var searches := [FieldQuery(track), FuzzyQuery(track)];
          match SearchFuzzyFallback(remote.search(FuzzyQuery(track)), track.title, track.duration, tolerance, ct)
          case Ok(found) => Resolution(Ok((found, if found.None? then MatchSource.None else FuzzyFallback)), searches)
          case Err(_) => Resolution(Ok((Response.None, MatchSource.None)), searches)
  }

  /**
   * download_lyrics_for_track: resolve, then apply the answer to the track's
   * files. Returns the outcome and the searches made.
   */
  method DownloadLyricsForTrack(files: TrackFiles, track: PersistentTrack, embed: bool, tolerance: real,
                                fuzzyEnabled: bool, remote: Remote, ct: CharTable, encode: SyltEncoder)
    returns (outcome: Result<(Response, MatchSource), Error>, searches: seq<SearchQuery>)
    requires var res := Resolve(track, tolerance, fuzzyEnabled, remote, ct);
             res.outcome.Ok? && !res.outcome.value.0.None? ==> HasFileName(track.filePath)
    modifies files
    ensures Resolution(outcome, searches) == Resolve(track, tolerance, fuzzyEnabled, remote, ct)
    ensures outcome.Ok? ==>
              && files.sidecars == SidecarsAfterApply(old(files.sidecars), track.filePath, outcome.value.0)
              && files.audio == AudioAfterApply(old(files.audio), track.filePath, outcome.value.0, embed, encode)
    ensures outcome.Err? ==> files.sidecars == old(files.sidecars) && files.audio == old(files.audio)
  {
    searches := [];
    if remote.exact.Err? {
      return Err(remote.exact.error), searches;
    }
    var lyrics := remote.exact.value;
    if !lyrics.None? {
      var applied := files.ApplyLyricsForTrack(track.filePath, lyrics, embed, encode);
      return Ok((applied, Exact)), searches;
    }
    if tolerance <= 0.0 {
      var applied := files.ApplyLyricsForTrack(track.filePath, Response.None, embed, encode);
      return Ok((applied, MatchSource.None)), searches;
    }
    searches := searches + [FieldQuery(track)];
    var fallback := SearchWithDurationTolerance(remote.search(FieldQuery(track)), track.duration, tolerance);
    if fallback.Ok? && !fallback.value.None? {
      var applied := files.ApplyLyricsForTrack(track.filePath, fallback.value, embed, encode);
      return Ok((applied, DurationFallback)), searches;
    }
    if !fuzzyEnabled {
      var applied := files.ApplyLyricsForTrack(track.filePath, Response.None, embed, encode);
      return Ok((applied, MatchSource.None)), searches;
    }
    searches := searches + [FuzzyQuery(track)];
    var fuzzy := SearchFuzzyFallback(remote.search(FuzzyQuery(track)), track.title, track.duration, tolerance, ct);
    match fuzzy {
      case Ok(found) =>
        var source := if found.None? then MatchSource.None else FuzzyFallback;
        var applied := files.ApplyLyricsForTrack(track.filePath, found, embed, encode);
        outcome := Ok((applied, source));
      case Err(_) =>
        var applied := files.ApplyLyricsForTrack(track.filePath, Response.None, embed, encode);
        outcome := Ok((applied, MatchSource.None));
    }
  }

  /**
   * The tiers of a lookup. An exact error is the only error and stops
   * everything. An exact answer other than None is returned with no search. A
   * tolerance of zero or less makes no search. A duration-fallback answer comes
   * from the field search alone; a fuzzy answer needs both searches. The source
   * is None exactly when the response is None, and the free-text search is made
   * only when fuzzy search is enabled.
   */
  lemma ResolveTiers(track: PersistentTrack, tolerance: real, fuzzyEnabled: bool, remote: Remote, ct: CharTable)
    ensures var res := Resolve(track, tolerance, fuzzyEnabled, remote, ct);
            && (res.outcome.Err? <==> remote.exact.Err?)
            && (res.outcome.Err? ==> res.outcome.error == remote.exact.error && res.searches == [])
            && (remote.exact.Ok? && !remote.exact.value.None? ==>
                  res.outcome == Ok((remote.exact.value, Exact)) && res.searches == [])
            && (remote.exact == Ok(Response.None) && tolerance <= 0.0 ==>
                  res.outcome == Ok((Response.None, MatchSource.None)) && res.searches == [])
            && (res.outcome.Ok? ==> (res.outcome.value.1 == MatchSource.None <==> res.outcome.value.0.None?))
            && (res.outcome.Ok? && res.outcome.value.1 == DurationFallback ==> res.searches == [FieldQuery(track)])
            && (res.outcome.Ok? && res.outcome.value.1 == FuzzyFallback ==>
                  fuzzyEnabled && res.searches == [FieldQuery(track), FuzzyQuery(track)])
            && (!fuzzyEnabled ==> FuzzyQuery(track) !in res.searches)
  {
    var res := Resolve(track, tolerance, fuzzyEnabled, remote, ct);
    if remote.exact == Ok(Response.None) && tolerance > 0.0 && !fuzzyEnabled {
      var fallback := SearchWithDurationTolerance(remote.search(FieldQuery(track)), track.duration, tolerance);
      if !(fallback.Ok? && !fallback.value.None?) {
        assert res.searches == [FieldQuery(track)];
        assert FieldQuery(track) != FuzzyQuery(track) by {
          assert FieldQuery(track).q == "" && FuzzyQuery(track).q != "";
        }
      }
    }
  }

  /**
   * Errors of the searches are not errors of the lookup: a failed field search
   * falls through to the next tier, and a failed free-text search yields no
   * lyrics.
   */
  lemma SearchErrorsIgnored(track: PersistentTrack, tolerance: real, fuzzyEnabled: bool, remote: Remote, ct: CharTable)
    requires remote.exact == Ok(Response.None) && tolerance > 0.0
    requires remote.search(FieldQuery(track)).Err?
    ensures var res := Resolve(track, tolerance, fuzzyEnabled, remote, ct);
            && res.outcome.Ok?
            && (!fuzzyEnabled ==> res.outcome == Ok((Response.None, MatchSource.None)))
            && (fuzzyEnabled && remote.search(FuzzyQuery(track)).Err? ==>
                  res.outcome == Ok((Response.None, MatchSource.None)))
  {
  }

  /**
   * A duration-fallback answer is the response of the best field-search hit
   * within the tolerance.
   */
  lemma DurationFallbackAnswer(track: PersistentTrack, tolerance: real, fuzzyEnabled: bool, remote: Remote, ct: CharTable)
    ensures var res := Resolve(track, tolerance, fuzzyEnabled, remote, ct);
            res.outcome.Ok? && res.outcome.value.1 == DurationFallback ==>
              && remote.search(FieldQuery(track)).Ok?
              && var items := remote.search(FieldQuery(track)).value;
                 var w := PickBestMatch(items, track.duration, tolerance);
                 && w.Some?
                 && WithinTolerance(w.value, track.duration, tolerance)
                 && res.outcome.value.0 == SearchItemToResponse(w.value)
  {
    var res := Resolve(track, tolerance, fuzzyEnabled, remote, ct);
    if res.outcome.Ok? && res.outcome.value.1 == DurationFallback {
      var items := remote.search(FieldQuery(track)).value;
      PickBestMatchSpec(items, track.duration, tolerance);
    }
  }

  /**
   * A fuzzy answer is the response of a free-text hit within the tolerance
   * whose name is present and passes the similarity threshold (stated over
   * integers: both titles normalize to nothing, or 10·|A ∩ B| ≥ 3·|A ∪ B|).
   */
  lemma FuzzyAnswerMatchesTitle(track: PersistentTrack, tolerance: real, fuzzyEnabled: bool, remote: Remote, ct: CharTable)
    ensures var res := Resolve(track, tolerance, fuzzyEnabled, remote, ct);
            res.outcome.Ok? && res.outcome.value.1 == FuzzyFallback ==>
              && remote.search(FuzzyQuery(track)).Ok?
              && var items := remote.search(FuzzyQuery(track)).value;
                 var w := PickBestMatch(FuzzyCandidates(items, track.title, ct), track.duration, tolerance);
                 && w.Some?
                 && w.value in items
                 && w.value.name.Some?
                 && WithinTolerance(w.value, track.duration, tolerance)
                 && res.outcome.value.0 == SearchItemToResponse(w.value)
                 && var an := NormalizeText(track.title, ct);
                    var bn := NormalizeText(w.value.name.value, ct);
                    (an == [] && bn == [])
                    || (an != [] && bn != [] && 10 * |WordSet(an) * WordSet(bn)| >= 3 * |WordSet(an) + WordSet(bn)|)
  {
    var res := Resolve(track, tolerance, fuzzyEnabled, remote, ct);
    if res.outcome.Ok? && res.outcome.value.1 == FuzzyFallback {
      var items := remote.search(FuzzyQuery(track)).value;
      FuzzyWinnerMatchesTitle(items, track.title, track.duration, tolerance, ct);
    }
  }
}
