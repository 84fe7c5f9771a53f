/**
 * The clause builders of the track-id queries: the ORDER BY clause, the
 * status exclusion list of the library and search views, and the lyrics
 * condition of the album and artist views. Each builder is paired with the
 * row predicate the clause stands for.
 */
module CatalogQueries {
  import opened Wrappers
  import opened Text
  import opened Utils
  import opened Catalog

  // ---------------------------------------------------------------------------
  // get_order_clause
  // ---------------------------------------------------------------------------

  /** The sort expression for "lyrics_status": a CASE over the lyrics columns. */
  const LyricsStatusSortColumn: string :=
    "CASE WHEN lrc_lyrics IS NOT NULL AND lrc_lyrics != '[au: instrumental]' THEN 0 WHEN txt_lyrics IS NOT NULL THEN 1 WHEN instrumental = 1 THEN 2 ELSE 3 END"

  /** The sort keys the view offers. */
  predicate IsKnownSortKey(sortBy: string) {
    sortBy == "title" || sortBy == "duration" || sortBy == "track_number" || sortBy == "lyrics_status"
  }

  function OrderColumn(sortBy: string): string {
    if sortBy == "duration" then "duration"
    else if sortBy == "track_number" then "track_number"
    else if sortBy == "lyrics_status" then LyricsStatusSortColumn
    else "title_lower"
  }

  function OrderDirection(sortOrder: string): string {
    if sortOrder == "desc" then "DESC" else "ASC"
  }

  /** `ORDER BY {column} {direction}`. */
  function GetOrderClause(sortBy: string, sortOrder: string): string {
    "ORDER BY " + OrderColumn(sortBy) + " " + OrderDirection(sortOrder)
  }

  /**
   * An unknown sort key sorts like "title" (on `title_lower`); the clause is
   * descending iff the order is exactly "desc", and ascending otherwise.
   */
  lemma OrderClauseMeaning(sortBy: string, sortOrder: string)
    ensures !IsKnownSortKey(sortBy) ==> GetOrderClause(sortBy, sortOrder) == GetOrderClause("title", sortOrder)
    ensures StartsWith(GetOrderClause(sortBy, sortOrder), "ORDER BY ")
    ensures EndsWith(GetOrderClause(sortBy, sortOrder), " DESC") <==> sortOrder == "desc"
    ensures EndsWith(GetOrderClause(sortBy, sortOrder), " ASC") <==> sortOrder != "desc"
  {
    ClauseShape(OrderColumn(sortBy), sortOrder);
  }

  /** The clause for any column: the fixed head, then the direction at the end. */
  lemma ClauseShape(column: string, sortOrder: string)
    ensures var x := "ORDER BY " + column + " " + OrderDirection(sortOrder);
            && StartsWith(x, "ORDER BY ")
            && (EndsWith(x, " DESC") <==> sortOrder == "desc")
            && (EndsWith(x, " ASC") <==> sortOrder != "desc")
  {
    var head := "ORDER BY " + column;
    var x := "ORDER BY " + column + " " + OrderDirection(sortOrder);
    assert x == head + (" " + OrderDirection(sortOrder));
    assert x[..9] == "ORDER BY ";
    if sortOrder == "desc" {
      EndsWithConcat(head, " DESC", " DESC");
      assert x[|x| - 4] == 'D';
    } else {
      EndsWithConcat(head, " ASC", " ASC");
      assert x[|x| - 4] == ' ';
    }
  }

  /** A suffix test on `a + b` for a suffix no longer than `b` looks at `b` alone. */
  lemma EndsWithConcat(a: string, b: string, suffix: string)
    requires |suffix| <= |b|
    ensures EndsWith(a + b, suffix) <==> EndsWith(b, suffix)
  {
    assert (a + b)[|a + b| - |suffix|..] == b[|b| - |suffix|..];
  }

  /** The rank of each status in the `lyrics_status` sort: synced, plain, instrumental, missing. */
  function StatusRank(s: LyricsStatus): (r: nat)
    ensures r < 4
  {
    match s
    case Synced => 0
    case Plain => 1
    case Instrumental => 2
    case Missing => 3
  }

  /** The value of the `lyrics_status` sort expression for a row. */
  function StatusSortKey(row: TrackRow): (r: nat)
    ensures r < 4
  {
    if row.lrcLyrics.Some? && row.lrcLyrics.value != InstrumentalMarker then 0
    else if row.txtLyrics.Some? then 1
    else if IsMarkedInstrumental(row) then 2
    else 3
  }

  /** An instrumental row in the shape `update_track_instrumental` writes: the exact marker and no txt. */
  predicate InstrumentalShaped(row: TrackRow) {
    IsMarkedInstrumental(row) ==> row.lrcLyrics == Some(InstrumentalMarker) && row.txtLyrics.None?
  }

  /**
   * The "lyrics_status" sort orders consistent rows by the rank of their
   * status, provided instrumental rows carry only the exact marker.
   */
  lemma SortKeyFollowsStatus(row: TrackRow)
    requires Consistent(row) && InstrumentalShaped(row)
    ensures StatusSortKey(row) == StatusRank(row.status)
  {
  }

  /**
   * A scanned track whose lrc is `[au:instrumental]` (no space) is stored as
   * instrumental, yet the "lyrics_status" sort places it with the synced rows.
   */
  lemma ScannedVariantSortsAsSynced(t: FsTracks.FsTrack, albumId: int, artistId: int, prepare: string -> string)
    requires t.lrcLyrics == Some("[au:instrumental]")
    ensures InsertedRow(t, albumId, artistId, prepare).status == Instrumental
    ensures StatusSortKey(InsertedRow(t, albumId, artistId, prepare)) == 0
  {
    var s := "[au:instrumental]";
    assert AllWhitespace("");
    assert StartsWith(s, "[au:" + "" + "instrumental]");
    MarkerAtOf(s, "");
    assert s != InstrumentalMarker by { assert s[4] != InstrumentalMarker[4]; }
  }

  // ---------------------------------------------------------------------------
  // The status exclusion list of get_track_ids / get_search_track_ids.
  // ---------------------------------------------------------------------------

  /** The four view switches: show synced, plain, instrumental, and lyric-less tracks. */
  datatype StatusFilter = StatusFilter(synced: bool, plain: bool, instrumental: bool, noLyrics: bool)

  predicate Shows(f: StatusFilter, s: LyricsStatus) {
    match s
    case Synced => f.synced
    case Plain => f.plain
    case Instrumental => f.instrumental
    case Missing => f.noLyrics
  }

  /** The list is in strictly increasing rank, hence without repetitions. */
  predicate RankOrdered(xs: seq<LyricsStatus>) {
    forall i, j :: 0 <= i < j < |xs| ==> StatusRank(xs[i]) < StatusRank(xs[j])
  }

  /**
   * The `excluded` list: each status whose switch is off is pushed, in the
   * order synced, plain, instrumental, missing.
   */
  method ExcludedStatuses(f: StatusFilter) returns (excluded: seq<LyricsStatus>)
    ensures forall s :: s in excluded <==> !Shows(f, s)
    ensures RankOrdered(excluded)
    ensures excluded == [] <==> f.synced && f.plain && f.instrumental && f.noLyrics
  {
    excluded := [];
    if !f.synced { excluded := excluded + [Synced]; }
    if !f.plain { excluded := excluded + [Plain]; }
    if !f.instrumental { excluded := excluded + [Instrumental]; }
    if !f.noLyrics { excluded := excluded + [Missing]; }
    assert f.synced && f.plain && f.instrumental && f.noLyrics ==> excluded == [];
    assert !f.synced ==> Synced in excluded;
    assert !f.plain ==> Plain in excluded;
    assert !f.instrumental ==> Instrumental in excluded;
  }

  /** `'name'`. */
  function Quoted(s: LyricsStatus): string {
    "'" + StatusName(s) + "'"
  }

  /** The quoted names joined by ", ". */
  function JoinQuoted(xs: seq<LyricsStatus>): (r: string)
    ensures xs != [] ==> |r| > 0
  {
    if xs == [] then ""
    else if |xs| == 1 then Quoted(xs[0])
    else Quoted(xs[0]) + ", " + JoinQuoted(xs[1..])
  }

  /**
   * The filter clause for an exclusion list; `lead` is " WHERE " for the
   * library view and " AND tracks." for the search view.
   */
  function NotInClause(excluded: seq<LyricsStatus>, lead: string): (r: string)
    ensures r == "" <==> excluded == []
  {
    if excluded == [] then "" else lead + "lyrics_status NOT IN (" + JoinQuoted(excluded) + ")"
  }

  /** The ids the library view lists: the rows whose status is shown. */
  function ShownIds(rows: map<int, TrackRow>, f: StatusFilter): (r: set<int>)
    ensures forall k :: k in r <==> k in rows && Shows(f, rows[k].status)
  {
    set k | k in rows && Shows(f, rows[k].status)
  }

  // ---------------------------------------------------------------------------
  // The lyrics condition of get_album_track_ids / get_artist_track_ids.
  // ---------------------------------------------------------------------------

  datatype LyricsCondition = AnyLyrics | OnlyMissing | MissingOrPlain

  predicate Admits(c: LyricsCondition, s: LyricsStatus) {
    match c
    case AnyLyrics => true
    case OnlyMissing => s == Missing
    case MissingOrPlain => s == Missing || s == Plain
  }

  /**
   * The match on (without_plain, without_synced): without plain lyrics keeps
   * missing only, whatever the other switch; without synced lyrics alone keeps
   * missing and plain; neither adds no condition. Read as a predicate: a status
   * passes iff each switch that is on admits it.
   */
  function LyricsConditions(withoutPlain: bool, withoutSynced: bool): (r: LyricsCondition)
    ensures forall s :: Admits(r, s) <==>
      (withoutPlain ==> s == Missing) && (withoutSynced ==> s == Missing || s == Plain)
  {
    if withoutPlain then OnlyMissing
    else if withoutSynced then MissingOrPlain
    else AnyLyrics
  }

  /** The SQL text of a condition. */
  function ConditionText(c: LyricsCondition): (r: string)
    ensures r == "" <==> c == AnyLyrics
  {
    match c
    case OnlyMissing => " AND tracks.lyrics_status = 'missing'"
    case MissingOrPlain => " AND tracks.lyrics_status IN ('missing', 'plain')"
    case AnyLyrics => ""
  }

  /**
   * The "without plain lyrics" view keeps only missing rows; a synced row
   * scanned from a lone `.lrc` sidecar has no txt lyrics, yet it is left out.
   */
  lemma WithoutPlainOmitsSyncedWithoutTxt(t: FsTracks.FsTrack, albumId: int, artistId: int, prepare: string -> string)
    requires t.lrcLyrics == Some("[00:01.00] la") && t.txtLyrics.None?
    ensures InsertedRow(t, albumId, artistId, prepare).txtLyrics.None?
    ensures !Admits(LyricsConditions(true, false), InsertedRow(t, albumId, artistId, prepare).status)
  {
    var s := "[00:01.00] la";
    forall i | 0 <= i <= |s|
      ensures !StartsWith(s[i..], "[au:")
    {
      if i == 0 {
        assert s[i..][1] == '0';
      } else if i < |s| {
        assert s[i..][0] == s[i] != '[';
      }
    }
    NoMarkerNoMatch(s);
  }

  /** A text in which "[au:" occurs nowhere does not match RE_INSTRUMENTAL. */
  lemma {:induction false} NoMarkerNoMatch(s: string)
    requires forall i :: 0 <= i <= |s| ==> !StartsWith(s[i..], "[au:")
    ensures !MatchesInstrumental(s)
    decreases |s|
  {
    if s != [] {
      assert s[0..] == s;
      forall i | 0 <= i <= |s[1..]|
        ensures !StartsWith(s[1..][i..], "[au:")
      {
        assert s[1..][i..] == s[i + 1..];
      }
      NoMarkerNoMatch(s[1..]);
    }
  }
}
