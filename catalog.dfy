/**
 * The rows of the library catalog and the rules that derive a track's lyrics
 * status from its lyrics columns. The tables themselves are maps keyed by
 * row id (see `CatalogDb`).
 */
module Catalog {
  import opened Wrappers
  import opened Utils
  import opened FsTracks

  /** The `lyrics_status` column. */
  datatype LyricsStatus = Synced | Plain | Instrumental | Missing

  /** The text stored for a status. */
  function StatusName(s: LyricsStatus): (r: string)
    ensures |r| >= 5
  {
    match s
    case Synced => "synced"
    case Plain => "plain"
    case Instrumental => "instrumental"
    case Missing => "missing"
  }

  /** A row of `tracks`. `instrumental` is a nullable column. */
  datatype TrackRow = TrackRow(
    filePath: string,
    fileName: string,
    title: string,
    titleLower: string,
    albumId: int,
    artistId: int,
    duration: real,
    trackNumber: Option<nat>,
    txtLyrics: Option<string>,
    lrcLyrics: Option<string>,
    instrumental: Option<bool>,
    bitrate: Option<nat>,
    status: LyricsStatus)

  /** A row of `albums`. */
  datatype AlbumRow = AlbumRow(
    name: string,
    nameLower: string,
    albumArtistName: string,
    albumArtistNameLower: string,
    imagePath: Option<string>)

  /** A row of `artists`. */
  datatype ArtistRow = ArtistRow(name: string, nameLower: string)

  /** `instrumental = 1` in SQL: a NULL column is not 1. */
  predicate IsMarkedInstrumental(row: TrackRow) {
    row.instrumental == Some(true)
  }

  /**
   * The status the version-13 migration computes from the other columns:
   * instrumental first, then an lrc that is not the exact marker, then a txt.
   */
  function DerivedStatus(row: TrackRow): (r: LyricsStatus)
    ensures r == Instrumental <==> IsMarkedInstrumental(row)
    ensures r == Synced <==> !IsMarkedInstrumental(row) && row.lrcLyrics.Some? && row.lrcLyrics.value != InstrumentalMarker
    ensures r == Missing ==> row.txtLyrics.None?
  {
    if IsMarkedInstrumental(row) then Instrumental
    else if row.lrcLyrics.Some? && row.lrcLyrics.value != InstrumentalMarker then Synced
    else if row.txtLyrics.Some? then Plain
    else Missing
  }

  /** A row whose stored status is the one its columns determine. */
  predicate Consistent(row: TrackRow) {
    row.status == DerivedStatus(row)
  }

  /** The `instrumental` value `add_tracks` stores: the lrc text matches RE_INSTRUMENTAL. */
  function AddedInstrumental(lrc: Option<string>): bool {
    lrc.Some? && MatchesInstrumental(lrc.value)
  }

  /** The status `add_tracks` stores: instrumental, else synced if an lrc exists, else plain if a txt exists. */
  function AddedStatus(t: FsTrack): (r: LyricsStatus)
    ensures r == Instrumental <==> AddedInstrumental(t.lrcLyrics)
    ensures r == Synced <==> t.lrcLyrics.Some? && !AddedInstrumental(t.lrcLyrics)
    ensures r == Plain <==> t.lrcLyrics.None? && t.txtLyrics.Some?
    ensures r == Missing <==> t.lrcLyrics.None? && t.txtLyrics.None?
  {
    if AddedInstrumental(t.lrcLyrics) then Instrumental
    else if t.lrcLyrics.Some? then Synced
    else if t.txtLyrics.Some? then Plain
    else Missing
  }

  /** The row `add_tracks` inserts for a scanned track, given its artist and album ids. */
  function InsertedRow(t: FsTrack, albumId: int, artistId: int, prepare: string -> string): TrackRow {
    TrackRow(t.filePath, t.fileName, t.title, prepare(t.title), albumId, artistId, t.duration,
             t.trackNumber, t.txtLyrics, t.lrcLyrics, Some(AddedInstrumental(t.lrcLyrics)), t.bitrate,
             AddedStatus(t))
  }

  /** The status `add_tracks` stores agrees with the status derived from the stored columns. */
  lemma InsertedRowConsistent(t: FsTrack, albumId: int, artistId: int, prepare: string -> string)
    ensures Consistent(InsertedRow(t, albumId, artistId, prepare))
  {
    var row := InsertedRow(t, albumId, artistId, prepare);
    if t.lrcLyrics.Some? && !AddedInstrumental(t.lrcLyrics) && t.lrcLyrics.value == InstrumentalMarker {
      MarkerMatchesInstrumental();
      assert false;
    }
  }

  /** The columns `update_track_synced_lyrics` writes. */
  function WithSynced(row: TrackRow, synced: string, plain: string): (r: TrackRow)
    ensures r.lrcLyrics == Some(synced) && r.txtLyrics == Some(plain)
    ensures r.instrumental == Some(false) && r.status == Synced
    ensures r.(lrcLyrics := row.lrcLyrics, txtLyrics := row.txtLyrics, instrumental := row.instrumental, status := row.status) == row
  {
    row.(lrcLyrics := Some(synced), txtLyrics := Some(plain), instrumental := Some(false), status := Synced)
  }

  /** The columns `update_track_plain_lyrics` writes. */
  function WithPlain(row: TrackRow, plain: string): (r: TrackRow)
    ensures r.lrcLyrics.None? && r.txtLyrics == Some(plain)
    ensures r.instrumental == Some(false) && r.status == Plain
    ensures r.(lrcLyrics := row.lrcLyrics, txtLyrics := row.txtLyrics, instrumental := row.instrumental, status := row.status) == row
  {
    row.(txtLyrics := Some(plain), lrcLyrics := Option.None, instrumental := Some(false), status := Plain)
  }

  /** The columns `update_track_null_lyrics` writes. */
  function WithNull(row: TrackRow): (r: TrackRow)
    ensures r.lrcLyrics.None? && r.txtLyrics.None?
    ensures r.instrumental == Some(false) && r.status == Missing
    ensures r.(lrcLyrics := row.lrcLyrics, txtLyrics := row.txtLyrics, instrumental := row.instrumental, status := row.status) == row
  {
    row.(txtLyrics := Option.None, lrcLyrics := Option.None, instrumental := Some(false), status := Missing)
  }

  /** The columns `update_track_instrumental` writes. */
  function WithInstrumental(row: TrackRow): (r: TrackRow)
    ensures r.lrcLyrics == Some(InstrumentalMarker) && r.txtLyrics.None?
    ensures r.instrumental == Some(true) && r.status == Instrumental
    ensures r.(lrcLyrics := row.lrcLyrics, txtLyrics := row.txtLyrics, instrumental := row.instrumental, status := row.status) == row
  {
    row.(txtLyrics := Option.None, lrcLyrics := Some(InstrumentalMarker), instrumental := Some(true), status := Instrumental)
  }

  /**
   * Every per-row update leaves a row whose status is the derived one, except
   * a synced update whose text is exactly the marker: that row is stored as
   * synced but derives as plain.
   */
  lemma UpdatesKeepConsistent(row: TrackRow, synced: string, plain: string)
    ensures Consistent(WithSynced(row, synced, plain)) <==> synced != InstrumentalMarker
    ensures Consistent(WithPlain(row, plain))
    ensures Consistent(WithNull(row))
    ensures Consistent(WithInstrumental(row))
  {
  }

  /** The v13 migration's recomputation of one row. */
  function Rederived(row: TrackRow): (r: TrackRow)
    ensures Consistent(r)
    ensures r.(status := row.status) == row
  {
    row.(status := DerivedStatus(row))
  }
}
