/**
 * The catalog database: the `tracks`, `albums` and `artists` tables as maps
 * keyed by row id, the schema version, and the operations that change them
 * (adding scanned tracks through the artist and album caches, the per-row
 * lyrics updates, removal of vanished tracks and orphans, and the migration
 * ladder). SQL text, transactions and engine errors are not modelled.
 */
module CatalogDb {
  import opened Wrappers
  import opened FsTracks
  import opened Entities
  import opened Catalog

  const CurrentDbVersion: nat := 13

  /** The number of paths deleted per statement. */
  const DeleteChunkSize: nat := 500

  /** `query_row` found no row (the id is unknown, or its album or artist row is missing). */
  datatype DbError = QueryReturnedNoRows

  // ---------------------------------------------------------------------------
  // Table-level functions.
  // ---------------------------------------------------------------------------

  /** The `file_path` values of a track table, as a set. */
  function PathsOf(rows: map<int, TrackRow>): (r: set<string>)
    ensures forall p :: p in r <==> exists k :: k in rows && rows[k].filePath == p
  {
    set k | k in rows :: rows[k].filePath
  }

  /** The `file_path` values of the rows with ids below `n`. */
  function PathsBelow(rows: map<int, TrackRow>, n: int): set<string> {
    set k | k in rows && k < n :: rows[k].filePath
  }

  lemma PathsBelowStep(rows: map<int, TrackRow>, n: int)
    ensures PathsBelow(rows, n + 1) == PathsBelow(rows, n) + (if n in rows then {rows[n].filePath} else {})
  {
  }

  /** Below the next id, every row is seen. */
  lemma PathsBelowAll(rows: map<int, TrackRow>, next: int)
    requires IdsBelow(rows, next)
    ensures PathsBelow(rows, next) == PathsOf(rows)
  {
  }

  /** The rows whose path is not in `paths`. */
  function WithoutPaths(rows: map<int, TrackRow>, paths: set<string>): (r: map<int, TrackRow>)
    ensures forall k :: k in r <==> k in rows && rows[k].filePath !in paths
    ensures forall k :: k in r ==> r[k] == rows[k]
  {
    map k | k in rows && rows[k].filePath !in paths :: rows[k]
  }

  /** The rows whose path is in `keep`. */
  function KeepPaths(rows: map<int, TrackRow>, keep: set<string>): (r: map<int, TrackRow>)
    ensures forall k :: k in r <==> k in rows && rows[k].filePath in keep
    ensures forall k :: k in r ==> r[k] == rows[k]
    ensures PathsOf(r) <= keep
  {
    map k | k in rows && rows[k].filePath in keep :: rows[k]
  }

  /** The elements of a sequence. */
  function Elems(s: seq<string>): set<string> {
    set x | x in s
  }

  /** The v13 recomputation of every row's status. */
  function Rederive(rows: map<int, TrackRow>): (r: map<int, TrackRow>)
    ensures r.Keys == rows.Keys
    ensures forall k :: k in r ==> Consistent(r[k]) && r[k].(status := rows[k].status) == rows[k]
  {
    map k | k in rows :: Rederived(rows[k])
  }

  /** `lo, lo + 1, ..., hi`. */
  function Ascending(lo: int, hi: int): (r: seq<int>)
    ensures |r| == if lo <= hi then hi - lo + 1 else 0
    ensures forall i :: 0 <= i < |r| ==> r[i] == lo + i
    decreases hi - lo
  {
    if lo > hi then [] else [lo] + Ascending(lo + 1, hi)
  }

  /** Every row of `m` is still in `m'`, unchanged. */
  predicate Grown<K, V(==)>(m: map<K, V>, m': map<K, V>) {
    forall k {:trigger m[k]} :: k in m ==> k in m' && m'[k] == m[k]
  }

  lemma GrownTrans<K, V>(a: map<K, V>, b: map<K, V>, c: map<K, V>)
    requires Grown(a, b) && Grown(b, c)
    ensures Grown(a, c)
  {
  }

  /** Row ids are positive and below the id the next insert receives. */
  predicate IdsBelow<V>(m: map<int, V>, next: int) {
    1 <= next && forall k :: k in m ==> 1 <= k < next
  }

  /** Inserting under the next id and advancing it keeps ids below it. */
  lemma IdsBelowInsert<V>(m: map<int, V>, next: int, v: V)
    requires IdsBelow(m, next)
    ensures next !in m
    ensures IdsBelow(m[next := v], next + 1)
  {
  }

  /** Inserting under a fresh key keeps every row and adds exactly that key. */
  lemma InsertGrows<K, V>(m: map<K, V>, k: K, v: V)
    requires k !in m
    ensures Grown(m, m[k := v])
    ensures forall q :: q in m[k := v] <==> q in m || q == k
  {
  }

  /** No two artist rows share a name. */
  predicate UniqueArtistNames(artists: map<int, ArtistRow>) {
    forall a, b :: a in artists && b in artists && artists[a].name == artists[b].name ==> a == b
  }

  /** No two album rows share a name and an album artist. */
  predicate UniqueAlbumKeys(albums: map<int, AlbumRow>) {
    forall a, b ::
      (a in albums && b in albums && albums[a].name == albums[b].name
       && albums[a].albumArtistName == albums[b].albumArtistName) ==> a == b
  }

  /** Row `k` is the row `add_tracks` inserts for `t`, joined to an artist and an album with its names. */
  predicate Stored(tracks: map<int, TrackRow>, albums: map<int, AlbumRow>, artists: map<int, ArtistRow>,
                   t: FsTrack, k: int, prepare: string -> string)
  {
    && k in tracks
    && tracks[k].artistId in artists && artists[tracks[k].artistId].name == t.artist
    && tracks[k].albumId in albums && albums[tracks[k].albumId].name == t.album
    && albums[tracks[k].albumId].albumArtistName == t.albumArtist
    && tracks[k] == InsertedRow(t, tracks[k].albumId, tracks[k].artistId, prepare)
  }

  /** Growing the three tables keeps every stored track. */
  lemma StoredGrown(tracks0: map<int, TrackRow>, albums0: map<int, AlbumRow>, artists0: map<int, ArtistRow>,
                    tracks1: map<int, TrackRow>, albums1: map<int, AlbumRow>, artists1: map<int, ArtistRow>,
                    t: FsTrack, k: int, prepare: string -> string)
    requires Stored(tracks0, albums0, artists0, t, k, prepare)
    requires Grown(tracks0, tracks1) && Grown(albums0, albums1) && Grown(artists0, artists1)
    ensures Stored(tracks1, albums1, artists1, t, k, prepare)
  {
    var row := tracks0[k];
    assert tracks1[k] == row;
    assert artists1[row.artistId] == artists0[row.artistId];
    assert albums1[row.albumId] == albums0[row.albumId];
  }

  /** Row `base + j` holds the row inserted for `ts[j]`. */
  predicate StoredAt(tracks: map<int, TrackRow>, albums: map<int, AlbumRow>, artists: map<int, ArtistRow>,
                     ts: seq<FsTrack>, j: int, base: int, prepare: string -> string)
  {
    0 <= j < |ts| && Stored(tracks, albums, artists, ts[j], base + j, prepare)
  }

  /** Rows `base`, `base + 1`, ... hold the rows inserted for `ts`, in order. */
  predicate StoredRun(tracks: map<int, TrackRow>, albums: map<int, AlbumRow>, artists: map<int, ArtistRow>,
                      ts: seq<FsTrack>, base: int, prepare: string -> string)
  {
    forall j {:trigger StoredAt(tracks, albums, artists, ts, j, base, prepare)} ::
      0 <= j < |ts| ==> StoredAt(tracks, albums, artists, ts, j, base, prepare)
  }

  /** The artist and the album key of `ts[j]` are cached. */
  predicate CachedAt(ts: seq<FsTrack>, j: int, artistIds: map<string, int>, albumIds: map<(string, string), int>) {
    0 <= j < |ts| && ts[j].artist in artistIds && (ts[j].album, ts[j].albumArtist) in albumIds
  }

  /** Every track's artist and album key is cached. */
  predicate AllCached(ts: seq<FsTrack>, artistIds: map<string, int>, albumIds: map<(string, string), int>) {
    forall j {:trigger CachedAt(ts, j, artistIds, albumIds)} :: 0 <= j < |ts| ==> CachedAt(ts, j, artistIds, albumIds)
  }

  /** A run stays stored as the tables grow, and extends by a newly stored row. */
  lemma StoredRunSnoc(tracks0: map<int, TrackRow>, albums0: map<int, AlbumRow>, artists0: map<int, ArtistRow>,
                      tracks1: map<int, TrackRow>, albums1: map<int, AlbumRow>, artists1: map<int, ArtistRow>,
                      ts: seq<FsTrack>, t: FsTrack, base: int, prepare: string -> string)
    requires StoredRun(tracks0, albums0, artists0, ts, base, prepare)
    requires Grown(tracks0, tracks1) && Grown(albums0, albums1) && Grown(artists0, artists1)
    requires Stored(tracks1, albums1, artists1, t, base + |ts|, prepare)
    ensures StoredRun(tracks1, albums1, artists1, ts + [t], base, prepare)
  {
    var ts' := ts + [t];
    forall j | 0 <= j < |ts'|
      ensures StoredAt(tracks1, albums1, artists1, ts', j, base, prepare)
    {
      if j < |ts| {
        assert StoredAt(tracks0, albums0, artists0, ts, j, base, prepare);
        StoredGrown(tracks0, albums0, artists0, tracks1, albums1, artists1, ts[j], base + j, prepare);
      }
    }
  }

  /** `row` is the artist row add_tracks creates for the artist of one of `done`. */
  ghost predicate ArtistOf(row: ArtistRow, done: seq<FsTrack>, prepare: string -> string) {
    exists j :: 0 <= j < |done| && row == ArtistRow(done[j].artist, prepare(done[j].artist))
  }

  /** `row` is the album row add_tracks creates for the album of one of `done`. */
  ghost predicate AlbumOf(row: AlbumRow, done: seq<FsTrack>, prepare: string -> string) {
    exists j :: 0 <= j < |done|
      && row == AlbumRow(done[j].album, prepare(done[j].album), done[j].albumArtist, prepare(done[j].albumArtist), Option.None)
  }

  /** Every artist and album row missing from the old tables is one created for a track of `done`. */
  ghost predicate NewRowsFrom(albums0: map<int, AlbumRow>, artists0: map<int, ArtistRow>,
                              albums: map<int, AlbumRow>, artists: map<int, ArtistRow>,
                              done: seq<FsTrack>, prepare: string -> string)
  {
    && (forall k :: k in artists && k !in artists0 ==> ArtistOf(artists[k], done, prepare))
    && (forall k :: k in albums && k !in albums0 ==> AlbumOf(albums[k], done, prepare))
  }

  /** A row created for a track of `a` or of `b` is one created for a track of `a + b`. */
  lemma ArtistOfAppend(row: ArtistRow, a: seq<FsTrack>, b: seq<FsTrack>, prepare: string -> string)
    requires ArtistOf(row, a, prepare) || ArtistOf(row, b, prepare)
    ensures ArtistOf(row, a + b, prepare)
  {
    if ArtistOf(row, a, prepare) {
      var j :| 0 <= j < |a| && row == ArtistRow(a[j].artist, prepare(a[j].artist));
      assert (a + b)[j] == a[j];
    } else {
      var j :| 0 <= j < |b| && row == ArtistRow(b[j].artist, prepare(b[j].artist));
      assert (a + b)[|a| + j] == b[j];
    }
  }

  lemma AlbumOfAppend(row: AlbumRow, a: seq<FsTrack>, b: seq<FsTrack>, prepare: string -> string)
    requires AlbumOf(row, a, prepare) || AlbumOf(row, b, prepare)
    ensures AlbumOf(row, a + b, prepare)
  {
    if AlbumOf(row, a, prepare) {
      var j :| 0 <= j < |a|
        && row == AlbumRow(a[j].album, prepare(a[j].album), a[j].albumArtist, prepare(a[j].albumArtist), Option.None);
      assert (a + b)[j] == a[j];
    } else {
      var j :| 0 <= j < |b|
        && row == AlbumRow(b[j].album, prepare(b[j].album), b[j].albumArtist, prepare(b[j].albumArtist), Option.None);
      assert (a + b)[|a| + j] == b[j];
    }
  }

  /** New rows of two successive runs are new rows of the joined run. */
  lemma NewRowsAppend(albums0: map<int, AlbumRow>, artists0: map<int, ArtistRow>,
                      albums1: map<int, AlbumRow>, artists1: map<int, ArtistRow>,
                      albums2: map<int, AlbumRow>, artists2: map<int, ArtistRow>,
                      a: seq<FsTrack>, b: seq<FsTrack>, prepare: string -> string)
    requires NewRowsFrom(albums0, artists0, albums1, artists1, a, prepare)
    requires NewRowsFrom(albums1, artists1, albums2, artists2, b, prepare)
    requires Grown(albums1, albums2) && Grown(artists1, artists2)
    ensures NewRowsFrom(albums0, artists0, albums2, artists2, a + b, prepare)
  {
    forall k | k in artists2 && k !in artists0
      ensures ArtistOf(artists2[k], a + b, prepare)
    {
      ArtistOfAppend(artists2[k], a, b, prepare);
    }
    forall k | k in albums2 && k !in albums0
      ensures AlbumOf(albums2[k], a + b, prepare)
    {
      AlbumOfAppend(albums2[k], a, b, prepare);
    }
  }

  /**
   * The state of add_tracks after the tracks `done`: rows `base`, `base + 1`,
   * ... are theirs and are the only new track rows, no row of any table was
   * changed or removed, and their artists and albums are cached.
   */
  ghost predicate Progress(tracks0: map<int, TrackRow>, albums0: map<int, AlbumRow>, artists0: map<int, ArtistRow>,
                     tracks: map<int, TrackRow>, albums: map<int, AlbumRow>, artists: map<int, ArtistRow>,
                     artistIds: map<string, int>, albumIds: map<(string, string), int>,
                     done: seq<FsTrack>, base: int, prepare: string -> string)
  {
    && Added(tracks0, albums0, artists0, tracks, albums, artists, done, base, prepare)
    && AllCached(done, artistIds, albumIds)
  }

  /**
   * Progress without the caches: the rows of `done` were added at `base`,
   * ..., no row was changed or removed, and every new artist and album row is
   * the one created for a track of `done`.
   */
  ghost predicate Added(tracks0: map<int, TrackRow>, albums0: map<int, AlbumRow>, artists0: map<int, ArtistRow>,
                        tracks: map<int, TrackRow>, albums: map<int, AlbumRow>, artists: map<int, ArtistRow>,
                        done: seq<FsTrack>, base: int, prepare: string -> string)
  {
    && TracksAdded(tracks0, tracks, albums, artists, done, base, prepare)
    && Grown(albums0, albums) && Grown(artists0, artists)
    && NewRowsFrom(albums0, artists0, albums, artists, done, prepare)
  }

  /**
   * The track rows of `done` are at `base`, `base + 1`, ... and are the only
   * track rows besides the unchanged rows of `tracks0`.
   */
  ghost predicate TracksAdded(tracks0: map<int, TrackRow>, tracks: map<int, TrackRow>,
                              albums: map<int, AlbumRow>, artists: map<int, ArtistRow>,
                              done: seq<FsTrack>, base: int, prepare: string -> string)
  {
    && (forall k {:trigger k in tracks} :: k in tracks <==> k in tracks0 || base <= k < base + |done|)
    && Grown(tracks0, tracks)
    && StoredRun(tracks, albums, artists, done, base, prepare)
  }

  /** Two runs of added tracks, the second starting where the first ends, make one run. */
  lemma AddedAppend(tracks0: map<int, TrackRow>, albums0: map<int, AlbumRow>, artists0: map<int, ArtistRow>,
                    tracks1: map<int, TrackRow>, albums1: map<int, AlbumRow>, artists1: map<int, ArtistRow>,
                    tracks2: map<int, TrackRow>, albums2: map<int, AlbumRow>, artists2: map<int, ArtistRow>,
                    a: seq<FsTrack>, b: seq<FsTrack>, base: int, mid: int, prepare: string -> string)
    requires mid == base + |a|
    requires Added(tracks0, albums0, artists0, tracks1, albums1, artists1, a, base, prepare)
    requires Added(tracks1, albums1, artists1, tracks2, albums2, artists2, b, mid, prepare)
    ensures Added(tracks0, albums0, artists0, tracks2, albums2, artists2, a + b, base, prepare)
  {
    GrownTrans(tracks0, tracks1, tracks2);
    GrownTrans(albums0, albums1, albums2);
    GrownTrans(artists0, artists1, artists2);
    NewRowsAppend(albums0, artists0, albums1, artists1, albums2, artists2, a, b, prepare);
    var ab := a + b;
    forall j | 0 <= j < |ab|
      ensures StoredAt(tracks2, albums2, artists2, ab, j, base, prepare)
    {
      if j < |a| {
        assert StoredAt(tracks1, albums1, artists1, a, j, base, prepare);
        StoredGrown(tracks1, albums1, artists1, tracks2, albums2, artists2, a[j], base + j, prepare);
      } else {
        assert StoredAt(tracks2, albums2, artists2, b, j - |a|, mid, prepare);
      }
    }
  }

  /** One more track inserted at the next id, its artist and album resolved and cached, extends the progress. */
  lemma ProgressStep(tracks0: map<int, TrackRow>, albums0: map<int, AlbumRow>, artists0: map<int, ArtistRow>,
                     tracks1: map<int, TrackRow>, albums1: map<int, AlbumRow>, artists1: map<int, ArtistRow>,
                     artistIds1: map<string, int>, albumIds1: map<(string, string), int>,
                     tracks2: map<int, TrackRow>, albums2: map<int, AlbumRow>, artists2: map<int, ArtistRow>,
                     artistIds2: map<string, int>, albumIds2: map<(string, string), int>,
                     done: seq<FsTrack>, t: FsTrack, base: int, id: int, artistId: int, albumId: int,
                     prepare: string -> string)
    requires Progress(tracks0, albums0, artists0, tracks1, albums1, artists1, artistIds1, albumIds1, done, base, prepare)
    requires id == base + |done| && id !in tracks1
    requires tracks2 == tracks1[id := InsertedRow(t, albumId, artistId, prepare)]
    requires artistId in artists2 && artists2[artistId].name == t.artist
    requires albumId in albums2 && albums2[albumId].name == t.album && albums2[albumId].albumArtistName == t.albumArtist
    requires Grown(albums1, albums2) && Grown(artists1, artists2)
    requires forall k :: k in artists2 && k !in artists1 ==> artists2[k] == ArtistRow(t.artist, prepare(t.artist))
    requires forall k :: k in albums2 && k !in albums1 ==>
      albums2[k] == AlbumRow(t.album, prepare(t.album), t.albumArtist, prepare(t.albumArtist), Option.None)
    requires artistIds1.Keys <= artistIds2.Keys && t.artist in artistIds2
    requires albumIds1.Keys <= albumIds2.Keys && (t.album, t.albumArtist) in albumIds2
    ensures Progress(tracks0, albums0, artists0, tracks2, albums2, artists2, artistIds2, albumIds2, done + [t], base, prepare)
  {
    InsertGrows(tracks1, base + |done|, InsertedRow(t, albumId, artistId, prepare));
    assert Stored(tracks2, albums2, artists2, t, base + |done|, prepare);
    StoredRunSnoc(tracks1, albums1, artists1, tracks2, albums2, artists2, done, t, base, prepare);
    AllCachedSnoc(done, t, artistIds1, albumIds1, artistIds2, albumIds2);
    assert [t][0] == t;
    assert NewRowsFrom(albums1, artists1, albums2, artists2, [t], prepare);
    NewRowsAppend(albums0, artists0, albums1, artists1, albums2, artists2, done, [t], prepare);
    GrownTrans(tracks0, tracks1, tracks2);
    GrownTrans(albums0, albums1, albums2);
    GrownTrans(artists0, artists1, artists2);
  }

  lemma AllCachedSnoc(ts: seq<FsTrack>, t: FsTrack,
                      artistIds0: map<string, int>, albumIds0: map<(string, string), int>,
                      artistIds1: map<string, int>, albumIds1: map<(string, string), int>)
    requires AllCached(ts, artistIds0, albumIds0)
    requires artistIds0.Keys <= artistIds1.Keys && albumIds0.Keys <= albumIds1.Keys
    requires t.artist in artistIds1 && (t.album, t.albumArtist) in albumIds1
    ensures AllCached(ts + [t], artistIds1, albumIds1)
  {
    var ts' := ts + [t];
    forall j | 0 <= j < |ts'|
      ensures CachedAt(ts', j, artistIds1, albumIds1)
    {
      if j < |ts| {
        assert CachedAt(ts, j, artistIds0, albumIds0);
      }
    }
  }

  /** The joined record `get_track_by_id` reads. */
  function Joined(id: int, row: TrackRow, album: AlbumRow, artist: ArtistRow): PersistentTrack {
    PersistentTrack(id, row.filePath, row.fileName, row.title, artist.name, row.artistId, album.name,
                    album.albumArtistName, row.albumId, row.duration, row.trackNumber, row.txtLyrics,
                    row.lrcLyrics, album.imagePath, row.instrumental == Some(true), row.bitrate)
  }

  /** The artist and album ids `add_tracks` has already resolved in this call. */
  class LookupCaches {
    var artistIds: map<string, int>
    var albumIds: map<(string, string), int>

    constructor ()
      ensures artistIds == map[] && albumIds == map[]
    {
      artistIds := map[];
      albumIds := map[];
    }
  }

  class Database {
    var tracks: map<int, TrackRow>
    var albums: map<int, AlbumRow>
    var artists: map<int, ArtistRow>
    /** The id the next inserted row of each table receives. */
    var nextTrackId: int
    var nextAlbumId: int
    var nextArtistId: int
    /** `PRAGMA user_version`. */
    var userVersion: nat
    /** `library_data.init`. */
    var init: bool
    /** The migrations applied so far, in order. */
    ghost var migrations: seq<nat>

    /** Track ids are positive and below the next id. */
    predicate TracksValid()
      reads this`tracks, this`nextTrackId
    {
      IdsBelow(tracks, nextTrackId)
    }

    /** Album ids are positive and below the next id; no album is stored twice. */
    predicate AlbumsValid()
      reads this`albums, this`nextAlbumId
    {
      IdsBelow(albums, nextAlbumId) && UniqueAlbumKeys(albums)
    }

    /** Artist ids are positive and below the next id; no artist is stored twice. */
    predicate ArtistsValid()
      reads this`artists, this`nextArtistId
    {
      IdsBelow(artists, nextArtistId) && UniqueArtistNames(artists)
    }

    predicate Valid()
      reads this
    {
      TracksValid() && AlbumsValid() && ArtistsValid()
    }

    /** Every cached artist id names a row with that name. */
    predicate ArtistCacheSound(caches: LookupCaches)
      reads this`artists, caches`artistIds
    {
      forall n :: n in caches.artistIds ==> caches.artistIds[n] in artists && artists[caches.artistIds[n]].name == n
    }

    /** Every cached album id names a row with that name and album artist. */
    predicate AlbumCacheSound(caches: LookupCaches)
      reads this`albums, caches`albumIds
    {
      forall key :: key in caches.albumIds ==>
        caches.albumIds[key] in albums
        && albums[caches.albumIds[key]].name == key.0
        && albums[caches.albumIds[key]].albumArtistName == key.1
    }

    predicate CachesSound(caches: LookupCaches)
      reads this, caches
    {
      ArtistCacheSound(caches) && AlbumCacheSound(caches)
    }

    constructor ()
      ensures tracks == map[] && albums == map[] && artists == map[]
      ensures nextTrackId == 1 && nextAlbumId == 1 && nextArtistId == 1
      ensures userVersion == 0 && !init && migrations == []
      ensures Valid()
    {
      tracks := map[];
      albums := map[];
      artists := map[];
      nextTrackId := 1;
      nextAlbumId := 1;
      nextArtistId := 1;
      userVersion := 0;
      init := false;
      migrations := [];
    }

    // -------------------------------------------------------------------------
    // Artists and albums: find_* / add_* behind the caches.
    // -------------------------------------------------------------------------

    /** find_artist: the row with that name, if any. */
    method FindArtist(name: string) returns (r: Option<int>)
      ensures r.Some? ==> r.value in artists && artists[r.value].name == name
      ensures r.None? ==> forall k :: k in artists ==> artists[k].name != name
    {
      if exists k :: k in artists && artists[k].name == name {
        var k :| k in artists && artists[k].name == name;
        r := Some(k);
      } else {
        r := Option.None;
      }
    }

    /** find_album: the row with that name and album artist, if any. */
    method FindAlbum(name: string, albumArtist: string) returns (r: Option<int>)
      ensures r.Some? ==> r.value in albums && albums[r.value].name == name && albums[r.value].albumArtistName == albumArtist
      ensures r.None? ==> forall k :: k in albums ==> albums[k].name != name || albums[k].albumArtistName != albumArtist
    {
      if exists k :: k in albums && albums[k].name == name && albums[k].albumArtistName == albumArtist {
        var k :| k in albums && albums[k].name == name && albums[k].albumArtistName == albumArtist;
        r := Some(k);
      } else {
        r := Option.None;
      }
    }

    /**
     * The artist id of one track: the cached id when the name is cached
     * (without a lookup), else the found row, else a new row; the id is
     * then cached.
     */
    method ArtistIdFor(name: string, caches: LookupCaches, prepare: string -> string) returns (id: int)
      requires ArtistsValid() && ArtistCacheSound(caches)
      modifies this`artists, this`nextArtistId, caches`artistIds
      ensures ArtistsValid()
      ensures ArtistCacheSound(caches)
      ensures id in artists && artists[id].name == name
      ensures caches.artistIds == old(caches.artistIds)[name := id]
      ensures name in old(caches.artistIds) ==> id == old(caches.artistIds)[name] && artists == old(artists)
      ensures Grown(old(artists), artists)
      ensures forall k :: k in artists && k !in old(artists) ==> k == id && artists[k] == ArtistRow(name, prepare(name))
    {
      if name in caches.artistIds {
        id := caches.artistIds[name];
        return;
      }
      var found := FindArtist(name);
      if found.Some? {
        id := found.value;
      } else {
        id := nextArtistId;
        NewNameStaysUnique(artists, id, ArtistRow(name, prepare(name)));
        IdsBelowInsert(artists, id, ArtistRow(name, prepare(name)));
        artists := artists[id := ArtistRow(name, prepare(name))];
        nextArtistId := nextArtistId + 1;
      }
      caches.artistIds := caches.artistIds[name := id];
    }

    /** The album id of one track, keyed by album name and album artist, as for artists. */
    method AlbumIdFor(name: string, albumArtist: string, caches: LookupCaches, prepare: string -> string) returns (id: int)
      requires AlbumsValid() && AlbumCacheSound(caches)
      modifies this`albums, this`nextAlbumId, caches`albumIds
      ensures AlbumsValid()
      ensures AlbumCacheSound(caches)
      ensures id in albums && albums[id].name == name && albums[id].albumArtistName == albumArtist
      ensures caches.albumIds == old(caches.albumIds)[(name, albumArtist) := id]
      ensures (name, albumArtist) in old(caches.albumIds) ==> id == old(caches.albumIds)[(name, albumArtist)] && albums == old(albums)
      ensures Grown(old(albums), albums)
      ensures forall k :: k in albums && k !in old(albums) ==>
        k == id && albums[k] == AlbumRow(name, prepare(name), albumArtist, prepare(albumArtist), Option.None)
    {
      var key := (name, albumArtist);
      if key in caches.albumIds {
        id := caches.albumIds[key];
        return;
      }
      var found := FindAlbum(name, albumArtist);
      if found.Some? {
        id := found.value;
      } else {
        id := nextAlbumId;
        var row := AlbumRow(name, prepare(name), albumArtist, prepare(albumArtist), Option.None);
        NewAlbumStaysUnique(albums, id, row);
        IdsBelowInsert(albums, id, row);
        albums := albums[id := row];
        nextAlbumId := nextAlbumId + 1;
      }
      caches.albumIds := caches.albumIds[key := id];
    }

    /** One iteration of add_tracks: resolve the artist and the album, then insert the row. */
    method AddTrack(t: FsTrack, caches: LookupCaches, prepare: string -> string) returns (artistId: int, albumId: int)
      requires Valid() && CachesSound(caches)
      modifies this`tracks, this`nextTrackId, this`artists, this`nextArtistId, this`albums, this`nextAlbumId
      modifies caches
      ensures Valid() && CachesSound(caches)
      ensures nextTrackId == old(nextTrackId) + 1
      ensures old(nextTrackId) !in old(tracks)
      ensures tracks == old(tracks)[old(nextTrackId) := InsertedRow(t, albumId, artistId, prepare)]
      ensures artistId in artists && artists[artistId].name == t.artist
      ensures albumId in albums && albums[albumId].name == t.album && albums[albumId].albumArtistName == t.albumArtist
      ensures Grown(old(artists), artists) && Grown(old(albums), albums)
      ensures forall k :: k in artists && k !in old(artists) ==>
        k == artistId && artists[k] == ArtistRow(t.artist, prepare(t.artist))
      ensures forall k :: k in albums && k !in old(albums) ==>
        k == albumId && albums[k] == AlbumRow(t.album, prepare(t.album), t.albumArtist, prepare(t.albumArtist), Option.None)
      ensures old(caches.artistIds).Keys <= caches.artistIds.Keys && t.artist in caches.artistIds
      ensures old(caches.albumIds).Keys <= caches.albumIds.Keys && (t.album, t.albumArtist) in caches.albumIds
    {
      artistId := ArtistIdFor(t.artist, caches, prepare);
      albumId := AlbumIdFor(t.album, t.albumArtist, caches, prepare);
      var row := InsertedRow(t, albumId, artistId, prepare);
      IdsBelowInsert(tracks, nextTrackId, row);
      tracks := tracks[nextTrackId := row];
      nextTrackId := nextTrackId + 1;
      assert TracksValid();
      assert ArtistsValid();
      assert AlbumsValid();
      assert ArtistCacheSound(caches);
      assert AlbumCacheSound(caches);
    }

    /**
     * add_tracks: the scanned tracks become rows with consecutive new ids, in
     * order; existing rows stay as they were; every track's artist and album
     * are in the caches afterwards and no artist or album is duplicated.
     */
    method AddTracks(ts: seq<FsTrack>, caches: LookupCaches, prepare: string -> string)
      requires Valid() && CachesSound(caches)
      modifies this`tracks, this`nextTrackId, this`artists, this`nextArtistId, this`albums, this`nextAlbumId
      modifies caches
      ensures Valid() && CachesSound(caches)
      ensures nextTrackId == old(nextTrackId) + |ts|
      ensures Progress(old(tracks), old(albums), old(artists), tracks, albums, artists,
                       caches.artistIds, caches.albumIds, ts, old(nextTrackId), prepare)
    {
      ghost var base := nextTrackId;
      for i := 0 to |ts|
        invariant Valid() && CachesSound(caches)
        invariant nextTrackId == base + i
        invariant Progress(old(tracks), old(albums), old(artists), tracks, albums, artists,
                           caches.artistIds, caches.albumIds, ts[..i], base, prepare)
      {
        ghost var tracks0, albums0, artists0 := tracks, albums, artists;
        ghost var artistIds0, albumIds0 := caches.artistIds, caches.albumIds;
        ghost var id := nextTrackId;
        var artistId, albumId := AddTrack(ts[i], caches, prepare);
        ProgressStep(old(tracks), old(albums), old(artists), tracks0, albums0, artists0, artistIds0, albumIds0,
                     tracks, albums, artists, caches.artistIds, caches.albumIds,
                     ts[..i], ts[i], base, id, artistId, albumId, prepare);
        assert ts[..i + 1] == ts[..i] + [ts[i]];
      }
      assert ts[..|ts|] == ts;
    }

    // -------------------------------------------------------------------------
    // get_track_by_id and the per-row lyrics updates.
    // -------------------------------------------------------------------------

    /** get_track_by_id: the row joined with its album and artist, or no row. */
    function GetTrackById(id: int): (r: Result<PersistentTrack, DbError>)
      reads this
      ensures r.Ok? <==> id in tracks && tracks[id].albumId in albums && tracks[id].artistId in artists
      ensures r.Ok? ==>
        && r.value.id == id && r.value.filePath == tracks[id].filePath
        && r.value.txtLyrics == tracks[id].txtLyrics && r.value.lrcLyrics == tracks[id].lrcLyrics
        && (r.value.instrumental <==> tracks[id].instrumental == Some(true))
        && r.value.artistName == artists[tracks[id].artistId].name
        && r.value.albumName == albums[tracks[id].albumId].name
    {
      if id in tracks && tracks[id].albumId in albums && tracks[id].artistId in artists then
        Ok(Joined(id, tracks[id], albums[tracks[id].albumId], artists[tracks[id].artistId]))
      else
        Err(QueryReturnedNoRows)
    }

    /** update_track_synced_lyrics. */
    method UpdateTrackSyncedLyrics(id: int, synced: string, plain: string) returns (r: Result<PersistentTrack, DbError>)
      requires Valid()
      modifies this`tracks
      ensures Valid()
      ensures tracks == if id in old(tracks) then old(tracks)[id := WithSynced(old(tracks)[id], synced, plain)] else old(tracks)
      ensures r == GetTrackById(id)
      ensures r.Ok? ==> r.value.lrcLyrics == Some(synced) && r.value.txtLyrics == Some(plain) && !r.value.instrumental
    {
      if id in tracks {
        tracks := tracks[id := WithSynced(tracks[id], synced, plain)];
      }
      r := GetTrackById(id);
    }

    /** update_track_plain_lyrics. */
    method UpdateTrackPlainLyrics(id: int, plain: string) returns (r: Result<PersistentTrack, DbError>)
      requires Valid()
      modifies this`tracks
      ensures Valid()
      ensures tracks == if id in old(tracks) then old(tracks)[id := WithPlain(old(tracks)[id], plain)] else old(tracks)
      ensures r == GetTrackById(id)
      ensures r.Ok? ==> r.value.lrcLyrics.None? && r.value.txtLyrics == Some(plain) && !r.value.instrumental
    {
      if id in tracks {
        tracks := tracks[id := WithPlain(tracks[id], plain)];
      }
      r := GetTrackById(id);
    }

    /** update_track_null_lyrics. */
    method UpdateTrackNullLyrics(id: int) returns (r: Result<PersistentTrack, DbError>)
      requires Valid()
      modifies this`tracks
      ensures Valid()
      ensures tracks == if id in old(tracks) then old(tracks)[id := WithNull(old(tracks)[id])] else old(tracks)
      ensures r == GetTrackById(id)
      ensures r.Ok? ==> r.value.lrcLyrics.None? && r.value.txtLyrics.None? && !r.value.instrumental
    {
      if id in tracks {
        tracks := tracks[id := WithNull(tracks[id])];
      }
      r := GetTrackById(id);
    }

    /** update_track_instrumental. */
    method UpdateTrackInstrumental(id: int) returns (r: Result<PersistentTrack, DbError>)
      requires Valid()
      modifies this`tracks
      ensures Valid()
      ensures tracks == if id in old(tracks) then old(tracks)[id := WithInstrumental(old(tracks)[id])] else old(tracks)
      ensures r == GetTrackById(id)
      ensures r.Ok? ==> r.value.lrcLyrics == Some(Utils.InstrumentalMarker) && r.value.txtLyrics.None? && r.value.instrumental
    {
      if id in tracks {
        tracks := tracks[id := WithInstrumental(tracks[id])];
      }
      r := GetTrackById(id);
    }

    // -------------------------------------------------------------------------
    // delete_tracks_not_in and the orphan clean-up.
    // -------------------------------------------------------------------------

    /** get_existing_file_paths. */
    method ExistingFilePaths() returns (paths: set<string>)
      requires TracksValid()
      ensures paths == PathsOf(tracks)
    {
      paths := {};
      for id := 1 to nextTrackId
        invariant paths == PathsBelow(tracks, id)
      {
        PathsBelowStep(tracks, id);
        if id in tracks {
          paths := paths + {tracks[id].filePath};
        }
      }
      PathsBelowAll(tracks, nextTrackId);
    }

    /**
     * delete_tracks_not_in: the distinct stored paths outside `keep` are
     * deleted, 500 per statement; the count is the number of those paths.
     * Afterwards exactly the rows whose path is in `keep` remain.
     */
    method DeleteTracksNotIn(keep: set<string>) returns (count: nat)
      requires Valid()
      modifies this`tracks
      ensures Valid()
      ensures count == |PathsOf(old(tracks)) - keep|
      ensures tracks == KeepPaths(old(tracks), keep)
    {
      var existing := ExistingFilePaths();
      var doomed := existing - keep;
      var toDelete := EnumerateSet(doomed);
      count := |toDelete|;
      var i := 0;
      NothingDeletedYet(tracks, toDelete);
      if count > 0 {
        while i < |toDelete|
          invariant 0 <= i <= |toDelete|
          invariant Valid()
          invariant tracks == WithoutPaths(old(tracks), Elems(toDelete[..i]))
        {
          var j := if i + DeleteChunkSize < |toDelete| then i + DeleteChunkSize else |toDelete|;
          var chunk := toDelete[i..j];
          DeleteChunkStep(old(tracks), tracks, toDelete, i, j);
          WithoutPathsIdsBelow(tracks, Elems(chunk), nextTrackId);
          tracks := WithoutPaths(tracks, Elems(chunk));
          i := j;
        }
      }
      DeletedAllOutside(old(tracks), keep, toDelete, i);
    }

    /** The album ids that some track refers to. */
    function UsedAlbumIds(): (r: set<int>)
      reads this
      ensures forall a :: a in r <==> exists k :: k in tracks && tracks[k].albumId == a
    {
      set k | k in tracks :: tracks[k].albumId
    }

    /** The artist ids that some track refers to. */
    function UsedArtistIds(): (r: set<int>)
      reads this
      ensures forall a :: a in r <==> exists k :: k in tracks && tracks[k].artistId == a
    {
      set k | k in tracks :: tracks[k].artistId
    }

    /** delete_orphan_albums: the albums no track refers to are removed, and counted. */
    method DeleteOrphanAlbums() returns (count: nat)
      requires Valid()
      modifies this`albums
      ensures Valid()
      ensures albums.Keys == old(albums).Keys * UsedAlbumIds()
      ensures Grown(albums, old(albums))
      ensures count == |old(albums).Keys - UsedAlbumIds()|
    {
      var used := UsedAlbumIds();
      count := |albums.Keys - used|;
      albums := map k | k in albums && k in used :: albums[k];
    }

    /** delete_orphan_artists: the artists no track refers to are removed, and counted. */
    method DeleteOrphanArtists() returns (count: nat)
      requires Valid()
      modifies this`artists
      ensures Valid()
      ensures artists.Keys == old(artists).Keys * UsedArtistIds()
      ensures Grown(artists, old(artists))
      ensures count == |old(artists).Keys - UsedArtistIds()|
    {
      var used := UsedArtistIds();
      count := |artists.Keys - used|;
      artists := map k | k in artists && k in used :: artists[k];
    }

    // -------------------------------------------------------------------------
    // upgrade_database_if_needed.
    // -------------------------------------------------------------------------

    /** The whole database, as a value. */
    ghost function State(): Snapshot
      reads this
    {
      Snapshot(tracks, albums, artists, nextTrackId, nextAlbumId, nextArtistId, init, userVersion, migrations)
    }

    /**
     * One migration, in its own transaction: the schema changes are not
     * modelled; version 5 empties the three tables and clears `init`,
     * version 13 recomputes every status; each sets `user_version`.
     */
    method Migrate(v: nat)
      requires 1 <= v <= CurrentDbVersion
      modifies this
      ensures State() == Migrated(old(State()), v)
    {
      userVersion := v;
      migrations := migrations + [v];
      if v == 5 {
        tracks := map[];
        albums := map[];
        artists := map[];
        init := false;
      } else if v == 13 {
        tracks := Rederive(tracks);
      }
    }

    /**
     * upgrade_database_if_needed: from a version below 13, migrations
     * `existing + 1` through 13 run in ascending order and the version ends
     * at 13; from 13 or above nothing changes.
     */
    method UpgradeDatabaseIfNeeded(existing: nat)
      requires Valid()
      modifies this
      ensures Valid()
      ensures State() == Ladder(old(State()), existing, CurrentDbVersion)
      ensures existing >= CurrentDbVersion ==> State() == old(State())
      ensures existing < CurrentDbVersion ==>
        userVersion == CurrentDbVersion && migrations == old(migrations) + Ascending(existing + 1, CurrentDbVersion)
      ensures existing < 5 ==> tracks == map[] && albums == map[] && artists == map[] && !init
      ensures 5 <= existing < CurrentDbVersion ==>
        tracks == Rederive(old(tracks)) && albums == old(albums) && artists == old(artists) && init == old(init)
    {
      ghost var s0 := State();
      if existing < CurrentDbVersion {
        RunMigrations(existing);
      }
      LadderMeaning(s0, existing);
      RederiveIdsBelow(s0.tracks, nextTrackId);
    }

    /** The body of the version check: each migration above `existing`, in ascending order. */
    method RunMigrations(existing: nat)
      modifies this
      ensures State() == Ladder(old(State()), existing, CurrentDbVersion)
    {
      ghost var s0 := State();
      ghost var p := s0;
      ghost var k := 0;
      if existing <= 0 { Migrate(1); }
      LadderNext(s0, existing, k, p, State());
      k := k + 1;
      p := State();
      if existing <= 1 { Migrate(2); }
      LadderNext(s0, existing, k, p, State());
      k := k + 1;
      p := State();
      if existing <= 2 { Migrate(3); }
      LadderNext(s0, existing, k, p, State());
      k := k + 1;
      p := State();
      if existing <= 3 { Migrate(4); }
      LadderNext(s0, existing, k, p, State());
      k := k + 1;
      p := State();
      if existing <= 4 { Migrate(5); }
      LadderNext(s0, existing, k, p, State());
      k := k + 1;
      p := State();
      if existing <= 5 { Migrate(6); }
      LadderNext(s0, existing, k, p, State());
      k := k + 1;
      p := State();
      if existing <= 6 { Migrate(7); }
      LadderNext(s0, existing, k, p, State());
      k := k + 1;
      p := State();
      if existing <= 7 { Migrate(8); }
      LadderNext(s0, existing, k, p, State());
      k := k + 1;
      p := State();
      if existing <= 8 { Migrate(9); }
      LadderNext(s0, existing, k, p, State());
      k := k + 1;
      p := State();
      if existing <= 9 { Migrate(10); }
      LadderNext(s0, existing, k, p, State());
      k := k + 1;
      p := State();
      if existing <= 10 { Migrate(11); }
      LadderNext(s0, existing, k, p, State());
      k := k + 1;
      p := State();
      if existing <= 11 { Migrate(12); }
      LadderNext(s0, existing, k, p, State());
      k := k + 1;
      p := State();
      if existing <= 12 { Migrate(13); }
      LadderNext(s0, existing, k, p, State());
    }
  }

  // ---------------------------------------------------------------------------
  // The migration ladder on values.
  // ---------------------------------------------------------------------------

  /** The contents of a `Database`. */
  datatype Snapshot = Snapshot(
    tracks: map<int, TrackRow>,
    albums: map<int, AlbumRow>,
    artists: map<int, ArtistRow>,
    nextTrackId: int,
    nextAlbumId: int,
    nextArtistId: int,
    init: bool,
    userVersion: nat,
    migrations: seq<nat>)

  /** The effect of migration `v` on the data. */
  function Migrated(s: Snapshot, v: nat): Snapshot {
    if v == 5 then s.(tracks := map[], albums := map[], artists := map[], init := false, userVersion := v, migrations := s.migrations + [v])
    else if v == 13 then s.(tracks := Rederive(s.tracks), userVersion := v, migrations := s.migrations + [v])
    else s.(userVersion := v, migrations := s.migrations + [v])
  }

  /** The state after the steps up to `k` of the ladder from `existing`: step `v` runs iff `existing < v`. */
  function Ladder(s0: Snapshot, existing: nat, k: nat): Snapshot
    decreases k
  {
    if k <= existing then s0 else Migrated(Ladder(s0, existing, k - 1), k)
  }

  /** Step `k + 1` runs iff `existing <= k`; running it or not extends the ladder by one step. */
  lemma LadderNext(s0: Snapshot, existing: nat, k: nat, prev: Snapshot, cur: Snapshot)
    requires prev == Ladder(s0, existing, k)
    requires existing <= k ==> cur == Migrated(prev, k + 1)
    requires k < existing ==> cur == prev
    ensures cur == Ladder(s0, existing, k + 1)
  {
  }

  /** Every migration appends itself to the log, sets the version and leaves the next ids alone. */
  lemma MigratedLog(s: Snapshot, v: nat)
    ensures Migrated(s, v).migrations == s.migrations + [v]
    ensures Migrated(s, v).userVersion == v
    ensures Migrated(s, v).nextTrackId == s.nextTrackId
    ensures Migrated(s, v).nextAlbumId == s.nextAlbumId
    ensures Migrated(s, v).nextArtistId == s.nextArtistId
  {
  }

  /**
   * The log of the ladder: the steps `existing + 1` through `k` ran in order,
   * the version is the last of them, and the next ids are untouched.
   */
  lemma {:induction false} LadderLog(s0: Snapshot, existing: nat, k: nat)
    ensures k <= existing ==> Ladder(s0, existing, k) == s0
    ensures existing < k ==> Ladder(s0, existing, k).userVersion == k
    ensures Ladder(s0, existing, k).migrations == s0.migrations + Ascending(existing + 1, k)
    ensures Ladder(s0, existing, k).nextTrackId == s0.nextTrackId
    ensures Ladder(s0, existing, k).nextAlbumId == s0.nextAlbumId
    ensures Ladder(s0, existing, k).nextArtistId == s0.nextArtistId
    decreases k
  {
    if k <= existing {
      assert Ascending(existing + 1, k) == [];
      assert s0.migrations + [] == s0.migrations;
    } else {
      LadderLog(s0, existing, k - 1);
      var prev := Ladder(s0, existing, k - 1);
      MigratedLog(prev, k);
      var a := Ascending(existing + 1, k - 1);
      if existing < k - 1 {
        AscendingSnoc(existing + 1, k - 1);
      } else {
        assert a == [];
        assert Ascending(existing + 1, k) == [k];
      }
      assert Ascending(existing + 1, k) == a + [k];
      assert (s0.migrations + a) + [k] == s0.migrations + (a + [k]);
    }
  }

  /** Before step 5 runs, and before step 13, the tables and `init` are untouched. */
  lemma {:induction false} LadderKeepsData(s0: Snapshot, existing: nat, k: nat)
    requires k < CurrentDbVersion
    requires k < 5 || 5 <= existing
    ensures Ladder(s0, existing, k).tracks == s0.tracks
    ensures Ladder(s0, existing, k).albums == s0.albums
    ensures Ladder(s0, existing, k).artists == s0.artists
    ensures Ladder(s0, existing, k).init == s0.init
    decreases k
  {
    if existing < k {
      LadderKeepsData(s0, existing, k - 1);
    }
  }

  /** Once step 5 has run, and until step 13, the tables are empty and `init` is cleared. */
  lemma {:induction false} LadderAfterReset(s0: Snapshot, existing: nat, k: nat)
    requires existing < 5 <= k < CurrentDbVersion
    ensures Ladder(s0, existing, k).tracks == map[]
    ensures Ladder(s0, existing, k).albums == map[]
    ensures Ladder(s0, existing, k).artists == map[]
    ensures !Ladder(s0, existing, k).init
    decreases k
  {
    if k > 5 {
      LadderAfterReset(s0, existing, k - 1);
    }
  }

  /** The whole ladder: see `UpgradeDatabaseIfNeeded`. */
  lemma LadderMeaning(s0: Snapshot, existing: nat)
    ensures existing >= CurrentDbVersion ==> Ladder(s0, existing, CurrentDbVersion) == s0
    ensures existing < CurrentDbVersion ==>
      Ladder(s0, existing, CurrentDbVersion).userVersion == CurrentDbVersion
      && Ladder(s0, existing, CurrentDbVersion).migrations == s0.migrations + Ascending(existing + 1, CurrentDbVersion)
    ensures existing < 5 ==>
      Ladder(s0, existing, CurrentDbVersion).tracks == map[] && Ladder(s0, existing, CurrentDbVersion).albums == map[]
      && Ladder(s0, existing, CurrentDbVersion).artists == map[] && !Ladder(s0, existing, CurrentDbVersion).init
    ensures 5 <= existing < CurrentDbVersion ==>
      Ladder(s0, existing, CurrentDbVersion).tracks == Rederive(s0.tracks)
      && Ladder(s0, existing, CurrentDbVersion).albums == s0.albums
      && Ladder(s0, existing, CurrentDbVersion).artists == s0.artists
      && Ladder(s0, existing, CurrentDbVersion).init == s0.init
    ensures Ladder(s0, existing, CurrentDbVersion).nextTrackId == s0.nextTrackId
    ensures Ladder(s0, existing, CurrentDbVersion).nextAlbumId == s0.nextAlbumId
    ensures Ladder(s0, existing, CurrentDbVersion).nextArtistId == s0.nextArtistId
  {
    LadderLog(s0, existing, CurrentDbVersion);
    if existing < CurrentDbVersion {
      if existing < 5 {
        LadderAfterReset(s0, existing, CurrentDbVersion - 1);
        assert Rederive(map[]) == map[];
      } else {
        LadderKeepsData(s0, existing, CurrentDbVersion - 1);
      }
    }
  }

  /** Recomputing statuses keeps the ids. */
  lemma RederiveIdsBelow(rows: map<int, TrackRow>, next: int)
    requires IdsBelow(rows, next)
    ensures IdsBelow(Rederive(rows), next)
  {
  }

  // ---------------------------------------------------------------------------
  // Helpers of the methods above.
  // ---------------------------------------------------------------------------

  lemma AscendingSnoc(lo: int, hi: int)
    requires lo <= hi
    ensures Ascending(lo, hi + 1) == Ascending(lo, hi) + [hi + 1]
  {
    assert Ascending(lo, hi + 1) == Ascending(lo, hi) + [hi + 1];
  }

  /** Enumerates a set (in no particular order, like a HashSet iterator) without repetitions. */
  method EnumerateSet(s: set<string>) returns (xs: seq<string>)
    ensures Elems(xs) == s
    ensures |xs| == |s|
  {
    xs := [];
    var rest := s;
    while rest != {}
      invariant Elems(xs) + rest == s
      invariant Elems(xs) !! rest
      invariant |xs| == |Elems(xs)|
      decreases |rest|
    {
      var x :| x in rest;
      ElemsSnoc(xs, x);
      xs := xs + [x];
      rest := rest - {x};
    }
  }

  lemma ElemsSnoc(xs: seq<string>, x: string)
    requires x !in Elems(xs)
    ensures Elems(xs + [x]) == Elems(xs) + {x}
    ensures |Elems(xs + [x])| == |Elems(xs)| + 1
  {
    assert Elems(xs + [x]) == Elems(xs) + {x};
    assert Elems(xs) !! {x};
  }

  /** Adding a row under a fresh id with a name no row has keeps names unique. */
  lemma NewNameStaysUnique(artists: map<int, ArtistRow>, id: int, row: ArtistRow)
    requires UniqueArtistNames(artists) && id !in artists
    requires forall k :: k in artists ==> artists[k].name != row.name
    ensures UniqueArtistNames(artists[id := row])
  {
  }

  /** Adding a row under a fresh id with a key no row has keeps album keys unique. */
  lemma NewAlbumStaysUnique(albums: map<int, AlbumRow>, id: int, row: AlbumRow)
    requires UniqueAlbumKeys(albums) && id !in albums
    requires forall k :: k in albums ==> albums[k].name != row.name || albums[k].albumArtistName != row.albumArtistName
    ensures UniqueAlbumKeys(albums[id := row])
  {
  }

  /** Deleting the paths of `xs[..i]`, then those of `xs[i..j]`, deletes the paths of `xs[..j]`. */
  lemma DeleteChunkStep(rows: map<int, TrackRow>, before: map<int, TrackRow>, xs: seq<string>, i: int, j: int)
    requires 0 <= i <= j <= |xs|
    requires before == WithoutPaths(rows, Elems(xs[..i]))
    ensures WithoutPaths(before, Elems(xs[i..j])) == WithoutPaths(rows, Elems(xs[..j]))
  {
    assert xs[..j] == xs[..i] + xs[i..j];
    assert Elems(xs[..j]) == Elems(xs[..i]) + Elems(xs[i..j]);
  }

  /** Deleting rows keeps ids below the next id. */
  lemma WithoutPathsIdsBelow(rows: map<int, TrackRow>, paths: set<string>, next: int)
    requires IdsBelow(rows, next)
    ensures IdsBelow(WithoutPaths(rows, paths), next)
  {
  }

  /** Before the first chunk nothing is deleted. */
  lemma NothingDeletedYet(rows: map<int, TrackRow>, xs: seq<string>)
    ensures rows == WithoutPaths(rows, Elems(xs[..0]))
  {
    assert Elems(xs[..0]) == {};
  }

  /** Once every stored path outside `keep` is deleted, exactly the rows inside it remain. */
  lemma DeletedAllOutside(rows: map<int, TrackRow>, keep: set<string>, xs: seq<string>, i: int)
    requires Elems(xs) == PathsOf(rows) - keep
    requires i == |xs| || (i == 0 && xs == [])
    ensures WithoutPaths(rows, Elems(xs[..i])) == KeepPaths(rows, keep)
  {
    assert xs[..i] == xs;
    DeletingOutsideKeeps(rows, keep);
  }

  /** Removing the stored paths outside `keep` keeps exactly the rows inside it. */
  lemma DeletingOutsideKeeps(rows: map<int, TrackRow>, keep: set<string>)
    ensures WithoutPaths(rows, PathsOf(rows) - keep) == KeepPaths(rows, keep)
  {
    var a := WithoutPaths(rows, PathsOf(rows) - keep);
    var b := KeepPaths(rows, keep);
    forall k | k in rows
      ensures rows[k].filePath in PathsOf(rows)
    {
    }
    assert a.Keys == b.Keys;
  }
}
