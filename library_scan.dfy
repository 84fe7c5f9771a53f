/**
 * The library scan: every audio file found under the configured directories
 * is read in batches of 500 and its track added to the catalog, with one
 * progress event per batch; the refresh keeps the rows of files still on
 * disk, drops the rest (and then the albums and artists no track refers to),
 * and adds only the files the catalog does not know yet. The directory walk
 * itself is an input: the sequence of paths it yields, in order.
 */
module LibraryScan {
  import opened Wrappers
  import opened FsTracks
  import opened Catalog
  import opened CatalogDb

  /** The number of files read and added per batch. */
  const BatchSize: nat := 500

  /** The payload of an "initialize-progress" event. */
  datatype ScanProgress = ScanProgress(progress: Option<real>, filesScanned: nat, filesCount: Option<nat>)

  function Min(a: int, b: int): (r: int)
    ensures r <= a && r <= b && (r == a || r == b)
  {
    if a <= b then a else b
  }

  /** The event sent once `scanned` of `count` files are processed; there is no ratio for an empty scan. */
  function ProgressEvent(scanned: nat, count: nat): ScanProgress {
    ScanProgress(if count > 0 then Some(scanned as real / count as real) else None, scanned, Some(count))
  }

  /** The number of files processed once batch `j` (from 0) is done. */
  function ChunkEnd(j: nat, count: nat): nat {
    Min((j + 1) * BatchSize, count)
  }

  /** The events of a scan of `count` files: one per batch of at most 500 files, in order. */
  ghost predicate BatchEvents(events: seq<ScanProgress>, count: nat) {
    && |events| == (count + BatchSize - 1) / BatchSize
    && forall j :: 0 <= j < |events| ==> events[j] == ProgressEvent(ChunkEnd(j, count), count)
  }

  /**
   * What the events tell the frontend: nothing for an empty scan; otherwise
   * each event counts strictly more files than the one before, by at most one
   * batch, the ratio is present and never above 1, and the last event reports
   * every file scanned and a ratio of exactly 1.
   */
  lemma BatchEventsMeaning(events: seq<ScanProgress>, count: nat)
    requires BatchEvents(events, count)
    ensures events == [] <==> count == 0
    ensures forall j :: 0 <= j < |events| ==>
      && events[j].filesCount == Some(count)
      && 0 < events[j].filesScanned <= count
      && events[j].progress.Some? && events[j].progress.value <= 1.0
    ensures forall j :: 0 < j < |events| ==>
      events[j - 1].filesScanned < events[j].filesScanned <= events[j - 1].filesScanned + BatchSize
    ensures events != [] ==> events[|events| - 1].filesScanned == count
    ensures events != [] ==> events[|events| - 1].progress == Some(1.0)
  {
    var e := |events|;
    BatchCountBounds(count);
    forall j | 0 <= j < e
      ensures 0 < events[j].filesScanned <= count
      ensures events[j].progress.Some? && events[j].progress.value <= 1.0
    {
      assert j * BatchSize <= (e - 1) * BatchSize;
      var n := ChunkEnd(j, count);
      assert 0 < n <= count;
      RatioAtMostOne(n, count);
    }
    forall j | 0 < j < e
      ensures events[j - 1].filesScanned < events[j].filesScanned <= events[j - 1].filesScanned + BatchSize
    {
      assert j * BatchSize <= (e - 1) * BatchSize;
    }
    if e > 0 {
      assert ChunkEnd(e - 1, count) == count;
      RatioOfAll(count);
    }
  }

  /** The batch count of a scan: no batch for no file, else the last batch starts below `count` and reaches it. */
  lemma BatchCountBounds(count: nat)
    ensures var e := (count + BatchSize - 1) / BatchSize;
            && (e == 0 <==> count == 0)
            && (e > 0 ==> (e - 1) * BatchSize < count <= e * BatchSize)
  {
    var e := (count + BatchSize - 1) / BatchSize;
    var r := (count + BatchSize - 1) % BatchSize;
    assert count + BatchSize - 1 == e * BatchSize + r && 0 <= r < BatchSize;
  }

  lemma RatioOfAll(count: nat)
    requires 0 < count
    ensures count as real / count as real == 1.0
  {
  }

  lemma RatioAtMostOne(n: nat, count: nat)
    requires 0 < n <= count
    ensures n as real / count as real <= 1.0
  {
  }

  /** The events of the batches done once `scanned` of `count` files are processed. */
  ghost predicate EventsSoFar(events: seq<ScanProgress>, scanned: nat, count: nat) {
    && scanned == Min(|events| * BatchSize, count)
    && (|events| == 0 || (|events| - 1) * BatchSize < count)
    && forall j :: 0 <= j < |events| ==> events[j] == ProgressEvent(ChunkEnd(j, count), count)
  }

  /** The event of one more batch, sent while files remain. */
  lemma EventsSoFarStep(events: seq<ScanProgress>, scanned: nat, count: nat)
    requires EventsSoFar(events, scanned, count) && scanned < count
    ensures var next := Min(scanned + BatchSize, count);
            EventsSoFar(events + [ProgressEvent(next, count)], next, count)
  {
  }

  /** Once every file is processed, the events are those of the whole scan. */
  lemma EventsSoFarDone(events: seq<ScanProgress>, count: nat)
    requires EventsSoFar(events, count, count)
    ensures BatchEvents(events, count)
  {
    var e := |events|;
    var r := (count + BatchSize - 1) % BatchSize;
    assert count + BatchSize - 1 == (count + BatchSize - 1) / BatchSize * BatchSize + r;
  }

  /**
   * load_tracks_from_directories, after the directory walk: the files are
   * read and added in batches of 500 with one pair of lookup caches for the
   * whole scan, and an event follows each batch. Every readable file's track
   * is added, in order, at the next ids; unreadable files are skipped.
   */
  method LoadTracksFromDirectories(db: Database, entries: seq<string>,
                                   read: string -> Result<FsTrack, FsTrackError>, prepare: string -> string)
    returns (events: seq<ScanProgress>)
    requires db.Valid()
    modifies db`tracks, db`nextTrackId, db`artists, db`nextArtistId, db`albums, db`nextAlbumId
    ensures db.Valid()
    ensures db.nextTrackId == old(db.nextTrackId) + |KeepOk(Reads(entries, read))|
    ensures Added(old(db.tracks), old(db.albums), old(db.artists), db.tracks, db.albums, db.artists,
                  KeepOk(Reads(entries, read)), old(db.nextTrackId), prepare)
    ensures BatchEvents(events, |entries|)
  {
    var filesCount := |entries|;
    var filesScanned := 0;
    var caches := new LookupCaches();
    ghost var base := db.nextTrackId;
    ghost var tracks0, albums0, artists0 := db.tracks, db.albums, db.artists;
    ghost var done: seq<FsTrack> := [];
    events := [];
    while filesScanned < filesCount
      invariant filesScanned <= filesCount
      invariant EventsSoFar(events, filesScanned, filesCount)
      invariant db.Valid() && db.CachesSound(caches)
      invariant done == KeepOk(Reads(entries[..filesScanned], read))
      invariant db.nextTrackId == base + |done|
      invariant Added(tracks0, albums0, artists0, db.tracks, db.albums, db.artists, done, base, prepare)
      decreases filesCount - filesScanned
    {
      ghost var scanned0 := filesScanned;
      var end := Min(filesScanned + BatchSize, filesCount);
      var batch := entries[filesScanned..end];
      var tracks := LoadTracksFromEntryBatch(batch, read);
      ghost var tracks1, albums1, artists1 := db.tracks, db.albums, db.artists;
      ghost var mid := db.nextTrackId;
      db.AddTracks(tracks, caches, prepare);
      AddedAppend(tracks0, albums0, artists0, tracks1, albums1, artists1, db.tracks, db.albums, db.artists,
                  done, tracks, base, mid, prepare);
      BatchReads(entries, filesScanned, end, read);
      done := done + tracks;
      filesScanned := filesScanned + |batch|;
      var progress := if filesCount > 0 then Some(filesScanned as real / filesCount as real) else None;
      var event := ScanProgress(progress, filesScanned, Some(filesCount));
      assert filesScanned == end && event == ProgressEvent(end, filesCount);
      EventsSoFarStep(events, scanned0, filesCount);
      events := events + [event];
    }
    assert entries[..filesScanned] == entries;
    EventsSoFarDone(events, filesCount);
  }

  /** Reading up to `j` is reading up to `i`, then the batch from `i` to `j`. */
  lemma BatchReads(entries: seq<string>, i: nat, j: nat, read: string -> Result<FsTrack, FsTrackError>)
    requires i <= j <= |entries|
    ensures KeepOk(Reads(entries[..j], read)) == KeepOk(Reads(entries[..i], read)) + KeepOk(Reads(entries[i..j], read))
  {
    assert entries[..j] == entries[..i] + entries[i..j];
    ReadsAppend(entries[..i], entries[i..j], read);
    KeepOkAppend(Reads(entries[..i], read), Reads(entries[i..j], read));
  }

  // ---------------------------------------------------------------------------
  // refresh_tracks_from_directories
  // ---------------------------------------------------------------------------

  /** The scanned paths the catalog does not hold yet, in scan order. */
  function NewEntries(entries: seq<string>, existing: set<string>): (r: seq<string>)
    ensures |r| <= |entries|
    ensures forall p :: p in r <==> p in entries && p !in existing
  {
    if entries == [] then []
    else
      var init := NewEntries(entries[..|entries| - 1], existing);
      var p := entries[|entries| - 1];
      assert forall q :: q in entries <==> q in entries[..|entries| - 1] || q == p;
      if p in existing then init else init + [p]
  }

  /** Filtering a scan in two parts filters each part. */
  lemma {:induction false} NewEntriesAppend(a: seq<string>, b: seq<string>, existing: set<string>)
    ensures NewEntries(a + b, existing) == NewEntries(a, existing) + NewEntries(b, existing)
    decreases |b|
  {
    if b == [] {
      assert a + b == a;
    } else {
      var init := b[..|b| - 1];
      assert (a + b)[..|a + b| - 1] == a + init;
      NewEntriesAppend(a, init, existing);
    }
  }

  /**
   * The loop over the scanned entries: every path goes into the set of paths
   * on disk, and the paths the catalog lacks are kept, in order, as new.
   */
  method PartitionEntries(entries: seq<string>, existing: set<string>)
    returns (diskPaths: set<string>, newEntries: seq<string>)
    ensures diskPaths == Elems(entries)
    ensures newEntries == NewEntries(entries, existing)
  {
    diskPaths := {};
    newEntries := [];
    for i := 0 to |entries|
      invariant diskPaths == Elems(entries[..i])
      invariant newEntries == NewEntries(entries[..i], existing)
    {
      var p := entries[i];
      assert entries[..i + 1][..i] == entries[..i];
      assert Elems(entries[..i + 1]) == Elems(entries[..i]) + {p} by {
        assert forall q :: q in entries[..i + 1] <==> q in entries[..i] || q == p;
      }
      diskPaths := diskPaths + {p};
      if p !in existing {
        newEntries := newEntries + [p];
      }
    }
    assert entries[..|entries|] == entries;
  }

  /** Keeping the rows on some paths changes nothing iff every path of the table is kept. */
  lemma KeepPathsUnchanged(rows: map<int, TrackRow>, keep: set<string>)
    ensures KeepPaths(rows, keep) == rows <==> |PathsOf(rows) - keep| == 0
  {
    if |PathsOf(rows) - keep| != 0 {
      var p :| p in PathsOf(rows) - keep;
      var k :| k in rows && rows[k].filePath == p;
      assert k !in KeepPaths(rows, keep);
    } else {
      assert PathsOf(rows) - keep == {};
      forall k | k in rows
        ensures rows[k].filePath in keep
      {
        assert rows[k].filePath in PathsOf(rows);
      }
      assert KeepPaths(rows, keep).Keys == rows.Keys;
    }
  }

  /**
   * The removal step of the refresh: the rows of files no longer on disk are
   * deleted and counted, and only when some were deleted are the albums and
   * then the artists no remaining track refers to removed as well.
   */
  method RemoveVanished(db: Database, diskPaths: set<string>) returns (deleted: nat)
    requires db.Valid()
    modifies db`tracks, db`albums, db`artists
    ensures db.Valid()
    ensures deleted == |PathsOf(old(db.tracks)) - diskPaths|
    ensures db.tracks == KeepPaths(old(db.tracks), diskPaths)
    ensures deleted == 0 <==> db.tracks == old(db.tracks)
    ensures deleted == 0 ==> db.albums == old(db.albums) && db.artists == old(db.artists)
    ensures deleted > 0 ==> db.albums.Keys == old(db.albums).Keys * db.UsedAlbumIds() && Grown(db.albums, old(db.albums))
    ensures deleted > 0 ==> db.artists.Keys == old(db.artists).Keys * db.UsedArtistIds() && Grown(db.artists, old(db.artists))
  {
    deleted := db.DeleteTracksNotIn(diskPaths);
    KeepPathsUnchanged(old(db.tracks), diskPaths);
    if deleted > 0 {
      var orphanAlbums := db.DeleteOrphanAlbums();
      var orphanArtists := db.DeleteOrphanArtists();
    }
  }

  /**
   * refresh_tracks_from_directories, after the directory walk: the rows of
   * files still on disk stay as they were, the others are deleted (with the
   * orphan cleanup when any were), and the scanned files the catalog did not
   * hold are added as a scan of their own.
   */
  method RefreshTracksFromDirectories(db: Database, entries: seq<string>,
                                      read: string -> Result<FsTrack, FsTrackError>, prepare: string -> string)
    returns (deleted: nat, events: seq<ScanProgress>)
    requires db.Valid()
    modifies db`tracks, db`nextTrackId, db`artists, db`nextArtistId, db`albums, db`nextAlbumId
    ensures db.Valid()
    ensures deleted == |PathsOf(old(db.tracks)) - Elems(entries)|
    ensures var added := KeepOk(Reads(NewEntries(entries, PathsOf(old(db.tracks))), read));
            && db.nextTrackId == old(db.nextTrackId) + |added|
            && TracksAdded(KeepPaths(old(db.tracks), Elems(entries)), db.tracks, db.albums, db.artists,
                           added, old(db.nextTrackId), prepare)
            && NewRowsFrom(old(db.albums), old(db.artists), db.albums, db.artists, added, prepare)
    ensures deleted == 0 ==> Grown(old(db.albums), db.albums) && Grown(old(db.artists), db.artists)
    ensures BatchEvents(events, |NewEntries(entries, PathsOf(old(db.tracks)))|)
  {
    var existing := db.ExistingFilePaths();
    var diskPaths, newEntries := PartitionEntries(entries, existing);
    var newCount := |newEntries|;
    deleted := RemoveVanished(db, diskPaths);
    if newCount > 0 {
      events := LoadTracksFromDirectories(db, newEntries, read, prepare);
    } else {
      events := [];
      assert Reads(newEntries, read) == [];
    }
  }
}
