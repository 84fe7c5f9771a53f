/**
 * Reading one audio file into a track record: the tag fields (from the primary
 * tag, or from the ID3v2 reader when the general tag reader fails), the audio
 * properties, and the lyrics of the two sidecar files.
 *
 * The tag readers are oracles: a `Probe` says what each reader returns for a
 * path. The sidecar files are a map from path to contents; a file that is
 * missing or cannot be read as text is absent from it.
 */
module FsTracks {
  import opened Wrappers
  import opened Paths

  /** A scanned track, before it is stored. */
  datatype FsTrack = FsTrack(
    filePath: string,
    fileName: string,
    title: string,
    album: string,
    artist: string,
    albumArtist: string,
    duration: real,
    txtLyrics: Option<string>,
    lrcLyrics: Option<string>,
    trackNumber: Option<nat>,
    bitrate: Option<nat>)

  datatype FsTrackError =
    | ParseFailed(path: string)
    | TitleNotFound(path: string)
    | AlbumNotFound(path: string)
    | ArtistNotFound(path: string)
    | PrimaryTagNotFound(path: string)

  /** The fields a tag reader reports; each may be missing. */
  datatype TagFields = TagFields(
    title: Option<string>,
    album: Option<string>,
    artist: Option<string>,
    albumArtist: Option<string>,
    trackNumber: Option<nat>)

  /** Duration in seconds and bitrate in kbit/s. */
  datatype AudioProperties = AudioProperties(duration: real, bitrate: Option<nat>)

  /** The general tag reader: the file's primary tag (if any) and its properties, or a failure. */
  datatype TaggedFile = TaggedFile(primaryTag: Option<TagFields>, properties: AudioProperties)

  /**
   * What the readers return for one path: the general reader, the ID3v2-only
   * reader, and the properties-only reader in relaxed mode.
   */
  datatype Probe = Probe(
    tagged: Option<TaggedFile>,
    id3: Option<TagFields>,
    relaxedProperties: Option<AudioProperties>)

  /** The contents of the `.txt` and `.lrc` sidecars of a track. */
  function ReadSidecarLyrics(path: string, files: map<string, string>): (r: (Option<string>, Option<string>))
    ensures r.0.Some? <==> SidecarPath(path, "txt") in files
    ensures r.0.Some? ==> r.0.value == files[SidecarPath(path, "txt")]
    ensures r.1.Some? <==> SidecarPath(path, "lrc") in files
    ensures r.1.Some? ==> r.1.value == files[SidecarPath(path, "lrc")]
  {
    var txt := SidecarPath(path, "txt");
    var lrc := SidecarPath(path, "lrc");
    (if txt in files then Some(files[txt]) else Option.None,
     if lrc in files then Some(files[lrc]) else Option.None)
  }

  /**
   * The sidecars read for a track with a file name are the ones the lyrics
   * writers produce, and they are two different files.
   */
  lemma SidecarsReadAreSidecarsWritten(path: string)
    requires HasFileName(path)
    ensures SidecarPath(path, "txt") == BuildTxtPath(path)
    ensures SidecarPath(path, "lrc") == BuildLrcPath(path)
    ensures BuildTxtPath(path) != BuildLrcPath(path)
  {
    SidecarsDistinct(path);
  }

  /**
   * A track from reported tag fields: title, album and artist are required, in
   * that order; the album artist defaults to the artist; the lyrics come from
   * the sidecars.
   */
  function TrackFromFields(path: string, name: string, tags: TagFields, props: AudioProperties, files: map<string, string>): (r: Result<FsTrack, FsTrackError>)
    ensures r == Err(TitleNotFound(path)) <==> tags.title.None?
    ensures r == Err(AlbumNotFound(path)) <==> tags.title.Some? && tags.album.None?
    ensures r == Err(ArtistNotFound(path)) <==> tags.title.Some? && tags.album.Some? && tags.artist.None?
    ensures r.Ok? <==> tags.title.Some? && tags.album.Some? && tags.artist.Some?
    ensures r.Ok? ==>
              && r.value.title == tags.title.value
              && r.value.album == tags.album.value
              && r.value.artist == tags.artist.value
              && (tags.albumArtist.Some? ==> r.value.albumArtist == tags.albumArtist.value)
              && (tags.albumArtist.None? ==> r.value.albumArtist == r.value.artist)
              && r.value.filePath == path && r.value.fileName == name
              && r.value.duration == props.duration && r.value.bitrate == props.bitrate
              && r.value.trackNumber == tags.trackNumber
              && (r.value.txtLyrics, r.value.lrcLyrics) == ReadSidecarLyrics(path, files)
  {
    if tags.title.None? then Err(TitleNotFound(path))
    else if tags.album.None? then Err(AlbumNotFound(path))
    else if tags.artist.None? then Err(ArtistNotFound(path))
    else
      var artist := tags.artist.value;
      var albumArtist := tags.albumArtist.GetOr(artist);
      var (txt, lrc) := ReadSidecarLyrics(path, files);
      Ok(FsTrack(path, name, tags.title.value, tags.album.value, artist, albumArtist,
                 props.duration, txt, lrc, tags.trackNumber, props.bitrate))
  }

  /** from_lofty_tagged_file: the primary tag is required. */
  function FromLoftyTaggedFile(tagged: TaggedFile, path: string, name: string, files: map<string, string>): (r: Result<FsTrack, FsTrackError>)
    ensures tagged.primaryTag.None? <==> r == Err(PrimaryTagNotFound(path))
    ensures tagged.primaryTag.Some? ==> r == TrackFromFields(path, name, tagged.primaryTag.value, tagged.properties, files)
  {
    match tagged.primaryTag
    case None => Err(PrimaryTagNotFound(path))
    case Some(tags) => TrackFromFields(path, name, tags, tagged.properties, files)
  }

  /**
   * from_id3_fallback: an unreadable ID3v2 tag is a parse failure; missing
   * audio properties become a zero duration and no bitrate.
   */
  function FromId3Fallback(probe: Probe, path: string, name: string, files: map<string, string>): (r: Result<FsTrack, FsTrackError>)
    ensures probe.id3.None? <==> r == Err(ParseFailed(path))
    ensures probe.id3.Some? && probe.relaxedProperties.None? && r.Ok? ==> r.value.duration == 0.0 && r.value.bitrate.None?
    ensures probe.id3.Some? ==> r == TrackFromFields(path, name, probe.id3.value, probe.relaxedProperties.GetOr(AudioProperties(0.0, Option.None)), files)
  {
    match probe.id3
    case None => Err(ParseFailed(path))
    case Some(tags) =>
      var props := probe.relaxedProperties.GetOr(AudioProperties(0.0, Option.None));
      TrackFromFields(path, name, tags, props, files)
  }

  /**
   * new_from_path: the general reader first; only when it fails altogether is
   * the ID3v2 fallback tried. A file the general reader opens but that has no
   * primary tag is not retried.
   */
  function NewFromPath(path: string, probe: Probe, files: map<string, string>): Result<FsTrack, FsTrackError> {
    if probe.tagged.Some? then FromLoftyTaggedFile(probe.tagged.value, path, FileName(path), files)
    else FromId3Fallback(probe, path, FileName(path), files)
  }

  /**
   * The outcome of reading one path: a track keeps the path and its file name
   * and reads the two sidecars of the path; the errors name the path, and
   * which error depends only on which reader answered and which fields are
   * missing.
   */
  lemma NewFromPathOutcome(path: string, probe: Probe, files: map<string, string>)
    requires HasFileName(path)
    ensures var r := NewFromPath(path, probe, files);
            && (r.Ok? ==>
                  && r.value.filePath == path && r.value.fileName == FileName(path)
                  && r.value.txtLyrics == (if BuildTxtPath(path) in files then Some(files[BuildTxtPath(path)]) else Option.None)
                  && r.value.lrcLyrics == (if BuildLrcPath(path) in files then Some(files[BuildLrcPath(path)]) else Option.None))
            && (r == Err(PrimaryTagNotFound(path)) <==> probe.tagged.Some? && probe.tagged.value.primaryTag.None?)
            && (r == Err(ParseFailed(path)) <==> probe.tagged.None? && probe.id3.None?)
            && (r.Err? ==> r.error.path == path)
  {
    SidecarsReadAreSidecarsWritten(path);
    var r := NewFromPath(path, probe, files);
    if probe.tagged.Some? && probe.tagged.value.primaryTag.Some? {
      assert r == TrackFromFields(path, FileName(path), probe.tagged.value.primaryTag.value, probe.tagged.value.properties, files);
    } else if probe.tagged.None? && probe.id3.Some? {
      assert r == TrackFromFields(path, FileName(path), probe.id3.value, probe.relaxedProperties.GetOr(AudioProperties(0.0, Option.None)), files);
    }
  }

  /** The reader of one path, for a given set of tag readers and sidecar files. */
  function ReaderOf(probe: string -> Probe, files: map<string, string>): (read: string -> Result<FsTrack, FsTrackError>)
    ensures forall p :: read(p) == NewFromPath(p, probe(p), files)
  {
    p => NewFromPath(p, probe(p), files)
  }

  /** The reads of a batch of paths, in order. */
  function Reads(batch: seq<string>, read: string -> Result<FsTrack, FsTrackError>): (r: seq<Result<FsTrack, FsTrackError>>)
    ensures |r| == |batch|
  {
    if batch == [] then []
    else Reads(batch[..|batch| - 1], read) + [read(batch[|batch| - 1])]
  }

  /** The tracks of the successful results, in order. */
  function KeepOk(results: seq<Result<FsTrack, FsTrackError>>): seq<FsTrack> {
    if results == [] then []
    else
      var rest := KeepOk(results[..|results| - 1]);
      match results[|results| - 1]
      case Ok(t) => rest + [t]
      case Err(_) => rest
  }

  /**
   * load_tracks_from_entry_batch: read every path and keep the tracks, dropping
   * the failures.
   */
  method LoadTracksFromEntryBatch(batch: seq<string>, read: string -> Result<FsTrack, FsTrackError>) returns (tracks: seq<FsTrack>)
    ensures tracks == KeepOk(Reads(batch, read))
  {
    var results := Reads(batch, read);
    tracks := [];
    for i := 0 to |results|
      invariant tracks == KeepOk(results[..i])
    {
      assert results[..i + 1][..i] == results[..i];
      match results[i] {
        case Ok(track) => tracks := tracks + [track];
        case Err(_) =>
      }
    }
    assert results[..|results|] == results;
  }

  /** The i-th read of a batch is the read of its i-th path. */
  lemma {:induction false} ReadsAt(batch: seq<string>, read: string -> Result<FsTrack, FsTrackError>, i: nat)
    requires i < |batch|
    ensures Reads(batch, read)[i] == read(batch[i])
    decreases |batch|
  {
    if i < |batch| - 1 {
      ReadsAt(batch[..|batch| - 1], read, i);
    }
  }

  /**
   * The kept tracks are exactly the successful results: there are no more of
   * them than results, and a track is kept iff some result is that track.
   */
  lemma {:induction false} KeepOkExactly(results: seq<Result<FsTrack, FsTrackError>>)
    ensures |KeepOk(results)| <= |results|
    ensures forall t :: t in KeepOk(results) <==> Ok(t) in results
  {
    if results != [] {
      var init := results[..|results| - 1];
      KeepOkExactly(init);
      assert results == init + [results[|results| - 1]];
      forall t ensures t in KeepOk(results) <==> Ok(t) in results {
        assert Ok(t) in results <==> Ok(t) in init || results[|results| - 1] == Ok(t);
      }
    }
  }

  /** Keeping the successes of two consecutive runs of results keeps those of both, in order. */
  lemma {:induction false} KeepOkAppend(a: seq<Result<FsTrack, FsTrackError>>, b: seq<Result<FsTrack, FsTrackError>>)
    ensures KeepOk(a + b) == KeepOk(a) + KeepOk(b)
    decreases |b|
  {
    if b == [] {
      assert a + b == a;
    } else {
      var b' := b[..|b| - 1];
      assert (a + b)[..|a + b| - 1] == a + b';
      assert (a + b)[|a + b| - 1] == b[|b| - 1];
      KeepOkAppend(a, b');
    }
  }

  /** Reading two consecutive runs of paths reads each run. */
  lemma {:induction false} ReadsAppend(a: seq<string>, b: seq<string>, read: string -> Result<FsTrack, FsTrackError>)
    ensures Reads(a + b, read) == Reads(a, read) + Reads(b, read)
    decreases |b|
  {
    if b == [] {
      assert a + b == a;
    } else {
      var b' := b[..|b| - 1];
      assert (a + b)[..|a + b| - 1] == a + b';
      assert (a + b)[|a + b| - 1] == b[|b| - 1];
      ReadsAppend(a, b', read);
    }
  }
}
