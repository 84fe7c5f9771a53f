# lrcget lyrics core in Dafny

lrcget is a desktop application that keeps a SQLite catalogue of the audio
files found under a set of music directories, looks up lyrics for each track
on an LRCLIB server, and persists what it finds in three places: `.txt`/`.lrc`
sidecar files next to the audio file, lyrics tags embedded in the audio file
(Vorbis comments for FLAC, ID3v2 `USLT`/`SYLT` frames for MP3), and the
track's row in the catalogue together with a derived `lyrics_status`
(`synced`, `plain`, `instrumental`, `missing`).

This project models that core and proves properties of it:

- `Utils` — the two regex passes of `prepare_input` (`Scrub`), `strip_timestamp`, and the
  `[au:\s*instrumental]` marker test, over strings.
- `Text`, `Similarity` — `normalize_text` and the word-set Jaccard
  `text_similarity` used to validate fuzzy matches.
- `Ranking` — `pick_best_match` (duration filter, then the minimum by
  lyrics score and duration distance), `search_item_to_response`, and the
  two search fallbacks.
- `Resolution` — `download_lyrics_for_track`: exact lookup, then
  duration-tolerant search, then fuzzy search, with the `MatchSource` that
  reports which tier answered.
- `Paths`, `Persistence` — sidecar path construction, the sidecar writes of
  `save_plain_lyrics`/`save_synced_lyrics`/`save_instrumental`, tag
  embedding, and `apply_lyrics_for_track`/`apply_string_lyrics_for_track`.
  The sidecar files are a `map` field of a `TrackFiles` object, the audio
  files' tag containers another.
- `Lrclib`, `GetById` — the retry loop shared by every HTTP call, and the
  `/api/get/{id}` request with its status-code classification.
- `FsTracks`, `LibraryScan` — reading one audio file into an `FsTrack`,
  the batch loader, and the full scan and incremental refresh of a library,
  with their progress events.
- `Catalog`, `CatalogDb`, `CatalogQueries` — the catalogue as a `Database`
  object whose tables are `map` fields keyed by row id: track insertion with
  artist/album de-duplication through caches, lookups and lyrics updates,
  deletion of vanished tracks and orphaned albums/artists, the schema
  migration ladder, and the status/sort/filter clauses used by the list
  queries.
- `LyricsCommands` — the `download_lyrics`, `apply_lyrics`, `save_lyrics`,
  `publish_lyrics` and `flag_lyrics` commands.

Everything that talks to the outside world is a parameter: the HTTP
transport, the LRCLIB search and lookup answers, the audio-tag reader, the
SYLT encoder, the proof-of-work solver and the Unicode case tables are
function-typed or datatype inputs. The entries of a directory walk are an
input sequence of paths.

## Model

| member | source | states |
|---|---|---|
| Utils.DropSpaces | src-tauri/src/utils.rs:10-11 | the ` *` tail of the timestamp pattern: the result is a suffix with no leading space |
| Utils.StripFromShrinks | src-tauri/src/utils.rs:27-30 | stripping timestamps never lengthens the text |
| Utils.StripTimestampIdentity | src-tauri/src/utils.rs:27-30 | text with no `[` is returned unchanged |
| Utils.StripFromNoBracket | src-tauri/src/utils.rs:27-30 | the same at any line position |
| Utils.StripFromSingleLine | src-tauri/src/utils.rs:10-11 | the pattern is anchored at line starts (`(?m)^`): mid-line text is never stripped |
| Utils.StripKeepsPlainLine | src-tauri/src/utils.rs:27-30 | a line not starting with `[` is kept verbatim and stripping continues on the next line |
| Utils.StripTailOfLine | src-tauri/src/utils.rs:27-30 | after a match, the rest of that line is kept and matching resumes at the next line |
| Utils.StripOneGroup | src-tauri/src/utils.rs:10-11 | a leading `[...]` group and the spaces after it are removed, leaving the lyric text |
| Utils.StripTwoGroupsExample | src-tauri/src/utils.rs:27-30 | only one bracket group per line is removed (`"[a][b] x"` becomes `"[b] x"`) |
| Utils.DropSpacesOfSpaces | src-tauri/src/utils.rs:10-11 | any run of spaces before non-space text is consumed entirely |
| Utils.DropWhitespace | src-tauri/src/utils.rs:12-13 | the `\s*` of the instrumental pattern: drops exactly the leading whitespace |
| Utils.MarkerAtIff | src-tauri/src/utils.rs:12-13 | a match at a position holds iff the text there is `[au:`, whitespace, `instrumental]` |
| Utils.MatchesInstrumentalIff | src-tauri/src/utils.rs:12-13 | `RE_INSTRUMENTAL.is_match` holds iff some position starts `[au:` + whitespace + `instrumental]` |
| Utils.MarkerMatchesInstrumental | src-tauri/src/utils.rs:12-13 | the marker `[au: instrumental]` written for instrumentals matches the pattern |
| Utils.DropWhitespaceSkips | src-tauri/src/utils.rs:12-13 | whitespace before a non-space character is skipped completely |
| Utils.ReplacePunctuation | src-tauri/src/utils.rs:6-7 | each punctuation character becomes a space, every other character is kept, length unchanged |
| Utils.RemoveQuotes | src-tauri/src/utils.rs:8-9 | the result holds exactly the input's non-quote characters |
| Utils.RemoveQuotesAppend | src-tauri/src/utils.rs:19 | deleting quotes distributes over concatenation, so the pass keeps the remaining characters in their order |
| Utils.RemoveQuotesUnit | src-tauri/src/utils.rs:19 | a single character is deleted exactly when it is an apostrophe |
| Utils.ScrubClean | src-tauri/src/utils.rs:15-25 | after the punctuation and quote passes no punctuation or quote is left, every other character survives, and a second pass changes nothing |
| Utils.ScrubCleanFixed | src-tauri/src/utils.rs:15-25 | text already free of punctuation and quotes is left unchanged |
| Text.AsciiLowerString | src-tauri/src/lyrics.rs:340-352 | the ASCII lower-casing used for the extension test, character by character |
| Text.TokenLen | src-tauri/src/lyrics.rs:119-127 | the length of the leading non-whitespace run of a string |
| Text.WordsAreWords | src-tauri/src/lyrics.rs:119-127 | `split_whitespace` yields non-empty words without whitespace, made of the input's characters |
| Text.TokenLenOfWord | src-tauri/src/lyrics.rs:119-127 | a word followed by whitespace or the end is one token |
| Text.WordsOfWordThen | src-tauri/src/lyrics.rs:119-127 | splitting a word followed by whitespace yields that word first |
| Text.WordsOfWordSpace | src-tauri/src/lyrics.rs:119-127 | the same for a word and one space |
| Text.WordsOfJoin | src-tauri/src/lyrics.rs:119-127 | `join(" ")` followed by `split_whitespace` gives back the same words |
| Text.JoinSpacesShape | src-tauri/src/lyrics.rs:119-127 | words joined by single spaces have no leading, trailing or double space, and are empty iff there are no words |
| Similarity.KeepWordChars | src-tauri/src/lyrics.rs:119-123 | the filter keeps exactly the alphanumeric and whitespace characters |
| Similarity.KeepWordCharsAppend | src-tauri/src/lyrics.rs:121-122 | the filter distributes over concatenation, so it keeps the kept characters in their order |
| Similarity.KeepWordCharsUnit | src-tauri/src/lyrics.rs:121-122 | a single character is kept exactly when it is alphanumeric or whitespace |
| Similarity.NormalizeTextShape | src-tauri/src/lyrics.rs:119-127 | `normalize_text` is single-spaced, holds only alphanumerics and spaces, and splits back into its normalized words |
| Similarity.FlattenOfWordsNoWhitespace | src-tauri/src/lyrics.rs:119-127 | no character of a normalized word is whitespace |
| Similarity.NonEmptyNormalHasWords | src-tauri/src/lyrics.rs:129-147 | a non-empty normalized text has at least one word, so the union is never empty there |
| Similarity.SimilaritySymmetric | src-tauri/src/lyrics.rs:129-147 | `text_similarity(a, b) == text_similarity(b, a)` |
| Similarity.SimilarityReflexive | src-tauri/src/lyrics.rs:129-147 | any text is fully similar (1.0) to itself, including the both-empty case |
| Similarity.JaccardCounts | src-tauri/src/lyrics.rs:129-147 | intersection count is at most the union count, and the union is positive |
| Similarity.SimilarityCases | src-tauri/src/lyrics.rs:129-147 | the score is in [0, 1]; 1.0 when both normalize to empty, 0.0 when exactly one does, else intersection / union |
| Similarity.SimilarityThreshold | src-tauri/src/lyrics.rs:39 | the 0.3 threshold holds iff both are empty or ten times the number of shared words is at least three times the number of distinct words |
| Similarity.ThresholdAsIntegers | src-tauri/src/lyrics.rs:39 | `i / u >= 0.3` iff `10 i >= 3 u` |
| Ranking.Score | src-tauri/src/lyrics.rs:181-186 | the lyrics score is 0..3 (synced, plain, instrumental, none) |
| Ranking.BestIndexBounded | src-tauri/src/lyrics.rs:168-195 | the chosen index is inside the result list |
| Ranking.BestIndexFromMinimum | src-tauri/src/lyrics.rs:168-195 | the scan keeps the first minimum under (score, duration distance) among items within tolerance |
| Ranking.PickBestMatchSpec | src-tauri/src/lyrics.rs:168-195 | `None` iff no item is within tolerance; otherwise the pick is within tolerance, no other admissible item has a lower score or, at equal score, a smaller distance, and it is the first such item |
| Ranking.SyncedBeatsUnsynced | src-tauri/src/lyrics.rs:168-195 | if any admissible item has synced lyrics, the pick has synced lyrics |
| Ranking.ResponseFollowsScore | src-tauri/src/lyrics.rs:149-166 | the response kind is determined by the score; synced lyrics fall back to timestamp-stripped plain text |
| Ranking.FuzzyCandidates | src-tauri/src/lyrics.rs:223-230 | the candidates are exactly the results that have a name at least 0.3 similar to the title |
| Ranking.FuzzyCandidatesAppend | src-tauri/src/lyrics.rs:223-230 | the filter distributes over concatenation, so the candidates keep the search order and multiplicity that `pick_best_match`'s first-of-equals tie-break depends on |
| Ranking.FuzzyCandidatesUnit | src-tauri/src/lyrics.rs:224-229 | a single result is kept exactly when it has a name at least 0.3 similar to the title |
| Ranking.FuzzyWinnerMatchesTitle | src-tauri/src/lyrics.rs:213-236 | a fuzzy winner is a search result, within tolerance, whose name passes the similarity threshold |
| Resolution.DownloadLyricsForTrack | src-tauri/src/lyrics.rs:41-116 | the outcome and the searches made agree with the tier function `Resolve`; on success the sidecars and audio are exactly what applying the answer produces, on error nothing changes |
| Resolution.ResolveTiers | src-tauri/src/lyrics.rs:41-116 | errors come only from the exact lookup; an exact hit makes no search; zero tolerance makes no search; `MatchSource::None` iff the answer is `None`; each tier records exactly the searches it made; disabled fuzzy search is never issued |
| Resolution.SearchErrorsIgnored | src-tauri/src/lyrics.rs:80-115 | when the exact lookups find nothing, the structured search fails, and either fuzzy search is off or the fuzzy search fails too, the result is `(None, MatchSource::None)` rather than an error |
| Resolution.DurationFallbackAnswer | src-tauri/src/lyrics.rs:69-85 | a `DurationFallback` answer is the response of the best in-tolerance result of the field search |
| Resolution.FuzzyAnswerMatchesTitle | src-tauri/src/lyrics.rs:93-115 | a `FuzzyFallback` answer comes from a result of the `q` search whose name passes the title threshold |
| Paths.LastIndexOf | src-tauri/src/lyrics.rs:320-328 | the position of the last `/`, or none |
| Paths.FileName | src-tauri/src/lyrics.rs:320-328 | the final component has no `/` and the path is its directory prefix plus it |
| Paths.FileStem | src-tauri/src/lyrics.rs:320-328 | the stem is a non-empty prefix of the file name |
| Paths.LastIndexOfAppend | src-tauri/src/lyrics.rs:320-338 | appending slash-free text does not move the last slash |
| Paths.SplitAtLastSlash | src-tauri/src/lyrics.rs:320-338 | parent and file name of `prefix + name` are `prefix` and `name` |
| Paths.DirPrefixIsOwnPrefix | src-tauri/src/lyrics.rs:320-338 | the parent's directory prefix is itself |
| Paths.StemOfExtended | src-tauri/src/lyrics.rs:320-338 | the stem of `stem.ext` is `stem` |
| Paths.SidecarPathsShape | src-tauri/src/lyrics.rs:320-338 | the `.txt` and `.lrc` sidecars sit in the track's directory, share its stem, and differ |
| Paths.TxtSidecar | src-tauri/src/lyrics.rs:320-328 | `build_txt_path` is `<dir>/<stem>.txt` |
| Paths.LrcSidecar | src-tauri/src/lyrics.rs:330-338 | `build_lrc_path` is `<dir>/<stem>.lrc` |
| Paths.SidecarOf | src-tauri/src/fs_track.rs:258-267 | any three-letter sidecar of a track sits beside it with the same stem |
| Paths.SidecarsDistinct | src-tauri/src/lyrics.rs:320-338 | the two sidecars are different files |
| Persistence.PlainSaved | src-tauri/src/lyrics.rs:282-294 | the `.lrc` is removed; the `.txt` holds the lyrics, or is removed when they are empty; no other file changes |
| Persistence.SyncedSaved | src-tauri/src/lyrics.rs:296-306 | empty lyrics remove only the `.lrc`; otherwise the `.txt` is removed and the `.lrc` holds the lyrics; no other file changes |
| Persistence.InstrumentalSaved | src-tauri/src/lyrics.rs:308-318 | the `.txt` is removed and the `.lrc` holds `[au: instrumental]`; no other file changes |
| Persistence.FlacCommentsAfter | src-tauri/src/lyrics.rs:354-376 | `UNSYNCEDLYRICS`/`LYRICS` hold the non-empty texts and are removed for empty ones; other comments are kept |
| Persistence.Id3FramesAfter | src-tauri/src/lyrics.rs:378-433 | fails iff synced text cannot be encoded; otherwise `USLT`/`SYLT` hold the texts or are removed, other frames kept |
| Persistence.FlacEmbedded | src-tauri/src/lyrics.rs:354-376 | embedding into a FLAC changes at most that file's entry |
| Persistence.Mp3Embedded | src-tauri/src/lyrics.rs:378-391 | embedding into an MP3 changes at most that file's entry |
| Persistence.Id3v2Tag.constructor | src-tauri/src/lyrics.rs:378-391 | the tag holds the given frames |
| Persistence.Id3v2Tag.InsertUsltFrame | src-tauri/src/lyrics.rs:393-407 | non-empty text sets the `USLT` frame, empty text removes it |
| Persistence.Id3v2Tag.InsertSyltFrame | src-tauri/src/lyrics.rs:409-433 | succeeds iff the text is empty or encodable; then sets or removes `SYLT`; on failure the tag is unchanged |
| Persistence.TrackFiles.constructor | src-tauri/src/lyrics.rs:282-318 | the store holds the given sidecars and audio files |
| Persistence.TrackFiles.SavePlainLyrics | src-tauri/src/lyrics.rs:282-294 | the sidecars become `PlainSaved` of the old ones |
| Persistence.TrackFiles.SaveSyncedLyrics | src-tauri/src/lyrics.rs:296-306 | the sidecars become `SyncedSaved` of the old ones |
| Persistence.TrackFiles.SaveInstrumental | src-tauri/src/lyrics.rs:308-318 | the sidecars become `InstrumentalSaved` of the old ones |
| Persistence.TrackFiles.EmbedLyricsFlac | src-tauri/src/lyrics.rs:354-376 | reports success iff the file is a readable FLAC, and updates its comments |
| Persistence.TrackFiles.EmbedLyricsMp3 | src-tauri/src/lyrics.rs:378-391 | reports success iff the file is a readable MP3 whose synced text (if any) encodes, and updates its frames |
| Persistence.TrackFiles.EmbedLyrics | src-tauri/src/lyrics.rs:340-352 | dispatches on the lower-cased `.mp3`/`.flac` extension; other files are untouched and failures are swallowed |
| Persistence.TrackFiles.ApplyLyricsForTrack | src-tauri/src/lyrics.rs:254-280 | returns the lyrics it was given and writes the sidecars and (when asked) tags for that response kind |
| Persistence.TrackFiles.ApplyStringLyricsForTrack | src-tauri/src/lyrics.rs:238-252 | saves plain then synced text to the sidecars and embeds both when asked |
| Persistence.ApplyLyricsSidecars | src-tauri/src/lyrics.rs:254-280 | per response kind, which sidecar exists afterwards and what it holds; `None` leaves every file alone |
| Persistence.ApplyLeavesOneSidecar | src-tauri/src/lyrics.rs:254-318 | after applying any lyrics, the `.txt` and `.lrc` never both exist |
| Persistence.ApplyIdempotent | src-tauri/src/lyrics.rs:254-280 | applying the same lyrics twice leaves the sidecars as applying them once |
| Persistence.StringLyricsSidecars | src-tauri/src/lyrics.rs:238-252 | after saving a plain/synced pair: `.lrc` exists iff synced is non-empty, `.txt` iff plain is non-empty and synced empty |
| Persistence.FlacPathNotMp3 | src-tauri/src/lyrics.rs:340-352 | a `.flac` path never takes the MP3 branch |
| Persistence.EmbedOnlyThatFile | src-tauri/src/lyrics.rs:340-352 | embedding changes no other audio file, and nothing for unknown extensions or missing files |
| Persistence.FlacEmbedEffect | src-tauri/src/lyrics.rs:354-376 | on a FLAC with comments, the lyrics keys afterwards mirror the texts and other comments are kept |
| Persistence.Mp3EmbedEffect | src-tauri/src/lyrics.rs:378-433 | on an MP3 with an ID3v2 tag, an unencodable synced text changes nothing; otherwise the frames mirror the texts |
| Persistence.EmbedIdempotent | src-tauri/src/lyrics.rs:340-391 | embedding the same texts twice equals embedding once |
| Persistence.Mp3EmbeddedIdempotent | src-tauri/src/lyrics.rs:378-391 | the same for the MP3 path |
| Persistence.FlacEmbeddedIdempotent | src-tauri/src/lyrics.rs:354-376 | the same for the FLAC path |
| Lrclib.SendWithRetry | src-tauri/src/lrclib.rs:34-55 | the retry loop's result, attempt count and sleeps equal the recursive reference `Retry` |
| Lrclib.LeadingTransient | src-tauri/src/lrclib.rs:34-55 | the number of leading transient failures fits in the retry budget |
| Lrclib.Backoffs | src-tauri/src/lrclib.rs:44-46 | the k-th sleep lasts `RETRY_DELAY_MS * (k + 1)` |
| Lrclib.RetryFromClosedForm | src-tauri/src/lrclib.rs:34-55 | closed form of the loop from any attempt: attempts, sleeps and result in terms of the leading transient failures |
| Lrclib.RetryPolicy | src-tauri/src/lrclib.rs:16-17 | 1 to 3 attempts; a response or a non-transient error ends the loop at once; three transient failures return the last one; no sleep after the last attempt |
| GetById.TrimEndSlashes | src-tauri/src/lrclib/get_by_id.rs:7-11 | strips exactly the trailing slashes of the instance URL |
| GetById.NatToDecimal | src-tauri/src/lrclib/get_by_id.rs:7-11 | a canonical decimal rendering of the id |
| GetById.DecimalRoundTrip | src-tauri/src/lrclib/get_by_id.rs:7-11 | parsing the rendered digits gives back the number |
| GetById.IntRoundTrip | src-tauri/src/lrclib/get_by_id.rs:7-11 | the same for negative ids |
| GetById.EndpointShape | src-tauri/src/lrclib/get_by_id.rs:7-11 | the URL is the trimmed instance, `/api/get/`, and the id, which can be read back |
| GetById.ClassifyRaw | src-tauri/src/lrclib/get_by_id.rs:13-56 | `request_raw` succeeds iff status 200 with a body that has lyrics; 404 gives `NotFound`; any other 200 body is a decode error; 400, 500 and 503 give the body's error when it parses as one and a decode error otherwise; every other status gives `UnknownError` with no status code |
| GetById.Classify | src-tauri/src/lrclib/get_by_id.rs:58-84 | `request` succeeds only on 200 or 404: 404 gives `Response::None`, a 200 lyrics body gives its response and any other 200 body a decode error; 400, 500 and 503 give the body's error or a decode error; every other status gives `UnknownError` with no status code |
| GetById.RequestAgreesWithRequestRaw | src-tauri/src/lrclib/get_by_id.rs:13-84 | the two variants agree on success and on transport errors, and differ exactly on 404 and empty 200 bodies |
| FsTracks.ReadSidecarLyrics | src-tauri/src/fs_track.rs:258-267 | each sidecar text is read iff the file `<dir>/<stem>.txt` / `.lrc` exists |
| FsTracks.SidecarsReadAreSidecarsWritten | src-tauri/src/fs_track.rs:258-267 | the sidecars read at scan time are the ones the lyrics writers write |
| FsTracks.TrackFromFields | src-tauri/src/fs_track.rs:108-148 | title, album and artist are required in that order, album artist falls back to the artist, other fields are copied |
| FsTracks.FromLoftyTaggedFile | src-tauri/src/fs_track.rs:108-148 | no primary tag is `PrimaryTagNotFound`; otherwise the fields are taken from it |
| FsTracks.FromId3Fallback | src-tauri/src/fs_track.rs:150-211 | no ID3 tag is a parse error; without audio properties duration is 0 and bitrate absent |
| FsTracks.NewFromPathOutcome | src-tauri/src/fs_track.rs:86-106 | the track keeps its path and file name, picks up its sidecars, and each error names the path |
| FsTracks.ReaderOf | src-tauri/src/fs_track.rs:86-106 | the reader is `new_from_path` on the probed file |
| FsTracks.Reads | src-tauri/src/fs_track.rs:270-275 | one read result per entry |
| FsTracks.LoadTracksFromEntryBatch | src-tauri/src/fs_track.rs:270-290 | the batch keeps the successful reads in entry order and drops the failures |
| FsTracks.ReadsAt | src-tauri/src/fs_track.rs:270-275 | the i-th result is the read of the i-th entry |
| FsTracks.KeepOkExactly | src-tauri/src/fs_track.rs:277-287 | a track is kept iff it was read successfully, and no more tracks than entries |
| FsTracks.KeepOkAppend | src-tauri/src/fs_track.rs:277-287 | filtering distributes over concatenation |
| FsTracks.ReadsAppend | src-tauri/src/fs_track.rs:270-275 | reading distributes over concatenation |
| LibraryScan.BatchEventsMeaning | src-tauri/src/fs_track.rs:318-337 | one progress event per 500-entry batch: none iff no files; each reports the total, a scanned count that grows by at most 500, and a ratio at most 1; the last reports all files and ratio 1.0 |
| LibraryScan.EventsSoFarStep | src-tauri/src/fs_track.rs:318-337 | one more batch extends the event log by its end position |
| LibraryScan.EventsSoFarDone | src-tauri/src/fs_track.rs:318-337 | after the last batch the log is the full batch-event sequence |
| LibraryScan.LoadTracksFromDirectories | src-tauri/src/fs_track.rs:294-342 | every readable entry is inserted, in entry order, under consecutive new ids, with existing rows kept; every new artist or album row is the one created for an inserted track; the events are the batch events |
| LibraryScan.BatchReads | src-tauri/src/fs_track.rs:318-321 | loading batch by batch equals loading the whole list at once |
| LibraryScan.NewEntries | src-tauri/src/fs_track.rs:364-373 | the new entries are exactly the walked paths not already in the catalogue, in walk order |
| LibraryScan.NewEntriesAppend | src-tauri/src/fs_track.rs:364-373 | the split distributes over concatenation |
| LibraryScan.PartitionEntries | src-tauri/src/fs_track.rs:364-373 | the loop collects all walked paths and the new entries |
| LibraryScan.KeepPathsUnchanged | src-tauri/src/fs_track.rs:383-387 | the deletion changes nothing iff it deletes nothing |
| LibraryScan.RemoveVanished | src-tauri/src/fs_track.rs:379-387 | tracks whose path vanished are deleted and counted; orphan albums and artists are removed only when something was deleted |
| LibraryScan.RefreshTracksFromDirectories | src-tauri/src/fs_track.rs:344-416 | vanished tracks are deleted and counted, the remaining rows are kept, and only paths not yet catalogued are read and inserted, every new artist or album row being one created for an inserted track, with one event per batch of new files |
| Catalog.StatusName | src-tauri/src/db.rs:606-614 | the four status strings |
| Catalog.DerivedStatus | src-tauri/src/db.rs:278-283 | the migration's status rule: instrumental flag first, then non-marker `.lrc` text, then `.txt` text |
| Catalog.AddedStatus | src-tauri/src/db.rs:602-614 | on insertion: an `.lrc` matching the marker pattern is instrumental, another `.lrc` synced, else `.txt` plain, else missing |
| Catalog.InsertedRowConsistent | src-tauri/src/db.rs:561-637 | every inserted row satisfies the status rule |
| Catalog.WithSynced | src-tauri/src/db.rs:516-528 | sets both texts, clears the flag, status `synced`, and touches no other column |
| Catalog.WithPlain | src-tauri/src/db.rs:530-541 | sets `.txt`, clears `.lrc` and the flag, status `plain` |
| Catalog.WithNull | src-tauri/src/db.rs:543-550 | clears both texts and the flag, status `missing` |
| Catalog.WithInstrumental | src-tauri/src/db.rs:552-559 | writes the marker to `.lrc`, clears `.txt`, sets the flag, status `instrumental` |
| Catalog.UpdatesKeepConsistent | src-tauri/src/db.rs:516-559 | every update keeps the status rule, except a synced update whose text is the exact marker |
| Catalog.Rederived | src-tauri/src/db.rs:278-283 | recomputing the status makes the row consistent and changes nothing else |
| CatalogDb.PathsOf | src-tauri/src/db.rs:1095-1103 | the set of file paths of the track rows |
| CatalogDb.PathsBelowStep | src-tauri/src/db.rs:1095-1103 | the path scan grows by one row at a time |
| CatalogDb.PathsBelowAll | src-tauri/src/db.rs:1095-1103 | scanning every id yields all paths |
| CatalogDb.WithoutPaths | src-tauri/src/db.rs:1105-1121 | removes exactly the rows whose path is in the set |
| CatalogDb.KeepPaths | src-tauri/src/db.rs:1105-1121 | keeps exactly the rows whose path is in the set |
| CatalogDb.Rederive | src-tauri/src/db.rs:278-283 | the version-13 migration makes every row consistent and changes only statuses |
| CatalogDb.Ascending | src-tauri/src/db.rs:38-292 | the integers `lo..hi` in increasing order (the order in which pending migrations run) |
| CatalogDb.StoredGrown | src-tauri/src/db.rs:561-637 | a stored track stays stored as the tables grow |
| CatalogDb.StoredRunSnoc | src-tauri/src/db.rs:561-637 | storing one more track extends the stored run |
| CatalogDb.AddedAppend | src-tauri/src/fs_track.rs:318-321 | two consecutive insertion runs compose into one |
| CatalogDb.NewRowsAppend | src-tauri/src/fs_track.rs:318-321 | the artist and album rows created by two consecutive runs are rows created for the tracks of the joined run |
| CatalogDb.ProgressStep | src-tauri/src/db.rs:577-633 | one loop step of `add_tracks` keeps its invariant |
| CatalogDb.AllCachedSnoc | src-tauri/src/db.rs:580-600 | after a step, every inserted track's artist and album are cached |
| CatalogDb.LookupCaches.constructor | src-tauri/src/fs_track.rs:314-316 | the caches start empty |
| CatalogDb.Database.constructor | src-tauri/src/db.rs:16-36 | a newly created catalogue file has empty tables and `user_version` 0 before the upgrade runs |
| CatalogDb.Database.FindArtist | src-tauri/src/db.rs:434-438 | finds an artist with that name, or reports there is none |
| CatalogDb.Database.FindAlbum | src-tauri/src/db.rs:446-451 | finds an album with that name and album artist, or reports there is none |
| CatalogDb.Database.ArtistIdFor | src-tauri/src/db.rs:580-589 | a cached id is reused; else an existing row is found; else a new artist is added; the only possible new row is the returned id, holding the name and its prepared form; names stay unique |
| CatalogDb.Database.AlbumIdFor | src-tauri/src/db.rs:590-600 | the same for (album, album artist), the new row having no image |
| CatalogDb.Database.AddTrack | src-tauri/src/db.rs:577-633 | inserts one row with the next id, correct album and artist, derived status; existing rows kept; at most one artist and one album row are added, and they are the track's own |
| CatalogDb.Database.AddTracks | src-tauri/src/db.rs:561-637 | inserts every track in order under consecutive new ids; existing rows kept; every new artist or album row is the one created for one of the tracks; caches sound |
| CatalogDb.Database.GetTrackById | src-tauri/src/db.rs:464-514 | found iff the row and its album and artist exist; the joined fields come from those rows |
| CatalogDb.Database.UpdateTrackSyncedLyrics | src-tauri/src/db.rs:516-528 | updates the row (if any) and returns the re-read track |
| CatalogDb.Database.UpdateTrackPlainLyrics | src-tauri/src/db.rs:530-541 | the same for plain lyrics |
| CatalogDb.Database.UpdateTrackNullLyrics | src-tauri/src/db.rs:543-550 | the same for clearing lyrics |
| CatalogDb.Database.UpdateTrackInstrumental | src-tauri/src/db.rs:552-559 | the same for marking instrumental |
| CatalogDb.Database.ExistingFilePaths | src-tauri/src/db.rs:1095-1103 | returns exactly the catalogued paths |
| CatalogDb.Database.DeleteTracksNotIn | src-tauri/src/db.rs:1105-1121 | deletes exactly the rows whose path is outside the set, in 500-path chunks, and counts the distinct deleted paths |
| CatalogDb.Database.UsedAlbumIds | src-tauri/src/db.rs:1123-1129 | the albums some track refers to |
| CatalogDb.Database.UsedArtistIds | src-tauri/src/db.rs:1131-1137 | the artists some track refers to |
| CatalogDb.Database.DeleteOrphanAlbums | src-tauri/src/db.rs:1123-1129 | removes exactly the albums no track refers to and counts them |
| CatalogDb.Database.DeleteOrphanArtists | src-tauri/src/db.rs:1131-1137 | removes exactly the artists no track refers to and counts them |
| CatalogDb.Database.Migrate | src-tauri/src/db.rs:38-292 | one migration step: version 5 wipes the library, version 13 recomputes statuses, every step records its version |
| CatalogDb.Database.RunMigrations | src-tauri/src/db.rs:38-292 | the thirteen `if existing_version <= v` blocks run the ladder |
| CatalogDb.Database.UpgradeDatabaseIfNeeded | src-tauri/src/db.rs:38-292 | up to date: nothing changes; else every later version is applied in order, ending at 13; from below 5 the library is empty, from 5 on the data is kept with statuses recomputed |
| CatalogDb.LadderNext | src-tauri/src/db.rs:38-292 | the ladder adds one version at a time |
| CatalogDb.MigratedLog | src-tauri/src/db.rs:38-292 | a step records its version and keeps the id counters |
| CatalogDb.LadderLog | src-tauri/src/db.rs:38-292 | the ladder applies exactly the versions above the existing one |
| CatalogDb.LadderKeepsData | src-tauri/src/db.rs:38-292 | below version 13 and without a wipe, data is kept |
| CatalogDb.LadderAfterReset | src-tauri/src/db.rs:38-292 | after the version-5 wipe the library stays empty until 12 |
| CatalogDb.LadderMeaning | src-tauri/src/db.rs:38-292 | the ladder's overall effect, by starting version |
| CatalogDb.RederiveIdsBelow | src-tauri/src/db.rs:278-283 | recomputing statuses keeps the row ids |
| CatalogDb.EnumerateSet | src-tauri/src/db.rs:1105-1109 | the set of paths as a duplicate-free list |
| CatalogDb.NewNameStaysUnique | src-tauri/src/db.rs:440-444 | adding an unseen artist name keeps names unique |
| CatalogDb.NewAlbumStaysUnique | src-tauri/src/db.rs:453-462 | adding an unseen album key keeps album keys unique |
| CatalogDb.DeleteChunkStep | src-tauri/src/db.rs:1110-1117 | deleting one more chunk deletes the rows of those paths |
| CatalogDb.WithoutPathsIdsBelow | src-tauri/src/db.rs:1105-1121 | deletion keeps the row-id bound |
| CatalogDb.NothingDeletedYet | src-tauri/src/db.rs:1105-1121 | before the first chunk, nothing is deleted |
| CatalogDb.DeletedAllOutside | src-tauri/src/db.rs:1105-1121 | after all chunks, exactly the rows outside the kept set are gone |
| CatalogDb.DeletingOutsideKeeps | src-tauri/src/db.rs:1105-1121 | deleting the paths outside the kept set keeps the rows inside it |
| CatalogQueries.OrderClauseMeaning | src-tauri/src/db.rs:400-410 | unknown sort keys sort by title; the clause is `ORDER BY`, the column, and `DESC` iff the order is `desc` |
| CatalogQueries.ClauseShape | src-tauri/src/db.rs:400-410 | the clause shape for any column |
| CatalogQueries.StatusRank | src-tauri/src/db.rs:405 | synced 0, plain 1, instrumental 2, missing 3 |
| CatalogQueries.StatusSortKey | src-tauri/src/db.rs:405 | the `lyrics_status` sort expression, in 0..3 |
| CatalogQueries.SortKeyFollowsStatus | src-tauri/src/db.rs:405 | on consistent rows written by the update functions the sort key is the status rank |
| CatalogQueries.ScannedVariantSortsAsSynced | src-tauri/src/db.rs:405 | a scanned `.lrc` holding `[au:instrumental]` (no space) is stored as instrumental but sorts with the synced tracks |
| CatalogQueries.ExcludedStatuses | src-tauri/src/db.rs:694-704 | the excluded statuses are exactly those the filter hides, in rank order; none iff all are shown |
| CatalogQueries.JoinQuoted | src-tauri/src/db.rs:694-704 | the quoted, comma-joined status list is non-empty for a non-empty list |
| CatalogQueries.NotInClause | src-tauri/src/db.rs:700-704 | there is a `NOT IN` clause iff something is excluded |
| CatalogQueries.ShownIds | src-tauri/src/db.rs:683-718 | the ids listed are exactly the rows whose status the filter shows |
| CatalogQueries.LyricsConditions | src-tauri/src/db.rs:994-999 | the without-plain / without-synced flags admit exactly missing, or missing and plain |
| CatalogQueries.ConditionText | src-tauri/src/db.rs:994-999 | no condition is added iff both flags are off |
| CatalogQueries.WithoutPlainOmitsSyncedWithoutTxt | src-tauri/src/db.rs:994-999 | "without plain lyrics" also hides a synced track that has no `.txt` text |
| CatalogQueries.NoMarkerNoMatch | src-tauri/src/utils.rs:12-13 | a text in which `[au:` occurs nowhere does not match the (case-sensitive) instrumental pattern |
| LyricsCommands.Updated | src-tauri/src/db.rs:516-559 | an update never moves a track to another file, album or artist |
| LyricsCommands.StoreThenRead | src-tauri/src/commands/lyrics_cmd.rs:45-71 | reading back the row after storing a response gives that response |
| LyricsCommands.DownloadStep | src-tauri/src/commands/lyrics_cmd.rs:44-74 | `None` is `NotFound`; plain-only answers are skipped when the track has plain text; everything else is stored |
| LyricsCommands.ApplyStep | src-tauri/src/commands/lyrics_cmd.rs:95-120 | everything but `None` is stored |
| LyricsCommands.ApplyIsDownloadWithoutPlain | src-tauri/src/commands/lyrics_cmd.rs:44-120 | `apply_lyrics` decides as `download_lyrics` on a track without plain text |
| LyricsCommands.SaveKeepsConsistent | src-tauri/src/commands/lyrics_cmd.rs:203-232 | the saved row is consistent; instrumental iff the synced text matches the marker; missing iff neither text is given |
| LyricsCommands.SaveMirrorsSidecars | src-tauri/src/commands/lyrics_cmd.rs:203-232 | after saving, the `.lrc` sidecar mirrors the row's `.lrc` text and any `.txt` sidecar mirrors its `.txt` text |
| LyricsCommands.Perform | src-tauri/src/db.rs:516-559 | the chosen update is applied to the row and the track re-read |
| LyricsCommands.Carry | src-tauri/src/commands/lyrics_cmd.rs:44-74 | carries out a decided step on the catalogue |
| LyricsCommands.DownloadLyrics | src-tauri/src/commands/lyrics_cmd.rs:27-75 | unknown track fails; synced track is skipped without a lookup; lookup errors change nothing; otherwise the decided step is carried out |
| LyricsCommands.ApplyLyrics | src-tauri/src/commands/lyrics_cmd.rs:78-121 | unknown track changes nothing; otherwise the files and the row are updated for the given response; an empty response needs no file name |
| LyricsCommands.SaveLyrics | src-tauri/src/commands/lyrics_cmd.rs:189-237 | unknown track changes nothing; otherwise both sidecars are written, tags embedded when asked, and the row updated by the save rule |
| LyricsCommands.PublishToken | src-tauri/src/commands/lyrics_cmd.rs:282 | the token is `prefix:nonce` |
| LyricsCommands.PublishTokenParts | src-tauri/src/commands/lyrics_cmd.rs:282 | the token splits back into prefix and nonce, uniquely when the prefix has no colon |
| LyricsCommands.TokenSplit | src-tauri/src/commands/lyrics_cmd.rs:341 | colon-free prefixes with equal tokens have equal parts |
| LyricsCommands.StageProgress.constructor | src-tauri/src/commands/lyrics_cmd.rs:253-257 | every stage starts `Pending` |
| LyricsCommands.SubmitWithChallenge | src-tauri/src/commands/lyrics_cmd.rs:240-355 | a failed challenge emits one event; a failed submit emits three; success emits all four; the submitted token is `prefix:solve(prefix, target)`; every emitted record keeps the stages in order with at most one in progress, each record moves the stages forward, and the last is all `Done` exactly on success |

## Left out

- HTTP transport, JSON decoding and async scheduling: the LRCLIB answers are inputs (`Resolution.Remote`, `GetById.Client`, the `lookup` parameter of `DownloadLyrics`).
- `Response::from_raw_response` (src-tauri/src/lrclib/get.rs) is not part of this model; it is a function parameter.
- `search::request`, `publish::request`, `flag::request` and `request_challenge::request` are function parameters; the challenge solver is one too.
- The glob walk of the music directories and its errors: the entries are an input sequence of path strings.
- Audio-tag parsing (lofty, id3) is an input `Probe`; SYLT encoding (`synced_lyrics_to_sylt_vec`) is the `SyltEncoder` parameter.
- `println!` and `app_handle.emit` are not modelled; progress events are returned as a sequence, `reload-track-id` events are dropped.
- The f64 progress ratio is a `real`; the f64 duration distance uses `real` arithmetic, with `f64::MAX` for a missing duration; the f64 Jaccard ratio of `text_similarity` (src-tauri/src/lyrics.rs:128-145) is an exact `real`, so its comparison with 0.3 is exact (`ThresholdAsIntegers`), where f64 rounding could only flip it for word sets far larger than any title.
- Unicode lower-casing and `is_alphanumeric` are parameters (`CharTable`); the whitespace set is written out.
- `prepare_input` as a whole is the parameter `prepare` of the catalogue members that fill the normalized columns; only its punctuation and quote passes are modelled (`Utils.Scrub`), because `lower_lay_string`, `to_lowercase` and `collapse` are library code.
- SQL: the engine, transactions, DDL, indexes and engine errors are not modelled; every statement succeeds. The only query error modelled is `QueryReturnedNoRows`.
- Row ids come from a per-table counter, not from SQLite's rowid allocation.
- `get_config`, its errors and the configuration itself: `try_embed_lyrics`, the instance URL, the duration tolerance and the fuzzy flag are parameters.
- File writes and removals always succeed; write errors are not modelled.
- `spawn_blocking` join errors in `publish_lyrics`/`flag_lyrics` are not modelled.
- Command errors are `LyricsCommands.CommandError` values rather than their `to_string()` texts.
- Migrations other than 5 (library wipe) and 13 (status column) only change the schema, so their table effects are not modelled.
- The read-only list queries (`get_tracks`, `get_albums`, ...) are modelled only through their filter and order clauses.
- Paths are `/`-separated strings taken as written: the model does not normalise `.` components, a trailing `/` or a doubled `//` the way Rust's `Path` does. The `HasFileName` precondition (on the sidecar path builders and their callers) therefore excludes every path whose text ends in `/`, `.` or `..`, although the source normalises most of them and unwraps a `None` only for paths such as `""`, `"/"` or `".."` or one ending in `..`; and `DirPrefix` keeps a doubled separator that `Path::parent` would collapse.
- LyricsCommands.SaveLyrics: requires `HasFileName` of the track path, as above, because the source builds both sidecar paths on every call. LyricsCommands.ApplyLyrics and Resolution.DownloadLyricsForTrack require it only when the response to apply is not `Response::None`, matching the `_ => Ok(lyrics)` arm at src-tauri/src/lyrics.rs:278, which builds no path.
- LyricsCommands.DownloadLyrics: the sidecar and tag writes of `download_lyrics_for_track` are folded into the `lookup` parameter; those writes are stated by `Resolution.DownloadLyricsForTrack`.
- LibraryScan.RefreshTracksFromDirectories: when something is deleted, the albums and artists are only stated to shrink by orphan removal through `RemoveVanished`, not re-stated in this contract; the refresh's progress ratio is `Some` unconditionally in the source, which coincides with the model because events exist only when there are new files.
- CatalogDb.Database.ExistingFilePaths: scans ids in ascending order instead of SQL row order; the result is a set, so the order does not show.
