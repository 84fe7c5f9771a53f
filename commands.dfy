/**
 * The lyrics commands the frontend invokes: download_lyrics, apply_lyrics and
 * save_lyrics decide which per-row update the catalog receives (or that
 * nothing is done), and publish_lyrics / flag_lyrics walk a three-stage
 * progress record while they fetch a challenge, solve it and submit with the
 * resulting token. Lookups, the challenge service, the solver and the final
 * request are oracle inputs.
 */
module LyricsCommands {
  import opened Wrappers
  import opened Utils
  import opened Lrclib
  import opened Entities
  import opened Catalog
  import opened CatalogDb
  import opened Paths
  import opened Persistence

  /**
   * Why a command fails: the catalog has no such track, the remote call
   * failed, or no lyrics were found (GetLyricsError::NotFound).
   */
  datatype CommandError = DbFailed(db: DbError) | RemoteFailed(cause: Error) | NotFound

  const SkippedSynced := "Skipped: already has synced lyrics"
  const SkippedPlain := "Skipped: already has plain lyrics, no synced available"
  const SyncedDownloaded := "Synced lyrics downloaded"
  const PlainDownloaded := "Plain lyrics downloaded"
  const MarkedInstrumental := "Marked track as instrumental"
  const LyricsSaved := "Lyrics saved successfully"

  // ---------------------------------------------------------------------------
  // The per-row updates a command can ask for.
  // ---------------------------------------------------------------------------

  /** update_track_synced_lyrics, update_track_plain_lyrics, update_track_instrumental, update_track_null_lyrics. */
  datatype RowUpdate = SetSynced(synced: string, plain: string) | SetPlain(plain: string) | SetInstrumental | SetNull

  /** The row after an update; the path, album and artist stay. */
  function Updated(row: TrackRow, u: RowUpdate): (r: TrackRow)
    ensures r.filePath == row.filePath && r.albumId == row.albumId && r.artistId == row.artistId
  {
    match u
    case SetSynced(synced, plain) => WithSynced(row, synced, plain)
    case SetPlain(plain) => WithPlain(row, plain)
    case SetInstrumental => WithInstrumental(row)
    case SetNull => WithNull(row)
  }

  /** The lyrics a row holds, read back as a lookup result. */
  function RowLyrics(row: TrackRow): Response {
    if IsMarkedInstrumental(row) then IsInstrumental
    else if row.lrcLyrics.Some? then SyncedLyrics(row.lrcLyrics.value, row.txtLyrics.GetOr(""))
    else if row.txtLyrics.Some? then UnsyncedLyrics(row.txtLyrics.value)
    else Response.None
  }

  /** The update that stores a lookup result (None stores nothing). */
  function StoreUpdate(lyrics: Response): RowUpdate
    requires !lyrics.None?
  {
    match lyrics
    case SyncedLyrics(synced, plain) => SetSynced(synced, plain)
    case UnsyncedLyrics(plain) => SetPlain(plain)
    case IsInstrumental => SetInstrumental
  }

  /** Storing a result and reading the row back gives the same result. */
  lemma StoreThenRead(row: TrackRow, lyrics: Response)
    requires !lyrics.None?
    ensures RowLyrics(Updated(row, StoreUpdate(lyrics))) == lyrics
  {
  }

  // ---------------------------------------------------------------------------
  // The decision chains.
  // ---------------------------------------------------------------------------

  /** What a command does once it holds a lookup result: answer at once, or update the row and answer. */
  datatype Step = Answer(result: Result<string, CommandError>) | Write(update: RowUpdate, message: string)

  /** The track already has synced lyrics: an lrc that is not exactly the instrumental marker. */
  predicate HasSynced(track: PersistentTrack) {
    track.lrcLyrics.Some? && track.lrcLyrics.value != InstrumentalMarker
  }

  /** The match on the result in download_lyrics, for a track with or without plain lyrics. */
  function DownloadStep(hasPlain: bool, lyrics: Response): (s: Step)
    ensures s.Answer? <==> lyrics.None? || (lyrics.UnsyncedLyrics? && hasPlain)
    ensures lyrics.None? ==> s == Answer(Err(NotFound))
    ensures lyrics.UnsyncedLyrics? && hasPlain ==> s == Answer(Ok(SkippedPlain))
    ensures s.Write? ==> s.update == StoreUpdate(lyrics)
  {
    match lyrics
    case SyncedLyrics(synced, plain) => Write(SetSynced(synced, plain), SyncedDownloaded)
    case UnsyncedLyrics(plain) =>
      if hasPlain then Answer(Ok(SkippedPlain)) else Write(SetPlain(plain), PlainDownloaded)
    case IsInstrumental => Write(SetInstrumental, MarkedInstrumental)
    case None => Answer(Err(NotFound))
  }

  /** The match on the result in apply_lyrics: no result is an error, any other is stored. */
  function ApplyStep(lyrics: Response): (s: Step)
    ensures s.Answer? <==> lyrics.None?
    ensures s.Write? ==> s.update == StoreUpdate(lyrics)
  {
    match lyrics
    case SyncedLyrics(synced, plain) => Write(SetSynced(synced, plain), SyncedDownloaded)
    case UnsyncedLyrics(plain) => Write(SetPlain(plain), PlainDownloaded)
    case IsInstrumental => Write(SetInstrumental, MarkedInstrumental)
    case None => Answer(Err(NotFound))
  }

  /** apply_lyrics decides as download_lyrics does for a track without plain lyrics. */
  lemma ApplyIsDownloadWithoutPlain(lyrics: Response)
    ensures ApplyStep(lyrics) == DownloadStep(false, lyrics)
  {
  }

  /**
   * The chain in save_lyrics: an instrumental synced text marks the track
   * instrumental, else a non-empty synced text stores both texts, else a
   * non-empty plain text stores it alone, else the lyrics are cleared.
   */
  function SaveUpdate(plain: string, synced: string): RowUpdate {
    if MatchesInstrumental(synced) then SetInstrumental
    else if synced != "" then SetSynced(synced, plain)
    else if plain != "" then SetPlain(plain)
    else SetNull
  }

  /**
   * Whatever is saved, the row's stored status is the one its columns
   * determine, and it is instrumental exactly when the synced text matches
   * the instrumental pattern.
   */
  lemma SaveKeepsConsistent(row: TrackRow, plain: string, synced: string)
    ensures Consistent(Updated(row, SaveUpdate(plain, synced)))
    ensures Updated(row, SaveUpdate(plain, synced)).status == Instrumental <==> MatchesInstrumental(synced)
    ensures Updated(row, SaveUpdate(plain, synced)).status == Missing <==> !MatchesInstrumental(synced) && synced == "" && plain == ""
  {
    if !MatchesInstrumental(synced) && synced != "" {
      UpdatesKeepConsistent(row, synced, plain);
      if synced == InstrumentalMarker {
        MarkerMatchesInstrumental();
      }
    }
  }

  /**
   * Unless the save marks the track instrumental, the `.lrc` beside the track
   * holds exactly the lrc column, and a `.txt` beside it holds the txt column.
   */
  lemma SaveMirrorsSidecars(row: TrackRow, files: map<string, string>, track: string, plain: string, synced: string)
    requires HasFileName(track)
    requires !MatchesInstrumental(synced)
    ensures var row' := Updated(row, SaveUpdate(plain, synced));
            var after := SyncedSaved(PlainSaved(files, track, plain), track, synced);
            && (BuildLrcPath(track) in after <==> row'.lrcLyrics.Some?)
            && (BuildLrcPath(track) in after ==> after[BuildLrcPath(track)] == row'.lrcLyrics.value)
            && (BuildTxtPath(track) in after ==> row'.txtLyrics == Some(after[BuildTxtPath(track)]))
  {
    StringLyricsSidecars(files, track, plain, synced);
  }

  // ---------------------------------------------------------------------------
  // The commands.
  // ---------------------------------------------------------------------------

  /** A step carried out on the rows: an answer changes nothing, a write updates the one row. */
  predicate Carried(rows0: map<int, TrackRow>, rows: map<int, TrackRow>, id: int, step: Step, r: Result<string, CommandError>) {
    match step
    case Answer(result) => rows == rows0 && r == result
    case Write(u, message) => id in rows0 && rows == rows0[id := Updated(rows0[id], u)] && r == Ok(message)
  }

  /** The dispatch to the update_track_* call a row update names. */
  method Perform(db: Database, id: int, u: RowUpdate) returns (res: Result<PersistentTrack, DbError>)
    requires db.Valid()
    modifies db`tracks
    ensures db.Valid()
    ensures db.tracks == if id in old(db.tracks) then old(db.tracks)[id := Updated(old(db.tracks)[id], u)] else old(db.tracks)
    ensures res == db.GetTrackById(id)
  {
    match u {
      case SetSynced(synced, plain) => res := db.UpdateTrackSyncedLyrics(id, synced, plain);
      case SetPlain(plain) => res := db.UpdateTrackPlainLyrics(id, plain);
      case SetInstrumental => res := db.UpdateTrackInstrumental(id);
      case SetNull => res := db.UpdateTrackNullLyrics(id);
    }
  }

  /** Carry out a step for a track the catalog holds; its update finds the row again. */
  method Carry(db: Database, id: int, step: Step) returns (r: Result<string, CommandError>)
    requires db.Valid() && db.GetTrackById(id).Ok?
    modifies db`tracks
    ensures db.Valid()
    ensures Carried(old(db.tracks), db.tracks, id, step, r)
  {
    match step {
      case Answer(result) =>
        r := result;
      case Write(u, message) =>
        var res := Perform(db, id, u);
        r := if res.Ok? then Ok(message) else Err(DbFailed(QueryReturnedNoRows));
    }
  }

  /**
   * download_lyrics: a track that already has synced lyrics is skipped with
   * no lookup; otherwise the lookup's result decides, and a plain result for
   * a track with plain lyrics is skipped too. `lookedUp` tells whether the
   * lookup was made.
   */
  method DownloadLyrics(db: Database, trackId: int, lookup: PersistentTrack -> Result<Response, Error>)
    returns (r: Result<string, CommandError>, lookedUp: bool)
    requires db.Valid()
    modifies db`tracks
    ensures db.Valid()
    ensures var found := old(db.GetTrackById(trackId));
            && (found.Err? ==> r == Err(DbFailed(found.error)) && !lookedUp && db.tracks == old(db.tracks))
            && (found.Ok? && HasSynced(found.value) ==> r == Ok(SkippedSynced) && !lookedUp && db.tracks == old(db.tracks))
            && (found.Ok? && !HasSynced(found.value) ==> lookedUp)
    ensures var found := old(db.GetTrackById(trackId));
            found.Ok? && !HasSynced(found.value) ==>
              var answer := lookup(found.value);
              && (answer.Err? ==> r == Err(RemoteFailed(answer.error)) && db.tracks == old(db.tracks))
              && (answer.Ok? ==>
                    Carried(old(db.tracks), db.tracks, trackId, DownloadStep(found.value.txtLyrics.Some?, answer.value), r))
  {
    var found := db.GetTrackById(trackId);
    if found.Err? {
      return Err(DbFailed(found.error)), false;
    }
    var track := found.value;
    var hasSynced := track.lrcLyrics.Some? && track.lrcLyrics.value != InstrumentalMarker;
    if hasSynced {
      return Ok(SkippedSynced), false;
    }
    var hasPlain := track.txtLyrics.Some?;
    lookedUp := true;
    var answer := lookup(track);
    if answer.Err? {
      return Err(RemoteFailed(answer.error)), true;
    }
    r := Carry(db, trackId, DownloadStep(hasPlain, answer.value));
  }

  /**
   * apply_lyrics: the chosen result is written beside the track (and
   * embedded when asked), then stored in the catalog; no result is an error.
   */
  method ApplyLyrics(db: Database, files: TrackFiles, trackId: int, raw: RawResponse,
                     fromRaw: RawResponse -> Response, embed: bool, encode: SyltEncoder)
    returns (r: Result<string, CommandError>)
    requires db.Valid()
    requires trackId in db.tracks && !fromRaw(raw).None? ==> HasFileName(db.tracks[trackId].filePath)
    modifies db`tracks, files
    ensures db.Valid()
    ensures var found := old(db.GetTrackById(trackId));
            found.Err? ==>
              && r == Err(DbFailed(found.error)) && db.tracks == old(db.tracks)
              && files.sidecars == old(files.sidecars) && files.audio == old(files.audio)
    ensures var found := old(db.GetTrackById(trackId));
            found.Ok? ==>
              && files.sidecars == SidecarsAfterApply(old(files.sidecars), found.value.filePath, fromRaw(raw))
              && files.audio == AudioAfterApply(old(files.audio), found.value.filePath, fromRaw(raw), embed, encode)
              && Carried(old(db.tracks), db.tracks, trackId, ApplyStep(fromRaw(raw)), r)
  {
    var found := db.GetTrackById(trackId);
    if found.Err? {
      return Err(DbFailed(found.error));
    }
    var track := found.value;
    var lyrics := fromRaw(raw);
    var applied := files.ApplyLyricsForTrack(track.filePath, lyrics, embed, encode);
    r := Carry(db, trackId, ApplyStep(applied));
  }

  /**
   * save_lyrics: both texts are written beside the track (and embedded when
   * asked), then the catalog row takes the update the save chain picks.
   */
  method SaveLyrics(db: Database, files: TrackFiles, trackId: int, plain: string, synced: string,
                    embed: bool, encode: SyltEncoder)
    returns (r: Result<string, CommandError>)
    requires db.Valid()
    requires trackId in db.tracks ==> HasFileName(db.tracks[trackId].filePath)
    modifies db`tracks, files
    ensures db.Valid()
    ensures var found := old(db.GetTrackById(trackId));
            found.Err? ==>
              && r == Err(DbFailed(found.error)) && db.tracks == old(db.tracks)
              && files.sidecars == old(files.sidecars) && files.audio == old(files.audio)
    ensures var found := old(db.GetTrackById(trackId));
            found.Ok? ==>
              && files.sidecars == SyncedSaved(PlainSaved(old(files.sidecars), found.value.filePath, plain), found.value.filePath, synced)
              && files.audio == (if embed then AudioAfterEmbed(old(files.audio), found.value.filePath, plain, synced, encode) else old(files.audio))
              && Carried(old(db.tracks), db.tracks, trackId, Write(SaveUpdate(plain, synced), LyricsSaved), r)
  {
    var found := db.GetTrackById(trackId);
    if found.Err? {
      return Err(DbFailed(found.error));
    }
    var track := found.value;
    files.ApplyStringLyricsForTrack(track.filePath, plain, synced, embed, encode);
    r := Carry(db, track.id, Write(SaveUpdate(plain, synced), LyricsSaved));
  }

  // ---------------------------------------------------------------------------
  // publish_lyrics / flag_lyrics: challenge, solve, submit.
  // ---------------------------------------------------------------------------

  /** The answer of request_challenge. */
  datatype Challenge = Challenge(prefix: string, target: string)

  datatype Stage = Pending | InProgress | Done

  /** The text each stage is reported as. */
  function StageName(s: Stage): string {
    match s
    case Pending => "Pending"
    case InProgress => "In Progress"
    case Done => "Done"
  }

  /** One emitted progress record: request challenge, solve challenge, and the final publish or flag request. */
  datatype StageSnapshot = StageSnapshot(requestChallenge: Stage, solveChallenge: Stage, submit: Stage)

  /** The token sent with the final request: the challenge prefix, a colon, and the nonce. */
  function PublishToken(prefix: string, nonce: string): (token: string)
    ensures |token| == |prefix| + 1 + |nonce|
  {
    prefix + ":" + nonce
  }

  /** The prefix and the nonce can be read back from a token whose prefix has no colon. */
  lemma PublishTokenParts(prefix: string, nonce: string)
    ensures var token := PublishToken(prefix, nonce);
            && token[..|prefix|] == prefix && token[|prefix|] == ':' && token[|prefix| + 1..] == nonce
    ensures (forall i :: 0 <= i < |prefix| ==> prefix[i] != ':') ==>
              forall p, n :: (forall i :: 0 <= i < |p| ==> p[i] != ':') && PublishToken(p, n) == PublishToken(prefix, nonce) ==>
                p == prefix && n == nonce
  {
    var token := PublishToken(prefix, nonce);
    assert token == prefix + (":" + nonce);
    if forall i :: 0 <= i < |prefix| ==> prefix[i] != ':' {
      forall p, n | (forall i :: 0 <= i < |p| ==> p[i] != ':') && PublishToken(p, n) == token
        ensures p == prefix && n == nonce
      {
        TokenSplit(p, n, prefix, nonce);
      }
    }
  }

  lemma TokenSplit(p: string, n: string, prefix: string, nonce: string)
    requires forall i :: 0 <= i < |p| ==> p[i] != ':'
    requires forall i :: 0 <= i < |prefix| ==> prefix[i] != ':'
    requires PublishToken(p, n) == PublishToken(prefix, nonce)
    ensures p == prefix && n == nonce
  {
    var t := PublishToken(prefix, nonce);
    assert t == prefix + (":" + nonce);
    assert t == p + (":" + n);
    assert forall i :: 0 <= i < |p| ==> t[i] == p[i] != ':';
    assert forall i :: 0 <= i < |prefix| ==> t[i] == prefix[i] != ':';
    assert t[|p|] == ':' && t[|prefix|] == ':';
    assert |p| == |prefix|;
    assert p == t[..|p|] == prefix;
    assert n == t[|p| + 1..] == nonce;
  }

  /** The progress record the command mutates; every field starts Pending. */
  class StageProgress {
    var requestChallenge: Stage
    var solveChallenge: Stage
    var submit: Stage

    constructor ()
      ensures requestChallenge == Pending && solveChallenge == Pending && submit == Pending
    {
      requestChallenge, solveChallenge, submit := Pending, Pending, Pending;
    }

    function Snapshot(): StageSnapshot
      reads this
    {
      StageSnapshot(requestChallenge, solveChallenge, submit)
    }
  }

  /** The records a fully successful run emits, in order. */
  const AllStages: seq<StageSnapshot> := [
    StageSnapshot(InProgress, Pending, Pending),
    StageSnapshot(Done, InProgress, Pending),
    StageSnapshot(Done, Done, InProgress),
    StageSnapshot(Done, Done, Done)]

  /** A stage is under way or finished only once the stage before it is finished. */
  predicate InOrder(s: StageSnapshot) {
    && (s.solveChallenge != Pending ==> s.requestChallenge == Done)
    && (s.submit != Pending ==> s.solveChallenge == Done)
  }

  function Rank(s: Stage): nat {
    match s
    case Pending => 0
    case InProgress => 1
    case Done => 2
  }

  /** `b` follows `a` by moving stages forward, never back. */
  predicate Advances(a: StageSnapshot, b: StageSnapshot) {
    && Rank(a.requestChallenge) <= Rank(b.requestChallenge)
    && Rank(a.solveChallenge) <= Rank(b.solveChallenge)
    && Rank(a.submit) <= Rank(b.submit)
    && a != b
  }

  /** At most one stage is in progress. */
  predicate OneAtATime(s: StageSnapshot) {
    && !(s.requestChallenge == InProgress && s.solveChallenge == InProgress)
    && !(s.solveChallenge == InProgress && s.submit == InProgress)
    && !(s.requestChallenge == InProgress && s.submit == InProgress)
  }

  /**
   * The shared body of publish_lyrics and flag_lyrics: request a challenge,
   * solve it, and submit with the token, emitting the progress record before
   * each step and after the last. A failed challenge request or submission
   * ends the run with that error, after the records emitted so far.
   */
  method SubmitWithChallenge(challenge: Result<Challenge, Error>, solve: (string, string) -> string,
                             submitRequest: string -> Result<(), Error>)
    returns (r: Result<(), CommandError>, events: seq<StageSnapshot>, token: Option<string>)
    ensures challenge.Err? ==> r == Err(RemoteFailed(challenge.error)) && events == AllStages[..1] && token == Option.None
    ensures challenge.Ok? ==>
      var t := PublishToken(challenge.value.prefix, solve(challenge.value.prefix, challenge.value.target));
      && token == Some(t)
      && (submitRequest(t).Err? ==> r == Err(RemoteFailed(submitRequest(t).error)) && events == AllStages[..3])
      && (submitRequest(t).Ok? ==> r == Ok(()) && events == AllStages)
    ensures 1 <= |events| <= |AllStages|
    ensures forall i :: 0 <= i < |events| ==> InOrder(events[i]) && OneAtATime(events[i])
    ensures forall i :: 0 < i < |events| ==> Advances(events[i - 1], events[i])
    ensures r.Ok? <==> events[|events| - 1] == StageSnapshot(Done, Done, Done)
  {
    var progress := new StageProgress();
    token := Option.None;
    progress.requestChallenge := InProgress;
    events := [progress.Snapshot()];
    if challenge.Err? {
      return Err(RemoteFailed(challenge.error)), events, token;
    }
    var response := challenge.value;
    progress.requestChallenge := Done;
    progress.solveChallenge := InProgress;
    events := events + [progress.Snapshot()];
    var nonce := solve(response.prefix, response.target);
    progress.solveChallenge := Done;
    progress.submit := InProgress;
    events := events + [progress.Snapshot()];
    var publishToken := PublishToken(response.prefix, nonce);
    token := Some(publishToken);
    var sent := submitRequest(publishToken);
    if sent.Err? {
      return Err(RemoteFailed(sent.error)), events, token;
    }
    progress.submit := Done;
    events := events + [progress.Snapshot()];
    r := Ok(());
  }
}
