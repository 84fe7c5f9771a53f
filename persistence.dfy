/**
 * Persisting lyrics next to a track and inside it: the `.txt` (plain) and
 * `.lrc` (synced) sidecar files, and the lyrics entries of FLAC Vorbis comments
 * and MP3 ID3v2 frames.
 *
 * The file system is a `TrackFiles` object: the text files by path, and the
 * tag containers of the audio files by path. Writes never fail here. Parsing
 * synced lyrics into the binary SYLT payload is an oracle (`SyltEncoder`),
 * which answers None where the LRC parser or the frame encoder would fail.
 */
module Persistence {
  import opened Wrappers
  import opened Text
  import opened Lrclib
  import opened Utils
  import opened Paths

  const UnsyncedLyricsKey := "UNSYNCEDLYRICS"
  const LyricsKey := "LYRICS"
  const UsltId := "USLT"
  const SyltId := "SYLT"

  /** The SYLT payload of a synced-lyrics text, or None when it cannot be built. */
  type SyltEncoder = string -> Option<seq<bv8>>

  /** The ID3v2 frames this model tells apart. */
  datatype Id3Frame =
    | UnsynchronizedText(language: string, description: string, content: string)
    | Binary(bytes: seq<bv8>)
    | OtherFrame

  /** An audio file as the tag library reads it: its comment or frame map, if it has one. */
  datatype AudioFile =
    | Flac(vorbisComments: Option<map<string, string>>)
    | Mpeg(id3v2: Option<map<string, Id3Frame>>)
    | Unparsable

  /** `q` has the same presence and content in both maps. */
  predicate SameAt<V(==)>(m1: map<string, V>, m2: map<string, V>, q: string) {
    (q in m1 <==> q in m2) && (q in m1 ==> m1[q] == m2[q])
  }

  /** The sidecar files after save_plain_lyrics. */
  function PlainSaved(files: map<string, string>, track: string, lyrics: string): (r: map<string, string>)
    requires HasFileName(track)
    ensures BuildLrcPath(track) !in r
    ensures lyrics == "" ==> BuildTxtPath(track) !in r
    ensures lyrics != "" ==> BuildTxtPath(track) in r && r[BuildTxtPath(track)] == lyrics
    ensures forall q :: q != BuildTxtPath(track) && q != BuildLrcPath(track) ==> SameAt(files, r, q)
  {
    SidecarsDistinct(track);
    var withoutLrc := files - {BuildLrcPath(track)};
    if lyrics == "" then withoutLrc - {BuildTxtPath(track)}
    else withoutLrc[BuildTxtPath(track) := lyrics]
  }

  /** The sidecar files after save_synced_lyrics. */
  function SyncedSaved(files: map<string, string>, track: string, lyrics: string): (r: map<string, string>)
    requires HasFileName(track)
    ensures lyrics == "" ==> BuildLrcPath(track) !in r && SameAt(files, r, BuildTxtPath(track))
    ensures lyrics != "" ==> BuildTxtPath(track) !in r && BuildLrcPath(track) in r && r[BuildLrcPath(track)] == lyrics
    ensures forall q :: q != BuildTxtPath(track) && q != BuildLrcPath(track) ==> SameAt(files, r, q)
  {
    SidecarsDistinct(track);
    if lyrics == "" then files - {BuildLrcPath(track)}
    else (files - {BuildTxtPath(track)})[BuildLrcPath(track) := lyrics]
  }

  /** The sidecar files after save_instrumental. */
  function InstrumentalSaved(files: map<string, string>, track: string): (r: map<string, string>)
    requires HasFileName(track)
    ensures BuildTxtPath(track) !in r
    ensures BuildLrcPath(track) in r && r[BuildLrcPath(track)] == InstrumentalMarker
    ensures forall q :: q != BuildTxtPath(track) && q != BuildLrcPath(track) ==> SameAt(files, r, q)
  {
    SidecarsDistinct(track);
    (files - {BuildLrcPath(track), BuildTxtPath(track)})[BuildLrcPath(track) := InstrumentalMarker]
  }

  /** The sidecar files after apply_lyrics_for_track. */
  function SidecarsAfterApply(files: map<string, string>, track: string, lyrics: Response): map<string, string>
    requires lyrics.None? || HasFileName(track)
  {
    match lyrics
    case SyncedLyrics(synced, _) => SyncedSaved(files, track, synced)
    case UnsyncedLyrics(plain) => PlainSaved(files, track, plain)
    case IsInstrumental => InstrumentalSaved(files, track)
    case None => files
  }

  /** The Vorbis comments after embed_lyrics_flac: a non-empty text is stored under its key, an empty one removes it. */
  function FlacCommentsAfter(comments: map<string, string>, plain: string, synced: string): (r: map<string, string>)
    ensures plain != "" ==> UnsyncedLyricsKey in r && r[UnsyncedLyricsKey] == plain
    ensures plain == "" ==> UnsyncedLyricsKey !in r
    ensures synced != "" ==> LyricsKey in r && r[LyricsKey] == synced
    ensures synced == "" ==> LyricsKey !in r
    ensures forall q :: q != UnsyncedLyricsKey && q != LyricsKey ==> SameAt(comments, r, q)
  {
    var withPlain := if plain != "" then comments[UnsyncedLyricsKey := plain] else comments - {UnsyncedLyricsKey};
    if synced != "" then withPlain[LyricsKey := synced] else withPlain - {LyricsKey}
  }

  /** The USLT frame insert_id3v2_uslt_frame builds. */
  function UsltFrame(plain: string): Id3Frame {
    UnsynchronizedText("XXX", "", plain)
  }

  /**
   * The ID3v2 frames after both frame inserts, or None when the SYLT payload
   * cannot be built (the error aborts before the tag is saved).
   */
  function Id3FramesAfter(frames: map<string, Id3Frame>, plain: string, synced: string, encode: SyltEncoder): (r: Option<map<string, Id3Frame>>)
    ensures r.None? <==> synced != "" && encode(synced).None?
    ensures r.Some? && plain != "" ==> UsltId in r.value && r.value[UsltId] == UsltFrame(plain)
    ensures r.Some? && plain == "" ==> UsltId !in r.value
    ensures r.Some? && synced != "" ==> SyltId in r.value && r.value[SyltId] == Binary(encode(synced).value)
    ensures r.Some? && synced == "" ==> SyltId !in r.value
    ensures r.Some? ==> forall q :: q != UsltId && q != SyltId ==> SameAt(frames, r.value, q)
  {
    var withUslt := if plain != "" then frames[UsltId := UsltFrame(plain)] else frames - {UsltId};
    if synced == "" then Some(withUslt - {SyltId})
    else
      match encode(synced)
      case Some(bytes) => Some(withUslt[SyltId := Binary(bytes)])
      case None => Option.None
  }

  predicate IsMp3Path(track: string) {
    EndsWith(AsciiLowerString(track), ".mp3")
  }

  predicate IsFlacPath(track: string) {
    EndsWith(AsciiLowerString(track), ".flac")
  }

  /** The audio files after embed_lyrics_flac. */
  function FlacEmbedded(audio: map<string, AudioFile>, track: string, plain: string, synced: string): (r: map<string, AudioFile>)
    ensures r == audio || (track in audio && track in r && r == audio[track := r[track]])
  {
    if track in audio && audio[track].Flac? && audio[track].vorbisComments.Some? then
      audio[track := Flac(Some(FlacCommentsAfter(audio[track].vorbisComments.value, plain, synced)))]
    else audio
  }

  /** The audio files after embed_lyrics_mp3. */
  function Mp3Embedded(audio: map<string, AudioFile>, track: string, plain: string, synced: string, encode: SyltEncoder): (r: map<string, AudioFile>)
    ensures r == audio || (track in audio && track in r && r == audio[track := r[track]])
  {
    if track in audio && audio[track].Mpeg? && audio[track].id3v2.Some? then
      match Id3FramesAfter(audio[track].id3v2.value, plain, synced, encode)
      case Some(frames) => audio[track := Mpeg(Some(frames))]
      case None => audio
    else audio
  }

  /** The audio files after embed_lyrics, which chooses by the lower-cased suffix. */
  function AudioAfterEmbed(audio: map<string, AudioFile>, track: string, plain: string, synced: string, encode: SyltEncoder): map<string, AudioFile> {
    if IsMp3Path(track) then Mp3Embedded(audio, track, plain, synced, encode)
    else if IsFlacPath(track) then FlacEmbedded(audio, track, plain, synced)
    else audio
  }

  /** The audio files after apply_lyrics_for_track. */
  function AudioAfterApply(audio: map<string, AudioFile>, track: string, lyrics: Response, embed: bool, encode: SyltEncoder): map<string, AudioFile> {
    if !embed then audio
    else
      match lyrics
      case SyncedLyrics(synced, plain) => AudioAfterEmbed(audio, track, plain, synced, encode)
      case UnsyncedLyrics(plain) => AudioAfterEmbed(audio, track, plain, "", encode)
      case _ => audio
  }

  /** An in-memory ID3v2 tag, whose frames the inserts update in place. */
  class Id3v2Tag {
    var frames: map<string, Id3Frame>

    constructor (frames: map<string, Id3Frame>)
      ensures this.frames == frames
    {
      this.frames := frames;
    }

    /** insert_id3v2_uslt_frame. */
    method InsertUsltFrame(plain: string)
      modifies this
      ensures plain != "" ==> frames == old(frames)[UsltId := UsltFrame(plain)]
      ensures plain == "" ==> frames == old(frames) - {UsltId}
    {
      if plain != "" {
        frames := frames[UsltId := UsltFrame(plain)];
      } else {
        frames := frames - {UsltId};
      }
    }

    /** insert_id3v2_sylt_frame; `ok` is false when the payload cannot be built, and then nothing changes. */
    method InsertSyltFrame(synced: string, encode: SyltEncoder) returns (ok: bool)
      modifies this
      ensures ok <==> synced == "" || encode(synced).Some?
      ensures !ok ==> frames == old(frames)
      ensures ok && synced != "" ==> frames == old(frames)[SyltId := Binary(encode(synced).value)]
      ensures ok && synced == "" ==> frames == old(frames) - {SyltId}
    {
      if synced != "" {
        var payload := encode(synced);
        if payload.None? {
          return false;
        }
        frames := frames[SyltId := Binary(payload.value)];
      } else {
        frames := frames - {SyltId};
      }
      ok := true;
    }
  }

  /** The files of the library: text files and audio files, by path. */
  class TrackFiles {
    var sidecars: map<string, string>
    var audio: map<string, AudioFile>

    constructor (sidecars: map<string, string>, audio: map<string, AudioFile>)
      ensures this.sidecars == sidecars && this.audio == audio
    {
      this.sidecars := sidecars;
      this.audio := audio;
    }

    /** save_plain_lyrics: drop the `.lrc`, then write the `.txt`, or drop it too for an empty text. */
    method SavePlainLyrics(track: string, lyrics: string)
      requires HasFileName(track)
      modifies this`sidecars
      ensures sidecars == PlainSaved(old(sidecars), track, lyrics)
    {
      var txtPath := BuildTxtPath(track);
      var lrcPath := BuildLrcPath(track);
      sidecars := sidecars - {lrcPath};
      if lyrics == "" {
        sidecars := sidecars - {txtPath};
      } else {
        sidecars := sidecars[txtPath := lyrics];
      }
    }

    /** save_synced_lyrics: an empty text drops the `.lrc`; otherwise the `.txt` goes and the `.lrc` is written. */
    method SaveSyncedLyrics(track: string, lyrics: string)
      requires HasFileName(track)
      modifies this`sidecars
      ensures sidecars == SyncedSaved(old(sidecars), track, lyrics)
    {
      var txtPath := BuildTxtPath(track);
      var lrcPath := BuildLrcPath(track);
      if lyrics == "" {
        sidecars := sidecars - {lrcPath};
      } else {
        sidecars := sidecars - {txtPath};
        sidecars := sidecars[lrcPath := lyrics];
      }
    }

    /** save_instrumental: both sidecars go, and the `.lrc` is written with the instrumental marker. */
    method SaveInstrumental(track: string)
      requires HasFileName(track)
      modifies this`sidecars
      ensures sidecars == InstrumentalSaved(old(sidecars), track)
    {
      var txtPath := BuildTxtPath(track);
      var lrcPath := BuildLrcPath(track);
      sidecars := sidecars - {lrcPath};
      sidecars := sidecars - {txtPath};
      sidecars := sidecars[lrcPath := InstrumentalMarker];
      assert sidecars == (old(sidecars) - {lrcPath, txtPath})[lrcPath := InstrumentalMarker];
    }

    /** embed_lyrics_flac; `ok` is false where the source reports an error (no such file, not a FLAC file). */
    method EmbedLyricsFlac(track: string, plain: string, synced: string) returns (ok: bool)
      modifies this`audio
      ensures audio == FlacEmbedded(old(audio), track, plain, synced)
      ensures ok <==> track in old(audio) && old(audio)[track].Flac?
    {
      if track !in audio || !audio[track].Flac? {
        return false;
      }
      ok := true;
      var file := audio[track];
      if file.vorbisComments.Some? {
        var comments := file.vorbisComments.value;
        if plain != "" {
          comments := comments[UnsyncedLyricsKey := plain];
        } else {
          comments := comments - {UnsyncedLyricsKey};
        }
        if synced != "" {
          comments := comments[LyricsKey := synced];
        } else {
          comments := comments - {LyricsKey};
        }
        audio := audio[track := Flac(Some(comments))];
      }
    }

    /**
     * embed_lyrics_mp3; `ok` is false where the source reports an error (no
     * such file, not an MPEG file, or a SYLT payload that cannot be built).
     */
    method EmbedLyricsMp3(track: string, plain: string, synced: string, encode: SyltEncoder) returns (ok: bool)
      modifies this`audio
      ensures audio == Mp3Embedded(old(audio), track, plain, synced, encode)
      ensures ok <==> track in old(audio) && old(audio)[track].Mpeg?
                      && (old(audio)[track].id3v2.Some? ==> synced == "" || encode(synced).Some?)
    {
      if track !in audio || !audio[track].Mpeg? {
        return false;
      }
      var file := audio[track];
      if file.id3v2.None? {
        return true;
      }
      var tag := new Id3v2Tag(file.id3v2.value);
      tag.InsertUsltFrame(plain);
      ok := tag.InsertSyltFrame(synced, encode);
      if !ok {
        return;
      }
      audio := audio[track := Mpeg(Some(tag.frames))];
    }

    /** embed_lyrics: errors are only reported, never returned. */
    method EmbedLyrics(track: string, plain: string, synced: string, encode: SyltEncoder)
      modifies this`audio
      ensures audio == AudioAfterEmbed(old(audio), track, plain, synced, encode)
    {
      var lower := AsciiLowerString(track);
      if EndsWith(lower, ".mp3") {
        var _ := EmbedLyricsMp3(track, plain, synced, encode);
      } else if EndsWith(lower, ".flac") {
        var _ := EmbedLyricsFlac(track, plain, synced);
      }
    }

    /** apply_lyrics_for_track: persist one lyrics result and hand it back. */
    method ApplyLyricsForTrack(track: string, lyrics: Response, embed: bool, encode: SyltEncoder) returns (r: Response)
      requires lyrics.None? || HasFileName(track)
      modifies this
      ensures r == lyrics
      ensures sidecars == SidecarsAfterApply(old(sidecars), track, lyrics)
      ensures audio == AudioAfterApply(old(audio), track, lyrics, embed, encode)
    {
      match lyrics {
        case SyncedLyrics(synced, plain) =>
          SaveSyncedLyrics(track, synced);
          if embed {
            EmbedLyrics(track, plain, synced, encode);
          }
        case UnsyncedLyrics(plain) =>
          SavePlainLyrics(track, plain);
          if embed {
            EmbedLyrics(track, plain, "", encode);
          }
        case IsInstrumental =>
          SaveInstrumental(track);
        case None =>
      }
      r := lyrics;
    }

    /** apply_string_lyrics_for_track: save the plain text, then the synced text, then embed both. */
    method ApplyStringLyricsForTrack(track: string, plain: string, synced: string, embed: bool, encode: SyltEncoder)
      requires HasFileName(track)
      modifies this
      ensures sidecars == SyncedSaved(PlainSaved(old(sidecars), track, plain), track, synced)
      ensures audio == if embed then AudioAfterEmbed(old(audio), track, plain, synced, encode) else old(audio)
    {
      SavePlainLyrics(track, plain);
      SaveSyncedLyrics(track, synced);
      if embed {
        EmbedLyrics(track, plain, synced, encode);
      }
    }
  }

  /**
   * What each lyrics result leaves beside the track: synced lyrics drop the
   * `.txt` and write the `.lrc` (or, when empty, drop only the `.lrc`); plain
   * lyrics drop the `.lrc` and write the `.txt` (or drop it when empty); an
   * instrumental result leaves only the marker `.lrc`; no result touches
   * nothing. No other file changes.
   */
  lemma ApplyLyricsSidecars(files: map<string, string>, track: string, lyrics: Response)
    requires HasFileName(track)
    ensures var r := SidecarsAfterApply(files, track, lyrics);
            var txt := BuildTxtPath(track);
            var lrc := BuildLrcPath(track);
            && (forall q :: q != txt && q != lrc ==> SameAt(files, r, q))
            && (lyrics.SyncedLyrics? && lyrics.synced != "" ==> txt !in r && lrc in r && r[lrc] == lyrics.synced)
            && (lyrics.SyncedLyrics? && lyrics.synced == "" ==> lrc !in r && SameAt(files, r, txt))
            && (lyrics.UnsyncedLyrics? ==> lrc !in r && (txt in r <==> lyrics.plain != "") && (txt in r ==> r[txt] == lyrics.plain))
            && (lyrics.IsInstrumental? ==> txt !in r && lrc in r && r[lrc] == InstrumentalMarker)
            && (lyrics.None? ==> r == files)
  {
  }

  /** Every lyrics result other than None leaves at most one of the two sidecars. */
  lemma ApplyLeavesOneSidecar(files: map<string, string>, track: string, lyrics: Response)
    requires HasFileName(track)
    requires !lyrics.None?
    ensures var r := SidecarsAfterApply(files, track, lyrics);
            !(BuildTxtPath(track) in r && BuildLrcPath(track) in r)
  {
  }

  /** Applying the same result twice leaves the same sidecar files as applying it once. */
  lemma ApplyIdempotent(files: map<string, string>, track: string, lyrics: Response)
    requires HasFileName(track)
    ensures var once := SidecarsAfterApply(files, track, lyrics);
            SidecarsAfterApply(once, track, lyrics) == once
  {
    var once := SidecarsAfterApply(files, track, lyrics);
    var twice := SidecarsAfterApply(once, track, lyrics);
    SidecarsDistinct(track);
    forall q ensures SameAt(once, twice, q) {
    }
    MapExtensional(once, twice);
  }

  lemma MapExtensional<V>(m1: map<string, V>, m2: map<string, V>)
    requires forall q :: SameAt(m1, m2, q)
    ensures m1 == m2
  {
    forall q ensures q in m1 <==> q in m2 {
      assert SameAt(m1, m2, q);
    }
    assert m1.Keys == m2.Keys;
    forall q | q in m1 ensures m1[q] == m2[q] {
      assert SameAt(m1, m2, q);
    }
  }

  /**
   * Saving plain then synced text (save_lyrics' path): the `.lrc` holds the
   * synced text iff it is non-empty; the `.txt` holds the plain text iff that is
   * non-empty and the synced text is empty; no other file changes.
   */
  lemma StringLyricsSidecars(files: map<string, string>, track: string, plain: string, synced: string)
    requires HasFileName(track)
    ensures var r := SyncedSaved(PlainSaved(files, track, plain), track, synced);
            var txt := BuildTxtPath(track);
            var lrc := BuildLrcPath(track);
            && (lrc in r <==> synced != "")
            && (lrc in r ==> r[lrc] == synced)
            && (txt in r <==> plain != "" && synced == "")
            && (txt in r ==> r[txt] == plain)
            && (forall q :: q != txt && q != lrc ==> SameAt(files, r, q))
  {
    SidecarsDistinct(track);
  }

  /** A FLAC path is not an MP3 path, so embed_lyrics takes its FLAC branch. */
  lemma FlacPathNotMp3(track: string)
    requires IsFlacPath(track)
    ensures !IsMp3Path(track)
  {
    var lower := AsciiLowerString(track);
    assert lower[|lower| - 5..] == ".flac";
    assert lower[|lower| - 1] == 'c';
  }

  /**
   * Embedding changes at most the one audio file, and only when its path's
   * lower-cased form ends in `.mp3` or `.flac` and the file exists.
   */
  lemma EmbedOnlyThatFile(audio: map<string, AudioFile>, track: string, plain: string, synced: string, encode: SyltEncoder)
    ensures var r := AudioAfterEmbed(audio, track, plain, synced, encode);
            && (forall q :: q != track ==> SameAt(audio, r, q))
            && (!IsMp3Path(track) && !IsFlacPath(track) ==> r == audio)
            && (track !in audio ==> r == audio)
  {
    var r := AudioAfterEmbed(audio, track, plain, synced, encode);
    if IsMp3Path(track) {
      EmbeddedOnlyAt(audio, track, Mp3Embedded(audio, track, plain, synced, encode));
    } else if IsFlacPath(track) {
      EmbeddedOnlyAt(audio, track, FlacEmbedded(audio, track, plain, synced));
    }
  }

  /** A result that is the audio files as they were, or with one entry for the existing track replaced. */
  lemma EmbeddedOnlyAt(audio: map<string, AudioFile>, track: string, r: map<string, AudioFile>)
    requires r == audio || (track in audio && track in r && r == audio[track := r[track]])
    ensures forall q :: q != track ==> SameAt(audio, r, q)
    ensures track !in audio ==> r == audio
  {
    if r != audio {
      UpdateOnlyAt(audio, track, r[track], r);
    }
  }

  /** Storing a value under one key leaves every other key as it was. */
  lemma UpdateOnlyAt<V>(m: map<string, V>, k: string, v: V, m': map<string, V>)
    requires m' == m[k := v]
    ensures forall q :: q != k ==> SameAt(m, m', q)
  {
  }

  /**
   * In a FLAC file with Vorbis comments, a non-empty text is stored under its
   * key (UNSYNCEDLYRICS for plain, LYRICS for synced), an empty text removes
   * the key, and every other comment keeps its value.
   */
  lemma FlacEmbedEffect(audio: map<string, AudioFile>, track: string, plain: string, synced: string, encode: SyltEncoder)
    requires IsFlacPath(track) && track in audio && audio[track].Flac? && audio[track].vorbisComments.Some?
    ensures var r := AudioAfterEmbed(audio, track, plain, synced, encode);
            var before := audio[track].vorbisComments.value;
            && track in r && r[track].Flac? && r[track].vorbisComments.Some?
            && var after := r[track].vorbisComments.value;
               && (UnsyncedLyricsKey in after <==> plain != "")
               && (plain != "" ==> after[UnsyncedLyricsKey] == plain)
               && (LyricsKey in after <==> synced != "")
               && (synced != "" ==> after[LyricsKey] == synced)
               && (forall q :: q != UnsyncedLyricsKey && q != LyricsKey ==> SameAt(before, after, q))
  {
    FlacPathNotMp3(track);
  }

  /**
   * In an MP3 file with an ID3v2 tag, a non-empty text is stored in its frame
   * (USLT for plain, SYLT for synced), an empty text removes the frame, and
   * every other frame keeps its value; a SYLT payload that cannot be built
   * leaves the file as it was.
   */
  lemma Mp3EmbedEffect(audio: map<string, AudioFile>, track: string, plain: string, synced: string, encode: SyltEncoder)
    requires IsMp3Path(track) && track in audio && audio[track].Mpeg? && audio[track].id3v2.Some?
    ensures var r := AudioAfterEmbed(audio, track, plain, synced, encode);
            var before := audio[track].id3v2.value;
            && (synced != "" && encode(synced).None? ==> r == audio)
            && (synced == "" || encode(synced).Some? ==>
                  && track in r && r[track].Mpeg? && r[track].id3v2.Some?
                  && var after := r[track].id3v2.value;
                     && (UsltId in after <==> plain != "")
                     && (plain != "" ==> after[UsltId] == UsltFrame(plain))
                     && (SyltId in after <==> synced != "")
                     && (synced != "" ==> after[SyltId] == Binary(encode(synced).value))
                     && (forall q :: q != UsltId && q != SyltId ==> SameAt(before, after, q)))
  {
  }

  /** Embedding the same texts twice gives the same audio files as embedding them once. */
  lemma EmbedIdempotent(audio: map<string, AudioFile>, track: string, plain: string, synced: string, encode: SyltEncoder)
    ensures var once := AudioAfterEmbed(audio, track, plain, synced, encode);
            AudioAfterEmbed(once, track, plain, synced, encode) == once
  {
    if IsMp3Path(track) {
      Mp3EmbeddedIdempotent(audio, track, plain, synced, encode);
    } else if IsFlacPath(track) {
      FlacEmbeddedIdempotent(audio, track, plain, synced);
    }
  }

  lemma Mp3EmbeddedIdempotent(audio: map<string, AudioFile>, track: string, plain: string, synced: string, encode: SyltEncoder)
    ensures var once := Mp3Embedded(audio, track, plain, synced, encode);
            Mp3Embedded(once, track, plain, synced, encode) == once
  {
    if track in audio && audio[track].Mpeg? && audio[track].id3v2.Some? {
      var f1 := Id3FramesAfter(audio[track].id3v2.value, plain, synced, encode);
      if f1.Some? {
        var f2 := Id3FramesAfter(f1.value, plain, synced, encode);
        forall q ensures SameAt(f1.value, f2.value, q) {
        }
        MapExtensional(f1.value, f2.value);
        var once := audio[track := Mpeg(f1)];
        assert Mp3Embedded(once, track, plain, synced, encode) == once[track := Mpeg(f2)];
      }
    }
  }

  lemma FlacEmbeddedIdempotent(audio: map<string, AudioFile>, track: string, plain: string, synced: string)
    ensures var once := FlacEmbedded(audio, track, plain, synced);
            FlacEmbedded(once, track, plain, synced) == once
  {
    if track in audio && audio[track].Flac? && audio[track].vorbisComments.Some? {
      var c1 := FlacCommentsAfter(audio[track].vorbisComments.value, plain, synced);
      var c2 := FlacCommentsAfter(c1, plain, synced);
      forall q ensures SameAt(c1, c2, q) {
      }
      MapExtensional(c1, c2);
    }
  }
}
