/** The track record the catalog hands out, joined with its album and artist. */
module Entities {
  import opened Wrappers

  datatype PersistentTrack = PersistentTrack(
    id: int,
    filePath: string,
    fileName: string,
    title: string,
    artistName: string,
    artistId: int,
    albumName: string,
    albumArtistName: string,
    albumId: int,
    duration: real,
    trackNumber: Option<nat>,
    txtLyrics: Option<string>,
    lrcLyrics: Option<string>,
    imagePath: Option<string>,
    instrumental: bool,
    bitrate: Option<nat>)
}
