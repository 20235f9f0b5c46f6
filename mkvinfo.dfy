/** The decoded output of `mkvmerge -J`: the attachments and tracks of one
    Matroska file (mkvlib/mkv.go, type mkvInfo). */
module MkvInfo {

  datatype Option<T> = None | Some(value: T)

  datatype Attachment = Attachment(id: int, fileName: string, size: int, contentType: string)

  /** `kind` is the track's "type" field ("video", "audio", "subtitles", ...). */
  datatype Track = Track(id: int, kind: string, codec: string, language: string, trackName: string)

  datatype Info = Info(attachments: seq<Attachment>, tracks: seq<Track>)

  const SubtitlesKind: string := "subtitles"
  const AssCodec: string := "SubStationAlpha"

  predicate IsSubtitle(t: Track) {
    t.kind == SubtitlesKind
  }

  predicate IsAssSubtitle(t: Track) {
    t.kind == SubtitlesKind && t.codec == AssCodec
  }
}
