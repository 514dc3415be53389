/** `struct record`: one song as the scrobbler and its journal see it. */
module Records {
  import opened Text

  /** The `source` pointer: "P", "R", or NULL in a slot that was wiped with memset. */
  datatype Source = NoSource | Player | Radio

  datatype Record = Record(
    artist: Option<string>, track: Option<string>, album: Option<string>,
    number: Option<string>, mbid: Option<string>, time: Option<string>,
    length: int, source: Source)

  /** `record_is_defined`. */
  predicate Defined(r: Record) {
    r.artist.Some? && r.track.Some?
  }

  /** `record_clear`. */
  const CLEARED := Record(None, None, None, None, None, None, 0, Player)

  /** The now-playing slot after its record was sent and the struct zeroed. */
  const WIPED := CLEARED.(source := NoSource)

  function SourceText(s: Source): Option<string> {
    match s
    case NoSource => None
    case Player => Some("P")
    case Radio => Some("R")
  }
}
