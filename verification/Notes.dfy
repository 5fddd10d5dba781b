/** The note event that fills one pattern cell. */
module Notes {
  import opened BitMath

  const EMPTY_FIELD: u8 := 255
  const NOTES: u8 := 120
  const OFF: u8 := 254
  const CUT: u8 := 253

  /** The layers of an instrument, which play every note together. */
  const MAX_LAYERS := 4

  datatype Note = Note(note: u8, instrument: u8, volume: u8, command: u8, parameter: u8) {

    function Raise(): Note {
      if note < NOTES - 1 then this.(note := note + 1) else this
    }

    function Lower(): Note {
      if 0 < note < NOTES then this.(note := note - 1) else this
    }
  }

  const EMPTY: Note := Note(EMPTY_FIELD, EMPTY_FIELD, EMPTY_FIELD, EMPTY_FIELD, 0)

  /** The fields a pattern file can hold. */
  predicate Legal(n: Note) {
    && (n.note < NOTES || CUT <= n.note)
    && (n.instrument < 99 || n.instrument == EMPTY_FIELD)
    && (n.volume < 213 || n.volume == EMPTY_FIELD)
    && (n.command < 212 || n.command == EMPTY_FIELD)
  }
}
