/** What was typed is what is there: the fields of a cell after the keys for them. */
module TypedFields {
  import opened BitMath
  import opened Division
  import opened Notes
  import opened FieldEntry
  import opened PlayPosition

  /** The cell and the remembered values after a key at a place of the cursor. */
  function Keyed(s: Slot, place: int, key: char): Slot {
    var entry := KeyEntry(place, key, NO_NOTE, 0);
    if entry.Some? then Entered(s, entry.value) else s
  }

  /** A letter at the place of the command enters the command it names; the player calls it by the same letter. */
  lemma CommandIsTyped(s: Slot, key: char)
    requires 'A' <= key <= 'Z'
    ensures var t := Keyed(s, 6, key);
      && t.cell == s.cell.(command := t.cell.command) && t.cell.command as int + 'A' as int == key as int
      && t.masks.lastCommand == t.cell.command && t.masks.lastParameter == s.cell.parameter
      && (key == 'A' <==> t.cell.command == A_COMMAND) && (key == 'B' <==> t.cell.command == B_COMMAND)
      && (key == 'C' <==> t.cell.command == C_COMMAND) && (key == 'S' <==> t.cell.command == S_COMMAND)
  {
  }

  function Digit(key: char): int {
    key as int - '0' as int
  }

  predicate IsDigit(key: char) {
    '0' <= key <= '9'
  }

  function HexDigit(key: char): int {
    if key <= '9' then key as int - '0' as int else key as int - 'A' as int + 10
  }

  /** Two decimal digits give the instrument with that number, counted from 1; 00 gives none. */
  lemma InstrumentIsTyped(s: Slot, a: char, b: char)
    requires Legal(s.cell) && IsDigit(a) && IsDigit(b)
    ensures
      var t, shown := Keyed(Keyed(s, 2, a), 3, b), 10 * Digit(a) + Digit(b);
      && t.cell == s.cell.(instrument := if shown == 0 then 255 else shown - 1)
      && t.masks.lastInstrument == t.cell.instrument
  {
    hide TruncatingDiv, TruncatingMod, StoredInstrument;
    var shown := ShownInstrument(s.cell.instrument);
    QuotientAndRest(shown, shown / 10);
    var first := shown % 10 + 10 * Digit(a);
    InstrumentIsStored(first);
    var u := Keyed(s, 2, a);
    assert u.cell.instrument == StoredInstrument(first);
    QuotientAndRest(first, Digit(a));
    InstrumentIsStored(10 * Digit(a) + Digit(b));
  }

  lemma QuotientAndRest(x: int, q: int)
    requires 0 <= x && 10 * q <= x < 10 * q + 10
    ensures TruncatingDiv(x, 10) == q && TruncatingMod(x, 10) == x - 10 * q
  {
    hide TruncatingDiv;
    TensOf(x, q);
  }

  lemma InstrumentIsStored(shown: int)
    requires 0 <= shown <= 99
    ensures StoredInstrument(shown) == (if shown == 0 then 255 else shown - 1)
    ensures ShownInstrument(StoredInstrument(shown)) == shown
  {
  }

  /** Two hexadecimal digits give the parameter. */
  lemma ParameterIsTyped(s: Slot, a: char, b: char)
    requires IsHexNumber(a) && IsHexNumber(b)
    ensures
      var t := Keyed(Keyed(s, 7, a), 8, b);
      && t.cell == s.cell.(parameter := 16 * HexDigit(a) + HexDigit(b))
      && t.masks.lastParameter == t.cell.parameter && t.masks.lastCommand == s.cell.command
  {
    hide Byte;
    HighDigit(HexDigit(a), s.cell.parameter);
    LowDigit(HexDigit(a), s.cell.parameter, HexDigit(b));
  }

  lemma HighDigit(h: int, p: u8)
    requires 0 <= h < 16
    ensures Byte(h * 0x10 + p % 0x10) == 16 * h + p % 16
  {
  }

  lemma LowDigit(h: int, p: u8, l: int)
    requires 0 <= h < 16 && 0 <= l < 16
    ensures var q: u8 := 16 * h + p % 16; Byte(l + q / 0x10 * 0x10) == 16 * h + l
  {
  }

  /** A digit at the place of the octave moves the note to that octave, and keeps the tone. */
  lemma OctaveIsTyped(s: Slot, key: char)
    requires IsDigit(key)
    ensures var t := Keyed(s, 1, key);
      if s.cell.note < 120 then
        && t.cell == s.cell.(note := t.cell.note)
        && t.cell.note / 12 == Digit(key) && t.cell.note % 12 == s.cell.note % 12
      else t == s
  {
    hide TruncatingMod, Byte;
    if s.cell.note < NOTES {
      ToneOf(s.cell.note);
      OctaveAndTone(Digit(key), s.cell.note as int % 12);
    }
  }

  lemma ToneOf(note: u8)
    ensures TruncatingMod(note, 12) == note as int % 12
  {
  }

  lemma OctaveAndTone(d: int, tone: int)
    requires 0 <= d <= 9 && 0 <= tone < 12
    ensures Byte(d * 12 + tone) == d * 12 + tone && (d * 12 + tone) / 12 == d && (d * 12 + tone) % 12 == tone
  {
  }

  /** Volume bytes between the volume commands and the pannings, which nothing enters. */
  predicate BetweenKinds(volume: u8) {
    125 <= volume < 128
  }

  /** The units that the first digit leaves: those of the old volume, which wrap around between the kinds. */
  lemma UnitsKept(volume: u8)
    ensures if BetweenKinds(volume) then 253 <= VolumeUnits(volume) else VolumeUnits(volume) <= 9
  {
    hide TruncatingMod, TruncatingDiv, Byte;
    UnitsRange(volume);
    if BetweenKinds(volume) {
      BelowZero(volume);
    }
  }

  lemma BelowZero(volume: u8)
    requires BetweenKinds(volume)
    ensures 253 <= VolumeUnits(volume)
  {
    hide TruncatingDiv;
    SmallQuotient(volume - 128, 10);
  }

  lemma TensOf(x: int, q: int)
    requires 0 <= x && 10 * q <= x < 10 * q + 10
    ensures TruncatingDiv(x, 10) == q
  {
    hide TruncatingDiv;
    SmallQuotient(x, 10);
  }

  /** The plain volume or panning after the first digit, and what is left of it for the second. */
  lemma FirstDigit(s: Slot, a: char)
    requires IsDigit(a)
    ensures var t := Keyed(s, 4, a);
      && t.cell == s.cell.(volume := t.cell.volume) && t.masks.volumePanMode == s.masks.volumePanMode
      && if BetweenKinds(s.cell.volume)
         then VolumeTens(t.cell.volume) == (if 1 <= Digit(a) <= 6 then 10 * Digit(a) - 10 else 60)
         else VolumeTens(t.cell.volume) == if Digit(a) <= 6 then 10 * Digit(a) else 60
  {
    hide VolumeUnits, VolumeTens, TruncatingDiv;
    UnitsKept(s.cell.volume);
    var units, d := VolumeUnits(s.cell.volume) as int, Digit(a);
    var x := Byte(10 * d + units);
    ByteOf(10 * d + units);
    var v: int := if x > 64 then 64 else x;
    var t := Keyed(s, 4, a);
    assert t.cell.volume as int == if s.masks.volumePanMode then v + 128 else v;
    var tens := if BetweenKinds(s.cell.volume) then (if 1 <= d <= 6 then d - 1 else 6) else if d <= 6 then d else 6;
    assert 10 * tens <= v < 10 * tens + 10;
    PlainTens(v, tens, s.masks.volumePanMode);
  }

  lemma PlainOrPanIs(v: u8, pan: bool)
    ensures PlainOrPan(v, pan) as int == (if v > 64 then 64 else v as int) + if pan then 128 else 0
  {
  }

  lemma PlainTens(v: int, tens: int, pan: bool)
    requires 0 <= v <= 64 && 10 * tens <= v < 10 * tens + 10
    ensures VolumeTens(if pan then v + 128 else v) == 10 * tens
  {
    hide TruncatingDiv;
    TensOf(v, tens);
    ByteOf(10 * tens);
  }

  /**
   * Two digits typed for a volume or a panning: what is there is the number typed exactly when that is at most 64 and
   * the old byte was none between the kinds. A first digit above 6 counts as 6.
   */
  lemma VolumeIsTyped(s: Slot, a: char, b: char)
    requires IsDigit(a) && IsDigit(b)
    ensures
      var t, base, typed := Keyed(Keyed(s, 4, a), 5, b), if s.masks.volumePanMode then 128 else 0,
        10 * Digit(a) + Digit(b);
      && t.cell == s.cell.(volume := t.cell.volume) && t.masks.lastVolume == t.cell.volume
      && base <= t.cell.volume as int <= base + 64
      && (t.cell.volume as int == base + typed <==> typed <= 64 && !BetweenKinds(s.cell.volume))
      && (!BetweenKinds(s.cell.volume) && 64 < typed ==>
            t.cell.volume as int == base + if 60 + Digit(b) < 64 then 60 + Digit(b) else 64)
  {
    hide VolumeUnits, VolumeTens, VolumeKey, Byte, PlainOrPan;
    FirstDigit(s, a);
    var t := Keyed(s, 4, a);
    var v := VolumeTens(t.cell.volume) as int + Digit(b);
    ByteOf(v);
    PlainOrPanIs(v, s.masks.volumePanMode);
  }

  /** The first byte of the volumes a letter stands for: ten for each of A to F, and for G and H. */
  function LetterBase(key: char): int
    requires 'A' <= key <= 'H'
  {
    if key <= 'F' then 65 + 10 * (key as int - 'A' as int) else 193 + 10 * (key as int - 'G' as int)
  }

  /** A letter and a digit typed for a volume command: it is there unless the old byte was one between the kinds. */
  lemma LetterIsTyped(s: Slot, a: char, b: char)
    requires 'A' <= a <= 'H' && IsDigit(b)
    ensures
      var t := Keyed(Keyed(s, 4, a), 5, b);
      && t.cell == s.cell.(volume := t.cell.volume) && t.masks.lastVolume == t.cell.volume
      && (t.cell.volume as int == LetterBase(a) + Digit(b) <==> !BetweenKinds(s.cell.volume))
  {
    hide VolumeUnits, VolumeTens, TruncatingDiv;
    UnitsKept(s.cell.volume);
    var units := VolumeUnits(s.cell.volume) as int;
    ByteOf(LetterBase(a) + units);
    var t := Keyed(s, 4, a);
    assert t.cell.volume as int == LetterBase(a) + if units < 10 then units else units - 256;
    LetterTens(a, t.cell.volume as int - LetterBase(a));
    ByteOf(VolumeTens(t.cell.volume) as int + Digit(b));
  }

  lemma LetterTens(a: char, units: int)
    requires 'A' <= a <= 'H' && -3 <= units <= 9
    ensures var tens := VolumeTens(LetterBase(a) + units) as int;
      if 0 <= units then tens == LetterBase(a)
      else if a == 'A' || a == 'G' then tens == 60
      else tens == LetterBase(a) - 10
  {
    hide TruncatingDiv;
    var v := LetterBase(a) + units;
    if v < 65 {
      TensOf(v, 6);
    } else if v < 125 {
      var q := a as int - 'A' as int;
      TensOf(v - 65, if 0 <= units then q else q - 1);
      ByteOf(65 + 10 * q);
      ByteOf(55 + 10 * q);
    } else if v < 193 {
      TensOf(v - 128, 6);
    } else {
      var q := a as int - 'G' as int;
      TensOf(v - 193, if 0 <= units then q else q - 1);
      ByteOf(193 + 10 * q);
      ByteOf(183 + 10 * q);
    }
  }

  /** Reading the masks from a cell and entering its note makes the same cell elsewhere, when all masks are on. */
  lemma MasksCopyTheCell(from: Note, to: Note, m: Masks)
    requires m.instrumentMask && m.volumeMask && m.commandMask
    ensures
      var i := Entered(Slot(from, m), ReadMask(InstrumentField)).masks;
      var v := Entered(Slot(from, i), ReadMask(VolumeField)).masks;
      var c := Entered(Slot(from, v), ReadMask(CommandField)).masks;
      Entered(Slot(to, c), NoteValue(from.note as int)).cell == from
  {
  }

  /** Reading a field from one cell and writing it to another copies that field, and only that one. */
  lemma FieldIsCopied(from: Note, to: Note, m: Masks)
    ensures
      var copy := (f: Field) => Entered(Slot(to, Entered(Slot(from, m), ReadMask(f)).masks), WriteMask(f)).cell;
      && copy(NoteField) == to.(note := from.note) && copy(OctaveField) == to
      && copy(InstrumentField) == to.(instrument := from.instrument) && copy(VolumeField) == to.(volume := from.volume)
      && copy(CommandField) == copy(ParameterField) == to.(command := from.command, parameter := from.parameter)
  {
  }

  /** Clearing a note that was entered in an empty cell empties it again, but for a parameter that came with it. */
  lemma ClearUndoesEntryIff(m: Masks, note: u8)
    ensures
      var entered := Entered(Slot(EMPTY, m), NoteValue(note as int));
      Entered(entered, ClearField(NoteField)).cell == EMPTY <==> !m.commandMask || m.lastParameter == 0
  {
  }

  /** Clearing one field leaves the others, and the next use of its mask leaves the field empty. */
  lemma FieldIsCleared(s: Slot)
    ensures Entered(s, ClearField(InstrumentField)).cell == s.cell.(instrument := 255)
    ensures Entered(s, ClearField(VolumeField)).cell == s.cell.(volume := 255)
    ensures Entered(s, ClearField(CommandField)).cell == s.cell.(command := 255)
    ensures Entered(s, ClearField(ParameterField)).cell == s.cell.(parameter := 0)
    ensures forall f: Field | f != NoteField && f != OctaveField ::
      Entered(Entered(s, ClearField(f)), WriteMask(f)).cell == Entered(s, ClearField(f)).cell
  {
  }

  /** Note off, note cut, and the switches that put everything back when used twice. */
  lemma SwitchesTwice(s: Slot, f: Field)
    ensures Entered(Entered(s, ToggleMask(f)), ToggleMask(f)) == s
    ensures f.VolumeField? ==> Entered(Entered(s, NoteOff(f)), NoteOff(f)) == s
    ensures Entered(s, ToggleMask(f)) == s <==> f.NoteField? || f.OctaveField?
    ensures f.NoteField? || f.OctaveField? ==> Entered(s, NoteOff(f)).cell == s.cell.(note := 254)
    ensures Entered(s, NoteCut).cell == s.cell.(note := 253)
  {
  }

  /** Past the end of the pattern, an entry leaves remembered what reading the cell that is there would. */
  lemma PastTheEndIsReading(s: Slot, value: int, key: char, digit: int)
    ensures MasksPast(s, NoteValue(value)) == MaskRead(s, NoteField).masks
    ensures MasksPast(s, Command(key)) == MaskRead(s, CommandField).masks
    ensures MasksPast(s, ParameterHigh(digit)) == MasksPast(s, ParameterLow(digit)) == MaskRead(s, CommandField).masks
    ensures MasksPast(s, ReadMask(VolumeField)) == MaskRead(Slot(EMPTY, s.masks), VolumeField).masks
    ensures MasksPast(s, ReadMask(CommandField)) == MaskRead(Slot(EMPTY, s.masks), CommandField).masks
  {
  }

  /** A key that plays a note enters it in the given octave; other keys enter nothing at the place of the note. */
  lemma NoteIsTyped(s: Slot, key: char, increment: nat, octave: nat)
    requires 12 * octave + increment < 0x100
    ensures
      var e, n := KeyEntry(0, key, increment, octave), 12 * octave + increment;
      if increment == 99 then e.None?
      else e.Some? && Entered(s, e.value).cell.note as int == if n < 119 then n else 119
  {
    KeysAreEnterable(0, key, increment, octave);
    ByteOf(KeyNote(increment, octave));
  }

  /** One digit of a plain volume leaves the other one as it was, as far as 64 allows; an empty field counts as 00. */
  lemma DigitsKeepEachOther(s: Slot, a: char)
    requires IsDigit(a) && !s.masks.volumePanMode && (s.cell.volume <= 64 || s.cell.volume == 255)
    ensures
      var v := if s.cell.volume == 255 then 0 else s.cell.volume as int;
      var first, second := 10 * Digit(a) + v % 10, v / 10 * 10 + Digit(a);
      && Keyed(s, 4, a).cell.volume as int == (if first <= 64 then first else 64)
      && Keyed(s, 5, a).cell.volume as int == (if second <= 64 then second else 64)
  {
    hide Byte, TruncatingDiv, TruncatingMod;
    var v := if s.cell.volume == 255 then 0 else s.cell.volume as int;
    QuotientAndRest(v, v / 10);
    ByteOf(v % 10);
    ByteOf(v / 10 * 10);
    ByteOf(10 * Digit(a) + v % 10);
    ByteOf(v / 10 * 10 + Digit(a));
  }

  /** The field that is cleared, remembered or masked at a place of the cursor is the one that is typed there. */
  lemma PlacesHaveTheirField(s: Slot, place: int, key: char)
    requires 0 <= place < 9
    ensures FieldAt(place) ==
      [NoteField, OctaveField, InstrumentField, InstrumentField, VolumeField, VolumeField, CommandField, ParameterField,
       ParameterField][place]
    ensures 2 <= place ==>
      Entered(Keyed(s, place, key), ClearField(FieldAt(place))).cell == Entered(s, ClearField(FieldAt(place))).cell
  {
    hide StoredInstrument, VolumeUnits, VolumeTens, PlainOrPan, Byte, TruncatingDiv, TruncatingMod;
  }
}
