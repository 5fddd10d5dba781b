/** What typing at the cursor does to the cell under it and to the values the editor remembers. */
module FieldEntry {
  import opened BitMath
  import opened Notes
  import opened Division
  import opened Options

  /** The remembered values and which of them go with a new note. */
  datatype Masks = Masks(
    lastNote: u8, lastInstrument: u8, lastVolume: u8, lastCommand: u8, lastParameter: u8,
    instrumentMask: bool, volumeMask: bool, commandMask: bool, volumePanMode: bool)

  /** The editor's own remembered values at the start. */
  const FIRST_MASKS := Masks(EMPTY_FIELD, 1, EMPTY_FIELD, EMPTY_FIELD, 0, true, true, false, false)

  datatype Slot = Slot(cell: Note, masks: Masks)

  /** The fields of a cell; notes, instruments, volumes and parameters take two cursor places. */
  datatype Field = NoteField | OctaveField | InstrumentField | VolumeField | CommandField | ParameterField

  datatype Entry =
    | NoteValue(value: int)
    | Octave(digit: int)
    | InstrumentTens(digit: int)
    | InstrumentUnits(digit: int)
    | VolumeFirst(key: char)
    | VolumeSecond(digit: int)
    | Command(key: char)
    | ParameterHigh(digit: int)
    | ParameterLow(digit: int)
    | NoteOff(field: Field)
    | NoteCut
    | WriteMask(field: Field)
    | ReadMask(field: Field)
    | ClearField(field: Field)
    | ToggleMask(field: Field)
    | RaiseNote
    | LowerNote
    | SetInstrument(value: int)

  function Byte(x: int): u8 {
    x % 0x100
  }

  function WithMasks(cell: Note, m: Masks): Note {
    var v := if m.volumeMask then cell.(volume := m.lastVolume) else cell;
    var c := if m.commandMask then v.(command := m.lastCommand, parameter := m.lastParameter) else v;
    if m.instrumentMask then c.(instrument := m.lastInstrument) else c
  }

  /** Instruments are shown from 1 on; 0 stands for none. */
  function ShownInstrument(instrument: u8): int {
    if instrument == EMPTY_FIELD then 0 else instrument + 1
  }

  function StoredInstrument(shown: int): u8 {
    if shown == 0 then EMPTY_FIELD else Byte((if shown > 99 then 99 else shown) - 1)
  }

  /** The second digit of a volume as shown, by the kind of the volume. */
  function VolumeUnits(volume: u8): u8 {
    if volume == EMPTY_FIELD then 0
    else if volume < 65 then Byte(TruncatingMod(volume, 10))
    else if volume < 125 then Byte(TruncatingMod(volume - 65, 10))
    else if volume < 193 then Byte(TruncatingMod(volume - 128, 10))
    else if volume < 213 then Byte(TruncatingMod(volume - 193, 10))
    else 0
  }

  /** The volume with its second digit zero; a panning counts as a plain number. */
  function VolumeTens(volume: u8): u8 {
    if volume == EMPTY_FIELD then 0
    else if volume < 65 then Byte(TruncatingDiv(volume, 10) * 10)
    else if volume < 125 then Byte(TruncatingDiv(volume - 65, 10) * 10 + 65)
    else if volume < 193 then Byte(TruncatingDiv(volume - 128, 10) * 10)
    else if volume < 213 then Byte(TruncatingDiv(volume - 193, 10) * 10 + 193)
    else 0
  }

  function PlainOrPan(volume: u8, pan: bool): u8 {
    var v: u8 := if volume > 64 then 64 else volume;
    if pan then Byte(v + 128) else v
  }

  function SetVolume(s: Slot, volume: u8): Slot {
    Slot(s.cell.(volume := volume), s.masks.(lastVolume := volume))
  }

  predicate VolumeLetter(key: char) {
    '0' <= key <= '9' || 'A' <= key <= 'H'
  }

  function VolumeKey(s: Slot, key: char): Slot {
    var units := VolumeUnits(s.cell.volume) as int;
    if '0' <= key <= '9' then
      SetVolume(s, PlainOrPan(Byte((key as int - '0' as int) * 10 + units), s.masks.volumePanMode))
    else if 'A' <= key <= 'F' then SetVolume(s, Byte(65 + (key as int - 'A' as int) * 10 + units))
    else if 'G' <= key <= 'H' then SetVolume(s, Byte(193 + (key as int - 'G' as int) * 10 + units))
    else s
  }

  function VolumeDigit(s: Slot, digit: int): Slot {
    var tens := VolumeTens(s.cell.volume) as int;
    SetVolume(s, if tens < 65 then PlainOrPan(Byte(tens + digit), s.masks.volumePanMode) else Byte(tens + digit))
  }

  /** A new command or parameter is remembered together with the other one. */
  function SetCommand(s: Slot, command: u8, parameter: u8): Slot {
    Slot(s.cell.(command := command, parameter := parameter),
         s.masks.(lastCommand := command, lastParameter := parameter))
  }

  function SetInstrumentField(s: Slot, instrument: u8): Slot {
    Slot(s.cell.(instrument := instrument), s.masks.(lastInstrument := instrument))
  }

  function MaskWritten(s: Slot, field: Field): Slot {
    var m := s.masks;
    match field
    case NoteField => s.(cell := s.cell.(note := m.lastNote))
    case OctaveField => s
    case InstrumentField => s.(cell := s.cell.(instrument := m.lastInstrument))
    case VolumeField => s.(cell := s.cell.(volume := m.lastVolume))
    case _ => s.(cell := s.cell.(command := m.lastCommand, parameter := m.lastParameter))
  }

  function MaskRead(s: Slot, field: Field): Slot {
    var n, m := s.cell, s.masks;
    match field
    case NoteField => s.(masks := m.(lastNote := n.note))
    case OctaveField => s
    case InstrumentField => s.(masks := m.(lastInstrument := n.instrument))
    case VolumeField => s.(masks := m.(lastVolume := n.volume))
    case _ => s.(masks := m.(lastCommand := n.command, lastParameter := n.parameter))
  }

  /** Clearing a note clears the masked fields with it, but never the parameter. */
  function FieldCleared(s: Slot, field: Field): Slot {
    var m := s.masks;
    match field
    case NoteField =>
      var n := s.cell.(note := EMPTY_FIELD);
      var v := if m.volumeMask then n.(volume := EMPTY_FIELD) else n;
      var i := if m.instrumentMask then v.(instrument := EMPTY_FIELD) else v;
      Slot(if m.commandMask then i.(command := EMPTY_FIELD) else i, m.(lastNote := EMPTY_FIELD))
    case OctaveField => s
    case InstrumentField => SetInstrumentField(s, EMPTY_FIELD)
    case VolumeField => SetVolume(s, EMPTY_FIELD)
    case CommandField => SetCommand(s, EMPTY_FIELD, s.cell.parameter)
    case ParameterField => SetCommand(s, s.cell.command, 0)
  }

  function MaskToggled(m: Masks, field: Field): Masks {
    match field
    case InstrumentField => m.(instrumentMask := !m.instrumentMask)
    case VolumeField => m.(volumeMask := !m.volumeMask)
    case CommandField => m.(commandMask := !m.commandMask)
    case ParameterField => m.(commandMask := !m.commandMask)
    case _ => m
  }

  function OctaveSet(n: Note, digit: int): Note {
    if n.note >= NOTES then n else n.(note := Byte(digit * 12 + TruncatingMod(n.note, 12)))
  }

  function CommandOf(key: char): u8 {
    if 'A' <= key <= 'Z' then Byte(key as int - 'A' as int) else Byte(26 + (key as int - '0' as int))
  }

  function Entered(s: Slot, entry: Entry): Slot {
    var n, m := s.cell, s.masks;
    match entry
    case NoteValue(value) => Slot(WithMasks(n.(note := Byte(value)), m), m.(lastNote := Byte(value)))
    case Octave(digit) => s.(cell := OctaveSet(n, digit))
    case InstrumentTens(digit) =>
      SetInstrumentField(s, StoredInstrument(TruncatingMod(ShownInstrument(n.instrument), 10) + digit * 10))
    case InstrumentUnits(digit) =>
      SetInstrumentField(s, StoredInstrument(TruncatingDiv(ShownInstrument(n.instrument), 10) * 10 + digit))
    case VolumeFirst(key) => VolumeKey(s, key)
    case VolumeSecond(digit) => VolumeDigit(s, digit)
    case Command(key) => SetCommand(s, CommandOf(key), n.parameter)
    case ParameterHigh(digit) => SetCommand(s, n.command, Byte(digit * 0x10 + n.parameter % 0x10))
    case ParameterLow(digit) => SetCommand(s, n.command, Byte(digit + n.parameter / 0x10 * 0x10))
    case NoteOff(field) =>
      if field.NoteField? || field.OctaveField? then s.(cell := n.(note := OFF))
      else if field.VolumeField? then s.(masks := m.(volumePanMode := !m.volumePanMode))
      else s
    case NoteCut => s.(cell := n.(note := CUT))
    case WriteMask(field) => MaskWritten(s, field)
    case ReadMask(field) => MaskRead(s, field)
    case ClearField(field) => FieldCleared(s, field)
    case ToggleMask(field) => s.(masks := MaskToggled(m, field))
    case RaiseNote => s.(cell := n.Raise())
    case LowerNote => s.(cell := n.Lower())
    case SetInstrument(value) => s.(masks := m.(lastInstrument := Byte(value)))
  }

  /** Volumes and commands are read through the reference to the cell. */
  predicate ByReference(field: Field) {
    field.VolumeField? || field.CommandField? || field.ParameterField?
  }

  /** What is remembered after a field has been cleared, and the cell read again. */
  function MasksCleared(m: Masks, field: Field, seen: Note): Masks {
    match field
    case NoteField => m.(lastNote := seen.note)
    case OctaveField => m
    case InstrumentField => m.(lastInstrument := EMPTY_FIELD)
    case VolumeField => m.(lastVolume := EMPTY_FIELD)
    case _ => m.(lastCommand := seen.command, lastParameter := seen.parameter)
  }

  /**
   * What the editor remembers after an entry with the cursor past the end of the pattern. Nothing is written there, so
   * what it then reads is the cell as it was, and empty where it reads through the reference it writes to.
   */
  function MasksPast(s: Slot, entry: Entry): Masks {
    var n, m := s.cell, s.masks;
    match entry
    case NoteValue(_) => m.(lastNote := n.note)
    case Command(_) => m.(lastCommand := n.command, lastParameter := n.parameter)
    case ParameterHigh(_) => m.(lastCommand := n.command, lastParameter := n.parameter)
    case ParameterLow(_) => m.(lastCommand := n.command, lastParameter := n.parameter)
    case ReadMask(field) =>
      match field {
        case VolumeField => m.(lastVolume := EMPTY_FIELD)
        case CommandField => m.(lastCommand := EMPTY_FIELD, lastParameter := 0)
        case ParameterField => m.(lastCommand := EMPTY_FIELD, lastParameter := 0)
        case _ => MaskRead(s, field).masks
      }
    case ClearField(field) =>
      match field {
        case NoteField => m.(lastNote := n.note)
        case CommandField => m.(lastCommand := n.command, lastParameter := n.parameter)
        case ParameterField => m.(lastCommand := n.command, lastParameter := n.parameter)
        case _ => FieldCleared(s, field).masks
      }
    case _ => Entered(s, entry).masks
  }

  /** What the keyboard can enter: digits, hexadecimal digits, letters; and a note and an instrument a file can hold. */
  predicate Enterable(entry: Entry) {
    match entry
    case NoteValue(value) => 0 <= value < NOTES as int
    case Octave(digit) => 0 <= digit <= 9
    case InstrumentTens(digit) => 0 <= digit <= 9
    case InstrumentUnits(digit) => 0 <= digit <= 9
    case VolumeSecond(digit) => 0 <= digit <= 9
    case Command(key) => 'A' <= key <= 'Z' || '0' <= key <= '9'
    case ParameterHigh(digit) => 0 <= digit < 0x10
    case ParameterLow(digit) => 0 <= digit < 0x10
    case SetInstrument(value) => 0 <= value < 99 || value == EMPTY_FIELD as int
    case _ => true
  }

  /** The field at each place of the cursor in a cell. */
  function FieldAt(place: int): Field {
    if place <= 0 then NoteField
    else if place == 1 then OctaveField
    else if place <= 3 then InstrumentField
    else if place <= 5 then VolumeField
    else if place == 6 then CommandField
    else ParameterField
  }

  /** An entry that depends on the place of the cursor can be made at this one. */
  predicate FitsPlace(entry: Entry, place: int) {
    match entry
    case NoteOff(field) => FieldAt(place) == field
    case WriteMask(field) => FieldAt(place) == field
    case ReadMask(field) => FieldAt(place) == field
    case ClearField(field) => FieldAt(place) == field
    case ToggleMask(field) => FieldAt(place) == field
    case _ => true
  }

  /** A place of the cursor in the field. */
  function PlaceOf(field: Field): (place: int)
    ensures 0 <= place < 9 && FieldAt(place) == field
  {
    match field
    case NoteField => 0
    case OctaveField => 1
    case InstrumentField => 2
    case VolumeField => 4
    case CommandField => 6
    case ParameterField => 7
  }

  /** Where the cursor has to be for an entry. */
  function PlaceFor(entry: Entry): (place: int)
    ensures 0 <= place < 9 && FitsPlace(entry, place)
  {
    match entry
    case NoteOff(field) => PlaceOf(field)
    case WriteMask(field) => PlaceOf(field)
    case ReadMask(field) => PlaceOf(field)
    case ClearField(field) => PlaceOf(field)
    case ToggleMask(field) => PlaceOf(field)
    case _ => 0
  }

  /** A key that plays no note. */
  const NO_NOTE := 99

  /** The note of a key of the keyboard in an octave, as a byte; the highest note stands for those above it. */
  function KeyNote(increment: nat, octave: nat): int {
    var note := Byte(12 * octave + increment);
    if note >= NOTES then NOTES as int - 1 else note as int
  }

  function Number(key: char): int {
    key as int - '0' as int
  }

  predicate IsNumber(key: char) {
    '0' <= key <= '9'
  }

  predicate IsLetter(key: char) {
    'A' <= key <= 'Z'
  }

  predicate IsHexNumber(key: char) {
    IsNumber(key) || 'A' <= key <= 'F'
  }

  function HexNumber(key: char): int {
    if IsNumber(key) then Number(key) else 10 + (key as int - 'A' as int)
  }

  /** What a key enters, by the place of the cursor; the key plays the note the given number above the octave's C. */
  function KeyEntry(place: int, key: char, increment: nat, octave: nat): Option<Entry> {
    match place
    case 0 => if increment != NO_NOTE then Some(NoteValue(KeyNote(increment, octave))) else None
    case 1 => if IsNumber(key) then Some(Octave(Number(key))) else None
    case 2 => if IsNumber(key) then Some(InstrumentTens(Number(key))) else None
    case 3 => if IsNumber(key) then Some(InstrumentUnits(Number(key))) else None
    case 4 => if IsNumber(key) || IsLetter(key) then Some(VolumeFirst(key)) else None
    case 5 => if IsNumber(key) then Some(VolumeSecond(Number(key))) else None
    case 6 => if IsLetter(key) then Some(Command(key)) else None
    case 7 => if IsHexNumber(key) then Some(ParameterHigh(HexNumber(key))) else None
    case 8 => if IsHexNumber(key) then Some(ParameterLow(HexNumber(key))) else None
    case _ => None
  }

  /** Whatever is pressed, only what a file can hold is entered: no note is above the highest, no digit too large. */
  lemma KeysAreEnterable(place: int, key: char, increment: nat, octave: nat)
    ensures var entry := KeyEntry(place, key, increment, octave); entry.Some? ==> Enterable(entry.value)
    ensures 12 * octave + increment < 0x100 ==>
      KeyNote(increment, octave) == if 12 * octave + increment < 119 then 12 * octave + increment else 119
  {
  }

  predicate LegalMasks(m: Masks) {
    Legal(Note(m.lastNote, m.lastInstrument, m.lastVolume, m.lastCommand, m.lastParameter))
  }

  predicate LegalSlot(s: Slot) {
    Legal(s.cell) && LegalMasks(s.masks)
  }

  lemma ByteOf(x: int)
    requires -0x100 <= x < 0x200
    ensures Byte(x) == if x < 0 then x + 0x100 else if x < 0x100 then x else x - 0x100
  {
  }

  lemma Units(x: int)
    requires -9 <= x
    ensures if x < 0 then Byte(TruncatingMod(x, 10)) == x + 0x100 else 0 <= Byte(TruncatingMod(x, 10)) <= 9
  {
    hide TruncatingDiv, Byte;
    SmallQuotient(x, 10);
    ByteOf(TruncatingMod(x, 10));
  }

  /** The second digit is a digit, or just below zero for the volumes between the kinds. */
  lemma UnitsRange(volume: u8)
    ensures VolumeUnits(volume) <= 9 || (125 <= volume < 128 && 253 <= VolumeUnits(volume))
  {
    hide TruncatingMod, Byte;
    if volume < 65 {
      Units(volume);
    } else if volume < 125 {
      Units(volume - 65);
    } else if volume < 193 {
      Units(volume - 128);
    } else if volume < 213 {
      Units(volume - 193);
    }
  }

  /** The first digit times ten. */
  lemma Tens(x: int)
    requires -9 <= x
    ensures 0 <= TruncatingDiv(x, 10) * 10 && (0 <= x ==> x - 10 < TruncatingDiv(x, 10) * 10 <= x)
    ensures x < 10 ==> TruncatingDiv(x, 10) * 10 == 0
    ensures x < 65 ==> TruncatingDiv(x, 10) * 10 <= 60
    ensures x < 60 ==> TruncatingDiv(x, 10) * 10 <= 50
    ensures x < 20 ==> TruncatingDiv(x, 10) * 10 <= 10
  {
    hide TruncatingDiv;
    SmallQuotient(x, 10);
  }

  lemma TensRange(volume: u8)
    requires volume < 213 || volume == EMPTY_FIELD
    ensures VolumeTens(volume) <= 60 || 65 <= VolumeTens(volume) <= 115 || 193 <= VolumeTens(volume) <= 203
  {
    hide TruncatingDiv, Byte;
    if volume < 65 {
      Tens(volume);
      ByteOf(TruncatingDiv(volume, 10) * 10);
    } else if volume < 125 {
      Tens(volume - 65);
      ByteOf(TruncatingDiv(volume - 65, 10) * 10 + 65);
    } else if volume < 193 {
      Tens(volume - 128);
      ByteOf(TruncatingDiv(volume - 128, 10) * 10);
    } else if volume < 213 {
      Tens(volume - 193);
      ByteOf(TruncatingDiv(volume - 193, 10) * 10 + 193);
    }
  }

  lemma InstrumentRange(s: Slot, digit: int)
    requires Legal(s.cell) && 0 <= digit <= 9
    ensures LegalInstrument(Entered(s, InstrumentTens(digit)).cell.instrument)
    ensures LegalInstrument(Entered(s, InstrumentUnits(digit)).cell.instrument)
  {
    hide TruncatingDiv, StoredInstrument;
    var shown := ShownInstrument(s.cell.instrument);
    assert 0 <= shown <= 99;
    SmallQuotient(shown, 10);
    var q := TruncatingDiv(shown, 10);
    assert TruncatingMod(shown, 10) == shown - 10 * q;
    StoredRange(shown - 10 * q + digit * 10);
    StoredRange(q * 10 + digit);
  }

  lemma StoredRange(shown: int)
    requires 0 <= shown
    ensures LegalInstrument(StoredInstrument(shown))
  {
  }

  predicate LegalInstrument(instrument: u8) {
    instrument < 99 || instrument == EMPTY_FIELD
  }

  lemma PlainOrPanRange(volume: u8, pan: bool)
    ensures PlainOrPan(volume, pan) <= 64 || 128 <= PlainOrPan(volume, pan) <= 192
  {
  }

  lemma VolumeKeyRange(s: Slot, key: char)
    requires LegalSlot(s)
    ensures LegalSlot(VolumeKey(s, key))
  {
    hide VolumeUnits, Byte, PlainOrPan;
    var units := VolumeUnits(s.cell.volume) as int;
    UnitsRange(s.cell.volume);
    if '0' <= key <= '9' {
      PlainOrPanRange(Byte((key as int - '0' as int) * 10 + units), s.masks.volumePanMode);
    } else if 'A' <= key <= 'F' {
      ByteOf(65 + (key as int - 'A' as int) * 10 + units);
    } else if 'G' <= key <= 'H' {
      ByteOf(193 + (key as int - 'G' as int) * 10 + units);
    }
  }

  lemma VolumeDigitRange(s: Slot, digit: int)
    requires LegalSlot(s) && 0 <= digit <= 9
    ensures LegalSlot(VolumeDigit(s, digit))
  {
    hide VolumeTens, Byte, PlainOrPan;
    var tens := VolumeTens(s.cell.volume) as int;
    TensRange(s.cell.volume);
    PlainOrPanRange(Byte(tens + digit), s.masks.volumePanMode);
    ByteOf(tens + digit);
  }

  lemma OctaveRange(n: Note, digit: int)
    requires Legal(n) && 0 <= digit <= 9
    ensures Legal(OctaveSet(n, digit))
  {
    hide TruncatingDiv;
    if n.note < NOTES {
      SmallQuotient(n.note, 12);
    }
  }

  /** Everything that can be typed keeps the cell and the remembered values within what a pattern file can hold. */
  lemma EntryKeepsLegal(s: Slot, entry: Entry)
    requires LegalSlot(s) && Enterable(entry)
    ensures LegalSlot(Entered(s, entry))
  {
    hide OctaveSet, VolumeKey, VolumeDigit, TruncatingDiv, TruncatingMod, ShownInstrument, StoredInstrument,
      FieldCleared, MaskWritten, MaskRead, Byte, WithMasks;
    match entry {
      case NoteValue(value) => ByteOf(value); WithMasksLegal(s.cell.(note := value), s.masks);
      case Octave(digit) => OctaveRange(s.cell, digit);
      case InstrumentTens(digit) => InstrumentRange(s, digit);
      case InstrumentUnits(digit) => InstrumentRange(s, digit);
      case VolumeFirst(key) => VolumeKeyRange(s, key);
      case VolumeSecond(digit) => VolumeDigitRange(s, digit);
      case Command(key) => ByteOf(key as int - 'A' as int); ByteOf(26 + key as int - '0' as int);
      case WriteMask(field) => MasksLegal(s, field);
      case ReadMask(field) => MasksLegal(s, field);
      case ClearField(field) => MasksLegal(s, field);
      case SetInstrument(value) => ByteOf(value);
      case _ =>
    }
  }

  lemma MasksPastAreLegal(s: Slot, entry: Entry)
    requires LegalSlot(s) && Enterable(entry)
    ensures LegalMasks(MasksPast(s, entry))
  {
    hide Entered, MaskRead, FieldCleared;
    EntryKeepsLegal(s, entry);
    match entry {
      case ReadMask(field) => MasksLegal(s, field);
      case ClearField(field) => MasksLegal(s, field);
      case _ =>
    }
  }

  lemma WithMasksLegal(cell: Note, m: Masks)
    requires Legal(cell) && LegalMasks(m)
    ensures Legal(WithMasks(cell, m))
  {
  }

  lemma MasksLegal(s: Slot, field: Field)
    requires LegalSlot(s)
    ensures LegalSlot(MaskWritten(s, field)) && LegalSlot(MaskRead(s, field)) && LegalSlot(FieldCleared(s, field))
  {
  }

  /** set_instrument_mask_value accepts instruments a file cannot hold: exactly those the next note would lose. */
  lemma InstrumentMaskLegalIff(s: Slot, value: int, note: int)
    requires LegalSlot(s) && 0 <= note < NOTES as int && s.masks.instrumentMask
    requires 0 <= value < 200 || value == EMPTY_FIELD as int
    ensures Legal(Entered(Entered(s, SetInstrument(value)), NoteValue(note)).cell) <==>
      value < 99 || value == EMPTY_FIELD as int
  {
  }
}
