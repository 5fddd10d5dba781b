/** Instruments in .ct files: a saved instrument brings its samples along, renumbered. */
module Instruments {
  import opened BitMath
  import opened Notes
  import opened Options

  const MAX_SAMPLES := 200

  /** A sample slot of the song: its settings, its sound data, and whether it holds anything. */
  datatype Sample = Sample(settings: seq<int>, data: seq<int>, inUse: bool)

  /** A sample in a file; the data is there only if it is in use. */
  datatype SavedSample = SavedSample(settings: seq<int>, data: Option<seq<int>>)

  type Bank = b: seq<Sample> | |b| == MAX_SAMPLES witness Unused()

  function Unused(): seq<Sample> {
    seq(MAX_SAMPLES, _ => Sample([], [], false))
  }

  /** The sample numbers of the layers, note by note. */
  type Tables = seq<seq<int>>

  datatype SavedInstrument = SavedInstrument(tables: Tables, samples: Option<seq<SavedSample>>)

  predicate IsSample(n: int) {
    0 <= n < MAX_SAMPLES
  }

  predicate Square(t: Tables) {
    |t| == MAX_LAYERS && forall i | 0 <= i < MAX_LAYERS :: |t[i]| == NOTES as int
  }

  function Flat(t: Tables): seq<int> {
    if |t| == 0 then [] else Flat(t[..|t| - 1]) + t[|t| - 1]
  }

  /** The samples in the order of their first use. */
  function FirstUses(numbers: seq<int>): (table: seq<int>)
    ensures forall n :: n in table <==> n in numbers && IsSample(n)
    ensures forall i, j | 0 <= i < j < |table| :: table[i] != table[j]
    ensures forall k | 0 <= k < |table| :: IsSample(table[k])
  {
    if |numbers| == 0 then []
    else
      var before, n := FirstUses(numbers[..|numbers| - 1]), numbers[|numbers| - 1];
      assert numbers == numbers[..|numbers| - 1] + [n];
      if IsSample(n) && n !in before then before + [n] else before
  }

  function IndexOf(table: seq<int>, n: int): (k: int)
    ensures n in table ==> 0 <= k < |table| && table[k] == n
  {
    if |table| == 0 then -1 else if table[0] == n then 0 else 1 + IndexOf(table[1..], n)
  }

  function SavedNumber(table: seq<int>, n: int): int {
    if IsSample(n) then IndexOf(table, n) else n
  }

  function SavedAs(s: Sample): SavedSample {
    SavedSample(s.settings, if s.inUse then Some(s.data) else None)
  }

  function SavedRow(table: seq<int>, row: seq<int>): seq<int> {
    seq(|row|, j requires 0 <= j < |row| => SavedNumber(table, row[j]))
  }

  function SaveInstrument(t: Tables, bank: Bank): SavedInstrument {
    var table := FirstUses(Flat(t));
    SavedInstrument(
      seq(|t|, i requires 0 <= i < |t| => SavedRow(table, t[i])),
      Some(SavedSamples(table, bank)))
  }

  function SavedSamples(table: seq<int>, bank: Bank): seq<SavedSample>
    requires forall k | 0 <= k < |table| :: IsSample(table[k])
  {
    seq(|table|, k requires 0 <= k < |table| => assert IsSample(table[k]); SavedAs(bank[table[k]]))
  }

  /** The first slot not in use from slot i on, or -1. */
  function FirstFree(bank: Bank, i: nat): (slot: int)
    requires i <= MAX_SAMPLES
    ensures slot == -1 || (i <= slot < MAX_SAMPLES && !bank[slot].inUse)
    ensures slot == -1 <==> forall k | i <= k < MAX_SAMPLES :: bank[k].inUse
    decreases MAX_SAMPLES - i
  {
    if i == MAX_SAMPLES then -1 else if !bank[i].inUse then i else FirstFree(bank, i + 1)
  }

  function FreeSlots(bank: seq<Sample>): (n: nat)
    ensures n <= |bank|
  {
    if |bank| == 0 then 0 else (if bank[0].inUse then 0 else 1) + FreeSlots(bank[1..])
  }

  /** A sample without data leaves the slot's data alone, and the slot unused. */
  function LoadedInto(before: Sample, s: SavedSample): Sample {
    if s.data.Some? then Sample(s.settings, s.data.value, true) else Sample(s.settings, before.data, false)
  }

  datatype Allocation = Allocation(bank: Bank, slots: seq<int>) | NoSlot

  /** Every sample goes to the first slot that is not in use by then. */
  function Allocate(bank: Bank, samples: seq<SavedSample>): (a: Allocation)
    ensures a.Allocation? ==> |a.slots| == |samples| && forall k | 0 <= k < |a.slots| :: IsSample(a.slots[k])
    decreases |samples|
  {
    if |samples| == 0 then Allocation(bank, [])
    else
      var slot := FirstFree(bank, 0);
      if slot == -1 then NoSlot
      else
        match Allocate(bank[slot := LoadedInto(bank[slot], samples[0])], samples[1..])
        case NoSlot => NoSlot
        case Allocation(b, slots) => Allocation(b, [slot] + slots)
  }

  function LoadedNumber(slots: seq<int>, n: int): int {
    if 0 <= n < |slots| then slots[n] else EMPTY_FIELD as int
  }

  predicate AllInUse(samples: seq<SavedSample>) {
    forall k | 0 <= k < |samples| :: samples[k].data.Some?
  }

  lemma {:induction false} FreeSlotsOfUpdate(bank: seq<Sample>, slot: nat, s: Sample)
    requires slot < |bank| && !bank[slot].inUse
    ensures FreeSlots(bank[slot := s]) == FreeSlots(bank) - if s.inUse then 1 else 0
  {
    var after := bank[slot := s];
    if slot > 0 {
      FreeSlotsOfUpdate(bank[1..], slot - 1, s);
      assert after[1..] == bank[1..][slot - 1 := s];
    } else {
      assert after[1..] == bank[1..];
    }
  }

  lemma {:induction false} NoFreeSlots(bank: seq<Sample>)
    ensures FreeSlots(bank) == 0 <==> forall k | 0 <= k < |bank| :: bank[k].inUse
  {
    if |bank| == 0 {
    } else {
      NoFreeSlots(bank[1..]);
      assert forall k | 0 < k < |bank| :: bank[k] == bank[1..][k - 1];
    }
  }

  lemma {:induction false} EnoughSlotsIff(bank: Bank, samples: seq<SavedSample>)
    requires AllInUse(samples)
    ensures Allocate(bank, samples).Allocation? <==> |samples| <= FreeSlots(bank)
    decreases |samples|
  {
    if |samples| == 0 {
    } else {
      var slot := FirstFree(bank, 0);
      NoFreeSlots(bank);
      if slot != -1 {
        var next := bank[slot := LoadedInto(bank[slot], samples[0])];
        FreeSlotsOfUpdate(bank, slot, next[slot]);
        EnoughSlotsIff(next, samples[1..]);
      }
    }
  }

  /** Each sample is in its slot, which was free. */
  predicate InSlots(bank: Bank, samples: seq<SavedSample>, after: Bank, slots: seq<int>) {
    && |slots| == |samples|
    && forall k | 0 <= k < |slots| ::
      && IsSample(slots[k]) && !bank[slots[k]].inUse
      && samples[k].data.Some? && after[slots[k]] == Sample(samples[k].settings, samples[k].data.value, true)
  }

  predicate AllDifferent(slots: seq<int>) {
    forall i, j | 0 <= i < j < |slots| :: slots[i] != slots[j]
  }

  predicate Untouched(bank: Bank, after: Bank, slots: seq<int>) {
    forall s | 0 <= s < MAX_SAMPLES && s !in slots :: after[s] == bank[s]
  }

  /** Samples in use get slots of their own, all of them free before; nothing else changes. */
  lemma {:induction false} AllocationIsSafe(bank: Bank, samples: seq<SavedSample>)
    requires AllInUse(samples)
    ensures var a := Allocate(bank, samples); a.Allocation? ==>
      InSlots(bank, samples, a.bank, a.slots) && AllDifferent(a.slots) && Untouched(bank, a.bank, a.slots)
    decreases |samples|
  {
    hide InSlots, AllDifferent, Untouched, FreeSlots;
    var a := Allocate(bank, samples);
    if |samples| == 0 {
      NothingAllocated(bank);
    } else if a.Allocation? {
      var slot := FirstFree(bank, 0);
      var next := bank[slot := LoadedInto(bank[slot], samples[0])];
      AllocationIsSafe(next, samples[1..]);
      OneMoreSlot(bank, samples, slot, next, Allocate(next, samples[1..]));
    }
  }

  lemma NothingAllocated(bank: Bank)
    ensures InSlots(bank, [], bank, []) && AllDifferent([]) && Untouched(bank, bank, [])
  {
  }

  lemma OneMoreSlot(bank: Bank, samples: seq<SavedSample>, slot: int, next: Bank, a: Allocation)
    requires |samples| > 0 && AllInUse(samples) && IsSample(slot) && !bank[slot].inUse
    requires next == bank[slot := LoadedInto(bank[slot], samples[0])]
    requires a.Allocation? && InSlots(next, samples[1..], a.bank, a.slots)
    requires AllDifferent(a.slots) && Untouched(next, a.bank, a.slots)
    ensures var slots := [slot] + a.slots;
      InSlots(bank, samples, a.bank, slots) && AllDifferent(slots) && Untouched(bank, a.bank, slots)
  {
    assert next[slot].inUse;
    assert slot !in a.slots;
    var slots := [slot] + a.slots;
    assert forall k | 1 <= k < |slots| :: slots[k] == a.slots[k - 1] && samples[k] == samples[1..][k - 1];
    forall s | 0 <= s < MAX_SAMPLES && s !in slots
      ensures a.bank[s] == bank[s]
    {
      assert s !in a.slots && s != slot;
    }
  }

  /** A sample saved without being in use leaves its slot unused, and the next sample of the table goes there too. */
  lemma SharedSlot(bank: Bank, samples: seq<SavedSample>)
    requires |samples| > 1 && samples[0].data.None? && Allocate(bank, samples).Allocation?
    ensures var slots := Allocate(bank, samples).slots; slots[0] == slots[1]
  {
    var slot := FirstFree(bank, 0);
    var next := bank[slot := LoadedInto(bank[slot], samples[0])];
    FirstFreeAgain(bank, slot, next[slot], 0);
    assert Allocate(bank, samples).slots[1] == Allocate(next, samples[1..]).slots[0];
  }

  lemma {:induction false} FirstFreeAgain(bank: Bank, slot: nat, s: Sample, i: nat)
    requires i <= slot < MAX_SAMPLES && FirstFree(bank, i) == slot && !s.inUse
    ensures FirstFree(bank[slot := s], i) == slot
    decreases slot - i
  {
    if bank[i].inUse {
      FirstFreeAgain(bank, slot, s, i + 1);
    }
  }

  lemma NotDifferent(slots: seq<int>, samples: seq<SavedSample>)
    requires |slots| == |samples| > 1 && slots[0] == slots[1] && samples[0].data.None?
    ensures !AllDifferent(slots) && !AllInUse(samples[..|samples| - 1])
  {
    assert samples[..|samples| - 1][0].data.None?;
  }

  /** Different samples get different slots exactly when all of them but the last are in use. */
  lemma {:induction false} DifferentSlotsIff(bank: Bank, samples: seq<SavedSample>)
    requires |samples| > 0 && Allocate(bank, samples).Allocation?
    ensures AllDifferent(Allocate(bank, samples).slots) <==> AllInUse(samples[..|samples| - 1])
    decreases |samples|
  {
    hide AllDifferent, AllInUse;
    var slot := FirstFree(bank, 0);
    var next := bank[slot := LoadedInto(bank[slot], samples[0])];
    var slots, rest := Allocate(bank, samples).slots, Allocate(next, samples[1..]);
    assert slots == [slot] + rest.slots;
    if |samples| == 1 {
      OneSlot(slots, samples);
    } else {
      DifferentSlotsIff(next, samples[1..]);
      if samples[0].data.None? {
        SharedSlot(bank, samples);
        NotDifferent(slots, samples);
      } else {
        NeverReused(next, samples[1..], slot);
        DifferentPrefix(slot, rest.slots, samples);
      }
    }
  }

  lemma OneSlot(slots: seq<int>, samples: seq<SavedSample>)
    requires |slots| == |samples| == 1
    ensures AllDifferent(slots) && AllInUse(samples[..|samples| - 1])
  {
  }

  lemma DifferentPrefix(slot: int, rest: seq<int>, samples: seq<SavedSample>)
    requires slot !in rest && |samples| > 1 && samples[0].data.Some?
    ensures AllDifferent([slot] + rest) <==> AllDifferent(rest)
    ensures AllInUse(samples[..|samples| - 1]) <==> AllInUse(samples[1..][..|samples| - 2])
  {
    var slots, init := [slot] + rest, samples[..|samples| - 1];
    assert forall k | 1 <= k < |slots| :: slots[k] == rest[k - 1];
    assert forall k | 0 <= k < |rest| :: rest[k] == slots[k + 1];
    assert init[1..] == samples[1..][..|samples| - 2];
    assert forall k | 1 <= k < |init| :: init[k] == init[1..][k - 1];
  }

  /** A slot in use is never allocated, and keeps its sample. */
  lemma {:induction false} NeverReused(bank: Bank, samples: seq<SavedSample>, slot: int)
    requires IsSample(slot) && bank[slot].inUse
    ensures var a := Allocate(bank, samples); a.Allocation? ==> slot !in a.slots && a.bank[slot] == bank[slot]
    decreases |samples|
  {
    if |samples| > 0 && FirstFree(bank, 0) != -1 {
      var free := FirstFree(bank, 0);
      NeverReused(bank[free := LoadedInto(bank[free], samples[0])], samples[1..], slot);
    }
  }

  function LoadedRow(slots: seq<int>, row: seq<int>): seq<int> {
    seq(|row|, j requires 0 <= j < |row| => LoadedNumber(slots, row[j]))
  }

  lemma {:induction false} InFlat(t: Tables, i: nat, j: nat)
    requires i < |t| && j < |t[i]|
    ensures t[i][j] in Flat(t)
  {
    if i < |t| - 1 {
      InFlat(t[..|t| - 1], i, j);
    }
  }

  /** The sample a note of a layer had, and the one it has after saving and loading. */
  predicate SameSound(from: Bank, n: int, into: Bank, after: Bank, m: int) {
    if IsSample(n) then IsSample(m) && after[m] == from[n] && !into[m].inUse else m == EMPTY_FIELD as int
  }

  /**
   * Saving an instrument and loading it into a song with enough free slots: every note of every layer plays an equal
   * sample, notes without a sample stay without one, and no sample of the song is overwritten.
   */
  lemma SavedInstrumentSoundsTheSame(t: Tables, from: Bank, into: Bank)
    requires forall n | n in Flat(t) && IsSample(n) :: from[n].inUse
    requires |FirstUses(Flat(t))| <= FreeSlots(into)
    ensures var saved := SaveInstrument(t, from);
      var a := Allocate(into, saved.samples.value);
      && a.Allocation?
      && (forall i, j | 0 <= i < |t| && 0 <= j < |t[i]| ::
            SameSound(from, t[i][j], into, a.bank, LoadedRow(a.slots, saved.tables[i])[j]))
      && AllDifferent(a.slots)
      && (forall s | 0 <= s < MAX_SAMPLES && into[s].inUse :: a.bank[s] == into[s])
  {
    hide FreeSlots, Flat, Allocate;
    var table, saved := FirstUses(Flat(t)), SaveInstrument(t, from);
    var samples := saved.samples.value;
    TableIsInUse(table, from);
    EnoughSlotsIff(into, samples);
    AllocationIsSafe(into, samples);
    var a := Allocate(into, samples);
    forall i, j | 0 <= i < |t| && 0 <= j < |t[i]|
      ensures SameSound(from, t[i][j], into, a.bank, LoadedRow(a.slots, saved.tables[i])[j])
    {
      InFlat(t, i, j);
      OneSound(table, from, into, a, t[i][j]);
    }
    assert forall s | 0 <= s < MAX_SAMPLES && into[s].inUse :: s !in a.slots;
  }

  lemma TableIsInUse(table: seq<int>, from: Bank)
    requires forall k | 0 <= k < |table| :: IsSample(table[k]) && from[table[k]].inUse
    ensures AllInUse(SavedSamples(table, from))
  {
  }

  lemma OneSound(table: seq<int>, from: Bank, into: Bank, a: Allocation, n: int)
    requires (IsSample(n) ==> n in table) && |table| <= MAX_SAMPLES
    requires a.Allocation? && |a.slots| == |table|
    requires forall k | 0 <= k < |table| ::
      IsSample(table[k]) && IsSample(a.slots[k]) && !into[a.slots[k]].inUse && a.bank[a.slots[k]] == from[table[k]]
    ensures SameSound(from, n, into, a.bank, LoadedNumber(a.slots, SavedNumber(table, n)))
  {
  }

  ghost function Below(n: nat): (s: set<int>)
    ensures |s| == n && forall k :: k in s <==> 0 <= k < n
  {
    if n == 0 then {} else Below(n - 1) + {n - 1}
  }

  lemma {:induction false} DifferentSize(table: seq<int>)
    requires AllDifferent(table)
    ensures |set n | n in table| == |table|
  {
    if |table| == 0 {
    } else {
      var init, last := table[..|table| - 1], table[|table| - 1];
      DifferentSize(init);
      assert table == init + [last];
      assert (set n | n in table) == (set n | n in init) + {last};
    }
  }

  lemma Subset(a: set<int>, b: set<int>)
    requires a <= b
    ensures |a| <= |b|
  {
    assert b == a + (b - a);
  }

  /** What is saved can be loaded: the tables keep their shape, and every number fits into a byte. */
  lemma SavedTablesFit(t: Tables, from: Bank)
    requires Square(t) && forall i, j | 0 <= i < MAX_LAYERS && 0 <= j < NOTES as int :: 0 <= t[i][j] < 0x100
    ensures var saved := SaveInstrument(t, from);
      && Square(saved.tables)
      && forall i, j | 0 <= i < MAX_LAYERS && 0 <= j < NOTES as int :: 0 <= saved.tables[i][j] < 0x100
  {
    hide Flat;
    var table, saved := FirstUses(Flat(t)), SaveInstrument(t, from);
    DifferentSize(table);
    Subset((set n | n in table), Below(MAX_SAMPLES));
    forall i, j | 0 <= i < MAX_LAYERS && 0 <= j < NOTES as int
      ensures 0 <= saved.tables[i][j] < 0x100
    {
      InFlat(t, i, j);
      assert saved.tables[i][j] == SavedNumber(table, t[i][j]);
    }
  }

  class Instrument {
    const sampleNumber: array2<u8>

    constructor ()
      ensures sampleNumber.Length0 == MAX_LAYERS && sampleNumber.Length1 == NOTES as int && fresh(sampleNumber)
    {
      sampleNumber := new u8[MAX_LAYERS, NOTES as int]((_, _) => EMPTY_FIELD);
    }

    predicate Valid() {
      sampleNumber.Length0 == MAX_LAYERS && sampleNumber.Length1 == NOTES as int
    }

    function Row(i: nat): (row: seq<int>)
      requires Valid() && i < MAX_LAYERS
      reads sampleNumber
      ensures |row| == NOTES as int
    {
      seq(NOTES as int, j requires 0 <= j < NOTES as int && Valid() reads sampleNumber => sampleNumber[i, j] as int)
    }

    lemma RowCell(i: nat, j: nat)
      requires Valid() && i < MAX_LAYERS && j < NOTES as int
      ensures Row(i)[j] == sampleNumber[i, j] as int
    {
    }

    function Contents(): (t: Tables)
      requires Valid()
      reads sampleNumber
      ensures Square(t)
    {
      [Row(0), Row(1), Row(2), Row(3)]
    }
  }

  lemma {:induction false} FlatPrefix(t: Tables, i: nat)
    requires i < |t|
    ensures Flat(t[..i + 1]) == Flat(t[..i]) + t[i]
  {
    assert t[..i + 1][..i] == t[..i];
  }

  lemma FirstUsesStep(numbers: seq<int>, n: int)
    ensures var before := FirstUses(numbers);
      FirstUses(numbers + [n]) == if IsSample(n) && n !in before then before + [n] else before
  {
    assert (numbers + [n])[..|numbers|] == numbers;
  }

  /** gotIt says which samples the table has. */
  predicate Tells(gotIt: array<bool>, table: seq<int>)
    reads gotIt
  {
    gotIt.Length == MAX_SAMPLES && forall s | 0 <= s < MAX_SAMPLES :: gotIt[s] <==> s in table
  }

  method AddSample(sample: int, gotIt: array<bool>, table: seq<int>) returns (longer: seq<int>)
    requires Tells(gotIt, table)
    modifies gotIt
    ensures Tells(gotIt, longer)
    ensures longer == if IsSample(sample) && sample !in table then table + [sample] else table
  {
    longer := table;
    if sample < 0 || sample >= MAX_SAMPLES || gotIt[sample] {
      return;
    }
    longer := longer + [sample];
    gotIt[sample] := true;
  }

  /** The samples of one more layer, as far as they are new. */
  method AddRow(instrument: Instrument, i: nat, gotIt: array<bool>, table: seq<int>, ghost before: seq<int>)
    returns (longer: seq<int>)
    requires instrument.Valid() && i < MAX_LAYERS && Tells(gotIt, table) && table == FirstUses(before)
    modifies gotIt
    ensures Tells(gotIt, longer) && longer == FirstUses(before + instrument.Row(i))
  {
    hide FirstUses, Instrument.Row, Tells;
    longer := table;
    ghost var row := instrument.Row(i);
    assert before + row[..0] == before;
    for j := 0 to NOTES as int
      invariant Tells(gotIt, longer) && longer == FirstUses(before + row[..j])
    {
      var sample := instrument.sampleNumber[i, j] as int;
      instrument.RowCell(i, j);
      FirstUsesStep(before + row[..j], sample);
      assert before + row[..j + 1] == before + row[..j] + [sample];
      longer := AddSample(sample, gotIt, longer);
    }
    assert row[..NOTES as int] == row;
  }

  /** The samples the instrument uses, each once. */
  method BuildTable(instrument: Instrument) returns (table: seq<int>)
    requires instrument.Valid()
    ensures table == FirstUses(Flat(instrument.Contents()))
  {
    hide FirstUses, Flat;
    var gotIt := new bool[MAX_SAMPLES](_ => false);
    table := [];
    ghost var t := instrument.Contents();
    NothingUsed(t);
    for i := 0 to MAX_LAYERS
      invariant Tells(gotIt, table) && table == FirstUses(Flat(t[..i]))
    {
      table := AddRow(instrument, i, gotIt, table, Flat(t[..i]));
      FlatPrefix(t, i);
    }
    assert t[..MAX_LAYERS] == t;
  }

  lemma NothingUsed(t: Tables)
    ensures FirstUses(Flat(t[..0])) == []
  {
  }

  method FindIndex(table: seq<int>, n: int) returns (k: int)
    requires n in table
    ensures k == IndexOf(table, n)
  {
    for i := 0 to |table|
      invariant n in table[i..]
      invariant IndexOf(table, n) == i + IndexOf(table[i..], n)
    {
      assert table[i..][1..] == table[i + 1..];
      if table[i] == n {
        return i;
      }
    }
  }

  /** get_dds_from_instrument: with its samples, renumbered, or without them. */
  method GetDdsFromInstrument(instrument: Instrument, bank: array<Sample>, includeSamples: bool)
    returns (saved: SavedInstrument)
    requires instrument.Valid() && bank.Length == MAX_SAMPLES
    ensures saved ==
      if includeSamples then SaveInstrument(instrument.Contents(), bank[..])
      else SavedInstrument(instrument.Contents(), None)
  {
    hide FirstUses, Flat;
    ghost var t := instrument.Contents();
    if !includeSamples {
      var rows: Tables := [];
      for i := 0 to MAX_LAYERS
        invariant rows == t[..i]
      {
        rows := rows + [instrument.Row(i)];
      }
      return SavedInstrument(rows, None);
    }
    var table := BuildTable(instrument);
    ghost var expected := SaveInstrument(t, bank[..]);
    var rows: Tables := [];
    for i := 0 to MAX_LAYERS
      invariant rows == expected.tables[..i]
    {
      var row := SaveRow(instrument, i, table);
      rows := rows + [row];
    }
    var samples: seq<SavedSample> := [];
    for k := 0 to |table|
      invariant |samples| == k && forall l | 0 <= l < k :: samples[l] == SavedAs(bank[table[l]])
    {
      var sample := bank[table[k]];
      samples := samples + [SavedSample(sample.settings, if sample.inUse then Some(sample.data) else None)];
    }
    saved := SavedInstrument(rows, Some(samples));
    assert samples == SavedSamples(table, bank[..]);
  }

  method SaveRow(instrument: Instrument, i: nat, table: seq<int>) returns (row: seq<int>)
    requires instrument.Valid() && i < MAX_LAYERS && table == FirstUses(Flat(instrument.Contents()))
    ensures row == SavedRow(table, instrument.Row(i))
  {
    hide FirstUses, Flat, IndexOf;
    row := [];
    for j := 0 to NOTES as int
      invariant row == SavedRow(table, instrument.Row(i))[..j]
    {
      var sample := instrument.sampleNumber[i, j] as int;
      if sample < 0 || sample >= MAX_SAMPLES {
        row := row + [sample];
      } else {
        InFlat(instrument.Contents(), i, j);
        var k := FindIndex(table, sample);
        row := row + [k];
      }
    }
  }

  method FindUnusedSampleSlot(bank: array<Sample>) returns (slot: int)
    requires bank.Length == MAX_SAMPLES
    ensures slot == FirstFree(bank[..], 0)
  {
    for i := 0 to MAX_SAMPLES
      invariant FirstFree(bank[..], 0) == FirstFree(bank[..], i)
    {
      if !bank[i].inUse {
        return i;
      }
    }
    slot := -1;
  }

  function Prepended(slots: seq<int>, a: Allocation): Allocation {
    if a.NoSlot? then NoSlot else Allocation(a.bank, slots + a.slots)
  }

  lemma AllocateOne(bank: Bank, samples: seq<SavedSample>, k: nat, slots: seq<int>)
    requires k < |samples| && FirstFree(bank, 0) != -1
    ensures var slot := FirstFree(bank, 0);
      Prepended(slots, Allocate(bank, samples[k..])) ==
      Prepended(slots + [slot], Allocate(bank[slot := LoadedInto(bank[slot], samples[k])], samples[k + 1..]))
  {
    assert samples[k..][1..] == samples[k + 1..];
    var slot := FirstFree(bank, 0);
    var a := Allocate(bank[slot := LoadedInto(bank[slot], samples[k])], samples[k + 1..]);
    if a.Allocation? {
      assert slots + ([slot] + a.slots) == slots + [slot] + a.slots;
    }
  }

  /** Loads the samples into the song; without a free slot the original has undefined behaviour. */
  method LoadSamples(samples: seq<SavedSample>, bank: array<Sample>) returns (slots: seq<int>, ok: bool)
    requires bank.Length == MAX_SAMPLES
    modifies bank
    ensures var a := Allocate(old(bank[..]), samples);
      ok == a.Allocation? && (ok ==> Allocation(bank[..], slots) == a)
  {
    hide FirstFree, Allocate;
    slots := [];
    assert samples[0..] == samples;
    ghost var whole := Allocate(bank[..], samples);
    assert Prepended([], whole) == whole by {
      if whole.Allocation? {
        assert [] + whole.slots == whole.slots;
      }
    }
    for k := 0 to |samples|
      invariant Prepended(slots, Allocate(bank[..], samples[k..])) == whole
    {
      ghost var before: Bank := bank[..];
      var slot := FindUnusedSampleSlot(bank);
      if slot == -1 {
        NowhereToGo(before, samples[k..]);
        return slots, false;
      }
      AllocateOne(before, samples, k, slots);
      FirstFreeIsASlot(before);
      var data := if samples[k].data.Some? then samples[k].data.value else bank[slot].data;
      bank[slot] := Sample(samples[k].settings, data, samples[k].data.Some?);
      assert bank[..] == before[slot := LoadedInto(before[slot], samples[k])];
      slots := slots + [slot];
    }
    NothingToAllocate(bank[..], samples[|samples|..]);
    ok := true;
  }

  lemma NothingToAllocate(bank: Bank, samples: seq<SavedSample>)
    requires |samples| == 0
    ensures Allocate(bank, samples) == Allocation(bank, [])
  {
  }

  lemma NowhereToGo(bank: Bank, samples: seq<SavedSample>)
    requires |samples| > 0 && FirstFree(bank, 0) == -1
    ensures Allocate(bank, samples) == NoSlot
  {
  }

  lemma FirstFreeIsASlot(bank: Bank)
    ensures FirstFree(bank, 0) == -1 || IsSample(FirstFree(bank, 0))
  {
  }

  /** set_dds_to_instrument for what get_dds_from_instrument saves: its sample tables, and its samples if it has any. */
  method SetDdsToInstrument(saved: SavedInstrument, instrument: Instrument, bank: array<Sample>) returns (ok: bool)
    requires instrument.Valid() && bank.Length == MAX_SAMPLES && Square(saved.tables)
    requires forall i, j | 0 <= i < MAX_LAYERS && 0 <= j < NOTES as int :: 0 <= saved.tables[i][j] < 0x100
    modifies bank, instrument.sampleNumber
    ensures saved.samples.None? ==> ok && bank[..] == old(bank[..]) && instrument.Contents() == saved.tables
    ensures saved.samples.Some? ==>
      var a := Allocate(old(bank[..]), saved.samples.value);
      && ok == a.Allocation?
      && (ok ==> bank[..] == a.bank)
      && (ok ==> forall i | 0 <= i < MAX_LAYERS :: instrument.Row(i) == LoadedRow(a.slots, saved.tables[i]))
  {
    hide Allocate;
    var slots: seq<int> := [];
    ok := true;
    if saved.samples.Some? {
      slots, ok := LoadSamples(saved.samples.value, bank);
      if !ok {
        return;
      }
    }
    ghost var after := bank[..];
    for i := 0 to MAX_LAYERS
      invariant bank[..] == after
      invariant forall k, j | 0 <= k < i && 0 <= j < NOTES as int ::
        instrument.sampleNumber[k, j] as int == NumberIn(saved, slots, saved.tables[k][j])
    {
      for j := 0 to NOTES as int
        invariant bank[..] == after
        invariant forall k, l | 0 <= k < i && 0 <= l < NOTES as int ::
          instrument.sampleNumber[k, l] as int == NumberIn(saved, slots, saved.tables[k][l])
        invariant forall l | 0 <= l < j ::
          instrument.sampleNumber[i, l] as int == NumberIn(saved, slots, saved.tables[i][l])
      {
        var sample := saved.tables[i][j];
        if saved.samples.Some? {
          if sample < 0 || sample >= |slots| {
            instrument.sampleNumber[i, j] := EMPTY_FIELD;
          } else {
            instrument.sampleNumber[i, j] := slots[sample];
          }
        } else {
          instrument.sampleNumber[i, j] := sample;
        }
      }
    }
    if saved.samples.None? {
      assert forall k | 0 <= k < MAX_LAYERS :: instrument.Row(k) == saved.tables[k];
      assert instrument.Contents() == saved.tables;
    } else {
      assert forall k | 0 <= k < MAX_LAYERS :: instrument.Row(k) == LoadedRow(slots, saved.tables[k]);
    }
  }

  function NumberIn(saved: SavedInstrument, slots: seq<int>, n: int): int {
    if saved.samples.Some? then LoadedNumber(slots, n) else n
  }

  /**
   * An instrument that goes through a file into a song, the same one or another, with enough free slots: every note of
   * every layer finds an equal sample, and the samples in use are left alone.
   */
  method CopyInstrument(instrument: Instrument, bank: array<Sample>, copy: Instrument, into: array<Sample>)
    requires instrument.Valid() && copy.Valid() && bank.Length == into.Length == MAX_SAMPLES
    requires forall n | n in Flat(instrument.Contents()) && IsSample(n) :: bank[n].inUse
    requires |FirstUses(Flat(instrument.Contents()))| <= FreeSlots(into[..])
    modifies into, copy.sampleNumber
    ensures forall i, j | 0 <= i < MAX_LAYERS && 0 <= j < NOTES as int ::
      SameSound(old(bank[..]), old(instrument.Row(i)[j]), old(into[..]), into[..], copy.Row(i)[j])
    ensures forall s | 0 <= s < MAX_SAMPLES && old(into[s].inUse) :: into[s] == old(into[s])
  {
    hide Flat, Allocate, SaveInstrument, SameSound, FirstUses, FreeSlots, LoadedRow;
    ghost var t, from, before := instrument.Contents(), bank[..], into[..];
    var saved := GetDdsFromInstrument(instrument, bank, true);
    SavedHasSamples(t, from);
    SavedTablesFit(t, from);
    SavedInstrumentSoundsTheSame(t, from, before);
    var ok := SetDdsToInstrument(saved, copy, into);
    forall i, j | 0 <= i < MAX_LAYERS && 0 <= j < NOTES as int
      ensures SameSound(from, old(instrument.Row(i)[j]), before, into[..], copy.Row(i)[j])
    {
      assert t[i] == old(instrument.Row(i));
    }
  }

  lemma SavedHasSamples(t: Tables, bank: Bank)
    ensures SaveInstrument(t, bank).samples.Some?
  {
  }

  /** Of two samples in the table, the one used first comes first. */
  lemma {:induction false} TableIsByFirstUse(numbers: seq<int>, p: nat, q: nat) returns (i: nat)
    requires p < q < |FirstUses(numbers)|
    ensures i < |numbers| && numbers[i] == FirstUses(numbers)[p] && FirstUses(numbers)[q] !in numbers[..i + 1]
  {
    var before, n := FirstUses(numbers[..|numbers| - 1]), numbers[|numbers| - 1];
    if q < |before| {
      i := TableIsByFirstUse(numbers[..|numbers| - 1], p, q);
      assert numbers[..|numbers| - 1][..i + 1] == numbers[..i + 1];
    } else {
      assert FirstUses(numbers) == before + [n];
      assert before[p] in numbers[..|numbers| - 1];
      i :| 0 <= i < |numbers| - 1 && numbers[i] == before[p];
      assert numbers[..|numbers| - 1][..i + 1] == numbers[..i + 1];
    }
  }

  /** Layer by layer, and within a layer note by note. */
  lemma {:induction false} FlatIsInOrder(t: Tables, i: nat, j: nat)
    requires i < |t| && j < 120 && forall k | 0 <= k < |t| :: |t[k]| == 120
    ensures |Flat(t)| == 120 * |t| && Flat(t)[120 * i + j] == t[i][j]
    decreases |t|
  {
    var init := t[..|t| - 1];
    FlatLength(init);
    if i < |init| {
      FlatIsInOrder(init, i, j);
    }
  }

  lemma {:induction false} FlatLength(t: Tables)
    requires forall k | 0 <= k < |t| :: |t[k]| == 120
    ensures |Flat(t)| == 120 * |t|
  {
    if |t| == 0 {
    } else {
      FlatLength(t[..|t| - 1]);
    }
  }

  /** All slots before the first free one are in use. */
  lemma {:induction false} FirstFreeIsFirst(bank: Bank, i: nat, k: nat)
    requires i <= k < MAX_SAMPLES && (FirstFree(bank, i) == -1 || k < FirstFree(bank, i))
    ensures bank[k].inUse
    decreases MAX_SAMPLES - i
  {
    if i < k {
      FirstFreeIsFirst(bank, i + 1, k);
    }
  }

  lemma FirstAllocated(bank: Bank, samples: seq<SavedSample>)
    requires AllInUse(samples) && Allocate(bank, samples).Allocation? && 0 < |samples|
    ensures
      var first := FirstFree(bank, 0);
      && 0 <= first < MAX_SAMPLES && AllInUse(samples[1..])
      && var next := bank[first := LoadedInto(bank[first], samples[0])];
         var rest := Allocate(next, samples[1..]);
         && rest.Allocation? && Allocate(bank, samples).slots == [first] + rest.slots
         && forall k | 0 <= k < MAX_SAMPLES && k != first :: next[k] == bank[k]
  {
  }

  /** The samples of a file take the free slots of the song in turn, and leave none out. */
  lemma {:induction false} SlotsAreTakenInTurn(bank: Bank, samples: seq<SavedSample>, k: nat, slot: nat)
    requires AllInUse(samples) && Allocate(bank, samples).Allocation? && k < |samples|
    requires slot < Allocate(bank, samples).slots[k]
    ensures bank[slot].inUse || slot in Allocate(bank, samples).slots[..k]
    decreases |samples|
  {
    hide Allocate, FirstFree, AllInUse;
    FirstAllocated(bank, samples);
    var first := FirstFree(bank, 0);
    var next := bank[first := LoadedInto(bank[first], samples[0])];
    var slots, rest := Allocate(bank, samples).slots, Allocate(next, samples[1..]).slots;
    if k == 0 {
      FirstFreeIsFirst(bank, 0, slot);
    } else {
      SlotsAreTakenInTurn(next, samples[1..], k - 1, slot);
      assert slots[..k] == [first] + rest[..k - 1];
    }
  }
}
