/** The editor's undo list: at most ten snapshots, the newest first. */
module EditorUndo {
  import opened PatternStore

  const MAX_UNDO_OPERATIONS := 10

  /** What an undo entry stands for: a pattern as it was, seen as a V. */
  datatype Snapshot<V> = Snapshot(description: string, index: int, view: V)

  type History<V> = seq<Snapshot<V>>

  function Redo(description: string): string {
    "Redo " + description
  }

  /** How a pattern is named when the editor leaves it. */
  function PatternName(index: int): string {
    "Pattern " + if index < 0 then "-" + Decimal(-index) else Decimal(index)
  }

  /** A number as it is printed. */
  function Decimal(n: nat): string {
    if n < 10 then [Digit(n)] else Decimal(n / 10) + [Digit(n % 10)]
  }

  function Digit(n: nat): char
    requires n < 10
  {
    ('0' as int + n) as char
  }

  lemma PatternNames(n: nat)
    ensures PatternName(n) == "Pattern " + Decimal(n) && PatternName(-1 - n) == "Pattern -" + Decimal(n + 1)
  {
  }

  /** The number a string of digits stands for. */
  function NumberOf(digits: string): int {
    if |digits| == 0 then 0
    else 10 * NumberOf(digits[..|digits| - 1]) + (digits[|digits| - 1] as int - '0' as int)
  }

  /** Reading a printed number gives it back; it is printed in digits, without a leading zero. */
  lemma {:induction false} DecimalIsRead(n: nat)
    ensures NumberOf(Decimal(n)) == n
    ensures |Decimal(n)| > 0 && (forall i | 0 <= i < |Decimal(n)| :: '0' <= Decimal(n)[i] <= '9')
    ensures 10 <= n ==> Decimal(n)[0] != '0'
  {
    if n < 10 {
      assert Decimal(n)[..0] == [];
    } else {
      DecimalIsRead(n / 10);
      assert Decimal(n)[..|Decimal(n)| - 1] == Decimal(n / 10);
    }
  }

  ghost predicate Repeats<V>(h: History<V>, s: Snapshot<V>) {
    |h| > 0 && h[0].description == s.description
  }

  function Newest<T>(h: seq<T>): seq<T> {
    if |h| > MAX_UNDO_OPERATIONS then h[..MAX_UNDO_OPERATIONS] else h
  }

  lemma NewestOfLonger<T>(x: T, h: seq<T>)
    requires |h| <= MAX_UNDO_OPERATIONS
    ensures var n := Newest([x] + h);
      && |n| == (if |h| == MAX_UNDO_OPERATIONS then |h| else |h| + 1)
      && n[0] == x && forall i | 1 <= i < |n| :: n[i] == h[i - 1]
  {
  }

  ghost function Pushed<V>(h: History<V>, s: Snapshot<V>): History<V> {
    if Repeats(h, s) then h else Newest([s] + h)
  }

  /** The pushes of a run, the first one first, onto an empty list. */
  ghost function PushedAll<V>(pushes: History<V>): History<V> {
    if |pushes| == 0 then [] else Pushed(PushedAll(pushes[..|pushes| - 1]), pushes[|pushes| - 1])
  }

  /** Every push that is not described like the one before it, the newest first. */
  ghost function Distinct<V>(pushes: History<V>): History<V> {
    if |pushes| == 0 then []
    else
      var h, s := Distinct(pushes[..|pushes| - 1]), pushes[|pushes| - 1];
      if |pushes| > 1 && pushes[|pushes| - 2].description == s.description then h else [s] + h
  }

  lemma {:induction false} DistinctEndsInLast<V>(pushes: History<V>)
    requires |pushes| > 0
    ensures |Distinct(pushes)| > 0 && Distinct(pushes)[0].description == pushes[|pushes| - 1].description
  {
    if |pushes| <= 1 {
    } else {
      DistinctEndsInLast(pushes[..|pushes| - 1]);
    }
  }

  /** The list holds the ten newest of the pushes that changed the description. */
  lemma {:induction false} ListIsNewestDistinct<V>(pushes: History<V>)
    ensures PushedAll(pushes) == Newest(Distinct(pushes))
  {
    if |pushes| == 0 {
    } else {
      var before := pushes[..|pushes| - 1];
      ListIsNewestDistinct(before);
      if |before| > 0 {
        DistinctEndsInLast(before);
        assert before[|before| - 1] == pushes[|pushes| - 2];
      }
    }
  }

  /** The pattern and the list after undoing entry k. */
  datatype Undone<V> = Undone(view: V, history: History<V>)

  ghost function UndoneAt<V>(h: History<V>, view: V, k: int): Undone<V> {
    if 0 <= k < |h| then Undone(h[k].view, Pushed(h, Snapshot(Redo(h[k].description), h[k].index, view)))
    else Undone(view, h)
  }

  /** n times `undo_index(0)`. */
  ghost function UndoneTimes<V>(h: History<V>, view: V, n: nat): Undone<V> {
    if n == 0 then Undone(view, h)
    else
      var u := UndoneTimes(h, view, n - 1);
      UndoneAt(u.history, u.view, 0)
  }

  /** Undoing the newest entry toggles between the pattern as it is and that entry. */
  lemma {:induction false} UndoToggles<V>(h: History<V>, view: V, n: nat)
    requires 0 < |h| <= MAX_UNDO_OPERATIONS
    ensures var u := UndoneTimes(h, view, n);
      && u.view == (if n % 2 == 0 then view else h[0].view)
      && 0 < |u.history| <= MAX_UNDO_OPERATIONS
      && u.history[0].view == (if n % 2 == 0 then h[0].view else view)
      && u.history[0].index == h[0].index
  {
    if n == 0 {
    } else {
      UndoToggles(h, view, n - 1);
    }
  }

  /**
   * Undo saves the pattern it replaces as the newest entry, unless the newest one has the very description the saved
   * pattern would get: then the pattern is lost.
   */
  lemma UndoSavesIff<V>(h: History<V>, view: V, k: int)
    requires 0 <= k < |h| <= MAX_UNDO_OPERATIONS
    ensures var s := Snapshot(Redo(h[k].description), h[k].index, view);
      var after := UndoneAt(h, view, k).history;
      && |after| > 0
      && (after[0] == s <==> h[0].description != s.description || h[0] == s)
      && (h[0].description == s.description ==> after == h)
  {
  }

  /** With "Redo X" before "X" in the list, undoing the second entry loses the pattern as it is. */
  lemma UndoLosesThePattern<V>(a: V, b: V, view: V)
    ensures var h := [Snapshot("Redo X", 0, a), Snapshot("X", 0, b)];
      UndoneAt(h, view, 1) == Undone(b, h)
  {
    assert Redo("X") == "Redo X";
  }

  /** Undo in a song of several patterns: the entry goes to the current one. */
  ghost function UndoneIn<V>(patterns: seq<V>, current: int, h: History<V>, k: int): seq<V>
    requires 0 <= current < |patterns|
  {
    patterns[current := UndoneAt(h, patterns[current], k).view]
  }

  /** An entry restores the pattern it was saved from exactly when that is the current one, or has not changed since. */
  lemma UndoRestoresIff<V>(patterns: seq<V>, current: int, h: History<V>, k: int)
    requires 0 <= current < |patterns| && 0 <= k < |h| && 0 <= h[k].index < |patterns|
    ensures UndoneIn(patterns, current, h, k)[h[k].index] == h[k].view <==>
      h[k].index == current || patterns[h[k].index] == h[k].view
  {
  }

  /** A run of edits under one description: each pushes the pattern as it is, then changes it to the next view. */
  ghost function EditedAll<V>(h: History<V>, index: int, description: string, views: seq<V>): History<V> {
    if |views| == 0 then h
    else
      var before := EditedAll(h, index, description, views[..|views| - 1]);
      Pushed(before, Snapshot(description, index, views[|views| - 1]))
  }

  /** However many edits of one kind were made, one undo gives back the pattern from before the first of them. */
  lemma {:induction false} UndoSkipsRepeats<V>(h: History<V>, index: int, description: string, views: seq<V>, last: V)
    requires |views| > 0 && !Repeats(h, Snapshot(description, index, views[0]))
    ensures UndoneAt(EditedAll(h, index, description, views), last, 0).view == views[0]
    ensures var list := EditedAll(h, index, description, views);
      |list| > 0 && list[0] == Snapshot(description, index, views[0])
  {
    if |views| > 1 {
      UndoSkipsRepeats(h, index, description, views[..|views| - 1], last);
    } else {
      assert EditedAll(h, index, description, views[..0]) == h;
    }
  }

  datatype UndoOperation = UndoOperation(description: string, index: int, data: Pattern?)

  class UndoList {
    const buffer: array<UndoOperation>
    var undoMax: int
    ghost var owned: seq<Pattern>

    /** Every entry has its own pattern. */
    ghost predicate Valid()
      reads this, buffer, owned
    {
      && buffer.Length == MAX_UNDO_OPERATIONS && -1 <= undoMax < MAX_UNDO_OPERATIONS && |owned| == undoMax + 1
      && (forall i | 0 <= i <= undoMax :: buffer[i].data == owned[i])
      && (forall i | 0 <= i <= undoMax :: owned[i].Valid())
      && (forall i, j | 0 <= i < j <= undoMax :: owned[i] != owned[j])
    }

    ghost function Entries(): (h: History<View>)
      requires Valid()
      reads this, buffer, owned
      ensures |h| == undoMax + 1
    {
      seq(undoMax + 1, i requires Valid() && 0 <= i <= undoMax reads this, buffer, owned =>
        Snapshot(buffer[i].description, buffer[i].index, owned[i].State()))
    }

    lemma EntriesAre()
      requires Valid()
      ensures forall i | 0 <= i <= undoMax ::
        Entries()[i] == Snapshot(buffer[i].description, buffer[i].index, owned[i].State())
    {
    }

    lemma EntryAt(k: int)
      requires Valid() && 0 <= k <= undoMax
      ensures k < buffer.Length && buffer[k].data != null && buffer[k].data.Valid() && buffer[k].data in owned
      ensures Entries()[k] == Snapshot(buffer[k].description, buffer[k].index, buffer[k].data.State())
    {
    }

    constructor ()
      ensures Valid() && undoMax == -1 && owned == [] && fresh(buffer)
    {
      buffer := new UndoOperation[MAX_UNDO_OPERATIONS](_ => UndoOperation("", 0, null));
      undoMax := -1;
      owned := [];
    }

    /** Moves the entries before the given one up by one. */
    method ShiftEntries(last: int)
      requires buffer.Length == MAX_UNDO_OPERATIONS && 0 <= last < MAX_UNDO_OPERATIONS
      modifies buffer
      ensures forall j | 1 <= j <= last :: buffer[j] == old(buffer[j - 1])
    {
      for i := last + 1 downto 1
        invariant forall j | 0 <= j < i :: buffer[j] == old(buffer[j])
        invariant forall j | i <= j <= last :: buffer[j] == old(buffer[j - 1])
      {
        buffer[i] := buffer[i - 1];
      }
    }

    /** Puts the entry in front; the oldest one goes when there are ten. */
    method AddEntry(index: int, data: Pattern, reason: string)
      requires Valid() && data.Valid() && data !in owned
      modifies this, buffer
      ensures Valid() && owned == Newest([data] + old(owned))
      ensures Entries() == Newest([Snapshot(reason, index, data.State())] + old(Entries()))
    {
      hide Pattern.Valid, Pattern.State, Pattern.Grid, Pattern.Cells, Pattern.InUse, Entries, Newest;
      ghost var before, s, owners := Entries(), Snapshot(reason, index, data.State()), owned;
      EntriesAre();
      NewestOfLonger(s, before);
      NewestOfLonger(data, owners);
      var last := if undoMax == MAX_UNDO_OPERATIONS - 1 then undoMax else undoMax + 1;
      ShiftEntries(last);
      buffer[0] := UndoOperation(reason, index, data);
      undoMax, owned := last, Newest([data] + owned);
      assert Valid();
      EntriesAre();
      assert Entries() == Newest([s] + before);
    }

    method PushPattern(index: int, pattern: Pattern, reason: string)
      requires Valid() && pattern.Valid()
      modifies this, buffer
      ensures Valid()
      ensures Entries() == Pushed(old(Entries()), Snapshot(reason, index, old(pattern.State())))
      ensures forall i | 0 <= i < |owned| :: owned[i] in old(owned) || fresh(owned[i])
    {
      hide Pattern.Valid, Pattern.State, Pattern.Grid, Pattern.Cells, Pattern.InUse, Entries, UndoList.Valid;
      if undoMax >= 0 {
        EntryAt(0);
        if reason == buffer[0].description {
          return;
        }
      }
      ghost var before, s := Entries(), Snapshot(reason, index, pattern.State());
      var copy := new Pattern();
      copy.CopyFrom(pattern);
      assert Entries() == before;
      AddEntry(index, copy, reason);
      assert forall i | 1 <= i < |owned| :: owned[i] == old(owned)[i - 1];
    }

    /** Puts entry k in place of the pattern, which is pushed to the list in its turn. */
    method UndoIndex(k: int, pattern: Pattern)
      requires Valid() && pattern.Valid() && pattern !in owned
      modifies this, buffer, pattern
      ensures Valid() && pattern.Valid()
      ensures Undone(pattern.State(), Entries()) == UndoneAt(old(Entries()), old(pattern.State()), k)
      ensures forall i | 0 <= i < |owned| :: owned[i] in old(owned) || fresh(owned[i])
    {
      hide Pattern.Valid, Pattern.State, Pattern.Grid, Pattern.Cells, Pattern.InUse, Entries, UndoList.Valid, Pushed;
      if k < 0 || k > undoMax {
        return;
      }
      EntryAt(k);
      ghost var before := Entries();
      var aux := new Pattern();
      aux.CopyFrom(pattern);
      assert Valid() && Entries() == before;
      pattern.CopyFrom(buffer[k].data);
      assert Valid() && Entries() == before;
      PushPattern(buffer[k].index, aux, Redo(buffer[k].description));
    }
  }
}
