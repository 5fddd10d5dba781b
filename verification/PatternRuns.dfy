/** Whole runs of pattern operations, against a plain memory without a cache. */
module PatternRuns {
  import opened BitMath
  import opened Notes
  import opened Options
  import opened PatternStore

  /** The cells whose value the operations so far determine. */
  datatype Memory = Memory(known: Cells, length: int, focus: Option<(int, int)>)

  ghost function Apply(m: Memory, op: Operation): Memory {
    match op
    case GetRef(c, r) => m.(focus := if InRange(c, r, m.length) then Some((c, r)) else None)
    case Write(n) => if m.focus.Some? then m.(known := m.known[m.focus.value := n]) else m
    case SetLength(p) =>
      var length := if LegalLength(p) then p else m.length;
      m.(known := imap k: (int, int) | k in m.known && k.1 < Min(m.length, length) :: m.known[k], length := length)
    case Clear => m.(known := imap k: (int, int) {:trigger k.0} | true :: EMPTY, focus := None)
  }

  ghost function Replay(m: Memory, ops: seq<Operation>): Memory {
    if ops == [] then m else Apply(Replay(m, ops[..|ops| - 1]), ops[|ops| - 1])
  }

  ghost predicate Total(v: View) {
    forall k :: k in v.cells
  }

  ghost predicate Agrees(v: View, m: Memory)
    requires Total(v)
  {
    v.length == m.length && v.focus == m.focus && forall k | k in m.known :: v.cells[k] == m.known[k]
  }

  /** The states a pattern goes through while the operations run. */
  ghost predicate IsRun(states: seq<View>, ops: seq<Operation>) {
    && |states| == |ops| + 1
    && (forall i | 0 <= i < |states| :: Total(states[i]))
    && (forall i | 0 <= i < |ops| :: Step(states[i], ops[i], states[i + 1]))
  }

  lemma StepAgrees(v: View, op: Operation, w: View, m: Memory)
    requires Total(v) && Total(w) && Step(v, op, w) && Agrees(v, m)
    ensures Agrees(w, Apply(m, op))
  {
    if op.SetLength? {
      forall k | k in Apply(m, op).known
        ensures w.cells[k] == Apply(m, op).known[k]
      {
        var (c, r) := k;
        assert w.cells[(c, r)] == v.cells[(c, r)];
      }
    }
  }

  /** In every run, every cell reads as what was last written to it, whether or not that is still in the cache. */
  lemma {:induction false} ReadsSeeTheLastWrite(states: seq<View>, ops: seq<Operation>, m: Memory)
    requires IsRun(states, ops) && Agrees(states[0], m)
    ensures Agrees(states[|ops|], Replay(m, ops))
    decreases |ops|
  {
    hide Step, Agrees, Apply;
    if ops == [] {
    } else {
      var last := |ops| - 1;
      assert forall i | 0 <= i < last :: ops[..last][i] == ops[i];
      ReadsSeeTheLastWrite(states[..|ops|], ops[..last], m);
      StepAgrees(states[last], ops[last], states[|ops|], Replay(m, ops[..last]));
    }
  }

  /** Lengths from 1 to 200 are taken, others leave the pattern as long as it was. */
  lemma LengthsAllowed(v: View, length: u8, w: View)
    requires Total(v) && Total(w) && Step(v, SetLength(length), w)
    ensures w.length == if 1 <= length <= 200 then length as int else v.length
  {
  }

  /** Without a change of length nothing is ever undetermined. */
  lemma {:induction false} AllKnownAtFixedLength(m: Memory, ops: seq<Operation>)
    requires forall k :: k in m.known
    requires forall i | 0 <= i < |ops| :: !ops[i].SetLength?
    ensures forall k :: k in Replay(m, ops).known
    decreases |ops|
  {
    if ops == [] {
    } else {
      AllKnownAtFixedLength(m, ops[..|ops| - 1]);
    }
  }

  /** A cell stays determined as long as its row stays below every length that is set. */
  lemma {:induction false} KnownBelowEveryLength(m: Memory, ops: seq<Operation>, c: int, r: int)
    requires (c, r) in m.known && r < m.length
    requires forall i | 0 <= i < |ops| && ops[i].SetLength? && LegalLength(ops[i].length) :: r < ops[i].length
    ensures (c, r) in Replay(m, ops).known && r < Replay(m, ops).length
    decreases |ops|
  {
    if ops == [] {
    } else {
      KnownBelowEveryLength(m, ops[..|ops| - 1], c, r);
      assert ops[|ops| - 1] in ops;
    }
  }

  method Perform(p: Pattern, op: Operation)
    requires p.Valid()
    modifies p
    ensures p.Valid() && Step(old(p.State()), op, p.State())
  {
    hide Pattern.Valid, Pattern.State, Step;
    match op {
      case GetRef(c, r) => p.GetNoteRef(c, r);
      case Write(n) => p.WriteRef(n);
      case SetLength(length) => p.SetNewLength(length);
      case Clear => p.ClearAll();
    }
  }

  /** The operations on the pattern itself leave what they leave of a plain memory. */
  method RunOperations(p: Pattern, ops: seq<Operation>, ghost m: Memory)
    requires p.Valid() && Agrees(p.State(), m)
    modifies p
    ensures p.Valid() && Agrees(p.State(), Replay(m, ops))
  {
    hide Pattern.Valid, Pattern.State, Step, Agrees, Apply;
    assert ops[..0] == [];
    for i := 0 to |ops|
      invariant p.Valid() && Agrees(p.State(), Replay(m, ops[..i]))
    {
      ghost var before := p.State();
      Perform(p, ops[i]);
      StepAgrees(before, ops[i], p.State(), Replay(m, ops[..i]));
      assert ops[..i + 1][..i] == ops[..i];
    }
    assert ops[..|ops|] == ops;
  }

  /** What is read after any operations is what was written last, wherever that is determined. */
  method RunAndRead(p: Pattern, ops: seq<Operation>, ghost m: Memory, c: int, r: int) returns (n: Note)
    requires p.Valid() && Agrees(p.State(), m)
    modifies p
    ensures p.Valid() && ((c, r) in Replay(m, ops).known ==> n == Replay(m, ops).known[(c, r)])
  {
    hide Pattern.Valid, Pattern.At, Apply;
    RunOperations(p, ops, m);
    n := p.GetNote(c, r);
    assert p.State().cells[(c, r)] == p.At(c, r);
  }
}
