/** Patterns that go through a file and back: the savers and loaders together, on the pattern store itself. */
module PatternFiles {
  import opened BitMath
  import opened BitReader
  import opened Notes
  import opened PatternStore
  import opened PatternCodec
  import opened PatternUnpacker
  import opened FileWriter
  import opened PatternSavers
  import opened CodecRoundTrip

  lemma LegalLengthIsKept(p: Pattern, length: nat)
    requires p.Valid()
    ensures LengthAfter(length, p.length as nat) == p.length as nat && 0 < p.length as int
    ensures Shape(p.Grid(), p.length as nat)
  {
    p.GridShape();
  }

  /** A .ct pattern block: the pattern that is loaded is the one that was saved exactly if all its cells are legal. */
  method CopyThroughCt(p: Pattern, q: Pattern)
    requires p != q && p.Valid() && q.Valid() && forall k :: q.Cells()[k] == EMPTY
    modifies q
    ensures p.Valid() && q.Valid() && q.length == p.length
    ensures q.Grid() == p.Grid() <==> AllLegal(p.Grid())
    ensures forall c, r | InRange(c, r, p.length as int) ::
      q.Grid()[c][r] == Normal(p.Grid()[c][r])
  {
    hide Pattern.Valid, Pattern.Grid, Pattern.Cells, Unpack, Pack, PackGrid, Bytes, AllLegal, Normal, LengthAfter;
    LegalLengthIsKept(p, q.length as nat);
    var data := PackCtPattern(p);
    CtRoundTrip(p.Grid(), p.length as nat, []);
    assert PackGrid(false, p.Grid(), p.length as nat) + [] == PackGrid(false, p.Grid(), p.length as nat);
    UnpackCtPattern(q, p.length as nat, data);
  }

  lemma HeaderWords(front: seq<u8>, length: nat, rows: u8, body: seq<u8>)
    ensures var file := front + ItHeader(length, rows) + body;
      && |front| + 8 <= |file| && file[|front| + 8..] == body
      && Word(file, |front| + 2) == rows as nat
  {
    LengthFieldIsExact(length, rows);
  }

  /** A pattern of an .it file, behind whatever the file begins with. */
  method CopyThroughIt(p: Pattern, writer: Writer, q: Pattern)
    requires p != q && p.Valid() && q.Valid() && forall k :: q.Cells()[k] == EMPTY
    requires writer.pos == |writer.contents| > 0
    modifies writer, q
    ensures p.Valid() && q.Valid() && q.length == p.length
    ensures |p.Grid()| == PATTERN_WIDTH
    ensures q.Grid() == p.Grid() <==>
      AllLegal(p.Grid()) && forall c | 0 <= c < PATTERN_WIDTH :: !HasDoubling(p.Grid()[c])
  {
    hide Pattern.Valid, Pattern.Grid, Pattern.Cells, Unpack, Pack, PackGrid, ItHeader, AllLegal, HasDoubling,
      LengthAfter;
    LegalLengthIsKept(p, q.length as nat);
    ghost var front := writer.contents;
    ghost var body := PackGrid(true, p.Grid(), p.length as nat);
    var offset := writer.pos;
    PackItPattern(p, writer);
    HeaderWords(front, |body|, p.length, body);
    ItRoundTrip(p.Grid(), p.length as nat, []);
    assert body + [] == body;
    UnpackItPattern(q, writer.contents, offset);
  }
}
