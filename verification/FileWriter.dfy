/** The seekable file the .it saver writes. */
module FileWriter {
  import opened BitMath

  /** Bytes written from a position on: inside the file they overwrite, at its end they append. */
  function Overwritten(file: seq<u8>, pos: nat, bytes: seq<u8>): seq<u8>
    requires pos <= |file|
  {
    file[..pos] + bytes + (if pos + |bytes| <= |file| then file[pos + |bytes|..] else [])
  }

  lemma OverwrittenTwice(file: seq<u8>, pos: nat, a: seq<u8>, b: seq<u8>)
    requires pos <= |file|
    ensures Overwritten(Overwritten(file, pos, a), pos + |a|, b) == Overwritten(file, pos, a + b)
  {
  }

  lemma AppendedAtEnd(file: seq<u8>, bytes: seq<u8>)
    ensures Overwritten(file, |file|, bytes) == file + bytes
  {
  }

  function WordBytes(x: nat): seq<u8> {
    [x % 0x100, x / 0x100 % 0x100]
  }

  class Writer {
    var contents: seq<u8>
    var pos: nat

    ghost predicate Valid()
      reads this
    {
      pos <= |contents|
    }

    constructor ()
      ensures contents == [] && pos == 0
    {
      contents, pos := [], 0;
    }

    method StoreByte(x: int)
      requires Valid()
      modifies this
      ensures Valid() && pos == old(pos) + 1
      ensures contents == Overwritten(old(contents), old(pos), [x % 0x100])
    {
      contents := contents[..pos] + [x % 0x100] + (if pos < |contents| then contents[pos + 1..] else []);
      pos := pos + 1;
    }

    /** Low byte first; the argument is cut to 16 bits. */
    method StoreWord(x: nat)
      requires Valid()
      modifies this
      ensures Valid() && pos == old(pos) + 2
      ensures contents == Overwritten(old(contents), old(pos), WordBytes(x))
    {
      hide Overwritten;
      var word := x % 0x1_0000;
      OverwrittenTwice(contents, pos, [x % 0x100], [x / 0x100 % 0x100]);
      HighByte(x);
      assert [x % 0x100] + [x / 0x100 % 0x100] == WordBytes(x);
      assert x % 0x100 % 0x100 == x % 0x100;
      StoreByte(word % 0x100);
      StoreByte(word / 0x100);
    }

    lemma HighByte(x: nat)
      ensures x % 0x1_0000 % 0x100 == x % 0x100 && x % 0x1_0000 / 0x100 % 0x100 == x / 0x100 % 0x100
    {
    }

    method StoreDword(x: nat)
      requires Valid()
      modifies this
      ensures Valid() && pos == old(pos) + 4
      ensures contents == Overwritten(old(contents), old(pos), WordBytes(x % 0x1_0000) + WordBytes(x / 0x1_0000))
    {
      hide Overwritten, WordBytes;
      OverwrittenTwice(contents, pos, WordBytes(x % 0x1_0000), WordBytes(x / 0x1_0000));
      WordIsTwoBytes(x % 0x1_0000);
      StoreWord(x % 0x1_0000);
      StoreWord(x / 0x1_0000);
    }

    lemma WordIsTwoBytes(x: nat)
      ensures |WordBytes(x)| == 2
    {
    }
  }
}
