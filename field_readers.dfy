/**
 * The fixed-width field readers (qtff_read_8/16/24/32/64) and the atom
 * header reader. Each is a method on the stream, proved equal to a pure
 * Decode function of the file and the stream state before the call.
 */
module FieldReaders {
  import opened QtffTypes
  import opened ByteOrder
  import opened ByteStream

  /**
   * What a read leaves behind: the result its caller sees and the stream
   * state it leaves, including after a failure.
   */
  datatype Outcome<T> = Outcome(result: Result<T>, cursor: Cursor) {
    predicate IsFailure() { result.Err? }
    function PropagateFailure<U>(): Outcome<U> requires result.Err? { Outcome(Err(result.error), cursor) }
    function Extract(): (T, Cursor) requires result.Ok? { (result.value, cursor) }
  }

  /** The next n bytes can be read: no indicator set, no fault, all inside the file. */
  predicate Clean(f: File, c: Cursor, n: nat) {
    !c.error && !c.eof && !Faults(f, c.pos, n) && c.pos + n <= |f.data|
  }

  /**
   * The error a failing n-byte field read reports: IOError when the error
   * indicator is (or becomes) set, EOF otherwise. ferror is consulted
   * before feof, so a fault in a read that also runs short is an IOError.
   */
  function FieldError(f: File, c: Cursor, n: nat): Error {
    if c.error || (!c.eof && Faults(f, c.pos, n)) then IOError else EOF
  }

  /** The errors a read of the stream itself can report. */
  predicate ReadError(e: Error) {
    e == EOF || e == IOError
  }

  /**
   * The shape all the fixed-width readers share: fread `width` bytes,
   * then report IOError if the error indicator is set, else EOF if the
   * end-of-file indicator is set, else the bytes.
   */
  function DecodeField(f: File, c: Cursor, width: nat): (r: Outcome<seq<byte>>)
    requires width > 0
    ensures r.result.Ok? <==> Clean(f, c, width)
    ensures r.result.Ok? ==>
              r.result.value == f.data[c.pos..c.pos + width] && r.cursor == Cursor(c.pos + width, false, false)
    ensures r.result.Err? ==> r.result.error == FieldError(f, c, width)
    ensures r.result == Err(EOF) ==> r.cursor.eof
    ensures r.cursor.pos >= c.pos && (r.result.Err? ==> r.cursor.eof || r.cursor.error)
  {
    var (bytes, c') := Fread(f, c, width);
    if c'.error then Outcome(Err(IOError), c')
    else if c'.eof then Outcome(Err(EOF), c')
    else Outcome(Ok(bytes), c')
  }

  /** qtff_read_8: the byte is consumed and checked, but never stored. */
  function DecodeU8(f: File, c: Cursor): (r: Outcome<()>)
    ensures r.result.Ok? <==> Clean(f, c, 1)
    ensures r.result.Ok? ==> r.cursor == Cursor(c.pos + 1, false, false)
    ensures r.result.Err? ==> r.result.error == FieldError(f, c, 1)
    ensures r.result == Err(EOF) ==> r.cursor.eof
    ensures r.cursor.pos >= c.pos
  {
    var p :- DecodeField(f, c, 1);
    Outcome(Ok(()), p.1)
  }

  /** qtff_read_16 (qtff_ntohs in the older revision). */
  function DecodeU16(f: File, c: Cursor): (r: Outcome<uint16>)
    ensures r.result.Ok? <==> Clean(f, c, 2)
    ensures r.result.Ok? ==>
              r.result.value == BigEndian(f.data[c.pos..c.pos + 2]) && r.cursor == Cursor(c.pos + 2, false, false)
    ensures r.result.Err? ==> r.result.error == FieldError(f, c, 2)
    ensures r.result == Err(EOF) ==> r.cursor.eof
    ensures r.cursor.pos >= c.pos
  {
    var p :- DecodeField(f, c, 2);
    Outcome(Ok(Ntoh16(p.0)), p.1)
  }

  /** qtff_read_24, carrying the byte-order defect of Ntoh24. */
  function DecodeU24(f: File, c: Cursor): (r: Outcome<uint32>)
    ensures r.result.Ok? <==> Clean(f, c, 3)
    ensures r.result.Ok? ==>
              && r.result.value == BigEndian([f.data[c.pos], f.data[c.pos], f.data[c.pos + 1]])
              && r.cursor == Cursor(c.pos + 3, false, false)
    ensures r.result.Err? ==> r.result.error == FieldError(f, c, 3)
    ensures r.result == Err(EOF) ==> r.cursor.eof
    ensures r.cursor.pos >= c.pos
  {
    var p :- DecodeField(f, c, 3);
    Outcome(Ok(Ntoh24(p.0)), p.1)
  }

  /** qtff_read_32 (qtff_ntohl in the older revision). */
  function DecodeU32(f: File, c: Cursor): (r: Outcome<uint32>)
    ensures r.result.Ok? <==> Clean(f, c, 4)
    ensures r.result.Ok? ==>
              r.result.value == BigEndian(f.data[c.pos..c.pos + 4]) && r.cursor == Cursor(c.pos + 4, false, false)
    ensures r.result.Err? ==> r.result.error == FieldError(f, c, 4)
    ensures r.result == Err(EOF) ==> r.cursor.eof
    ensures r.cursor.pos >= c.pos
  {
    var p :- DecodeField(f, c, 4);
    Outcome(Ok(Ntoh32(p.0)), p.1)
  }

  /** qtff_read_64. */
  function DecodeU64(f: File, c: Cursor): (r: Outcome<uint64>)
    ensures r.result.Ok? <==> Clean(f, c, 8)
    ensures r.result.Ok? ==>
              r.result.value == BigEndian(f.data[c.pos..c.pos + 8]) && r.cursor == Cursor(c.pos + 8, false, false)
    ensures r.result.Err? ==> r.result.error == FieldError(f, c, 8)
    ensures r.result == Err(EOF) ==> r.cursor.eof
    ensures r.cursor.pos >= c.pos
  {
    var p :- DecodeField(f, c, 8);
    Outcome(Ok(Ntoh64(p.0)), p.1)
  }

  /** A fault among n + m bytes lies among the first n or among the m after them. */
  lemma FaultsSplit(f: File, pos: nat, n: nat, m: nat)
    ensures Faults(f, pos, n + m) <==> Faults(f, pos, n) || Faults(f, pos + n, m)
  {
    if Faults(f, pos, n + m) {
      var k :| k in f.faulty && pos <= k < pos + n + m && k < |f.data|;
      if k >= pos + n {
        assert Faults(f, pos + n, m);
      }
    }
  }

  /** n + m clean bytes are n clean bytes followed by m clean bytes. */
  lemma CleanSplit(f: File, c: Cursor, n: nat, m: nat)
    ensures Clean(f, c, n + m) <==> Clean(f, c, n) && Clean(f, Cursor(c.pos + n, false, false), m)
  {
    FaultsSplit(f, c.pos, n, m);
  }

  /** An unchecked fread over n clean bytes delivers them and moves past them. */
  lemma FreadClean(f: File, c: Cursor, n: nat)
    requires n > 0 && Clean(f, c, n)
    ensures Fread(f, c, n) == (f.data[c.pos..c.pos + n], Cursor(c.pos + n, false, false))
  {
  }

  /** n consecutive qtff_read_32 fields, in order; the first failure ends the run. */
  function DecodeWords(f: File, c: Cursor, n: nat): (r: Outcome<seq<uint32>>)
    ensures r.result.Ok? ==> |r.result.value| == n && r.cursor == if n == 0 then c else Cursor(c.pos + 4 * n, false, false)
    ensures r.result.Ok? && n > 0 ==> c.pos + 4 * n <= |f.data|
    ensures r.result.Err? ==> ReadError(r.result.error)
    ensures r.cursor.pos >= c.pos
    decreases n
  {
    if n == 0 then Outcome(Ok([]), c)
    else
      var w :- DecodeU32(f, c);
      var rest :- DecodeWords(f, w.1, n - 1);
      Outcome(Ok([w.0] + rest.0), rest.1)
  }

  /** A run of n words decodes exactly when its 4n bytes are clean. */
  lemma {:induction false} WordsOutcome(f: File, c: Cursor, n: nat)
    requires n > 0
    ensures DecodeWords(f, c, n).result.Ok? <==> Clean(f, c, 4 * n)
    decreases n
  {
    CleanSplit(f, c, 4, 4 * (n - 1));
    if n > 1 {
      WordsOutcome(f, Cursor(c.pos + 4, false, false), n - 1);
    }
  }

  /** The big-endian 32-bit word stored at offset p of the file. */
  function WordAt(f: File, p: nat): (w: uint32)
    requires p + 4 <= |f.data|
    ensures w == BigEndian(f.data[p..p + 4])
  {
    assert Pow256(4) == 0x1_0000_0000;
    BigEndian(f.data[p..p + 4])
  }

  /** The n words stored from offset p on, the reference reading of a run. */
  function WordsFrom(f: File, p: nat, n: nat): (ws: seq<uint32>)
    requires p + 4 * n <= |f.data|
    ensures |ws| == n
    decreases n
  {
    if n == 0 then [] else [WordAt(f, p)] + WordsFrom(f, p + 4, n - 1)
  }

  /** Word i of the reference reading lies at offset p + 4i. */
  lemma {:induction false} WordsFromIndex(f: File, p: nat, n: nat, i: nat)
    requires p + 4 * n <= |f.data| && i < n
    ensures WordsFrom(f, p, n)[i] == WordAt(f, p + 4 * i)
    decreases n
  {
    if i > 0 {
      WordsFromIndex(f, p + 4, n - 1, i - 1);
    }
  }

  /** A clean run decodes to the reference reading of its bytes. */
  lemma {:induction false} CleanWords(f: File, c: Cursor, n: nat)
    requires Clean(f, c, 4 * n)
    ensures DecodeWords(f, c, n).result == Ok(WordsFrom(f, c.pos, n))
    decreases n
  {
    if n > 0 {
      CleanSplit(f, c, 4, 4 * (n - 1));
      CleanWords(f, Cursor(c.pos + 4, false, false), n - 1);
    }
  }

  /** Every word of a successful run sits at its own offset: word i comes from bytes 4i to 4i + 4 past the cursor. */
  lemma WordsAt(f: File, c: Cursor, n: nat)
    ensures var r := DecodeWords(f, c, n);
            r.result.Ok? ==>
              && (n > 0 ==> c.pos + 4 * n <= |f.data|)
              && forall i :: 0 <= i < n ==> r.result.value[i] == WordAt(f, c.pos + 4 * i)
  {
    var r := DecodeWords(f, c, n);
    if r.result.Ok? && n > 0 {
      assert Clean(f, c, 4 * n) by {
        WordsOutcome(f, c, n);
      }
      var ws := WordsFrom(f, c.pos, n);
      assert r.result.value == ws by {
        CleanWords(f, c, n);
      }
      forall i | 0 <= i < n
        ensures ws[i] == WordAt(f, c.pos + 4 * i)
      {
        WordsFromIndex(f, c.pos, n, i);
      }
    }
  }

  /** qtff_read_8. */
  method ReadU8(s: Stream) returns (r: Result<()>)
    modifies s
    ensures Outcome(r, s.State()) == DecodeU8(s.file, old(s.State()))
  {
    var _ := s.Read(1);
    if s.error {
      return Err(IOError);
    }
    if s.eof {
      return Err(EOF);
    }
    return Ok(());
  }

  /** qtff_read_16. */
  method ReadU16(s: Stream) returns (r: Result<uint16>)
    modifies s
    ensures Outcome(r, s.State()) == DecodeU16(s.file, old(s.State()))
  {
    var n := s.Read(2);
    if s.error {
      return Err(IOError);
    }
    if s.eof {
      return Err(EOF);
    }
    return Ok(Ntoh16(n));
  }

  /** qtff_read_24. */
  method ReadU24(s: Stream) returns (r: Result<uint32>)
    modifies s
    ensures Outcome(r, s.State()) == DecodeU24(s.file, old(s.State()))
  {
    var n := s.Read(3);
    if s.error {
      return Err(IOError);
    }
    if s.eof {
      return Err(EOF);
    }
    return Ok(Ntoh24(n));
  }

  /** qtff_read_32. */
  method ReadU32(s: Stream) returns (r: Result<uint32>)
    modifies s
    ensures Outcome(r, s.State()) == DecodeU32(s.file, old(s.State()))
  {
    var n := s.Read(4);
    if s.error {
      return Err(IOError);
    }
    if s.eof {
      return Err(EOF);
    }
    return Ok(Ntoh32(n));
  }

  /** qtff_read_64. */
  method ReadU64(s: Stream) returns (r: Result<uint64>)
    modifies s
    ensures Outcome(r, s.State()) == DecodeU64(s.file, old(s.State()))
  {
    var n := s.Read(8);
    if s.error {
      return Err(IOError);
    }
    if s.eof {
      return Err(EOF);
    }
    return Ok(Ntoh64(n));
  }

  /** n consecutive qtff_read_32 calls, each checked before the next. */
  method ReadWords(s: Stream, n: nat) returns (r: Result<seq<uint32>>)
    modifies s
    ensures Outcome(r, s.State()) == DecodeWords(s.file, old(s.State()), n)
    decreases n
  {
    if n == 0 {
      return Ok([]);
    }
    var w :- ReadU32(s);
    var rest :- ReadWords(s, n - 1);
    return Ok([w] + rest);
  }

  /**
   * qtff_read_atom_header: note the position, read the size with the
   * 32-bit reader, then fread the raw tag and check end-of-file before
   * the error indicator. On success the header sits at the start cursor
   * and the stream has moved past its eight bytes.
   */
  function DecodeAtomHeader(f: File, c: Cursor): (r: Outcome<AtomHeader>)
    ensures r.result.Ok? ==>
              && r.result.value.offset == c.pos
              && c.pos + 8 <= |f.data|
              && r.cursor == Cursor(c.pos + 8, false, false)
    ensures r.result.Err? ==> ReadError(r.result.error)
    ensures r.result == Err(EOF) ==> r.cursor.eof
    ensures r.cursor.pos >= c.pos
  {
    var size :- DecodeU32(f, c);
    var (tag, c') := Fread(f, size.1, 4);
    if c'.eof then Outcome(Err(EOF), c')
    else if c'.error then Outcome(Err(IOError), c')
    else Outcome(Ok(AtomHeader(c.pos, size.0, tag)), c')
  }

  /**
   * A header read succeeds exactly when eight clean bytes remain; it then
   * holds the big-endian size and the raw tag. A failure is EOF or
   * IOError and leaves an indicator set; a fault in the size bytes is an
   * IOError, a fault only in the tag bytes of a short read is an EOF.
   */
  lemma HeaderOutcome(f: File, c: Cursor)
    ensures DecodeAtomHeader(f, c).result.Ok? <==> Clean(f, c, 8)
    ensures DecodeAtomHeader(f, c).result.Ok? ==>
              DecodeAtomHeader(f, c).result.value ==
                AtomHeader(c.pos, BigEndian(f.data[c.pos..c.pos + 4]), f.data[c.pos + 4..c.pos + 8])
    ensures DecodeAtomHeader(f, c).result.Err? ==>
              && DecodeAtomHeader(f, c).result.error in {EOF, IOError}
              && (DecodeAtomHeader(f, c).cursor.eof || DecodeAtomHeader(f, c).cursor.error)
    ensures !c.eof && !c.error && Faults(f, c.pos, 4) ==> DecodeAtomHeader(f, c).result == Err(IOError)
  {
    CleanSplit(f, c, 4, 4);
  }

  /** qtff_read_atom_header. */
  method ReadAtomHeader(s: Stream) returns (r: Result<AtomHeader>)
    modifies s
    ensures Outcome(r, s.State()) == DecodeAtomHeader(s.file, old(s.State()))
  {
    var offset := s.Tell();
    var size :- ReadU32(s);
    var tag := s.Read(4);
    if s.eof {
      return Err(EOF);
    }
    if s.error {
      return Err(IOError);
    }
    return Ok(AtomHeader(offset, size, tag));
  }
}
