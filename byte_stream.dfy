/**
 * The byte source the decoder reads through (a stdio FILE in the C):
 * the file's bytes, a fault oracle naming the offsets whose read fails
 * with a hard I/O error, the position, and the sticky end-of-file and
 * error indicators that feof and ferror report.
 *
 * Fread, Fseek, SeekEnd and Rewind state the stdio behaviour the decoder
 * depends on; the Stream class applies them to its own fields.
 */
module ByteStream {
  import opened QtffTypes

  datatype File = File(data: seq<byte>, faulty: set<nat>)

  /** The stream's mutable state: position and the two sticky indicators. */
  datatype Cursor = Cursor(pos: nat, eof: bool, error: bool)

  const Start := Cursor(0, false, false)

  /** Some byte among the next n, inside the file, is one the oracle fails. */
  predicate Faults(f: File, pos: nat, n: nat) {
    exists k :: k in f.faulty && pos <= k < pos + n && k < |f.data|
  }

  /**
   * fread of n bytes. Nothing happens for n == 0. Once the end-of-file
   * indicator is set nothing more is read. A fault sets the error
   * indicator and leaves the position; reading past the end sets the
   * end-of-file indicator and delivers the bytes that remain.
   */
  function Fread(f: File, c: Cursor, n: nat): (r: (seq<byte>, Cursor))
    ensures |r.0| <= n && r.1.pos >= c.pos
    ensures c.eof ==> r.1.eof
    ensures c.error ==> r.1.error
    ensures n > 0 && !r.1.eof && !r.1.error <==>
              n > 0 && !c.eof && !c.error && !Faults(f, c.pos, n) && c.pos + n <= |f.data|
    ensures n > 0 && !r.1.eof && !r.1.error ==>
              r.0 == f.data[c.pos..c.pos + n] && r.1 == Cursor(c.pos + n, false, false)
    ensures r.1.pos > |f.data| ==> r.1.pos == c.pos
  {
    if n == 0 || c.eof then ([], c)
    else
      var fault := Faults(f, c.pos, n);
      var short := c.pos + n > |f.data|;
      var got := if fault then []
                 else if !short then f.data[c.pos..c.pos + n]
                 else if c.pos < |f.data| then f.data[c.pos..]
                 else [];
      (got, Cursor(c.pos + |got|, short, c.error || fault))
  }

  /**
   * fseek(offset, SEEK_CUR). A target before the start fails and changes
   * nothing; otherwise the position moves (possibly past the end) and the
   * end-of-file indicator is cleared.
   */
  function Fseek(c: Cursor, offset: int): (r: Cursor)
    ensures c.pos + offset >= 0 ==> r == Cursor(c.pos + offset, false, c.error)
    ensures c.pos + offset < 0 ==> r == c
  {
    if c.pos + offset < 0 then c else Cursor(c.pos + offset, false, c.error)
  }

  /** fseek(0, SEEK_END). */
  function SeekEnd(f: File, c: Cursor): (r: Cursor)
    ensures r.pos == |f.data| && !r.eof && r.error == c.error
  {
    Cursor(|f.data|, false, c.error)
  }

  /** rewind: back to offset 0 with both indicators cleared. */
  function Rewind(c: Cursor): (r: Cursor)
    ensures r == Start
  {
    Cursor(0, false, false)
  }

  /** The bytes left before the end, the measure every decode loop shrinks. */
  function Remaining(f: File, c: Cursor): nat {
    if c.pos <= |f.data| then |f.data| - c.pos else 0
  }

  class Stream {
    const file: File
    var pos: nat
    var eof: bool
    var error: bool

    function State(): Cursor
      reads this
    {
      Cursor(pos, eof, error)
    }

    constructor (file: File)
      ensures this.file == file && State() == Start
    {
      this.file := file;
      pos, eof, error := 0, false, false;
    }

    method Read(n: nat) returns (bytes: seq<byte>)
      modifies this
      ensures (bytes, State()) == Fread(file, old(State()), n)
    {
      var r := Fread(file, State(), n);
      bytes := r.0;
      pos, eof, error := r.1.pos, r.1.eof, r.1.error;
    }

    method Seek(offset: int)
      modifies this
      ensures State() == Fseek(old(State()), offset)
    {
      if pos + offset >= 0 {
        pos, eof := pos + offset, false;
      }
    }

    method SeekToEnd()
      modifies this
      ensures State() == SeekEnd(file, old(State()))
    {
      pos, eof := |file.data|, false;
    }

    method Rewind()
      modifies this
      ensures State() == Start
    {
      pos, eof, error := 0, false, false;
    }

    /** ftell. */
    method Tell() returns (p: nat)
      ensures p == pos
    {
      p := pos;
    }
  }
}
