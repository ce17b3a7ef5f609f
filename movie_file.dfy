/**
 * qtff_read_movie_file: rewind, then read top-level atom headers until
 * one fails, stepping back over each header and dispatching on its tag
 * into the fixed-capacity collections of the movie file. EOF from the
 * header read ends the loop successfully.
 */
module MovieFileDecoder {
  import opened QtffTypes
  import opened ByteStream
  import opened AtomIds
  import opened FieldReaders
  import opened AtomDecoders
  import opened MovieDecoder

  /** The collection a top-level tag ID is stored in, or -1 for a tag the decoder does not recognise. */
  function KindOf(id: int): (k: int)
    ensures -1 <= k < 7
  {
    if id == FTYP_ID then 0
    else if id == MOOV_ID then 1
    else if id == MDAT_ID then 2
    else if id == FREE_ID then 3
    else if id == SKIP_ID then 4
    else if id == WIDE_ID then 5
    else if id == PNOT_ID then 6
    else -1
  }

  /** The count of collection k: ftyp, moov, mdat, free, skip, wide, pnot. */
  function Count(m: MovieFile, k: int): nat
    requires 0 <= k < 7
  {
    if k == 0 then m.fileTypeCount
    else if k == 1 then m.movieCount
    else if k == 2 then m.movieDataCount
    else if k == 3 then m.freeCount
    else if k == 4 then m.skipCount
    else if k == 5 then m.wideCount
    else m.previewCount
  }

  /** The capacity of collection k. */
  function Capacity(k: int): nat
    requires 0 <= k < 7
  {
    if k == 0 then MAX_FILE_TYPE_COMPATIBILITY_ATOMS
    else if k == 1 then MAX_MOVIE_ATOMS
    else if k == 2 then MAX_MOVIE_DATA_ATOMS
    else if k == 3 then MAX_FREE_ATOMS
    else if k == 4 then MAX_SKIP_ATOMS
    else if k == 5 then MAX_WIDE_ATOMS
    else MAX_PREVIEW_ATOMS
  }

  /** m' counts one more atom of kind k than m and the same number of every other kind (none more for k = -1). */
  predicate Bumped(m: MovieFile, m': MovieFile, k: int) {
    forall j :: 0 <= j < 7 ==> Count(m', j) == Count(m, j) + (if j == k then 1 else 0)
  }

  /** Every count is at least what it was in m. */
  predicate CountsGrow(m: MovieFile, m': MovieFile) {
    forall j :: 0 <= j < 7 ==> Count(m, j) <= Count(m', j)
  }

  /** The array of collection k for the opaque kinds mdat, free, skip and wide (2 to 5). */
  function Opaques(m: MovieFile, k: int): seq<OpaqueAtom>
    requires 2 <= k <= 5
  {
    if k == 2 then m.movieData else if k == 3 then m.free else if k == 4 then m.skip else m.wide
  }

  /**
   * Storing an mdat, free, skip or wide atom (kinds 2 to 5): the atom
   * goes to index movieCount of its collection, as the decoder writes it,
   * and the collection's own count goes up by one. Every other slot of
   * that collection and every other collection is kept.
   */
  function StoreOpaque(m: MovieFile, k: int, a: OpaqueAtom): (m': MovieFile)
    requires ValidFile(m) && 2 <= k <= 5 && Count(m, k) < Capacity(k)
    ensures ValidFile(m') && Bumped(m, m', k)
    ensures Opaques(m', k)[m.movieCount] == a
  {
    if k == 2 then m.(movieData := m.movieData[m.movieCount := a], movieDataCount := m.movieDataCount + 1)
    else if k == 3 then m.(free := m.free[m.movieCount := a], freeCount := m.freeCount + 1)
    else if k == 4 then m.(skip := m.skip[m.movieCount := a], skipCount := m.skipCount + 1)
    else m.(wide := m.wide[m.movieCount := a], wideCount := m.wideCount + 1)
  }

  /**
   * What StoreOpaque keeps: every other slot of collection k, every other
   * opaque collection, and the ftyp, moov and pnot collections.
   */
  lemma StoreOpaqueKeeps(m: MovieFile, k: int, a: OpaqueAtom)
    requires ValidFile(m) && 2 <= k <= 5 && Count(m, k) < Capacity(k)
    ensures var m' := StoreOpaque(m, k, a);
            && (forall i :: 0 <= i < |Opaques(m, k)| && i != m.movieCount ==> Opaques(m', k)[i] == Opaques(m, k)[i])
            && (forall j :: 2 <= j <= 5 && j != k ==> Opaques(m', j) == Opaques(m, j))
            && m'.fileType == m.fileType && m'.movie == m.movie && m'.preview == m.preview
  {
  }

  /** Storing an ftyp atom at the next free slot of its collection. */
  function StoreFileType(m: MovieFile, a: FileTypeAtom): (m': MovieFile)
    requires ValidFile(m) && Count(m, 0) < Capacity(0)
    ensures ValidFile(m') && Bumped(m, m', 0)
    ensures m'.fileType[m.fileTypeCount] == a
  {
    m.(fileType := m.fileType[m.fileTypeCount := a], fileTypeCount := m.fileTypeCount + 1)
  }

  /** Storing a moov atom at the next free slot of its collection. */
  function StoreMovie(m: MovieFile, a: MovieAtom): (m': MovieFile)
    requires ValidFile(m) && Count(m, 1) < Capacity(1)
    ensures ValidFile(m') && Bumped(m, m', 1)
    ensures m'.movie[m.movieCount] == a
  {
    m.(movie := m.movie[m.movieCount := a], movieCount := m.movieCount + 1)
  }

  /** Storing a pnot atom at the next free slot of its collection. */
  function StorePreview(m: MovieFile, a: PreviewAtom): (m': MovieFile)
    requires ValidFile(m) && Count(m, 6) < Capacity(6)
    ensures ValidFile(m') && Bumped(m, m', 6)
    ensures m'.preview[m.previewCount] == a
  {
    m.(preview := m.preview[m.previewCount := a], previewCount := m.previewCount + 1)
  }

  /**
   * The case of the switch on a top-level tag, with the cursor at the
   * atom's start: a recognised kind whose collection is full fails with
   * TooManyAtoms, otherwise its decoder runs and the atom is stored. The
   * pnot capacity is that of the preview collection.
   */
  function FileChild(f: File, rev: Revision, c: Cursor, m: MovieFile, atom: AtomHeader): (r: Outcome<MovieFile>)
    requires ValidFile(m)
    ensures r.result.Ok? ==> ValidFile(r.result.value) && Bumped(m, r.result.value, KindOf(AtomId(atom.atomType)))
    ensures r.result.Ok? && c.pos < |f.data| ==> r.cursor.pos > c.pos
    ensures c.pos <= |f.data| ==> r.cursor.pos >= c.pos
  {
    var k := KindOf(AtomId(atom.atomType));
    if k == -1 then Outcome(Ok(m), UnknownSkip(f, c, atom.size))
    else if Count(m, k) >= Capacity(k) then Outcome(Err(TooManyAtoms), c)
    else if k == 0 then
      var p :- DecodeFileType(f, c);
      Outcome(Ok(StoreFileType(m, p.0)), p.1)
    else if k == 1 then
      var p :- DecodeMovieAtom(f, rev, c);
      Outcome(Ok(StoreMovie(m, p.0)), p.1)
    else if k == 6 then
      var p :- DecodePreview(f, c);
      Outcome(Ok(StorePreview(m, p.0)), p.1)
    else
      var p :- DecodeOpaque(f, c);
      Outcome(Ok(StoreOpaque(m, k, p.0)), p.1)
  }

  /**
   * The top-level loop from cursor c with the file built so far. It ends
   * when a header read fails: successfully on EOF, otherwise with that
   * error. A failing atom decoder ends it with the decoder's error.
   */
  function FileLoop(f: File, rev: Revision, c: Cursor, m: MovieFile): (r: Outcome<MovieFile>)
    requires ValidFile(m)
    ensures r.result.Ok? ==> ValidFile(r.result.value) && CountsGrow(m, r.result.value) && r.cursor.eof
    decreases Remaining(f, c)
  {
    var h := DecodeAtomHeader(f, c);
    if h.result.Err? then
      if h.result.error == EOF then Outcome(Ok(m), h.cursor) else h.PropagateFailure()
    else
      var step := FileChild(f, rev, Fseek(h.cursor, -8), m, h.result.value);
      if step.result.Err? then step
      else FileLoop(f, rev, step.cursor, step.result.value)
  }

  /** qtff_read_movie_file from any stream state. */
  function DecodeMovieFile(f: File, rev: Revision, c: Cursor): (r: Outcome<MovieFile>)
    ensures r.result.Ok? ==> ValidFile(r.result.value) && r.cursor.eof
  {
    FileLoop(f, rev, Rewind(c), EmptyFile())
  }

  /** The result depends only on the file's bytes: the decoder rewinds before reading. */
  lemma DecodeIgnoresStartState(f: File, rev: Revision, c1: Cursor, c2: Cursor)
    ensures DecodeMovieFile(f, rev, c1) == DecodeMovieFile(f, rev, c2)
    ensures DecodeMovieFile(f, rev, c1) == FileLoop(f, rev, Start, EmptyFile())
  {
  }

  /**
   * A recognised top-level atom is rejected with TooManyAtoms before
   * anything is read exactly when its collection is full; a pnot atom is
   * rejected once the single preview slot is taken. No other failure
   * leaves the cursor at the atom's start.
   */
  lemma FileChildLimits(f: File, rev: Revision, c: Cursor, m: MovieFile, atom: AtomHeader)
    requires ValidFile(m)
    ensures var k := KindOf(AtomId(atom.atomType));
            FileChild(f, rev, c, m, atom) == Outcome(Err(TooManyAtoms), c) <==> 0 <= k && Count(m, k) == Capacity(k)
  {
  }

  /**
   * The pnot guard as written in both revisions: the preview count is
   * compared with the capacity of the wide collection.
   */
  predicate PreviewGuardAsWritten(m: MovieFile) {
    m.previewCount >= MAX_WIDE_ATOMS
  }

  /**
   * With the single preview slot taken, the guard as written lets a
   * second pnot atom through to a store at index previewCount, past the
   * end of the preview collection; the guard of the model rejects it.
   */
  lemma PreviewGuardAsWrittenOverflows(f: File, rev: Revision, c: Cursor, m: MovieFile, atom: AtomHeader)
    requires ValidFile(m) && m.previewCount == MAX_PREVIEW_ATOMS
    requires AtomId(atom.atomType) == PNOT_ID
    ensures !PreviewGuardAsWritten(m) && m.previewCount >= |m.preview|
    ensures FileChild(f, rev, c, m, atom) == Outcome(Err(TooManyAtoms), c)
  {
  }

  /**
   * A top-level atom whose tag is not recognised is skipped whole: the
   * file is unchanged and the stream continues at its offset + size, or
   * at the end of the file for a declared size of 0.
   */
  lemma UnknownTopLevelSkipped(f: File, rev: Revision, c: Cursor, m: MovieFile, atom: AtomHeader)
    requires ValidFile(m)
    requires KindOf(AtomId(atom.atomType)) == -1
    ensures FileChild(f, rev, c, m, atom).result == Ok(m)
    ensures atom.size > 0 ==> FileChild(f, rev, c, m, atom).cursor.pos == c.pos + atom.size
    ensures atom.size == 0 ==> FileChild(f, rev, c, m, atom).cursor.pos == |f.data|
  {
  }

  /**
   * Once the end-of-file indicator is set, as it is after every decoded
   * moov atom, the top-level loop stops: with what it has unless the
   * error indicator is also set.
   */
  lemma LoopStopsAtEof(f: File, rev: Revision, c: Cursor, m: MovieFile)
    requires ValidFile(m) && c.eof
    ensures FileLoop(f, rev, c, m).result == if c.error then Err(IOError) else Ok(m)
  {
  }

  /**
   * mdat, free, skip and wide atoms are stored at index movieCount, so a
   * second mdat before the moov atom overwrites the first and its own
   * slot stays empty.
   */
  lemma MovieDataSlotReused(f: File, rev: Revision, c: Cursor, m: MovieFile, atom: AtomHeader)
    requires ValidFile(m)
    requires AtomId(atom.atomType) == MDAT_ID
    requires FileChild(f, rev, c, m, atom).result.Ok?
    ensures var m' := FileChild(f, rev, c, m, atom).result.value;
            && m'.movieData[m.movieCount] == DecodeOpaque(f, c).result.value
            && (forall i :: 0 <= i < MAX_MOVIE_DATA_ATOMS && i != m.movieCount ==> m'.movieData[i] == m.movieData[i])
  {
  }

  /**
   * For every kind among mdat, free, skip and wide, an accepted atom is
   * stored at index movieCount of its collection and the rest of that
   * collection is kept.
   */
  lemma OpaqueSlotIsMovieCount(f: File, rev: Revision, c: Cursor, m: MovieFile, atom: AtomHeader)
    requires ValidFile(m)
    requires 2 <= KindOf(AtomId(atom.atomType)) <= 5
    requires FileChild(f, rev, c, m, atom).result.Ok?
    ensures var k := KindOf(AtomId(atom.atomType));
            var m' := FileChild(f, rev, c, m, atom).result.value;
            && m'.movieCount == m.movieCount
            && Opaques(m', k)[m.movieCount] == DecodeOpaque(f, c).result.value
            && (forall i :: 0 <= i < |Opaques(m, k)| && i != m.movieCount ==> Opaques(m', k)[i] == Opaques(m, k)[i])
  {
    StoreOpaqueKeeps(m, KindOf(AtomId(atom.atomType)), DecodeOpaque(f, c).result.value);
  }

  /**
   * Two atoms of one opaque kind stored in a row: the count rises by two,
   * but both land at index movieCount, so the second replaces the first
   * and no other slot receives anything.
   */
  lemma SecondStoreOverwritesFirst(m: MovieFile, k: int, a: OpaqueAtom, b: OpaqueAtom)
    requires ValidFile(m) && 2 <= k <= 5 && Count(m, k) + 2 <= Capacity(k)
    ensures var m2 := StoreOpaque(StoreOpaque(m, k, a), k, b);
            && Count(m2, k) == Count(m, k) + 2
            && Opaques(m2, k)[m.movieCount] == b
            && (forall i :: 0 <= i < |Opaques(m, k)| && i != m.movieCount ==> Opaques(m2, k)[i] == Opaques(m, k)[i])
  {
    StoreOpaqueKeeps(m, k, a);
    StoreOpaqueKeeps(StoreOpaque(m, k, a), k, b);
  }

  /** A fault-free stream too short for one atom header decodes to the empty movie file. */
  lemma ShortFileIsEmpty(f: File, rev: Revision, c: Cursor)
    requires |f.data| < 8 && !Faults(f, 0, 8)
    ensures DecodeMovieFile(f, rev, c).result == Ok(EmptyFile())
  {
    FaultsSplit(f, 0, 4, 4);
    var size := DecodeU32(f, Start);
    if size.result.Ok? {
      assert size.cursor == Cursor(4, false, false);
      assert Fread(f, size.cursor, 4).1.eof;
    }
  }

  /** A fault in the first size field ends the decode with IOError. */
  lemma FaultInFirstSize(f: File, rev: Revision, c: Cursor)
    requires Faults(f, 0, 4)
    ensures DecodeMovieFile(f, rev, c).result == Err(IOError)
  {
    HeaderOutcome(f, Start);
  }

  /** qtff_read_movie_file. */
  method ReadMovieFile(s: Stream, rev: Revision) returns (r: Result<MovieFile>)
    modifies s
    ensures Outcome(r, s.State()) == DecodeMovieFile(s.file, rev, old(s.State()))
  {
    var movie := EmptyFile();
    s.Rewind();
    ghost var before := s.State();
    var next := ReadAtomHeader(s);
    while next.Ok?
      invariant ValidFile(movie)
      invariant DecodeAtomHeader(s.file, before) == Outcome(next, s.State())
      invariant FileLoop(s.file, rev, before, movie) == DecodeMovieFile(s.file, rev, old(s.State()))
      decreases Remaining(s.file, before)
    {
      s.Seek(-8);
      movie :- ReadFileChild(s, rev, movie, next.value);
      before := s.State();
      next := ReadAtomHeader(s);
    }
    if next.error != EOF {
      return Err(next.error);
    }
    return Ok(movie);
  }

  /** The body of the loop in qtff_read_movie_file: the switch on the atom's tag. */
  method ReadFileChild(s: Stream, rev: Revision, movie: MovieFile, atom: AtomHeader) returns (r: Result<MovieFile>)
    requires ValidFile(movie)
    modifies s
    ensures Outcome(r, s.State()) == FileChild(s.file, rev, old(s.State()), movie, atom)
  {
    var k := KindOf(AtomId(atom.atomType));
    if k == -1 {
      if atom.size == 0 {
        s.SeekToEnd();
      } else {
        s.Seek(atom.size);
      }
      return Ok(movie);
    }
    if Count(movie, k) >= Capacity(k) {
      return Err(TooManyAtoms);
    }
    if k == 0 {
      var fileType :- ReadFileType(s);
      return Ok(StoreFileType(movie, fileType));
    } else if k == 1 {
      var movieAtom :- ReadMovieAtom(s, rev);
      return Ok(StoreMovie(movie, movieAtom));
    } else if k == 6 {
      var preview :- ReadPreview(s);
      return Ok(StorePreview(movie, preview));
    } else {
      var stored :- ReadOpaque(s);
      return Ok(StoreOpaque(movie, k, stored));
    }
  }
}
