/**
 * qtff_read_movie_atom: the moov header, then a loop that reads child
 * headers until one fails, steps back over each header and dispatches on
 * its tag. EOF from the child header read ends the loop successfully;
 * the loop does not stop at the end of the moov atom.
 */
module MovieDecoder {
  import opened QtffTypes
  import opened ByteOrder
  import opened ByteStream
  import opened AtomIds
  import opened FieldReaders
  import opened AtomDecoders

  /**
   * The two revisions of the decoder: Current reads the mvhd and clip
   * fields, Legacy skips them as opaque atoms.
   */
  datatype Revision = Current | Legacy

  /**
   * Skipping an unrecognised atom from its start: `size` bytes forward.
   * A declared size of 0 means the atom runs to the end of the file, so
   * the skip goes to the end rather than nowhere.
   */
  function UnknownSkip(f: File, c: Cursor, size: uint32): (r: Cursor)
    ensures size > 0 ==> r.pos == c.pos + size
    ensures size == 0 ==> r.pos == |f.data|
    ensures !r.eof && r.error == c.error
  {
    if size == 0 then SeekEnd(f, c) else Fseek(c, size)
  }

  /** From inside the file, skipping an unrecognised atom always moves forward. */
  lemma UnknownSkipProgress(f: File, c: Cursor, size: uint32)
    requires c.pos < |f.data|
    ensures UnknownSkip(f, c, size).pos > c.pos
    ensures size > 0 ==> UnknownSkip(f, c, size) == Fseek(c, size)
  {
  }

  /**
   * The default case as written in both revisions: fseek by the declared
   * size, so a size of 0 stays put.
   */
  function UnknownSkipAsWritten(c: Cursor, size: uint32): (r: Cursor)
    ensures r.pos == c.pos + size && !r.eof && r.error == c.error
  {
    Fseek(c, size)
  }

  /**
   * With the skip as written in both revisions, a clean header of size 0
   * and an unknown tag returns the loop to the very cursor it read the
   * header from, so the loop reads the same header forever; the model's
   * skip instead moves to the end of the file.
   */
  lemma ZeroSizeAtomStallsAsWritten(f: File, c: Cursor)
    requires Clean(f, c, 8) && BigEndian(f.data[c.pos..c.pos + 4]) == 0
    ensures var h := DecodeAtomHeader(f, c);
            && h.result.Ok? && h.result.value.size == 0
            && UnknownSkipAsWritten(Fseek(h.cursor, -8), h.result.value.size) == c
            && DecodeAtomHeader(f, UnknownSkipAsWritten(Fseek(h.cursor, -8), h.result.value.size)) == h
            && UnknownSkip(f, Fseek(h.cursor, -8), h.result.value.size).pos == |f.data| > c.pos
  {
    HeaderOutcome(f, c);
  }

  /**
   * What a successful loop keeps from the movie it started with: the
   * header, every singleton slot already filled, and every track already
   * stored; the track count never decreases.
   */
  predicate Extends(m: MovieAtom, m': MovieAtom)
    requires ValidMovie(m) && ValidMovie(m')
  {
    && m'.header == m.header
    && m.trackCount <= m'.trackCount
    && m'.tracks[..m.trackCount] == m.tracks[..m.trackCount]
    && (m.movieHeader.header.size != 0 ==> m'.movieHeader == m.movieHeader)
    && (m.clipping.header.size != 0 ==> m'.clipping == m.clipping)
    && (m.colorTable.header.size != 0 ==> m'.colorTable == m.colorTable)
    && (m.userData.header.size != 0 ==> m'.userData == m.userData)
  }

  lemma ExtendsTransitive(a: MovieAtom, b: MovieAtom, c: Result<MovieAtom>)
    requires ValidMovie(a) && ValidMovie(b)
    ensures c.Ok? && ValidMovie(c.value) && Extends(a, b) && Extends(b, c.value) ==> Extends(a, c.value)
  {
    if c.Ok? && ValidMovie(c.value) && Extends(a, b) && Extends(b, c.value) {
      assert c.value.tracks[..a.trackCount] == c.value.tracks[..b.trackCount][..a.trackCount];
      assert b.tracks[..a.trackCount] == b.tracks[..b.trackCount][..a.trackCount];
    }
  }

  /** The case of the switch on a child's tag, with the cursor at the child's start. */
  function MovieChild(f: File, rev: Revision, c: Cursor, m: MovieAtom, atom: AtomHeader): (r: Outcome<MovieAtom>)
    requires ValidMovie(m)
    ensures r.result.Ok? ==> ValidMovie(r.result.value) && Extends(m, r.result.value)
    ensures r.result.Ok? && c.pos < |f.data| ==> r.cursor.pos > c.pos
    ensures c.pos <= |f.data| ==> r.cursor.pos >= c.pos
  {
    var id := AtomId(atom.atomType);
    if id == MVHD_ID then
      if m.movieHeader.header.size != 0 then Outcome(Err(TooManyAtoms), c)
      else
        var p :- if rev == Current then DecodeMovieHeader(f, c) else DecodeMovieHeaderLegacy(f, c);
        Outcome(Ok(m.(movieHeader := p.0)), p.1)
    else if id == CLIP_ID then
      if m.clipping.header.size != 0 then Outcome(Err(TooManyAtoms), c)
      else
        var p :- if rev == Current then DecodeClipping(f, c) else DecodeClippingLegacy(f, c);
        Outcome(Ok(m.(clipping := p.0)), p.1)
    else if id == TRAK_ID then
      if m.trackCount >= MAX_TRACK_ATOMS then Outcome(Err(TooManyAtoms), c)
      else
        var p :- DecodeOpaque(f, c);
        Outcome(Ok(m.(tracks := m.tracks[m.trackCount := p.0], trackCount := m.trackCount + 1)), p.1)
    else if id == UDTA_ID then
      if m.userData.header.size != 0 then Outcome(Err(TooManyAtoms), c)
      else
        var p :- DecodeOpaque(f, c);
        Outcome(Ok(m.(userData := p.0)), p.1)
    else if id == CTAB_ID then
      if m.colorTable.header.size != 0 then Outcome(Err(TooManyAtoms), c)
      else
        var p :- DecodeOpaque(f, c);
        Outcome(Ok(m.(colorTable := p.0)), p.1)
    else
      Outcome(Ok(m), UnknownSkip(f, c, atom.size))
  }

  /**
   * The child loop from cursor c with the movie built so far. It ends
   * when a child header read fails: successfully on EOF, otherwise with
   * that error. A failing child decoder ends it with the child's error.
   */
  function MovieLoop(f: File, rev: Revision, c: Cursor, m: MovieAtom): (r: Outcome<MovieAtom>)
    requires ValidMovie(m)
    ensures r.result.Ok? ==> ValidMovie(r.result.value) && Extends(m, r.result.value) && r.cursor.eof
    ensures r.cursor.pos >= c.pos
    decreases Remaining(f, c)
  {
    var h := DecodeAtomHeader(f, c);
    if h.result.Err? then
      if h.result.error == EOF then Outcome(Ok(m), h.cursor) else h.PropagateFailure()
    else
      var step := MovieChild(f, rev, Fseek(h.cursor, -8), m, h.result.value);
      if step.result.Err? then step
      else
        var r := MovieLoop(f, rev, step.cursor, step.result.value);
        ExtendsTransitive(m, step.result.value, r.result);
        r
  }

  function DecodeMovieAtom(f: File, rev: Revision, c: Cursor): (r: Outcome<MovieAtom>)
    ensures r.result.Ok? ==>
              && ValidMovie(r.result.value)
              && r.result.value.header.offset == c.pos
              && r.cursor.eof
              && r.cursor.pos >= c.pos + 8
    ensures r.result.Err? ==> ReadError(r.result.error) || r.cursor.pos >= c.pos + 8
    ensures r.cursor.pos >= c.pos
  {
    var h :- DecodeAtomHeader(f, c);
    MovieLoop(f, rev, h.1, EmptyMovie(h.0))
  }

  /**
   * A second mvhd, clip, udta or ctab child, or a fifth trak child, is
   * rejected with TooManyAtoms before anything is read.
   */
  lemma MovieChildLimits(f: File, rev: Revision, c: Cursor, m: MovieAtom, atom: AtomHeader)
    requires ValidMovie(m)
    ensures var id := AtomId(atom.atomType);
            (|| (id == MVHD_ID && m.movieHeader.header.size != 0)
             || (id == CLIP_ID && m.clipping.header.size != 0)
             || (id == UDTA_ID && m.userData.header.size != 0)
             || (id == CTAB_ID && m.colorTable.header.size != 0)
             || (id == TRAK_ID && m.trackCount == MAX_TRACK_ATOMS))
            <==> MovieChild(f, rev, c, m, atom) == Outcome(Err(TooManyAtoms), c)
  {
  }

  /**
   * A child whose tag is none of the five is skipped whole: the movie is
   * unchanged and the stream continues at the child's offset + size, or
   * at the end of the file for a declared size of 0.
   */
  lemma UnknownChildSkipped(f: File, rev: Revision, c: Cursor, m: MovieAtom, atom: AtomHeader)
    requires ValidMovie(m)
    requires AtomId(atom.atomType) !in {MVHD_ID, CLIP_ID, TRAK_ID, UDTA_ID, CTAB_ID}
    ensures MovieChild(f, rev, c, m, atom).result == Ok(m)
    ensures atom.size > 0 ==> MovieChild(f, rev, c, m, atom).cursor.pos == c.pos + atom.size
    ensures atom.size == 0 ==> MovieChild(f, rev, c, m, atom).cursor.pos == |f.data|
  {
  }

  /**
   * A trak child is accepted exactly when fewer than four tracks are
   * stored and its header is clean; the track count then rises by one,
   * the skipped atom is stored at the old count's slot, and every other
   * slot and every other part of the movie is kept.
   */
  lemma MovieChildTrack(f: File, rev: Revision, c: Cursor, m: MovieAtom, atom: AtomHeader)
    requires ValidMovie(m) && AtomId(atom.atomType) == TRAK_ID
    ensures MovieChild(f, rev, c, m, atom).result.Ok? <==> m.trackCount < MAX_TRACK_ATOMS && Clean(f, c, 8)
    ensures var r := MovieChild(f, rev, c, m, atom);
            r.result.Ok? ==>
              && var m' := r.result.value;
              && m'.trackCount == m.trackCount + 1
              && |m'.tracks| == |m.tracks|
              && m'.tracks[m.trackCount] == DecodeOpaque(f, c).result.value
              && (forall i :: 0 <= i < |m.tracks| && i != m.trackCount ==> m'.tracks[i] == m.tracks[i])
              && m'.(tracks := m.tracks, trackCount := m.trackCount) == m
              && r.cursor == DecodeOpaque(f, c).cursor
  {
    OpaqueOutcome(f, c);
  }

  /**
   * An mvhd child is accepted exactly when no movie header is stored yet
   * and its bytes are clean (108 of them when the fields are read, 8 when
   * the atom is skipped); only the movie-header slot then changes, to the
   * atom the revision's decoder returns.
   */
  lemma MovieChildHeader(f: File, rev: Revision, c: Cursor, m: MovieAtom, atom: AtomHeader)
    requires ValidMovie(m) && AtomId(atom.atomType) == MVHD_ID
    ensures MovieChild(f, rev, c, m, atom).result.Ok? <==>
              m.movieHeader.header.size == 0 && Clean(f, c, if rev == Current then 108 else 8)
    ensures var r := MovieChild(f, rev, c, m, atom);
            var d := if rev == Current then DecodeMovieHeader(f, c) else DecodeMovieHeaderLegacy(f, c);
            r.result.Ok? ==> r.result.value == m.(movieHeader := d.result.value) && r.cursor == d.cursor
  {
    MovieHeaderOutcome(f, c);
    OpaqueOutcome(f, c);
  }

  /**
   * A clip child is accepted exactly when no clipping atom is stored yet
   * and its bytes are clean (the clip and region headers and the region's
   * fields, 26 bytes, when decoded; 8 when skipped); only the clipping
   * slot then changes.
   */
  lemma MovieChildClipping(f: File, rev: Revision, c: Cursor, m: MovieAtom, atom: AtomHeader)
    requires ValidMovie(m) && AtomId(atom.atomType) == CLIP_ID
    ensures MovieChild(f, rev, c, m, atom).result.Ok? <==>
              m.clipping.header.size == 0 && Clean(f, c, if rev == Current then 26 else 8)
    ensures var r := MovieChild(f, rev, c, m, atom);
            var d := if rev == Current then DecodeClipping(f, c) else DecodeClippingLegacy(f, c);
            r.result.Ok? ==> r.result.value == m.(clipping := d.result.value) && r.cursor == d.cursor
  {
    ClippingOutcome(f, c);
    OpaqueOutcome(f, c);
  }

  /**
   * A udta or ctab child is accepted exactly when its slot is empty and
   * its header is clean; only that slot then changes, to the skipped atom.
   */
  lemma MovieChildOpaque(f: File, rev: Revision, c: Cursor, m: MovieAtom, atom: AtomHeader)
    requires ValidMovie(m) && AtomId(atom.atomType) in {UDTA_ID, CTAB_ID}
    ensures var r := MovieChild(f, rev, c, m, atom);
            AtomId(atom.atomType) == UDTA_ID ==>
              && (r.result.Ok? <==> m.userData.header.size == 0 && Clean(f, c, 8))
              && (r.result.Ok? ==> r.result.value == m.(userData := DecodeOpaque(f, c).result.value))
    ensures var r := MovieChild(f, rev, c, m, atom);
            AtomId(atom.atomType) == CTAB_ID ==>
              && (r.result.Ok? <==> m.colorTable.header.size == 0 && Clean(f, c, 8))
              && (r.result.Ok? ==> r.result.value == m.(colorTable := DecodeOpaque(f, c).result.value))
    ensures MovieChild(f, rev, c, m, atom).result.Ok? ==> MovieChild(f, rev, c, m, atom).cursor == DecodeOpaque(f, c).cursor
  {
    OpaqueOutcome(f, c);
  }

  /** qtff_read_movie_atom. */
  method ReadMovieAtom(s: Stream, rev: Revision) returns (r: Result<MovieAtom>)
    modifies s
    ensures Outcome(r, s.State()) == DecodeMovieAtom(s.file, rev, old(s.State()))
  {
    var header :- ReadAtomHeader(s);
    var movie := EmptyMovie(header);
    ghost var before := s.State();
    var next := ReadAtomHeader(s);
    while next.Ok?
      invariant ValidMovie(movie)
      invariant DecodeAtomHeader(s.file, before) == Outcome(next, s.State())
      invariant MovieLoop(s.file, rev, before, movie) == DecodeMovieAtom(s.file, rev, old(s.State()))
      decreases Remaining(s.file, before)
    {
      s.Seek(-8);
      movie :- ReadMovieChild(s, rev, movie, next.value);
      before := s.State();
      next := ReadAtomHeader(s);
    }
    if next.error != EOF {
      return Err(next.error);
    }
    return Ok(movie);
  }

  /** The body of the loop in qtff_read_movie_atom: the switch on the child's tag. */
  method ReadMovieChild(s: Stream, rev: Revision, movie: MovieAtom, atom: AtomHeader) returns (r: Result<MovieAtom>)
    requires ValidMovie(movie)
    modifies s
    ensures Outcome(r, s.State()) == MovieChild(s.file, rev, old(s.State()), movie, atom)
  {
    var id := AtomId(atom.atomType);
    if id == MVHD_ID {
      if movie.movieHeader.header.size != 0 {
        return Err(TooManyAtoms);
      }
      var movieHeader;
      if rev == Current {
        movieHeader :- ReadMovieHeader(s);
      } else {
        movieHeader :- ReadMovieHeaderLegacy(s);
      }
      return Ok(movie.(movieHeader := movieHeader));
    } else if id == CLIP_ID {
      if movie.clipping.header.size != 0 {
        return Err(TooManyAtoms);
      }
      var clipping;
      if rev == Current {
        clipping :- ReadClipping(s);
      } else {
        clipping :- ReadClippingLegacy(s);
      }
      return Ok(movie.(clipping := clipping));
    } else if id == TRAK_ID {
      if movie.trackCount >= MAX_TRACK_ATOMS {
        return Err(TooManyAtoms);
      }
      var track :- ReadOpaque(s);
      return Ok(movie.(tracks := movie.tracks[movie.trackCount := track], trackCount := movie.trackCount + 1));
    } else if id == UDTA_ID {
      if movie.userData.header.size != 0 {
        return Err(TooManyAtoms);
      }
      var userData :- ReadOpaque(s);
      return Ok(movie.(userData := userData));
    } else if id == CTAB_ID {
      if movie.colorTable.header.size != 0 {
        return Err(TooManyAtoms);
      }
      var colorTable :- ReadOpaque(s);
      return Ok(movie.(colorTable := colorTable));
    } else {
      if atom.size == 0 {
        s.SeekToEnd();
      } else {
        s.Seek(atom.size);
      }
      return Ok(movie);
    }
  }
}
