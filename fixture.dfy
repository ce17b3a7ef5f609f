/**
 * The top-level layout of the sample movie the decoder's own tests read:
 * an ftyp atom of 20 bytes at 0, a wide atom of 8 bytes at 20, an mdat
 * atom of 28302 bytes at 28 and a moov atom of 706 bytes at 28330 that
 * ends the file. Inside the moov the layout assumed here is an mvhd atom
 * of 108 bytes followed by one trak atom of 590 bytes. Every byte outside
 * the eight atom headers is left free, and no read fails.
 */
module Fixture {
  import opened QtffTypes
  import opened ByteOrder
  import opened ByteStream
  import opened AtomIds
  import opened FieldReaders
  import opened AtomDecoders
  import opened MovieDecoder
  import opened MovieFileDecoder

  /** The eight bytes at p are an atom header: the size, most significant byte first, then the tag. */
  predicate HeaderIs(f: File, p: nat, size: uint32, t: Tag) {
    p + 8 <= |f.data| && BigEndian(f.data[p..p + 4]) == size && f.data[p + 4..p + 8] == t
  }

  const FTYP := TagOf("ftyp")
  const WIDE := TagOf("wide")
  const MDAT := TagOf("mdat")
  const MOOV := TagOf("moov")
  const MVHD := TagOf("mvhd")
  const TRAK := TagOf("trak")

  /** A fault-free file with the eight headers of the sample at their offsets, 29036 bytes long. */
  predicate SampleLayout(f: File) {
    && f.faulty == {}
    && |f.data| == 29036
    && HeaderIs(f, 0, 20, FTYP)
    && HeaderIs(f, 20, 8, WIDE)
    && HeaderIs(f, 28, 28302, MDAT)
    && HeaderIs(f, 28330, 706, MOOV)
    && HeaderIs(f, 28338, 108, MVHD)
    && HeaderIs(f, 28446, 590, TRAK)
  }

  /** The header bytes at p read back as the header at p, with the cursor just past them. */
  lemma HeaderAt(f: File, p: nat, size: uint32, t: Tag)
    requires f.faulty == {} && HeaderIs(f, p, size, t)
    ensures DecodeAtomHeader(f, Cursor(p, false, false)) ==
              Outcome(Ok(AtomHeader(p, size, t)), Cursor(p + 8, false, false))
  {
    HeaderOutcome(f, Cursor(p, false, false));
  }

  /** An atom that lies inside a fault-free file decodes as an opaque atom and is skipped whole. */
  lemma OpaqueAt(f: File, p: nat, size: uint32, t: Tag)
    requires f.faulty == {} && 8 <= size && p + size <= |f.data| && HeaderIs(f, p, size, t)
    ensures DecodeOpaque(f, Cursor(p, false, false)) ==
              Outcome(Ok(OpaqueAtom(AtomHeader(p, size, t))), Cursor(p + size, false, false))
  {
    HeaderAt(f, p, size, t);
  }

  /** The ftyp atom of the sample: one compatible brand, read clean, leaving the cursor at 20. */
  lemma SampleFileType(f: File)
    requires SampleLayout(f)
    ensures var r := DecodeFileType(f, Start);
            && r.result.Ok?
            && r.result.value.header == AtomHeader(0, 20, FTYP)
            && r.result.value.compatibleBrandsCount == 1
            && r.cursor == Cursor(20, false, false)
  {
    HeaderAt(f, 0, 20, FTYP);
    FileTypeTooMany(f, Start);
    FileTypeLayout(f, Start);
    assert BrandCount(20) == 1;
    FreadClean(f, Cursor(16, false, false), 4);
  }

  /** One turn of the top-level loop over the header bytes at p, when the atom's case succeeds. */
  lemma FileLoopAt(f: File, rev: Revision, p: nat, size: uint32, t: Tag, m: MovieFile)
    requires ValidFile(m)
    requires f.faulty == {} && HeaderIs(f, p, size, t)
    ensures var s := FileChild(f, rev, Cursor(p, false, false), m, AtomHeader(p, size, t));
            s.result.Ok? ==> FileLoop(f, rev, Cursor(p, false, false), m) == FileLoop(f, rev, s.cursor, s.result.value)
  {
    HeaderAt(f, p, size, t);
  }

  /** One turn of the moov loop over the header bytes at p, when the child's case succeeds. */
  lemma MovieLoopAt(f: File, rev: Revision, p: nat, size: uint32, t: Tag, m: MovieAtom)
    requires ValidMovie(m)
    requires f.faulty == {} && HeaderIs(f, p, size, t)
    ensures var s := MovieChild(f, rev, Cursor(p, false, false), m, AtomHeader(p, size, t));
            s.result.Ok? ==> MovieLoop(f, rev, Cursor(p, false, false), m) == MovieLoop(f, rev, s.cursor, s.result.value)
  {
    HeaderAt(f, p, size, t);
  }

  /**
   * A top-level mdat, free, skip or wide atom with room in its
   * collection is stored, and the loop goes on just past it.
   */
  lemma OpaqueStepAt(f: File, rev: Revision, p: nat, size: uint32, t: Tag, m: MovieFile, k: int, m': MovieFile)
    requires ValidFile(m) && 2 <= k <= 5 && KindOf(AtomId(t)) == k && Count(m, k) < Capacity(k)
    requires f.faulty == {} && 8 <= size && p + size <= |f.data| && HeaderIs(f, p, size, t)
    requires m' == StoreOpaque(m, k, OpaqueAtom(AtomHeader(p, size, t)))
    ensures FileLoop(f, rev, Cursor(p, false, false), m) == FileLoop(f, rev, Cursor(p + size, false, false), m')
  {
    OpaqueAt(f, p, size, t);
    FileLoopAt(f, rev, p, size, t, m);
  }

  /** The mvhd atom of the sample, read by either revision, leaving the cursor at the trak atom. */
  lemma SampleMovieHeader(f: File, rev: Revision)
    requires SampleLayout(f)
    ensures var r := if rev == Current then DecodeMovieHeader(f, Cursor(28338, false, false))
                     else DecodeMovieHeaderLegacy(f, Cursor(28338, false, false));
            && r.result.Ok?
            && r.result.value.header == AtomHeader(28338, 108, MVHD)
            && r.cursor == Cursor(28446, false, false)
  {
    var c := Cursor(28338, false, false);
    HeaderAt(f, 28338, 108, MVHD);
    OpaqueAt(f, 28338, 108, MVHD);
    if rev == Current {
      MovieHeaderOutcome(f, c);
    }
  }

  /** The mvhd child of the sample's moov is stored in the empty movie. */
  lemma SampleMovieHeaderChild(f: File, rev: Revision, m: MovieAtom)
    requires SampleLayout(f) && ValidMovie(m) && m.movieHeader.header.size == 0
    ensures var s := MovieChild(f, rev, Cursor(28338, false, false), m, AtomHeader(28338, 108, MVHD));
            && s.result.Ok?
            && s.result.value == m.(movieHeader := s.result.value.movieHeader)
            && s.result.value.movieHeader.header == AtomHeader(28338, 108, MVHD)
            && s.cursor == Cursor(28446, false, false)
  {
    assert AtomId(MVHD) == MVHD_ID by {
      CaseLabelsAreTagIds();
    }
    SampleMovieHeader(f, rev);
  }

  /** The trak child of the sample's moov takes the first track slot. */
  lemma SampleTrackChild(f: File, rev: Revision, m: MovieAtom)
    requires SampleLayout(f) && ValidMovie(m) && m.trackCount == 0
    ensures var s := MovieChild(f, rev, Cursor(28446, false, false), m, AtomHeader(28446, 590, TRAK));
            && s.result.Ok?
            && s.result.value == m.(tracks := m.tracks[0 := OpaqueAtom(AtomHeader(28446, 590, TRAK))], trackCount := 1)
            && s.cursor == Cursor(29036, false, false)
  {
    assert AtomId(TRAK) == TRAK_ID by {
      CaseLabelsAreTagIds();
    }
    OpaqueAt(f, 28446, 590, TRAK);
  }

  /** The child header read at the end of the sample fails with EOF, which ends the moov loop. */
  lemma SampleMovieEnd(f: File, rev: Revision, m: MovieAtom)
    requires SampleLayout(f) && ValidMovie(m)
    ensures MovieLoop(f, rev, Cursor(29036, false, false), m) == Outcome(Ok(m), Cursor(29036, true, false))
  {
    var c := Cursor(29036, false, false);
    assert DecodeU32(f, c) == Outcome(Err(EOF), Cursor(29036, true, false));
    assert DecodeAtomHeader(f, c) == Outcome(Err(EOF), Cursor(29036, true, false));
  }

  /**
   * The moov atom of the sample: its mvhd and its single trak are
   * stored, and the child header read at the end of the file stops the
   * loop with the end-of-file indicator set.
   */
  lemma SampleMovie(f: File, rev: Revision)
    requires SampleLayout(f)
    ensures var r := DecodeMovieAtom(f, rev, Cursor(28330, false, false));
            && r.result.Ok?
            && r.result.value.header == AtomHeader(28330, 706, MOOV)
            && r.result.value.movieHeader.header == AtomHeader(28338, 108, MVHD)
            && r.result.value.trackCount == 1
            && r.result.value.tracks[0].header == AtomHeader(28446, 590, TRAK)
            && r.cursor == Cursor(29036, true, false)
  {
    var c0 := Cursor(28338, false, false);
    var c1 := Cursor(28446, false, false);
    var c2 := Cursor(29036, false, false);
    var m0 := EmptyMovie(AtomHeader(28330, 706, MOOV));
    HeaderAt(f, 28330, 706, MOOV);
    assert DecodeMovieAtom(f, rev, Cursor(28330, false, false)) == MovieLoop(f, rev, c0, m0);

    SampleMovieHeaderChild(f, rev, m0);
    MovieLoopAt(f, rev, 28338, 108, MVHD, m0);
    var m1 := MovieChild(f, rev, c0, m0, AtomHeader(28338, 108, MVHD)).result.value;

    SampleTrackChild(f, rev, m1);
    MovieLoopAt(f, rev, 28446, 590, TRAK, m1);
    var m2 := MovieChild(f, rev, c1, m1, AtomHeader(28446, 590, TRAK)).result.value;

    SampleMovieEnd(f, rev, m2);
  }

  /** The moov atom the sample decodes to. */
  function SampleMovieAtom(f: File, rev: Revision): (mv: MovieAtom)
    requires SampleLayout(f)
    ensures ValidMovie(mv)
    ensures mv.header == AtomHeader(28330, 706, MOOV) && mv.movieHeader.header == AtomHeader(28338, 108, MVHD)
    ensures mv.trackCount == 1 && mv.tracks[0].header == AtomHeader(28446, 590, TRAK)
  {
    SampleMovie(f, rev);
    DecodeMovieAtom(f, rev, Cursor(28330, false, false)).result.value
  }

  /** The ftyp atom the sample decodes to. */
  function SampleFileTypeAtom(f: File): (ft: FileTypeAtom)
    requires SampleLayout(f)
    ensures ft.header == AtomHeader(0, 20, FTYP) && ft.compatibleBrandsCount == 1
  {
    SampleFileType(f);
    DecodeFileType(f, Start).result.value
  }

  /** The moov atom of the sample is stored in the file's only movie slot, with the end-of-file indicator set. */
  lemma SampleMovieChild(f: File, rev: Revision, m: MovieFile)
    requires SampleLayout(f) && ValidFile(m) && m.movieCount == 0
    ensures FileChild(f, rev, Cursor(28330, false, false), m, AtomHeader(28330, 706, MOOV)) ==
              Outcome(Ok(StoreMovie(m, SampleMovieAtom(f, rev))), Cursor(29036, true, false))
  {
    assert AtomId(MOOV) == MOOV_ID by {
      CaseLabelsAreTagIds();
    }
    SampleMovie(f, rev);
  }

  /** The ftyp atom of the sample is stored in the file's only file type slot, and the loop goes on at 20. */
  lemma SampleFileTypeChild(f: File, rev: Revision)
    requires SampleLayout(f)
    ensures FileChild(f, rev, Start, EmptyFile(), AtomHeader(0, 20, FTYP)) ==
              Outcome(Ok(StoreFileType(EmptyFile(), SampleFileTypeAtom(f))), Cursor(20, false, false))
  {
    assert AtomId(FTYP) == FTYP_ID by {
      CaseLabelsAreTagIds();
    }
    SampleFileType(f);
  }

  /** From the moov atom on: the moov takes the only movie slot and the loop ends there. */
  lemma SampleFromMovie(f: File, rev: Revision, m: MovieFile)
    requires SampleLayout(f) && ValidFile(m) && m.movieCount == 0
    ensures FileLoop(f, rev, Cursor(28330, false, false), m) ==
              Outcome(Ok(StoreMovie(m, SampleMovieAtom(f, rev))), Cursor(29036, true, false))
  {
    SampleMovieChild(f, rev, m);
    FileLoopAt(f, rev, 28330, 706, MOOV, m);
    LoopStopsAtEof(f, rev, Cursor(29036, true, false), StoreMovie(m, SampleMovieAtom(f, rev)));
  }

  /** Storing an opaque atom of kind k leaves the file valid and the movie and other opaque counts as they were. */
  lemma StoredCounts(m: MovieFile, k: int, a: OpaqueAtom)
    requires ValidFile(m) && 2 <= k <= 5 && Count(m, k) < Capacity(k)
    ensures var m' := StoreOpaque(m, k, a);
            && ValidFile(m')
            && m'.movieCount == m.movieCount
            && (k != 2 ==> m'.movieDataCount == m.movieDataCount)
  {
    var m' := StoreOpaque(m, k, a);
    assert Count(m', 1) == Count(m, 1) && Count(m', 2) == Count(m, 2) + (if k == 2 then 1 else 0);
  }

  /** The file after the sample's mdat atom is stored at index movieCount (0) of its collection. */
  function WithMovieData(m: MovieFile): (r: MovieFile)
    requires ValidFile(m) && m.movieDataCount == 0 && m.movieCount == 0
    ensures ValidFile(r) && r.movieCount == 0 && r.movieDataCount == 1
    ensures r.movieData[0] == OpaqueAtom(AtomHeader(28, 28302, MDAT))
  {
    StoredCounts(m, 2, OpaqueAtom(AtomHeader(28, 28302, MDAT)));
    StoreOpaque(m, 2, OpaqueAtom(AtomHeader(28, 28302, MDAT)))
  }

  /** The file after the sample's wide atom is stored at index movieCount (0) of its collection. */
  function WithWide(m: MovieFile): (r: MovieFile)
    requires ValidFile(m) && m.wideCount == 0 && m.movieDataCount == 0 && m.movieCount == 0
    ensures ValidFile(r) && r.movieCount == 0 && r.movieDataCount == 0 && r.wideCount == 1
    ensures r.wide[0] == OpaqueAtom(AtomHeader(20, 8, WIDE))
  {
    StoredCounts(m, 5, OpaqueAtom(AtomHeader(20, 8, WIDE)));
    StoreOpaque(m, 5, OpaqueAtom(AtomHeader(20, 8, WIDE)))
  }

  /** From the wide atom on: the wide is stored, then the mdat, then the moov. */
  lemma SampleFromWide(f: File, rev: Revision, m: MovieFile)
    requires SampleLayout(f) && ValidFile(m) && m.wideCount == 0 && m.movieDataCount == 0 && m.movieCount == 0
    ensures FileLoop(f, rev, Cursor(20, false, false), m) ==
              Outcome(Ok(StoreMovie(WithMovieData(WithWide(m)), SampleMovieAtom(f, rev))), Cursor(29036, true, false))
  {
    assert AtomId(WIDE) == WIDE_ID && AtomId(MDAT) == MDAT_ID by {
      CaseLabelsAreTagIds();
    }
    OpaqueStepAt(f, rev, 20, 8, WIDE, m, 5, WithWide(m));
    OpaqueStepAt(f, rev, 28, 28302, MDAT, WithWide(m), 2, WithMovieData(WithWide(m)));
    SampleFromMovie(f, rev, WithMovieData(WithWide(m)));
  }

  /** The movie file the sample decodes to: its four atoms stored in reading order. */
  function SampleMovieFile(f: File, rev: Revision): (m: MovieFile)
    requires SampleLayout(f)
    ensures ValidFile(m)
    ensures m.fileTypeCount == 1 && m.fileType[0].header == AtomHeader(0, 20, FTYP)
    ensures m.movieCount == 1 && m.movie[0].header == AtomHeader(28330, 706, MOOV)
    ensures m.movieDataCount == 1 && m.movieData[0].header == AtomHeader(28, 28302, MDAT)
    ensures m.freeCount == 0 && m.skipCount == 0
    ensures m.wideCount == 1 && m.wide[0].header == AtomHeader(20, 8, WIDE)
    ensures m.previewCount == 0
  {
    var m1 := StoreFileType(EmptyFile(), SampleFileTypeAtom(f));
    var m2 := StoreOpaque(m1, 5, OpaqueAtom(AtomHeader(20, 8, WIDE)));
    var m3 := StoreOpaque(m2, 2, OpaqueAtom(AtomHeader(28, 28302, MDAT)));
    StoreMovie(m3, SampleMovieAtom(f, rev))
  }

  /** The whole top-level loop over the sample. */
  lemma SampleLoop(f: File, rev: Revision)
    requires SampleLayout(f)
    ensures FileLoop(f, rev, Start, EmptyFile()) == Outcome(Ok(SampleMovieFile(f, rev)), Cursor(29036, true, false))
  {
    SampleFileTypeChild(f, rev);
    FileLoopAt(f, rev, 0, 20, FTYP, EmptyFile());
    SampleFromWide(f, rev, StoreFileType(EmptyFile(), SampleFileTypeAtom(f)));
  }

  /**
   * The top-level atoms of the sample, as the decoder's tests expect
   * them: one ftyp at 0 of 20 bytes, one moov at 28330 of 706 bytes, one
   * mdat at 28 of 28302 bytes, one wide at 20 of 8 bytes, and no free,
   * skip or pnot atom.
   */
  lemma SampleTopAtoms(f: File, rev: Revision, c: Cursor)
    requires SampleLayout(f)
    ensures var r := DecodeMovieFile(f, rev, c);
            && r.result.Ok?
            && var m := r.result.value;
            && m.fileTypeCount == 1 && m.fileType[0].header == AtomHeader(0, 20, FTYP)
            && m.movieCount == 1 && m.movie[0].header == AtomHeader(28330, 706, MOOV)
            && m.movieDataCount == 1 && m.movieData[0].header == AtomHeader(28, 28302, MDAT)
            && m.freeCount == 0 && m.skipCount == 0
            && m.wideCount == 1 && m.wide[0].header == AtomHeader(20, 8, WIDE)
            && m.previewCount == 0
  {
    SampleLoop(f, rev);
  }
}
