/**
 * The data model of the QuickTime file-format decoder: fixed-width
 * integers, the error enumeration, atom headers and one value type per
 * atom kind, with the fixed capacities of lib/qtff/qtff.h.
 *
 * C arrays of fixed capacity are sequences whose length IS the capacity,
 * next to an explicit count, so that a store at the wrong index can be
 * modelled as written.
 */
module QtffTypes {

  type byte = x: int | 0 <= x < 0x100
  type uint16 = x: int | 0 <= x < 0x1_0000
  type uint32 = x: int | 0 <= x < 0x1_0000_0000
  type uint64 = x: int | 0 <= x < 0x1_0000_0000_0000_0000

  /** A 4-byte atom type tag: raw bytes, not necessarily text. */
  type Tag = s: seq<byte> | |s| == 4 witness [0, 0, 0, 0]

  /** The error kinds of QTFFError, without QTFFErrorNone (success is `Ok`). */
  datatype Error = EOF | IOError | AtomTooLong | NotBasicAtomType | TooManyAtoms

  /** The numeric value of each enumerator, as the enum declares them. */
  function Code(e: Error): (c: nat)
    ensures 1 <= c <= 5
  {
    match e
    case EOF => 1
    case IOError => 2
    case AtomTooLong => 3
    case NotBasicAtomType => 4
    case TooManyAtoms => 5
  }

  lemma CodesDistinct(a: Error, b: Error)
    ensures Code(a) == Code(b) <==> a == b
  {
  }

  /**
   * A decoder's result: the value its `out` parameter receives, or the
   * error it returns (in which case `out` is not written).
   */
  datatype Result<T> = Ok(value: T) | Err(error: Error) {
    predicate IsFailure() { Err? }
    function PropagateFailure<U>(): Result<U> requires Err? { Err(error) }
    function Extract(): T requires Ok? { value }
  }

  /**
   * The QTFFError a call returns: QTFFErrorNone (0) exactly on success,
   * which is what the `if ((err = ...))` propagation idiom relies on.
   */
  function Status<T>(r: Result<T>): (c: nat)
    ensures c == 0 <==> r.Ok?
    ensures r.Err? ==> c == Code(r.error)
  {
    match r
    case Ok(_) => 0
    case Err(e) => Code(e)
  }

  /** An atom header: where the atom starts, its declared size, its tag. */
  datatype AtomHeader = AtomHeader(offset: nat, size: uint32, atomType: Tag)

  const ZeroHeader := AtomHeader(0, 0, [0, 0, 0, 0])

  const MAX_COMPATIBLE_BRANDS := 4

  /**
   * ftyp. `brands` holds the compatible brands that were actually read
   * (whole 4-byte groups); the count is the one computed from the size.
   */
  datatype FileTypeAtom = FileTypeAtom(
    header: AtomHeader,
    majorBrand: uint32,
    minorVersion: uint32,
    compatibleBrandsCount: nat,
    brands: seq<Tag>)

  /** mdat, free, skip, wide, ctab, udta, trak: only the header is kept. */
  datatype OpaqueAtom = OpaqueAtom(header: AtomHeader)

  type MovieDataAtom = OpaqueAtom
  type FreeAtom = OpaqueAtom
  type SkipAtom = OpaqueAtom
  type WideAtom = OpaqueAtom
  type ColorTableAtom = OpaqueAtom
  type UserDataAtom = OpaqueAtom
  type TrackAtom = OpaqueAtom

  const ZeroAtom := OpaqueAtom(ZeroHeader)

  /** pnot. The referenced atom type is stored as the 32-bit value read. */
  datatype PreviewAtom = PreviewAtom(
    header: AtomHeader,
    modificationTime: uint32,
    version: uint16,
    atomType: uint32,
    atomIndex: uint16)

  const ZeroPreview := PreviewAtom(ZeroHeader, 0, 0, 0, 0)

  /**
   * The mvhd payload fields the decoder stores. The version byte is
   * consumed but never stored, so it has no field here; `reserved` and
   * `matrix` are the raw bytes an unchecked read delivered.
   */
  datatype MovieHeaderFields = MovieHeaderFields(
    flags: uint32,
    creationTime: uint32,
    modificationTime: uint32,
    timeScale: uint32,
    duration: uint32,
    preferredRate: uint32,
    preferredVolume: uint16,
    reserved: seq<byte>,
    matrix: seq<byte>,
    previewTime: uint32,
    previewDuration: uint32,
    posterTime: uint32,
    selectionTime: uint32,
    selectionDuration: uint32,
    currentTime: uint32,
    nextTrackId: uint32)

  /** mvhd; `fields` is None when the revision only skips the payload. */
  datatype MovieHeaderAtom = MovieHeaderAtom(header: AtomHeader, fields: Option<MovieHeaderFields>)

  datatype ClippingRegionAtom = ClippingRegionAtom(header: AtomHeader, regionSize: uint16, boundaryBox: uint64)

  /** clip; `region` is None when the revision only skips the payload. */
  datatype ClippingAtom = ClippingAtom(header: AtomHeader, region: Option<ClippingRegionAtom>)

  datatype Option<T> = None | Some(value: T)

  const MAX_TRACK_ATOMS := 4

  /**
   * moov. The singleton slots are "present" when their header size is
   * nonzero (the zero-initialised struct is the empty movie).
   */
  datatype MovieAtom = MovieAtom(
    header: AtomHeader,
    movieHeader: MovieHeaderAtom,
    clipping: ClippingAtom,
    colorTable: ColorTableAtom,
    userData: UserDataAtom,
    trackCount: nat,
    tracks: seq<TrackAtom>)

  function EmptyMovie(header: AtomHeader): (m: MovieAtom)
    ensures ValidMovie(m) && m.trackCount == 0 && m.header == header
  {
    MovieAtom(header, MovieHeaderAtom(ZeroHeader, None), ClippingAtom(ZeroHeader, None),
              ZeroAtom, ZeroAtom, 0, [ZeroAtom, ZeroAtom, ZeroAtom, ZeroAtom])
  }

  /** The track array has its fixed capacity and the count stays within it. */
  predicate ValidMovie(m: MovieAtom) {
    |m.tracks| == MAX_TRACK_ATOMS && m.trackCount <= MAX_TRACK_ATOMS
  }

  const MAX_FILE_TYPE_COMPATIBILITY_ATOMS := 1
  const MAX_MOVIE_ATOMS := 1
  const MAX_MOVIE_DATA_ATOMS := 4
  const MAX_FREE_ATOMS := 4
  const MAX_SKIP_ATOMS := 4
  const MAX_WIDE_ATOMS := 4
  const MAX_PREVIEW_ATOMS := 1

  /** The root: one fixed-capacity array and one count per top-level atom kind. */
  datatype MovieFile = MovieFile(
    fileTypeCount: nat, fileType: seq<FileTypeAtom>,
    movieCount: nat, movie: seq<MovieAtom>,
    movieDataCount: nat, movieData: seq<MovieDataAtom>,
    freeCount: nat, free: seq<FreeAtom>,
    skipCount: nat, skip: seq<SkipAtom>,
    wideCount: nat, wide: seq<WideAtom>,
    previewCount: nat, preview: seq<PreviewAtom>)

  /** Every array has its declared capacity and every count is within it. */
  predicate ValidFile(m: MovieFile) {
    && |m.fileType| == MAX_FILE_TYPE_COMPATIBILITY_ATOMS && m.fileTypeCount <= MAX_FILE_TYPE_COMPATIBILITY_ATOMS
    && |m.movie| == MAX_MOVIE_ATOMS && m.movieCount <= MAX_MOVIE_ATOMS
    && |m.movieData| == MAX_MOVIE_DATA_ATOMS && m.movieDataCount <= MAX_MOVIE_DATA_ATOMS
    && |m.free| == MAX_FREE_ATOMS && m.freeCount <= MAX_FREE_ATOMS
    && |m.skip| == MAX_SKIP_ATOMS && m.skipCount <= MAX_SKIP_ATOMS
    && |m.wide| == MAX_WIDE_ATOMS && m.wideCount <= MAX_WIDE_ATOMS
    && |m.preview| == MAX_PREVIEW_ATOMS && m.previewCount <= MAX_PREVIEW_ATOMS
  }

  /** The zero-initialised `QTFFMovieFile movie = {0}`. */
  function EmptyFile(): (m: MovieFile)
    ensures ValidFile(m)
    ensures m.fileTypeCount == m.movieCount == m.movieDataCount == m.freeCount == 0
    ensures m.skipCount == m.wideCount == m.previewCount == 0
  {
    MovieFile(
      0, [FileTypeAtom(ZeroHeader, 0, 0, 0, [])],
      0, [EmptyMovie(ZeroHeader)],
      0, [ZeroAtom, ZeroAtom, ZeroAtom, ZeroAtom],
      0, [ZeroAtom, ZeroAtom, ZeroAtom, ZeroAtom],
      0, [ZeroAtom, ZeroAtom, ZeroAtom, ZeroAtom],
      0, [ZeroAtom, ZeroAtom, ZeroAtom, ZeroAtom],
      0, [ZeroPreview])
  }
}
