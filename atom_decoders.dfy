/**
 * The per-type atom decoders: each reads an atom header at the cursor,
 * then either the atom's fields in their fixed order or a skip over its
 * payload. The skip distances are computed in unsigned 32-bit arithmetic
 * (Sub32) and handed to fseek as a 64-bit long, so a size below the
 * subtracted constant wraps to a large forward skip.
 */
module AtomDecoders {
  import opened QtffTypes
  import opened ByteOrder
  import opened ByteStream
  import opened FieldReaders

  /** `a - b` on uint32_t operands. */
  function Sub32(a: uint32, b: uint32): (r: uint32)
    ensures a >= b ==> r == a - b
    ensures a < b ==> r == a - b + 0x1_0000_0000
  {
    (a - b) % 0x1_0000_0000
  }

  // ---------------------------------------------------------------- ftyp

  /** `(size - 16) / 4`, the compatible-brand count computed from the size. */
  function BrandCount(size: uint32): nat {
    Sub32(size, 16) / 4
  }

  /**
   * The count is within QTFF_MAX_COMPATIBLE_BRANDS exactly for sizes 16
   * to 35: sizes of 36 and more ask for too many brands, and sizes below
   * 16 wrap around to a huge count.
   */
  lemma BrandCountBound(size: uint32)
    ensures BrandCount(size) <= MAX_COMPATIBLE_BRANDS <==> 16 <= size < 36
    ensures 16 <= size ==> BrandCount(size) == (size - 16) / 4
  {
  }

  /** The whole 4-byte groups of `bs`, in order; a trailing partial group is dropped. */
  function Groups(bs: seq<byte>): (g: seq<Tag>)
    ensures |g| == |bs| / 4
    ensures forall i :: 0 <= i < |g| ==> g[i] == bs[4 * i..4 * i + 4]
  {
    if |bs| < 4 then []
    else
      var rest := Groups(bs[4..]);
      assert forall i :: 0 < i <= |rest| ==> bs[4..][4 * (i - 1)..4 * (i - 1) + 4] == bs[4 * i..4 * i + 4];
      [bs[..4]] + rest
  }

  /**
   * qtff_read_file_type_compatibility_atom. The brands are read with an
   * unchecked fread, so a short or failing read still succeeds and keeps
   * only the whole brands that arrived.
   */
  function DecodeFileType(f: File, c: Cursor): (r: Outcome<FileTypeAtom>)
    ensures r.result.Ok? ==>
              && r.result.value.header.offset == c.pos
              && r.result.value.compatibleBrandsCount == BrandCount(r.result.value.header.size)
              && r.result.value.compatibleBrandsCount <= MAX_COMPATIBLE_BRANDS
              && |r.result.value.brands| <= r.result.value.compatibleBrandsCount
              && r.cursor.pos >= c.pos + 16
    ensures r.result.Err? ==>
              ReadError(r.result.error) || (r.result.error == TooManyAtoms && r.cursor.pos == c.pos + 16)
    ensures r.cursor.pos >= c.pos
  {
    var h :- DecodeAtomHeader(f, c);
    var major :- DecodeU32(f, h.1);
    var minor :- DecodeU32(f, major.1);
    var count := BrandCount(h.0.size);
    if count > MAX_COMPATIBLE_BRANDS then Outcome(Err(TooManyAtoms), minor.1)
    else
      var (bytes, c') := Fread(f, minor.1, 4 * count);
      Outcome(Ok(FileTypeAtom(h.0, major.0, minor.0, count, Groups(bytes))), c')
  }

  /**
   * Reading ftyp fails with TooManyAtoms exactly when its first 16 bytes
   * are clean and its size lies outside 16..35; with clean first bytes
   * and a size inside that range it succeeds.
   */
  lemma FileTypeTooMany(f: File, c: Cursor)
    ensures DecodeFileType(f, c).result == Err(TooManyAtoms) <==>
              Clean(f, c, 16) && !(16 <= BigEndian(f.data[c.pos..c.pos + 4]) < 36)
    ensures Clean(f, c, 16) && 16 <= BigEndian(f.data[c.pos..c.pos + 4]) < 36 ==>
              DecodeFileType(f, c).result.Ok?
  {
    HeaderOutcome(f, c);
    var h := DecodeAtomHeader(f, c);
    if h.result.Ok? {
      var major := DecodeU32(f, h.cursor);
      if major.result.Ok? {
        var minor := DecodeU32(f, major.cursor);
        CleanSplit(f, c, 8, 8);
        CleanSplit(f, h.cursor, 4, 4);
        if minor.result.Ok? {
          BrandCountBound(h.result.value.size);
        }
      }
    }
  }

  /**
   * A decoded ftyp holds the big-endian brand and version at offsets 8
   * and 12 and the groups of the brand read that starts at offset 16.
   */
  lemma FileTypeLayout(f: File, c: Cursor)
    ensures var r := DecodeFileType(f, c);
            r.result.Ok? ==>
              var brandRead := Fread(f, Cursor(c.pos + 16, false, false), 4 * r.result.value.compatibleBrandsCount);
              && r.result.value.majorBrand == BigEndian(f.data[c.pos + 8..c.pos + 12])
              && r.result.value.minorVersion == BigEndian(f.data[c.pos + 12..c.pos + 16])
              && r.result.value.brands == Groups(brandRead.0)
              && r.cursor == brandRead.1
  {
    var r := DecodeFileType(f, c);
    if r.result.Ok? {
      assert DecodeAtomHeader(f, c).cursor == Cursor(c.pos + 8, false, false);
      assert DecodeU32(f, Cursor(c.pos + 8, false, false)).cursor == Cursor(c.pos + 12, false, false);
    }
  }

  /**
   * When the whole ftyp atom is clean, every compatible brand arrives:
   * brand i is the four bytes at offset 16 + 4i, and the stream stops
   * after the last brand.
   */
  lemma FileTypeFields(f: File, c: Cursor)
    ensures var r := DecodeFileType(f, c);
            r.result.Ok? && Clean(f, c, 16 + 4 * r.result.value.compatibleBrandsCount) ==>
              && |r.result.value.brands| == r.result.value.compatibleBrandsCount
              && (forall i :: 0 <= i < |r.result.value.brands| ==>
                    r.result.value.brands[i] == f.data[c.pos + 16 + 4 * i..c.pos + 20 + 4 * i])
              && r.cursor == Cursor(c.pos + 16 + 4 * r.result.value.compatibleBrandsCount, false, false)
  {
    var r := DecodeFileType(f, c);
    if r.result.Ok? {
      var n := r.result.value.compatibleBrandsCount;
      FileTypeLayout(f, c);
      if Clean(f, c, 16 + 4 * n) {
        var c16 := Cursor(c.pos + 16, false, false);
        CleanSplit(f, c, 16, 4 * n);
        CleanBrands(f, c16, n);
        var brands := Groups(Fread(f, c16, 4 * n).0);
        assert r.result.value.brands == brands;
        forall i | 0 <= i < n
          ensures brands[i] == f.data[c.pos + 16 + 4 * i..c.pos + 20 + 4 * i]
        {
          assert c16.pos + 4 * i + 4 == c.pos + 20 + 4 * i;
        }
      }
    }
  }

  /** A clean read of n brands delivers them all, four bytes each, in order. */
  lemma CleanBrands(f: File, c: Cursor, n: nat)
    requires Clean(f, c, 4 * n)
    ensures var (bytes, c') := Fread(f, c, 4 * n);
            && |Groups(bytes)| == n
            && (forall i :: 0 <= i < n ==> Groups(bytes)[i] == f.data[c.pos + 4 * i..c.pos + 4 * i + 4])
            && c' == Cursor(c.pos + 4 * n, false, false)
  {
    var bytes := Fread(f, c, 4 * n).0;
    if n > 0 {
      assert bytes == f.data[c.pos..c.pos + 4 * n];
    }
  }

  method ReadFileType(s: Stream) returns (r: Result<FileTypeAtom>)
    modifies s
    ensures Outcome(r, s.State()) == DecodeFileType(s.file, old(s.State()))
  {
    var header :- ReadAtomHeader(s);
    var majorBrand :- ReadU32(s);
    var minorVersion :- ReadU32(s);
    var count := BrandCount(header.size);
    if count > MAX_COMPATIBLE_BRANDS {
      return Err(TooManyAtoms);
    }
    var brands := s.Read(4 * count);
    return Ok(FileTypeAtom(header, majorBrand, minorVersion, count, Groups(brands)));
  }

  // ------------------------------------------------------ opaque atoms

  /**
   * The decoders that keep only the header and skip `size - 8` payload
   * bytes: mdat, free, skip, wide, ctab, udta and trak, and in the older
   * revision also mvhd and clip. An atom of size 8 or more ends at
   * offset + size; a smaller size wraps to a skip of nearly 4 GiB.
   */
  function DecodeOpaque(f: File, c: Cursor): (r: Outcome<OpaqueAtom>)
    ensures r.result.Ok? ==>
              && r.result.value.header.offset == c.pos
              && r.cursor == Cursor(c.pos + 8 + Sub32(r.result.value.header.size, 8), false, false)
              && (r.result.value.header.size >= 8 ==>
                    r.cursor.pos == r.result.value.header.offset + r.result.value.header.size)
    ensures r.result.Err? ==> ReadError(r.result.error)
    ensures r.cursor.pos >= c.pos
  {
    var h :- DecodeAtomHeader(f, c);
    Outcome(Ok(OpaqueAtom(h.0)), Fseek(h.1, Sub32(h.0.size, 8)))
  }

  /** An opaque atom is decoded exactly when its header is clean, whatever its payload holds. */
  lemma OpaqueOutcome(f: File, c: Cursor)
    ensures DecodeOpaque(f, c).result.Ok? <==> Clean(f, c, 8)
    ensures DecodeOpaque(f, c).result.Ok? ==>
              DecodeOpaque(f, c).result.value.header == DecodeAtomHeader(f, c).result.value
    ensures DecodeOpaque(f, c).result.Err? ==> DecodeOpaque(f, c) == DecodeAtomHeader(f, c).PropagateFailure()
  {
    HeaderOutcome(f, c);
  }

  method ReadOpaque(s: Stream) returns (r: Result<OpaqueAtom>)
    modifies s
    ensures Outcome(r, s.State()) == DecodeOpaque(s.file, old(s.State()))
  {
    var header :- ReadAtomHeader(s);
    s.Seek(Sub32(header.size, 8));
    return Ok(OpaqueAtom(header));
  }

  // ---------------------------------------------------------------- pnot

  /** qtff_read_preview_atom: header, then 32, 16, 32 and 16-bit fields. */
  function DecodePreview(f: File, c: Cursor): (r: Outcome<PreviewAtom>)
    ensures r.result.Ok? ==>
              r.result.value.header.offset == c.pos && r.cursor == Cursor(c.pos + 20, false, false)
    ensures r.result.Err? ==> ReadError(r.result.error)
    ensures r.cursor.pos >= c.pos
  {
    var h :- DecodeAtomHeader(f, c);
    var modificationTime :- DecodeU32(f, h.1);
    var version :- DecodeU16(f, modificationTime.1);
    var atomType :- DecodeU32(f, version.1);
    var atomIndex :- DecodeU16(f, atomType.1);
    Outcome(Ok(PreviewAtom(h.0, modificationTime.0, version.0, atomType.0, atomIndex.0)), atomIndex.1)
  }

  /**
   * A preview atom is decoded exactly when its 20 bytes are clean, and
   * then each field is the big-endian value at its place in the atom.
   */
  lemma PreviewOutcome(f: File, c: Cursor)
    ensures DecodePreview(f, c).result.Ok? <==> Clean(f, c, 20)
    ensures DecodePreview(f, c).result.Ok? ==>
              DecodePreview(f, c).result.value == PreviewAtom(
                AtomHeader(c.pos, BigEndian(f.data[c.pos..c.pos + 4]), f.data[c.pos + 4..c.pos + 8]),
                BigEndian(f.data[c.pos + 8..c.pos + 12]),
                BigEndian(f.data[c.pos + 12..c.pos + 14]),
                BigEndian(f.data[c.pos + 14..c.pos + 18]),
                BigEndian(f.data[c.pos + 18..c.pos + 20]))
  {
    HeaderOutcome(f, c);
    CleanSplit(f, c, 8, 12);
    CleanSplit(f, Cursor(c.pos + 8, false, false), 4, 8);
    CleanSplit(f, Cursor(c.pos + 12, false, false), 2, 6);
    CleanSplit(f, Cursor(c.pos + 14, false, false), 4, 2);
  }

  method ReadPreview(s: Stream) returns (r: Result<PreviewAtom>)
    modifies s
    ensures Outcome(r, s.State()) == DecodePreview(s.file, old(s.State()))
  {
    var header :- ReadAtomHeader(s);
    var modificationTime :- ReadU32(s);
    var version :- ReadU16(s);
    var atomType :- ReadU32(s);
    var atomIndex :- ReadU16(s);
    return Ok(PreviewAtom(header, modificationTime, version, atomType, atomIndex));
  }

  // ---------------------------------------------------------------- mvhd

  /**
   * The checked fields of mvhd before the unchecked reads: the version
   * byte (consumed, not stored), the flags, five words (creation time,
   * modification time, time scale, duration, preferred rate) and the
   * preferred volume.
   */
  function DecodeMovieHeaderHead(f: File, c: Cursor): (r: Outcome<(uint32, seq<uint32>, uint16)>)
    ensures r.result.Ok? ==> |r.result.value.1| == 5 && r.cursor == Cursor(c.pos + 26, false, false)
    ensures r.result.Err? ==> ReadError(r.result.error)
    ensures r.cursor.pos >= c.pos
  {
    var version :- DecodeU8(f, c);
    var flags :- DecodeU24(f, version.1);
    var words :- DecodeWords(f, flags.1, 5);
    var preferredVolume :- DecodeU16(f, words.1);
    Outcome(Ok((flags.0, words.0, preferredVolume.0)), preferredVolume.1)
  }

  /** The head decodes exactly when its 26 bytes are clean. */
  lemma MovieHeaderHeadOutcome(f: File, c: Cursor)
    ensures DecodeMovieHeaderHead(f, c).result.Ok? <==> Clean(f, c, 26)
  {
    var c4 := Cursor(c.pos + 4, false, false);
    CleanSplit(f, c, 1, 25);
    CleanSplit(f, Cursor(c.pos + 1, false, false), 3, 22);
    CleanSplit(f, c4, 20, 2);
    WordsOutcome(f, c4, 5);
  }

  /**
   * A decoded head holds the flags through Ntoh24 from bytes 1 to 4,
   * word i from bytes 4 + 4i to 8 + 4i and the volume from bytes 24 and 25.
   */
  lemma MovieHeaderHeadValues(f: File, c: Cursor)
    ensures var r := DecodeMovieHeaderHead(f, c);
            r.result.Ok? ==>
              && c.pos + 26 <= |f.data|
              && r.result.value.0 == BigEndian([f.data[c.pos + 1], f.data[c.pos + 1], f.data[c.pos + 2]])
              && (forall i :: 0 <= i < 5 ==> r.result.value.1[i] == WordAt(f, c.pos + 4 + 4 * i))
              && r.result.value.2 == BigEndian(f.data[c.pos + 24..c.pos + 26])
  {
    var r := DecodeMovieHeaderHead(f, c);
    if r.result.Ok? {
      var c1 := Cursor(c.pos + 1, false, false);
      var c4 := Cursor(c.pos + 4, false, false);
      var c24 := Cursor(c.pos + 24, false, false);
      var version := DecodeU8(f, c);
      assert version.result.Ok? && version.cursor == c1;
      var flags := DecodeU24(f, c1);
      assert flags.result.Ok? && flags.cursor == c4;
      assert flags.result.value == BigEndian([f.data[c.pos + 1], f.data[c.pos + 1], f.data[c.pos + 2]]);
      var words := DecodeWords(f, c4, 5);
      assert words.result.Ok? && words.cursor == c24;
      var volume := DecodeU16(f, c24);
      assert volume.result.Ok? && volume.result.value == BigEndian(f.data[c.pos + 24..c.pos + 26]);
      assert r.result.value == (flags.result.value, words.result.value, volume.result.value);
      WordsAt(f, c4, 5);
      forall i | 0 <= i < 5
        ensures r.result.value.1[i] == WordAt(f, c.pos + 4 + 4 * i)
      {
        assert words.result.value[i] == WordAt(f, c4.pos + 4 * i);
      }
    }
  }

  /**
   * The rest of mvhd: the reserved bytes and the matrix through unchecked
   * freads, then seven words (preview time, preview duration, poster
   * time, selection time, selection duration, current time, next track
   * ID).
   */
  function DecodeMovieHeaderTail(f: File, c: Cursor): (r: Outcome<(seq<byte>, seq<byte>, seq<uint32>)>)
    ensures r.result.Ok? ==> |r.result.value.2| == 7 && r.cursor == Cursor(c.pos + 74, false, false)
    ensures r.result.Err? ==> ReadError(r.result.error)
    ensures r.cursor.pos >= c.pos
  {
    var (reserved, c1) := Fread(f, c, 10);
    var (matrix, c2) := Fread(f, c1, 36);
    var words :- DecodeWords(f, c2, 7);
    Outcome(Ok((reserved, matrix, words.0)), words.1)
  }

  /**
   * The tail decodes exactly when its 74 bytes are clean: a short or
   * failing unchecked read surfaces at the first word.
   */
  lemma MovieHeaderTailOutcome(f: File, c: Cursor)
    ensures DecodeMovieHeaderTail(f, c).result.Ok? <==> Clean(f, c, 74)
  {
    var c10 := Cursor(c.pos + 10, false, false);
    var c46 := Cursor(c.pos + 46, false, false);
    CleanSplit(f, c, 10, 64);
    CleanSplit(f, c10, 36, 28);
    WordsOutcome(f, c46, 7);
    var (_, c1) := Fread(f, c, 10);
    var (_, c2) := Fread(f, c1, 36);
    if Clean(f, c, 10) && Clean(f, c10, 36) {
      assert c2 == c46;
    } else {
      assert c2.eof || c2.error;
    }
  }

  /** A decoded tail read its two unchecked runs clean, one after the other. */
  lemma MovieHeaderTailReads(f: File, c: Cursor)
    ensures DecodeMovieHeaderTail(f, c).result.Ok? ==>
              && c.pos + 74 <= |f.data|
              && Fread(f, c, 10) == (f.data[c.pos..c.pos + 10], Cursor(c.pos + 10, false, false))
              && Fread(f, Cursor(c.pos + 10, false, false), 36) ==
                   (f.data[c.pos + 10..c.pos + 46], Cursor(c.pos + 46, false, false))
  {
    if DecodeMovieHeaderTail(f, c).result.Ok? {
      MovieHeaderTailOutcome(f, c);
      CleanSplit(f, c, 10, 64);
      CleanSplit(f, Cursor(c.pos + 10, false, false), 36, 28);
      FreadClean(f, c, 10);
      FreadClean(f, Cursor(c.pos + 10, false, false), 36);
    }
  }

  /**
   * A decoded tail holds the raw reserved bytes and matrix at their
   * places and word i from bytes 46 + 4i to 50 + 4i.
   */
  lemma MovieHeaderTailValues(f: File, c: Cursor)
    ensures var r := DecodeMovieHeaderTail(f, c);
            r.result.Ok? ==>
              && c.pos + 74 <= |f.data|
              && r.result.value.0 == f.data[c.pos..c.pos + 10]
              && r.result.value.1 == f.data[c.pos + 10..c.pos + 46]
              && (forall i :: 0 <= i < 7 ==> r.result.value.2[i] == WordAt(f, c.pos + 46 + 4 * i))
  {
    var r := DecodeMovieHeaderTail(f, c);
    if r.result.Ok? {
      var c46 := Cursor(c.pos + 46, false, false);
      MovieHeaderTailReads(f, c);
      var words := DecodeWords(f, c46, 7);
      assert r.result.value == (f.data[c.pos..c.pos + 10], f.data[c.pos + 10..c.pos + 46], words.result.value);
      WordsAt(f, c46, 7);
      forall i | 0 <= i < 7
        ensures r.result.value.2[i] == WordAt(f, c.pos + 46 + 4 * i)
      {
        assert words.result.value[i] == WordAt(f, c46.pos + 4 * i);
      }
    }
  }

  /**
   * The mvhd fields from the head, the two unchecked reads and the seven
   * tail words, each word going to the field the decoder reads it into.
   */
  function MovieHeaderOf(head: (uint32, seq<uint32>, uint16), tail: (seq<byte>, seq<byte>, seq<uint32>)): (m: MovieHeaderFields)
    requires |head.1| == 5 && |tail.2| == 7
    ensures m.flags == head.0
    ensures && m.creationTime == head.1[0] && m.modificationTime == head.1[1]
            && m.timeScale == head.1[2] && m.duration == head.1[3] && m.preferredRate == head.1[4]
    ensures m.preferredVolume == head.2 && m.reserved == tail.0 && m.matrix == tail.1
    ensures && m.previewTime == tail.2[0] && m.previewDuration == tail.2[1] && m.posterTime == tail.2[2]
            && m.selectionTime == tail.2[3] && m.selectionDuration == tail.2[4] && m.currentTime == tail.2[5]
            && m.nextTrackId == tail.2[6]
  {
    var (flags, v, volume) := head;
    var (reserved, matrix, t) := tail;
    MovieHeaderFields(
      flags, v[0], v[1], v[2], v[3], v[4], volume, reserved, matrix, t[0], t[1], t[2], t[3], t[4], t[5], t[6])
  }

  /** The fields of mvhd after its header: the head, then the tail. */
  function DecodeMovieHeaderFields(f: File, c: Cursor): (r: Outcome<MovieHeaderFields>)
    ensures r.result.Ok? ==> r.cursor == Cursor(c.pos + 100, false, false)
    ensures r.result.Err? ==> ReadError(r.result.error)
    ensures r.cursor.pos >= c.pos
  {
    var head :- DecodeMovieHeaderHead(f, c);
    var tail :- DecodeMovieHeaderTail(f, head.1);
    Outcome(Ok(MovieHeaderOf(head.0, tail.0)), tail.1)
  }

  /**
   * The reference reading of the mvhd fields that start at offset p (just
   * after the atom header): the version byte at +0 (not stored), the
   * flags through Ntoh24 from +1, five words from +4, the volume at +24,
   * the reserved bytes at +26, the matrix at +36 and seven words from +72.
   * MovieHeaderLayoutOffsets gives each field's own offset.
   */
  function MovieHeaderLayout(f: File, p: nat): (m: MovieHeaderFields)
    requires p + 100 <= |f.data|
    ensures |m.reserved| == 10 && |m.matrix| == 36
  {
    MovieHeaderOf(
      (Ntoh24(f.data[p + 1..p + 4]), WordsFrom(f, p + 4, 5), Ntoh16(f.data[p + 24..p + 26])),
      (f.data[p + 26..p + 36], f.data[p + 36..p + 72], WordsFrom(f, p + 72, 7)))
  }

  /** Each of the sixteen stored mvhd fields and the offset, from p, of the bytes it comes from. */
  lemma MovieHeaderLayoutOffsets(f: File, p: nat)
    requires p + 100 <= |f.data|
    ensures var m := MovieHeaderLayout(f, p);
            && m.flags == BigEndian([f.data[p + 1], f.data[p + 1], f.data[p + 2]])
            && m.creationTime == WordAt(f, p + 4)
            && m.modificationTime == WordAt(f, p + 8)
            && m.timeScale == WordAt(f, p + 12)
            && m.duration == WordAt(f, p + 16)
            && m.preferredRate == WordAt(f, p + 20)
            && m.preferredVolume == BigEndian(f.data[p + 24..p + 26])
            && m.reserved == f.data[p + 26..p + 36]
            && m.matrix == f.data[p + 36..p + 72]
            && m.previewTime == WordAt(f, p + 72)
            && m.previewDuration == WordAt(f, p + 76)
            && m.posterTime == WordAt(f, p + 80)
            && m.selectionTime == WordAt(f, p + 84)
            && m.selectionDuration == WordAt(f, p + 88)
            && m.currentTime == WordAt(f, p + 92)
            && m.nextTrackId == WordAt(f, p + 96)
  {
    HeadWordsAt(f, p + 4);
    TailWordsAt(f, p + 72);
    assert f.data[p + 1..p + 4][0] == f.data[p + 1] && f.data[p + 1..p + 4][1] == f.data[p + 2];
  }

  /** The five head words from q, one by one. */
  lemma HeadWordsAt(f: File, q: nat)
    requires q + 20 <= |f.data|
    ensures var ws := WordsFrom(f, q, 5);
            && ws[0] == WordAt(f, q) && ws[1] == WordAt(f, q + 4) && ws[2] == WordAt(f, q + 8)
            && ws[3] == WordAt(f, q + 12) && ws[4] == WordAt(f, q + 16)
  {
    WordsFromIndex(f, q, 5, 0);
    WordsFromIndex(f, q, 5, 1);
    WordsFromIndex(f, q, 5, 2);
    WordsFromIndex(f, q, 5, 3);
    WordsFromIndex(f, q, 5, 4);
  }

  /** The seven tail words from q, one by one. */
  lemma TailWordsAt(f: File, q: nat)
    requires q + 28 <= |f.data|
    ensures var ws := WordsFrom(f, q, 7);
            && ws[0] == WordAt(f, q) && ws[1] == WordAt(f, q + 4) && ws[2] == WordAt(f, q + 8)
            && ws[3] == WordAt(f, q + 12) && ws[4] == WordAt(f, q + 16) && ws[5] == WordAt(f, q + 20)
            && ws[6] == WordAt(f, q + 24)
  {
    WordsFromIndex(f, q, 7, 0);
    WordsFromIndex(f, q, 7, 1);
    WordsFromIndex(f, q, 7, 2);
    WordsFromIndex(f, q, 7, 3);
    WordsFromIndex(f, q, 7, 4);
    WordsFromIndex(f, q, 7, 5);
    WordsFromIndex(f, q, 7, 6);
  }

  /** A clean head decodes to the reference reading of its 26 bytes. */
  lemma MovieHeaderHeadClean(f: File, c: Cursor)
    requires Clean(f, c, 26)
    ensures DecodeMovieHeaderHead(f, c).result ==
              Ok((Ntoh24(f.data[c.pos + 1..c.pos + 4]), WordsFrom(f, c.pos + 4, 5), Ntoh16(f.data[c.pos + 24..c.pos + 26])))
  {
    var c1 := Cursor(c.pos + 1, false, false);
    var c4 := Cursor(c.pos + 4, false, false);
    CleanSplit(f, c, 1, 25);
    CleanSplit(f, c1, 3, 22);
    CleanSplit(f, c4, 20, 2);
    CleanWords(f, c4, 5);
  }

  /** A clean tail decodes to the reference reading of its 74 bytes. */
  lemma MovieHeaderTailClean(f: File, c: Cursor)
    requires Clean(f, c, 74)
    ensures DecodeMovieHeaderTail(f, c).result ==
              Ok((f.data[c.pos..c.pos + 10], f.data[c.pos + 10..c.pos + 46], WordsFrom(f, c.pos + 46, 7)))
  {
    var c46 := Cursor(c.pos + 46, false, false);
    MovieHeaderTailOutcome(f, c);
    MovieHeaderTailReads(f, c);
    CleanSplit(f, c, 46, 28);
    CleanWords(f, c46, 7);
  }

  /**
   * The fields decode exactly when their 100 bytes are clean, and then
   * to the reference reading of those bytes, every one of the sixteen
   * stored fields at its offset.
   */
  lemma MovieHeaderFieldsOutcome(f: File, c: Cursor)
    ensures DecodeMovieHeaderFields(f, c).result.Ok? <==> Clean(f, c, 100)
    ensures Clean(f, c, 100) ==> DecodeMovieHeaderFields(f, c).result == Ok(MovieHeaderLayout(f, c.pos))
  {
    var c26 := Cursor(c.pos + 26, false, false);
    MovieHeaderHeadOutcome(f, c);
    MovieHeaderTailOutcome(f, c26);
    CleanSplit(f, c, 26, 74);
    if Clean(f, c, 100) {
      MovieHeaderHeadClean(f, c);
      MovieHeaderTailClean(f, c26);
    }
  }

  /** qtff_read_movie_header_atom: the atom header, then the fields. */
  function DecodeMovieHeader(f: File, c: Cursor): (r: Outcome<MovieHeaderAtom>)
    ensures r.result.Ok? ==>
              && r.result.value.header.offset == c.pos
              && r.result.value.fields.Some?
              && r.cursor == Cursor(c.pos + 108, false, false)
    ensures r.result.Err? ==> ReadError(r.result.error)
    ensures r.cursor.pos >= c.pos
  {
    var h :- DecodeAtomHeader(f, c);
    var fields :- DecodeMovieHeaderFields(f, h.1);
    Outcome(Ok(MovieHeaderAtom(h.0, Some(fields.0))), fields.1)
  }

  /** mvhd decodes exactly when its 108 bytes are clean. */
  lemma MovieHeaderOutcome(f: File, c: Cursor)
    ensures DecodeMovieHeader(f, c).result.Ok? <==> Clean(f, c, 108)
  {
    HeaderOutcome(f, c);
    MovieHeaderFieldsOutcome(f, Cursor(c.pos + 8, false, false));
    CleanSplit(f, c, 8, 100);
  }

  /**
   * A decoded mvhd holds the big-endian size (the word at its offset) and
   * the raw tag in its header, and all sixteen stored fields come from the reference layout
   * that starts 8 bytes into the atom.
   */
  lemma MovieHeaderValues(f: File, c: Cursor)
    ensures var r := DecodeMovieHeader(f, c);
            r.result.Ok? ==>
              && c.pos + 108 <= |f.data|
              && r.result.value.header == AtomHeader(c.pos, WordAt(f, c.pos), f.data[c.pos + 4..c.pos + 8])
              && r.result.value.fields == Some(MovieHeaderLayout(f, c.pos + 8))
  {
    var r := DecodeMovieHeader(f, c);
    if r.result.Ok? {
      var h := DecodeAtomHeader(f, c);
      HeaderOutcome(f, c);
      assert h.result.Ok? && h.cursor == Cursor(c.pos + 8, false, false);
      MovieHeaderFieldsOutcome(f, h.cursor);
    }
  }

  method ReadMovieHeaderHead(s: Stream) returns (r: Result<(uint32, seq<uint32>, uint16)>)
    modifies s
    ensures Outcome(r, s.State()) == DecodeMovieHeaderHead(s.file, old(s.State()))
  {
    var _ :- ReadU8(s);
    var flags :- ReadU24(s);
    var words :- ReadWords(s, 5);
    var preferredVolume :- ReadU16(s);
    return Ok((flags, words, preferredVolume));
  }

  method ReadMovieHeaderTail(s: Stream) returns (r: Result<(seq<byte>, seq<byte>, seq<uint32>)>)
    modifies s
    ensures Outcome(r, s.State()) == DecodeMovieHeaderTail(s.file, old(s.State()))
  {
    var reserved := s.Read(10);
    var matrix := s.Read(36);
    var words :- ReadWords(s, 7);
    return Ok((reserved, matrix, words));
  }

  method ReadMovieHeaderFields(s: Stream) returns (r: Result<MovieHeaderFields>)
    modifies s
    ensures Outcome(r, s.State()) == DecodeMovieHeaderFields(s.file, old(s.State()))
  {
    var head :- ReadMovieHeaderHead(s);
    var tail :- ReadMovieHeaderTail(s);
    return Ok(MovieHeaderOf(head, tail));
  }

  /** qtff_read_movie_header_atom. */
  method ReadMovieHeader(s: Stream) returns (r: Result<MovieHeaderAtom>)
    modifies s
    ensures Outcome(r, s.State()) == DecodeMovieHeader(s.file, old(s.State()))
  {
    var header :- ReadAtomHeader(s);
    var fields :- ReadMovieHeaderFields(s);
    return Ok(MovieHeaderAtom(header, Some(fields)));
  }

  /** The older revision's qtff_read_movie_header_atom: an opaque skip. */
  function DecodeMovieHeaderLegacy(f: File, c: Cursor): (r: Outcome<MovieHeaderAtom>)
    ensures r.result.Ok? ==> r.result.value.fields.None? && r.cursor == DecodeOpaque(f, c).cursor
    ensures r.result.Ok? <==> DecodeOpaque(f, c).result.Ok?
    ensures r.result.Err? ==> ReadError(r.result.error)
  {
    var p :- DecodeOpaque(f, c);
    Outcome(Ok(MovieHeaderAtom(p.0.header, None)), p.1)
  }

  method ReadMovieHeaderLegacy(s: Stream) returns (r: Result<MovieHeaderAtom>)
    modifies s
    ensures Outcome(r, s.State()) == DecodeMovieHeaderLegacy(s.file, old(s.State()))
  {
    var header :- ReadAtomHeader(s);
    s.Seek(Sub32(header.size, 8));
    return Ok(MovieHeaderAtom(header, None));
  }

  // ---------------------------------------------------------------- clip

  /** qtff_read_clipping_region_atom: header, 16-bit size, 64-bit box, skip `size - 18`. */
  function DecodeClippingRegion(f: File, c: Cursor): (r: Outcome<ClippingRegionAtom>)
    ensures r.result.Ok? ==>
              && r.result.value.header.offset == c.pos
              && r.cursor == Cursor(c.pos + 18 + Sub32(r.result.value.header.size, 18), false, false)
              && (r.result.value.header.size >= 18 ==>
                    r.cursor.pos == r.result.value.header.offset + r.result.value.header.size)
    ensures r.result.Err? ==> ReadError(r.result.error)
    ensures r.cursor.pos >= c.pos
  {
    var h :- DecodeAtomHeader(f, c);
    var regionSize :- DecodeU16(f, h.1);
    var boundaryBox :- DecodeU64(f, regionSize.1);
    Outcome(Ok(ClippingRegionAtom(h.0, regionSize.0, boundaryBox.0)),
            Fseek(boundaryBox.1, Sub32(h.0.size, 18)))
  }

  /**
   * A region atom decodes exactly when its 18 bytes are clean; it then
   * holds the 16-bit region size from bytes 8 and 9 and the 64-bit
   * boundary box from bytes 10 to 17, both big-endian.
   */
  lemma ClippingRegionOutcome(f: File, c: Cursor)
    ensures DecodeClippingRegion(f, c).result.Ok? <==> Clean(f, c, 18)
    ensures var r := DecodeClippingRegion(f, c);
            r.result.Ok? ==>
              && c.pos + 18 <= |f.data|
              && r.result.value.header == AtomHeader(c.pos, WordAt(f, c.pos), f.data[c.pos + 4..c.pos + 8])
              && r.result.value.regionSize == BigEndian(f.data[c.pos + 8..c.pos + 10])
              && r.result.value.boundaryBox == BigEndian(f.data[c.pos + 10..c.pos + 18])
  {
    HeaderOutcome(f, c);
    CleanSplit(f, c, 8, 10);
    CleanSplit(f, Cursor(c.pos + 8, false, false), 2, 8);
  }

  method ReadClippingRegion(s: Stream) returns (r: Result<ClippingRegionAtom>)
    modifies s
    ensures Outcome(r, s.State()) == DecodeClippingRegion(s.file, old(s.State()))
  {
    var header :- ReadAtomHeader(s);
    var regionSize :- ReadU16(s);
    var boundaryBox :- ReadU64(s);
    s.Seek(Sub32(header.size, 18));
    return Ok(ClippingRegionAtom(header, regionSize, boundaryBox));
  }

  /**
   * qtff_read_clipping_atom: header, the nested region atom, and then a
   * skip of `size - 8` measured from the end of the region atom, not from
   * the end of the clip header.
   */
  function DecodeClipping(f: File, c: Cursor): (r: Outcome<ClippingAtom>)
    ensures r.result.Ok? ==>
              && r.result.value.header.offset == c.pos
              && r.result.value.region.Some?
              && r.result.value.region.value.header.offset == c.pos + 8
              && r.cursor.pos >= c.pos + 26
    ensures r.result.Err? ==> ReadError(r.result.error)
    ensures r.cursor.pos >= c.pos
  {
    var h :- DecodeAtomHeader(f, c);
    var region :- DecodeClippingRegion(f, h.1);
    Outcome(Ok(ClippingAtom(h.0, Some(region.0))), Fseek(region.1, Sub32(h.0.size, 8)))
  }

  /**
   * A clip atom decodes exactly when its own header and the region atom
   * nested after it, 26 bytes in all, are clean; the region is then the
   * one decoded 8 bytes into the clip atom.
   */
  lemma ClippingOutcome(f: File, c: Cursor)
    ensures DecodeClipping(f, c).result.Ok? <==> Clean(f, c, 26)
    ensures var r := DecodeClipping(f, c);
            r.result.Ok? ==>
              && c.pos + 26 <= |f.data|
              && r.result.value.header == AtomHeader(c.pos, WordAt(f, c.pos), f.data[c.pos + 4..c.pos + 8])
              && r.result.value.region == Some(DecodeClippingRegion(f, Cursor(c.pos + 8, false, false)).result.value)
              && r.result.value.region.value.regionSize == BigEndian(f.data[c.pos + 16..c.pos + 18])
              && r.result.value.region.value.boundaryBox == BigEndian(f.data[c.pos + 18..c.pos + 26])
  {
    HeaderOutcome(f, c);
    ClippingRegionOutcome(f, Cursor(c.pos + 8, false, false));
    CleanSplit(f, c, 8, 18);
  }

  /**
   * The double skip: for well-formed sizes the clip decoder stops at the
   * clip atom's end plus the region atom's size, past the end of the clip
   * atom that contains the region.
   */
  lemma ClippingOvershoots(f: File, c: Cursor)
    ensures var r := DecodeClipping(f, c);
            r.result.Ok? && r.result.value.header.size >= 8 && r.result.value.region.value.header.size >= 18 ==>
              r.cursor.pos == r.result.value.header.offset + r.result.value.header.size
                              + r.result.value.region.value.header.size
              > r.result.value.header.offset + r.result.value.header.size
  {
  }

  method ReadClipping(s: Stream) returns (r: Result<ClippingAtom>)
    modifies s
    ensures Outcome(r, s.State()) == DecodeClipping(s.file, old(s.State()))
  {
    var header :- ReadAtomHeader(s);
    var region :- ReadClippingRegion(s);
    s.Seek(Sub32(header.size, 8));
    return Ok(ClippingAtom(header, Some(region)));
  }

  /** The older revision's qtff_read_clipping_atom: an opaque skip. */
  function DecodeClippingLegacy(f: File, c: Cursor): (r: Outcome<ClippingAtom>)
    ensures r.result.Ok? ==> r.result.value.region.None? && r.cursor == DecodeOpaque(f, c).cursor
    ensures r.result.Ok? <==> DecodeOpaque(f, c).result.Ok?
    ensures r.result.Err? ==> ReadError(r.result.error)
  {
    var p :- DecodeOpaque(f, c);
    Outcome(Ok(ClippingAtom(p.0.header, None)), p.1)
  }

  method ReadClippingLegacy(s: Stream) returns (r: Result<ClippingAtom>)
    modifies s
    ensures Outcome(r, s.State()) == DecodeClippingLegacy(s.file, old(s.State()))
  {
    var header :- ReadAtomHeader(s);
    s.Seek(Sub32(header.size, 8));
    return Ok(ClippingAtom(header, None));
  }
}
