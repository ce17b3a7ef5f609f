# QuickTime file-format decoder, modelled in Dafny

This project models the QuickTime (QTFF) container decoder of
`lib/qtff/qtff.c`, the current revision, and of `src/qtff/qtff.c`, the
older revision. Each revision has its own header of types.

A QuickTime file is a sequence of atoms. Every atom starts with an 8-byte
header: a big-endian 32-bit size that counts the header itself, then a
raw 4-byte type tag. The decoder works in five layers, one module each:

- `ByteOrder`: big-endian assembly of 2, 3, 4 and 8 bytes (`qtff_ntoh_*`, `qtff_ntohs`, `qtff_ntohl`).
- `FieldReaders`: the fixed-width field readers (`qtff_read_8` to `qtff_read_64`) and the atom header reader.
- `AtomDecoders`: one decoder per atom kind. Some read fields in a fixed order; others keep the header and skip the payload.
- `MovieDecoder`: the loop over the children of a `moov` atom.
- `MovieFileDecoder`: the loop over the file's top-level atoms.

Three supporting modules complete the model:

- `QtffTypes` holds the data model: the error enumeration, atom headers, one datatype per atom kind, and the fixed capacities.
- `AtomIds` holds `QTFF_ATOM_ID` and the hexadecimal case labels.
- `ByteStream` models the stdio `FILE` the decoder reads through. The state is a position plus the sticky end-of-file and error indicators. A fault oracle names the byte offsets whose read fails with a hard I/O error.

Every C operation appears twice:

- as a pure function `DecodeX(file, cursor)`, which returns an `Outcome`: the result (`Ok(value)` or `Err(error)`) and the stream state left behind;
- as a method `ReadX(stream)` on the `Stream` class, which follows the C statement by statement.

The method's `ensures` ties it to the function. The properties are proved about the functions.

A `Revision` parameter selects between the two revisions. In `Current`, the `mvhd` and `clip` atoms are decoded field by field. In `Legacy`, they are opaque skips, as in `src/qtff/qtff.c:174-190`. Everything else is shared, because the two revisions agree line for line.

The model follows the code as written, including its defects:

- `qtff_ntoh_24` reads bytes b0, b0, b1.
- `qtff_read_8` never stores the byte it reads.
- Sizes are subtracted in unsigned 32-bit arithmetic (`Sub32`).
- Some freads are unchecked: the compatible brands, the mvhd reserved bytes and the matrix, and the header's type tag.
- The clip decoder skips the payload twice.
- `mdat`, `free`, `skip` and `wide` atoms are stored at index `movie_count`.
- The `moov` loop never checks the parent atom's extent, so it reads on to the end of the file.
- The header reader consults `feof` before `ferror`, while the field readers consult `ferror` first.

Two defects, present in both revisions, cannot be modelled as written. They are listed under "## Findings". The as-written behaviour is exhibited by a lemma, and the rest of the model uses the corrected behaviour.

## Model

| member | source | states |
|---|---|---|
| QtffTypes.Code | lib/qtff/qtff.h:22-29 | Each error kind has its enumerator value, from 1 to 5. |
| QtffTypes.CodesDistinct | lib/qtff/qtff.h:22-29 | Two error kinds have the same code exactly when they are the same kind. |
| QtffTypes.Status | lib/qtff/qtff.h:22-29 | The returned code is 0 (QTFFErrorNone) exactly on success, which the `if ((err = ...))` idiom relies on. Otherwise it is the error's own code. |
| QtffTypes.EmptyMovie | lib/qtff/qtff.c:344 | The zero-initialised movie atom is valid: four track slots and a track count of 0. |
| QtffTypes.EmptyFile | lib/qtff/qtff.c:432 | The zero-initialised movie file has every collection at its declared capacity and every count at 0. |
| ByteOrder.BigEndian | lib/qtff/qtff.c:23-28 | The reference reading of a byte string, most significant byte first: a number below 256^length. |
| ByteOrder.ToBytes | lib/qtff/qtff.c:23-28 | A number below 256^width written as exactly width bytes, most significant first. |
| ByteOrder.BigEndianOfToBytes | lib/qtff/qtff.c:23-28 | Reading back the bytes written by ToBytes yields the number. |
| ByteOrder.ToBytesOfBigEndian | lib/qtff/qtff.c:23-28 | Writing out the number a byte string reads as yields the byte string. |
| ByteOrder.BigEndianInjective | lib/qtff/qtff.c:23-28 | Two byte strings of one width that read as the same number are equal. |
| ByteOrder.Ntoh16 | lib/qtff/qtff.c:11-15 | The 16-bit conversion is the big-endian reading of the two bytes as fread stored them, whatever the host order. |
| ByteOrder.Ntoh24 | lib/qtff/qtff.c:17-21 | The 24-bit conversion as written is the big-endian reading of [b0, b0, b1]. |
| ByteOrder.Ntoh24Discrepancy | lib/qtff/qtff.c:17-21 | The 24-bit conversion agrees with the big-endian reading of its three bytes exactly when all three bytes are equal. |
| ByteOrder.Ntoh32 | lib/qtff/qtff.c:23-28 | The 32-bit conversion is the big-endian reading of the four bytes. |
| ByteOrder.Ntoh64 | lib/qtff/qtff.c:30-37 | The 64-bit conversion is the big-endian reading of the eight bytes. |
| ByteOrder.Ntoh64Halves | lib/qtff/qtff.c:30-37 | The 64-bit reading is the first 32-bit half times 2^32 plus the second half, and equals the shifted sum of the eight bytes. |
| ByteOrder.Ntoh32RoundTrip | src/qtff/qtff.c:17-22 | Writing a 32-bit value big-endian and converting it back yields the value. |
| ByteStream.Fread | lib/qtff/qtff.c:42 | A read of 0 bytes or a read after end of file changes nothing. A read succeeds exactly when no indicator is set, no byte faults and all bytes lie inside the file; it then delivers those bytes and moves past them. The indicators are sticky. |
| ByteStream.Fseek | lib/qtff/qtff.c:166 | A relative seek moves the position and clears end of file, or changes nothing when the target lies before the start. |
| ByteStream.SeekEnd | lib/qtff/qtff.c:538 | Seeking to the end puts the position at the file's length and clears end of file. |
| ByteStream.Rewind | lib/qtff/qtff.c:435 | Rewinding returns to offset 0 with both indicators clear. |
| ByteStream.Stream.constructor | lib/qtff/qtff.c:431 | A new stream over a file starts at offset 0 with both indicators clear. |
| ByteStream.Stream.Read | lib/qtff/qtff.c:42 | The stream's new state and the bytes returned are those Fread gives. |
| ByteStream.Stream.Seek | lib/qtff/qtff.c:166 | The stream's new state is the one Fseek gives. |
| ByteStream.Stream.SeekToEnd | lib/qtff/qtff.c:538 | The stream's new state is the one SeekEnd gives. |
| ByteStream.Stream.Rewind | lib/qtff/qtff.c:435 | The stream returns to offset 0 with both indicators clear. |
| ByteStream.Stream.Tell | lib/qtff/qtff.c:111 | ftell returns the current position. |
| AtomIds.AtomId | lib/qtff/qtff.h:16-17 | QTFF_ATOM_ID of a tag is the tag's big-endian reading, a 32-bit value. |
| AtomIds.TagOf | lib/qtff/qtff.c:356 | A four-letter ASCII name gives an ASCII tag. |
| AtomIds.CaseLabelsAreTagIds | lib/qtff/qtff.c:356-357 | Each hexadecimal case label of both switches is the ID of the tag named in the comment beside it. |
| AtomIds.AtomIdInjective | src/qtff/qtff.h:9-10 | Two tags have the same ID exactly when they are equal, so a case label selects exactly one tag. |
| AtomIds.TagDispatchHostIndependent | lib/qtff/qtff.h:16-17 | When plain `char` is signed, a tag matches an ASCII tag's label exactly when it is that tag, as with unsigned `char`. |
| FieldReaders.DecodeField | lib/qtff/qtff.c:54-65 | A fixed-width read succeeds exactly when its bytes are clean. It then returns those bytes and moves past them. A failure is IOError when the error indicator is or becomes set, otherwise EOF. |
| FieldReaders.DecodeU8 | lib/qtff/qtff.c:41-50 | qtff_read_8 succeeds exactly when one clean byte remains, moves past it and stores nothing. IOError is checked before EOF. |
| FieldReaders.DecodeU16 | lib/qtff/qtff.c:54-65 | qtff_read_16 succeeds exactly when two clean bytes remain. It returns their big-endian value and moves past them. IOError is checked before EOF. |
| FieldReaders.DecodeU24 | lib/qtff/qtff.c:67-78 | qtff_read_24 succeeds exactly when three clean bytes remain. It returns the big-endian reading of [b0, b0, b1] and moves past them. |
| FieldReaders.DecodeU32 | lib/qtff/qtff.c:82-93 | qtff_read_32 succeeds exactly when four clean bytes remain. It returns their big-endian value and moves past them. IOError is checked before EOF. |
| FieldReaders.DecodeU64 | lib/qtff/qtff.c:95-106 | qtff_read_64 succeeds exactly when eight clean bytes remain. It returns their big-endian value and moves past them. |
| FieldReaders.DecodeWords | lib/qtff/qtff.c:240-255 | n consecutive 32-bit reads, each checked before the next, return n words and end 4n bytes on, or return a read error. |
| FieldReaders.WordsOutcome | lib/qtff/qtff.c:240-255 | A run of n words succeeds exactly when its 4n bytes are clean. |
| FieldReaders.WordAt | lib/qtff/qtff.c:82-93 | The word at an offset is the big-endian value of the four bytes there. |
| FieldReaders.WordsFrom | lib/qtff/qtff.c:240-255 | The reference reading of a run of n words has n words. |
| FieldReaders.WordsFromIndex | lib/qtff/qtff.c:240-255 | Word i of the reference reading lies at offset p + 4i. |
| FieldReaders.CleanWords | lib/qtff/qtff.c:240-255 | A clean run decodes to the reference reading of its bytes. |
| FieldReaders.WordsAt | lib/qtff/qtff.c:240-255 | Word i of a successful run is the word at offset 4i past the cursor. |
| FieldReaders.ReadU8 | lib/qtff/qtff.c:41-50 | The method returns what DecodeU8 gives and leaves the stream in the state it gives. |
| FieldReaders.ReadU16 | lib/qtff/qtff.c:54-65 | The method returns what DecodeU16 gives and leaves the stream in the state it gives. |
| FieldReaders.ReadU24 | lib/qtff/qtff.c:67-78 | The method returns what DecodeU24 gives and leaves the stream in the state it gives. |
| FieldReaders.ReadU32 | lib/qtff/qtff.c:82-93 | The method returns what DecodeU32 gives and leaves the stream in the state it gives. |
| FieldReaders.ReadU64 | lib/qtff/qtff.c:95-106 | The method returns what DecodeU64 gives and leaves the stream in the state it gives. |
| FieldReaders.ReadWords | lib/qtff/qtff.c:261-281 | The calls return what DecodeWords gives and leave the stream in the state it gives. |
| FieldReaders.DecodeAtomHeader | lib/qtff/qtff.c:108-127 | On success the header's offset is the cursor before the call, eight bytes lie inside the file, and the stream is just past them. A failure is EOF or IOError; an EOF leaves the end-of-file indicator set. |
| FieldReaders.HeaderOutcome | lib/qtff/qtff.c:108-127 | A header read succeeds exactly when eight clean bytes remain. The header then holds the big-endian size and the raw tag. A failure leaves an indicator set. A fault in the size bytes is an IOError. |
| FieldReaders.ReadAtomHeader | lib/qtff/qtff.c:108-127 | The method returns what DecodeAtomHeader gives and leaves the stream in the state it gives. |
| AtomDecoders.Sub32 | lib/qtff/qtff.c:150 | Unsigned 32-bit subtraction: the difference, or the difference plus 2^32 when it would be negative. |
| AtomDecoders.BrandCountBound | lib/qtff/qtff.c:150-153 | The brand count (size - 16) / 4 is at most 4 exactly for sizes 16 to 35; from 16 on it is the plain quotient. |
| AtomDecoders.Groups | lib/qtff/qtff.c:155 | The brands delivered are the whole 4-byte groups of the bytes read, group i being bytes 4i to 4i + 4. |
| AtomDecoders.DecodeFileType | lib/qtff/qtff.c:129-159 | On success the count is (size - 16) / 4 in 32-bit arithmetic and at most 4, no more brands are delivered than counted, and 16 bytes or more are consumed. A failure is a read error, or TooManyAtoms with the stream at offset 16. |
| AtomDecoders.FileTypeTooMany | lib/qtff/qtff.c:150-153 | ftyp fails with TooManyAtoms exactly when its first 16 bytes are clean and its size lies outside 16 to 35. With clean first bytes and a size inside that range it succeeds. |
| AtomDecoders.FileTypeLayout | lib/qtff/qtff.c:139-156 | A decoded ftyp holds the big-endian major brand and minor version at offsets 8 and 12, and the groups of the unchecked brand read from offset 16. |
| AtomDecoders.FileTypeFields | lib/qtff/qtff.c:150-156 | When the whole atom is clean, every counted brand arrives: brand i is the four bytes at 16 + 4i, and the stream stops after the last brand. |
| AtomDecoders.CleanBrands | lib/qtff/qtff.c:155 | A clean read of n brands delivers them all, four bytes each, in order. |
| AtomDecoders.ReadFileType | lib/qtff/qtff.c:129-159 | The method returns what DecodeFileType gives and leaves the stream in the state it gives. |
| AtomDecoders.DecodeOpaque | lib/qtff/qtff.c:161-195 | The opaque decoders (mdat, free, skip, wide, ctab, udta, trak) keep the header. They leave the stream at offset + 8 + (size - 8 in 32-bit arithmetic), which is offset + size for sizes of 8 or more. |
| AtomDecoders.OpaqueOutcome | lib/qtff/qtff.c:314-339 | An opaque atom decodes exactly when its header is clean, whatever its payload. The stored header is the one read. A failure is the header's failure. |
| AtomDecoders.ReadOpaque | src/qtff/qtff.c:107-141 | The method returns what DecodeOpaque gives and leaves the stream in the state it gives. |
| AtomDecoders.DecodePreview | lib/qtff/qtff.c:197-226 | pnot consumes exactly 20 bytes on success: the header, then 4, 2, 4 and 2 bytes. A failure is a read error. |
| AtomDecoders.PreviewOutcome | src/qtff/qtff.c:143-172 | pnot decodes exactly when its 20 bytes are clean. Each field is the big-endian value at its place, read in the order modification time, version, atom type, index. |
| AtomDecoders.ReadPreview | lib/qtff/qtff.c:197-226 | The method returns what DecodePreview gives and leaves the stream in the state it gives. |
| AtomDecoders.DecodeMovieHeaderHead | lib/qtff/qtff.c:235-258 | The version byte, flags, five words and volume consume 26 bytes on success. A failure is a read error. |
| AtomDecoders.MovieHeaderHeadOutcome | lib/qtff/qtff.c:235-258 | The head decodes exactly when its 26 bytes are clean. |
| AtomDecoders.MovieHeaderHeadValues | lib/qtff/qtff.c:238-258 | The flags come from bytes 1, 1 and 2 through the 24-bit conversion. Word i comes from offset 4 + 4i, and the volume from bytes 24 and 25. |
| AtomDecoders.DecodeMovieHeaderTail | lib/qtff/qtff.c:259-281 | The reserved bytes, the matrix and seven words consume 74 bytes on success. A failure is a read error. |
| AtomDecoders.MovieHeaderTailOutcome | lib/qtff/qtff.c:259-281 | The tail decodes exactly when its 74 bytes are clean. A failing unchecked read surfaces at the first word. |
| AtomDecoders.MovieHeaderTailReads | lib/qtff/qtff.c:259-260 | A decoded tail read both unchecked runs clean, one after the other. |
| AtomDecoders.MovieHeaderTailValues | lib/qtff/qtff.c:259-281 | A decoded tail holds the raw reserved bytes and matrix at offsets 0 and 10, and word i from offset 46 + 4i. |
| AtomDecoders.MovieHeaderOf | lib/qtff/qtff.c:238-281 | Each value goes to the field it is read into. The head gives the flags, then words 0 to 4 as creation time, modification time, time scale, duration and preferred rate, then the volume. The tail gives the reserved bytes and matrix, then words 0 to 6 as preview time, preview duration, poster time, selection time, selection duration, current time and next track ID. |
| AtomDecoders.MovieHeaderLayout | lib/qtff/qtff.c:235-281 | The reference reading of the 100 payload bytes: flags through the 24-bit conversion from +1, five words from +4, the volume at +24, the reserved bytes at +26, the matrix at +36 and seven words from +72. |
| AtomDecoders.MovieHeaderLayoutOffsets | lib/qtff/qtff.c:238-281 | Each of the sixteen stored fields comes from its own offset: flags +1, creation time +4, modification time +8, time scale +12, duration +16, preferred rate +20, volume +24, reserved bytes +26, matrix +36, preview time +72, preview duration +76, poster time +80, selection time +84, selection duration +88, current time +92, next track ID +96. |
| AtomDecoders.MovieHeaderHeadClean | lib/qtff/qtff.c:235-258 | A clean head decodes to the reference reading of its 26 bytes. |
| AtomDecoders.MovieHeaderTailClean | lib/qtff/qtff.c:259-281 | A clean tail decodes to the reference reading of its 74 bytes. |
| AtomDecoders.DecodeMovieHeaderFields | lib/qtff/qtff.c:235-281 | The payload consumes exactly 100 bytes on success. A failure is a read error. |
| AtomDecoders.MovieHeaderFieldsOutcome | lib/qtff/qtff.c:235-281 | The payload decodes exactly when its 100 bytes are clean, and then to the reference layout of those bytes, all sixteen fields included. |
| AtomDecoders.DecodeMovieHeader | lib/qtff/qtff.c:228-284 | mvhd consumes exactly 108 bytes from the atom start on success and carries decoded fields; MovieHeaderValues gives their values. A failure is a read error. |
| AtomDecoders.MovieHeaderOutcome | lib/qtff/qtff.c:228-284 | mvhd decodes exactly when its 108 bytes are clean. |
| AtomDecoders.MovieHeaderValues | lib/qtff/qtff.c:228-284 | A decoded mvhd holds the big-endian size and raw tag, and its sixteen fields are the reference layout of the bytes from 8 into the atom. |
| AtomDecoders.ReadMovieHeaderHead | lib/qtff/qtff.c:235-258 | The method returns what DecodeMovieHeaderHead gives and leaves the stream in the state it gives. |
| AtomDecoders.ReadMovieHeaderTail | lib/qtff/qtff.c:259-281 | The method returns what DecodeMovieHeaderTail gives and leaves the stream in the state it gives. |
| AtomDecoders.ReadMovieHeaderFields | lib/qtff/qtff.c:235-281 | The method returns what DecodeMovieHeaderFields gives and leaves the stream in the state it gives. |
| AtomDecoders.ReadMovieHeader | lib/qtff/qtff.c:228-284 | The method returns what DecodeMovieHeader gives and leaves the stream in the state it gives. |
| AtomDecoders.DecodeMovieHeaderLegacy | src/qtff/qtff.c:174-181 | The older mvhd decoder succeeds exactly when the opaque skip does, stores no fields, and ends where the skip ends. |
| AtomDecoders.ReadMovieHeaderLegacy | src/qtff/qtff.c:174-181 | The method returns what DecodeMovieHeaderLegacy gives and leaves the stream in the state it gives. |
| AtomDecoders.DecodeClippingRegion | lib/qtff/qtff.c:286-300 | The region atom leaves the stream at offset + 18 + (size - 18 in 32-bit arithmetic), which is offset + size for sizes of 18 or more. |
| AtomDecoders.ClippingRegionOutcome | lib/qtff/qtff.c:286-300 | The region atom decodes exactly when its 18 bytes are clean. It then holds the header, the big-endian 16-bit region size from bytes 8-9 and the 64-bit boundary box from bytes 10-17. |
| AtomDecoders.ReadClippingRegion | lib/qtff/qtff.c:286-300 | The method returns what DecodeClippingRegion gives and leaves the stream in the state it gives. |
| AtomDecoders.DecodeClipping | lib/qtff/qtff.c:302-312 | A decoded clip holds a region atom that starts 8 bytes into it, and at least 26 bytes are consumed. |
| AtomDecoders.ClippingOutcome | lib/qtff/qtff.c:302-312 | A clip decodes exactly when its header and the nested region's 18 bytes, 26 in all, are clean. The region is then the one decoded 8 bytes in, with its size from bytes 16-17 and its box from bytes 18-25. |
| AtomDecoders.ClippingOvershoots | lib/qtff/qtff.c:310 | For sizes of 8 and 18 or more, the clip decoder stops at the clip's end plus the region's size, past the end of the clip atom. |
| AtomDecoders.ReadClipping | lib/qtff/qtff.c:302-312 | The method returns what DecodeClipping gives and leaves the stream in the state it gives. |
| AtomDecoders.DecodeClippingLegacy | src/qtff/qtff.c:183-190 | The older clip decoder succeeds exactly when the opaque skip does, stores no region, and ends where the skip ends. |
| AtomDecoders.ReadClippingLegacy | src/qtff/qtff.c:183-190 | The method returns what DecodeClippingLegacy gives and leaves the stream in the state it gives. |
| MovieDecoder.UnknownSkip | lib/qtff/qtff.c:417-420 | An unrecognised child is skipped by its size from its start. A size of 0 skips to the end of the file, in both revisions (the older one's skip is `src/qtff/qtff.c:295`). |
| MovieDecoder.UnknownSkipProgress | lib/qtff/qtff.c:417-420 | From inside the file the skip always moves forward. For a nonzero size it is the fseek the code does. |
| MovieDecoder.UnknownSkipAsWritten | lib/qtff/qtff.c:419 | The default case as written moves by exactly the declared size. |
| MovieDecoder.ZeroSizeAtomStallsAsWritten | lib/qtff/qtff.c:352-420 | For a clean header of size 0, the step back and the skip as written return to the header's own cursor, so the next read yields the same header again. The corrected skip reaches the end of the file. |
| MovieDecoder.ExtendsTransitive | lib/qtff/qtff.c:352-422 | What a movie keeps across one loop turn it keeps across two. |
| MovieDecoder.MovieChild | lib/qtff/qtff.c:355-421 | A successful case keeps the movie valid and keeps everything already stored. It moves the stream forward from inside the file. |
| MovieDecoder.MovieLoop | lib/qtff/qtff.c:352-425 | A successful loop keeps the movie valid and everything already stored, and ends with the end-of-file indicator set. |
| MovieDecoder.DecodeMovieAtom | lib/qtff/qtff.c:341-429 | A decoded moov is valid, starts at the cursor, consumes at least its header and ends at end of file. A failure is a read error or happens after the header. |
| MovieDecoder.MovieChildLimits | lib/qtff/qtff.c:357-407 | A child fails with TooManyAtoms before anything is read exactly when it is a second mvhd, clip, udta or ctab, or a fifth trak. |
| MovieDecoder.UnknownChildSkipped | lib/qtff/qtff.c:417-420 | An unrecognised child leaves the movie unchanged. The stream moves to its offset + size, or to the end of the file for size 0. |
| MovieDecoder.MovieChildTrack | lib/qtff/qtff.c:380-391 | A trak is accepted exactly when fewer than four tracks are stored and its header is clean. The count then rises by one, the skipped atom lands in the old count's slot, and every other slot and part of the movie is kept. |
| MovieDecoder.MovieChildHeader | lib/qtff/qtff.c:356-366 | An mvhd is accepted exactly when none is stored and its bytes are clean (108 when decoded, 8 when skipped). Only the movie-header slot then changes, to the decoded atom. |
| MovieDecoder.MovieChildClipping | lib/qtff/qtff.c:368-378 | A clip is accepted exactly when none is stored and its bytes are clean (26 when decoded, 8 when skipped). Only the clipping slot then changes, to the decoded atom. |
| MovieDecoder.MovieChildOpaque | lib/qtff/qtff.c:393-415 | A udta or ctab is accepted exactly when its slot is empty and its header is clean. Only that slot then changes, to the skipped atom. |
| MovieDecoder.ReadMovieAtom | lib/qtff/qtff.c:341-429 | The loop returns what DecodeMovieAtom gives and leaves the stream in the state it gives. |
| MovieDecoder.ReadMovieChild | lib/qtff/qtff.c:355-421 | The switch body returns what MovieChild gives and leaves the stream in the state it gives. |
| MovieFileDecoder.KindOf | lib/qtff/qtff.c:440-536 | A top-level tag ID selects one of the seven collections, or none. |
| MovieFileDecoder.StoreOpaque | lib/qtff/qtff.c:472-521 | Storing an mdat, free, skip or wide atom puts it at index movie_count of its collection, raises only that collection's count, by one, and keeps the file valid. |
| MovieFileDecoder.StoreOpaqueKeeps | lib/qtff/qtff.c:472-521 | The store keeps every other slot of the collection, every other opaque collection, and the ftyp, moov and pnot collections. |
| MovieFileDecoder.StoreFileType | lib/qtff/qtff.c:452-454 | The ftyp atom goes to the next free slot, and only its count rises. |
| MovieFileDecoder.StoreMovie | lib/qtff/qtff.c:467-468 | The moov atom goes to the next free slot, and only its count rises. |
| MovieFileDecoder.StorePreview | lib/qtff/qtff.c:532-533 | The pnot atom goes to the next free slot, and only its count rises. |
| MovieFileDecoder.FileChild | lib/qtff/qtff.c:440-539 | A successful case keeps the file valid and raises exactly the count of the atom's kind, or none for an unrecognised tag. It moves the stream forward from inside the file. |
| MovieFileDecoder.FileLoop | lib/qtff/qtff.c:437-541 | A successful loop keeps the file valid, never lowers a count, and ends with the end-of-file indicator set. |
| MovieFileDecoder.DecodeMovieFile | lib/qtff/qtff.c:431-548 | A decoded movie file is valid and the stream is at end of file. |
| MovieFileDecoder.DecodeIgnoresStartState | lib/qtff/qtff.c:435 | The result does not depend on the stream state before the call, because the decoder rewinds first. |
| MovieFileDecoder.FileChildLimits | lib/qtff/qtff.c:442-534 | A recognised atom fails with TooManyAtoms before anything is read exactly when its collection is full. No other outcome leaves that error with the stream at the atom's start. |
| MovieFileDecoder.PreviewGuardAsWrittenOverflows | lib/qtff/qtff.c:525 | With the one preview slot taken, the guard as written in both revisions (also `src/qtff/qtff.c:394`) lets a second pnot through to a store past the end of the collection; the model's guard rejects it. |
| MovieFileDecoder.UnknownTopLevelSkipped | lib/qtff/qtff.c:536-539 | An unrecognised top-level atom leaves the file unchanged. The stream continues at its offset + size, or at the end of the file for a size of 0. |
| MovieFileDecoder.LoopStopsAtEof | lib/qtff/qtff.c:437-547 | Once the end-of-file indicator is set the loop stops. It keeps what it has, unless the error indicator is set, which gives IOError. |
| MovieFileDecoder.MovieDataSlotReused | lib/qtff/qtff.c:480 | An mdat atom is stored at index movie_count and every other slot is left as it was. |
| MovieFileDecoder.OpaqueSlotIsMovieCount | lib/qtff/qtff.c:472-521 | For each of mdat, free, skip and wide, an accepted atom lands at index movie_count of its collection, which the store leaves unchanged, and the rest of the collection is kept. |
| MovieFileDecoder.SecondStoreOverwritesFirst | lib/qtff/qtff.c:480-481 | Two atoms of one opaque kind in a row raise the count by two, but the second replaces the first at index movie_count and no other slot receives anything. |
| MovieFileDecoder.ShortFileIsEmpty | lib/qtff/qtff.c:437-547 | A fault-free file shorter than one header decodes to the empty movie file. |
| MovieFileDecoder.FaultInFirstSize | lib/qtff/qtff.c:542-544 | A fault in the first size field ends the decode with IOError. |
| MovieFileDecoder.ReadMovieFile | lib/qtff/qtff.c:431-548 | The loop returns what DecodeMovieFile gives and leaves the stream in the state it gives. |
| MovieFileDecoder.ReadFileChild | lib/qtff/qtff.c:440-540 | The switch body returns what FileChild gives and leaves the stream in the state it gives. |
| Fixture.SampleFileType | tests/qtff_test.cpp:24-26 | The sample's ftyp atom decodes with one compatible brand, header (0, 20), and the stream at 20. |
| Fixture.SampleMovie | tests/qtff_test.cpp:28-30 | The sample's moov atom decodes with its header (28330, 706), its mvhd and one trak, ending at end of file. |
| Fixture.SampleMovieFile | tests/qtff_test.cpp:24-44 | The file the sample decodes to has the counts and headers the test expects. |
| Fixture.SampleLoop | tests/qtff_test.cpp:19-22 | The top-level loop over the sample succeeds with that file. |
| Fixture.SampleTopAtoms | tests/qtff_test.cpp:19-45 | Decoding the sample succeeds with one ftyp at (0, 20), one moov at (28330, 706), one mdat at (28, 28302), one wide at (20, 8), and no free, skip or pnot atom. |

## Left out

- I/O buffering and the stdio library's internals are left out. The stream is the file's bytes, a position, the two sticky indicators and a fault oracle.
- The `printf` trace in the older movie loop (`src/qtff/qtff.c:233-234`) is diagnostic output only.
- `qtff_write_movie_file` is declared (`lib/qtff/qtff.h:410`) but has no body.
- The 3×3 float matrix of mvhd is kept as its 36 raw bytes. Floating point is out of scope.
- `DecodeMovieHeader` and the other decoders that write through `out` field by field (`DecodePreview`, `DecodeClipping`, `DecodeClippingRegion`): on a failed read the C has already written the earlier fields. Every caller passes a local and discards it on error, so the model returns only the error.
- `DecodeMovieHeaderFields` stores the flags as the 32-bit value. The C writes that value into the 3-byte `flags` array, one byte past its end (`lib/qtff/qtff.h:199`). The byte that spills over is overwritten by the next read.
- `DecodeFileType` keeps only the whole brands an unchecked read delivered. The C array's other slots keep whatever the local held.
- The color table, user data and track structs declare more fields than the decoders read. Only their headers are modelled, as the decoders keep only those.
- In the older revision, the movie atom struct (`src/qtff/qtff.h:112-116`) is a flat array of child headers. Its movie loop uses the fields of the current revision's struct (`lib/qtff/qtff.h:340-348`), so both revisions share one `MovieAtom` type.
- The older revision's case labels (`src/qtff/qtff.c:237`) use `QTFF_ATOM_ID("mvhd")`, which is not a C constant expression, and its ftyp decoder names a capacity macro its header spells `QT_MAX_COMPATIBLE_BRANDS`. The model takes the labels to be those IDs and that capacity to be 4.
- Seek distances are modelled for a 64-bit `long`. On a target with a 32-bit `long`, a wrapped `size - 8` of 2^31 or more would seek backwards; the model does not cover that case.
- `QTFF_ATOM_ID` shifts a promoted `char` by 24. A tag byte of 0x80 or more makes that shift overflow `int` in C. The model takes the arithmetic value, for unsigned and for sign-extended bytes.
- `ReadWords` is one recursive method standing for a run of consecutive `qtff_read_32` calls, each checked before the next.
- The sample movie of the decoder's tests is not part of this model. The fixture states only its top-level layout as the test expects it. Inside the moov, one mvhd of 108 bytes and one trak of 590 bytes are assumed. Every other byte is left free, and no read fails.
- The out-of-bounds pnot store that the guard as written allows cannot be expressed on a sequence. `PreviewGuardAsWrittenOverflows` shows only that the index reaches the collection's length.
- The loop that never ends for a zero-size unknown atom cannot be run as a terminating function. `ZeroSizeAtomStallsAsWritten` shows only that one turn returns to its starting cursor.

## Findings

| source | as written | input that shows it | evidently intended | confidence | as-written member | corrected member |
|---|---|---|---|---|---|---|
| lib/qtff/qtff.c:525 | The pnot guard compares `preview_count` with `QTFF_MAX_WIDE_ATOMS` (4), but the preview array has `QTFF_MAX_PREVIEW_ATOMS` (1) slot (`lib/qtff/qtff.h:365,391`). | Two pnot atoms at the top level. The second passes the guard and is stored at index 1 of a one-slot array. | A second pnot fails with TooManyAtoms, as for every other collection. | not executed | MovieFileDecoder.PreviewGuardAsWrittenOverflows | MovieFileDecoder.FileChildLimits |
| src/qtff/qtff.c:394 | The older revision has the same pnot guard: `preview_count` is compared with `QTFF_MAX_WIDE_ATOMS` (4), while its preview array has `QTFF_MAX_PREVIEW_ATOMS` (1) slot (`src/qtff/qtff.h:163,186`). | Two pnot atoms at the top level of a file decoded by the older revision. | A second pnot fails with TooManyAtoms. The model's guard applies to both revisions. | not executed | MovieFileDecoder.PreviewGuardAsWrittenOverflows | MovieFileDecoder.FileChildLimits |
| lib/qtff/qtff.c:419 | An unrecognised atom is skipped with `fseek(fd, atom.size, SEEK_CUR)` from its start. A size of 0 leaves the stream where it was, so the loop reads the same header forever; `lib/qtff/qtff.c:538` does the same at the top level. | A clean 8-byte header with size 0 and an unrecognised tag, such as `00 00 00 00 'a' 'b' 'c' 'd'`. | Size 0 means the atom extends to the end of the file (QuickTime File Format, chapter 1; ISO/IEC 14496-12, section 4.2), so the skip goes to the end. | not executed | MovieDecoder.ZeroSizeAtomStallsAsWritten | MovieDecoder.UnknownSkipProgress |
| src/qtff/qtff.c:295 | The older revision skips an unrecognised moov child with the same `fseek(fd, atom.size, SEEK_CUR)`, and `src/qtff/qtff.c:407` does so at the top level, so a size of 0 makes either loop read the same header forever. | The same 8-byte header, `00 00 00 00 'a' 'b' 'c' 'd'`, in a file decoded by the older revision. | The skip goes to the end of the file. The model's skip applies to both revisions. | not executed | MovieDecoder.ZeroSizeAtomStallsAsWritten | MovieDecoder.UnknownSkipProgress |
