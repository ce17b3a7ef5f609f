/**
 * QTFF_ATOM_ID: a 4-byte tag packed into one integer, first byte most
 * significant, and the hexadecimal case labels the decoder switches on.
 *
 * The macro adds `char` values. The model reads them as unsigned bytes
 * (plain `char` on the ARM target); where plain `char` is signed,
 * bytes of 0x80 and above sign-extend. SignedCharAtomId models that
 * reading, and TagDispatchHostIndependent shows that both readings
 * select the same switch case for every tag.
 */
module AtomIds {
  import opened QtffTypes
  import opened ByteOrder

  function AtomId(t: Tag): (id: int)
    ensures id == BigEndian(t)
    ensures 0 <= id < 0x1_0000_0000
  {
    BigEndianUnrolled(t, 1);
    BigEndianUnrolled(t, 2);
    BigEndianUnrolled(t, 3);
    BigEndianUnrolled(t, 4);
    assert t[..4] == t;
    t[0] as int * 0x100_0000 + t[1] as int * 0x1_0000 + t[2] as int * 0x100 + t[3] as int
  }

  function SignedChar(b: byte): int {
    if b < 0x80 then b else b - 0x100
  }

  /** QTFF_ATOM_ID where plain `char` is signed. */
  function SignedCharAtomId(t: Tag): int {
    SignedChar(t[0]) * 0x100_0000 + SignedChar(t[1]) * 0x1_0000 + SignedChar(t[2]) * 0x100 + SignedChar(t[3])
  }

  predicate Ascii(t: Tag) {
    forall i :: 0 <= i < 4 ==> t[i] < 0x80
  }

  /** The tag of a four-letter ASCII name. */
  function TagOf(name: string): (t: Tag)
    requires |name| == 4 && forall i :: 0 <= i < 4 ==> name[i] as int < 0x80
    ensures Ascii(t)
  {
    [name[0] as int, name[1] as int, name[2] as int, name[3] as int]
  }

  // The case labels of the two dispatch switches.
  const FTYP_ID := 0x66747970
  const MOOV_ID := 0x6d6f6f76
  const MDAT_ID := 0x6d646174
  const FREE_ID := 0x66726565
  const SKIP_ID := 0x736b6970
  const WIDE_ID := 0x77696465
  const PNOT_ID := 0x706e6f74
  const MVHD_ID := 0x6d766864
  const CLIP_ID := 0x636c6970
  const TRAK_ID := 0x7472616b
  const UDTA_ID := 0x75647461
  const CTAB_ID := 0x63746162

  /** Each hexadecimal case label is the ID of the tag named in the comment beside it. */
  lemma CaseLabelsAreTagIds()
    ensures AtomId(TagOf("ftyp")) == FTYP_ID && AtomId(TagOf("moov")) == MOOV_ID
    ensures AtomId(TagOf("mdat")) == MDAT_ID && AtomId(TagOf("free")) == FREE_ID
    ensures AtomId(TagOf("skip")) == SKIP_ID && AtomId(TagOf("wide")) == WIDE_ID
    ensures AtomId(TagOf("pnot")) == PNOT_ID && AtomId(TagOf("mvhd")) == MVHD_ID
    ensures AtomId(TagOf("clip")) == CLIP_ID && AtomId(TagOf("trak")) == TRAK_ID
    ensures AtomId(TagOf("udta")) == UDTA_ID && AtomId(TagOf("ctab")) == CTAB_ID
  {
  }

  /** Only the tag itself has a given ID, so a case label selects exactly one tag. */
  lemma AtomIdInjective(a: Tag, b: Tag)
    ensures AtomId(a) == AtomId(b) <==> a == b
  {
    if AtomId(a) == AtomId(b) {
      BigEndianInjective(a, b);
    }
  }

  /** A base-256 numeral whose lower digits lie strictly between -256 and 256 is zero only with every digit zero. */
  lemma DigitsZero(d0: int, d1: int, d2: int, d3: int)
    requires -0x100 < d1 < 0x100 && -0x100 < d2 < 0x100 && -0x100 < d3 < 0x100
    requires d0 * 0x100_0000 + d1 * 0x1_0000 + d2 * 0x100 + d3 == 0
    ensures d0 == 0 && d1 == 0 && d2 == 0 && d3 == 0
  {
    var q2 := d0 * 0x1_0000 + d1 * 0x100 + d2;
    assert q2 * 0x100 + d3 == 0;
    assert d3 == 0 && q2 == 0;
    var q1 := d0 * 0x100 + d1;
    assert q1 * 0x100 + d2 == 0;
    assert d2 == 0 && q1 == 0;
  }

  /**
   * Under the signed-char reading a tag matches an ASCII tag's label
   * exactly when it is that tag, as under the unsigned reading.
   */
  lemma TagDispatchHostIndependent(t: Tag, k: Tag)
    requires Ascii(k)
    ensures SignedCharAtomId(t) == AtomId(k) <==> t == k
    ensures AtomId(t) == AtomId(k) <==> t == k
  {
    AtomIdInjective(t, k);
    if SignedCharAtomId(t) == AtomId(k) {
      DigitsZero(SignedChar(t[0]) - k[0], SignedChar(t[1]) - k[1], SignedChar(t[2]) - k[2], SignedChar(t[3]) - k[3]);
      assert t == k by {
        assert forall i :: 0 <= i < 4 ==> t[i] == k[i];
      }
    }
  }
}
