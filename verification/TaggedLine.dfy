/** The packed table entry of include/line.h: 52 bits of address, 12 bits of length. */
module TaggedLine {
  import opened Words

  const TWO_52: nat := 0x10_0000_0000_0000

  /** `t_line`, an unsigned 64-bit word. */
  type Word = w: nat | w < TWO_64

  /** `MAKE_LINE`: the shift drops the address bits above 52, the mask the length bits above 12. */
  function MakeLine(ptr: nat, size: nat): Word
  {
    (ptr * 4096 % TWO_64 + size % 4096) % TWO_64
  }

  /** `LINE_ADDR` */
  function LineAddr(w: Word): nat { w / 4096 }

  /** `LINE_SIZE` */
  function LineSize(w: Word): nat { w % 4096 }

  /** `LINE_ISSET` */
  predicate LineIsSet(w: Word) { w != 0 }

  lemma ShiftOut(ptr: nat)
    ensures ptr * 4096 % TWO_64 == (ptr % TWO_52) * 4096
  {
    var q, r := ptr / TWO_52, ptr % TWO_52;
    assert ptr * 4096 == q * TWO_64 + r * 4096;
  }

  /** An entry decodes exactly to the address and length that it was made of if and only if they
      fit into 52 and 12 bits. */
  lemma EntryDecodes(ptr: nat, size: nat)
    ensures LineAddr(MakeLine(ptr, size)) == ptr && LineSize(MakeLine(ptr, size)) == size
            <==> ptr < 0x10_0000_0000_0000 && size < 0x1000
  {
    ShiftOut(ptr);
    var p, z := ptr % TWO_52, size % 4096;
    assert p * 4096 + z < TWO_64;
    assert MakeLine(ptr, size) == p * 4096 + z;
    assert (p * 4096 + z) / 4096 == p && (p * 4096 + z) % 4096 == z;
  }

  /** The layout of an entry: the length in the low 12 bits, the address above them. */
  lemma EntryLayout(ptr: nat, size: nat, w: Word)
    ensures ptr < 0x10_0000_0000_0000 && size < 0x1000 ==> MakeLine(ptr, size) == ptr * 0x1000 + size
    ensures LineAddr(w) * 0x1000 + LineSize(w) == w && LineSize(w) < 0x1000
  {
    ShiftOut(ptr);
  }

  /** An entry of a line at a non-null address is never mistaken for an empty slot. */
  lemma EntryIsSet(ptr: nat, size: nat)
    requires 0 < ptr < TWO_52
    ensures LineIsSet(MakeLine(ptr, size))
  {
    assert MakeLine(ptr, size) == ptr * 4096 + size % 4096;
  }
}
