/** VMSAv8-64 descriptors as 64-bit words: the count hidden in ignored bits, addresses, attributes and types. */
module LpaeBits {
  import opened LpaeLevels
  import opened LpaeNum
  import opened LpaeTable
  import opened LpaeSteps

  /** iopte_val, iopte_tblcnt and iopte_tblcnt_set. Bits 54-52 and 11-2 are free for the count. */
  function Val(pte: Word): Word { pte & 0xFF8F_FFFF_FFFF_F003 }
  function Count(pte: Word): Word { (((pte >> 52) & 7) << 10) | ((pte >> 2) & 0x3FF) }
  function SetCount(pte: Word, v: Word): Word { Val(pte) | (((v >> 10) & 7) << 52) | ((v & 0x3FF) << 2) }

  /** iopte_tblcnt_add and iopte_tblcnt_sub */
  function AddCount(pte: Word, k: Word): Word { SetCount(pte, Plus(Count(pte), k)) }
  function SubCount(pte: Word, k: Word): Word { SetCount(pte, Minus(Count(pte), k)) }

  /** paddr_to_iopte and iopte_to_paddr. `wide` says whether the granule is 64K. */
  function FromPaddr(pa: Word): Word { Bits47To12(Both(pa, Down36(pa))) }
  function Narrow(pte: Word): Word { Bits47To12(Val(pte)) }
  function Widen(a: Word): Word { Bits51To16(Both(a, Up36(a))) }
  function ToPaddr(pte: Word, wide: bool): Word { if wide then Widen(Narrow(pte)) else Narrow(pte) }

  /** iopte_type and iopte_prot */
  function Type(pte: Word): Word { pte & 3 }
  function Prot(pte: Word): Word { pte & 0x0060_0000_0000_0FFC }

  /** The leaf __arm_lpae_init_pte writes: type 3 on the last level, 1 above. */
  function LeafPte(prot: Word, pa: Word, last: bool): Word { Or(prot, if last then 3 else 1, FromPaddr(pa)) }

  /** The table entry arm_lpae_install_table writes. */
  function TablePte(pa: Word, count: Word): Word { SetCount(pa | 3, count) }

  /** Physical addresses of a table with the given granule: 48 bits and 4K-aligned, or 52 bits and 64K-aligned. */
  predicate PaddrOk(pa: Word, wide: bool) {
    if wide then pa & 0xFFF0_0000_0000_FFFF == 0 else pa & 0xFFFF_0000_0000_0FFF == 0
  }

  lemma SetThenGet(pte: Word, v: Word)
    ensures Count(SetCount(pte, v)) == Low(v)
  {
  }

  lemma SetKeepsVal(pte: Word, v: Word)
    ensures Val(SetCount(pte, v)) == Val(pte)
  {
  }

  lemma SetKeepsType(pte: Word, v: Word)
    ensures Type(SetCount(pte, v)) == Type(pte)
  {
  }

  /** The count is kept modulo 2^13, and setting it changes nothing else. */
  lemma CountKept(pte: Word, v: Word, wide: bool)
    ensures Count(SetCount(pte, v)) == Low(v)
    ensures Val(SetCount(pte, v)) == Val(pte) && Type(SetCount(pte, v)) == Type(pte)
    ensures ToPaddr(SetCount(pte, v), wide) == ToPaddr(pte, wide)
  {
    hide Count, SetCount, Val, Type, Widen;
    SetThenGet(pte, v);
    SetKeepsVal(pte, v);
    SetKeepsType(pte, v);
  }

  /** Counting up or down works modulo 2^13 and leaves address and type alone. */
  lemma CountStep(pte: Word, k: Word, wide: bool)
    ensures Count(AddCount(pte, k)) == Low(Plus(Count(pte), k)) && Count(SubCount(pte, k)) == Low(Minus(Count(pte), k))
    ensures ToPaddr(AddCount(pte, k), wide) == ToPaddr(pte, wide) == ToPaddr(SubCount(pte, k), wide)
    ensures Type(AddCount(pte, k)) == Type(pte) == Type(SubCount(pte, k))
  {
    hide Count, SetCount, Low, Plus, Minus, ToPaddr, Type;
    CountKept(pte, Plus(Count(pte), k), wide);
    CountKept(pte, Minus(Count(pte), k), wide);
  }

  /** Attribute bits, type bits and address bits do not overlap. */
  predicate Attrs(prot: Word) { prot & 0xFF9F_FFFF_FFFF_F003 == 0 }
  predicate Kind(kind: Word) { kind & 0xFFFF_FFFF_FFFF_FFFC == 0 }
  predicate Addr(a: Word) { a & 0xFFFF_0000_0000_0FFF == 0 }
  function Or(prot: Word, kind: Word, a: Word): Word { prot | kind | a }

  lemma LeafAddr(prot: Word, kind: Word, a: Word)
    requires Attrs(prot) && Kind(kind) && Addr(a)
    ensures Narrow(Or(prot, kind, a)) == a
  {
  }

  lemma LeafProt(prot: Word, kind: Word, a: Word)
    requires Attrs(prot) && Kind(kind) && Addr(a)
    ensures Prot(Or(prot, kind, a)) == prot
  {
  }

  lemma LeafType(prot: Word, kind: Word, a: Word)
    requires Attrs(prot) && Kind(kind) && Addr(a)
    ensures Type(Or(prot, kind, a)) == kind
  {
  }

  lemma FromAddr(pa: Word)
    ensures Addr(FromPaddr(pa)) && Kind(1) && Kind(3)
  {
  }

  lemma PaddrBack(pa: Word)
    ensures PaddrOk(pa, false) ==> FromPaddr(pa) == pa
    ensures PaddrOk(pa, true) ==> Widen(FromPaddr(pa)) == pa
  {
  }

  /** A leaf gives back the address, the attributes and the type it was made of. */
  lemma LeafBack(prot: Word, pa: Word, last: bool, wide: bool)
    requires Attrs(prot) && PaddrOk(pa, wide)
    ensures ToPaddr(LeafPte(prot, pa, last), wide) == pa
    ensures Prot(LeafPte(prot, pa, last)) == prot && Type(LeafPte(prot, pa, last)) == if last then 3 else 1
  {
    hide Narrow, FromPaddr, Prot, Type, Widen, PaddrOk, Attrs, Kind, Addr, Or;
    var kind: Word := if last then 3 else 1;
    FromAddr(pa);
    LeafAddr(prot, kind, FromPaddr(pa));
    LeafProt(prot, kind, FromPaddr(pa));
    LeafType(prot, kind, FromPaddr(pa));
    PaddrBack(pa);
  }

  /** A table entry keeps its type and its count. */
  lemma TableKept(pa: Word, count: Word, wide: bool)
    ensures Type(TablePte(pa, count)) == 3 && Count(TablePte(pa, count)) == Low(count)
    ensures ToPaddr(TablePte(pa, count), wide) == ToPaddr(pa | 3, wide)
  {
    TypeOr(pa);
    hide SetCount, Count, Type, ToPaddr, Low;
    CountKept(pa | 3, count, wide);
  }

  lemma TypeOr(pa: Word)
    ensures Type(pa | 3) == 3 && Narrow(pa | 3) == Bits47To12(pa)
  {
  }

  /** A table entry points to its table if and only if the table lies below 2^48, with either granule. */
  lemma TableBack(pa: Word, count: Word, wide: bool)
    requires PaddrOk(pa, wide)
    ensures ToPaddr(TablePte(pa, count), wide) == pa <==> pa & 0xFFFF_0000_0000_0000 == 0
  {
    hide TablePte;
    TableKept(pa, count, wide);
    if wide { TopLost(pa); } else { TopNone(pa); }
  }

  lemma TopLost(pa: Word)
    requires PaddrOk(pa, true)
    ensures Widen(Narrow(pa | 3)) == pa <==> pa & 0xFFFF_0000_0000_0000 == 0
  {
  }

  lemma TopNone(pa: Word)
    requires PaddrOk(pa, false)
    ensures Narrow(pa | 3) == pa && pa & 0xFFFF_0000_0000_0000 == 0
  {
  }

  /** A table at 2^48, which a leaf could point to, is lost. */
  lemma TableLost()
    ensures PaddrOk(0x0001_0000_0000_0000, true)
    ensures forall count: Word :: ToPaddr(TablePte(0x0001_0000_0000_0000, count), true) == 0
  {
    forall count: Word ensures ToPaddr(TablePte(0x0001_0000_0000_0000, count), true) == 0 {
      TableKept(0x0001_0000_0000_0000, count, true);
    }
  }

  // ---------------------------------------------------------------------------------------------
  // Words as the entries of the tables.

  predicate Wide(page: nat) { page >= 0x1_0000 }

  /** iopte_leaf */
  predicate IsLeaf(w: Word, last: bool) { Type(w) == if last then 3 else 1 }

  /** The entry a word stands for in a table of the last level or above it. */
  function Decode(page: nat, w: Word, last: bool): Pte {
    if w == 0 then Empty
    else if IsLeaf(w, last) then Leaf(Value(ToPaddr(w, Wide(page))), Value(Prot(w)))
    else Table(Value(ToPaddr(w, Wide(page))), Value(Count(w)))
  }

  lemma ValueFrom(pa: Word)
    ensures Value(FromPaddr(pa)) == LpaeAddr.Encoded(Value(pa))
  {
    hide Value, LpaeAddr.Or, Bits47To12, Both, Down36;
    ValueField48(Both(pa, Down36(pa)));
    ValueOr(pa, Down36(pa));
    ValueRight36(pa);
  }

  lemma ValueTo(page: nat, w: Word)
    ensures Value(ToPaddr(w, Wide(page))) == LpaeAddr.Decoded(page, Value(Narrow(w)))
  {
    hide Narrow, Value, LpaeAddr.Or, Bits51To16, Both, Up36;
    var a := Narrow(w);
    ValueField52(Both(a, Up36(a)));
    ValueOr(a, Up36(a));
    ValueLeft36(a);
    LpaeAddr.OrWide(Value(a));
  }

  /** What a leaf is written with is what the tables record: its address as far as it can be stored, its attributes. */
  lemma DecodeLeaf(page: nat, prot: Word, pa: Word, last: bool)
    requires Attrs(prot)
    ensures Decode(page, LeafPte(prot, pa, last), last) == Leaf(LpaeAddr.Stored(page, Value(pa)), Value(prot))
    ensures LeafPte(prot, pa, last) != 0 && IsLeaf(LeafPte(prot, pa, last), last)
  {
    var kind: Word := if last then 3 else 1;
    var w := LeafPte(prot, pa, last);
    FromAddr(pa);
    NotZero(w);
    hide Narrow, FromPaddr, Prot, Type, Attrs, Kind, Addr, Or, Value, ToPaddr, LpaeAddr.Encoded, LpaeAddr.Decoded;
    LeafAddr(prot, kind, FromPaddr(pa));
    LeafProt(prot, kind, FromPaddr(pa));
    LeafType(prot, kind, FromPaddr(pa));
    ValueTo(page, w);
    ValueFrom(pa);
  }

  lemma NotZero(w: Word)
    ensures Type(w) != 0 ==> w != 0
  {
  }

  /** What a table entry is written with is what the tables record: its address as far as it can be stored, its
      count. */
  lemma DecodeTable(page: nat, pa: Word, count: Word)
    ensures Decode(page, TablePte(pa, count), false) ==
      Table(LpaeAddr.TableAddr(page, Value(pa)), Value(count) % COUNTS)
  {
    var w := TablePte(pa, count);
    NotZero(w);
    TypeOr(pa);
    hide TablePte, Narrow, Type, Value, ToPaddr, Count, LpaeAddr.Decoded, Low, Bits47To12;
    TableKept(pa, count, Wide(page));
    ValueLow(count);
    ValueTo(page, pa | 3);
    ValueField48(pa);
  }

  /** Counting in a word is counting in the entry it stands for. */
  lemma DecodeCount(page: nat, w: Word, k: Word)
    requires Type(w) == 3
    ensures Decode(page, w, false).Table?
    ensures Decode(page, AddCount(w, k), false) == Recounted(Decode(page, w, false), Value(k))
    ensures Decode(page, SubCount(w, k), false) == Recounted(Decode(page, w, false), 0 - Value(k))
  {
    NotZero(w);
    NotZero(AddCount(w, k));
    NotZero(SubCount(w, k));
    hide Type, Value, ToPaddr, Count, AddCount, SubCount, Low, Plus, Minus;
    CountStep(w, k, Wide(page));
    ValuePlus(Count(w), k);
    ValueMinus(Count(w), k);
  }
}
