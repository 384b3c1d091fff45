/** The two-level bitmap of ready priorities: 32 bytes with one bit per priority, and a word with one
    bit per byte. */
module PriorityBitmap {

  /** rt_thread_ready_table: byte `n` holds the priorities from 8 * n on. */
  type Table = seq<bv8>

  /** A priority or the number of a byte, as an index. */
  function Idx(n: bv8): (k: nat)
    ensures k < 256
  {
    n as nat
  }

  lemma IdxInjective(n: bv8, m: bv8)
    ensures Idx(n) == Idx(m) <==> n == m
  {}

  lemma IdxSmall(n: bv8)
    requires n < 32
    ensures Idx(n) < 32
  {}

  /** RT_SCHED_PRIV.number, the byte of priority `p`. */
  function Number(p: bv8): (n: bv8)
    ensures n < 32
  {
    p >> 3
  }

  /** RT_SCHED_PRIV.high_mask, the bit of priority `p` in its byte. */
  function HighMask(p: bv8): bv8 {
    1 << (p & 7)
  }

  /** RT_SCHED_PRIV.number_mask, the bit of byte `n` in the word. */
  function NumberMask(n: bv8): bv32
    requires n < 32
  {
    1 << n
  }

  function ByteAt(table: Table, n: bv8): bv8
    requires |table| == 32 && n < 32
  {
    IdxSmall(n);
    table[Idx(n)]
  }

  predicate HasBit(x: bv8, p: bv8) {
    x & HighMask(p) != 0
  }

  /** x |= mask and x &= ~mask, on a byte. */
  function ByteWith(x: bv8, mask: bv8): bv8 { x | mask }

  function ByteLess(x: bv8, mask: bv8): bv8 { x & !mask }

  function SetBit(x: bv8, p: bv8): bv8 {
    ByteWith(x, HighMask(p))
  }

  function ClearBit(x: bv8, p: bv8): bv8 {
    ByteLess(x, HighMask(p))
  }

  function And(x: bv32, mask: bv32): bv32 { x & mask }

  predicate Meet(x: bv32, mask: bv32) { And(x, mask) != 0 }

  /** x |= mask and x &= ~mask, on a word. */
  function With(x: bv32, mask: bv32): bv32 { x | mask }

  function Less(x: bv32, mask: bv32): bv32 { x & !mask }

  predicate HasByte(group: bv32, n: bv8)
    requires n < 32
  {
    Meet(group, NumberMask(n))
  }

  function SetGroup(group: bv32, n: bv8): bv32
    requires n < 32
  {
    With(group, NumberMask(n))
  }

  function ClearGroup(group: bv32, n: bv8): bv32
    requires n < 32
  {
    Less(group, NumberMask(n))
  }

  predicate IsZero(x: bv8) { x == 0 }

  /** The bit of priority `p` is set. */
  predicate Marked(table: Table, p: bv8)
    requires |table| == 32
  {
    HasBit(ByteAt(table, Number(p)), p)
  }

  /** The word says of every byte whether it is zero. */
  ghost predicate GroupOk(group: bv32, table: Table)
    requires |table| == 32
  {
    forall n: bv8 :: n < 32 ==> (HasByte(group, n) <==> !IsZero(ByteAt(table, n)))
  }

  // ------------------------------------------------------------------------------------------
  // Setting and clearing bits
  // ------------------------------------------------------------------------------------------

  lemma ByteMasks(x: bv8, p: bv8, q: bv8)
    ensures (x | HighMask(p)) & HighMask(q) != 0 <==> p & 7 == q & 7 || x & HighMask(q) != 0
    ensures (x & !HighMask(p)) & HighMask(q) != 0 <==> p & 7 != q & 7 && x & HighMask(q) != 0
  {}

  lemma SamePriority(p: bv8, q: bv8)
    ensures p == q <==> Number(p) == Number(q) && p & 7 == q & 7
  {}

  lemma ByteBits(x: bv8, p: bv8, q: bv8)
    requires Number(p) == Number(q)
    ensures HasBit(SetBit(x, p), q) <==> p == q || HasBit(x, q)
    ensures HasBit(ClearBit(x, p), q) <==> p != q && HasBit(x, q)
  {
    ByteMasks(x, p, q);
    SamePriority(p, q);
    hide HighMask, Number;
  }

  lemma ZeroBits(x: bv8, p: bv8)
    ensures !IsZero(SetBit(x, p))
    ensures IsZero(x) ==> IsZero(ClearBit(x, p)) && !HasBit(x, p)
  {}

  lemma MasksDiffer(i: bv8, j: bv8)
    requires i < 32 && j < 32
    ensures Meet(NumberMask(i), NumberMask(j)) <==> i == j
  {}

  lemma WithWord(x: bv32, m: bv32, k: bv32)
    requires m & k == 0
    ensures (x | m) & k == x & k
  {}

  lemma LessWord(x: bv32, m: bv32, k: bv32)
    requires m & k == 0
    ensures (x & !m) & k == x & k
  {}

  lemma AndWith(x: bv32, m: bv32, k: bv32)
    requires And(m, k) == 0
    ensures And(With(x, m), k) == And(x, k)
  {
    WithWord(x, m, k);
  }

  lemma AndLess(x: bv32, m: bv32, k: bv32)
    requires And(m, k) == 0
    ensures And(Less(x, m), k) == And(x, k)
  {
    LessWord(x, m, k);
  }

  lemma OtherMask(x: bv32, m: bv32, k: bv32)
    requires !Meet(m, k)
    ensures Meet(With(x, m), k) == Meet(x, k) == Meet(Less(x, m), k)
  {
    hide And, With, Less;
    AndWith(x, m, k);
    AndLess(x, m, k);
  }

  lemma OwnMask(x: bv32, m: bv32)
    requires Meet(m, m)
    ensures Meet(With(x, m), m) && !Meet(Less(x, m), m)
  {}

  lemma WordBits(x: bv32, i: bv8, j: bv8)
    requires i < 32 && j < 32
    ensures HasByte(SetGroup(x, i), j) <==> i == j || HasByte(x, j)
    ensures HasByte(ClearGroup(x, i), j) <==> i != j && HasByte(x, j)
  {
    hide NumberMask, Meet, With, Less;
    MasksDiffer(i, j);
    if i != j {
      OtherMask(x, NumberMask(i), NumberMask(j));
    } else {
      OwnMask(x, NumberMask(i));
    }
  }

  /** Byte `n` is replaced. */
  function SetByte(table: Table, n: bv8, x: bv8): (r: Table)
    requires |table| == 32 && n < 32
    ensures |r| == 32
  {
    IdxSmall(n);
    table[Idx(n) := x]
  }

  lemma SetByteAt(table: Table, n: bv8, x: bv8, m: bv8)
    requires |table| == 32 && n < 32 && m < 32
    ensures ByteAt(SetByte(table, n, x), m) == if m == n then x else ByteAt(table, m)
  {
    IdxInjective(n, m);
    IdxSmall(n);
    IdxSmall(m);
    hide Idx;
  }

  /** The bit of `p` is set. */
  function Mark(table: Table, p: bv8): (r: Table)
    requires |table| == 32
    ensures |r| == 32
  {
    SetByte(table, Number(p), SetBit(ByteAt(table, Number(p)), p))
  }

  /** The bit of `p` is cleared. */
  function Unmark(table: Table, p: bv8): (r: Table)
    requires |table| == 32
    ensures |r| == 32
  {
    SetByte(table, Number(p), ClearBit(ByteAt(table, Number(p)), p))
  }

  lemma MarkAt(table: Table, p: bv8, q: bv8)
    requires |table| == 32
    ensures Marked(Mark(table, p), q) <==> q == p || Marked(table, q)
    ensures Marked(Unmark(table, p), q) <==> q != p && Marked(table, q)
  {
    hide Number, SetByte, ByteAt, HasBit, SetBit, ClearBit;
    var x := ByteAt(table, Number(p));
    if Number(p) == Number(q) {
      ByteBits(x, p, q);
    }
    SetByteAt(table, Number(p), SetBit(x, p), Number(q));
    SetByteAt(table, Number(p), ClearBit(x, p), Number(q));
  }

  lemma MarkGroup(table: Table, group: bv32, p: bv8)
    requires |table| == 32 && GroupOk(group, table)
    ensures GroupOk(SetGroup(group, Number(p)), Mark(table, p))
  {
    hide Number, SetByte, ByteAt, HasBit, SetBit, ClearBit, IsZero, HasByte, SetGroup;
    var x := ByteAt(table, Number(p));
    ZeroBits(x, p);
    forall n: bv8 | n < 32 ensures HasByte(SetGroup(group, Number(p)), n) <==> !IsZero(ByteAt(Mark(table, p), n)) {
      WordBits(group, Number(p), n);
      SetByteAt(table, Number(p), SetBit(x, p), n);
    }
  }

  /** The word after the bit of `p` was cleared. */
  function UnmarkedGroup(table: Table, group: bv32, p: bv8): bv32
    requires |table| == 32
  {
    if IsZero(ByteAt(Unmark(table, p), Number(p))) then ClearGroup(group, Number(p)) else group
  }

  lemma UnmarkGroup(table: Table, group: bv32, p: bv8)
    requires |table| == 32 && GroupOk(group, table)
    ensures GroupOk(UnmarkedGroup(table, group, p), Unmark(table, p))
  {
    hide Number, SetByte, ByteAt, HasBit, SetBit, ClearBit, IsZero, HasByte, ClearGroup;
    var x := ByteAt(table, Number(p));
    ZeroBits(x, p);
    var g := UnmarkedGroup(table, group, p);
    SetByteAt(table, Number(p), ClearBit(x, p), Number(p));
    forall n: bv8 | n < 32 ensures HasByte(g, n) <==> !IsZero(ByteAt(Unmark(table, p), n)) {
      WordBits(group, Number(p), n);
      SetByteAt(table, Number(p), ClearBit(x, p), n);
    }
  }

  // ------------------------------------------------------------------------------------------
  // Finding the first bit
  // ------------------------------------------------------------------------------------------

  /** The entries of __lowest_bit_bitmap. */
  function LowestBit(b: bv8): bv8 {
    if b & 1 != 0 then 0
    else if b & 2 != 0 then 1
    else if b & 4 != 0 then 2
    else if b & 8 != 0 then 3
    else if b & 16 != 0 then 4
    else if b & 32 != 0 then 5
    else if b & 64 != 0 then 6
    else if b & 128 != 0 then 7
    else 0
  }

  /** __rt_ffs. */
  function Ffs(v: bv32): bv8 {
    if v == 0 then 0
    else if v & 0xff != 0 then LowestBit((v & 0xff) as bv8) + 1
    else if v & 0xff00 != 0 then LowestBit(((v & 0xff00) >> 8) as bv8) + 9
    else if v & 0xff0000 != 0 then LowestBit(((v & 0xff0000) >> 16) as bv8) + 17
    else LowestBit(((v & 0xff000000) >> 24) as bv8) + 25
  }

  /** The number of the first nonzero byte. */
  function FirstByte(group: bv32): (n: bv8)
    requires group != 0
    ensures n < 32 && HasByte(group, n)
  {
    Ffs(group) - 1
  }

  /** The place of the first bit of a byte. */
  function FirstBit(x: bv8): (l: bv8)
    requires !IsZero(x)
    ensures l < 8 && HasBit(x, l)
  {
    Ffs(x as bv32) - 1
  }

  lemma FirstByteIsFirst(group: bv32, j: bv8)
    requires group != 0 && j < 32 && HasByte(group, j)
    ensures FirstByte(group) <= j
  {}

  lemma FirstBitIsFirst(x: bv8, p: bv8)
    requires HasBit(x, p)
    ensures !IsZero(x) && FirstBit(x) <= p & 7
  {}

  /** The priority of bit `l` of byte `n`. */
  function Compose(n: bv8, l: bv8): bv8 {
    (n << 3) + l
  }

  lemma ComposeIs(x: bv8, n: bv8, l: bv8)
    requires n < 32 && l < 8
    ensures Number(Compose(n, l)) == n && HasBit(x, Compose(n, l)) == HasBit(x, l)
  {}

  lemma ComposeInOrder(n: bv8, l: bv8, p: bv8)
    requires n < 32 && l < 8 && (n < Number(p) || (n == Number(p) && l <= p & 7))
    ensures Compose(n, l) <= p
  {}

  /** The priority _scheduler_get_highest_priority_thread computes. */
  function Highest(table: Table, group: bv32): bv8
    requires |table| == 32 && GroupOk(group, table) && group != 0
  {
    var number := FirstByte(group);
    Compose(number, FirstBit(ByteAt(table, number)))
  }

  /** It is the least of the marked priorities, that is, the most urgent one. */
  lemma HighestIsLeast(table: Table, group: bv32, p: bv8)
    requires |table| == 32 && GroupOk(group, table) && group != 0
    ensures Marked(table, Highest(table, group))
    ensures Marked(table, p) ==> Highest(table, group) <= p
  {
    hide FirstByte, FirstBit, Compose, Number, ByteAt, HasBit, HasByte, IsZero;
    var n := FirstByte(group);
    var x := ByteAt(table, n);
    var l := FirstBit(x);
    ComposeIs(x, n, l);
    if Marked(table, p) {
      ZeroBits(ByteAt(table, Number(p)), p);
      FirstByteIsFirst(group, Number(p));
      if n == Number(p) {
        FirstBitIsFirst(x, p);
      }
      ComposeInOrder(n, l, p);
    }
  }

  /** The word is zero exactly if no priority is marked. */
  lemma GroupIsEmpty(table: Table, group: bv32)
    requires |table| == 32 && GroupOk(group, table)
    ensures group == 0 <==> forall p: bv8 :: !Marked(table, p)
  {
    if group == 0 {
      hide Number, ByteAt, HasBit;
      forall p: bv8 ensures !Marked(table, p) {
        assert !HasByte(group, Number(p));
        ZeroBits(ByteAt(table, Number(p)), p);
      }
    } else {
      HighestIsLeast(table, group, 0);
    }
  }
}
