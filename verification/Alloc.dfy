/**
 * The over-aligning allocator (`src/common/alloc.rs`): a larger malloc block, a pointer rounded
 * up inside it, and the raw pointer hidden in the word below.
 */
module Alloc {
  import opened Values
  import opened BucketGrid

  /** What malloc guarantees, and the size of a pointer. */
  const MALLOC_ALIGN := 16
  const WORD := 8
  const ADDRESS_SPACE: int := 0x8000_0000_0000_0000

  // -- powers of two --------------------------------------------------------------------------

  function Pow2(k: nat): (p: nat)
    ensures p > 0
  {
    if k == 0 then 1 else 2 * Pow2(k - 1)
  }

  predicate IsAlignment(align: int) { exists k: nat :: k < 64 && align == Pow2(k) }

  lemma {:induction false} LargePowers(k: nat)
    requires k >= 4
    ensures Pow2(k) % 16 == 0
  {
    if k == 4 {
      assert Pow2(4) == 2 * Pow2(3) && Pow2(3) == 2 * Pow2(2) && Pow2(2) == 2 * Pow2(1) && Pow2(1) == 2 * Pow2(0);
    } else {
      LargePowers(k - 1);
      TwiceMod16(Pow2(k - 1));
    }
  }

  lemma TwiceMod16(x: int)
    requires x % 16 == 0
    ensures 2 * x % 16 == 0
  {
    assert x == 16 * (x / 16);
  }

  lemma SmallPowers(k: nat)
    requires k <= 4
    ensures 16 % Pow2(k) == 0
  {
    assert Pow2(4) == 2 * Pow2(3) && Pow2(3) == 2 * Pow2(2) && Pow2(2) == 2 * Pow2(1) && Pow2(1) == 2 * Pow2(0);
    assert k == 0 || k == 1 || k == 2 || k == 3 || k == 4;
  }

  /** `x & !m`, bit by bit. */
  function AndNot(x: nat, m: nat): nat {
    if x == 0 then 0
    else 2 * AndNot(x / 2, m / 2) + (if m % 2 == 0 then x % 2 else 0)
  }

  lemma {:induction false} AndNotNothing(x: nat)
    ensures AndNot(x, 0) == x
  {
    if x > 0 { AndNotNothing(x / 2); }
  }

  lemma AndNotOdd(x: nat, q: nat)
    ensures AndNot(x, 2 * q + 1) == 2 * AndNot(x / 2, q)
  {
    assert (2 * q + 1) / 2 == q;
  }

  /** Masking with a power of two less one rounds down to a multiple of that power. */
  lemma {:induction false} MaskRoundsDown(x: nat, k: nat)
    ensures AndNot(x, Pow2(k) - 1) == x - x % Pow2(k)
  {
    hide AndNot;
    if k == 0 {
      AndNotNothing(x);
    } else {
      var p := Pow2(k - 1);
      AndNotOdd(x, p - 1);
      MaskRoundsDown(x / 2, k - 1);
      HalvedRemainder(x, p);
      TwiceLess(x, p);
    }
  }

  lemma TwiceLess(x: nat, p: nat)
    requires p > 0 && x % (2 * p) == 2 * (x / 2 % p) + x % 2
    ensures 2 * (x / 2 - x / 2 % p) == x - x % (2 * p)
  {
  }

  lemma HalvedRemainder(x: nat, p: nat)
    requires p > 0
    ensures x % (2 * p) == 2 * (x / 2 % p) + x % 2
  {
    var h := x / 2;
    var q, r := h / p, h % p;
    assert h == q * p + r;
    assert q * (2 * p) == 2 * (q * p);
    Remainder(x, 2 * p, q, 2 * r + x % 2);
  }

  // -- the hidden word ----------------------------------------------------------------------

  function Pow256(n: nat): nat { if n == 0 then 1 else 256 * Pow256(n - 1) }

  function Encode(n: nat, v: nat): (bytes: seq<int>)
    ensures |bytes| == n
  {
    if n == 0 then [] else [v % 256] + Encode(n - 1, v / 256)
  }

  function Decode(bytes: seq<int>): int {
    if bytes == [] then 0 else bytes[0] + 256 * Decode(bytes[1..])
  }

  lemma {:induction false} WordRoundTrip(n: nat, v: nat)
    requires v < Pow256(n)
    ensures Decode(Encode(n, v)) == v
  {
    if n > 0 { WordRoundTrip(n - 1, v / 256); }
  }

  lemma AddressesFit()
    ensures ADDRESS_SPACE < Pow256(WORD)
  {
    assert Pow256(1) == 256 && Pow256(2) == 256 * Pow256(1) && Pow256(3) == 256 * Pow256(2);
    assert Pow256(4) == 256 * Pow256(3) && Pow256(5) == 256 * Pow256(4) && Pow256(6) == 256 * Pow256(5);
    assert Pow256(7) == 256 * Pow256(6) && Pow256(8) == 256 * Pow256(7);
  }

  // -- pointer arithmetic ---------------------------------------------------------------------

  /** `(x + align - 1) & !(align - 1)` */
  function RoundUp(x: nat, align: int): nat
    requires align > 0
  {
    AndNot(x + align - 1, align - 1)
  }

  /** For an alignment the mask gives the next multiple. */
  lemma RoundsUp(x: nat, align: int)
    requires IsAlignment(align) && align > 0
    ensures var y := x + align - 1; RoundUp(x, align) == y - y % align
  {
    var k: nat :| k < 64 && align == Pow2(k);
    MaskRoundsDown(x + align - 1, k);
  }

  lemma MultipleOf(y: int, align: int)
    requires align > 0
    ensures (y - y % align) % align == 0
    ensures align % 16 == 0 ==> (y - y % align) % 16 == 0
  {
    var k := y / align;
    assert y == k * align + y % align;
    assert y - y % align == k * align;
    Remainder(k * align, align, k, 0);
    if align % 16 == 0 {
      var j := align / 16;
      assert align == 16 * j;
      assert k * align == 16 * (k * j);
    }
  }

  lemma Apart16(a: int, b: int)
    requires a % 16 == 0 && b % 16 == 0
    ensures a > b ==> a >= b + 16
  {
    assert a == 16 * (a / 16) && b == 16 * (b / 16);
  }

  /** The rounded pointer leaves a word below it and `size` bytes above it inside the block. */
  lemma Placement(raw: nat, align: int)
    requires raw % MALLOC_ALIGN == 0 && IsAlignment(align) && align > MALLOC_ALIGN
    ensures var ptr := RoundUp(raw + WORD, align);
            && ptr % align == 0
            && raw + WORD <= ptr - WORD
            && ptr <= raw + align
  {
    hide IsAlignment, RoundUp;
    var y := raw + WORD + align - 1;
    var ptr := RoundUp(raw + WORD, align);
    RoundsUp(raw + WORD, align);
    AlignmentCases(align);
    MultipleOf(y, align);
    Bounds(y, align);
    Apart16(ptr, raw);
    SumMod16(raw, align);
    Apart16(ptr, raw + align);
  }

  lemma Bounds(y: int, align: int)
    requires align > 0
    ensures y - align < y - y % align <= y
  {
  }

  lemma SumMod16(a: int, b: int)
    requires a % 16 == 0 && b % 16 == 0
    ensures (a + b) % 16 == 0
  {
    assert a == 16 * (a / 16) && b == 16 * (b / 16);
  }

  // -- memory -----------------------------------------------------------------------------------

  type Memory = map<int, int>

  ghost predicate Mapped(memory: Memory, at: int, n: int) {
    forall a :: at <= a < at + n ==> a in memory
  }

  /** `memory` with `bytes` stored from `at` on. */
  function Store(memory: Memory, at: int, bytes: seq<int>): (r: Memory)
    ensures forall a :: a in r <==> a in memory || at <= a < at + |bytes|
    ensures forall a :: a in memory && !(at <= a < at + |bytes|) ==> r[a] == memory[a]
    ensures forall i :: 0 <= i < |bytes| ==> r[at + i] == bytes[i]
    decreases |bytes|
  {
    if bytes == [] then memory else
      var r := Store(memory[at := bytes[0]], at + 1, bytes[1..]);
      assert forall i :: 0 <= i < |bytes| - 1 ==> r[at + 1 + i] == bytes[1..][i];
      assert forall i :: 0 < i < |bytes| ==> bytes[i] == bytes[1..][i - 1];
      r
  }

  function Load(memory: Memory, at: int, n: nat): (bytes: seq<int>)
    requires Mapped(memory, at, n)
    ensures |bytes| == n
  {
    seq(n, i requires 0 <= i < n && at + i in memory => memory[at + i])
  }

  /** The address hidden at `at`. */
  function Hidden(memory: Memory, at: int): int
    requires Mapped(memory, at, WORD)
  {
    Decode(Load(memory, at, WORD))
  }

  lemma HiddenAfterStore(memory: Memory, at: int, v: nat)
    requires v < ADDRESS_SPACE
    ensures Mapped(Store(memory, at, Encode(WORD, v)), at, WORD)
    ensures Hidden(Store(memory, at, Encode(WORD, v)), at) == v
  {
    hide Encode, Decode;
    var memory' := Store(memory, at, Encode(WORD, v));
    assert Load(memory', at, WORD) == Encode(WORD, v);
    AddressesFit();
    WordRoundTrip(WORD, v);
  }

  lemma HiddenElsewhere(memory: Memory, memory': Memory, at: int)
    requires Mapped(memory, at, WORD) && Mapped(memory', at, WORD)
    requires forall a :: at <= a < at + WORD ==> memory[a] == memory'[a]
    ensures Hidden(memory', at) == Hidden(memory, at)
  {
    hide Decode;
    assert Load(memory', at, WORD) == Load(memory, at, WORD);
  }

  // -- the allocator ------------------------------------------------------------------------------

  datatype Layout = Layout(size: nat, align: int) {
    /** What `std::alloc::Layout` guarantees, and `GlobalAlloc` asks of its callers. */
    predicate Valid() { IsAlignment(align) && 0 < size && size + align <= ADDRESS_SPACE }

    predicate OverAligned() { align > MALLOC_ALIGN }

    /** Bytes asked of malloc: `padded_layout`, or the layout itself. */
    function MallocSize(): nat
      requires align > 0
    {
      if OverAligned() then size + align else size
    }
  }

  /** What malloc returned: an address and whatever the memory held. */
  datatype Answer = Answer(raw: nat, contents: seq<int>)

  /** A live user block: its layout, and the malloc block around it. */
  datatype Block = Block(layout: Layout, raw: int)

  predicate Disjoint(a: int, n: int, b: int, k: int) { a + n <= b || b + k <= a }

  /** Malloc's own promise: aligned blocks that do not overlap. */
  ghost predicate MallocValid(memory: Memory, raws: map<int, nat>) {
    && (forall r :: r in raws ==>
          r % MALLOC_ALIGN == 0 && 0 < r && r + raws[r] <= ADDRESS_SPACE && Mapped(memory, r, raws[r]))
    && forall r, s :: r in raws && s in raws && r != s ==> Disjoint(r, raws[r], s, raws[s])
  }

  /** Where a user block lies in its malloc block, and what is hidden below it. */
  ghost predicate Placed(memory: Memory, raws: map<int, nat>, p: int, b: Block) {
    && b.layout.Valid()
    && b.raw in raws && raws[b.raw] == b.layout.MallocSize()
    && p % b.layout.align == 0
    && if b.layout.OverAligned() then
         && b.raw + WORD <= p - WORD && p + b.layout.size <= b.raw + raws[b.raw]
         && Mapped(memory, p - WORD, WORD) && Hidden(memory, p - WORD) == b.raw
       else p == b.raw
  }

  ghost predicate Paired(raws: map<int, nat>, live: map<int, Block>, owner: map<int, int>) {
    && (forall r :: r in owner <==> r in raws)
    && (forall r :: r in owner ==> owner[r] in live && live[owner[r]].raw == r)
    && forall p :: p in live ==> live[p].raw in owner && owner[live[p].raw] == p
  }

  /** The bytes a user block's owner may touch, and the hidden word below it, stay clear of other blocks. */
  lemma Separation(memory: Memory, raws: map<int, nat>, live: map<int, Block>, owner: map<int, int>, p: int, q: int)
    requires MallocValid(memory, raws) && Paired(raws, live, owner)
    requires forall x :: x in live ==> Placed(memory, raws, x, live[x])
    requires p in live && q in live
    ensures p != q ==> Disjoint(p, live[p].layout.size, q, live[q].layout.size)
    ensures live[q].layout.OverAligned() ==> Disjoint(p, live[p].layout.size, q - WORD, WORD)
  {
    hide IsAlignment, Mapped, Hidden;
    assert Placed(memory, raws, p, live[p]) && Placed(memory, raws, q, live[q]);
  }

  /** Memory that agrees on a malloc block, its bytes mapped. */
  ghost predicate Same(memory: Memory, memory': Memory, at: int, n: int) {
    forall a :: at <= a < at + n ==> a in memory && a in memory' && memory'[a] == memory[a]
  }

  /** A block stays placed as long as its malloc block is live and its hidden word is not touched. */
  lemma StaysPlaced(memory: Memory, raws: map<int, nat>, memory': Memory, raws': map<int, nat>, p: int, b: Block)
    requires Placed(memory, raws, p, b)
    requires b.raw in raws' && raws'[b.raw] == raws[b.raw]
    requires b.layout.OverAligned() ==> Same(memory, memory', p - WORD, WORD)
    ensures Placed(memory', raws', p, b)
  {
    hide IsAlignment, Hidden;
    if b.layout.OverAligned() { HiddenElsewhere(memory, memory', p - WORD); }
  }

  /** Malloc hands out `raw`, and the over-aligned caller hides it below the rounded pointer. */
  function Filled(memory: Memory, layout: Layout, answer: Answer): Memory
    requires layout.align > 0
  {
    var memory' := Store(memory, answer.raw, answer.contents);
    if layout.OverAligned()
    then Store(memory', PointerFor(layout, answer.raw) - WORD, Encode(WORD, answer.raw)) else memory'
  }

  function PointerFor(layout: Layout, raw: nat): nat
    requires layout.align > 0
  {
    if layout.OverAligned() then RoundUp(raw + WORD, layout.align) else raw
  }

  lemma AlignmentCases(align: int)
    requires IsAlignment(align)
    ensures align > 0
    ensures align > MALLOC_ALIGN ==> align % MALLOC_ALIGN == 0
    ensures align <= MALLOC_ALIGN ==> MALLOC_ALIGN % align == 0
  {
    var k: nat :| k < 64 && align == Pow2(k);
    if k >= 4 { LargePowers(k); } else { SmallPowers(k); }
    PowersBySize(k);
  }

  lemma PowersBySize(k: nat)
    ensures k <= 4 ==> Pow2(k) <= 16
    ensures k == 4 ==> Pow2(k) == 16
  {
    assert Pow2(4) == 2 * Pow2(3) && Pow2(3) == 2 * Pow2(2) && Pow2(2) == 2 * Pow2(1) && Pow2(1) == 2 * Pow2(0);
  }

  lemma DividesThrough(x: int, align: int)
    requires align > 0 && x % MALLOC_ALIGN == 0 && MALLOC_ALIGN % align == 0
    ensures x % align == 0
  {
    var i, j := x / 16, 16 / align;
    assert x == 16 * i && 16 == j * align;
    assert x == (i * j) * align;
    Remainder(x, align, i * j, 0);
  }

  ghost predicate Offered(memory: Memory, raws: map<int, nat>, layout: Layout, answer: Answer)
    requires layout.align > 0
  {
    && answer.raw % MALLOC_ALIGN == 0 && 0 < answer.raw
    && |answer.contents| == layout.MallocSize()
    && answer.raw + layout.MallocSize() <= ADDRESS_SPACE
    && answer.raw !in raws
    && forall r :: r in raws ==> Disjoint(r, raws[r], answer.raw, layout.MallocSize())
  }

  /** The new block is placed, and nothing outside it changed. */
  lemma NewlyPlaced(memory: Memory, raws: map<int, nat>, layout: Layout, answer: Answer)
    requires layout.Valid() && layout.align > 0 && Offered(memory, raws, layout, answer)
    ensures var memory', raws' := Filled(memory, layout, answer), raws[answer.raw := layout.MallocSize()];
            && Placed(memory', raws', PointerFor(layout, answer.raw), Block(layout, answer.raw))
            && Mapped(memory', answer.raw, layout.MallocSize())
            && (forall a :: a in memory ==> a in memory')
            && forall a :: a in memory && !(answer.raw <= a < answer.raw + layout.MallocSize()) ==> memory'[a] == memory[a]
  {
    hide IsAlignment, Store, Hidden, Encode, RoundUp, Disjoint;
    AlignmentCases(layout.align);
    var raw, ptr := answer.raw, PointerFor(layout, answer.raw);
    if layout.OverAligned() {
      Placement(raw, layout.align);
      HiddenAfterStore(Store(memory, raw, answer.contents), ptr - WORD, raw);
    } else {
      DividesThrough(raw, layout.align);
    }
  }

  ghost predicate AllPlaced(memory: Memory, raws: map<int, nat>, live: map<int, Block>) {
    forall p :: p in live ==> Placed(memory, raws, p, live[p])
  }

  /** A user block lies wholly inside its malloc block, hidden word included. */
  lemma Inside(memory: Memory, raws: map<int, nat>, p: int, b: Block)
    requires Placed(memory, raws, p, b)
    ensures b.raw in raws && b.raw <= p && p + b.layout.size <= b.raw + raws[b.raw]
    ensures b.layout.OverAligned() ==> b.raw <= p - WORD
  {
    hide IsAlignment, Hidden, Mapped;
  }

  /** Changes confined to one malloc block leave every other block as it was. */
  lemma OthersStay(memory: Memory, raws: map<int, nat>, live: map<int, Block>, owner: map<int, int>,
                   memory': Memory, raws': map<int, nat>, raw: int, n: nat)
    requires MallocValid(memory, raws) && Paired(raws, live, owner) && AllPlaced(memory, raws, live)
    requires forall r :: r in raws && r != raw ==>
               Disjoint(r, raws[r], raw, n) && r in raws' && raws'[r] == raws[r]
    requires forall a :: a in memory && !(raw <= a < raw + n) ==> a in memory' && memory'[a] == memory[a]
    ensures forall p :: p in live && live[p].raw != raw ==>
              && Placed(memory', raws', p, live[p])
              && Same(memory, memory', p, live[p].layout.size)
  {
    hide IsAlignment, Hidden, Placed;
    forall p | p in live && live[p].raw != raw
      ensures Placed(memory', raws', p, live[p]) && Same(memory, memory', p, live[p].layout.size)
    {
      var b := live[p];
      assert Placed(memory, raws, p, b);
      Inside(memory, raws, p, b);
      assert Mapped(memory, b.raw, raws[b.raw]);
      StaysPlaced(memory, raws, memory', raws', p, b);
    }
  }

  lemma PointerPositive(memory: Memory, raws: map<int, nat>, p: int, b: Block, raw: int)
    requires Placed(memory, raws, p, b) && b.raw == raw > 0
    ensures p > 0 && p % b.layout.align == 0
  {
    hide IsAlignment, Hidden, Mapped;
  }

  lemma PointerInside(layout: Layout, raw: nat)
    requires layout.Valid() && layout.align > 0 && raw % MALLOC_ALIGN == 0
    ensures raw <= PointerFor(layout, raw)
    ensures PointerFor(layout, raw) + layout.size <= raw + layout.MallocSize()
  {
    hide IsAlignment, RoundUp;
    AlignmentCases(layout.align);
    if layout.OverAligned() { Placement(raw, layout.align); }
  }

  /** Two live blocks never share a pointer. */
  lemma FreshPointer(memory: Memory, raws: map<int, nat>, live: map<int, Block>, layout: Layout, answer: Answer)
    requires AllPlaced(memory, raws, live)
    requires layout.Valid() && layout.align > 0 && Offered(memory, raws, layout, answer)
    ensures PointerFor(layout, answer.raw) !in live
  {
    hide IsAlignment, PointerFor, Hidden;
    PointerInside(layout, answer.raw);
    forall p | p in live
      ensures p != PointerFor(layout, answer.raw)
    {
      Inside(memory, raws, p, live[p]);
    }
  }

  lemma MallocGrown(memory: Memory, raws: map<int, nat>, memory': Memory, raw: int, n: nat)
    requires MallocValid(memory, raws) && raw !in raws
    requires raw % MALLOC_ALIGN == 0 && 0 < raw && raw + n <= ADDRESS_SPACE && Mapped(memory', raw, n)
    requires forall r :: r in raws ==> Disjoint(r, raws[r], raw, n)
    requires forall a :: a in memory ==> a in memory'
    ensures MallocValid(memory', raws[raw := n])
  {
  }

  lemma PairedGrown(raws: map<int, nat>, live: map<int, Block>, owner: map<int, int>, raw: int, n: nat, ptr: int, b: Block)
    requires Paired(raws, live, owner) && raw !in raws && ptr !in live && b.raw == raw
    ensures Paired(raws[raw := n], live[ptr := b], owner[raw := ptr])
  {
  }

  /** Malloc keeps its promise, every malloc block has its one user block, every user block is in place. */
  ghost predicate Consistent(memory: Memory, raws: map<int, nat>, live: map<int, Block>, owner: map<int, int>) {
    MallocValid(memory, raws) && Paired(raws, live, owner) && AllPlaced(memory, raws, live)
  }

  lemma AllocStep(memory: Memory, raws: map<int, nat>, live: map<int, Block>, owner: map<int, int>,
                  layout: Layout, answer: Answer)
    requires Consistent(memory, raws, live, owner)
    requires layout.Valid() && layout.align > 0 && Offered(memory, raws, layout, answer)
    ensures var memory', ptr := Filled(memory, layout, answer), PointerFor(layout, answer.raw);
            && ptr > 0 && ptr % layout.align == 0 && ptr !in live
            && Consistent(memory', raws[answer.raw := layout.MallocSize()], live[ptr := Block(layout, answer.raw)],
                          owner[answer.raw := ptr])
            && forall p :: p in live ==> Same(memory, memory', p, live[p].layout.size)
  {
    hide IsAlignment, Placed, RoundUp, Encode, Filled, PointerFor, Disjoint, Mapped, Same, MallocValid, Paired;
    var raw, n := answer.raw, layout.MallocSize();
    var memory', ptr := Filled(memory, layout, answer), PointerFor(layout, answer.raw);
    NewlyPlaced(memory, raws, layout, answer);
    FreshPointer(memory, raws, live, layout, answer);
    OthersStay(memory, raws, live, owner, memory', raws[raw := n], raw, n);
    PointerPositive(memory', raws[raw := n], ptr, Block(layout, raw), raw);
    MallocGrown(memory, raws, memory', raw, n);
    PairedGrown(raws, live, owner, raw, n, ptr, Block(layout, raw));
    RawsKnown(memory, raws, live);
  }

  lemma RawsKnown(memory: Memory, raws: map<int, nat>, live: map<int, Block>)
    requires AllPlaced(memory, raws, live)
    ensures forall p :: p in live ==> live[p].raw in raws
  {
    hide IsAlignment, Hidden, Mapped;
  }

  ghost predicate Own(live: map<int, Block>, p: int, at: int, n: int) {
    p in live && p <= at && 0 <= n && at + n <= p + live[p].layout.size
  }

  /** A write inside a live user block reaches no hidden word and no other block. */
  lemma WriteStep(memory: Memory, raws: map<int, nat>, live: map<int, Block>, owner: map<int, int>,
                  p: int, at: int, bytes: seq<int>)
    requires Consistent(memory, raws, live, owner) && Own(live, p, at, |bytes|)
    ensures Consistent(Store(memory, at, bytes), raws, live, owner)
    ensures forall q :: q in live && q != p ==> Same(memory, Store(memory, at, bytes), q, live[q].layout.size)
  {
    hide IsAlignment, Placed, Store, Hidden;
    var memory', raw := Store(memory, at, bytes), live[p].raw;
    Inside(memory, raws, p, live[p]);
    OthersStay(memory, raws, live, owner, memory', raws, raw, raws[raw]);
    BelowMapped(memory, raws, p, live[p]);
    StaysPlaced(memory, raws, memory', raws, p, live[p]);
  }

  lemma BelowMapped(memory: Memory, raws: map<int, nat>, p: int, b: Block)
    requires Placed(memory, raws, p, b)
    ensures b.layout.OverAligned() ==> Mapped(memory, p - WORD, WORD)
  {
  }

  function Unmap(memory: Memory, at: int, n: int): Memory {
    map a | a in memory && !(at <= a < at + n) :: memory[a]
  }

  /** `dealloc`'s way back to the malloc block: the hidden word, or the block's own address. */
  function RawOf(memory: Memory, layout: Layout, p: int): int
    requires layout.OverAligned() ==> Mapped(memory, p - WORD, WORD)
  {
    if layout.OverAligned() then Hidden(memory, p - WORD) else p
  }

  lemma MallocShrunk(memory: Memory, raws: map<int, nat>, raw: int)
    requires MallocValid(memory, raws) && raw in raws
    ensures MallocValid(Unmap(memory, raw, raws[raw]), raws - {raw})
  {
    var memory' := Unmap(memory, raw, raws[raw]);
    forall r | r in raws && r != raw
      ensures Mapped(memory', r, raws[r])
    {
      assert Disjoint(r, raws[r], raw, raws[raw]) && Mapped(memory, r, raws[r]);
    }
  }

  lemma PairedShrunk(raws: map<int, nat>, live: map<int, Block>, owner: map<int, int>, p: int)
    requires Paired(raws, live, owner) && p in live
    ensures Paired(raws - {live[p].raw}, live - {p}, owner - {live[p].raw})
  {
  }

  /** Where `dealloc` looks is where the block came from. */
  lemma RawFound(memory: Memory, raws: map<int, nat>, p: int, b: Block)
    requires Placed(memory, raws, p, b)
    ensures b.layout.align > 0 && (b.layout.OverAligned() ==> Mapped(memory, p - WORD, WORD))
    ensures RawOf(memory, b.layout, p) == b.raw && b.raw in raws && raws[b.raw] == b.layout.MallocSize()
  {
    hide IsAlignment, Hidden, Mapped;
    AlignmentCases(b.layout.align);
  }

  lemma RawsDiffer(raws: map<int, nat>, live: map<int, Block>, owner: map<int, int>, p: int, q: int)
    requires Paired(raws, live, owner) && p in live && q in live && p != q
    ensures live[q].raw != live[p].raw
  {
  }

  lemma OthersPlaced(memory: Memory, raws: map<int, nat>, live: map<int, Block>, owner: map<int, int>, p: int)
    requires Consistent(memory, raws, live, owner) && p in live && live[p].raw in raws
    ensures var raw := live[p].raw;
            var memory' := Unmap(memory, raw, raws[raw]);
            && AllPlaced(memory', raws - {raw}, live - {p})
            && forall q :: q in live && q != p ==> Same(memory, memory', q, live[q].layout.size)
  {
    hide Placed, Same, Paired, MallocValid;
    var raw := live[p].raw;
    ApartFrom(memory, raws, raw);
    OthersStay(memory, raws, live, owner, Unmap(memory, raw, raws[raw]), raws - {raw}, raw, raws[raw]);
    forall q | q in live && q != p { RawsDiffer(raws, live, owner, p, q); }
  }

  lemma ApartFrom(memory: Memory, raws: map<int, nat>, raw: int)
    requires MallocValid(memory, raws) && raw in raws
    ensures forall r :: r in raws && r != raw ==> Disjoint(r, raws[r], raw, raws[raw])
  {
    hide Mapped;
  }

  lemma Unmapped(memory: Memory, at: int, n: int)
    ensures forall a :: a in Unmap(memory, at, n) <==> a in memory && !(at <= a < at + n)
  {
  }

  lemma DeallocStep(memory: Memory, raws: map<int, nat>, live: map<int, Block>, owner: map<int, int>, p: int)
    requires Consistent(memory, raws, live, owner) && p in live
    ensures live[p].layout.align > 0
    ensures live[p].layout.OverAligned() ==> Mapped(memory, p - WORD, WORD)
    ensures var raw, n := RawOf(memory, live[p].layout, p), live[p].layout.MallocSize();
            && raw == live[p].raw && raw in raws && raws[raw] == n
            && Consistent(Unmap(memory, raw, n), raws - {raw}, live - {p}, owner - {raw})
            && (forall q :: q in live && q != p ==> Same(memory, Unmap(memory, raw, n), q, live[q].layout.size))
            && forall a :: a in Unmap(memory, raw, n) <==> a in memory && !(raw <= a < raw + n)
  {
    Unmapped(memory, live[p].raw, live[p].layout.MallocSize());
    hide Placed, Mapped, MallocValid, Paired, Same, Unmap, Hidden;
    RawFound(memory, raws, p, live[p]);
    MallocShrunk(memory, raws, live[p].raw);
    PairedShrunk(raws, live, owner, p);
    OthersPlaced(memory, raws, live, owner, p);
  }

  lemma ZerosStored(memory: Memory, at: int, zeros: seq<int>)
    requires forall i :: 0 <= i < |zeros| ==> zeros[i] == 0
    ensures forall a :: at <= a < at + |zeros| ==> a in Store(memory, at, zeros) && Store(memory, at, zeros)[a] == 0
  {
    hide Store;
    var memory' := Store(memory, at, zeros);
    forall a | at <= a < at + |zeros|
      ensures a in memory' && memory'[a] == 0
    {
      assert memory'[at + (a - at)] == zeros[a - at];
    }
  }

  class AlignedAlloc {
    var memory: Memory
    /** Malloc's live blocks, the user's live blocks, and which belongs to which. */
    ghost var raws: map<int, nat>
    ghost var live: map<int, Block>
    ghost var owner: map<int, int>

    constructor ()
      ensures Valid() && live == map[]
    {
      memory, raws, live, owner := map[], map[], map[], map[];
    }

    ghost predicate Valid()
      reads this
    {
      Consistent(memory, raws, live, owner)
    }

    /** A fresh, aligned block, or null; every other block keeps its bytes. */
    method Alloc(layout: Layout, answer: Option<Answer>) returns (ptr: int)
      requires Valid() && layout.Valid() && layout.align > 0
      requires answer.Some? ==> Offered(memory, raws, layout, answer.value)
      modifies this
      ensures Valid()
      ensures answer.None? ==> ptr == 0 && live == old(live) && memory == old(memory)
      ensures answer.Some? ==>
                && ptr > 0 && ptr % layout.align == 0 && ptr !in old(live)
                && live == old(live)[ptr := Block(layout, answer.value.raw)]
                && (!layout.OverAligned() ==> memory == Store(old(memory), ptr, answer.value.contents))
                && forall p :: p in old(live) ==> Same(old(memory), memory, p, old(live)[p].layout.size)
    {
      hide Consistent, Offered, Same, IsAlignment, Store, RoundUp;
      if answer.None? { return 0; }
      var raw := answer.value.raw;
      AllocStep(memory, raws, live, owner, layout, answer.value);
      ptr := PointerFor(layout, raw);
      memory := Filled(memory, layout, answer.value);
      raws, live, owner := raws[raw := layout.MallocSize()], live[ptr := Block(layout, raw)], owner[raw := ptr];
    }

    /** The same, the block zeroed; small alignments get zeroed memory from below. */
    method AllocZeroed(layout: Layout, answer: Option<Answer>) returns (ptr: int)
      requires Valid() && layout.Valid() && layout.align > 0
      requires answer.Some? ==> Offered(memory, raws, layout, answer.value)
      requires answer.Some? && !layout.OverAligned() ==> answer.value.contents == seq(layout.size, i => 0)
      modifies this
      ensures Valid()
      ensures answer.None? ==> ptr == 0 && live == old(live) && memory == old(memory)
      ensures answer.Some? ==>
                && ptr > 0 && ptr % layout.align == 0 && ptr !in old(live)
                && live == old(live)[ptr := Block(layout, answer.value.raw)]
                && (forall a :: ptr <= a < ptr + layout.size ==> a in memory && memory[a] == 0)
                && forall p :: p in old(live) ==> Same(old(memory), memory, p, old(live)[p].layout.size)
    {
      hide Consistent, Offered, IsAlignment, Store;
      ghost var before := memory;
      var zeros := seq(layout.size, i => 0);
      ptr := Alloc(layout, answer);
      if ptr != 0 {
        if layout.OverAligned() {
          ghost var between := memory;
          Write(ptr, ptr, zeros);
          ZerosStored(between, ptr, zeros);
          forall p | p in old(live)
            ensures Same(before, memory, p, old(live)[p].layout.size)
          {
            assert Same(between, memory, p, live[p].layout.size);
          }
        } else {
          ZerosStored(before, ptr, zeros);
        }
      }
    }

    /** The owner of a block writes inside it. */
    method Write(ghost p: int, at: int, bytes: seq<int>)
      requires Valid() && Own(live, p, at, |bytes|)
      modifies `memory
      ensures Valid()
      ensures memory == Store(old(memory), at, bytes)
      ensures forall q :: q in live && q != p ==> Same(old(memory), memory, q, live[q].layout.size)
    {
      hide Consistent, Same, Own;
      WriteStep(memory, raws, live, owner, p, at, bytes);
      memory := Store(memory, at, bytes);
    }

    /** Gives back to malloc exactly the block it handed out, with the size it was asked for. */
    method Dealloc(ptr: int, layout: Layout) returns (raw: int)
      requires Valid() && ptr in live && live[ptr].layout == layout
      modifies this
      ensures Valid()
      ensures raw == old(live)[ptr].raw && raw in old(raws) && old(raws)[raw] == layout.MallocSize()
      ensures live == old(live) - {ptr} && raws == old(raws) - {raw}
      ensures forall p :: p in live ==> Same(old(memory), memory, p, live[p].layout.size)
      ensures forall a :: a in memory <==> a in old(memory) && !(raw <= a < raw + layout.MallocSize())
    {
      hide Consistent, Same;
      DeallocStep(memory, raws, live, owner, ptr);
      raw := RawOf(memory, layout, ptr);
      memory := Unmap(memory, raw, layout.MallocSize());
      raws, live, owner := raws - {raw}, live - {ptr}, owner - {raw};
    }
  }

  // -- whole runs -----------------------------------------------------------------------------------

  datatype Heap = Heap(memory: Memory, raws: map<int, nat>, live: map<int, Block>, owner: map<int, int>)

  datatype Event =
    | Allocated(layout: Layout, answer: Answer)
    | Wrote(p: int, at: int, bytes: seq<int>)
    | Freed(p: int)

  /** The obligations of malloc, of a writer, and of whoever frees. */
  ghost predicate Allowed(h: Heap, e: Event) {
    match e
    case Allocated(layout, answer) => layout.Valid() && layout.align > 0 && Offered(h.memory, h.raws, layout, answer)
    case Wrote(p, at, bytes) => Own(h.live, p, at, |bytes|)
    case Freed(p) => p in h.live
  }

  ghost function After(h: Heap, e: Event): Heap
    requires Allowed(h, e) && Consistent(h.memory, h.raws, h.live, h.owner)
  {
    match e
    case Allocated(layout, answer) =>
      var ptr := PointerFor(layout, answer.raw);
      Heap(Filled(h.memory, layout, answer), h.raws[answer.raw := layout.MallocSize()],
           h.live[ptr := Block(layout, answer.raw)], h.owner[answer.raw := ptr])
    case Wrote(p, at, bytes) => Heap(Store(h.memory, at, bytes), h.raws, h.live, h.owner)
    case Freed(p) =>
      DeallocStep(h.memory, h.raws, h.live, h.owner, p);
      var raw := RawOf(h.memory, h.live[p].layout, p);
      Heap(Unmap(h.memory, raw, h.live[p].layout.MallocSize()), h.raws - {raw}, h.live - {p}, h.owner - {raw})
  }

  ghost predicate Next(h: Heap, e: Event, h': Heap) {
    Consistent(h.memory, h.raws, h.live, h.owner) ==> Allowed(h, e) && h' == After(h, e)
  }

  /** The heaps a sequence of events leads through, each event allowed where it happens. */
  ghost predicate Leads(run: seq<Heap>, events: seq<Event>) {
    && |run| == |events| + 1
    && run[0] == Heap(map[], map[], map[], map[])
    && forall j :: 0 < j < |run| ==> Next(run[j - 1], events[j - 1], run[j])
  }

  /** At every moment of every run all blocks are aligned, apart, and find their malloc block again. */
  lemma {:induction false} RunsAreSafe(run: seq<Heap>, events: seq<Event>, k: nat)
    requires Leads(run, events) && k < |run|
    ensures var h := run[k];
            && Consistent(h.memory, h.raws, h.live, h.owner)
            && (forall p :: p in h.live ==>
                  && p % h.live[p].layout.align == 0
                  && (h.live[p].layout.OverAligned() ==>
                        Mapped(h.memory, p - WORD, WORD) && Hidden(h.memory, p - WORD) == h.live[p].raw))
            && forall p, q :: p in h.live && q in h.live ==>
                 && (p != q ==> Disjoint(p, h.live[p].layout.size, q, h.live[q].layout.size))
                 && (h.live[q].layout.OverAligned() ==> Disjoint(p, h.live[p].layout.size, q - WORD, WORD))
  {
    hide Consistent, Allowed, Hidden, Mapped, IsAlignment, Disjoint;
    if k == 0 {
      NothingLive();
    } else {
      RunsAreSafe(run, events, k - 1);
      assert Next(run[k - 1], events[k - 1], run[k]);
      Advances(run[k - 1], events[k - 1]);
    }
    SafeNow(run[k]);
  }

  lemma NothingLive()
    ensures Consistent(map[], map[], map[], map[])
  {
  }

  lemma Advances(h: Heap, e: Event)
    requires Consistent(h.memory, h.raws, h.live, h.owner) && Allowed(h, e)
    ensures var h' := After(h, e); Consistent(h'.memory, h'.raws, h'.live, h'.owner)
  {
    hide Consistent, Offered, Own, Filled, PointerFor, Store, Unmap;
    match e
    case Allocated(layout, answer) => AllocStep(h.memory, h.raws, h.live, h.owner, layout, answer);
    case Wrote(p, at, bytes) => WriteStep(h.memory, h.raws, h.live, h.owner, p, at, bytes);
    case Freed(p) => DeallocStep(h.memory, h.raws, h.live, h.owner, p);
  }

  lemma SafeNow(h: Heap)
    requires Consistent(h.memory, h.raws, h.live, h.owner)
    ensures forall p :: p in h.live ==>
              && h.live[p].layout.align > 0 && p % h.live[p].layout.align == 0
              && (h.live[p].layout.OverAligned() ==>
                    Mapped(h.memory, p - WORD, WORD) && Hidden(h.memory, p - WORD) == h.live[p].raw)
    ensures forall p, q :: p in h.live && q in h.live ==>
              && (p != q ==> Disjoint(p, h.live[p].layout.size, q, h.live[q].layout.size))
              && (h.live[q].layout.OverAligned() ==> Disjoint(p, h.live[p].layout.size, q - WORD, WORD))
  {
    hide Hidden, IsAlignment, Disjoint, Paired, MallocValid;
    forall p | p in h.live
      ensures h.live[p].layout.align > 0
    {
      AlignmentCases(h.live[p].layout.align);
    }
    forall p, q | p in h.live && q in h.live
      ensures p != q ==> Disjoint(p, h.live[p].layout.size, q, h.live[q].layout.size)
      ensures h.live[q].layout.OverAligned() ==> Disjoint(p, h.live[p].layout.size, q - WORD, WORD)
    {
      Separation(h.memory, h.raws, h.live, h.owner, p, q);
    }
  }
}
