/** The memory that holds the actors of a context: its worst-case size, and the layout from its address. */
module Arena {
  import opened Alignment
  import opened Options

  datatype Layout = Layout(size: nat, align: nat)

  const U32_LIMIT := 0x1_0000_0000

  /** What a layout guarantees: the alignment is a power of two. */
  predicate ValidLayouts(layouts: seq<Layout>) {
    forall i :: 0 <= i < |layouts| ==> layouts[i].align > 0 && PowerOfTwo(layouts[i].align)
  }

  /** The address behind the last block when the blocks are laid out one after the other from `start`. */
  function End(start: nat, layouts: seq<Layout>): nat
    requires ValidLayouts(layouts)
    decreases |layouts|, 0
  {
    if layouts == [] then start
    else
      var n := |layouts| - 1;
      BlockStart(start, layouts, n) + layouts[n].size
  }

  /** The address of block `i`: the first aligned one behind the blocks before it. */
  function BlockStart(start: nat, layouts: seq<Layout>, i: nat): nat
    requires ValidLayouts(layouts) && i < |layouts|
    decreases i, 1
  {
    var e := End(start, layouts[..i]);
    e + Padding(e, layouts[i].align)
  }

  function Extent(start: nat, layouts: seq<Layout>): int
    requires ValidLayouts(layouts)
  {
    End(start, layouts) - start
  }

  /** `size` suffices for every start address and is needed for some. */
  ghost predicate WorstExtent(layouts: seq<Layout>, size: nat)
    requires ValidLayouts(layouts)
  {
    && (forall start: nat :: Extent(start, layouts) <= size)
    && exists start: nat :: Extent(start, layouts) == size
  }

  lemma EndOfMore(start: nat, layouts: seq<Layout>, l: Layout)
    requires ValidLayouts(layouts + [l])
    ensures ValidLayouts(layouts) && l.align > 0
    ensures End(start, layouts + [l]) == End(start, layouts) + Padding(End(start, layouts), l.align) + l.size
  {
    assert forall i :: 0 <= i < |layouts| ==> layouts[i] == (layouts + [l])[i];
    assert (layouts + [l])[|layouts|] == l;
    assert (layouts + [l])[..|layouts|] == layouts;
  }

  /** Moving the start by a multiple of all alignments moves everything along. */
  lemma {:induction false} EndShift(start: nat, d: nat, layouts: seq<Layout>)
    requires ValidLayouts(layouts)
    requires forall i :: 0 <= i < |layouts| ==> d % layouts[i].align == 0
    ensures End(start + d, layouts) == End(start, layouts) + d
    decreases |layouts|
  {
    if layouts != [] {
      var n := |layouts| - 1;
      EndShift(start, d, layouts[..n]);
      PaddingShift(End(start, layouts[..n]), d, layouts[n].align);
    }
  }

  /**
   * What the loop knows about the blocks so far: `align` is the largest alignment met, every layout
   * ends at remainder `offset` of it, and `worst` is a start whose layout takes all of `size`.
   */
  ghost predicate Known(layouts: seq<Layout>, size: nat, align: nat, offset: nat, worst: nat)
    requires ValidLayouts(layouts)
  {
    && align > 0 && PowerOfTwo(align) && offset < align
    && (forall i :: 0 <= i < |layouts| ==> align % layouts[i].align == 0)
    && (forall start: nat :: Extent(start, layouts) <= size && End(start, layouts) % align == offset)
    && Extent(worst, layouts) == size
  }

  /** A block of no greater alignment: the padding is the same from every start. */
  lemma WithinAt(start: nat, layouts: seq<Layout>, align: nat, offset: nat, l: Layout)
    requires ValidLayouts(layouts + [l]) && ValidLayouts(layouts)
    requires align > 0 && l.align > 0 && align % l.align == 0 && End(start, layouts) % align == offset
    ensures Extent(start, layouts + [l]) == Extent(start, layouts) + Padding(offset, l.align) + l.size
    ensures End(start, layouts + [l]) % align == ((offset + Padding(offset, l.align)) % align + l.size) % align
  {
    EndOfMore(start, layouts, l);
    var e, pad := End(start, layouts), Padding(offset, l.align);
    PaddingOfRemainder(e, align, l.align);
    RemainderOfSum(e, pad, align);
    RemainderOfSum(e + pad, l.size, align);
  }

  lemma StepWithin(layouts: seq<Layout>, size: nat, align: nat, offset: nat, worst: nat, l: Layout)
    requires ValidLayouts(layouts + [l]) && ValidLayouts(layouts) && Known(layouts, size, align, offset, worst)
    requires l.align > 0 && PowerOfTwo(l.align) && l.align <= align
    ensures Known(layouts + [l], size + Padding(offset, l.align) + l.size, align,
                  ((offset + Padding(offset, l.align)) % align + l.size) % align, worst)
  {
    PowersDivide(l.align, align);
    forall start: nat
      ensures Extent(start, layouts + [l]) == Extent(start, layouts) + Padding(offset, l.align) + l.size
      ensures End(start, layouts + [l]) % align == ((offset + Padding(offset, l.align)) % align + l.size) % align
    {
      assert Extent(start, layouts) <= size;
      WithinAt(start, layouts, align, offset, l);
    }
  }

  lemma RemainderOfSum(a: nat, b: nat, m: nat)
    requires m > 0
    ensures (a % m + b) % m == (a + b) % m
  {
    assert a == (a / m) * m + a % m;
    ShiftRemainder(a % m + b, m, a / m);
  }

  lemma BeyondBound(start: nat, layouts: seq<Layout>, size: nat, align: nat, offset: nat, l: Layout)
    requires ValidLayouts(layouts + [l]) && ValidLayouts(layouts)
    requires 0 < align < l.align && l.align % align == 0 && offset < align
    requires Extent(start, layouts) <= size && End(start, layouts) % align == offset
    ensures Extent(start, layouts + [l]) <= size + (l.align - align + (align - offset) % align) + l.size
    ensures End(start, layouts + [l]) % l.align == l.size % l.align
  {
    EndOfMore(start, layouts, l);
    var e := End(start, layouts);
    WorstPadding(e, align, l.align);
    PaddingAligns(e, l.align);
    RemainderOfSum(e + Padding(e, l.align), l.size, l.align);
  }

  lemma BeyondWorst(worst: nat, layouts: seq<Layout>, size: nat, align: nat, offset: nat, l: Layout)
    returns (worst': nat)
    requires ValidLayouts(layouts + [l]) && ValidLayouts(layouts)
    requires 0 < align < l.align && l.align % align == 0 && offset < align
    requires forall i :: 0 <= i < |layouts| ==> align % layouts[i].align == 0
    requires Extent(worst, layouts) == size && End(worst, layouts) % align == offset
    ensures Extent(worst', layouts + [l]) == size + (l.align - align + (align - offset) % align) + l.size
  {
    var e := End(worst, layouts);
    var near := Padding(e, align);
    PaddingAligns(e, align);
    var t := WorstShift(e + near, align, l.align);
    worst' := worst + t * align;
    MultipleDivides(layouts, align, t);
    EndShift(worst, t * align, layouts);
    EndOfMore(worst', layouts, l);
    var e' := End(worst', layouts);
    ShiftRemainder(e, align, t);
    assert e' % align == offset;
    WorstPadding(e', align, l.align);
  }

  lemma StepBeyond(layouts: seq<Layout>, size: nat, align: nat, offset: nat, worst: nat, l: Layout)
    returns (worst': nat)
    requires ValidLayouts(layouts + [l]) && ValidLayouts(layouts) && Known(layouts, size, align, offset, worst)
    requires l.align > 0 && PowerOfTwo(l.align) && l.align > align
    ensures Known(layouts + [l], size + (l.align - align + (align - offset) % align) + l.size, l.align,
                  l.size % l.align, worst')
  {
    PowersDivide(align, l.align);
    forall start: nat
      ensures Extent(start, layouts + [l]) <= size + (l.align - align + (align - offset) % align) + l.size
      ensures End(start, layouts + [l]) % l.align == l.size % l.align
    {
      assert Extent(start, layouts) <= size;
      BeyondBound(start, layouts, size, align, offset, l);
    }
    assert Extent(worst, layouts) <= size;
    worst' := BeyondWorst(worst, layouts, size, align, offset, l);
    FinerDivideToo(layouts, align, l);
  }

  lemma MultipleDivides(layouts: seq<Layout>, align: nat, t: nat)
    requires ValidLayouts(layouts)
    requires forall i :: 0 <= i < |layouts| ==> align % layouts[i].align == 0
    ensures forall i :: 0 <= i < |layouts| ==> (t * align) % layouts[i].align == 0
  {
    forall i | 0 <= i < |layouts|
      ensures (t * align) % layouts[i].align == 0
    {
      var d := layouts[i].align;
      assert align == (align / d) * d;
      assert t * align == (t * (align / d)) * d;
      RemainderIs(t * align, d, t * (align / d), 0);
    }
  }

  lemma FinerDivideToo(layouts: seq<Layout>, align: nat, l: Layout)
    requires ValidLayouts(layouts + [l]) && align > 0 && l.align > 0 && l.align % align == 0
    requires forall i :: 0 <= i < |layouts| ==> layouts[i].align > 0 && align % layouts[i].align == 0
    ensures forall i :: 0 <= i < |layouts + [l]| ==> l.align % (layouts + [l])[i].align == 0
  {
    RemainderIs(l.align, l.align, 1, 0);
    forall i | 0 <= i < |layouts|
      ensures l.align % layouts[i].align == 0
    {
      var d := layouts[i].align;
      RemainderOfRemainder(l.align, align, d);
      RemainderIs(0, d, 0, 0);
    }
  }

  /** The remainder, for the proofs; `RemIsRemainder` says that it is `a % m`. */
  ghost function Rem(a: nat, m: nat): (r: nat)
    requires m > 0
    ensures r < m
  {
    if a < m then a else Rem(a - m, m)
  }

  lemma {:induction false} RemIsRemainder(a: nat, m: nat)
    requires m > 0
    ensures Rem(a, m) == a % m
  {
    if a < m {
      RemainderIs(a, m, 0, a);
    } else {
      RemIsRemainder(a - m, m);
      ShiftRemainder(a - m, m, 1);
    }
  }

  /** One round of the loop, in the terms it is computed in. */
  ghost function NextSize(size: nat, align: nat, offset: nat, l: Layout): nat
    requires offset < align && l.align > 0
  {
    if l.align > align then size + (l.align - align + Rem(align - offset, align)) + l.size
    else size + CodedPadding(offset, l.align) + l.size
  }

  function NextAlign(align: nat, l: Layout): nat {
    if l.align > align then l.align else align
  }

  ghost function NextOffset(align: nat, offset: nat, l: Layout): (next: nat)
    requires offset < align && l.align > 0
    ensures next < NextAlign(align, l)
  {
    if l.align > align then Rem(l.size, l.align)
    else Rem(Rem(offset + CodedPadding(offset, l.align), align) + l.size, align)
  }

  /** The padding as the code computes it. */
  ghost function CodedPadding(offset: nat, align: nat): (p: nat)
    requires align > 0
    ensures p < align
  {
    align - Rem(offset + align - 1, align) - 1
  }

  lemma CodedPaddingIsPadding(offset: nat, align: nat)
    requires align > 0
    ensures CodedPadding(offset, align) == Padding(offset, align)
  {
    RemIsRemainder(offset + align - 1, align);
    PaddingFormula(offset, align);
  }

  lemma NextBeyond(size: nat, align: nat, offset: nat, l: Layout)
    requires offset < align < l.align
    ensures NextSize(size, align, offset, l) == size + (l.align - align + (align - offset) % align) + l.size
    ensures NextAlign(align, l) == l.align && NextOffset(align, offset, l) == l.size % l.align
  {
    RemIsRemainder(align - offset, align);
    RemIsRemainder(l.size, l.align);
  }

  lemma NextWithin(size: nat, align: nat, offset: nat, l: Layout)
    requires offset < align && 0 < l.align <= align
    ensures NextSize(size, align, offset, l) == size + Padding(offset, l.align) + l.size
    ensures NextAlign(align, l) == align
    ensures NextOffset(align, offset, l) == ((offset + Padding(offset, l.align)) % align + l.size) % align
  {
    CodedPaddingIsPadding(offset, l.align);
    var pad := Padding(offset, l.align);
    RemIsRemainder(offset + pad, align);
    RemIsRemainder((offset + pad) % align + l.size, align);
  }

  lemma KnownBeyond(done: seq<Layout>, l: Layout, size: nat, align: nat, offset: nat, worst: nat)
    returns (worst': nat)
    requires ValidLayouts(done) && ValidLayouts(done + [l]) && Known(done, size, align, offset, worst)
    requires PowerOfTwo(l.align) && l.align > align
    ensures Known(done + [l], NextSize(size, align, offset, l), NextAlign(align, l),
                  NextOffset(align, offset, l), worst')
  {
    worst' := StepBeyond(done, size, align, offset, worst, l);
    NextBeyond(size, align, offset, l);
  }

  lemma KnownWithin(done: seq<Layout>, l: Layout, size: nat, align: nat, offset: nat, worst: nat)
    requires ValidLayouts(done) && ValidLayouts(done + [l]) && Known(done, size, align, offset, worst)
    requires l.align > 0 && PowerOfTwo(l.align) && l.align <= align
    ensures Known(done + [l], NextSize(size, align, offset, l), NextAlign(align, l),
                  NextOffset(align, offset, l), worst)
  {
    StepWithin(done, size, align, offset, worst, l);
    NextWithin(size, align, offset, l);
  }

  lemma NextPrefix(layouts: seq<Layout>, i: nat)
    requires ValidLayouts(layouts) && i < |layouts|
    ensures ValidLayouts(layouts[..i]) && layouts[..i + 1] == layouts[..i] + [layouts[i]]
    ensures ValidLayouts(layouts[..i] + [layouts[i]])
    ensures layouts[i].align > 0 && PowerOfTwo(layouts[i].align)
  {
  }

  lemma KnownStep(layouts: seq<Layout>, i: nat, size: nat, align: nat, offset: nat, worst: nat)
    returns (worst': nat)
    requires ValidLayouts(layouts) && i < |layouts|
    requires Known(layouts[..i], size, align, offset, worst)
    ensures Known(layouts[..i + 1], NextSize(size, align, offset, layouts[i]), NextAlign(align, layouts[i]),
                  NextOffset(align, offset, layouts[i]), worst')
  {
    NextPrefix(layouts, i);
    if layouts[i].align > align {
      worst' := KnownBeyond(layouts[..i], layouts[i], size, align, offset, worst);
    } else {
      worst' := worst;
      KnownWithin(layouts[..i], layouts[i], size, align, offset, worst);
    }
  }

  /** The body of the loop: what it makes of the size, the largest alignment and the offset so far. */
  method AddLayout(size: nat, align: nat, offset: nat, l: Layout) returns (res: nat, knownAlign: nat, currOffset: nat)
    requires offset < align && l.align > 0
    ensures res == NextSize(size, align, offset, l)
    ensures knownAlign == NextAlign(align, l) && currOffset == NextOffset(align, offset, l)
    ensures currOffset < knownAlign
  {
    res, knownAlign, currOffset := size, align, offset;
    if l.align > knownAlign {
      RemIsRemainder(knownAlign - currOffset, knownAlign);
      res := res + (l.align - knownAlign + (knownAlign - currOffset) % knownAlign);
      knownAlign := l.align;
      currOffset := 0;
    } else {
      RemIsRemainder(currOffset + l.align - 1, l.align);
      var padding := l.align - (currOffset + l.align - 1) % l.align - 1;
      res := res + padding;
      RemIsRemainder(currOffset + padding, knownAlign);
      currOffset := (currOffset + padding) % knownAlign;
    }
    res := res + l.size;
    RemIsRemainder(currOffset + l.size, knownAlign);
    currOffset := (currOffset + l.size) % knownAlign;
  }

  /**
   * The size to reserve without knowing the address: exactly the largest extent over all addresses,
   * or nothing when that does not fit in 32 bits.
   */
  method ComputeSpaceRequired(layouts: seq<Layout>) returns (r: Option<nat>)
    requires ValidLayouts(layouts)
    ensures r.Some? ==> WorstExtent(layouts, r.value) && r.value < U32_LIMIT
    ensures r.None? ==> exists start: nat :: Extent(start, layouts) >= U32_LIMIT
  {
    var res: nat, knownAlign: nat, currOffset: nat := 0, 1, 0;
    ghost var worst: nat := 0;
    for i := 0 to |layouts|
      invariant currOffset < knownAlign
      invariant Known(layouts[..i], res, knownAlign, currOffset, worst)
    {
      worst := KnownStep(layouts, i, res, knownAlign, currOffset, worst);
      res, knownAlign, currOffset := AddLayout(res, knownAlign, currOffset, layouts[i]);
    }
    assert layouts[..|layouts|] == layouts;
    r := if res < U32_LIMIT then Some(res) else None;
  }

  // ---------- the layout from a given address ----------

  /** The offsets of the blocks, each at its aligned place behind the ones before it. */
  method GetOffsets(start: nat, layouts: seq<Layout>) returns (offsets: seq<nat>)
    requires ValidLayouts(layouts)
    ensures |offsets| == |layouts|
    ensures forall i :: 0 <= i < |layouts| ==> start + offsets[i] == BlockStart(start, layouts, i)
  {
    offsets := [];
    var curr := start;
    for i := 0 to |layouts|
      invariant |offsets| == i && curr == End(start, layouts[..i]) && start <= curr
      invariant forall j :: 0 <= j < i ==> start + offsets[j] == BlockStart(start, layouts, j)
    {
      var addr := curr + Padding(curr, layouts[i].align);
      offsets := offsets + [addr - start];
      curr := addr + layouts[i].size;
      EndOfPrefix(start, layouts, i);
    }
  }

  lemma EndOfPrefix(start: nat, layouts: seq<Layout>, i: nat)
    requires ValidLayouts(layouts) && i < |layouts|
    ensures End(start, layouts[..i + 1]) == BlockStart(start, layouts, i) + layouts[i].size
    ensures start <= End(start, layouts[..i]) ==> start <= End(start, layouts[..i + 1])
  {
    assert layouts[..i + 1][..i] == layouts[..i];
  }

  lemma {:induction false} EndsGrow(start: nat, layouts: seq<Layout>, i: nat, j: nat)
    requires ValidLayouts(layouts) && i <= j <= |layouts|
    ensures End(start, layouts[..i]) <= End(start, layouts[..j])
    decreases j - i
  {
    if i < j {
      EndsGrow(start, layouts, i, j - 1);
      EndOfPrefix(start, layouts, j - 1);
    }
  }

  /**
   * Every block lies at the first aligned address behind the one before it, in front of the next one, and
   * within the whole extent.
   */
  lemma BlocksAreApart(start: nat, layouts: seq<Layout>, i: nat)
    requires ValidLayouts(layouts) && i < |layouts|
    ensures start <= End(start, layouts[..i]) <= BlockStart(start, layouts, i)
    ensures Aligned(BlockStart(start, layouts, i), layouts[i].align)
    ensures forall a: nat :: End(start, layouts[..i]) <= a < BlockStart(start, layouts, i) ==>
      !Aligned(a, layouts[i].align)
    ensures End(start, layouts[..i + 1]) == BlockStart(start, layouts, i) + layouts[i].size
    ensures BlockStart(start, layouts, i) + layouts[i].size <= End(start, layouts)
    ensures forall j :: i < j < |layouts| ==>
      BlockStart(start, layouts, i) + layouts[i].size <= BlockStart(start, layouts, j)
  {
    assert layouts[..0] == [];
    assert layouts[..|layouts|] == layouts;
    EndsGrow(start, layouts, 0, i);
    PaddingAligns(End(start, layouts[..i]), layouts[i].align);
    forall a: nat | End(start, layouts[..i]) <= a < BlockStart(start, layouts, i)
      ensures !Aligned(a, layouts[i].align)
    {
      if Aligned(a, layouts[i].align) {
        PaddingIsLeast(End(start, layouts[..i]), layouts[i].align, a - End(start, layouts[..i]));
      }
    }
    EndOfPrefix(start, layouts, i);
    EndsGrow(start, layouts, i + 1, |layouts|);
    forall j | i < j < |layouts|
      ensures BlockStart(start, layouts, i) + layouts[i].size <= BlockStart(start, layouts, j)
    {
      EndsGrow(start, layouts, i + 1, j);
    }
  }

  /** A reserved range of memory. */
  datatype Arena = Arena(data: nat, capacity: nat) {

    predicate Covers(address: nat) {
      data <= address < data + capacity
    }

    /** The checks on handing out a block: aligned, and ending strictly before the end of the arena. */
    predicate Accepts(offset: nat, layout: Layout)
      requires layout.align > 0
    {
      Aligned(data + offset, layout.align) && data + capacity > data + offset + layout.size
    }
  }

  /**
   * A block is handed out exactly if its address is a multiple of its alignment, and all its bytes and the
   * one behind them are in the arena.
   */
  lemma AcceptsMeans(arena: Arena, offset: nat, l: Layout)
    requires l.align > 0
    ensures var ptr := arena.data + offset;
      arena.Accepts(offset, l) <==>
        (exists q: nat :: ptr == q * l.align)
        && forall a: nat :: ptr <= a <= ptr + l.size ==> arena.Covers(a)
  {
    var ptr := arena.data + offset;
    if arena.Accepts(offset, l) {
      assert ptr == (ptr / l.align) * l.align;
    }
    if q: nat :| ptr == q * l.align {
      RemainderIs(ptr, l.align, q, 0);
    }
    assert arena.Covers(ptr + l.size) ==> arena.data + arena.capacity > ptr + l.size;
  }

  /** Reserving and laying out, when the allocator answers with address `ptr`. */
  method FromLayouts(layouts: seq<Layout>, ptr: nat) returns (r: Option<(Arena, seq<nat>)>)
    requires ValidLayouts(layouts)
    ensures r.None? ==> exists start: nat :: Extent(start, layouts) >= U32_LIMIT
    ensures r.Some? ==>
      && var (arena, offsets) := r.value;
      && arena.data == ptr && WorstExtent(layouts, arena.capacity) && arena.capacity < U32_LIMIT
      && LaidOut(arena, layouts, offsets)
  {
    var capacity := ComputeSpaceRequired(layouts);
    if capacity.None? {
      return None;
    }
    var offsets := GetOffsets(ptr, layouts);
    LayoutFits(Arena(ptr, capacity.value), layouts, offsets);
    return Some((Arena(ptr, capacity.value), offsets));
  }

  /** Aligned, pairwise disjoint in order, and within capacity. */
  ghost predicate LaidOut(arena: Arena, layouts: seq<Layout>, offsets: seq<nat>)
    requires ValidLayouts(layouts)
  {
    && |offsets| == |layouts|
    && forall i :: 0 <= i < |layouts| ==>
         && arena.data + offsets[i] == BlockStart(arena.data, layouts, i)
         && Aligned(arena.data + offsets[i], layouts[i].align)
         && offsets[i] + layouts[i].size <= arena.capacity
         && forall j :: i < j < |layouts| ==> offsets[i] + layouts[i].size <= offsets[j]
  }

  lemma LayoutFits(arena: Arena, layouts: seq<Layout>, offsets: seq<nat>)
    requires ValidLayouts(layouts) && |offsets| == |layouts| && WorstExtent(layouts, arena.capacity)
    requires forall i :: 0 <= i < |layouts| ==> arena.data + offsets[i] == BlockStart(arena.data, layouts, i)
    ensures LaidOut(arena, layouts, offsets)
  {
    assert Extent(arena.data, layouts) <= arena.capacity;
    forall i | 0 <= i < |layouts|
      ensures Aligned(arena.data + offsets[i], layouts[i].align)
      ensures offsets[i] + layouts[i].size <= arena.capacity
      ensures forall j :: i < j < |layouts| ==> offsets[i] + layouts[i].size <= offsets[j]
    {
      BlocksAreApart(arena.data, layouts, i);
    }
  }

  ghost predicate AcceptsAll(arena: Arena, layouts: seq<Layout>, offsets: seq<nat>)
    requires ValidLayouts(layouts) && |offsets| == |layouts|
  {
    forall i :: 0 <= i < |layouts| ==> arena.Accepts(offsets[i], layouts[i])
  }

  /** All blocks are handed out exactly when the layout from this address is shorter than the worst. */
  lemma AcceptsAllUnlessWorst(arena: Arena, layouts: seq<Layout>, offsets: seq<nat>)
    requires ValidLayouts(layouts) && layouts != [] && LaidOut(arena, layouts, offsets)
    ensures AcceptsAll(arena, layouts, offsets) <==> Extent(arena.data, layouts) < arena.capacity
  {
    var n := |layouts| - 1;
    assert End(arena.data, layouts) == arena.data + offsets[n] + layouts[n].size;
    forall i | 0 <= i < |layouts|
      ensures arena.data + offsets[i] + layouts[i].size <= End(arena.data, layouts)
    {
      BlocksAreApart(arena.data, layouts, i);
    }
    if AcceptsAll(arena, layouts, offsets) {
      assert arena.Accepts(offsets[n], layouts[n]);
    }
  }

  /** Some power of two is a multiple of all alignments. */
  lemma {:induction false} CommonMultiple(layouts: seq<Layout>) returns (d: nat)
    requires ValidLayouts(layouts)
    ensures d > 0 && PowerOfTwo(d) && forall i :: 0 <= i < |layouts| ==> d % layouts[i].align == 0
    decreases |layouts|
  {
    d := 1;
    if layouts != [] {
      var n := |layouts| - 1;
      var before := CommonMultiple(layouts[..n]);
      d := if layouts[n].align > before then layouts[n].align else before;
      forall i | 0 <= i < |layouts|
        ensures d % layouts[i].align == 0
      {
        PowersDivide(layouts[i].align, d) by {
          if i < n {
            assert layouts[..n][i] == layouts[i];
            DivisorIsNoGreater(layouts[i].align, before);
          }
        }
      }
    }
  }

  lemma DivisorIsNoGreater(a: nat, m: nat)
    requires a > 0 && m > 0 && m % a == 0
    ensures a <= m
  {
    if m < a {
      RemainderIs(m, a, 0, m);
    }
  }

  /** So whatever the layouts are, as soon as there is one, some valid address makes handing one out fail. */
  lemma SomeAddressIsRefused(layouts: seq<Layout>, capacity: nat) returns (ptr: nat)
    requires ValidLayouts(layouts) && layouts != [] && WorstExtent(layouts, capacity)
    ensures ptr > 0
    ensures forall offsets ::
      LaidOut(Arena(ptr, capacity), layouts, offsets) ==> !AcceptsAll(Arena(ptr, capacity), layouts, offsets)
  {
    var start: nat :| Extent(start, layouts) == capacity;
    var d := CommonMultiple(layouts);
    EndShift(start, d, layouts);
    ptr := start + d;
    forall offsets | LaidOut(Arena(ptr, capacity), layouts, offsets)
      ensures !AcceptsAll(Arena(ptr, capacity), layouts, offsets)
    {
      AcceptsAllUnlessWorst(Arena(ptr, capacity), layouts, offsets);
    }
  }

  /** A layout that takes no room anywhere. */
  predicate Trivial(l: Layout) {
    l.size == 0 && l.align == 1
  }

  lemma {:induction false} TrivialEnd(start: nat, layouts: seq<Layout>)
    requires ValidLayouts(layouts) && forall i :: 0 <= i < |layouts| ==> Trivial(layouts[i])
    ensures End(start, layouts) == start
    decreases |layouts|
  {
    if layouts != [] {
      TrivialEnd(start, layouts[..|layouts| - 1]);
    }
  }

  /** The first layout that is not trivial takes room from address 1. */
  lemma FirstTakesRoom(layouts: seq<Layout>, i: nat)
    requires ValidLayouts(layouts) && i < |layouts| && !Trivial(layouts[i])
    requires forall j :: 0 <= j < i ==> Trivial(layouts[j])
    ensures Extent(1, layouts) > 0
  {
    TrivialEnd(1, layouts[..i]);
    EndOfPrefix(1, layouts, i);
    assert layouts[..|layouts|] == layouts;
    EndsGrow(1, layouts, i + 1, |layouts|);
    if layouts[i].align > 1 {
      RemainderIs(1, layouts[i].align, 0, 1);
      RemainderIs(layouts[i].align - 1, layouts[i].align, 0, layouts[i].align - 1);
    }
  }

  /** An arena of size zero is requested exactly when no layout takes any room, as for a context without actors. */
  lemma EmptyReservation(layouts: seq<Layout>)
    requires ValidLayouts(layouts)
    ensures WorstExtent(layouts, 0) <==> forall i :: 0 <= i < |layouts| ==> Trivial(layouts[i])
  {
    if forall i :: 0 <= i < |layouts| ==> Trivial(layouts[i]) {
      forall start: nat
        ensures Extent(start, layouts) == 0
      {
        TrivialEnd(start, layouts);
      }
      assert Extent(0, layouts) == 0;
    } else {
      var i := FirstNontrivial(layouts);
      FirstTakesRoom(layouts, i);
    }
  }

  lemma FirstNontrivial(layouts: seq<Layout>) returns (i: nat)
    requires exists j :: 0 <= j < |layouts| && !Trivial(layouts[j])
    ensures i < |layouts| && !Trivial(layouts[i]) && forall j :: 0 <= j < i ==> Trivial(layouts[j])
  {
    i := 0;
    while Trivial(layouts[i])
      invariant i < |layouts| && forall j :: 0 <= j < i ==> Trivial(layouts[j])
      decreases |layouts| - i
    {
      i := i + 1;
    }
  }
}
