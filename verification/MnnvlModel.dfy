/**
 The multi-node NVLink allocator as a machine over values: a bump allocator that hands out, for each
 allocation, one segment per rank of a reserved address range. `n` is the size of the communicator.
 */
module MnnvlModel {
  import opened Arith

  const FABRIC_PAGE_SIZE: nat := 0x2000_0000

  datatype Mapped = Mapped(size: int, handle: int)

  /** What the driver holds: reserved ranges, mappings and live memory handles. */
  datatype Driver = Driver(reserved: map<int, int>, mapped: map<int, Mapped>, handles: set<int>)

  datatype Allocation = Allocation(size: int, handles: seq<int>, start: int, stride: int, offset: int)

  datatype Memory = Memory(
    start: int,                       // current_start_address
    stride: int,                      // current_rank_stride
    offset: int,                      // current_mem_offset
    live: map<int, Allocation>,       // allocated_map
    refs: map<int, int>,              // address_refcnt
    driver: Driver)

  function Empty(): Memory {
    Memory(0, 0, 0, map[], map[], Driver(map[], map[], {}))
  }

  function RoundUp(size: int, unit: int): (r: int)
    requires 0 < size && 0 < unit
    ensures size <= r && 0 < r
  {
    assert (size + unit - 1) / unit * unit == size + unit - 1 - (size + unit - 1) % unit;
    (size + unit - 1) / unit * unit
  }

  // ---------------------------------------------------------------- segments

  function Segment(a: Allocation, i: int): int {
    a.start + i * a.stride + a.offset
  }

  ghost function Segments(a: Allocation, n: nat): set<int> {
    set i | 0 <= i < n :: Segment(a, i)
  }

  ghost predicate Apart(p: int, pSize: int, q: int, qSize: int) {
    p + pSize <= q || q + qSize <= p
  }

  /** An allocation that lies inside its range of `n` strides. */
  ghost predicate Fits(a: Allocation, n: nat, reserved: map<int, int>) {
    && 0 < a.size && 0 <= a.offset && a.offset + a.size <= a.stride
    && |a.handles| == n
    && a.start in reserved && reserved[a.start] == n * a.stride
  }

  lemma SegmentInside(a: Allocation, n: nat, reserved: map<int, int>, i: nat)
    requires Fits(a, n, reserved) && i < n
    ensures a.start <= Segment(a, i) && Segment(a, i) + a.size <= a.start + reserved[a.start]
  {
    MulNonNeg(i, a.stride);
    MulMono(i + 1, n, a.stride);
    assert (i + 1) * a.stride == i * a.stride + a.stride;
  }

  /** Segments of different ranks of the same range, and of non-overlapping offsets of the same rank, are apart. */
  lemma SegmentsOfRange(a: Allocation, b: Allocation, n: nat, reserved: map<int, int>, i: nat, j: nat)
    requires Fits(a, n, reserved) && Fits(b, n, reserved) && i < n && j < n
    requires a.start == b.start && a.stride == b.stride
    requires i == j ==> Apart(a.offset, a.size, b.offset, b.size)
    ensures Apart(Segment(a, i), a.size, Segment(b, j), b.size)
  {
    if i < j {
      MulMono(i + 1, j, a.stride);
      assert (i + 1) * a.stride == i * a.stride + a.stride;
    } else if j < i {
      MulMono(j + 1, i, a.stride);
      assert (j + 1) * a.stride == j * a.stride + a.stride;
    }
  }

  // ---------------------------------------------------------------- the invariant

  ghost predicate RangesApart(reserved: map<int, int>) {
    && (forall s :: s in reserved ==> 0 < s && 0 < reserved[s])
    && (forall s, t :: s in reserved && t in reserved && s != t ==> Apart(s, reserved[s], t, reserved[t]))
  }

  ghost predicate LiveOk(live: map<int, Allocation>, n: nat, reserved: map<int, int>) {
    && (forall k :: k in live ==> k == live[k].start + live[k].offset && Fits(live[k], n, reserved))
    && (forall k, l :: k in live && l in live && k != l && live[k].start == live[l].start ==>
          live[k].stride == live[l].stride && Apart(live[k].offset, live[k].size, live[l].offset, live[l].size))
  }

  /** The bump pointer: everything live in the current range lies below it. */
  ghost predicate CurrentOk(m: Memory, n: nat) {
    && 0 <= m.offset <= m.stride
    && (m.stride > 0 ==> m.start in m.driver.reserved && m.driver.reserved[m.start] == n * m.stride)
    && (m.stride > 0 ==> forall k :: k in m.live && m.live[k].start == m.start ==>
          m.live[k].stride == m.stride && m.live[k].offset + m.live[k].size <= m.offset)
  }

  ghost function Count(live: map<int, Allocation>, s: int): nat {
    |set k | k in live && live[k].start == s|
  }

  ghost predicate RefsOk(live: map<int, Allocation>, refs: map<int, int>) {
    && (forall k :: k in live ==> live[k].start in refs)
    && (forall s :: s in refs ==> 1 <= refs[s] && Count(live, s) <= refs[s])
  }

  ghost predicate MappedOk(live: map<int, Allocation>, n: nat, mapped: map<int, Mapped>) {
    forall k, i :: k in live && 0 <= i < n && |live[k].handles| == n ==>
      Segment(live[k], i) in mapped && mapped[Segment(live[k], i)] == Mapped(live[k].size, live[k].handles[i])
  }

  ghost predicate HandlesOk(live: map<int, Allocation>, n: nat, handles: set<int>) {
    && (forall k, i :: k in live && 0 <= i < |live[k].handles| ==> live[k].handles[i] in handles)
    && (forall k, i, l, j :: k in live && l in live && 0 <= i < |live[k].handles| && 0 <= j < |live[l].handles| ==>
          live[k].handles[i] == live[l].handles[j] ==> k == l && i == j)
  }

  /** What holds in every state, whatever driver calls have failed. */
  ghost predicate Safe(m: Memory, n: nat) {
    && RangesApart(m.driver.reserved)
    && LiveOk(m.live, n, m.driver.reserved)
    && CurrentOk(m, n)
    && RefsOk(m.live, m.refs)
    && MappedOk(m.live, n, m.driver.mapped)
    && HandlesOk(m.live, n, m.driver.handles)
  }

  /** Segments of all live allocations and all ranks are pairwise disjoint. */
  lemma SegmentsAreDisjoint(live: map<int, Allocation>, n: nat, reserved: map<int, int>, k: int, i: nat, l: int, j: nat)
    requires RangesApart(reserved) && LiveOk(live, n, reserved)
    requires k in live && l in live && i < n && j < n && (k, i) != (l, j)
    ensures Apart(Segment(live[k], i), live[k].size, Segment(live[l], j), live[l].size)
  {
    var a, b := live[k], live[l];
    SegmentInside(a, n, reserved, i);
    SegmentInside(b, n, reserved, j);
    if a.start == b.start {
      SegmentsOfRange(a, b, n, reserved, i, j);
    }
  }

  lemma CountInsert(live: map<int, Allocation>, k: int, a: Allocation, s: int)
    requires k !in live
    ensures Count(live[k := a], s) == Count(live, s) + if a.start == s then 1 else 0
  {
    var before := set l | l in live && live[l].start == s;
    var live' := live[k := a];
    var after := set l | l in live' && live'[l].start == s;
    forall l
      ensures l in after <==> l in before || (l == k && a.start == s)
    {
    }
    assert after == before + if a.start == s then {k} else {};
  }

  lemma CountRemove(live: map<int, Allocation>, k: int, s: int)
    requires k in live
    ensures Count(live, s) == Count(live - {k}, s) + if live[k].start == s then 1 else 0
  {
    CountInsert(live - {k}, k, live[k], s);
    assert (live - {k})[k := live[k]] == live;
  }

  // ---------------------------------------------------------------- opening

  ghost predicate FreshRange(reserved: map<int, int>, addr: int, len: int) {
    && 0 < addr && 0 < len && addr !in reserved
    && forall s :: s in reserved ==> Apart(s, reserved[s], addr, len)
  }

  predicate NeedsRange(m: Memory, size: int) {
    m.offset + size > m.stride
  }

  /** The state once a place for `size` bytes per rank is known; `addr` is used only if a new range is reserved. */
  ghost function Located(m: Memory, n: nat, size: int, addr: int): Memory
    requires 0 < size
  {
    if NeedsRange(m, size) then
      var stride := RoundUp(size, FABRIC_PAGE_SIZE);
      m.(start := addr, stride := stride, offset := 0,
         driver := m.driver.(reserved := m.driver.reserved[addr := n * stride]))
    else m
  }

  ghost predicate Room(m: Memory, size: int) {
    0 < size && 0 < m.stride && m.offset + size <= m.stride
  }

  /** The driver hands out ranges that overlap no reserved one. */
  ghost predicate CanLocate(m: Memory, n: nat, size: int, addr: int)
    requires 0 < size
  {
    NeedsRange(m, size) ==> FreshRange(m.driver.reserved, addr, n * RoundUp(size, FABRIC_PAGE_SIZE))
  }

  lemma LocatedIsSafe(m: Memory, n: nat, size: int, addr: int)
    requires Safe(m, n) && 0 < n && 0 < size && CanLocate(m, n, size, addr)
    ensures var l := Located(m, n, size, addr);
            Safe(l, n) && Room(l, size)
  {
    if NeedsRange(m, size) {
      var stride := RoundUp(size, FABRIC_PAGE_SIZE);
      var reserved := m.driver.reserved[addr := n * stride];
      RangesStayApart(m.driver.reserved, addr, n * stride);
      assert LiveOk(m.live, n, reserved);
      assert CurrentOk(Located(m, n, size, addr), n);
    }
  }

  lemma RangesStayApart(reserved: map<int, int>, addr: int, len: int)
    requires RangesApart(reserved) && FreshRange(reserved, addr, len)
    ensures RangesApart(reserved[addr := len])
  {
  }

  /** The mappings of the first `k` ranks of an allocation. */
  ghost function SegmentMap(a: Allocation, k: nat): map<int, Mapped>
    requires k <= |a.handles|
  {
    if k == 0 then map[] else SegmentMap(a, k - 1)[Segment(a, k - 1) := Mapped(a.size, a.handles[k - 1])]
  }

  lemma {:induction false} SegmentMapKeys(a: Allocation, k: nat, p: int)
    requires k <= |a.handles|
    ensures p in SegmentMap(a, k) <==> p in Segments(a, k)
  {
    if k > 0 {
      SegmentMapKeys(a, k - 1, p);
      assert p in Segments(a, k) <==> p in Segments(a, k - 1) || p == Segment(a, k - 1);
    }
  }

  lemma {:induction false} SegmentMapAt(a: Allocation, k: nat, i: nat)
    requires i < k <= |a.handles| && 0 < a.stride
    ensures Segment(a, i) in SegmentMap(a, k) && SegmentMap(a, k)[Segment(a, i)] == Mapped(a.size, a.handles[i])
  {
    if i < k - 1 {
      SegmentMapAt(a, k - 1, i);
      MulMono(i + 1, k - 1, a.stride);
      assert (i + 1) * a.stride == i * a.stride + a.stride;
    }
  }

  ghost function Refs(refs: map<int, int>, s: int): int {
    if s in refs then refs[s] else 0
  }

  function NewAllocation(m: Memory, size: int, handles: seq<int>): Allocation {
    Allocation(size, handles, m.start, m.stride, m.offset)
  }

  /** The state after the new segments are mapped and recorded. */
  ghost function Opened(m: Memory, n: nat, size: int, handles: seq<int>): Memory
    requires |handles| == n
  {
    var a := NewAllocation(m, size, handles);
    Memory(m.start, m.stride, m.offset + size, m.live[m.start + m.offset := a],
           m.refs[m.start := Refs(m.refs, m.start) + 1],
           Driver(m.driver.reserved, m.driver.mapped + SegmentMap(a, n), m.driver.handles + set h | h in handles))
  }

  ghost predicate FreshHandles(m: Memory, n: nat, handles: seq<int>) {
    && |handles| == n
    && (forall i :: 0 <= i < n ==> handles[i] !in m.driver.handles)
    && (forall i, j :: 0 <= i < n && 0 <= j < n && handles[i] == handles[j] ==> i == j)
  }

  /** The key of a new allocation is not the key of a live one. */
  lemma NewKeyIsFresh(m: Memory, n: nat, size: int)
    requires Safe(m, n) && 0 < n && Room(m, size)
    ensures m.start + m.offset !in m.live
  {
  }

  lemma OpenedLiveOk(m: Memory, n: nat, size: int, handles: seq<int>)
    requires Safe(m, n) && 0 < n && Room(m, size) && |handles| == n
    ensures LiveOk(Opened(m, n, size, handles).live, n, m.driver.reserved)
  {
  }

  lemma OtherSegments(live: map<int, Allocation>, n: nat, reserved: map<int, int>, key: int, k: int, i: nat)
    requires RangesApart(reserved) && LiveOk(live, n, reserved)
    requires k in live && key in live && k != key && i < n
    ensures Segment(live[k], i) !in Segments(live[key], n)
  {
    forall j | 0 <= j < n
      ensures Segment(live[k], i) != Segment(live[key], j)
    {
      SegmentsAreDisjoint(live, n, reserved, k, i, key, j);
    }
  }

  lemma {:induction false} MappedWithNew(live: map<int, Allocation>, n: nat, reserved: map<int, int>,
                                         mapped: map<int, Mapped>, key: int, a: Allocation)
    requires RangesApart(reserved) && LiveOk(live[key := a], n, reserved) && MappedOk(live, n, mapped)
    requires key !in live && |a.handles| == n
    ensures MappedOk(live[key := a], n, mapped + SegmentMap(a, n))
  {
    var live', mapped' := live[key := a], mapped + SegmentMap(a, n);
    forall k, i | k in live' && 0 <= i < n && |live'[k].handles| == n
      ensures Segment(live'[k], i) in mapped'
      ensures mapped'[Segment(live'[k], i)] == Mapped(live'[k].size, live'[k].handles[i])
    {
      if k == key {
        SegmentMapAt(a, n, i);
      } else {
        OtherSegments(live', n, reserved, key, k, i);
        SegmentMapKeys(a, n, Segment(live'[k], i));
      }
    }
  }

  lemma OpenedMappedOk(m: Memory, n: nat, size: int, handles: seq<int>)
    requires RangesApart(m.driver.reserved) && MappedOk(m.live, n, m.driver.mapped) && |handles| == n
    requires m.start + m.offset !in m.live && LiveOk(Opened(m, n, size, handles).live, n, m.driver.reserved)
    ensures MappedOk(Opened(m, n, size, handles).live, n, Opened(m, n, size, handles).driver.mapped)
  {
    MappedWithNew(m.live, n, m.driver.reserved, m.driver.mapped, m.start + m.offset, NewAllocation(m, size, handles));
  }

  lemma OpenedHandlesOk(m: Memory, n: nat, size: int, handles: seq<int>)
    requires HandlesOk(m.live, n, m.driver.handles) && FreshHandles(m, n, handles) && m.start + m.offset !in m.live
    ensures HandlesOk(Opened(m, n, size, handles).live, n, Opened(m, n, size, handles).driver.handles)
  {
  }

  lemma OpenedRefsOk(m: Memory, n: nat, size: int, handles: seq<int>)
    requires RefsOk(m.live, m.refs) && |handles| == n && m.start + m.offset !in m.live
    requires m.start !in m.refs ==> Count(m.live, m.start) == 0
    ensures RefsOk(Opened(m, n, size, handles).live, Opened(m, n, size, handles).refs)
  {
    var m' := Opened(m, n, size, handles);
    forall s | s in m'.refs
      ensures 1 <= m'.refs[s] && Count(m'.live, s) <= m'.refs[s]
    {
      CountInsert(m.live, m.start + m.offset, NewAllocation(m, size, handles), s);
    }
  }

  lemma UncountedRange(m: Memory, s: int)
    requires RefsOk(m.live, m.refs) && s !in m.refs
    ensures Count(m.live, s) == 0
  {
    var users := set k | k in m.live && m.live[k].start == s;
    forall k
      ensures k !in users
    {
    }
    assert users == {};
  }

  lemma OpenedCurrentOk(m: Memory, n: nat, size: int, handles: seq<int>)
    requires CurrentOk(m, n) && Room(m, size) && |handles| == n && m.start + m.offset !in m.live
    ensures CurrentOk(Opened(m, n, size, handles), n)
  {
  }

  lemma OpenedBooksOk(m: Memory, n: nat, size: int, handles: seq<int>)
    requires Safe(m, n) && 0 < n && Room(m, size) && FreshHandles(m, n, handles) && m.start + m.offset !in m.live
    ensures var m' := Opened(m, n, size, handles);
            CurrentOk(m', n) && RefsOk(m'.live, m'.refs) && HandlesOk(m'.live, n, m'.driver.handles)
  {
    if m.start !in m.refs { UncountedRange(m, m.start); }
    OpenedHandlesOk(m, n, size, handles);
    OpenedRefsOk(m, n, size, handles);
    OpenedCurrentOk(m, n, size, handles);
  }

  lemma OpenedIsSafe(m: Memory, n: nat, size: int, handles: seq<int>)
    requires Safe(m, n) && 0 < n && Room(m, size) && FreshHandles(m, n, handles)
    ensures Safe(Opened(m, n, size, handles), n)
  {
    NewKeyIsFresh(m, n, size);
    OpenedBooksOk(m, n, size, handles);
    OpenedLiveOk(m, n, size, handles);
    OpenedMappedOk(m, n, size, handles);
  }

  // ---------------------------------------------------------------- closing

  /** The state after a live allocation is closed: the last one of a range also frees the range. */
  ghost function Closed(m: Memory, n: nat, ptr: int): Memory
    requires ptr in m.live && m.live[ptr].start in m.refs
  {
    var a := m.live[ptr];
    var live, mapped := m.live - {ptr}, m.driver.mapped - Segments(a, n);
    var handles := m.driver.handles - set h | h in a.handles;
    if m.refs[a.start] == 1 then
      var driver := Driver(m.driver.reserved - {a.start}, mapped, handles);
      if a.start == m.start then Memory(0, 0, 0, live, m.refs - {a.start}, driver)
      else Memory(m.start, m.stride, m.offset, live, m.refs - {a.start}, driver)
    else
      Memory(m.start, m.stride, m.offset, live, m.refs[a.start := m.refs[a.start] - 1],
             Driver(m.driver.reserved, mapped, handles))
  }

  lemma ClosedMappedOk(m: Memory, n: nat, ptr: int)
    requires Safe(m, n) && ptr in m.live
    ensures MappedOk(m.live - {ptr}, n, m.driver.mapped - Segments(m.live[ptr], n))
  {
  }

  lemma ClosedHandlesOk(m: Memory, n: nat, ptr: int)
    requires Safe(m, n) && ptr in m.live
    ensures HandlesOk(m.live - {ptr}, n, m.driver.handles - set h | h in m.live[ptr].handles)
  {
  }

  lemma ClosedRefsOk(m: Memory, n: nat, ptr: int)
    requires RefsOk(m.live, m.refs) && ptr in m.live
    ensures RefsOk(m.live - {ptr}, Closed(m, n, ptr).refs)
    ensures m.refs[m.live[ptr].start] == 1 ==>
              forall k :: k in m.live && k != ptr ==> m.live[k].start != m.live[ptr].start
  {
    var m', start := Closed(m, n, ptr), m.live[ptr].start;
    forall s | s in m.refs
      ensures Count(m.live - {ptr}, s) == Count(m.live, s) - if s == start then 1 else 0
    {
      CountRemove(m.live, ptr, s);
    }
    if m.refs[start] == 1 {
      var rest := set k | k in m.live - {ptr} && (m.live - {ptr})[k].start == start;
      assert rest == {};
      forall k | k in m.live && k != ptr
        ensures m.live[k].start != start
      {
        assert k in rest <==> m.live[k].start == start;
      }
    }
  }

  /** Freeing a range that no other live allocation uses keeps the rest in place. */
  lemma FewerRanges(live: map<int, Allocation>, n: nat, reserved: map<int, int>, gone: int)
    requires RangesApart(reserved) && LiveOk(live, n, reserved) && forall k :: k in live ==> live[k].start != gone
    ensures RangesApart(reserved - {gone}) && LiveOk(live, n, reserved - {gone})
  {
  }

  lemma ClosedLiveOk(m: Memory, n: nat, ptr: int)
    requires Safe(m, n) && ptr in m.live
    ensures var m' := Closed(m, n, ptr);
            RangesApart(m'.driver.reserved) && LiveOk(m'.live, n, m'.driver.reserved)
  {
    var live := m.live - {ptr};
    assert LiveOk(live, n, m.driver.reserved);
    ClosedRefsOk(m, n, ptr);
    if m.refs[m.live[ptr].start] == 1 {
      FewerRanges(live, n, m.driver.reserved, m.live[ptr].start);
    }
  }

  lemma ClosedIsSafe(m: Memory, n: nat, ptr: int)
    requires Safe(m, n) && ptr in m.live
    ensures Safe(Closed(m, n, ptr), n)
  {
    ClosedLiveOk(m, n, ptr);
    ClosedMappedOk(m, n, ptr);
    ClosedHandlesOk(m, n, ptr);
    ClosedRefsOk(m, n, ptr);
    assert CurrentOk(Closed(m, n, ptr), n);
  }

  // ---------------------------------------------------------------- exact accounting

  ghost predicate MappedFor(live: map<int, Allocation>, n: nat, p: int) {
    exists k, i :: k in live && 0 <= i < n && Segment(live[k], i) == p
  }

  ghost predicate HeldFor(live: map<int, Allocation>, h: int) {
    exists k :: k in live && h in live[k].handles
  }

  ghost predicate RefsExact(live: map<int, Allocation>, refs: map<int, int>) {
    forall s :: s in refs ==> refs[s] == Count(live, s)
  }

  ghost predicate MappedExact(live: map<int, Allocation>, n: nat, mapped: map<int, Mapped>) {
    forall p :: p in mapped ==> MappedFor(live, n, p)
  }

  ghost predicate HandlesExact(live: map<int, Allocation>, handles: set<int>) {
    forall h :: h in handles ==> HeldFor(live, h)
  }

  ghost predicate RangesUsed(m: Memory) {
    && (forall s :: s in m.driver.reserved ==> s in m.refs)
    && (if m.stride == 0 then m.start == 0 && m.offset == 0 else m.start in m.refs)
  }

  /**
   Nothing is leaked: every reference count is the number of live allocations of its range, every reserved
   range has one, and every mapping and every handle belongs to a live allocation.
   */
  ghost predicate Exact(m: Memory, n: nat) {
    && Safe(m, n)
    && RefsExact(m.live, m.refs)
    && RangesUsed(m)
    && MappedExact(m.live, n, m.driver.mapped)
    && HandlesExact(m.live, m.driver.handles)
  }

  lemma EmptyIsExact(n: nat)
    ensures Exact(Empty(), n)
  {
  }

  /** Once everything is closed the allocator and the driver are back where they started. */
  lemma NothingLiveIsEmpty(m: Memory, n: nat)
    requires Exact(m, n) && m.live == map[]
    ensures m == Empty()
  {
    forall s
      ensures s !in m.refs
    {
      assert Count(m.live, s) == 0;
    }
    forall p
      ensures p !in m.driver.mapped
    {
      assert !MappedFor(m.live, n, p);
    }
    forall h
      ensures h !in m.driver.handles
    {
      assert !HeldFor(m.live, h);
    }
    forall s
      ensures s !in m.driver.reserved
    {
    }
    assert m.refs == map[] && m.driver.reserved == map[] && m.driver.mapped == map[] && m.driver.handles == {};
  }

  lemma OpenedRefsExact(m: Memory, n: nat, size: int, handles: seq<int>)
    requires RefsOk(m.live, m.refs) && RefsExact(m.live, m.refs) && |handles| == n && m.start + m.offset !in m.live
    ensures RefsExact(Opened(m, n, size, handles).live, Opened(m, n, size, handles).refs)
  {
    var m' := Opened(m, n, size, handles);
    forall s | s in m'.refs
      ensures m'.refs[s] == Count(m'.live, s)
    {
      CountInsert(m.live, m.start + m.offset, NewAllocation(m, size, handles), s);
      if s !in m.refs { UncountedRange(m, s); }
    }
  }

  lemma OpenedMappedExact(m: Memory, n: nat, size: int, handles: seq<int>)
    requires MappedExact(m.live, n, m.driver.mapped) && |handles| == n && m.start + m.offset !in m.live
    ensures MappedExact(Opened(m, n, size, handles).live, n, Opened(m, n, size, handles).driver.mapped)
  {
    var m', key, a := Opened(m, n, size, handles), m.start + m.offset, NewAllocation(m, size, handles);
    forall p | p in m'.driver.mapped
      ensures MappedFor(m'.live, n, p)
    {
      SegmentMapKeys(a, n, p);
      if p in Segments(a, n) {
        var i :| 0 <= i < n && Segment(a, i) == p;
        assert Segment(m'.live[key], i) == p;
      } else {
        assert MappedFor(m.live, n, p);
        var k, i :| k in m.live && 0 <= i < n && Segment(m.live[k], i) == p;
        assert Segment(m'.live[k], i) == p;
      }
    }
  }

  lemma OpenedHandlesExact(m: Memory, n: nat, size: int, handles: seq<int>)
    requires HandlesExact(m.live, m.driver.handles) && |handles| == n && m.start + m.offset !in m.live
    ensures HandlesExact(Opened(m, n, size, handles).live, Opened(m, n, size, handles).driver.handles)
  {
    var m', key := Opened(m, n, size, handles), m.start + m.offset;
    forall h | h in m'.driver.handles
      ensures HeldFor(m'.live, h)
    {
      if h in handles {
        assert h in m'.live[key].handles;
      } else {
        assert HeldFor(m.live, h);
        var k :| k in m.live && h in m.live[k].handles;
        assert h in m'.live[k].handles;
      }
    }
  }

  /** A successful open keeps the accounts exact, whether or not it reserved a range. */
  lemma OpenedIsExact(m: Memory, n: nat, size: int, addr: int, handles: seq<int>)
    requires Exact(m, n) && 0 < n && 0 < size && CanLocate(m, n, size, addr)
    requires FreshHandles(m, n, handles)
    ensures Exact(Opened(Located(m, n, size, addr), n, size, handles), n)
  {
    var l := Located(m, n, size, addr);
    LocatedIsSafe(m, n, size, addr);
    OpenedIsSafe(l, n, size, handles);
    NewKeyIsFresh(l, n, size);
    OpenedRefsExact(l, n, size, handles);
    OpenedMappedExact(l, n, size, handles);
    OpenedHandlesExact(l, n, size, handles);
  }

  lemma ClosedRefsExact(m: Memory, n: nat, ptr: int)
    requires RefsOk(m.live, m.refs) && RefsExact(m.live, m.refs) && ptr in m.live
    ensures RefsExact(Closed(m, n, ptr).live, Closed(m, n, ptr).refs)
  {
    var m' := Closed(m, n, ptr);
    forall s | s in m'.refs
      ensures m'.refs[s] == Count(m'.live, s)
    {
      CountRemove(m.live, ptr, s);
    }
  }

  lemma ClosedMappedExact(m: Memory, n: nat, ptr: int)
    requires RefsOk(m.live, m.refs) && MappedExact(m.live, n, m.driver.mapped) && ptr in m.live
    ensures MappedExact(Closed(m, n, ptr).live, n, Closed(m, n, ptr).driver.mapped)
  {
    var m' := Closed(m, n, ptr);
    forall p | p in m'.driver.mapped
      ensures MappedFor(m'.live, n, p)
    {
      assert MappedFor(m.live, n, p);
      var k, i :| k in m.live && 0 <= i < n && Segment(m.live[k], i) == p;
      assert k != ptr;
      assert Segment(m'.live[k], i) == p;
    }
  }

  lemma ClosedHandlesExact(m: Memory, n: nat, ptr: int)
    requires RefsOk(m.live, m.refs) && HandlesExact(m.live, m.driver.handles) && ptr in m.live
    ensures HandlesExact(Closed(m, n, ptr).live, Closed(m, n, ptr).driver.handles)
  {
    var m' := Closed(m, n, ptr);
    forall h | h in m'.driver.handles
      ensures HeldFor(m'.live, h)
    {
      assert HeldFor(m.live, h);
      var k :| k in m.live && h in m.live[k].handles;
      assert k != ptr;
      assert h in m'.live[k].handles;
    }
  }

  /** Closing keeps the accounts exact. */
  lemma ClosedIsExact(m: Memory, n: nat, ptr: int)
    requires Exact(m, n) && ptr in m.live
    ensures Exact(Closed(m, n, ptr), n)
  {
    ClosedIsSafe(m, n, ptr);
    ClosedRefsExact(m, n, ptr);
    ClosedMappedExact(m, n, ptr);
    ClosedHandlesExact(m, n, ptr);
  }

  /** A range is freed exactly by the close of its last live allocation. */
  lemma RangeFreedAtLastClose(m: Memory, n: nat, ptr: int)
    requires Exact(m, n) && ptr in m.live
    ensures var start := m.live[ptr].start;
            start !in Closed(m, n, ptr).driver.reserved <==>
            forall k :: k in m.live && m.live[k].start == start ==> k == ptr
  {
    var start := m.live[ptr].start;
    var peers := set k | k in m.live && m.live[k].start == start;
    ClosedRefsOk(m, n, ptr);
    if forall k :: k in m.live && m.live[k].start == start ==> k == ptr {
      assert peers == {ptr};
    }
  }

  // ---------------------------------------------------------------- runs

  datatype Event =
    | Opens(size: int, addr: int, handles: seq<int>)   // an open that succeeds
    | RollsBack(size: int)                             // an open that fails while mapping and cleans up after itself
    | Aborts(size: int, addr: int, lost: set<int>)     // an open that fails before mapping; handles may be lost
    | Leaks(mapped: map<int, Mapped>, lost: set<int>)  // clean-up calls that fail leave mappings and handles behind
    | Closes(ptr: int)                                 // a close that succeeds
    | FailsToClose(ptr: int, after: Driver, dropped: bool)  // a close that fails on the way, or at freeing the range

  ghost predicate Possible(m: Memory, n: nat, e: Event) {
    match e
    case Opens(size, addr, handles) => 0 < size && CanLocate(m, n, size, addr) && FreshHandles(m, n, handles)
    case RollsBack(size) => 0 < size
    case Aborts(size, addr, lost) => 0 < size && CanLocate(m, n, size, addr)
    case Leaks(mapped, lost) => mapped.Keys !! m.driver.mapped.Keys
    case Closes(ptr) => ptr in m.live && m.live[ptr].start in m.refs
    case FailsToClose(ptr, after, dropped) =>
      && ptr in m.live && KeepsOthers(m, n, ptr, after)
      && (dropped ==> m.live[ptr].start in m.refs && m.refs[m.live[ptr].start] == 1)
  }

  /** A close that fails has unmapped and released nothing but what belongs to its own allocation. */
  ghost predicate KeepsOthers(m: Memory, n: nat, ptr: int, after: Driver)
    requires ptr in m.live
  {
    && after.reserved == m.driver.reserved
    && (forall p :: p in m.driver.mapped && p !in Segments(m.live[ptr], n) ==>
          p in after.mapped && after.mapped[p] == m.driver.mapped[p])
    && (forall h :: h in m.driver.handles && h !in m.live[ptr].handles ==> h in after.handles)
  }

  ghost function After(m: Memory, n: nat, e: Event): Memory
    requires Possible(m, n, e)
  {
    match e
    case Opens(size, addr, handles) => Opened(Located(m, n, size, addr), n, size, handles)
    case RollsBack(_) => m
    case Aborts(size, addr, lost) =>
      var l := Located(m, n, size, addr);
      l.(driver := l.driver.(handles := l.driver.handles + lost))
    case Leaks(mapped, lost) =>
      m.(driver := m.driver.(mapped := m.driver.mapped + mapped, handles := m.driver.handles + lost))
    case Closes(ptr) => Closed(m, n, ptr)
    case FailsToClose(ptr, after, dropped) =>
      m.(live := m.live - {ptr}, driver := after,
         refs := if dropped then m.refs - {m.live[ptr].start} else m.refs)
  }

  lemma FailedCloseIsSafe(m: Memory, n: nat, ptr: int, after: Driver, dropped: bool)
    requires Safe(m, n) && Possible(m, n, FailsToClose(ptr, after, dropped))
    ensures Safe(After(m, n, FailsToClose(ptr, after, dropped)), n)
  {
    var m' := After(m, n, FailsToClose(ptr, after, dropped));
    ClosedMappedOk(m, n, ptr);
    ClosedHandlesOk(m, n, ptr);
    ClosedRefsOk(m, n, ptr);
    forall s | s in m.refs
      ensures Count(m'.live, s) <= m.refs[s]
    {
      CountRemove(m.live, ptr, s);
    }
    assert MappedOk(m'.live, n, after.mapped) by {
      forall k, i | k in m'.live && 0 <= i < n && |m'.live[k].handles| == n
        ensures Segment(m'.live[k], i) in after.mapped
        ensures after.mapped[Segment(m'.live[k], i)] == Mapped(m'.live[k].size, m'.live[k].handles[i])
      {
        assert Segment(m'.live[k], i) in m.driver.mapped - Segments(m.live[ptr], n);
      }
    }
    assert HandlesOk(m'.live, n, after.handles);
  }

  /** Whatever succeeds or fails, live allocations stay apart, mapped, and inside reserved ranges. */
  lemma EventKeepsSafe(m: Memory, n: nat, e: Event)
    requires Safe(m, n) && 0 < n && Possible(m, n, e)
    ensures Safe(After(m, n, e), n)
  {
    match e
    case Opens(size, addr, handles) =>
      LocatedIsSafe(m, n, size, addr);
      OpenedIsSafe(Located(m, n, size, addr), n, size, handles);
    case RollsBack(_) =>
    case Aborts(size, addr, lost) => LocatedIsSafe(m, n, size, addr);
    case Leaks(_, _) =>
    case Closes(ptr) => ClosedIsSafe(m, n, ptr);
    case FailsToClose(ptr, after, dropped) => FailedCloseIsSafe(m, n, ptr, after, dropped);
  }

  ghost predicate Run(n: nat, trace: seq<Memory>, events: seq<Event>) {
    && |trace| == |events| + 1
    && trace[0] == Empty()
    && forall t :: 0 <= t < |events| ==> Happens(n, trace[t], events[t], trace[t + 1])
  }

  ghost predicate Happens(n: nat, m: Memory, e: Event, m': Memory) {
    Possible(m, n, e) && m' == After(m, n, e)
  }

  /** Safety over every run, with driver failures anywhere. */
  lemma {:induction false} RunIsSafe(n: nat, trace: seq<Memory>, events: seq<Event>, t: nat)
    requires 0 < n && Run(n, trace, events) && t <= |events|
    ensures Safe(trace[t], n)
  {
    if t > 0 {
      RunIsSafe(n, trace, events, t - 1);
      assert Happens(n, trace[t - 1], events[t - 1], trace[t]);
      EventKeepsSafe(trace[t - 1], n, events[t - 1]);
    }
  }

  /** In every state of every run, the segments of live allocations are disjoint. */
  lemma LiveSegmentsNeverOverlap(n: nat, trace: seq<Memory>, events: seq<Event>, t: nat, k: int, i: nat, l: int, j: nat)
    requires 0 < n && Run(n, trace, events) && t <= |events|
    requires k in trace[t].live && l in trace[t].live && i < n && j < n && (k, i) != (l, j)
    ensures var m := trace[t]; Apart(Segment(m.live[k], i), m.live[k].size, Segment(m.live[l], j), m.live[l].size)
  {
    RunIsSafe(n, trace, events, t);
    SegmentsAreDisjoint(trace[t].live, n, trace[t].driver.reserved, k, i, l, j);
  }

  /** Each of them lies inside a range that is still reserved, and is mapped with its own size and handle. */
  lemma LiveSegmentsAreBacked(n: nat, trace: seq<Memory>, events: seq<Event>, t: nat, k: int, i: nat)
    requires 0 < n && Run(n, trace, events) && t <= |events| && k in trace[t].live && i < n
    ensures var m := trace[t];
            var a := m.live[k];
            && a.start in m.driver.reserved && |a.handles| == n
            && a.start <= Segment(a, i) && Segment(a, i) + a.size <= a.start + m.driver.reserved[a.start]
            && Segment(a, i) in m.driver.mapped && m.driver.mapped[Segment(a, i)] == Mapped(a.size, a.handles[i])
            && a.handles[i] in m.driver.handles
  {
    RunIsSafe(n, trace, events, t);
    SegmentInside(trace[t].live[k], n, trace[t].driver.reserved, i);
  }

  ghost predicate Clean(e: Event) {
    e.Opens? || e.RollsBack? || e.Closes?
  }

  /** A run of opens, rolled-back opens and closes leaks nothing; once all is closed, nothing is left. */
  lemma {:induction false} CleanRunIsExact(n: nat, trace: seq<Memory>, events: seq<Event>, t: nat)
    requires 0 < n && Run(n, trace, events) && t <= |events| && forall u :: 0 <= u < |events| ==> Clean(events[u])
    ensures Exact(trace[t], n)
    ensures trace[t].live == map[] ==> trace[t] == Empty()
  {
    if t == 0 {
      EmptyIsExact(n);
    } else {
      CleanRunIsExact(n, trace, events, t - 1);
      var m, e := trace[t - 1], events[t - 1];
      assert Clean(e) && Happens(n, m, e, trace[t]);
      match e
      case Opens(size, addr, handles) => OpenedIsExact(m, n, size, addr, handles);
      case RollsBack(_) =>
      case Closes(ptr) => ClosedIsExact(m, n, ptr);
    }
    if trace[t].live == map[] { NothingLiveIsEmpty(trace[t], n); }
  }
}
