/** The CUDA driver calls the allocator makes. Any call may fail, and a failed call changes nothing. */
module CudaDriver {
  import opened MnnvlModel

  class Cuda {
    const reliable: bool     // calls fail only when they are used wrongly
    var reserved: map<int, int>
    var mapped: map<int, Mapped>
    var handles: set<int>

    constructor (reliable: bool)
      ensures this.reliable == reliable && State() == Driver(map[], map[], {})
    {
      this.reliable := reliable;
      reserved, mapped, handles := map[], map[], {};
    }

    ghost function State(): Driver
      reads this
    {
      Driver(reserved, mapped, handles)
    }

    /** The range is chosen by the driver and overlaps none that is reserved. */
    method AddressReserve(size: int) returns (ok: bool, addr: int)
      requires 0 < size
      modifies this
      ensures ok ==> FreshRange(old(reserved), addr, size)
      ensures State() == if ok then old(State()).(reserved := old(reserved)[addr := size]) else old(State())
    {
      addr := *;
      ok := *;
      ok := ok && 0 < addr && addr !in reserved
        && forall s | s in reserved :: s + reserved[s] <= addr || addr + size <= s;
      if ok {
        reserved := reserved[addr := size];
      }
    }

    method AddressFree(addr: int, size: int) returns (ok: bool)
      modifies this
      ensures ok ==> addr in old(reserved) && old(reserved)[addr] == size
      ensures reliable && addr in old(reserved) && old(reserved)[addr] == size ==> ok
      ensures State() == if ok then old(State()).(reserved := old(reserved) - {addr}) else old(State())
    {
      ok := *;
      ok := addr in reserved && reserved[addr] == size && (ok || reliable);
      if ok {
        reserved := reserved - {addr};
      }
    }

    /** A new memory handle: from `cuMemCreate` or from importing a peer's handle. */
    method NewHandle() returns (ok: bool, handle: int)
      modifies this
      ensures ok ==> handle !in old(handles)
      ensures State() == if ok then old(State()).(handles := old(handles) + {handle}) else old(State())
    {
      handle := *;
      ok := *;
      ok := ok && handle !in handles;
      if ok {
        handles := handles + {handle};
      }
    }

    method Release(handle: int) returns (ok: bool)
      modifies this
      ensures ok ==> handle in old(handles)
      ensures reliable && handle in old(handles) ==> ok
      ensures State() == if ok then old(State()).(handles := old(handles) - {handle}) else old(State())
    {
      ok := *;
      ok := handle in handles && (ok || reliable);
      if ok {
        handles := handles - {handle};
      }
    }

    method Map(ptr: int, size: int, handle: int) returns (ok: bool)
      modifies this
      ensures ok ==> ptr !in old(mapped) && handle in old(handles)
      ensures State() == if ok then old(State()).(mapped := old(mapped)[ptr := Mapped(size, handle)]) else old(State())
    {
      ok := *;
      ok := ok && ptr !in mapped && handle in handles;
      if ok {
        mapped := mapped[ptr := Mapped(size, handle)];
      }
    }

    method Unmap(ptr: int, size: int) returns (ok: bool)
      modifies this
      ensures ok ==> ptr in old(mapped) && old(mapped)[ptr].size == size
      ensures reliable && ptr in old(mapped) && old(mapped)[ptr].size == size ==> ok
      ensures State() == if ok then old(State()).(mapped := old(mapped) - {ptr}) else old(State())
    {
      ok := *;
      ok := ptr in mapped && mapped[ptr].size == size && (ok || reliable);
      if ok {
        mapped := mapped - {ptr};
      }
    }

    /** Calls that only succeed or fail: exporting and exchanging handles, setting access. */
    method Attempt() returns (ok: bool)
    {
      ok := *;
    }
  }
}

/** `MnnvlMemory`: opening and closing allocations, with the failure paths of every driver call. */
module MnnvlMemory {
  import opened Arith
  import opened Results
  import opened MnnvlModel
  import opened CudaDriver

  datatype OpenOutcome =
    | OpenedAt(ptr: int, stride: int)
    | ReserveFailed
    | CreateFailed
    | ExportFailed
    | ExchangeFailed
    | MappingFailed(clean: bool)       // whether every clean-up call succeeded
  {
    /** A failure after the address was settled and before the mapping loop. */
    predicate EarlyFailure() {
      CreateFailed? || ExportFailed? || ExchangeFailed?
    }
  }

  /** The handles that an early failure leaves behind: none, the new one, or the new one if it cannot be released. */
  ghost predicate Lost(outcome: OpenOutcome, lost: set<int>, before: set<int>, reliable: bool) {
    && lost !! before
    && (outcome.CreateFailed? ==> lost == {})
    && (outcome.ExportFailed? ==> |lost| == 1)
    && (outcome.ExchangeFailed? ==> |lost| <= 1 && (reliable ==> lost == {}))
  }

  datatype CloseOutcome = ClosedOk | UnknownPointer | CloseFailed

  // ---------------------------------------------------------------- what the mapping loop has done so far

  ghost predicate Distinct(slots: seq<Option<int>>) {
    forall i, j :: 0 <= i < |slots| && 0 <= j < |slots| && slots[i].Some? && slots[i] == slots[j] ==> i == j
  }

  ghost function Held(slots: seq<Option<int>>): set<int> {
    set i | 0 <= i < |slots| && slots[i].Some? :: slots[i].value
  }

  /** `after` is `before` plus mappings at exactly the given, distinct and new, addresses. */
  ghost predicate Grown(before: map<int, Mapped>, after: map<int, Mapped>, ptrs: seq<int>) {
    && (forall i :: 0 <= i < |ptrs| ==> ptrs[i] !in before && ptrs[i] in after)
    && (forall i, j :: 0 <= i < j < |ptrs| ==> ptrs[i] != ptrs[j])
    && (forall p :: p in before ==> p in after && after[p] == before[p])
    && (forall p :: p in after ==> p in before || p in ptrs)
  }

  lemma GrownStep(before: map<int, Mapped>, after: map<int, Mapped>, ptrs: seq<int>, p: int, v: Mapped)
    requires Grown(before, after, ptrs) && p !in after
    ensures Grown(before, after[p := v], ptrs + [p])
  {
  }

  lemma GrownShrinks(before: map<int, Mapped>, after: map<int, Mapped>, ptrs: seq<int>, p: int)
    requires Grown(before, after, ptrs + [p])
    ensures Grown(before, after - {p}, ptrs)
  {
    var all := ptrs + [p];
    assert all[|ptrs|] == p;
    assert forall i :: 0 <= i < |ptrs| ==> all[i] == ptrs[i];
    forall q | q in after - {p}
      ensures q in before || q in ptrs
    {
      assert q in before || q in all;
    }
  }

  lemma HeldStep(slots: seq<Option<int>>, i: nat, x: int)
    requires i < |slots| && slots[i].None? && Distinct(slots) && x !in Held(slots)
    ensures Held(slots[i := Some(x)]) == Held(slots) + {x}
    ensures Distinct(slots[i := Some(x)])
  {
    var after := slots[i := Some(x)];
    forall h | h in Held(slots)
      ensures h in Held(after)
    {
      var k :| 0 <= k < |slots| && slots[k].Some? && slots[k].value == h;
      assert after[k] == slots[k];
    }
    assert after[i].value in Held(after);
    assert forall k :: 0 <= k < |slots| && slots[k].Some? ==> slots[k].value in Held(slots);
    forall a, b | 0 <= a < |after| && 0 <= b < |after| && after[a].Some? && after[a] == after[b]
      ensures a == b
    {
    }
  }

  lemma HeldTail(slots: seq<Option<int>>, k: nat)
    requires k < |slots| && Distinct(slots)
    ensures slots[k].None? ==> Held(slots[k..]) == Held(slots[k + 1..])
    ensures slots[k].Some? ==>
              Held(slots[k..]) == Held(slots[k + 1..]) + {slots[k].value} && slots[k].value !in Held(slots[k + 1..])
    ensures Held(slots[k..]) <= Held(slots)
  {
  }

  ghost function Values(slots: seq<Option<int>>): (r: seq<int>)
    requires forall i :: 0 <= i < |slots| ==> slots[i].Some?
    ensures |r| == |slots| && forall i :: 0 <= i < |slots| ==> r[i] == slots[i].value
  {
    seq(|slots|, i requires 0 <= i < |slots| => slots[i].value)
  }

  /** Once every rank is mapped, the mappings are exactly those of the new allocation. */
  lemma {:induction false} AllMapped(before: map<int, Mapped>, after: map<int, Mapped>, ptrs: seq<int>,
                                     a: Allocation, n: nat)
    requires Grown(before, after, ptrs) && |ptrs| == |a.handles| == n && 0 < a.stride
    requires forall i :: 0 <= i < n ==> ptrs[i] == Segment(a, i) && after[ptrs[i]] == Mapped(a.size, a.handles[i])
    ensures after == before + SegmentMap(a, n)
  {
    var made := SegmentMap(a, n);
    forall i | 0 <= i < n
      ensures ptrs[i] in made && made[ptrs[i]] == after[ptrs[i]]
    {
      SegmentMapAt(a, n, i);
    }
    forall p
      ensures p in made <==> p in ptrs
    {
      SegmentMapKeys(a, n, p);
      if p in ptrs {
        var i :| 0 <= i < n && ptrs[i] == p;
      }
      if p in Segments(a, n) {
        var i :| 0 <= i < n && Segment(a, i) == p;
        assert ptrs[i] == p;
      }
    }
    forall p
      ensures p in after <==> p in before + made
    {
    }
    forall p | p in after
      ensures after[p] == (before + made)[p]
    {
      if p in made {
        var i :| 0 <= i < n && ptrs[i] == p;
      }
    }
    SameMappings(after, before + made);
  }

  lemma SameMappings<K, V>(a: map<K, V>, b: map<K, V>)
    requires forall p :: p in a <==> p in b
    requires forall p :: p in a && p in b ==> a[p] == b[p]
    ensures a == b
  {
  }

  /** The held handles are distinct and, apart from the own one, new; together with `before` they are all there are. */
  ghost predicate Holds(slots: seq<Option<int>>, n: nat, rank: nat, own: int, before: set<int>, now: set<int>)
    requires rank < n
  {
    && |slots| == n && slots[rank] == Some(own) && own in before && Distinct(slots)
    && (forall i :: 0 <= i < n && i != rank && slots[i].Some? ==> slots[i].value !in before)
    && now == before + Held(slots)
  }

  ghost predicate Sized(mapped: map<int, Mapped>, ptrs: seq<int>, size: int) {
    forall i :: 0 <= i < |ptrs| ==> ptrs[i] in mapped && mapped[ptrs[i]].size == size
  }

  /** The first `|ptrs|` ranks are mapped, each at its own segment and with its own handle. */
  ghost predicate AtSegments(start: int, stride: int, offset: int, size: int, slots: seq<Option<int>>, ptrs: seq<int>,
                             mapped: map<int, Mapped>)
  {
    && |ptrs| <= |slots|
    && forall i :: 0 <= i < |ptrs| ==>
         && ptrs[i] == start + i * stride + offset && slots[i].Some?
         && ptrs[i] in mapped && mapped[ptrs[i]] == Mapped(size, slots[i].value)
  }

  lemma AtSegmentsStep(start: int, stride: int, offset: int, size: int, slots: seq<Option<int>>, ptrs: seq<int>,
                       mapped: map<int, Mapped>, handle: int)
    requires AtSegments(start, stride, offset, size, slots, ptrs, mapped) && |ptrs| < |slots|
    requires start + |ptrs| * stride + offset !in mapped
    ensures var p := start + |ptrs| * stride + offset;
            AtSegments(start, stride, offset, size, slots[|ptrs| := Some(handle)], ptrs + [p],
                       mapped[p := Mapped(size, handle)])
  {
  }

  class MnnvlMemory {
    const n: nat                     // size of the communicator
    const rank: nat                  // own rank in it
    const granularity: nat
    const driver: Cuda
    var start: int
    var stride: int
    var offset: int
    var live: map<int, Allocation>
    var refs: map<int, int>

    ghost function View(): Memory
      reads this, driver
    {
      Memory(start, stride, offset, live, refs, driver.State())
    }

    ghost predicate Valid()
      reads this, driver
    {
      rank < n && 0 < granularity && Safe(View(), n)
    }

    constructor (n: nat, rank: nat, granularity: nat, driver: Cuda)
      requires rank < n && 0 < granularity && driver.State() == Driver(map[], map[], {})
      ensures Valid() && View() == Empty() && this.n == n && this.driver == driver
    {
      this.n, this.rank, this.granularity, this.driver := n, rank, granularity, driver;
      start, stride, offset, live, refs := 0, 0, 0, map[], map[];
    }

    /** Finds room for `size` bytes per rank, in a new range if the current one is too small. */
    method Locate(size: int) returns (ok: bool, ghost addr: int)
      requires 0 < n && 0 < size
      modifies this`start, this`stride, this`offset, driver
      ensures ok ==> CanLocate(old(View()), n, size, addr) && View() == Located(old(View()), n, size, addr)
      ensures !ok ==> View() == old(View()) && NeedsRange(old(View()), size)
    {
      addr := 0;
      if offset + size <= stride {
        return true, addr;
      }
      var newStride := (size + FABRIC_PAGE_SIZE - 1) / FABRIC_PAGE_SIZE * FABRIC_PAGE_SIZE;
      assert newStride == RoundUp(size, FABRIC_PAGE_SIZE);
      MulMono(1, n, newStride);
      var reservedOk, ptr := driver.AddressReserve(newStride * n);
      addr := ptr;
      ok := reservedOk;
      if ok {
        assert newStride * n == n * newStride;
        start, stride, offset := ptr, newStride, 0;
      }
    }

    /** One round of the mapping loop: import the peer's handle, map its segment, set access. */
    method MapOne(i: nat, rankPtr: int, size: int, own: int, slots: seq<Option<int>>, ptrs: seq<int>,
                  ghost handles: set<int>, ghost mapped: map<int, Mapped>)
      returns (ok: bool, slots': seq<Option<int>>, ptrs': seq<int>)
      requires rank < n && i < n && (i == rank || (i < |slots| && slots[i].None?))
      requires Holds(slots, n, rank, own, handles, driver.handles)
      requires Grown(mapped, driver.mapped, ptrs) && Sized(driver.mapped, ptrs, size)
      modifies driver
      ensures driver.reserved == old(driver.reserved)
      ensures Holds(slots', n, rank, own, handles, driver.handles)
      ensures Grown(mapped, driver.mapped, ptrs') && Sized(driver.mapped, ptrs', size)
      ensures ok ==> slots'[i].Some? && slots' == slots[i := slots'[i]]
      ensures ok ==> ptrs' == ptrs + [rankPtr]
      ensures ok ==> rankPtr !in old(driver.mapped)
                     && driver.mapped == old(driver.mapped)[rankPtr := Mapped(size, slots'[i].value)]
    {
      slots', ptrs' := slots, ptrs;
      if i != rank {
        var imported, handle := driver.NewHandle();
        if !imported {
          return false, slots', ptrs';
        }
        HeldStep(slots, i, handle);
        slots' := slots[i := Some(handle)];
      }
      ok := driver.Map(rankPtr, size, slots'[i].value);
      if ok {
        GrownStep(mapped, old(driver.mapped), ptrs, rankPtr, Mapped(size, slots'[i].value));
        ptrs' := ptrs + [rankPtr];
        ok := driver.Attempt();
      }
    }

    /**
     The mapping loop: one segment per rank. Stops at the first call that fails, reporting which handles
     are held and which addresses are mapped.
     */
    method MapSegments(size: int, own: int) returns (ok: bool, slots: seq<Option<int>>, ptrs: seq<int>)
      requires rank < n && own in driver.handles
      modifies driver
      ensures driver.reserved == old(driver.reserved)
      ensures Holds(slots, n, rank, own, old(driver.handles), driver.handles)
      ensures Grown(old(driver.mapped), driver.mapped, ptrs) && Sized(driver.mapped, ptrs, size)
      ensures ok ==> |ptrs| == n && (forall i :: 0 <= i < n ==> slots[i].Some?)
      ensures ok ==> AtSegments(start, stride, offset, size, slots, ptrs, driver.mapped)
    {
      slots := seq(n, i => if i == rank then Some(own) else None);
      ptrs := [];
      assert Held(slots) == {own} by { assert slots[rank].value in Held(slots); }
      var i := 0;
      while i < n
        invariant 0 <= i <= n
        invariant driver.reserved == old(driver.reserved)
        invariant Holds(slots, n, rank, own, old(driver.handles), driver.handles)
        invariant forall k :: 0 <= k < n ==> (slots[k].Some? <==> k < i || k == rank)
        invariant |ptrs| == i && Grown(old(driver.mapped), driver.mapped, ptrs) && Sized(driver.mapped, ptrs, size)
        invariant AtSegments(start, stride, offset, size, slots, ptrs, driver.mapped)
      {
        var rankPtr := start + stride * i + offset;
        assert stride * i == i * stride;
        ghost var slots0, ptrs0, mapped0 := slots, ptrs, driver.mapped;
        ok, slots, ptrs := MapOne(i, rankPtr, size, own, slots, ptrs, old(driver.handles), old(driver.mapped));
        if !ok {
          return;
        }
        AtSegmentsStep(start, stride, offset, size, slots0, ptrs0, mapped0, slots[i].value);
        i := i + 1;
      }
      ok := true;
    }

    /** Unmaps the given addresses in reverse order, going on when a call fails. */
    method UnmapAll(ptrs: seq<int>, size: int, ghost mapped: map<int, Mapped>) returns (clean: bool)
      requires Grown(mapped, driver.mapped, ptrs) && Sized(driver.mapped, ptrs, size)
      modifies driver
      ensures driver.reserved == old(driver.reserved) && driver.handles == old(driver.handles)
      ensures forall p :: p in mapped ==> p in driver.mapped && driver.mapped[p] == mapped[p]
      ensures clean ==> driver.mapped == mapped
    {
      clean := true;
      var k := |ptrs|;
      while k > 0
        invariant 0 <= k <= |ptrs|
        invariant driver.reserved == old(driver.reserved) && driver.handles == old(driver.handles)
        invariant forall p :: p in mapped ==> p in driver.mapped && driver.mapped[p] == mapped[p]
        invariant clean ==> Grown(mapped, driver.mapped, ptrs[..k])
      {
        k := k - 1;
        ghost var mapped' := driver.mapped;
        var ok := driver.Unmap(ptrs[k], size);
        assert ptrs[..k + 1] == ptrs[..k] + [ptrs[k]];
        clean := clean && ok;
        if clean { GrownShrinks(mapped, mapped', ptrs[..k], ptrs[k]); }
      }
      assert clean ==> driver.mapped == mapped by {
        if clean {
          assert ptrs[..0] == [];
          forall p
            ensures p in driver.mapped <==> p in mapped
          {
          }
          forall p | p in mapped
            ensures driver.mapped[p] == mapped[p]
          {
          }
          SameMappings(driver.mapped, mapped);
        }
      }
    }

    /** Releases every handle that is held, going on when a call fails. */
    method ReleaseAll(slots: seq<Option<int>>, ghost handles: set<int>) returns (clean: bool)
      requires Distinct(slots) && Held(slots) !! handles && driver.handles == handles + Held(slots)
      modifies driver
      ensures driver.reserved == old(driver.reserved) && driver.mapped == old(driver.mapped)
      ensures handles <= driver.handles
      ensures clean ==> driver.handles == handles
    {
      clean := true;
      var k := 0;
      while k < |slots|
        invariant 0 <= k <= |slots|
        invariant driver.reserved == old(driver.reserved) && driver.mapped == old(driver.mapped)
        invariant handles <= driver.handles
        invariant clean ==> driver.handles == handles + Held(slots[k..])
      {
        HeldTail(slots, k);
        if slots[k].Some? {
          var ok := driver.Release(slots[k].value);
          clean := clean && ok;
        }
        k := k + 1;
      }
    }

    /**
     The clean-up of a failed mapping loop: unmap, release, and give back a range that was reserved for this
     call. `previous` holds the fields from before that reservation.
     */
    method Undo(size: int, slots: seq<Option<int>>, ptrs: seq<int>, reservedNew: bool, previous: (int, int, int),
                ghost mapped: map<int, Mapped>, ghost handles: set<int>)
      returns (clean: bool, restored: bool)
      requires Grown(mapped, driver.mapped, ptrs) && Sized(driver.mapped, ptrs, size)
      requires Distinct(slots) && Held(slots) !! handles && driver.handles == handles + Held(slots)
      modifies this`start, this`stride, this`offset, driver
      ensures restored ==> reservedNew && (start, stride, offset) == previous
                           && driver.reserved == old(driver.reserved) - {old(start)}
      ensures !restored ==> (start, stride, offset) == old((start, stride, offset))
                            && driver.reserved == old(driver.reserved)
      ensures forall p :: p in mapped ==> p in driver.mapped && driver.mapped[p] == mapped[p]
      ensures handles <= driver.handles
      ensures clean ==> driver.mapped == mapped && driver.handles == handles && restored == reservedNew
    {
      var unmapped := UnmapAll(ptrs, size, mapped);
      var released := ReleaseAll(slots, handles);
      clean, restored := unmapped && released, false;
      if reservedNew {
        restored := driver.AddressFree(start, n * stride);
        clean := clean && restored;
        if restored {
          start, stride, offset := previous.0, previous.1, previous.2;
        }
      }
    }

    /** Creates the own handle and exchanges it with the peers; `own` is live afterwards only on success. */
    method CreateHandle() returns (failure: Option<OpenOutcome>, own: int, ghost lost: set<int>)
      modifies driver
      ensures driver.reserved == old(driver.reserved) && driver.mapped == old(driver.mapped)
      ensures failure.None? ==> own !in old(driver.handles) && driver.handles == old(driver.handles) + {own}
      ensures failure.Some? ==> driver.handles == old(driver.handles) + lost
      ensures failure.Some? ==> failure.value.EarlyFailure()
      ensures failure.Some? ==> Lost(failure.value, lost, old(driver.handles), driver.reliable)
    {
      lost := {};
      var created;
      created, own := driver.NewHandle();
      if !created {
        return Some(CreateFailed), own, lost;
      }
      var exported := driver.Attempt();
      if !exported {
        lost := {own};
        return Some(ExportFailed), own, lost;
      }
      var exchanged := driver.Attempt();
      if !exchanged {
        var released := driver.Release(own);
        lost := if released then {} else {own};
        return Some(ExchangeFailed), own, lost;
      }
      failure := None;
    }

    /** Records a mapped allocation and advances the bump pointer. */
    method Record(size: int, handles: seq<int>) returns (ptr: int)
      modifies this`live, this`refs, this`offset
      ensures ptr == start + old(offset) && offset == old(offset) + size
      ensures live == old(live)[ptr := Allocation(size, handles, start, stride, old(offset))]
      ensures refs == old(refs)[start := Refs(old(refs), start) + 1]
    {
      ptr := start + offset;
      live := live[ptr := Allocation(size, handles, start, stride, offset)];
      refs := refs[start := (if start in refs then refs[start] else 0) + 1];
      offset := offset + size;
    }

    /** Rolls back a mapping loop that failed: event `e`, then whatever the clean-up could not give back. */
    method FailMapping(size: int, own: int, slots: seq<Option<int>>, ptrs: seq<int>, reservedNew: bool,
                       previous: (int, int, int), ghost m0: Memory, ghost addr: int)
      returns (clean: bool, ghost e: Event, ghost leak: Event)
      requires 0 < size && CanLocate(m0, n, size, addr) && reservedNew == NeedsRange(m0, size)
      requires previous == (m0.start, m0.stride, m0.offset)
      requires View() == Located(m0, n, size, addr).(driver := driver.State())
      requires driver.reserved == Located(m0, n, size, addr).driver.reserved
      requires rank < n && own !in m0.driver.handles
      requires Holds(slots, n, rank, own, m0.driver.handles + {own}, driver.handles)
      requires Grown(m0.driver.mapped, driver.mapped, ptrs) && Sized(driver.mapped, ptrs, size)
      modifies this`start, this`stride, this`offset, driver
      ensures Follows(m0, n, e, leak, View())
      ensures clean ==> View() == m0
    {
      HeldIsNew(slots, n, rank, own, m0.driver.handles, driver.handles);
      var restored;
      clean, restored := Undo(size, slots, ptrs, reservedNew, previous, m0.driver.mapped, m0.driver.handles);
      e := if reservedNew && !restored then Aborts(size, addr, {}) else RollsBack(size);
      leak := Leaks(driver.mapped - m0.driver.mapped.Keys, driver.handles);
      Undone(m0, n, size, addr, Located(m0, n, size, addr), View(), restored, clean, e, leak);
    }

    /** The bookkeeping of a mapping loop that succeeded. */
    method Complete(size: int, handles: seq<int>, ghost m0: Memory, ghost addr: int)
      returns (ptr: int, ghost e: Event)
      requires 0 < size && CanLocate(m0, n, size, addr) && FreshHandles(m0, n, handles)
      requires var l := Located(m0, n, size, addr);
               View() == l.(driver := Driver(l.driver.reserved,
                                             l.driver.mapped + SegmentMap(NewAllocation(l, size, handles), n),
                                             l.driver.handles + set h | h in handles))
      modifies this`live, this`refs, this`offset
      ensures e.Opens? && e.size == size && Follows(m0, n, e, Leaks(map[], {}), View())
      ensures ptr == start + Located(m0, n, size, addr).offset && ptr in live && live[ptr].stride == stride
    {
      ptr := Record(size, handles);
      e := Opens(size, addr, handles);
      OpenFollows(m0, n, size, addr, handles, View());
    }

    method Succeed(size: int, own: int, slots: seq<Option<int>>, ghost ptrs: seq<int>, ghost m0: Memory,
                   ghost addr: int)
      returns (ptr: int, ghost e: Event)
      requires 0 < size && CanLocate(m0, n, size, addr) && Room(Located(m0, n, size, addr), size)
      requires View() == Located(m0, n, size, addr).(driver := driver.State())
      requires driver.reserved == Located(m0, n, size, addr).driver.reserved
      requires rank < n && own !in m0.driver.handles && |ptrs| == n
      requires Holds(slots, n, rank, own, m0.driver.handles + {own}, driver.handles)
      requires forall i :: 0 <= i < n ==> slots[i].Some?
      requires Grown(m0.driver.mapped, driver.mapped, ptrs)
      requires AtSegments(start, stride, offset, size, slots, ptrs, driver.mapped)
      modifies this`live, this`refs, this`offset
      ensures e.Opens? && e.size == size && Follows(m0, n, e, Leaks(map[], {}), View())
      ensures ptr == start + Located(m0, n, size, addr).offset && ptr in live && live[ptr].stride == stride
    {
      var handles := seq(n, i requires 0 <= i < n && |slots| == n && slots[i].Some? => slots[i].value);
      LoopDone(View(), Located(m0, n, size, addr), n, rank, size, own, slots, ptrs, handles);
      ptr, e := Complete(size, handles, m0, addr);
    }

    /** The mapping loop and, on success, the bookkeeping; otherwise the clean-up. */
    method MapAndRecord(size: int, own: int, reservedNew: bool, previous: (int, int, int), ghost m0: Memory,
                        ghost addr: int)
      returns (outcome: OpenOutcome, ghost e: Event, ghost leak: Event)
      requires 0 < size && CanLocate(m0, n, size, addr) && reservedNew == NeedsRange(m0, size)
      requires previous == (m0.start, m0.stride, m0.offset) && Room(Located(m0, n, size, addr), size)
      requires rank < n && own !in m0.driver.handles
      requires View() == Located(m0, n, size, addr).(driver := driver.State())
      requires driver.State() == Located(m0, n, size, addr).driver.(handles := m0.driver.handles + {own})
      modifies this, driver
      ensures Follows(m0, n, e, leak, View())
      ensures outcome.OpenedAt? ==> e.Opens? && e.size == size && leak == Leaks(map[], {})
      ensures outcome.OpenedAt? ==>
                var l := Located(m0, n, size, addr);
                && outcome == OpenedAt(l.start + l.offset, l.stride)
                && outcome.ptr in live && live[outcome.ptr].stride == l.stride
      ensures outcome.MappingFailed? || outcome.OpenedAt?
      ensures outcome == MappingFailed(true) ==> View() == m0
      ensures outcome.MappingFailed? ==> live == m0.live && refs == m0.refs
    {
      var mapped, slots, ptrs := MapSegments(size, own);
      if mapped {
        var ptr;
        leak := Leaks(map[], {});
        ptr, e := Succeed(size, own, slots, ptrs, m0, addr);
        return OpenedAt(ptr, stride), e, leak;
      }
      var clean;
      clean, e, leak := FailMapping(size, own, slots, ptrs, reservedNew, previous, m0, addr);
      outcome := MappingFailed(clean);
    }

    /** Opens `size` bytes per rank, where `size` is a multiple of the allocation granularity. */
    method OpenAligned(size: int) returns (outcome: OpenOutcome, ghost e: Event, ghost leak: Event)
      requires rank < n && 0 < size && Locatable(View(), n, size)
      modifies this, driver
      ensures Follows(old(View()), n, e, leak, View())
      ensures outcome.OpenedAt? ==> e.Opens? && e.size == size && leak == Leaks(map[], {})
      ensures outcome.OpenedAt? ==>
                outcome.ptr in live && outcome.ptr !in old(live) && outcome.stride == live[outcome.ptr].stride
      ensures outcome.ReserveFailed? || outcome == MappingFailed(true) ==> View() == old(View())
      ensures outcome.EarlyFailure() ==> e.Aborts? && leak == Leaks(map[], {})
      ensures outcome.EarlyFailure() ==> Lost(outcome, e.lost, old(driver.handles), driver.reliable)
      ensures outcome.EarlyFailure() ==> (View() == old(View()) <==> !NeedsRange(old(View()), size) && e.lost == {})
      ensures outcome.MappingFailed? ==> live == old(live) && refs == old(refs)
    {
      ghost var m0 := View();
      leak := Leaks(map[], {});
      var previous := (start, stride, offset);
      var reservedNew := offset + size > stride;
      var located, addr := Locate(size);
      if !located {
        e := RollsBack(size);
        RollbackFollows(m0, n, size);
        return ReserveFailed, e, leak;
      }
      var failure, own, lost := CreateHandle();
      if failure.Some? {
        e := Aborts(size, addr, lost);
        AbortFollows(m0, n, size, addr, lost, View());
        return failure.value, e, leak;
      }
      outcome, e, leak := MapAndRecord(size, own, reservedNew, previous, m0, addr);
    }

    /**
     Opens an allocation of `size` bytes per rank. Whatever call fails, the new state is the old one after
     event `e` and then `leak`; in particular a mapping loop that fails and cleans up changes nothing at all. A
     failure before that loop is not rolled back: the state is the old one exactly when the current range had room and
     no handle was lost. A failed export always loses the new handle; a failed exchange only if its release fails.
     */
    method Open(size: int) returns (outcome: OpenOutcome, ghost e: Event, ghost leak: Event)
      requires Valid() && 0 < size
      modifies this, driver
      ensures Valid()
      ensures Follows(old(View()), n, e, leak, View())
      ensures outcome.OpenedAt? ==> e.Opens? && e.size == RoundUp(size, granularity) && leak == Leaks(map[], {})
      ensures outcome.OpenedAt? ==>
                outcome.ptr in live && outcome.ptr !in old(live) && outcome.stride == live[outcome.ptr].stride
      ensures outcome.ReserveFailed? || outcome == MappingFailed(true) ==> View() == old(View())
      ensures outcome.EarlyFailure() ==> e.Aborts? && leak == Leaks(map[], {})
      ensures outcome.EarlyFailure() ==> Lost(outcome, e.lost, old(driver.handles), driver.reliable)
      ensures outcome.EarlyFailure() ==>
                (View() == old(View()) <==> !NeedsRange(old(View()), RoundUp(size, granularity)) && e.lost == {})
      ensures outcome.ExportFailed? ==> View() != old(View())
      ensures outcome.CreateFailed? || (outcome.ExchangeFailed? && driver.reliable) ==>
                (View() == old(View()) <==> !NeedsRange(old(View()), RoundUp(size, granularity)))
      ensures outcome.MappingFailed? ==> live == old(live) && refs == old(refs)
    {
      var aligned := (size + granularity - 1) / granularity * granularity;
      assert aligned == RoundUp(size, granularity);
      ghost var m0 := View();
      SafeIsLocatable(m0, n, aligned);
      outcome, e, leak := OpenAligned(aligned);
      FollowsKeepsSafe(m0, n, e, leak, View());
    }

    /** Unmaps and releases rank by rank; stops at the first call that fails. */
    method ReleaseSegments(a: Allocation) returns (ok: bool, ghost unmapped: nat, ghost released: nat)
      requires |a.handles| == n
      modifies driver
      ensures driver.reserved == old(driver.reserved)
      ensures released <= unmapped <= n
      ensures driver.mapped == old(driver.mapped) - Segments(a, unmapped)
      ensures driver.handles == old(driver.handles) - FirstHandles(a, released)
      ensures ok ==> unmapped == released == n
      ensures driver.reliable && Releasable(a, n, old(driver.State())) ==> ok
    {
      unmapped, released := 0, 0;
      var i := 0;
      while i < n
        invariant 0 <= i <= n && unmapped == released == i
        invariant driver.reserved == old(driver.reserved)
        invariant driver.mapped == old(driver.mapped) - Segments(a, i)
        invariant driver.handles == old(driver.handles) - FirstHandles(a, i)
      {
        var rankPtr := a.start + i * a.stride + a.offset;
        SegmentsStep(a, i);
        if Releasable(a, n, old(driver.State())) { NotYetReleased(a, n, old(driver.State()), i); }
        ok := driver.Unmap(rankPtr, a.size);
        if !ok {
          return;
        }
        unmapped := i + 1;
        assert driver.mapped == old(driver.mapped) - Segments(a, i + 1);
        ok := driver.Release(a.handles[i]);
        if !ok {
          return;
        }
        released := i + 1;
        i := i + 1;
      }
      ok := true;
    }

    /** Drops the reference of a closed allocation and, with the last one, the range. */
    method DropReference(a: Allocation) returns (ok: bool)
      requires a.start in refs && a.start in driver.reserved && driver.reserved[a.start] == n * a.stride
      modifies this`start, this`stride, this`offset, this`refs, driver
      ensures driver.mapped == old(driver.mapped) && driver.handles == old(driver.handles)
      ensures old(refs)[a.start] != 1 ==> ok && refs == old(refs)[a.start := old(refs)[a.start] - 1]
      ensures old(refs)[a.start] == 1 ==> refs == old(refs) - {a.start}
      ensures driver.reserved ==
              if ok && old(refs)[a.start] == 1 then old(driver.reserved) - {a.start} else old(driver.reserved)
      ensures (start, stride, offset) ==
              if ok && old(refs)[a.start] == 1 && a.start == old(start) then (0, 0, 0) else old((start, stride, offset))
      ensures driver.reliable ==> ok
    {
      refs := refs[a.start := refs[a.start] - 1];
      if refs[a.start] != 0 {
        return true;
      }
      refs := refs - {a.start};
      ok := driver.AddressFree(a.start, n * a.stride);
      if ok && a.start == start {
        start, stride, offset := 0, 0, 0;
      }
    }

    /**
     Closes an allocation. On a reliable driver a close of a live pointer always succeeds: every mapping and
     every handle it gives back is still there, and given back once. A failed close harms no other allocation.
     */
    method Close(ptr: int) returns (outcome: CloseOutcome, ghost e: Event)
      requires Valid()
      modifies this, driver
      ensures Valid()
      ensures outcome.UnknownPointer? <==> ptr !in old(live)
      ensures outcome.UnknownPointer? ==> View() == old(View())
      ensures outcome.ClosedOk? ==> e == Closes(ptr)
      ensures outcome.CloseFailed? ==> e.FailsToClose? && e.ptr == ptr
      ensures ptr in old(live) ==> Possible(old(View()), n, e) && View() == After(old(View()), n, e)
      ensures driver.reliable && ptr in old(live) ==> outcome.ClosedOk?
    {
      ghost var m0 := View();
      e := Closes(ptr);
      if ptr !in live {
        return UnknownPointer, e;
      }
      var a := live[ptr];
      live := live - {ptr};
      LiveIsReleasable(m0, n, ptr);
      var ok, unmapped, released := ReleaseSegments(a);
      if !ok {
        e := FailsToClose(ptr, driver.State(), false);
        ReleaseStopped(m0, n, ptr, unmapped, released, View());
        return CloseFailed, e;
      }
      ok := DropReference(a);
      if !ok {
        e := FailsToClose(ptr, driver.State(), true);
        RangeNotFreed(m0, n, ptr, View());
        return CloseFailed, e;
      }
      DroppedIsClosed(m0, n, ptr, View());
      CloseSucceeded(m0, n, ptr, View());
      return ClosedOk, e;
    }
  }

  // ---------------------------------------------------------------- releasing an allocation

  ghost function FirstHandles(a: Allocation, k: nat): set<int>
    requires k <= |a.handles|
  {
    set h | h in a.handles[..k]
  }

  /** Every segment is mapped and every handle held, each once. */
  ghost predicate Releasable(a: Allocation, n: nat, d: Driver) {
    && |a.handles| == n && 0 < a.stride
    && (forall i :: 0 <= i < n ==> Segment(a, i) in d.mapped && d.mapped[Segment(a, i)].size == a.size)
    && (forall i :: 0 <= i < n ==> a.handles[i] in d.handles)
    && (forall i, j :: 0 <= i < n && 0 <= j < n && a.handles[i] == a.handles[j] ==> i == j)
  }

  lemma LiveIsReleasable(m: Memory, n: nat, ptr: int)
    requires Safe(m, n) && ptr in m.live
    ensures Releasable(m.live[ptr], n, m.driver)
    ensures m.live[ptr].start in m.refs && m.live[ptr].start in m.driver.reserved
    ensures m.driver.reserved[m.live[ptr].start] == n * m.live[ptr].stride
  {
  }

  lemma SegmentsStep(a: Allocation, i: nat)
    requires i < |a.handles|
    ensures Segments(a, i + 1) == Segments(a, i) + {Segment(a, i)}
    ensures FirstHandles(a, i + 1) == FirstHandles(a, i) + {a.handles[i]}
  {
  }

  /** What the first rounds of the release loop gave back does not include what round `i` gives back. */
  lemma NotYetReleased(a: Allocation, n: nat, d: Driver, i: nat)
    requires Releasable(a, n, d) && i < n
    ensures Segment(a, i) !in Segments(a, i)
    ensures a.handles[i] !in FirstHandles(a, i)
  {
  }

  lemma AllReleased(a: Allocation, n: nat)
    requires |a.handles| == n
    ensures FirstHandles(a, n) == set h | h in a.handles
  {
  }

  lemma PartlyReleased(m: Memory, n: nat, ptr: int, unmapped: nat, released: nat, after: Driver)
    requires ptr in m.live && |m.live[ptr].handles| == n && unmapped <= n && released <= n
    requires after.reserved == m.driver.reserved
    requires after.mapped == m.driver.mapped - Segments(m.live[ptr], unmapped)
    requires after.handles == m.driver.handles - FirstHandles(m.live[ptr], released)
    ensures KeepsOthers(m, n, ptr, after)
  {
  }

  /** A close that stops while releasing is an event of the model. */
  lemma ReleaseStopped(m0: Memory, n: nat, ptr: int, unmapped: nat, released: nat, m: Memory)
    requires Safe(m0, n) && 0 < n && ptr in m0.live && unmapped <= n && released <= n
    requires |m0.live[ptr].handles| == n && m == m0.(live := m0.live - {ptr}, driver := m.driver)
    requires m.driver.reserved == m0.driver.reserved
    requires m.driver.mapped == m0.driver.mapped - Segments(m0.live[ptr], unmapped)
    requires m.driver.handles == m0.driver.handles - FirstHandles(m0.live[ptr], released)
    ensures var e := FailsToClose(ptr, m.driver, false);
            Possible(m0, n, e) && m == After(m0, n, e) && Safe(m, n)
  {
    PartlyReleased(m0, n, ptr, unmapped, released, m.driver);
    EventKeepsSafe(m0, n, FailsToClose(ptr, m.driver, false));
  }

  /** So is one that cannot free the range of its last allocation. */
  lemma RangeNotFreed(m0: Memory, n: nat, ptr: int, m: Memory)
    requires Safe(m0, n) && 0 < n && ptr in m0.live && |m0.live[ptr].handles| == n
    requires m0.live[ptr].start in m0.refs && m0.refs[m0.live[ptr].start] == 1
    requires m == m0.(live := m0.live - {ptr}, refs := m0.refs - {m0.live[ptr].start}, driver := m.driver)
    requires m.driver.reserved == m0.driver.reserved
    requires m.driver.mapped == m0.driver.mapped - Segments(m0.live[ptr], n)
    requires m.driver.handles == m0.driver.handles - FirstHandles(m0.live[ptr], n)
    ensures var e := FailsToClose(ptr, m.driver, true);
            Possible(m0, n, e) && m == After(m0, n, e) && Safe(m, n)
  {
    PartlyReleased(m0, n, ptr, n, n, m.driver);
    EventKeepsSafe(m0, n, FailsToClose(ptr, m.driver, true));
  }

  /** The counters, the ranges and the current range after the reference of an allocation at `at` was dropped. */
  ghost predicate Dropped(m0: Memory, m: Memory, at: int)
    requires at in m0.refs
  {
    if m0.refs[at] == 1 then
      && m.refs == m0.refs - {at} && m.driver.reserved == m0.driver.reserved - {at}
      && (m.start, m.stride, m.offset) == if at == m0.start then (0, 0, 0) else (m0.start, m0.stride, m0.offset)
    else
      && m.refs == m0.refs[at := m0.refs[at] - 1] && m.driver.reserved == m0.driver.reserved
      && (m.start, m.stride, m.offset) == (m0.start, m0.stride, m0.offset)
  }

  lemma DroppedIsClosed(m0: Memory, n: nat, ptr: int, m: Memory)
    requires ptr in m0.live && |m0.live[ptr].handles| == n && m0.live[ptr].start in m0.refs
    requires m.live == m0.live - {ptr} && Dropped(m0, m, m0.live[ptr].start)
    requires m.driver.mapped == m0.driver.mapped - Segments(m0.live[ptr], n)
    requires m.driver.handles == m0.driver.handles - FirstHandles(m0.live[ptr], n)
    ensures m == Closed(m0, n, ptr)
  {
    AllReleased(m0.live[ptr], n);
  }

  /** And one that succeeds. */
  lemma CloseSucceeded(m0: Memory, n: nat, ptr: int, m: Memory)
    requires Safe(m0, n) && 0 < n && ptr in m0.live && m0.live[ptr].start in m0.refs && m == Closed(m0, n, ptr)
    ensures Possible(m0, n, Closes(ptr)) && m == After(m0, n, Closes(ptr)) && Safe(m, n)
  {
    EventKeepsSafe(m0, n, Closes(ptr));
  }

  /** The new state is the old one after event `e`, and then whatever was left behind. */
  ghost predicate Follows(m0: Memory, n: nat, e: Event, leak: Event, m: Memory) {
    Possible(m0, n, e) && leak.Leaks? && Possible(After(m0, n, e), n, leak) && m == After(After(m0, n, e), n, leak)
  }

  lemma FollowsKeepsSafe(m0: Memory, n: nat, e: Event, leak: Event, m: Memory)
    requires Safe(m0, n) && 0 < n && Follows(m0, n, e, leak, m)
    ensures Safe(m, n)
  {
    EventKeepsSafe(m0, n, e);
    EventKeepsSafe(After(m0, n, e), n, leak);
  }

  lemma RollbackFollows(m0: Memory, n: nat, size: int)
    requires 0 < size
    ensures Follows(m0, n, RollsBack(size), Leaks(map[], {}), m0)
  {
  }

  lemma AbortFollows(m0: Memory, n: nat, size: int, addr: int, lost: set<int>, m: Memory)
    requires 0 < size && CanLocate(m0, n, size, addr)
    requires var l := Located(m0, n, size, addr); m == l.(driver := l.driver.(handles := l.driver.handles + lost))
    ensures Follows(m0, n, Aborts(size, addr, lost), Leaks(map[], {}), m)
  {
  }

  lemma OpenFollows(m0: Memory, n: nat, size: int, addr: int, handles: seq<int>, m: Memory)
    requires 0 < size && CanLocate(m0, n, size, addr) && FreshHandles(m0, n, handles)
    requires m == Opened(Located(m0, n, size, addr), n, size, handles)
    ensures Follows(m0, n, Opens(size, addr, handles), Leaks(map[], {}), m)
  {
    NoLeak(m, n);
  }

  /** Wherever the driver puts a new range, there is room in it and its key is not in use. */
  ghost predicate Locatable(m: Memory, n: nat, size: int)
    requires 0 < size
  {
    forall addr {:trigger Located(m, n, size, addr)} :: CanLocate(m, n, size, addr) ==>
      var l := Located(m, n, size, addr); Room(l, size) && l.start + l.offset !in m.live
  }

  lemma SafeIsLocatable(m: Memory, n: nat, size: int)
    requires Safe(m, n) && 0 < n && 0 < size
    ensures Locatable(m, n, size)
  {
    forall addr | CanLocate(m, n, size, addr)
      ensures var l := Located(m, n, size, addr); Room(l, size) && l.start + l.offset !in m.live
    {
      LocatedIsSafe(m, n, size, addr);
      NewKeyIsFresh(Located(m, n, size, addr), n, size);
    }
  }

  lemma NoLeak(m: Memory, n: nat)
    ensures Possible(m, n, Leaks(map[], {})) && After(m, n, Leaks(map[], {})) == m
  {
  }

  lemma HeldIsNew(slots: seq<Option<int>>, n: nat, rank: nat, own: int, before: set<int>, now: set<int>)
    requires rank < n && own !in before && Holds(slots, n, rank, own, before + {own}, now)
    ensures Held(slots) !! before && now == before + Held(slots)
  {
  }

  /** What is left after a clean-up is a rolled-back or aborted open, plus whatever the clean-up could not give back. */
  lemma Undone(m0: Memory, n: nat, size: int, addr: int, l: Memory, m: Memory, restored: bool, clean: bool,
               e: Event, leak: Event)
    requires 0 < size && CanLocate(m0, n, size, addr) && l == Located(m0, n, size, addr)
    requires m.live == m0.live && m.refs == m0.refs
    requires restored ==> NeedsRange(m0, size) && (m.start, m.stride, m.offset) == (m0.start, m0.stride, m0.offset)
                          && m.driver.reserved == l.driver.reserved - {addr}
    requires !restored ==> (m.start, m.stride, m.offset) == (l.start, l.stride, l.offset)
                           && m.driver.reserved == l.driver.reserved
    requires forall p :: p in l.driver.mapped ==> p in m.driver.mapped && m.driver.mapped[p] == l.driver.mapped[p]
    requires l.driver.handles <= m.driver.handles
    requires clean ==> m.driver.mapped == l.driver.mapped && m.driver.handles == l.driver.handles
    requires clean ==> restored == NeedsRange(m0, size)
    requires e == if NeedsRange(m0, size) && !restored then Aborts(size, addr, {}) else RollsBack(size)
    requires leak == Leaks(m.driver.mapped - l.driver.mapped.Keys, m.driver.handles)
    ensures Follows(m0, n, e, leak, m)
    ensures clean ==> m == m0
  {
    var mid := After(m0, n, e);
    assert restored ==> l.driver.reserved - {addr} == m0.driver.reserved;
    assert mid.driver.mapped == l.driver.mapped && mid.driver.handles == l.driver.handles;
    var left := mid.driver.mapped + (m.driver.mapped - l.driver.mapped.Keys);
    forall p
      ensures p in left <==> p in m.driver.mapped
    {
    }
    forall p | p in left
      ensures left[p] == m.driver.mapped[p]
    {
    }
    SameMappings(left, m.driver.mapped);
    assert mid.driver.handles + m.driver.handles == m.driver.handles;
  }

  /** The handles of a completed loop are distinct and new. */
  lemma HandlesAreFresh(slots: seq<Option<int>>, n: nat, rank: nat, own: int, before: set<int>, now: set<int>,
                        handles: seq<int>)
    requires rank < n && own !in before && Holds(slots, n, rank, own, before + {own}, now)
    requires (forall i :: 0 <= i < n ==> slots[i].Some?) && handles == Values(slots)
    ensures now == before + set h | h in handles
    ensures forall i :: 0 <= i < n ==> handles[i] !in before
    ensures forall i, j :: 0 <= i < n && 0 <= j < n && handles[i] == handles[j] ==> i == j
  {
  }

  /** A completed mapping loop holds exactly the mappings and handles of a successful open. */
  lemma {:induction false} LoopDone(m: Memory, l: Memory, n: nat, rank: nat, size: int, own: int,
                                    slots: seq<Option<int>>, ptrs: seq<int>, handles: seq<int>)
    requires rank < n && own !in l.driver.handles && |ptrs| == n && Room(l, size)
    requires m == l.(driver := m.driver) && m.driver.reserved == l.driver.reserved
    requires Holds(slots, n, rank, own, l.driver.handles + {own}, m.driver.handles)
    requires (forall i :: 0 <= i < n ==> slots[i].Some?) && handles == Values(slots)
    requires Grown(l.driver.mapped, m.driver.mapped, ptrs)
    requires AtSegments(l.start, l.stride, l.offset, size, slots, ptrs, m.driver.mapped)
    ensures FreshHandles(l, n, handles)
    ensures m == l.(driver := Driver(l.driver.reserved,
                                     l.driver.mapped + SegmentMap(NewAllocation(l, size, handles), n),
                                     l.driver.handles + set h | h in handles))
  {
    HandlesAreFresh(slots, n, rank, own, l.driver.handles, m.driver.handles, handles);
    AllMapped(l.driver.mapped, m.driver.mapped, ptrs, NewAllocation(l, size, handles), n);
  }
}
