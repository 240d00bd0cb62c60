// The size arithmetic of graphene_aligned_alloc and the clearing done by
// graphene_aligned_alloc0. The allocator calls themselves are foreign: their
// success is a parameter, and the bytes they hand back are given by `junk`.

module Alloc {

  import opened Common

  /** `(size_t) -1` on a 64-bit target. */
  const SizeMax: nat := 0xFFFF_FFFF_FFFF_FFFF

  type SizeT = n: nat | n <= SizeMax

  /** The allocator the build selected. Only `aligned_alloc` needs the
    * request rounded up to a multiple of the alignment. */
  datatype Backend = PosixMemalign | AlignedAllocFn | Memalign | Malloc

  /** NULL is returned, the process aborts, or a block of `realSize` bytes is
    * obtained. */
  datatype Outcome = Null | Abort | Block(realSize: nat)

  // ----- the overflow guard -----

  lemma MulMonotone(a: nat, b: nat, c: nat)
    requires a <= b
    ensures c * a <= c * b
  {
  }

  /** The guard `number > max_size / size` (C unsigned division) fires
    * exactly when size * number does not fit in a size_t. */
  lemma OverflowGuardExact(size: nat, number: nat)
    requires size > 0
    ensures number > SizeMax / size <==> size * number > SizeMax
  {
    var q, r := SizeMax / size, SizeMax % size;
    assert SizeMax == size * q + r && r < size;
    if number > q {
      MulMonotone(q + 1, number, size);
      assert size * (q + 1) == size * q + size;
    } else {
      MulMonotone(number, q, size);
    }
  }

  // ----- rounding up to the alignment -----

  /** The intended rounding: the next multiple of `alignment`. */
  function RoundUp(n: nat, alignment: nat): nat
    requires alignment > 0
  {
    if n % alignment != 0 then n + (alignment - n % alignment) else n
  }

  /** The rounding as written, in size_t arithmetic: the addition wraps
    * modulo 2^64. */
  function RoundUpWrapped(n: SizeT, alignment: SizeT): SizeT
    requires alignment > 0
  {
    if n % alignment != 0 then (n + (alignment - n % alignment)) % (SizeMax + 1) else n
  }

  lemma RoundUpIsNextMultiple(n: nat, alignment: nat)
    requires alignment > 0
    ensures RoundUp(n, alignment) % alignment == 0
    ensures n <= RoundUp(n, alignment) < n + alignment
    ensures n % alignment == 0 ==> RoundUp(n, alignment) == n
  {
    var q, r := n / alignment, n % alignment;
    assert n == alignment * q + r;
    if r != 0 {
      assert RoundUp(n, alignment) == alignment * (q + 1);
      MulModZero(alignment, q + 1);
    }
  }

  lemma MulModZero(a: nat, k: nat)
    requires a > 0
    ensures (a * k) % a == 0
  {
    var m := a * k;
    assert m == a * k + 0;
    DivModUnique(m, a, k, 0);
  }

  lemma DivModUnique(m: nat, a: nat, q: nat, r: nat)
    requires a > 0 && r < a && m == a * q + r
    ensures m % a == r && m / a == q
  {
    var q0, r0 := m / a, m % a;
    assert m == a * q0 + r0;
    if q0 > q {
      MulMonotone(q + 1, q0, a);
    } else if q0 < q {
      MulMonotone(q0 + 1, q, a);
    }
  }

  /** While the rounded size still fits, wrapping changes nothing. */
  lemma RoundUpWrappedAgrees(n: SizeT, alignment: SizeT)
    requires alignment > 0 && RoundUp(n, alignment) <= SizeMax
    ensures RoundUpWrapped(n, alignment) == RoundUp(n, alignment)
  {
  }

  /** A request just below SIZE_MAX wraps to zero bytes: SIZE_MAX bytes with
    * an alignment of 16 round up to 2^64, which is 0 in a size_t. */
  lemma RoundUpWrapsToZero()
    ensures RoundUpWrapped(SizeMax, 16) == 0
    ensures RoundUp(SizeMax, 16) == SizeMax + 1
  {
    assert SizeMax % 16 == 15;
  }

  /** The byte count the allocator is asked for, once the guard has passed,
    * as the code computes it. */
  function RequestAsWritten(real_size: SizeT, alignment: SizeT, backend: Backend): SizeT
    requires alignment > 0
  {
    if backend == AlignedAllocFn then RoundUpWrapped(real_size, alignment) else real_size
  }

  /** graphene_aligned_alloc as written. `assertsEnabled` is the absence of
    * G_DISABLE_ASSERT; `allocOk` says whether the foreign allocator
    * succeeded. */
  method AlignedAllocAsWritten(size: SizeT, number: SizeT, alignment: SizeT,
                               backend: Backend, assertsEnabled: bool, allocOk: bool)
    returns (o: Outcome)
    requires alignment > 0
    ensures (size == 0 || number == 0) ==> o == Null
    ensures size > 0 && number > 0 && size * number > SizeMax ==>
      o == (if assertsEnabled then Abort else Null)
    ensures size > 0 && number > 0 && size * number <= SizeMax ==>
      o == (if allocOk then Block(RequestAsWritten(size * number, alignment, backend))
            else if assertsEnabled then Abort else Null)
  {
    if size == 0 || number == 0 {
      return Null;
    }
    if number > SizeMax / size {
      OverflowGuardExact(size, number);
      if assertsEnabled {
        return Abort;
      }
      return Null;
    }
    OverflowGuardExact(size, number);
    var realSize: SizeT := size * number;
    if backend == AlignedAllocFn && realSize % alignment != 0 {
      var offset := realSize % alignment;
      realSize := (realSize + (alignment - offset)) % (SizeMax + 1);
    }
    if !allocOk {
      if assertsEnabled {
        return Abort;
      }
      return Null;
    }
    o := Block(realSize);
  }

  /** The rounding the aligned_alloc branch needs, with the overflow of the
    * rounded size treated like the overflow of size * number. */
  function Request(real_size: nat, alignment: nat, backend: Backend): Option<nat>
    requires alignment > 0
  {
    if backend != AlignedAllocFn then Some(real_size)
    else if RoundUp(real_size, alignment) > SizeMax then None
    else Some(RoundUp(real_size, alignment))
  }

  /** What the corrected allocation returns: NULL for a zero size or count,
    * abort (NULL without asserts) when size * number or its rounding does
    * not fit, and otherwise the allocator's block or its failure. */
  function AllocOutcome(size: SizeT, number: SizeT, alignment: SizeT,
                        backend: Backend, assertsEnabled: bool, allocOk: bool): Outcome
    requires alignment > 0
  {
    var failed := if assertsEnabled then Abort else Null;
    if size == 0 || number == 0 then Null
    else if size * number > SizeMax then failed
    else match Request(size * number, alignment, backend)
      case None => failed
      case Some(n) => if allocOk then Block(n) else failed
  }

  /** graphene_aligned_alloc with the rounding overflow checked: a block is
    * never smaller than size * number, fits in a size_t, and for
    * aligned_alloc is a multiple of the alignment. */
  method AlignedAlloc(size: SizeT, number: SizeT, alignment: SizeT,
                      backend: Backend, assertsEnabled: bool, allocOk: bool)
    returns (o: Outcome)
    requires alignment > 0
    ensures (size == 0 || number == 0) ==> o == Null
    ensures o.Block? ==> size * number <= o.realSize <= SizeMax
    ensures o.Block? ==> o.realSize < size * number + alignment
    ensures o.Block? && backend == AlignedAllocFn ==> o.realSize % alignment == 0
    ensures o.Block? && backend != AlignedAllocFn ==> o.realSize == size * number
    ensures size > 0 && number > 0 && size * number > SizeMax ==>
      o == (if assertsEnabled then Abort else Null)
    ensures o.Null? ==> size == 0 || number == 0 || !assertsEnabled
    ensures size > 0 && number > 0 && size * number <= SizeMax &&
            Request(size * number, alignment, backend).Some? ==>
      o == (if allocOk then Block(Request(size * number, alignment, backend).value)
            else if assertsEnabled then Abort else Null)
    ensures o == AllocOutcome(size, number, alignment, backend, assertsEnabled, allocOk)
  {
    if size == 0 || number == 0 {
      return Null;
    }
    OverflowGuardExact(size, number);
    if number > SizeMax / size {
      if assertsEnabled {
        return Abort;
      }
      return Null;
    }
    var realSize: nat := size * number;
    RoundUpIsNextMultiple(realSize, alignment);
    if backend == AlignedAllocFn && realSize % alignment != 0 {
      var offset := realSize % alignment;
      realSize := realSize + (alignment - offset);
      if realSize > SizeMax {
        if assertsEnabled {
          return Abort;
        }
        return Null;
      }
    }
    if !allocOk {
      if assertsEnabled {
        return Abort;
      }
      return Null;
    }
    o := Block(realSize);
  }

  /** graphene_aligned_alloc0 on top of the corrected allocation: its
    * outcome is the allocation's, and the block obtained is cleared over
    * the requested size * number bytes (not the rounded size); bytes past
    * that keep what the allocator left in them. NULL passes through. */
  method AlignedAlloc0(size: SizeT, number: SizeT, alignment: SizeT,
                       backend: Backend, assertsEnabled: bool, allocOk: bool,
                       junk: nat -> bv8)
    returns (o: Outcome, mem: array?<bv8>)
    requires alignment > 0
    ensures o == AllocOutcome(size, number, alignment, backend, assertsEnabled, allocOk)
    ensures (mem != null) <==> o.Block?
    ensures (size == 0 || number == 0) ==> mem == null
    ensures mem != null ==> mem.Length == o.realSize >= size * number
    ensures mem != null ==>
      forall i :: 0 <= i < mem.Length ==> mem[i] == if i < size * number then 0 else junk(i)
  {
    o := AlignedAlloc(size, number, alignment, backend, assertsEnabled, allocOk);
    if !o.Block? {
      return o, null;
    }
    mem := new bv8[o.realSize](i => junk(i));
    Memset(mem, size * number);
  }

  /** memset (mem, 0, n): the first n bytes become 0, the others stay. */
  method Memset(mem: array<bv8>, n: nat)
    requires n <= mem.Length
    modifies mem
    ensures forall k :: 0 <= k < n ==> mem[k] == 0
    ensures forall k :: n <= k < mem.Length ==> mem[k] == old(mem[k])
  {
    var i := 0;
    while i < n
      invariant 0 <= i <= n
      invariant forall k :: 0 <= k < i ==> mem[k] == 0
      invariant forall k :: i <= k < mem.Length ==> mem[k] == old(mem[k])
    {
      mem[i] := 0;
      i := i + 1;
    }
  }

  /** On the allocation as written, alloc0 would clear more than it got: for
    * size SIZE_MAX, number 1 and alignment 16 under aligned_alloc the guard
    * passes, the block requested is 0 bytes, and the memset covers SIZE_MAX
    * bytes of it. The corrected allocation refuses the same request. */
  lemma AsWrittenClearOverruns(assertsEnabled: bool, allocOk: bool)
    ensures SizeMax * 1 <= SizeMax
    ensures RequestAsWritten(SizeMax * 1, 16, AlignedAllocFn) == 0 < SizeMax * 1
    ensures !AllocOutcome(SizeMax, 1, 16, AlignedAllocFn, assertsEnabled, allocOk).Block?
  {
    RoundUpWrapsToZero();
  }
}
