/**
 * The growable arena of server/scas_linear_allocator.c.  An allocator
 * reserves `max_size` bytes of address space, keeps its own three-pointer
 * header at the start, and commits pages behind a bump cursor.  Every
 * address is an offset from the start of the reservation (the allocator's
 * own address); `mmap`, `mprotect` and `munmap` are assumed to succeed, as
 * the source asserts they do, and their effect is the `enabledEnd` and
 * `mapped` fields.
 */
module LinearAllocator {
  import opened Wrappers
  import opened Arithmetic

  /** 2^64: one more than the largest `size_t`. */
  const SIZE_T_LIMIT: nat := 0x1_0000_0000_0000_0000

  /** DEFAULT_ALLOCATOR_SIZE of server/scas_linear_allocator.h. */
  const DEFAULT_ALLOCATOR_SIZE: nat := 65536

  lemma SizeLimitIsPowerOfTwo()
    ensures IsPowerOfTwo(SIZE_T_LIMIT)
  {
    Double(1);
    Square(2);
    Square(4);
    Square(16);
    Square(256);
    Square(65536);
    Square(4294967296);
  }

  /** `x & ~(m - 1)`: for a power of two m, clearing the low bits rounds x down to a multiple of m. */
  function RoundDown(x: nat, m: nat): nat
    requires m > 0
  {
    x - x % m
  }

  /**
   * `(size + m - 1) & ~(m - 1)` computed in `size_t`: the sum wraps modulo
   * 2^64 before the mask is applied, and a wrapped sum rounds down to 0.
   */
  function AlignUp(size: nat, m: nat): (r: nat)
    requires IsPowerOfTwo(m) && m < SIZE_T_LIMIT && size < SIZE_T_LIMIT
    ensures size + m - 1 < SIZE_T_LIMIT ==> r % m == 0 && size <= r < size + m
    ensures size + m - 1 >= SIZE_T_LIMIT ==> r == 0
  {
    var sum := (size + m - 1) % SIZE_T_LIMIT;
    RoundDownOfSum(size, m, sum);
    RoundDown(sum, m)
  }

  lemma RoundDownOfSum(size: nat, m: nat, sum: nat)
    requires 0 < m < SIZE_T_LIMIT && size < SIZE_T_LIMIT && sum == (size + m - 1) % SIZE_T_LIMIT
    ensures size + m - 1 < SIZE_T_LIMIT ==> RoundDown(sum, m) % m == 0 && size <= RoundDown(sum, m) < size + m
    ensures size + m - 1 >= SIZE_T_LIMIT ==> RoundDown(sum, m) == 0
  {
    var q := sum / m;
    assert sum == q * m + sum % m;
    MulMod(q, m);
    if size + m - 1 >= SIZE_T_LIMIT {
      DivModUnique(sum, m, 0, sum);
    }
  }

  class Allocator {
    /** `sysconf(_SC_PAGESIZE)`. */
    const pageSize: nat
    /** `sizeof(void *)`. */
    const wordSize: nat

    /** `allocator->ptr`: the cursor. */
    var ptr: nat
    /** `allocator->enabled_region_end`: the end of the committed pages. */
    var enabledEnd: nat
    /** `allocator->heap_limit`: the end of the reservation. */
    var heapLimit: nat
    /** The reservation has not been released by `Destroy`. */
    var mapped: bool

    /** `sizeof(struct scas_linear_allocator_t)`: three pointers. */
    function HeaderSize(): nat {
      3 * wordSize
    }

    ghost predicate Valid()
      reads this
    {
      && IsPowerOfTwo(pageSize) && pageSize < SIZE_T_LIMIT
      && IsPowerOfTwo(wordSize)
      && 0 < HeaderSize() < pageSize
      && IsPowerOfTwo(heapLimit) && heapLimit < SIZE_T_LIMIT
      && HeaderSize() <= ptr <= enabledEnd
      && ptr % wordSize == 0
      && pageSize <= enabledEnd
      && enabledEnd % pageSize == 0
      && enabledEnd <= if heapLimit < pageSize then pageSize else heapLimit
    }

    /**
     * `scas_enable_pages`: commits `size` bytes from `memory`, rounded up by
     * the same wrapping page mask, and returns the end of what it committed.
     */
    function EnablePages(memory: nat, size: nat): (r: nat)
      requires IsPowerOfTwo(pageSize) && pageSize < SIZE_T_LIMIT && size < SIZE_T_LIMIT
      ensures size + pageSize - 1 < SIZE_T_LIMIT ==>
                (r - memory) % pageSize == 0 && memory + size <= r < memory + size + pageSize
    {
      memory + AlignUp(size, pageSize)
    }

    /** `scas_linear_allocator_create`. */
    constructor Create(maxSize: nat, pageSize: nat, wordSize: nat)
      requires IsPowerOfTwo(maxSize) && maxSize < SIZE_T_LIMIT
      requires IsPowerOfTwo(pageSize) && pageSize < SIZE_T_LIMIT
      requires IsPowerOfTwo(wordSize) && 3 * wordSize < pageSize
      ensures Valid() && mapped
      ensures this.pageSize == pageSize && this.wordSize == wordSize
      ensures ptr == HeaderSize()
      ensures enabledEnd == pageSize
      ensures heapLimit == maxSize
    {
      this.pageSize := pageSize;
      this.wordSize := wordSize;
      new;
      SizeLimitIsPowerOfTwo();
      PowerOfTwoBelow(pageSize, SIZE_T_LIMIT);
      enabledEnd := EnablePages(0, HeaderSize());
      MultipleBelow(enabledEnd, pageSize, pageSize);
      if enabledEnd < pageSize {
        DivModUnique(enabledEnd, pageSize, 0, enabledEnd);
      }
      ptr := HeaderSize();
      heapLimit := maxSize;
      mapped := true;
      MulMod(3, wordSize);
      if heapLimit >= pageSize {
        PowerOfTwoDivides(pageSize, heapLimit);
      }
    }

    /**
     * `scas_linear_allocator_alloc`: returns the old cursor and bumps it by
     * the word-aligned size, committing pages as needed.  A request that
     * would reach the end of the reservation is an assertion failure.
     */
    method Alloc(size: nat) returns (r: Status<nat>)
      requires Valid() && mapped && size < SIZE_T_LIMIT
      modifies this
      ensures Valid() && mapped && heapLimit == old(heapLimit)
      ensures r.Abort? <==> old(ptr) + AlignUp(size, wordSize) >= heapLimit
      ensures r.Abort? ==> ptr == old(ptr) && enabledEnd == old(enabledEnd)
      ensures r.Ok? ==> r.value == old(ptr) && ptr == old(ptr) + AlignUp(size, wordSize)
      ensures r.Ok? ==> enabledEnd == if ptr <= old(enabledEnd) then old(enabledEnd)
                                      else EnablePages(old(enabledEnd), ptr - old(enabledEnd))
      ensures r.Ok? && size + wordSize - 1 < SIZE_T_LIMIT ==> r.value + size <= ptr
    {
      SizeLimitIsPowerOfTwo();
      PowerOfTwoBelow(wordSize, pageSize);
      var aligned := AlignUp(size, wordSize);
      var mem := ptr;
      var newTop := mem + aligned;
      if newTop >= heapLimit {
        return Abort("new_top < allocator->heap_limit");
      }
      if size + wordSize - 1 < SIZE_T_LIMIT {
        SumMultiple(ptr, aligned, wordSize);
      }
      if newTop > enabledEnd {
        var committed := EnablePages(enabledEnd, newTop - enabledEnd);
        SumMultiple(enabledEnd, committed - enabledEnd, pageSize);
        if heapLimit >= pageSize {
          PowerOfTwoDivides(pageSize, heapLimit);
          MultipleBelow(committed, heapLimit, pageSize);
        }
        enabledEnd := committed;
      }
      ptr := newTop;
      r := Ok(mem);
    }
  }

  /**
   * `scas_linear_allocator_destroy`: NULL is ignored; otherwise the whole
   * reservation, `heap_limit - allocator` bytes, is unmapped.
   */
  method Destroy(a: Allocator?) returns (released: nat)
    modifies if a == null then {} else {a}
    ensures a == null ==> released == 0
    ensures a != null ==> released == old(a.heapLimit) && !a.mapped
    ensures a != null ==> a.ptr == old(a.ptr) && a.enabledEnd == old(a.enabledEnd) && a.heapLimit == old(a.heapLimit)
  {
    if a == null {
      return 0;
    }
    released := a.heapLimit;
    a.mapped := false;
  }
}
