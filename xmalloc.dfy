/**
 * The allocation wrappers of xmalloc.c. Each either hands back a usable block
 * or calls `fatal`; none ever returns a failure value. The C library calls
 * (malloc, calloc, realloc, free, vasprintf) are abstract: whether they
 * succeed is an input, and a block is a fresh Dafny array.
 */
module XMalloc {
  import opened Wrappers
  import opened CStrings

  /** Largest value of `size_t`; the model takes a 64-bit size_t. */
  const SIZE_T_MAX: nat := 0xFFFF_FFFF_FFFF_FFFF

  type SizeT = n: nat | n <= SIZE_T_MAX

  /** A wrapper's outcome: a block, or `fatal` with its message (the process exits 255). */
  datatype Alloc<T> = Fatal(msg: string) | Ok(block: T)

  /** The outcome of a guard that runs before the C library is called. */
  datatype Guard = Pass | Fail(msg: string)

  /** C's `a * b` on size_t: the product modulo 2^64. */
  function WrappedProduct(a: SizeT, b: SizeT): (p: SizeT)
  {
    (a * b) % (SIZE_T_MAX + 1)
  }

  /** Euclidean division turns the overflow test `m / n < s` into `n * s > m`. */
  lemma {:induction false} DivisionOverflowTest(m: nat, n: nat, s: nat)
    requires n > 0
    ensures m / n < s <==> n * s > m
  {
    var q, r := m / n, m % n;
    assert m == q * n + r && 0 <= r < n;
    if s <= q {
      MulMonotone(n, s, q);
    } else {
      MulMonotone(n, q + 1, s);
      assert n * (q + 1) == n * q + n;
    }
  }

  lemma MulMonotone(n: nat, a: nat, b: nat)
    requires a <= b
    ensures n * a <= n * b
  {
  }

  /** A wrapped product is the true product exactly when the true product fits. */
  lemma {:induction false} WrapExact(a: SizeT, b: SizeT)
    ensures a * b <= SIZE_T_MAX ==> WrappedProduct(a, b) == a * b
  {
  }

  /** A nonzero wrapped product means neither factor is zero. */
  lemma {:induction false} WrappedNonzeroFactors(a: SizeT, b: SizeT)
    requires WrappedProduct(a, b) != 0
    ensures a != 0 && b != 0
  {
  }

  /** The guard of `xcalloc` (xmalloc.c:60-63): any zero factor, then the overflow test. */
  function CallocGuard(nmemb: SizeT, size: SizeT): (g: Guard)
    ensures g.Pass? <==> nmemb > 0 && size > 0 && nmemb * size <= SIZE_T_MAX
    ensures g == Fail("xcalloc: zero size") <==> nmemb == 0 || size == 0
  {
    if size == 0 || nmemb == 0 then Fail("xcalloc: zero size")
    else if SIZE_T_MAX / nmemb < size then
      DivisionOverflowTest(SIZE_T_MAX, nmemb, size);
      Fail("xcalloc: nmemb * size > SIZE_T_MAX")
    else
      DivisionOverflowTest(SIZE_T_MAX, nmemb, size);
      Pass
  }

  /**
   * The guard of `xrealloc` (xmalloc.c:82-87). The product is computed with
   * wrap-around and tested for zero first; only then is `SIZE_T_MAX / nmemb`
   * evaluated, and the zero test makes that division safe. The guard passes
   * exactly when the TRUE product is nonzero and fits.
   */
  function ReallocGuard(nmemb: SizeT, size: SizeT): (g: Guard)
    ensures g.Pass? <==> 0 < nmemb * size <= SIZE_T_MAX
    ensures g.Pass? ==> WrappedProduct(nmemb, size) == nmemb * size
    ensures g == Fail("xrealloc: zero size") <==> WrappedProduct(nmemb, size) == 0
  {
    var newSize := WrappedProduct(nmemb, size);
    if newSize == 0 then
      WrapExact(nmemb, size);
      Fail("xrealloc: zero size")
    else
      WrappedNonzeroFactors(nmemb, size);
      DivisionOverflowTest(SIZE_T_MAX, nmemb, size);
      WrapExact(nmemb, size);
      if SIZE_T_MAX / nmemb < size then Fail("xrealloc: nmemb * size > SIZE_T_MAX")
      else Pass
  }

  /** A product that wraps to zero: xrealloc reports it as a zero size (xmalloc.c:84-85). */
  lemma WrapToZeroIsReportedAsZeroSize()
    ensures ReallocGuard(0x1_0000_0000, 0x1_0000_0000) == Fail("xrealloc: zero size")
    ensures 0x1_0000_0000 * 0x1_0000_0000 > SIZE_T_MAX
  {
    assert WrappedProduct(0x1_0000_0000, 0x1_0000_0000) == 0;
  }

  /** `xmalloc(size)` (xmalloc.c:35-49); `mallocOk` says whether malloc returned a block. */
  method XMalloc<T(0)>(size: SizeT, mallocOk: bool) returns (r: Alloc<array<T>>)
    ensures r.Ok? <==> size > 0 && mallocOk
    ensures size == 0 ==> r == Fatal("xmalloc: zero size")
    ensures r.Ok? ==> fresh(r.block) && r.block.Length == size
  {
    if size == 0 {
      return Fatal("xmalloc: zero size");
    }
    if !mallocOk {
      return Fatal("xmalloc: out of memory");
    }
    var a := new T[size];
    r := Ok(a);
  }

  /** `xcalloc(nmemb, size)` (xmalloc.c:55-72): a zero-filled block of nmemb * size bytes. */
  method XCalloc(nmemb: SizeT, size: SizeT, callocOk: bool) returns (r: Alloc<array<bv8>>)
    ensures r.Ok? <==> CallocGuard(nmemb, size).Pass? && callocOk
    ensures r.Ok? ==> fresh(r.block) && r.block.Length == nmemb * size
    ensures r.Ok? ==> forall k | 0 <= k < r.block.Length :: r.block[k] == 0
  {
    var g := CallocGuard(nmemb, size);
    if g.Fail? {
      return Fatal(g.msg);
    }
    if !callocOk {
      return Fatal("xcalloc: out of memory");
    }
    var a := new bv8[nmemb * size](_ => 0);
    r := Ok(a);
  }

  /**
   * `xrealloc(ptr, nmemb, size)` (xmalloc.c:78-102). With `ptr == null` it is
   * malloc of the product; otherwise the block is resized and keeps its
   * contents up to the smaller of the two sizes.
   */
  method XRealloc(ptr: array?<bv8>, nmemb: SizeT, size: SizeT, allocOk: bool)
    returns (r: Alloc<array<bv8>>)
    ensures r.Ok? <==> ReallocGuard(nmemb, size).Pass? && allocOk
    ensures r.Ok? ==> fresh(r.block) && r.block.Length == nmemb * size
    ensures r.Ok? && ptr != null ==>
      forall k | 0 <= k < r.block.Length && k < ptr.Length :: r.block[k] == ptr[k]
  {
    var g := ReallocGuard(nmemb, size);
    if g.Fail? {
      return Fatal(g.msg);
    }
    var newSize := WrappedProduct(nmemb, size);
    if !allocOk {
      return Fatal("xrealloc: out of memory");
    }
    var kept: seq<bv8> := if ptr == null then [] else ptr[..];
    var a := new bv8[newSize](k requires 0 <= k => if k < |kept| then kept[k] else 0);
    r := Ok(a);
  }

  /** `xfree(ptr)` (xmalloc.c:108-117): freeing NULL is fatal. */
  method XFree(ptr: array?<bv8>) returns (g: Guard)
    ensures g.Pass? <==> ptr != null
  {
    if ptr == null {
      return Fail("xfree: NULL pointer given as argument");
    }
    g := Pass;
  }

  /**
   * `strlcpy(dst, src, n)`: copies at most n - 1 characters and, when n > 0,
   * terminates with NUL; returns the length of `src`.
   */
  method StrlCpy(dst: array<char>, src: CString, n: nat) returns (len: nat)
    requires n <= dst.Length
    modifies dst
    ensures len == |src|
    ensures var c := if n == 0 then 0 else Min(|src|, n - 1);
      dst[..c] == src[..c] && (n > 0 ==> dst[c] == '\0') &&
      forall k | 0 <= k < dst.Length && (k > c || n == 0) :: dst[k] == old(dst[k])
  {
    if n == 0 {
      return |src|;
    }
    var c := Min(|src|, n - 1);
    var i := 0;
    while i < c
      invariant 0 <= i <= c
      invariant dst[..i] == src[..i]
      invariant forall k | i <= k < dst.Length :: dst[k] == old(dst[k])
    {
      dst[i] := src[i];
      i := i + 1;
    }
    dst[c] := '\0';
    len := |src|;
  }

  /** `xstrdup(str)` (xmalloc.c:123-136): a fresh buffer of |str| + 1 bytes holding str and NUL. */
  method XStrdup(str: CString, mallocOk: bool) returns (r: Alloc<array<char>>)
    requires |str| < SIZE_T_MAX
    ensures r.Ok? <==> mallocOk
    ensures r.Ok? ==> fresh(r.block) && r.block.Length == |str| + 1
    ensures r.Ok? ==> r.block[..|str|] == str && r.block[|str|] == '\0'
  {
    var len := |str| + 1;
    r := XMalloc<char>(len, mallocOk);
    if r.Fatal? {
      return;
    }
    var _ := StrlCpy(r.block, str, len);
    assert Min(|str|, len - 1) == |str|;
  }

  /** `xasprintf` (xmalloc.c:139-152): a negative vasprintf result or a NULL string is fatal. */
  function XAsprintf(printed: int, retIsNull: bool): (r: Alloc<nat>)
    ensures r.Ok? <==> printed >= 0 && !retIsNull
    ensures r.Ok? ==> r.block == printed
  {
    if printed < 0 || retIsNull then Fatal("xasprintf: could not allocate memory")
    else Ok(printed)
  }
}
