/** `vk_wrapguard.c` and the rounding of `vk_huge.c`: sizes computed in 64 wrapping bits. */
module WrapGuard {
  import opened Machine

  /** `1UL << (sizeof(size_t) * 4)` */
  const MUL_NO_OVERFLOW: int := 0x1_0000_0000

  const HUGE_PAGE: size_t := 2 * 1024 * 1024

  /** Addition and multiplication as the machine does them. */
  function Add64(a: size_t, b: size_t): size_t {
    (a + b) % TWO_TO_THE_64
  }

  function Mul64(a: size_t, b: size_t): size_t {
    (a * b) % TWO_TO_THE_64
  }

  /** `vk_wrapguard_mult`: a division is only paid for when one factor is large. */
  predicate MultFits(a: size_t, b: size_t) {
    !((a >= MUL_NO_OVERFLOW || b >= MUL_NO_OVERFLOW) && a > 0 && SIZE_MAX / a < b)
  }

  /** `vk_wrapguard_add` */
  predicate AddFits(a: size_t, b: size_t) {
    !(Add64(a, b) < a || Add64(a, b) < b)
  }

  lemma ProductGrows(a: nat, b: nat, c: nat, d: nat)
    requires a <= c && b <= d
    ensures a * b <= c * d
  {
    assert a * b <= c * b <= c * d;
  }

  lemma QuotientBound(n: nat, a: nat, b: nat)
    requires a > 0
    ensures n / a < b <==> n < a * b
  {
    var q := n / a;
    assert a * q <= n < a * q + a;
    if q < b {
      ProductGrows(a, q + 1, a, b);
      assert a * (q + 1) == a * q + a;
    } else {
      ProductGrows(a, b, a, q);
    }
  }

  /** The guard rejects a product exactly when it does not fit, for every pair of inputs. */
  lemma MultFitsIff(a: size_t, b: size_t)
    ensures MultFits(a, b) <==> a * b <= SIZE_MAX
  {
    if a < MUL_NO_OVERFLOW && b < MUL_NO_OVERFLOW {
      ProductGrows(a, b, MUL_NO_OVERFLOW - 1, MUL_NO_OVERFLOW - 1);
    } else if a > 0 {
      QuotientBound(SIZE_MAX, a, b);
    }
  }

  /** The guard rejects a sum exactly when it does not fit. */
  lemma AddFitsIff(a: size_t, b: size_t)
    ensures AddFits(a, b) <==> a + b <= SIZE_MAX
  {
    if a + b > SIZE_MAX {
      assert (a + b) % TWO_TO_THE_64 == a + b - TWO_TO_THE_64;
    }
  }

  /** `vk_safe_mult` */
  method SafeMult(a: size_t, b: size_t) returns (r: Option<size_t>)
    ensures r == if a * b <= SIZE_MAX then Some(a * b) else None
  {
    MultFitsIff(a, b);
    if !MultFits(a, b) {
      return None;
    }
    r := Some(Mul64(a, b));
  }

  /** `vk_safe_add` */
  method SafeAdd(a: size_t, b: size_t) returns (r: Option<size_t>)
    ensures r == if a + b <= SIZE_MAX then Some(a + b) else None
  {
    AddFitsIff(a, b);
    if !AddFits(a, b) {
      return None;
    }
    r := Some(Add64(a, b));
  }

  /** How many pages of size `page` hold `len` bytes. */
  function Pages(len: nat, page: nat): nat
    requires page > 0
  {
    if len % page == 0 then len / page else len / page + 1
  }

  /** The length of the pages that hold `len` bytes, one page at a time. */
  function RoundUp(len: nat, page: nat): nat
    requires page > 0
  {
    if len == 0 then 0
    else if len <= page then page
    else page + RoundUp(len - page, page)
  }

  /** Counting pages by division gives the same length. */
  lemma {:induction false} RoundUpIsPages(len: nat, page: nat)
    requires page > 0
    ensures RoundUp(len, page) == Pages(len, page) * page
  {
    if len > page {
      RoundUpIsPages(len - page, page);
      DivStep(len, page);
      Distribute(Pages(len - page, page), 1, page);
    } else if len == page {
      DivUnique(len, page, 1, 0);
    } else {
      DivUnique(len, page, 0, len);
    }
  }

  lemma Distribute(a: int, b: int, c: int)
    ensures (a + b) * c == a * c + b * c
  {
  }

  lemma DivStep(len: nat, page: nat)
    requires 0 < page < len
    ensures (len - page) / page == len / page - 1 && (len - page) % page == len % page
  {
    var q, r := len / page, len % page;
    assert len == q * page + r;
    Distribute(q - 1, 1, page);
    assert q >= 1;
    DivUnique(len - page, page, q - 1, r);
  }

  /** Quotient and remainder are unique. */
  lemma DivUnique(m: nat, page: nat, q: nat, r: nat)
    requires r < page && m == q * page + r
    ensures m / page == q && m % page == r
  {
    var d, s := m / page, m % page;
    assert m == d * page + s;
    Distribute(q, 1, page);
    Distribute(d, 1, page);
    if d > q {
      ProductGrows(q + 1, page, d, page);
    } else if d < q {
      ProductGrows(d + 1, page, q, page);
    }
  }

  /** Rounding up gives the least page multiple that is not below the length. */
  lemma {:induction false} RoundUpIsLeast(len: nat, page: nat, other: nat)
    requires page > 0
    ensures len <= RoundUp(len, page) < len + page
    ensures len <= other * page ==> RoundUp(len, page) <= other * page
  {
    if len > page {
      if len <= other * page {
        Distribute(other - 1, 1, page);
        assert other >= 1;
        RoundUpIsLeast(len - page, page, other - 1);
      } else {
        RoundUpIsLeast(len - page, page, 0);
      }
    } else if 0 < len <= other * page {
      ProductGrows(1, page, other, page);
    }
  }

  /** The page-aligned length of `nmemb * count` bytes, unless a `size_t` cannot hold it. */
  function AlignedLen(nmemb: size_t, count: size_t, page: nat): Option<size_t>
    requires page > 0
  {
    var len := RoundUp(nmemb * count, page);
    if len <= SIZE_MAX then Some(len) else None
  }

  /** `vk_safe_pagelen` and `vk_safe_hugepagelen`: divide, then count a partial page. */
  method SafePageLen(nmemb: size_t, count: size_t, page: size_t) returns (r: Option<size_t>)
    requires page > 0
    ensures r == if nmemb * count <= SIZE_MAX then Some(Pages(nmemb * count, page)) else None
  {
    var len := SafeMult(nmemb, count);
    if len.None? {
      return None;
    }
    var pagelen := len.value / page;
    DivMod(len.value, page);
    if Mul64(pagelen, page) < len.value {
      PartialPage(len.value, page);
      pagelen := Add64(pagelen, 1);
    }
    r := Some(pagelen);
  }

  lemma DivMod(len: size_t, page: size_t)
    requires page > 0
    ensures 0 <= len / page <= len
    ensures Mul64(len / page, page) == len - len % page
  {
    assert len == page * (len / page) + len % page;
    assert (len / page) * page == len - len % page;
  }

  /** A page count can only need rounding up when it is far from the top of the range. */
  lemma PartialPage(len: size_t, page: size_t)
    requires page > 0 && len % page != 0
    ensures len / page < SIZE_MAX
  {
    var q := len / page;
    assert len == page * q + len % page;
    ProductGrows(1, q, page, q);
  }

  /**
   The aligned length is undefined exactly when the product or its round-up does not fit, and is
   otherwise the least page multiple that is not below the product.
   */
  lemma AlignedLenExact(nmemb: size_t, count: size_t, page: nat, other: nat)
    requires page > 0
    ensures var r := AlignedLen(nmemb, count, page);
            && (r.None? <==> nmemb * count > SIZE_MAX || RoundUp(nmemb * count, page) > SIZE_MAX)
            && (r.Some? ==> nmemb * count <= r.value < nmemb * count + page && r.value % page == 0)
            && (r.Some? && nmemb * count <= other * page ==> r.value <= other * page)
  {
    RoundUpIsLeast(nmemb * count, page, other);
    RoundUpIsPages(nmemb * count, page);
    MultipleMod(Pages(nmemb * count, page), page);
  }

  /** `vk_safe_alignedlen`, and at a 2 MiB page `vk_safe_hugealignedlen`. */
  method SafeAlignedLen(nmemb: size_t, count: size_t, page: size_t) returns (r: Option<size_t>)
    requires page > 0
    ensures r == AlignedLen(nmemb, count, page)
  {
    RoundUpIsLeast(nmemb * count, page, 0);
    RoundUpIsPages(nmemb * count, page);
    var pagelen := SafePageLen(nmemb, count, page);
    if pagelen.None? {
      return None;
    }
    r := SafeMult(pagelen.value, page);
  }

  lemma MultipleMod(q: nat, page: nat)
    requires page > 0
    ensures (q * page) % page == 0
  {
    DivUnique(q * page, page, q, 0);
  }

  /** `vk_huge_page_bytes`: an unset page size means 2 MiB. */
  function HugePageBytes(configured: Option<size_t>): size_t {
    match configured
    case Some(bytes) => if bytes != 0 then bytes else HUGE_PAGE
    case None => HUGE_PAGE
  }

  /**
   `vk_huge_aligned_len` computes the round-up by remainder instead of by comparison; it agrees
   with `vk_safe_alignedlen` at the same page size on every input.
   */
  method HugeAlignedLen(configured: Option<size_t>, nmemb: size_t, count: size_t) returns (r: Option<size_t>)
    ensures r == AlignedLen(nmemb, count, HugePageBytes(configured))
  {
    var page := HugePageBytes(configured);
    RoundUpIsLeast(nmemb * count, page, 0);
    RoundUpIsPages(nmemb * count, page);
    var len := SafeMult(nmemb, count);
    if len.None? {
      return None;
    }
    var pages := CeilPages(len.value, page);
    if pages.None? {
      return None;
    }
    r := SafeMult(pages.value, page);
  }

  method CeilPages(len: size_t, page: size_t) returns (r: Option<size_t>)
    requires page > 0
    ensures r == Some(Pages(len, page))
  {
    DivMod(len, page);
    var pages: size_t := len / page;
    if len % page == 0 {
      return Some(pages);
    }
    PartialPage(len, page);
    r := SafeAdd(pages, 1);
  }
}
