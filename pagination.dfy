/** `pagination::PaginationParams` (src/utils.rs): page and page-size defaults and the row offset. */
module Pagination {
  import opened Wrappers

  const U32_MODULUS: int := 0x1_0000_0000

  newtype u32 = x: int | 0 <= x < 0x1_0000_0000

  datatype PaginationParams = PaginationParams(page: Option<u32>, perPage: Option<u32>)

  function New(): (p: PaginationParams)
    ensures p.page.None? && p.perPage.None?
  {
    PaginationParams(None, None)
  }

  /** `page()`: 1 when absent. */
  function Page(p: PaginationParams): (r: u32)
    ensures p.page.None? ==> r == 1
    ensures p.page.Some? ==> r == p.page.value
  {
    p.page.GetOr(1)
  }

  /** `per_page()`: 50 when absent, never more than 1000. */
  function PerPage(p: PaginationParams): (r: u32)
    ensures r <= 1000
    ensures p.perPage.None? ==> r == 50
    ensures p.perPage.Some? && p.perPage.value <= 1000 ==> r == p.perPage.value
    ensures p.perPage.Some? && p.perPage.value > 1000 ==> r == 1000
  {
    var n := p.perPage.GetOr(50);
    if n < 1000 then n else 1000
  }

  /** `page().saturating_sub(1)` */
  function PagesBefore(p: PaginationParams): nat {
    if Page(p) >= 1 then Page(p) as int - 1 else 0
  }

  /**
   * `offset()` as written: `u32` multiplication, which wraps around in a
   * release build (a debug build panics instead).
   */
  function Offset(p: PaginationParams): u32 {
    ((PagesBefore(p) * PerPage(p) as int) % U32_MODULUS) as u32
  }

  /** The offset the method is meant to compute: the number of rows on the earlier pages. */
  function OffsetWide(p: PaginationParams): (r: nat)
    ensures r < U32_MODULUS * 1000
    ensures Offset(p) as int == r % U32_MODULUS
  {
    PagesBefore(p) * PerPage(p) as int
  }

  /** `limit()` */
  function Limit(p: PaginationParams): (r: u32)
    ensures r == PerPage(p)
    ensures r <= 1000
  {
    PerPage(p)
  }

  // ---------------------------------------------------------------------
  // Lemmas

  /** Pages 0 and 1, and an absent page, all start at row 0. */
  lemma FirstPageStartsAtZero(p: PaginationParams)
    requires p.page.None? || p.page.value <= 1
    ensures Offset(p) == 0 && OffsetWide(p) == 0
  {
  }

  /** Without overflow, the `u32` offset is the number of rows on the earlier pages. */
  lemma OffsetExactWithoutOverflow(p: PaginationParams)
    requires OffsetWide(p) < U32_MODULUS
    ensures Offset(p) as int == OffsetWide(p)
  {
  }

  /** In the exact offset, consecutive pages are `limit` rows apart. */
  lemma NextPageStartsAfterLimit(p: PaginationParams)
    requires p.page.Some? && 1 <= p.page.value < 0xFFFF_FFFF
    ensures OffsetWide(p.(page := Some(p.page.value + 1))) == OffsetWide(p) + Limit(p) as int
  {
  }

  /** Found: page 4294969 of 1000 rows should start at row 4294968000, but the `u32` offset wraps to 704. */
  lemma OffsetOverflowWitness()
    ensures var p := PaginationParams(Some(4294969), Some(1000));
      Offset(p) == 704 && OffsetWide(p) == 4294968000
  {
  }
}
