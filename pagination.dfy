/** The pagination request object: a page number and a page size, each with a
    default, and the derived `skip`, the number of records that come before the
    requested page. Pages are numbered from 1. */
module Pagination {
  import opened Values

  /** A page number or a page size that a caller supplies: pages are numbered from
      1 and hold at least one record. */
  type Positive = n: int | n >= 1 witness 1

  const DefaultPage: Positive := 1
  const DefaultLimit: Positive := 10

  /** The two fields as a caller has left them; `None` is a field set to `null` or
      `undefined`. */
  datatype PaginationDto = PaginationDto(page: Option<Positive>, limit: Option<Positive>)

  /** `new PaginationDto()`: both fields hold their initial values. */
  function Fresh(): (r: PaginationDto)
    ensures r.page == Some(DefaultPage) && r.limit == Some(DefaultLimit)
  {
    PaginationDto(Some(DefaultPage), Some(DefaultLimit))
  }

  /** The page in effect: the field, or the default when it is null or undefined. */
  function Page(p: PaginationDto): (r: Positive)
    ensures p.page.Some? ==> r == p.page.value
    ensures p.page.None? ==> r == DefaultPage
  {
    p.page.GetOr(DefaultPage)
  }

  /** The page size in effect: the field, or the default when it is null or undefined. */
  function Limit(p: PaginationDto): (r: Positive)
    ensures p.limit.Some? ==> r == p.limit.value
    ensures p.limit.None? ==> r == DefaultLimit
  {
    p.limit.GetOr(DefaultLimit)
  }

  /** The page on which the record at zero-based position `index` is listed. */
  function PageOf(index: nat, limit: int): (page: int)
    requires limit >= 1
    ensures page >= 1
  {
    index / limit + 1
  }

  /** The `skip` getter: every earlier page is full, so the requested page starts
      after `(page - 1)` whole pages of `limit` records. */
  function Skip(p: PaginationDto): (skip: nat)
    ensures skip % Limit(p) == 0
    ensures skip / Limit(p) == Page(p) - 1
  {
    MultipleDivides(Page(p) - 1, Limit(p));
    (Page(p) - 1) * Limit(p)
  }

  lemma MultipleDivides(k: nat, limit: int)
    requires limit >= 1
    ensures k * limit >= 0 && (k * limit) % limit == 0 && (k * limit) / limit == k
  {
    LemmaDivision(k, 0, limit);
  }

  /** Dividing `k * limit + r` by `limit`, for a remainder `r` below `limit`. */
  lemma LemmaDivision(k: int, r: int, limit: int)
    requires limit >= 1 && 0 <= r < limit
    ensures (k * limit + r) / limit == k && (k * limit + r) % limit == r
  {
    var x := k * limit + r;
    var q, m := x / limit, x % limit;
    assert (k - q) * limit == m - r;
    MultipleSign(k - q, limit);
  }

  /** A nonzero multiple of `d` is at least `d` away from zero. */
  lemma MultipleSign(t: int, d: int)
    requires d >= 1
    ensures t >= 1 ==> t * d >= d
    ensures t <= -1 ==> t * d <= -d
  {
    if t >= 1 {
      MultipleAtLeast(t, d);
    } else if t <= -1 {
      MultipleAtLeast(-t, d);
    }
  }

  lemma {:induction false} MultipleAtLeast(t: nat, d: nat)
    requires t >= 1
    ensures t * d >= d
  {
    if t > 1 {
      MultipleAtLeast(t - 1, d);
      assert t * d == (t - 1) * d + d;
    }
  }

  /** The records the page covers are exactly those listed on it: position `i`
      lies in `[skip, skip + limit)` if and only if it is on page `Page(p)`. */
  lemma SkipWindowIsThePage(p: PaginationDto, i: nat)
    ensures Skip(p) <= i < Skip(p) + Limit(p) <==> PageOf(i, Limit(p)) == Page(p)
  {
    var limit := Limit(p);
    var k, r := i / limit, i % limit;
    assert i == k * limit + r;
    if PageOf(i, limit) == Page(p) {
      assert k == Page(p) - 1;
    }
    if Skip(p) <= i < Skip(p) + limit {
      var r' := i - Skip(p);
      LemmaDivision(Page(p) - 1, r', limit);
    }
  }

  /** Consecutive pages are adjacent: the next page starts where this one ends. */
  lemma NextPageFollows(p: PaginationDto)
    ensures var next := PaginationDto(Some(Page(p) + 1), p.limit);
      Page(next) == Page(p) + 1 && Skip(next) == Skip(p) + Limit(p)
  {
  }

  /** With nothing supplied the page is 1 and the size 10, so nothing is skipped. */
  lemma DefaultsWhenNothingSupplied()
    ensures Page(Fresh()) == 1 && Limit(Fresh()) == 10
    ensures Skip(Fresh()) == 0
  {
  }

  /** Values assigned to the fields are the values in effect. */
  lemma SuppliedValuesKept(page: Positive, limit: Positive)
    ensures Page(PaginationDto(Some(page), Some(limit))) == page
    ensures Limit(PaginationDto(Some(page), Some(limit))) == limit
  {
  }

  /** Page 3 of 15 records each starts after the 30 records of pages 1 and 2. */
  lemma SkipOfThirdPage()
    ensures Skip(PaginationDto(Some(3), Some(15))) == 30
  {
  }

  /** Fields set to `null` fall back to the defaults, so nothing is skipped. */
  lemma NullFieldsFallBack()
    ensures Page(PaginationDto(None, None)) == DefaultPage && Limit(PaginationDto(None, None)) == DefaultLimit
    ensures Skip(PaginationDto(None, None)) == 0
  {
  }
}
