/** Pagination arithmetic shared by the list handlers: helpers/utils.go and the
    query-parameter normalisation of GetUsers and GetFoods. */
module Helpers {
  import opened Common
  import opened Numbers

  /** The page size GetLimitOffset substitutes for a zero limit. */
  const DefaultLimit: int := 20

  /** GetLimitOffset as the Go code computes it: `limit * (page - 1)` is 64-bit
      `int` arithmetic, so it wraps around; a negative offset is raised to 0. */
  function GetLimitOffsetWrapping(limit: int, page: int): (r: (int, int))
    requires InInt64(limit) && InInt64(page)
    ensures InInt64(r.0) && r.0 >= 0
    ensures r.1 == if limit == 0 then DefaultLimit else limit
    ensures InInt64(r.1 * (page - 1)) ==>
              r.0 == if r.1 * (page - 1) < 0 then 0 else r.1 * (page - 1)
  {
    var lim := if limit == 0 then DefaultLimit else limit;
    var shifted := Wrap64(page - 1);
    var product := Wrap64(lim * shifted);
    assert InInt64(lim * (page - 1)) ==> shifted == page - 1 by {
      if InInt64(lim * (page - 1)) { FactorFits(lim, page - 1); }
    }
    (if product < 0 then 0 else product, lim)
  }

  /** GetLimitOffset with the product computed exactly, as its callers intend:
      the offset of page `page` of `limit` rows, never negative. */
  function GetLimitOffset(limit: int, page: int): (r: (int, int))
    ensures r.0 >= 0
    ensures r.1 == if limit == 0 then DefaultLimit else limit
    ensures r.1 * (page - 1) >= 0 ==> r.0 == r.1 * (page - 1)
    ensures page <= 1 && limit >= 0 ==> r.0 == 0
  {
    var lim := if limit == 0 then DefaultLimit else limit;
    var product := lim * (page - 1);
    assert page <= 1 && lim > 0 ==> product <= 0 by {
      if page <= 1 && lim > 0 { assert lim * (1 - page) >= 0; }
    }
    (if product < 0 then 0 else product, lim)
  }

  /** With the 64-bit product, page 2^62 + 2 of 20 rows starts at row 20, where
      page 2 starts, instead of row 20 * (2^62 + 1): the client is served the
      rows of page 2. */
  lemma GetLimitOffsetWrapsAround()
    ensures GetLimitOffsetWrapping(20, 0x4000_0000_0000_0002).0 == 20
    ensures GetLimitOffsetWrapping(20, 0x4000_0000_0000_0002).0 == GetLimitOffsetWrapping(20, 2).0
    ensures GetLimitOffset(20, 0x4000_0000_0000_0002).0 == 20 * 0x4000_0000_0000_0001
  {
  }

  /** Consecutive pages adjoin: page p + 1 starts where page p ends. */
  lemma ConsecutivePagesAdjoin(limit: int, page: int)
    requires limit > 0 && page >= 1
    ensures GetLimitOffset(limit, page + 1).0 == GetLimitOffset(limit, page).0 + limit
  {
    assert limit * page == limit * (page - 1) + limit;
  }

  /** The normalisation of a numeric query parameter in GetUsers and GetFoods:
      strconv.Atoi, replaced by the fallback when it fails or is below 1. */
  function QueryPositive(param: string, fallback: int): (r: int)
    requires fallback >= 1
    ensures r >= 1
    ensures Atoi(param).Some? && Atoi(param).value >= 1 ==> r == Atoi(param).value
    ensures Atoi(param).None? || Atoi(param).value < 1 ==> r == fallback
  {
    match Atoi(param)
    case Some(v) => if v < 1 then fallback else v
    case None => fallback
  }

  /** A positive int64 written in decimal is taken as it is; zero, a negative
      number and a missing parameter all give the fallback. */
  lemma QueryPositiveReadsDecimal(n: int, fallback: int)
    requires InInt64(n) && fallback >= 1
    ensures n >= 1 ==> QueryPositive(FormatInt(n), fallback) == n
    ensures n < 1 ==> QueryPositive(FormatInt(n), fallback) == fallback
    ensures QueryPositive("", fallback) == fallback
  {
    AtoiFormatInt(n);
  }

  /** k whole pages of n rows are k * n rows. */
  lemma WholePages(k: nat, n: int)
    requires n >= 1
    ensures k * n >= 0 && (k * n) % n == 0 && (k * n) / n == k
  {
    var a := k * n;
    var q, r := a / n, a % n;
    assert a == q * n + r && 0 <= r < n;
    assert (k - q) * n == r;
    if q < k {
      AtLeastOne(k - q, n);
    } else if q > k {
      AtLeastOne(q - k, n);
    }
  }

  lemma AtLeastOne(d: int, n: int)
    requires d >= 1 && n >= 1
    ensures d * n >= n
  {
    assert d * n == (d - 1) * n + n;
  }
}
