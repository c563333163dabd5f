/**
 * The pagination convention of the web framework's `Paginator(items, 10)` and
 * its `get_page(number)`, which the task listing relies on: there is always at
 * least one page, a page number that is not an integer gives page 1, and an
 * integer outside the valid range gives the last page.
 *
 * The page number arrives as the raw text of the `page` query parameter and is
 * converted like Python's `int()`, restricted to an optional sign followed by
 * ASCII digits.
 */
module Paging {
  import opened Wrappers

  /** The page size of the task listing. */
  const PerPage: nat := 10

  function Min(a: int, b: int): int {
    if a <= b then a else b
  }

  predicate IsDigit(c: char) {
    '0' <= c <= '9'
  }

  predicate AllDigits(s: string) {
    forall i | 0 <= i < |s| :: IsDigit(s[i])
  }

  function DigitValue(c: char): nat
    requires IsDigit(c)
  {
    c as int - '0' as int
  }

  function DigitChar(d: nat): (c: char)
    requires d < 10
    ensures IsDigit(c) && DigitValue(c) == d
  {
    ('0' as int + d) as char
  }

  /** The value of a string of decimal digits, most significant first. */
  function DigitsValue(s: string): nat
    requires AllDigits(s)
    decreases |s|
  {
    if s == [] then 0 else DigitsValue(s[..|s| - 1]) * 10 + DigitValue(s[|s| - 1])
  }

  /** Conversion of the text of a page number: an optional sign and ASCII digits, of any length (no whitespace,
      underscores or other scripts' digits, and no limit on the number of digits). */
  function ParseInt(s: string): (r: Option<int>)
    ensures r.Some? <==>
              && |s| > 0
              && (IsDigit(s[0]) || ((s[0] == '+' || s[0] == '-') && |s| > 1))
              && AllDigits(s[1..])
    ensures r.Some? && IsDigit(s[0]) ==> r.value == DigitsValue(s)
    ensures r.Some? && s[0] == '+' ==> r.value == DigitsValue(s[1..])
    ensures r.Some? && s[0] == '-' ==> r.value + DigitsValue(s[1..]) == 0
    ensures r.Some? ==> |s| > 0
    ensures r.Some? && r.value < 0 ==> s[0] == '-'
    ensures |s| > 0 && AllDigits(s) ==> r == Some(DigitsValue(s))
    ensures (|s| == 0 || !IsDigit(s[|s| - 1])) ==> r.None?
  {
    if |s| > 0 && (s[0] == '+' || s[0] == '-') then
      var body := s[1..];
      if |body| > 0 && AllDigits(body) then
        var magnitude: int := DigitsValue(body);
        Some(if s[0] == '-' then -magnitude else magnitude)
      else
        None
    else if |s| > 0 && AllDigits(s) then
      Some(DigitsValue(s))
    else
      None
  }

  /** The decimal text of a natural number, without leading zeros. */
  function Decimal(n: nat): (s: string)
    ensures |s| > 0 && AllDigits(s)
    decreases n
  {
    if n < 10 then [DigitChar(n)] else Decimal(n / 10) + [DigitChar(n % 10)]
  }

  /** The decimal text of an integer, with a minus sign when negative. */
  function ShowInt(n: int): string {
    if n < 0 then "-" + Decimal(-n) else Decimal(n)
  }

  /** Reading back the decimal text of a number gives the number. */
  lemma {:induction false} DecimalRoundTrip(n: nat)
    ensures DigitsValue(Decimal(n)) == n
    decreases n
  {
    if n >= 10 {
      DecimalRoundTrip(n / 10);
      var s := Decimal(n);
      assert s[..|s| - 1] == Decimal(n / 10);
    }
  }

  /** Converting the decimal text of any integer gives that integer back. */
  lemma ParseShowRoundTrip(n: int)
    ensures ParseInt(ShowInt(n)) == Some(n)
  {
    if n < 0 {
      DecimalRoundTrip(-n);
      assert ShowInt(n)[1..] == Decimal(-n);
    } else {
      DecimalRoundTrip(n);
    }
  }

  /** `num_pages`: enough pages of `PerPage` for all items, and never fewer than one. */
  function NumPages(count: nat): (n: nat)
    ensures n >= 1
    ensures count <= n * PerPage
    ensures n == 1 || (n - 1) * PerPage < count
  {
    if count == 0 then 1 else (count + PerPage - 1) / PerPage
  }

  /**
   * `get_page`'s choice of page number: page 1 when the parameter is absent
   * (its default) or not an integer; the requested page when it is in range;
   * otherwise, below 1 as well as above the last page, the last page.
   */
  function PageNumber(page: Option<string>, count: nat): (n: nat)
    ensures 1 <= n <= NumPages(count)
    ensures page.None? || ParseInt(page.value).None? ==> n == 1
    ensures page.Some? && ParseInt(page.value).Some? ==>
              var k := ParseInt(page.value).value;
              n == if 1 <= k <= NumPages(count) then k else NumPages(count)
  {
    if page.None? then 1
    else match ParseInt(page.value)
      case None => 1
      case Some(k) => if 1 <= k <= NumPages(count) then k else NumPages(count)
  }

  /** One page of a listing, with whether a further page exists. */
  datatype Page<T> = Page(number: nat, items: seq<T>, hasNext: bool)

  /** The items of page `n`. */
  function PageItems<T>(all: seq<T>, n: nat): (items: seq<T>)
    requires 1 <= n <= NumPages(|all|)
    ensures |items| <= PerPage
    ensures n < NumPages(|all|) ==> |items| == PerPage
    ensures items == all[(n - 1) * PerPage..Min(n * PerPage, |all|)]
    ensures forall x | x in items :: x in all
  {
    var lo, hi := (n - 1) * PerPage, Min(n * PerPage, |all|);
    assert forall i | 0 <= i < hi - lo :: all[lo..hi][i] == all[lo + i];
    all[lo..hi]
  }

  /** `get_page(page)` over a listing: its number, its items and `has_next()`. */
  function GetPage<T>(all: seq<T>, page: Option<string>): (p: Page<T>)
    ensures 1 <= p.number <= NumPages(|all|)
    ensures |p.items| <= PerPage
    ensures p.items == all[(p.number - 1) * PerPage..Min(p.number * PerPage, |all|)]
    ensures p.hasNext <==> p.number * PerPage < |all|
    ensures forall x | x in p.items :: x in all
    ensures p.number == PageNumber(page, |all|)
  {
    var n := PageNumber(page, |all|);
    Page(n, PageItems(all, n), n < NumPages(|all|))
  }

  /** Requesting a page number in range, written in decimal, gives that page. */
  lemma RequestedPage<T>(all: seq<T>, n: nat)
    requires 1 <= n <= NumPages(|all|)
    ensures GetPage(all, Some(ShowInt(n))).number == n
    ensures GetPage(all, Some(ShowInt(n))).items == PageItems(all, n)
  {
    ParseShowRoundTrip(n);
  }

  /** The items of pages 1 to k, one after the other. */
  function PagesUpTo<T>(all: seq<T>, k: nat): seq<T>
    requires k <= NumPages(|all|)
  {
    if k == 0 then [] else PagesUpTo(all, k - 1) + PageItems(all, k)
  }

  /** Pages 1 to k together are the first k pages' worth of the listing. */
  lemma {:induction false} PagesUpToIsPrefix<T>(all: seq<T>, k: nat)
    requires k <= NumPages(|all|)
    ensures PagesUpTo(all, k) == all[..Min(k * PerPage, |all|)]
  {
    if k > 0 {
      PagesUpToIsPrefix(all, k - 1);
      assert (k - 1) * PerPage <= |all|;
      assert all[..(k - 1) * PerPage] + all[(k - 1) * PerPage..Min(k * PerPage, |all|)]
          == all[..Min(k * PerPage, |all|)];
    }
  }

  /** Concatenating every page, from the first to the last, gives back the whole listing. */
  lemma AllPagesReassemble<T>(all: seq<T>)
    ensures PagesUpTo(all, NumPages(|all|)) == all
  {
    PagesUpToIsPrefix(all, NumPages(|all|));
  }

  /** Eleven items: the first page holds ten and has a next page; page 2 holds the eleventh and is the last. */
  lemma ElevenItems<T>(all: seq<T>)
    requires |all| == 11
    ensures GetPage(all, None).items == all[..10] && GetPage(all, None).hasNext
    ensures GetPage(all, Some("2")).items == [all[10]] && !GetPage(all, Some("2")).hasNext
  {
    assert NumPages(11) == 2;
    assert DigitsValue("2") == 2 by {
      assert "2"[..0] == "";
    }
    assert PageNumber(Some("2"), 11) == 2;
    var first, second := GetPage(all, None), GetPage(all, Some("2"));
    assert first.number == 1;
    assert second.number == 2;
    assert second.items == all[10..11];
  }
}
