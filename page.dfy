/** Page.java and PageableDto.java: a pagination envelope and the request
    for one page. */
module Pages {

  datatype PageableDto = PageableDto(page: int, size: int)

  datatype Page<T> = Page(items: seq<T>, number: int, size: int, totalItems: int)

  /** Exact ceiling of a / b for b != 0. */
  function CeilDiv(a: int, b: int): (q: int)
    requires b != 0
    ensures b > 0 ==> (q - 1) * b < a <= q * b
    ensures b < 0 ==> q * b <= a < (q - 1) * b
  {
    if b > 0 then -((-a) / b) else -(a / (-b))
  }

  /** `getAvailableCount`: the number of pages, 0 when the page size is 0. */
  function AvailableCount<T>(p: Page<T>): (n: int)
    ensures p.size == 0 ==> n == 0
    ensures p.size > 0 ==> (n - 1) * p.size < p.totalItems <= n * p.size
    ensures p.size < 0 ==> n * p.size <= p.totalItems < (n - 1) * p.size
    ensures p.size > 0 && p.totalItems >= 0 ==> n >= 0
  {
    if p.size == 0 then 0 else CeilDiv(p.totalItems, p.size)
  }

  /** `getItemCount`. */
  function ItemCount<T>(p: Page<T>): (n: nat)
    ensures n == 0 <==> p.items == []
  {
    |p.items|
  }

  function CreateEmptyPage<T>(meta: PageableDto, totalItemsCount: int): (p: Page<T>)
    ensures p.items == [] && ItemCount(p) == 0
    ensures p.number == meta.page && p.size == meta.size && p.totalItems == totalItemsCount
  {
    Page([], meta.page, meta.size, totalItemsCount)
  }

  function CreatePage<T>(items: seq<T>, meta: PageableDto, totalItemsCount: int): (p: Page<T>)
    ensures p.items == items && ItemCount(p) == |items|
    ensures p.number == meta.page && p.size == meta.size && p.totalItems == totalItemsCount
  {
    Page(items, meta.page, meta.size, totalItemsCount)
  }

  /** A page like `other` in everything but its items. */
  function CreatePageBy<T, U>(other: Page<U>, items: seq<T>): (p: Page<T>)
    ensures p.items == items
    ensures p.number == other.number && p.size == other.size && p.totalItems == other.totalItems
  {
    Page(items, other.number, other.size, other.totalItems)
  }

  /** Re-wrapping a page keeps its metadata and page count. */
  lemma CreatePageByKeepsMeta<T, U>(items: seq<U>, meta: PageableDto, total: int, other: seq<T>)
    ensures CreatePageBy(CreatePage(items, meta, total), other) == CreatePage(other, meta, total)
    ensures AvailableCount(CreatePageBy(CreatePage(items, meta, total), other))
            == AvailableCount(CreatePage(items, meta, total))
  {
  }

  /** Seven items in pages of three make three pages. */
  lemma AvailableCountExample()
    ensures AvailableCount<int>(Page([], 1, 3, 7)) == 3
    ensures AvailableCount<int>(Page([], 1, 3, 6)) == 2
    ensures AvailableCount<int>(Page([], 1, 3, 0)) == 0
    ensures AvailableCount<int>(Page([], 1, 0, 7)) == 0
  {
  }
}
