/** The paginated listing the user and comment routers share:
    `paginate(db, select(Entity), ...)` over one table, the guard on the
    page's items, and the page built with the query's total. Each router
    supplies its read-model and its not-found message. */
module Listing {
  import opened Wrappers
  import opened Tables
  import opened Errors
  import opened Guard
  import opened Pagination

  /** The read-models of one page: `OFFSET (page - 1) * size LIMIT size`
      over the rows in table order. */
  function PageItems<R, V>(t: Table<R>, page: int, size: int, read: (nat, R) -> V): (items: seq<V>)
    requires t.Valid() && page >= 1 && size >= 1
    ensures |items| <= size
    ensures items == [] <==> Offset(page, size) >= |t.order|
    ensures |items| == size || Offset(page, size) + |items| >= |t.order|
    ensures forall i :: 0 <= i < |items| ==>
      && Offset(page, size) + i < |t.order|
      && items[i] == read(t.order[Offset(page, size) + i], t.rows[t.order[Offset(page, size) + i]])
  {
    var all := Entries(t);
    var slice := PageSlice(all, page, size);
    var items := seq(|slice|, i requires 0 <= i < |slice| => read(slice[i].0, slice[i].1));
    forall i | 0 <= i < |items|
      ensures Offset(page, size) + i < |t.order|
      ensures items[i] == read(t.order[Offset(page, size) + i], t.rows[t.order[Offset(page, size) + i]])
    {
      var j := Offset(page, size) + i;
      assert slice[i] == all[j];
    }
    items
  }

  /** The query-parameter check, then the page of read-models; an empty
      page raises `absent`, even when rows exist past it. */
  function GetPage<R, V>(t: Table<R>, params: Params, read: (nat, R) -> V, absent: string): (r: Result<Page<V>, Error>)
    requires t.Valid()
    ensures ValidateParams(params) != [] ==> r == Failure(Validation(ValidateParams(params)))
    ensures ValidateParams(params) == [] ==>
      && (r.Failure? <==> Offset(params.page, params.size) >= |t.order|)
      && (r.Failure? ==> r.error == NotFound(absent))
    ensures r.Success? ==>
      && r.value.total == |t.rows|
      && r.value.page == params.page && r.value.size == params.size
      && r.value.pages == NumPages(r.value.total, params.size) && r.value.page <= r.value.pages
      && 0 < |r.value.items| <= params.size
      && r.value.items == PageItems(t, params.page, params.size, read)
  {
    var errors := ValidateParams(params);
    if errors != [] then Failure(Validation(errors))
    else
      var items := PageItems(t, params.page, params.size, read);
      match RaiseNotFoundIfAbsent(Rows(items), absent)
      case Fail(e) => Failure(e)
      case Pass =>
        SizeIsLength(t);
        PageWithinCount(|t.rows|, params.page, params.size);
        Success(Page(items, |t.rows|, params.page, params.size, NumPages(|t.rows|, params.size)))
  }

  /** Every row is listed on exactly one page, at the position its place in
      the table says. */
  lemma EveryRowOnItsPage<R, V>(t: Table<R>, size: int, k: nat, read: (nat, R) -> V, absent: string)
    requires t.Valid() && 1 <= size <= 100 && k < |t.order|
    ensures var r := GetPage(t, Params(k / size + 1, size), read, absent);
      && r.Success?
      && k % size < |r.value.items|
      && r.value.items[k % size] == read(t.order[k], t.rows[t.order[k]])
  {
    var page := k / size + 1;
    assert Offset(page, size) + k % size == k;
    var items := PageItems(t, page, size, read);
    assert items != [];
  }
}
