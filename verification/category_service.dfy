/** Category lookup. */
module CategoryService {
  import opened Wrappers
  import opened Errors
  import opened Models

  /** The category with id `cid`; a missing id propagates the store's not-found signal. */
  function GetCategory(s: Store, cid: CategoryId): (r: Result<Category, Error>)
    ensures r.Success? <==> cid in s.categories
    ensures r.Success? ==> r.value == s.categories[cid]
    ensures r.Failure? ==> r.error == CategoryNotFound
  {
    if cid in s.categories then Success(s.categories[cid]) else Failure(CategoryNotFound)
  }
}
