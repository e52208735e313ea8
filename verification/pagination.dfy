/** The cursor-paginated followed-artist listing of `get_followed_artists`. */
module Pagination {
  import opened Wrappers

  /** One page of a listing: its items and the `next` cursor URL, if any. */
  datatype Page<T> = Page(items: seq<T>, next: Option<string>)

  /** Python's truth value of `next`: `None` and the empty string end the loop. */
  predicate HasNext<T>(p: Page<T>) {
    p.next.Some? && p.next.value != ""
  }

  /** The listing ends: some page has no next cursor. */
  predicate Terminates<T>(pages: seq<Page<T>>) {
    exists i :: 0 <= i < |pages| && !HasNext(pages[i])
  }

  /** The index of the first page without a next cursor. */
  function LastPage<T>(pages: seq<Page<T>>): (k: nat)
    requires Terminates(pages)
    ensures k < |pages| && !HasNext(pages[k])
    ensures forall i :: 0 <= i < k ==> HasNext(pages[i])
  {
    if !HasNext(pages[0]) then 0
    else
      var i :| 0 <= i < |pages| && !HasNext(pages[i]);
      assert pages[1..][i - 1] == pages[i];
      1 + LastPage(pages[1..])
  }

  /** The items of the given pages, page by page, in order. */
  function Concat<T>(pages: seq<Page<T>>): seq<T> {
    if |pages| == 0 then [] else pages[0].items + Concat(pages[1..])
  }

  lemma {:induction false} ConcatSnoc<T>(pages: seq<Page<T>>, k: nat)
    requires k < |pages|
    ensures Concat(pages[..k + 1]) == Concat(pages[..k]) + pages[k].items
  {
    if k > 0 {
      ConcatSnoc(pages[1..], k - 1);
      assert pages[..k + 1][1..] == pages[1..][..k];
      assert pages[..k][1..] == pages[1..][..k - 1];
    } else {
      assert pages[..1][1..] == [];
    }
  }

  /** Everything the listing yields: the pages up to and including the first
      one without a next cursor; later pages are never requested. */
  function Followed<T>(pages: seq<Page<T>>): seq<T>
    requires Terminates(pages)
  {
    Concat(pages[..LastPage(pages) + 1])
  }

  /** The loop of `get_followed_artists`: take the first page, then follow
      `next` while it is set, appending each page's items. */
  method FollowedArtists<T>(pages: seq<Page<T>>) returns (items: seq<T>, fetched: nat)
    requires Terminates(pages)
    ensures fetched == LastPage(pages) + 1
    ensures items == Concat(pages[..fetched])
    ensures items == Followed(pages)
  {
    var results := pages[0];
    fetched := 1;
    items := results.items;
    assert pages[..1][1..] == [];
    while HasNext(results)
      invariant 1 <= fetched <= LastPage(pages) + 1
      invariant results == pages[fetched - 1]
      invariant items == Concat(pages[..fetched])
      decreases LastPage(pages) + 1 - fetched
    {
      results := pages[fetched];
      ConcatSnoc(pages, fetched);
      items := items + results.items;
      fetched := fetched + 1;
    }
  }
}
