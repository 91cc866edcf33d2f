/** Reading the current contents of a playlist page by page (main.py:88-108). The
    list endpoint is modelled as a value: the answer to the first request, and the
    page each continuation token leads to. */
module PlaylistReader {
  import opened Wrappers

  /** One answer of the list endpoint: the video ids of its items and the
      `nextPageToken` field, if present. */
  datatype Page = Page(items: seq<string>, next: Option<string>)

  /** The list endpoint of one playlist. `first` is `None` when the first request
      raises; a token missing from `pages` is one whose request raises. */
  datatype Service = Service(first: Option<Page>, pages: map<string, Page>)

  /** Why reading stopped early: the request that raised `HttpError`. */
  datatype ListError = FirstPageFailed | PageFailed(token: string)

  /** `while next_page_token:` — a missing token and an empty one are both false. */
  predicate HasMore(next: Option<string>) {
    next.Some? && next.value != ""
  }

  /** Following tokens from `next` ends within `n` requests: at a page without a
      further token, or at a token whose request fails. */
  predicate EndsWithin(pages: map<string, Page>, next: Option<string>, n: nat)
    decreases n
  {
    !HasMore(next) || next.value !in pages || (n > 0 && EndsWithin(pages, pages[next.value].next, n - 1))
  }

  /** The service does not keep handing out tokens forever. */
  ghost predicate Terminates(svc: Service) {
    svc.first.None? || exists n: nat :: EndsWithin(svc.pages, svc.first.value.next, n)
  }

  /** The pages fetched by following tokens from `next`, in order. */
  function Follow(pages: map<string, Page>, next: Option<string>, n: nat): (ps: seq<Page>)
    requires EndsWithin(pages, next, n)
    ensures |ps| <= n
    decreases n
  {
    if !HasMore(next) || next.value !in pages then []
    else [pages[next.value]] + Follow(pages, pages[next.value].next, n - 1)
  }

  /** The token whose request failed while following from `next`, if any. */
  function Breaks(pages: map<string, Page>, next: Option<string>, n: nat): Option<string>
    requires EndsWithin(pages, next, n)
    decreases n
  {
    if !HasMore(next) then None
    else if next.value !in pages then Some(next.value)
    else Breaks(pages, pages[next.value].next, n - 1)
  }

  /** How many steps suffice does not change what is fetched. */
  lemma {:induction false} FollowFuel(pages: map<string, Page>, next: Option<string>, n: nat, m: nat)
    requires EndsWithin(pages, next, n) && EndsWithin(pages, next, m)
    ensures Follow(pages, next, n) == Follow(pages, next, m)
    ensures Breaks(pages, next, n) == Breaks(pages, next, m)
    decreases n
  {
    if HasMore(next) && next.value in pages {
      FollowFuel(pages, pages[next.value].next, n - 1, m - 1);
    }
  }

  /** Some number of steps that suffices. */
  ghost function Bound(svc: Service): nat
    requires Terminates(svc) && svc.first.Some?
  {
    var n: nat :| EndsWithin(svc.pages, svc.first.value.next, n); n
  }

  /** Every page the function receives, in order: the first page, then one page per
      non-empty token (main.py:90-105). */
  ghost function Chain(svc: Service): seq<Page>
    requires Terminates(svc)
  {
    if svc.first.None? then []
    else [svc.first.value] + Follow(svc.pages, svc.first.value.next, Bound(svc))
  }

  /** The request that raised, if one did; the exception leaves the function. */
  ghost function Failed(svc: Service): Option<ListError>
    requires Terminates(svc)
  {
    if svc.first.None? then Some(FirstPageFailed)
    else
      match Breaks(svc.pages, svc.first.value.next, Bound(svc))
      case None => None
      case Some(t) => Some(PageFailed(t))
  }

  /** The ids on one page. */
  function ItemSet(p: Page): set<string> {
    set v | v in p.items
  }

  /** The ids on a sequence of pages, as one set. */
  function UnionItems(ps: seq<Page>): set<string>
    decreases |ps|
  {
    if ps == [] then {} else UnionItems(ps[..|ps| - 1]) + ItemSet(ps[|ps| - 1])
  }

  /** An id is in the union exactly when it is an item of one of the pages. */
  lemma {:induction false} UnionItemsExact(ps: seq<Page>, v: string)
    ensures v in UnionItems(ps) <==> exists i :: 0 <= i < |ps| && v in ps[i].items
    decreases |ps|
  {
    if ps != [] {
      var init := ps[..|ps| - 1];
      UnionItemsExact(init, v);
      if exists i :: 0 <= i < |init| && v in init[i].items {
        var i :| 0 <= i < |init| && v in init[i].items;
        assert ps[i] == init[i];
      }
      if exists i :: 0 <= i < |ps| && v in ps[i].items {
        var i :| 0 <= i < |ps| && v in ps[i].items;
        if i < |init| {
          assert init[i] == ps[i];
        }
      }
    }
  }

  /** Following from `next` starts with the page `next` names, as long as it is a
      non-empty known token; each later page is the one its predecessor's token names. */
  lemma {:induction false} FollowLinks(pages: map<string, Page>, next: Option<string>, n: nat, k: int)
    requires EndsWithin(pages, next, n)
    requires 0 <= k < |Follow(pages, next, n)|
    ensures k == 0 ==> HasMore(next) && next.value in pages && Follow(pages, next, n)[0] == pages[next.value]
    ensures k > 0 ==> var prev := Follow(pages, next, n)[k - 1];
      HasMore(prev.next) && prev.next.value in pages && Follow(pages, next, n)[k] == pages[prev.next.value]
    decreases n
  {
    if k > 0 {
      var after := pages[next.value].next;
      FollowLinks(pages, after, n - 1, k - 1);
      assert Follow(pages, next, n)[k] == Follow(pages, after, n - 1)[k - 1];
      assert Follow(pages, next, n)[k - 1] == ([pages[next.value]] + Follow(pages, after, n - 1))[k - 1];
      if k > 1 {
        assert Follow(pages, next, n)[k - 1] == Follow(pages, after, n - 1)[k - 2];
      }
    }
  }

  /** The chain stops at the first page whose token is missing or empty, unless a
      request fails first. */
  lemma {:induction false} FollowEnds(pages: map<string, Page>, next: Option<string>, n: nat)
    requires EndsWithin(pages, next, n)
    ensures var ps := Follow(pages, next, n);
      Breaks(pages, next, n).None? ==> (if ps == [] then !HasMore(next) else !HasMore(ps[|ps| - 1].next))
    ensures var ps := Follow(pages, next, n);
      Breaks(pages, next, n).Some? ==>
        (if ps == [] then next == Breaks(pages, next, n) else ps[|ps| - 1].next == Breaks(pages, next, n)) &&
        Breaks(pages, next, n).value != "" && Breaks(pages, next, n).value !in pages
    decreases n
  {
    if HasMore(next) && next.value in pages {
      var after := pages[next.value].next;
      FollowEnds(pages, after, n - 1);
      var rest := Follow(pages, after, n - 1);
      if rest != [] {
        assert Follow(pages, next, n)[|Follow(pages, next, n)| - 1] == rest[|rest| - 1];
      }
    }
  }

  /** The chain begins with the first answer, and every later page is the one the
      token of the page before it names: no page is skipped or fetched twice in a row. */
  lemma ChainFollowsTokens(svc: Service, k: int)
    requires Terminates(svc) && 0 <= k < |Chain(svc)|
    ensures k == 0 ==> Chain(svc)[0] == svc.first.value
    ensures k > 0 ==> var prev := Chain(svc)[k - 1];
      HasMore(prev.next) && prev.next.value in svc.pages && Chain(svc)[k] == svc.pages[prev.next.value]
  {
    if k > 0 {
      var next := svc.first.value.next;
      var ps := Follow(svc.pages, next, Bound(svc));
      FollowLinks(svc.pages, next, Bound(svc), k - 1);
      assert Chain(svc)[k] == ps[k - 1];
      if k > 1 {
        assert Chain(svc)[k - 1] == ps[k - 2];
      }
    }
  }

  /** Reading stops at the first page whose token is missing or empty; when it stops
      early instead, the last page's token is the one whose request raised. */
  lemma ChainEnds(svc: Service)
    requires Terminates(svc) && svc.first.Some?
    ensures var last := Chain(svc)[|Chain(svc)| - 1];
      (Failed(svc).None? ==> !HasMore(last.next)) &&
      (Failed(svc).Some? ==> HasMore(last.next) && Failed(svc) == Some(PageFailed(last.next.value)) &&
                             last.next.value !in svc.pages)
  {
    var next := svc.first.value.next;
    var ps := Follow(svc.pages, next, Bound(svc));
    FollowEnds(svc.pages, next, Bound(svc));
    if ps != [] {
      assert Chain(svc)[|Chain(svc)| - 1] == ps[|ps| - 1];
    }
  }

  /** `get_current_playlist_videos` (main.py:88-108): ask for the first page, then
      for as long as the last answer carries a non-empty token ask for the page it
      names, collecting every item's id. One request is made per page, plus the one
      that raised, if any. */
  method GetCurrentPlaylistVideos(svc: Service) returns (r: Result<set<string>, ListError>, calls: nat)
    requires Terminates(svc)
    ensures Failed(svc).None? ==> r == Success(UnionItems(Chain(svc)))
    ensures Failed(svc).Some? ==> r == Failure(Failed(svc).value)
    ensures calls == |Chain(svc)| + (if Failed(svc).Some? then 1 else 0)
  {
    calls := 1;
    if svc.first.None? {
      return Failure(FirstPageFailed), calls;
    }
    var firstPage := svc.first.value;
    ghost var n := Bound(svc);
    ghost var seen := [firstPage];
    var values := ItemSet(firstPage);
    assert seen[..0] == [];
    var next := firstPage.next;
    while HasMore(next)
      invariant EndsWithin(svc.pages, next, n)
      invariant seen + Follow(svc.pages, next, n) == Chain(svc)
      invariant Breaks(svc.pages, next, n) == Breaks(svc.pages, firstPage.next, Bound(svc))
      invariant values == UnionItems(seen)
      invariant calls == |seen|
      decreases n
    {
      calls := calls + 1;
      if next.value !in svc.pages {
        assert Follow(svc.pages, next, n) == [] && seen == Chain(svc);
        return Failure(PageFailed(next.value)), calls;
      }
      var page := svc.pages[next.value];
      values := values + ItemSet(page);
      assert (seen + [page])[..|seen|] == seen;
      assert seen + Follow(svc.pages, next, n) == (seen + [page]) + Follow(svc.pages, page.next, n - 1);
      seen := seen + [page];
      next := page.next;
      n := n - 1;
    }
    assert Follow(svc.pages, next, n) == [] && seen == Chain(svc);
    return Success(values), calls;
  }
}
