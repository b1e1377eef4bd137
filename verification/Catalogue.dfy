/** The combined resource catalogue: all pages of every organization merged, each
    resource kept once, sorted by name, and cut into pages again. */
module Catalogue {
  import opened Prelude

  /** A resource; names are compared through their collation key. */
  datatype Resource = Resource(id: Id, nameKey: int)

  datatype Item = Item(organization: Id, resource: Resource)

  datatype ServerPage = ServerPage(data: seq<Resource>, totalPages: nat)

  datatype CataloguePage = CataloguePage(data: seq<Item>, total: nat, page: nat, limit: nat, totalPages: nat)

  const RESOURCE_PAGE_SIZE: nat := 10
  const AGGREGATE_RESOURCE_PAGE_SIZE: nat := 100

  function Min(a: nat, b: nat): nat {
    if a < b then a else b
  }

  function Max(a: nat, b: nat): nat {
    if a < b then b else a
  }

  function CeilDiv(n: nat, d: nat): nat
    requires d > 0
  {
    (n + d - 1) / d
  }

  // ---------- Cutting a list into pages ----------

  function PageOf<T>(list: seq<T>, page: nat, limit: nat): (r: seq<T>)
    requires page >= 1 && limit > 0
    ensures |r| <= limit
  {
    var start := Min((page - 1) * limit, |list|);
    list[start..Min(start + limit, |list|)]
  }

  function ConcatPages<T>(list: seq<T>, pages: nat, limit: nat): seq<T>
    requires limit > 0
  {
    if pages == 0 then [] else ConcatPages(list, pages - 1, limit) + PageOf(list, pages, limit)
  }

  lemma {:induction false} PagesArePrefix<T>(list: seq<T>, pages: nat, limit: nat)
    requires limit > 0
    ensures ConcatPages(list, pages, limit) == list[..Min(pages * limit, |list|)]
  {
    if pages > 0 {
      PagesArePrefix(list, pages - 1, limit);
      assert pages * limit == (pages - 1) * limit + limit;
      var a, b := Min((pages - 1) * limit, |list|), Min(pages * limit, |list|);
      assert PageOf(list, pages, limit) == list[a..b];
      assert list[..a] + list[a..b] == list[..b];
    }
  }

  lemma CeilDivCovers(n: nat, d: nat)
    requires d > 0
    ensures CeilDiv(n, d) * d >= n
    ensures CeilDiv(n, d) > 0 ==> (CeilDiv(n, d) - 1) * d < n
    ensures CeilDiv(n, d) == 0 <==> n == 0
  {
  }

  /** All the pages there are, put together, are the whole list. */
  lemma PagesAreWhole<T>(list: seq<T>, limit: nat, pages: nat)
    requires limit > 0 && pages >= CeilDiv(|list|, limit)
    ensures ConcatPages(list, pages, limit) == list
  {
    CeilDivCovers(|list|, limit);
    assert pages * limit >= CeilDiv(|list|, limit) * limit;
    PagesArePrefix(list, pages, limit);
  }

  /** What a correct server returns for one page of an organization's list. */
  function Serve(list: seq<Resource>, page: nat): ServerPage
    requires page >= 1
  {
    ServerPage(PageOf(list, page, AGGREGATE_RESOURCE_PAGE_SIZE), CeilDiv(|list|, AGGREGATE_RESOURCE_PAGE_SIZE))
  }

  // ---------- Merging ----------

  function Tagged(organization: Id, list: seq<Resource>): seq<Item> {
    seq(|list|, i requires 0 <= i < |list| => Item(organization, list[i]))
  }

  function AllItems(organizations: seq<Id>, lists: map<Id, seq<Resource>>): seq<Item>
    requires forall o :: o in organizations ==> o in lists
  {
    if organizations == [] then []
    else
      var last := organizations[|organizations| - 1];
      AllItems(organizations[..|organizations| - 1], lists) + Tagged(last, lists[last])
  }

  predicate Holds(items: seq<Item>, id: Id) {
    exists i :: 0 <= i < |items| && items[i].resource.id == id
  }

  /** The first item of each resource id, in order. */
  function FirstOfEach(items: seq<Item>): seq<Item> {
    if items == [] then []
    else
      var rest, last := items[..|items| - 1], items[|items| - 1];
      if Holds(rest, last.resource.id) then FirstOfEach(rest) else FirstOfEach(rest) + [last]
  }

  function Insert(item: Item, sorted: seq<Item>): seq<Item> {
    if sorted == [] || item.resource.nameKey < sorted[0].resource.nameKey then [item] + sorted
    else [sorted[0]] + Insert(item, sorted[1..])
  }

  /** A stable sort by name. */
  function SortByName(items: seq<Item>): seq<Item> {
    if items == [] then [] else Insert(items[|items| - 1], SortByName(items[..|items| - 1]))
  }

  function Combined(organizations: seq<Id>, lists: map<Id, seq<Resource>>): seq<Item>
    requires forall o :: o in organizations ==> o in lists
  {
    SortByName(FirstOfEach(AllItems(organizations, lists)))
  }

  // ---------- Sorting ----------

  predicate SortedByName(items: seq<Item>) {
    forall i, j :: 0 <= i < j < |items| ==> items[i].resource.nameKey <= items[j].resource.nameKey
  }

  function WithKey(items: seq<Item>, key: int): seq<Item> {
    if items == [] then []
    else (if items[0].resource.nameKey == key then [items[0]] else []) + WithKey(items[1..], key)
  }

  lemma {:induction false} InsertSorts(item: Item, sorted: seq<Item>)
    requires SortedByName(sorted)
    ensures SortedByName(Insert(item, sorted))
    ensures multiset(Insert(item, sorted)) == multiset(sorted) + multiset{item}
    ensures forall x :: x in Insert(item, sorted) <==> x in sorted || x == item
  {
    if sorted == [] || item.resource.nameKey < sorted[0].resource.nameKey {
      HeadFirst(item, sorted);
    } else {
      var rest := Insert(item, sorted[1..]);
      InsertSorts(item, sorted[1..]);
      assert sorted == [sorted[0]] + sorted[1..];
      HeadFirst(sorted[0], rest);
    }
  }

  lemma HeadFirst(head: Item, rest: seq<Item>)
    requires SortedByName(rest) && forall x :: x in rest ==> head.resource.nameKey <= x.resource.nameKey
    ensures SortedByName([head] + rest)
  {
  }

  lemma {:induction false} InsertIsStable(item: Item, sorted: seq<Item>, key: int)
    requires SortedByName(sorted)
    ensures WithKey(Insert(item, sorted), key)
         == WithKey(sorted, key) + (if item.resource.nameKey == key then [item] else [])
  {
    if sorted != [] && item.resource.nameKey >= sorted[0].resource.nameKey {
      InsertIsStable(item, sorted[1..], key);
    } else {
      assert ([item] + sorted)[1..] == sorted;
      if item.resource.nameKey == key {
        NoneWithKey(sorted, key);
      }
    }
  }

  lemma {:induction false} NoneWithKey(items: seq<Item>, key: int)
    requires forall i :: 0 <= i < |items| ==> items[i].resource.nameKey != key
    ensures WithKey(items, key) == []
  {
    if items != [] {
      NoneWithKey(items[1..], key);
    }
  }

  lemma {:induction false} WithKeyAppend(items: seq<Item>, item: Item, key: int)
    ensures WithKey(items + [item], key) == WithKey(items, key) + (if item.resource.nameKey == key then [item] else [])
  {
    if items == [] {
      assert items + [item] == [item];
    } else {
      var longer := items + [item];
      assert longer[1..] == items[1..] + [item];
      assert longer[0] == items[0];
      WithKeyAppend(items[1..], item, key);
    }
  }

  /** Sorting orders by name, keeps every item, and keeps items of one name in order. */
  lemma {:induction false} SortSorts(items: seq<Item>, key: int)
    ensures SortedByName(SortByName(items))
    ensures multiset(SortByName(items)) == multiset(items)
    ensures WithKey(SortByName(items), key) == WithKey(items, key)
    decreases |items|
  {
    if items != [] {
      var rest, last := items[..|items| - 1], items[|items| - 1];
      assert items == rest + [last];
      SortSorts(rest, key);
      InsertSorts(last, SortByName(rest));
      InsertIsStable(last, SortByName(rest), key);
      WithKeyAppend(rest, last, key);
    }
  }

  // ---------- One item for each resource ----------

  /** The first organization of the list that offers a resource. */
  ghost predicate FirstOffer(organizations: seq<Id>, lists: map<Id, seq<Resource>>, item: Item)
    requires forall o :: o in organizations ==> o in lists
  {
    exists n :: 0 <= n < |organizations| && OffersFirst(organizations, lists, item, n)
  }

  ghost predicate OffersFirst(organizations: seq<Id>, lists: map<Id, seq<Resource>>, item: Item, n: nat)
    requires forall o :: o in organizations ==> o in lists
  {
    && n < |organizations| && item.organization == organizations[n] && item.resource in lists[organizations[n]]
    && forall m :: 0 <= m < n ==> !Offers(lists[organizations[m]], item.resource.id)
  }

  predicate Offers(list: seq<Resource>, id: Id) {
    exists i :: 0 <= i < |list| && list[i].id == id
  }

  ghost predicate OneOfEach(items: seq<Item>) {
    forall i, j :: 0 <= i < j < |items| ==> items[i].resource.id != items[j].resource.id
  }

  lemma {:induction false} FirstOfEachItems(items: seq<Item>)
    ensures OneOfEach(FirstOfEach(items))
    ensures forall id :: Holds(FirstOfEach(items), id) <==> Holds(items, id)
    ensures forall x :: x in FirstOfEach(items) ==> exists i :: 0 <= i < |items| && FirstAt(items, i, x)
    decreases |items|
  {
    if items != [] {
      var rest, last := items[..|items| - 1], items[|items| - 1];
      FirstOfEachItems(rest);
      var first := FirstOfEach(rest);
      forall id ensures Holds(FirstOfEach(items), id) <==> Holds(items, id) {
        HoldsAppend(rest, last, id);
        HoldsAppend(first, last, id);
        assert items == rest + [last];
      }
      forall x | x in FirstOfEach(items) ensures exists i :: 0 <= i < |items| && FirstAt(items, i, x) {
        if x in first {
          var i :| 0 <= i < |rest| && FirstAt(rest, i, x);
          assert FirstAt(items, i, x);
        } else {
          assert FirstAt(items, |items| - 1, x);
        }
      }
      if !Holds(rest, last.resource.id) {
        assert !Holds(first, last.resource.id);
      }
    }
  }

  /** Item x is at i, and no earlier item has its resource. */
  ghost predicate FirstAt(items: seq<Item>, i: nat, x: Item) {
    i < |items| && items[i] == x && forall j :: 0 <= j < i ==> items[j].resource.id != x.resource.id
  }

  lemma HoldsAppend(items: seq<Item>, x: Item, id: Id)
    ensures Holds(items + [x], id) <==> Holds(items, id) || x.resource.id == id
  {
    if Holds(items, id) {
      var i :| 0 <= i < |items| && items[i].resource.id == id;
      assert (items + [x])[i].resource.id == id;
    }
    if x.resource.id == id {
      assert (items + [x])[|items|].resource.id == id;
    }
  }

  /** A first item of the concatenated lists carries the first organization offering
      its resource. */
  lemma {:induction false} FirstAtOffers(organizations: seq<Id>, lists: map<Id, seq<Resource>>, i: nat, x: Item)
    requires forall o :: o in organizations ==> o in lists
    requires FirstAt(AllItems(organizations, lists), i, x)
    ensures FirstOffer(organizations, lists, x)
    decreases |organizations|
  {
    var rest, last := organizations[..|organizations| - 1], organizations[|organizations| - 1];
    assert organizations == rest + [last];
    var before, tail := AllItems(rest, lists), Tagged(last, lists[last]);
    FirstAtSplit(before, tail, i, x);
    if i < |before| {
      FirstAtOffers(rest, lists, i, x);
      var n :| 0 <= n < |rest| && OffersFirst(rest, lists, x, n);
      assert OffersFirst(organizations, lists, x, n);
    } else {
      assert x == tail[i - |before|];
      forall m | 0 <= m < |rest| ensures !Offers(lists[organizations[m]], x.resource.id) {
        if Offers(lists[organizations[m]], x.resource.id) {
          OfferedIsHeld(rest, lists, m, x.resource.id);
        }
      }
      assert OffersFirst(organizations, lists, x, |organizations| - 1);
    }
  }

  lemma FirstAtSplit(before: seq<Item>, tail: seq<Item>, i: nat, x: Item)
    requires FirstAt(before + tail, i, x)
    ensures if i < |before| then FirstAt(before, i, x) else !Holds(before, x.resource.id) && tail[i - |before|] == x
  {
    var all := before + tail;
    assert forall j :: 0 <= j < |before| ==> all[j] == before[j];
  }

  lemma {:induction false} OfferedIsHeld(organizations: seq<Id>, lists: map<Id, seq<Resource>>, m: nat, id: Id)
    requires forall o :: o in organizations ==> o in lists
    requires m < |organizations| && Offers(lists[organizations[m]], id)
    ensures Holds(AllItems(organizations, lists), id)
    decreases |organizations|
  {
    var rest, last := organizations[..|organizations| - 1], organizations[|organizations| - 1];
    var before, all := AllItems(rest, lists), AllItems(organizations, lists);
    if m < |rest| {
      OfferedIsHeld(rest, lists, m, id);
      var j :| 0 <= j < |before| && before[j].resource.id == id;
      assert all[j].resource.id == id;
    } else {
      var k :| 0 <= k < |lists[last]| && lists[last][k].id == id;
      assert all[|before| + k].resource.id == id;
    }
  }

  /** The combined catalogue is sorted by name, holds each resource that some
      organization offers exactly once and nothing else, and tags it with the first
      organization that offers it. */
  lemma CombinedExactlyOnce(organizations: seq<Id>, lists: map<Id, seq<Resource>>)
    requires forall o :: o in organizations ==> o in lists
    ensures var all := Combined(organizations, lists);
            && SortedByName(all)
            && OneOfEach(all)
            && (forall x :: x in all ==> FirstOffer(organizations, lists, x))
            && (forall m, id :: 0 <= m < |organizations| && Offers(lists[organizations[m]], id) ==> Holds(all, id))
  {
    var items := AllItems(organizations, lists);
    FirstOfEachItems(items);
    SortSorts(FirstOfEach(items), 0);
    SameElements(FirstOfEach(items), Combined(organizations, lists));
    forall x | x in Combined(organizations, lists) ensures FirstOffer(organizations, lists, x) {
      CombinedIsFirst(organizations, lists, x);
    }
    forall m, id | 0 <= m < |organizations| && Offers(lists[organizations[m]], id)
      ensures Holds(Combined(organizations, lists), id)
    {
      OfferedIsHeld(organizations, lists, m, id);
      assert Holds(FirstOfEach(items), id);
    }
  }

  lemma FromMultiset(first: seq<Item>, all: seq<Item>, x: Item)
    requires multiset(all) == multiset(first) && x in all
    ensures x in first
  {
    assert x in multiset(all);
  }

  lemma CombinedIsFirst(organizations: seq<Id>, lists: map<Id, seq<Resource>>, x: Item)
    requires forall o :: o in organizations ==> o in lists
    requires x in Combined(organizations, lists)
    ensures FirstOffer(organizations, lists, x)
  {
    var items := AllItems(organizations, lists);
    var first := FirstOfEach(items);
    SortSorts(first, 0);
    FromMultiset(first, SortByName(first), x);
    FirstOfEachItems(items);
    var i :| 0 <= i < |items| && FirstAt(items, i, x);
    FirstAtOffers(organizations, lists, i, x);
  }

  /** A rearrangement holds the same resources, each as often. */
  lemma SameElements(first: seq<Item>, all: seq<Item>)
    requires OneOfEach(first) && multiset(all) == multiset(first)
    ensures OneOfEach(all)
    ensures forall id :: Holds(all, id) <==> Holds(first, id)
  {
    forall i, j | 0 <= i < j < |all| ensures all[i].resource.id != all[j].resource.id {
      if all[i].resource.id == all[j].resource.id {
        TwiceInMultiset(all, i, j);
        assert all[i] in multiset(first) && all[j] in multiset(first);
        var k :| 0 <= k < |first| && first[k] == all[i];
        var n :| 0 <= n < |first| && first[n] == all[j];
        assert k == n;
        OnceInMultiset(first, k);
      }
    }
    forall id ensures Holds(all, id) <==> Holds(first, id) {
      if Holds(all, id) {
        var i :| 0 <= i < |all| && all[i].resource.id == id;
        assert all[i] in multiset(first);
      }
      if Holds(first, id) {
        var i :| 0 <= i < |first| && first[i].resource.id == id;
        assert first[i] in multiset(all);
      }
    }
  }

  lemma TwiceInMultiset(items: seq<Item>, i: nat, j: nat)
    requires i < j < |items|
    ensures items[i] == items[j] ==> multiset(items)[items[i]] >= 2
  {
    assert items == items[..j] + [items[j]] + items[j + 1..];
    assert items[..j] == items[..i] + [items[i]] + items[..j][i + 1..];
  }

  lemma OnceInMultiset(items: seq<Item>, k: nat)
    requires OneOfEach(items) && k < |items|
    ensures multiset(items)[items[k]] == 1
  {
    assert items == items[..k] + [items[k]] + items[k + 1..];
    assert items[k] !in items[..k] && items[k] !in items[k + 1..];
  }

  // ---------- The catalogue page ----------

  /** With ten to a page, the page after clamping starts within the list, and only the
      empty list has an empty page. */
  lemma TenToAPage(n: nat, requested: nat)
    requires requested >= 1
    ensures var totalPages := (n + 9) / 10;
            var page := if requested <= totalPages then requested else if totalPages == 0 then 1 else totalPages;
            && totalPages == CeilDiv(n, RESOURCE_PAGE_SIZE)
            && page == Min(requested, Max(totalPages, 1)) >= 1
            && (page - 1) * RESOURCE_PAGE_SIZE == 10 * (page - 1) <= n
            && (10 * (page - 1) == n <==> n == 0)
  {
  }

  lemma PageSlice(all: seq<Item>, page: nat)
    requires page >= 1 && 10 * (page - 1) <= |all|
    ensures PageOf(all, page, RESOURCE_PAGE_SIZE) == all[10 * (page - 1)..if 10 * page < |all| then 10 * page else |all|]
    ensures PageOf(all, page, RESOURCE_PAGE_SIZE) == [] <==> 10 * (page - 1) == |all|
  {
    assert (page - 1) * RESOURCE_PAGE_SIZE == 10 * (page - 1);
  }

  lemma PagesTogether(all: seq<Item>)
    ensures ConcatPages(all, (|all| + 9) / 10, RESOURCE_PAGE_SIZE) == all
  {
    PagesAreWhole(all, RESOURCE_PAGE_SIZE, CeilDiv(|all|, RESOURCE_PAGE_SIZE));
  }

  /** Any page asked for is clamped to one that exists, holds at most ten items, and is
      empty only when the catalogue is; pages 1 to totalPages are the whole catalogue. */
  lemma PageIsClamped(all: seq<Item>, requested: nat)
    requires requested >= 1
    ensures var totalPages := (|all| + 9) / 10;
            var page := if requested <= totalPages then requested else if totalPages == 0 then 1 else totalPages;
            && totalPages == CeilDiv(|all|, RESOURCE_PAGE_SIZE)
            && page == Min(requested, Max(totalPages, 1)) && 10 * (page - 1) <= |all|
            && PageOf(all, page, RESOURCE_PAGE_SIZE)
               == all[10 * (page - 1)..if 10 * page < |all| then 10 * page else |all|]
            && (PageOf(all, page, RESOURCE_PAGE_SIZE) == [] <==> all == [])
            && ConcatPages(all, totalPages, RESOURCE_PAGE_SIZE) == all
  {
    TenToAPage(|all|, requested);
    PageSlice(all, Min(requested, Max(CeilDiv(|all|, RESOURCE_PAGE_SIZE), 1)));
    PagesTogether(all);
  }

  /** All pages of one organization, tagged. The first page says how many there are. */
  method FetchAll(organization: Id, list: seq<Resource>) returns (items: seq<Item>)
    ensures items == Tagged(organization, list)
  {
    var firstPage := Serve(list, 1);
    var data := firstPage.data;
    var page := 1;
    assert ConcatPages(list, 0, AGGREGATE_RESOURCE_PAGE_SIZE) + firstPage.data == firstPage.data;
    while page < firstPage.totalPages
      invariant 1 <= page <= Max(firstPage.totalPages, 1)
      invariant data == ConcatPages(list, page, AGGREGATE_RESOURCE_PAGE_SIZE)
    {
      page := page + 1;
      data := data + Serve(list, page).data;
    }
    PagesAreWhole(list, AGGREGATE_RESOURCE_PAGE_SIZE, page);
    items := Tagged(organization, data);
  }

  /** The lists of all organizations, one after the other. */
  method FetchEach(organizations: seq<Id>, lists: map<Id, seq<Resource>>) returns (fetched: seq<Item>)
    requires forall o :: o in organizations ==> o in lists
    ensures fetched == AllItems(organizations, lists)
  {
    fetched := [];
    var n := 0;
    while n < |organizations|
      invariant 0 <= n <= |organizations|
      invariant fetched == AllItems(organizations[..n], lists)
    {
      assert organizations[..n + 1][..n] == organizations[..n];
      var items := FetchAll(organizations[n], lists[organizations[n]]);
      fetched := fetched + items;
      n := n + 1;
    }
    assert organizations[..n] == organizations;
  }

  /** The values of a map that keeps the first item put under each resource id. */
  method KeepFirst(fetched: seq<Item>) returns (kept: seq<Item>)
    ensures kept == FirstOfEach(fetched)
  {
    var byId: set<Id> := {};
    kept := [];
    var i := 0;
    while i < |fetched|
      invariant 0 <= i <= |fetched|
      invariant kept == FirstOfEach(fetched[..i])
      invariant forall id :: id in byId <==> Holds(fetched[..i], id)
    {
      assert fetched[..i + 1] == fetched[..i] + [fetched[i]];
      var id := fetched[i].resource.id;
      forall x ensures Holds(fetched[..i + 1], x) <==> Holds(fetched[..i], x) || x == id {
        HoldsAppend(fetched[..i], fetched[i], x);
      }
      if id !in byId {
        byId := byId + {id};
        kept := kept + [fetched[i]];
      }
      i := i + 1;
    }
    assert fetched[..i] == fetched;
  }

  method GetCombinedCatalogue(organizations: seq<Id>, requestedPage: nat, lists: map<Id, seq<Resource>>)
    returns (catalogue: CataloguePage)
    requires requestedPage >= 1 && forall o :: o in organizations ==> o in lists
    ensures var all := Combined(organizations, lists);
            && catalogue.total == |all| && catalogue.totalPages == (|all| + 9) / 10 && catalogue.limit == 10
            && catalogue.page == (if requestedPage <= catalogue.totalPages then requestedPage
                                  else if all == [] then 1 else catalogue.totalPages)
            && catalogue.page >= 1 && 10 * (catalogue.page - 1) <= |all|
            && catalogue.data
               == all[10 * (catalogue.page - 1)..if 10 * catalogue.page < |all| then 10 * catalogue.page else |all|]
            && |catalogue.data| <= 10 && (catalogue.data == [] <==> all == [])
  {
    var fetched := FetchEach(organizations, lists);
    var kept := KeepFirst(fetched);
    var resources := SortByName(kept);
    var total := |resources|;
    var totalPages := CeilDiv(total, RESOURCE_PAGE_SIZE);
    var page := Min(requestedPage, Max(totalPages, 1));
    PageIsClamped(resources, requestedPage);
    catalogue := CataloguePage(PageOf(resources, page, RESOURCE_PAGE_SIZE), total, page, RESOURCE_PAGE_SIZE, totalPages);
  }
}
