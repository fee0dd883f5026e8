/**
 Walking a listing page by page: what a client that follows next_cursor gets, while other clients may
 create devices between its pages.
 */
module Pagination {
  import opened Text
  import opened Catalog
  import opened CatalogStores

  /** The raw options of one request of the walk. */
  function Ask(raw: ListOptions, cursor: string): ListOptions { raw.(cursor := cursor) }

  /** The cursor sent with request i: none at first, then the one the page before gave. */
  function CursorAt(pages: seq<Page>, i: nat): string
    requires i <= |pages|
  {
    if i == 0 then "" else pages[i - 1].nextCursor
  }

  /** Page i answers request i from store i. */
  ghost predicate Answered(stores: seq<Store>, raw: ListOptions, pages: seq<Page>, i: nat)
    requires i < |pages| && |stores| == |pages|
  {
    IsPage(stores[i], Ask(raw, CursorAt(pages, i)), pages[i])
  }

  /** Well-formed stores, each extending those before it. */
  ghost predicate Growing(stores: seq<Store>) {
    && (forall i | 0 <= i < |stores| :: StoreInv(stores[i]))
    && (forall i, j | 0 <= i <= j < |stores| :: Extends(stores[i], stores[j]))
  }

  /** Page i is taken from the i-th of a growing sequence of stores, and only the last may end the walk. */
  ghost predicate IsWalk(stores: seq<Store>, raw: ListOptions, pages: seq<Page>) {
    && |stores| == |pages| > 0
    && Growing(stores)
    && (forall i: nat | i < |pages| :: Answered(stores, raw, pages, i))
    && (forall i | 0 <= i < |pages| - 1 :: pages[i].nextCursor != "")
  }

  ghost predicate Complete(pages: seq<Page>) {
    |pages| > 0 && pages[|pages| - 1].nextCursor == ""
  }

  function Collected(pages: seq<Page>): seq<Device> {
    if pages == [] then [] else Collected(pages[..|pages| - 1]) + pages[|pages| - 1].devices
  }

  /** The device passes the site filter. */
  predicate Wanted(raw: ListOptions, d: Device) {
    Normal(raw.site) == "" || d.site == Normal(raw.site)
  }

  /** The cursor of a page: empty, or the id of a stored device. */
  predicate GoodCursor(c: string) { c == "" || ValidId(c) }

  predicate Beyond(c: string, id: string) { c == "" || Less(c, id) }

  lemma CursorSurvives(raw: ListOptions, c: string)
    requires GoodCursor(c)
    ensures var o := Normalise(Ask(raw, c));
      && o.cursor == c && o.limit == Normalise(raw).limit
      && (forall d :: Selects(o, d) <==> Wanted(raw, d) && Beyond(c, d.id))
  {
    hide Normal, ValidId, Less;
    if c == "" {
      EmptyIsNormal();
    } else {
      ValidIdIsNormal(c);
    }
  }

  lemma EmptyIsNormal()
    ensures Normal("") == ""
  {
  }

  // ---------------------------------------------------------------- one page

  /**
   A page holds wanted devices beyond the cursor, in order; what it leaves out lies beyond its own
   cursor; and if it has one, it is full and the cursor is its last id.
   */
  ghost predicate GoodPage(m: Store, raw: ListOptions, c: string, p: Page) {
    && Ascending(Ids(p.devices)) && GoodCursor(p.nextCursor)
    && (forall d | d in p.devices :: d.id in m && m[d.id] == d && Wanted(raw, d) && Beyond(c, d.id))
    && (forall id | id in m && Wanted(raw, m[id]) && Beyond(c, id) ::
          m[id] in p.devices || (p.nextCursor != "" && Less(p.nextCursor, id)))
    && (p.nextCursor != "" ==>
          |p.devices| == Normalise(raw).limit && p.nextCursor == p.devices[|p.devices| - 1].id)
  }

  /** The cursor of a cut listing is a stored id, and what the cut leaves out lies beyond it. */
  lemma CutCursor(m: Store, all: seq<Device>, limit: int)
    requires StoreInv(m) && 1 <= limit < |all| && Ascending(Ids(all))
    requires forall d | d in all :: d.id in m && m[d.id] == d
    ensures var p := Cut(all, limit);
      && ValidId(p.nextCursor) && p.nextCursor != "" && Ascending(Ids(p.devices))
      && (forall i | limit <= i < |all| :: Less(p.nextCursor, all[i].id))
  {
    hide Less, Normal, TrimSpace;
    var p, ids := Cut(all, limit), Ids(all);
    assert Ids(p.devices) == ids[..limit];
    assert p.nextCursor == ids[limit - 1];
    assert all[limit - 1] in all;
    assert WellFormed(m[all[limit - 1].id]);
    forall i | limit <= i < |all|
      ensures Less(p.nextCursor, all[i].id)
    {
      assert Less(ids[limit - 1], ids[i]);
    }
  }

  /** A device of the listing is on the page or beyond the page's cursor. */
  lemma OnPageOrBeyond(all: seq<Device>, limit: int, d: Device)
    requires 1 <= limit < |all| && d in all
    requires forall i | limit <= i < |all| :: Less(Cut(all, limit).nextCursor, all[i].id)
    ensures d in Cut(all, limit).devices || Less(Cut(all, limit).nextCursor, d.id)
  {
    hide Less;
    var i :| 0 <= i < |all| && all[i] == d;
    assert i < limit ==> all[..limit][i] == d;
  }

  lemma PageOfListing(all: seq<Device>, limit: int, d: Device)
    requires limit >= 1 && d in Cut(all, limit).devices
    ensures d in all
  {
  }

  lemma CutIsGood(m: Store, raw: ListOptions, c: string, all: seq<Device>, limit: int)
    requires StoreInv(m) && limit == Normalise(raw).limit
    requires Ascending(Ids(all))
    requires forall d | d in all :: d.id in m && m[d.id] == d && Wanted(raw, d) && Beyond(c, d.id)
    requires forall id | id in m && Wanted(raw, m[id]) && Beyond(c, id) :: m[id] in all
    ensures GoodPage(m, raw, c, Cut(all, limit))
  {
    hide Wanted, Beyond, Normalise, Less, ValidId, WellFormed, Ascending;
    if |all| > limit {
      var p := Cut(all, limit);
      CutCursor(m, all, limit);
      assert |p.devices| == limit && p.nextCursor == p.devices[limit - 1].id;
      hide Cut;
      forall d | d in p.devices
        ensures d.id in m && m[d.id] == d && Wanted(raw, d) && Beyond(c, d.id)
      {
        PageOfListing(all, limit, d);
      }
      forall id | id in m && Wanted(raw, m[id]) && Beyond(c, id)
        ensures m[id] in p.devices || Less(p.nextCursor, id)
      {
        OnPageOrBeyond(all, limit, m[id]);
      }
    }
  }

  lemma PageIsGood(m: Store, raw: ListOptions, c: string, p: Page)
    requires StoreInv(m) && GoodCursor(c) && IsPage(m, Ask(raw, c), p)
    ensures GoodPage(m, raw, c, p)
  {
    hide Normalise, Selects, Wanted, Beyond, WellFormed, GoodPage;
    CursorSurvives(raw, c);
    var o := Normalise(Ask(raw, c));
    var all :| IsListing(m, o, all) && p == Cut(all, o.limit);
    CutIsGood(m, raw, c, all, o.limit);
  }

  /** The limit that a request asks for: fifty if it names none, and two hundred at most. */
  function Asked(limit: int): (n: nat)
    ensures 1 <= n <= 200
  {
    if limit <= 0 then 50 else if limit > 200 then 200 else limit
  }

  /** The request selects the device: its site if the request names one, and an id after its cursor. */
  predicate Chosen(raw: ListOptions, d: Device) {
    var site, cursor := Normal(raw.site), Normal(raw.cursor);
    (site != "" ==> d.site == site) && (cursor != "" ==> Less(cursor, d.id))
  }

  /** `all` is every chosen device of the store, by increasing ids. */
  ghost predicate IsChoice(m: Store, raw: ListOptions, all: seq<Device>) {
    && Ascending(Ids(all))
    && (forall d :: d in all <==> d.id in m && m[d.id] == d && Chosen(raw, d))
  }

  /**
   What a page is in terms of the request alone. Of the devices that the request selects, in the order
   of their ids, the page has the first ones up to the limit asked for, and it has a cursor, the last of
   their ids, if and only if there are more.
   */
  lemma PageByRequest(m: Store, raw: ListOptions, page: Page) returns (all: seq<Device>)
    requires StoreInv(m) && IsPage(m, raw, page)
    ensures IsChoice(m, raw, all)
    ensures page.devices == if |all| <= Asked(raw.limit) then all else all[..Asked(raw.limit)]
    ensures page.nextCursor == if |all| <= Asked(raw.limit) then "" else all[Asked(raw.limit) - 1].id
    ensures page.nextCursor != "" <==> |all| > Asked(raw.limit)
  {
    hide WellFormed, Normalise, IsListing, IsChoice, Asked;
    var o := Normalise(raw);
    all :| IsListing(m, o, all) && page == Cut(all, o.limit);
    ListingIsChoice(m, raw, all);
    LimitIsAsked(raw);
    if |all| > o.limit {
      ListedIsStored(m, o, all, o.limit - 1);
      IdIsNotEmpty(m[all[o.limit - 1].id]);
    }
  }

  lemma LimitIsAsked(raw: ListOptions)
    ensures Normalise(raw).limit == Asked(raw.limit)
  {
    hide Normal;
  }

  lemma ListedIsStored(m: Store, o: ListOptions, all: seq<Device>, i: nat)
    requires IsListing(m, o, all) && i < |all|
    ensures all[i].id in m && m[all[i].id] == all[i]
  {
  }

  lemma SelectsChosen(raw: ListOptions, d: Device)
    ensures Selects(Normalise(raw), d) <==> Chosen(raw, d)
  {
    hide Normal, Less;
  }

  lemma ListingIsChoice(m: Store, raw: ListOptions, all: seq<Device>)
    requires StoreInv(m) && IsListing(m, Normalise(raw), all)
    ensures IsChoice(m, raw, all)
  {
    hide Normalise, Selects, Chosen, WellFormed, Ascending;
    forall d: Device
      ensures d in all <==> d.id in m && m[d.id] == d && Chosen(raw, d)
    {
      SelectsChosen(raw, d);
    }
  }

  lemma IdIsNotEmpty(d: Device)
    requires WellFormed(d)
    ensures d.id != ""
  {
  }

  // ---------------------------------------------------------------- the walk, page after page

  lemma {:induction false} CursorsAreGood(stores: seq<Store>, raw: ListOptions, pages: seq<Page>, i: nat)
    requires IsWalk(stores, raw, pages) && i < |pages|
    ensures GoodCursor(CursorAt(pages, i)) && GoodPage(stores[i], raw, CursorAt(pages, i), pages[i])
  {
    hide IsPage, GoodPage, StoreInv, Extends, GoodCursor;
    if i == 0 {
      NoCursorIsGood();
    } else {
      CursorsAreGood(stores, raw, pages, i - 1);
      GoodPageCursor(stores[i - 1], raw, CursorAt(pages, i - 1), pages[i - 1]);
    }
    assert Answered(stores, raw, pages, i);
    PageIsGood(stores[i], raw, CursorAt(pages, i), pages[i]);
  }

  lemma NoCursorIsGood()
    ensures GoodCursor("")
  {
  }

  lemma GoodPageCursor(m: Store, raw: ListOptions, c: string, p: Page)
    requires GoodPage(m, raw, c, p)
    ensures GoodCursor(p.nextCursor)
  {
  }

  lemma IdsConcat(a: seq<Device>, b: seq<Device>)
    ensures Ids(a + b) == Ids(a) + Ids(b)
  {
  }

  /** Appending ids that all lie beyond the last one keeps the order. */
  lemma AscendingConcat(a: seq<string>, b: seq<string>)
    requires Ascending(a) && Ascending(b)
    requires a != [] ==> forall y | y in b :: Less(a[|a| - 1], y)
    ensures Ascending(a + b)
  {
    var s := a + b;
    forall i, j | 0 <= i < j < |s|
      ensures Less(s[i], s[j])
    {
      if i < |a| <= j {
        var last := a[|a| - 1];
        assert b[j - |a|] in b && s[j] == b[j - |a|];
        if i < |a| - 1 {
          LessIsTransitive(a[i], last, s[j]);
        }
      }
    }
  }

  /** What the first k pages of a walk have delivered. */
  ghost predicate Delivered(stores: seq<Store>, raw: ListOptions, pages: seq<Page>, k: nat)
    requires 0 < k <= |pages| && |stores| == |pages|
  {
    var got, c := Collected(pages[..k]), pages[k - 1].nextCursor;
    && Ascending(Ids(got))
    && (c != "" ==> got != [] && got[|got| - 1].id == c)
    && (forall d | d in got :: d.id in stores[k - 1] && stores[k - 1][d.id] == d && Wanted(raw, d))
    && (forall id | id in stores[0] && Wanted(raw, stores[0][id]) ::
          stores[0][id] in got || (c != "" && Less(c, id)))
  }

  lemma FirstPageDelivers(m: Store, raw: ListOptions, pages: seq<Page>, stores: seq<Store>)
    requires |stores| == |pages| > 0 && stores[0] == m && GoodPage(m, raw, "", pages[0]) && StoreInv(m)
    ensures Delivered(stores, raw, pages, 1)
  {
    hide Wanted, Less, Normalise, WellFormed;
    assert pages[..1][..0] == [];
    assert Collected(pages[..1]) == [] + pages[0].devices == pages[0].devices;
  }

  lemma NextPageDelivers(stores: seq<Store>, raw: ListOptions, pages: seq<Page>, k: nat)
    requires 0 < k < |pages| == |stores| && pages[k - 1].nextCursor != ""
    requires Delivered(stores, raw, pages, k)
    requires GoodPage(stores[k], raw, pages[k - 1].nextCursor, pages[k])
    requires Extends(stores[0], stores[k]) && Extends(stores[k - 1], stores[k])
    requires StoreInv(stores[0])
    ensures Delivered(stores, raw, pages, k + 1)
  {
    hide Wanted, Less, Normalise, WellFormed;
    var got, more := Collected(pages[..k]), pages[k].devices;
    assert pages[..k + 1][..k] == pages[..k];
    assert Collected(pages[..k + 1]) == got + more;
    IdsConcat(got, more);
    assert Ids(got)[|got| - 1] == pages[k - 1].nextCursor;
    forall y | y in Ids(more)
      ensures Less(pages[k - 1].nextCursor, y)
    {
      var i :| 0 <= i < |more| && Ids(more)[i] == y;
      assert more[i] in more;
    }
    AscendingConcat(Ids(got), Ids(more));
  }

  lemma {:induction false} WalkDelivers(stores: seq<Store>, raw: ListOptions, pages: seq<Page>, k: nat)
    requires IsWalk(stores, raw, pages) && 0 < k <= |pages|
    ensures Delivered(stores, raw, pages, k)
  {
    hide GoodPage, Delivered, StoreInv, Extends, Answered;
    CursorsAreGood(stores, raw, pages, k - 1);
    if k == 1 {
      FirstPageDelivers(stores[0], raw, pages, stores);
    } else {
      WalkDelivers(stores, raw, pages, k - 1);
      NextPageDelivers(stores, raw, pages, k - 1);
    }
  }

  // ---------------------------------------------------------------- theorems

  /**
   Ids strictly increase, so no device comes twice; what is delivered is stored in the end and wanted;
   and everything wanted that was stored at the start is delivered.
   */
  ghost predicate Exact(first: Store, last: Store, raw: ListOptions, got: seq<Device>) {
    && Ascending(Ids(got))
    && (forall d | d in got :: d.id in last && last[d.id] == d && Wanted(raw, d))
    && (forall id | id in first && Wanted(raw, first[id]) :: first[id] in got)
  }

  /** Following next_cursor to the end is exact, even if devices are created between the pages. */
  lemma WalkIsExact(stores: seq<Store>, raw: ListOptions, pages: seq<Page>)
    requires IsWalk(stores, raw, pages) && Complete(pages)
    ensures Exact(stores[0], stores[|stores| - 1], raw, Collected(pages))
  {
    hide Growing, Answered, Wanted;
    assert pages[..|pages|] == pages;
    WalkDelivers(stores, raw, pages, |pages|);
  }

  lemma ExactIsListing(m: Store, raw: ListOptions, got: seq<Device>)
    requires Exact(m, m, raw, got)
    ensures IsListing(m, Normalise(Ask(raw, "")), got)
  {
    hide Selects, Wanted, Normalise, Ascending;
    NoCursorIsGood();
    CursorSurvives(raw, "");
    var o := Normalise(Ask(raw, ""));
    forall d: Device
      ensures Selects(o, d) <==> Wanted(raw, d)
    {
      assert Beyond("", d.id);
    }
  }

  /** Without creations the walk is the listing, cut into pages. */
  lemma QuietWalkIsListing(m: Store, stores: seq<Store>, raw: ListOptions, pages: seq<Page>)
    requires IsWalk(stores, raw, pages) && Complete(pages)
    requires forall i | 0 <= i < |stores| :: stores[i] == m
    ensures IsListing(m, Normalise(Ask(raw, "")), Collected(pages))
  {
    hide Growing, Answered, Exact, IsListing;
    WalkIsExact(stores, raw, pages);
    ExactIsListing(m, raw, Collected(pages));
  }

  lemma GrowOnce(stores: seq<Store>, m: Store)
    requires Growing(stores) && StoreInv(m) && forall i | 0 <= i < |stores| :: Extends(stores[i], m)
    ensures Growing(stores + [m])
  {
    hide StoreInv, Extends;
    SameStore(m);
  }

  /** A walk that is not complete can go on: the store answers the next request. */
  lemma WalkGoesOn(stores: seq<Store>, raw: ListOptions, pages: seq<Page>, m: Store) returns (page: Page)
    requires IsWalk(stores, raw, pages) && !Complete(pages)
    requires StoreInv(m) && forall i | 0 <= i < |stores| :: Extends(stores[i], m)
    ensures IsWalk(stores + [m], raw, pages + [page])
  {
    hide IsPage, StoreInv, Extends, Growing;
    page := PageExists(m, Ask(raw, CursorAt(pages, |pages|)));
    GrowOnce(stores, m);
    var stores', pages' := stores + [m], pages + [page];
    forall i: nat | i < |pages'|
      ensures Answered(stores', raw, pages', i)
    {
      if i < |pages| {
        assert Answered(stores, raw, pages, i);
        assert CursorAt(pages', i) == CursorAt(pages, i);
      }
    }
  }

  lemma {:induction false} FullPages(pages: seq<Page>, limit: nat)
    requires forall i | 0 <= i < |pages| :: |pages[i].devices| == limit
    ensures |Collected(pages)| == |pages| * limit
  {
    if pages != [] {
      FullPages(pages[..|pages| - 1], limit);
      assert |pages| * limit == (|pages| - 1) * limit + limit;
    }
  }

  lemma {:induction false} DistinctFit(ids: seq<string>, keys: set<string>)
    requires Ascending(ids) && forall x | x in ids :: x in keys
    ensures |ids| <= |keys|
  {
    hide Less;
    if ids != [] {
      var n := |ids| - 1;
      var rest := keys - {ids[n]};
      forall x | x in ids[..n]
        ensures x in rest
      {
        LessIsTotal(ids[n], ids[n]);
      }
      DistinctFit(ids[..n], rest);
    }
  }

  lemma DeliveredFits(stores: seq<Store>, raw: ListOptions, pages: seq<Page>, k: nat)
    requires 0 < k <= |pages| && |stores| == |pages| && Delivered(stores, raw, pages, k)
    ensures |Collected(pages[..k])| <= |stores[k - 1]|
  {
    hide Wanted, Less;
    var got, m := Collected(pages[..k]), stores[k - 1];
    forall x | x in Ids(got)
      ensures x in m.Keys
    {
      var i :| 0 <= i < |got| && Ids(got)[i] == x;
      assert got[i] in got;
    }
    DistinctFit(Ids(got), m.Keys);
  }

  /** And it cannot go on for ever: every page but the last is full, so the store bounds their number. */
  lemma WalkIsBounded(stores: seq<Store>, raw: ListOptions, pages: seq<Page>)
    requires IsWalk(stores, raw, pages) && |pages| > 1
    ensures (|pages| - 1) * Normalise(raw).limit <= |stores[|pages| - 2]|
    ensures |pages| - 1 <= |stores[|pages| - 2]|
  {
    hide Growing, Answered, Normalise, Delivered;
    var n, limit := |pages| - 1, Normalise(raw).limit;
    forall i | 0 <= i < n
      ensures |pages[..n][i].devices| == limit
    {
      CursorsAreGood(stores, raw, pages, i);
    }
    FullPages(pages[..n], limit);
    WalkDelivers(stores, raw, pages, n);
    DeliveredFits(stores, raw, pages, n);
    AtLeastOnce(n, limit);
  }

  lemma AtLeastOnce(n: nat, limit: int)
    requires limit >= 1
    ensures n <= n * limit
  {
    assert n * (limit - 1) >= 0;
  }
}
