/**
 The device registry of internal/catalog: validation and listing options (device.go), and what a page
 of a listing is. The stores that produce pages are in `CatalogStores`.
 */
module Catalog {
  import opened Sequences
  import opened Text
  import opened Patterns

  // ---------------------------------------------------------------- devices

  datatype Device = Device(id: string, name: string, site: string, kind: string, createdAt: real, updatedAt: real)

  datatype Error =
    | IdRequired | IdMalformed | NameRequired | NameTooLong | SiteRequired | SiteTooLong | KindTooLong
    | AlreadyExists | NotFound

  datatype Result<T> = Ok(value: T) | Err(error: Error)

  predicate AlphaNum(c: char) { 'a' <= c <= 'z' || '0' <= c <= '9' }

  /** ^[a-z0-9][a-z0-9-]{1,62}$ */
  predicate ValidId(s: string) {
    2 <= |s| <= 63 && AlphaNum(s[0]) && forall i | 0 < i < |s| :: AlphaNum(s[i]) || s[i] == '-'
  }

  const ALPHANUM := LOWER + DIGITS

  /** ^[a-z0-9][a-z0-9-]{1,62}$ as a pattern. */
  const ID_PATTERN := Then(Class(ALPHANUM), Times(Class(ALPHANUM + "-"), 1, 62))

  lemma AlphaNumIsListed(c: char)
    ensures AlphaNum(c) <==> c in ALPHANUM
  {
    hide Range;
    InRange('a', 26, c);
    InRange('0', 10, c);
  }

  /** An id is valid exactly if it matches the pattern. */
  lemma ValidIdMatchesPattern(s: string)
    ensures ValidId(s) <==> Matches(ID_PATTERN, s)
  {
    hide AlphaNum, Matches;
    FirstAndRest(ALPHANUM, ALPHANUM + "-", 1, 62, s);
    forall i | 0 <= i < |s|
      ensures AlphaNum(s[i]) <==> s[i] in ALPHANUM
    {
      AlphaNumIsListed(s[i]);
    }
    if |s| >= 1 {
      assert forall i | 0 < i < |s| :: s[i] == s[1..][i - 1];
      assert forall i | 0 <= i < |s| - 1 :: s[1..][i] == s[i + 1];
    }
  }

  function Normalised(d: Device): Device {
    d.(id := Normal(d.id), name := TrimSpace(d.name), site := Normal(d.site), kind := Normal(d.kind))
  }

  /** A missing kind is unknown. */
  function WithKind(d: Device): Device {
    if d.kind == "" then d.(kind := "unknown") else d
  }

  function Validated(d: Device): Result<Device> {
    var n := Normalised(d);
    if n.id == "" then Err(IdRequired)
    else if !ValidId(n.id) then Err(IdMalformed)
    else if n.name == "" then Err(NameRequired)
    else if |n.name| > 200 then Err(NameTooLong)
    else if n.site == "" then Err(SiteRequired)
    else if |n.site| > 100 then Err(SiteTooLong)
    else if |n.kind| > 100 then Err(KindTooLong)
    else Ok(WithKind(n))
  }

  /** What every stored device satisfies. */
  predicate WellFormed(d: Device) {
    && ValidId(d.id) && Normal(d.id) == d.id
    && d.name != "" && TrimSpace(d.name) == d.name && |d.name| <= 200
    && d.site != "" && Normal(d.site) == d.site && |d.site| <= 100
    && d.kind != "" && Normal(d.kind) == d.kind && |d.kind| <= 100
  }

  lemma ValidIdIsNormal(s: string)
    requires ValidId(s)
    ensures Normal(s) == s && s != ""
  {
    hide AlphaNum, IsSpace, LowerChar, TrimSpace;
    forall i | 0 <= i < |s|
      ensures LowerChar(s[i]) == s[i] && !IsSpace(s[i])
    {
      IdCharIsPlain(s[i]);
    }
    TrimmedIsKept(s);
    assert Lower(s) == s;
  }

  lemma IdCharIsPlain(c: char)
    requires AlphaNum(c) || c == '-'
    ensures LowerChar(c) == c && !IsSpace(c)
  {
  }

  /**
   Validation accepts exactly the devices that are well formed once normalised and given a kind,
   returns that device, and accepts it again unchanged.
   */
  lemma ValidationIsIdempotent(d: Device)
    ensures Validated(d).Ok? <==> WellFormed(WithKind(Normalised(d)))
    ensures Validated(d).Ok? ==> Validated(d).value == WithKind(Normalised(d))
    ensures Validated(d).Ok? ==> WellFormed(Validated(d).value) && Validated(Validated(d).value) == Validated(d)
    ensures WellFormed(d) ==> Validated(d) == Ok(d)
  {
    hide Normal, TrimSpace, AlphaNum;
    NormalIsIdempotent(d.id);
    NormalIsIdempotent(d.site);
    NormalIsIdempotent(d.kind);
    TrimIsIdempotent(d.name);
    UnknownIsNormal();
  }

  /** Which rule a rejected device breaks: the first of these, in this order. */
  lemma RejectionMeans(d: Device)
    ensures
      var id, name, site := Normal(d.id), TrimSpace(d.name), Normal(d.site);
      match Validated(d)
      case Ok(_) => true
      case Err(e) =>
        if id == "" then e == IdRequired
        else if !Matches(ID_PATTERN, id) then e == IdMalformed
        else if name == "" then e == NameRequired
        else if |name| > 200 then e == NameTooLong
        else if site == "" then e == SiteRequired
        else if |site| > 100 then e == SiteTooLong
        else e == KindTooLong && |Normal(d.kind)| > 100
  {
    hide Normal, TrimSpace, ValidId, Matches;
    ValidIdMatchesPattern(Normal(d.id));
  }

  lemma TrimIsIdempotent(s: string)
    ensures TrimSpace(TrimSpace(s)) == TrimSpace(s)
  {
    TrimSpaceTrims(s);
    TrimmedIsKept(TrimSpace(s));
  }

  lemma UnknownIsNormal()
    ensures Normal("unknown") == "unknown"
  {
    assert ValidId("unknown");
    ValidIdIsNormal("unknown");
  }

  /** A device being validated in place. */
  class Draft {
    var device: Device

    constructor (d: Device)
      ensures device == d
    {
      device := d;
    }

    method Validate() returns (ok: bool, error: Error)
      modifies this
      ensures ok ==> Ok(device) == Validated(old(device))
      ensures !ok ==> Err(error) == Validated(old(device)) && device == Normalised(old(device))
    {
      hide Normal, TrimSpace, ValidId;
      device := Normalised(device);
      error := IdRequired;
      if device.id == "" { return false, IdRequired; }
      if !ValidId(device.id) { return false, IdMalformed; }
      if device.name == "" { return false, NameRequired; }
      if |device.name| > 200 { return false, NameTooLong; }
      if device.site == "" { return false, SiteRequired; }
      if |device.site| > 100 { return false, SiteTooLong; }
      if |device.kind| > 100 { return false, KindTooLong; }
      if device.kind == "" {
        device := device.(kind := "unknown");
      }
      return true, error;
    }
  }

  // ---------------------------------------------------------------- listing options

  datatype ListOptions = ListOptions(site: string, limit: int, cursor: string)

  const DEFAULT_LIMIT := 50
  const MAX_LIMIT := 200

  function Normalise(o: ListOptions): (r: ListOptions)
    ensures 1 <= r.limit <= MAX_LIMIT
    ensures 1 <= o.limit <= 200 ==> r.limit == o.limit
    ensures o.limit <= 0 ==> r.limit == 50
    ensures o.limit > 200 ==> r.limit == 200
  {
    var limit := if o.limit <= 0 then DEFAULT_LIMIT else o.limit;
    ListOptions(Normal(o.site), if limit > MAX_LIMIT then MAX_LIMIT else limit, Normal(o.cursor))
  }

  /** Options being normalised in place. */
  class ListRequest {
    var options: ListOptions

    constructor (o: ListOptions)
      ensures options == o
    {
      options := o;
    }

    method Clamp()
      modifies this
      ensures options == Normalise(old(options))
    {
      options := options.(site := Normal(options.site), cursor := Normal(options.cursor));
      if options.limit <= 0 {
        options := options.(limit := DEFAULT_LIMIT);
      }
      if options.limit > MAX_LIMIT {
        options := options.(limit := MAX_LIMIT);
      }
    }
  }

  datatype Page = Page(devices: seq<Device>, nextCursor: string)

  function Ids(ds: seq<Device>): (ids: seq<string>)
    ensures |ids| == |ds| && forall i | 0 <= i < |ds| :: ids[i] == ds[i].id
  {
    seq(|ds|, i requires 0 <= i < |ds| => ds[i].id)
  }

  // ---------------------------------------------------------------- the store

  type Store = map<string, Device>

  /** Devices are well formed and filed under their own ids. */
  ghost predicate StoreInv(m: Store) {
    forall id | id in m :: m[id].id == id && WellFormed(m[id])
  }

  /** The filter of both stores, on normalised options. */
  predicate Selects(o: ListOptions, d: Device) {
    (o.site == "" || d.site == o.site) && (o.cursor == "" || Less(o.cursor, d.id))
  }

  /** Every selected device, in the order of the ids. */
  ghost predicate IsListing(m: Store, o: ListOptions, ds: seq<Device>) {
    && Ascending(Ids(ds))
    && (forall i | 0 <= i < |ds| :: ds[i].id in m && m[ds[i].id] == ds[i] && Selects(o, ds[i]))
    && (forall id | id in m && Selects(o, m[id]) :: m[id] in ds)
  }

  /** The page that the raw options ask for: the first Limit selected devices, and where to go on. */
  ghost predicate IsPage(m: Store, raw: ListOptions, page: Page) {
    exists all :: IsListing(m, Normalise(raw), all) && page == Cut(all, Normalise(raw).limit)
  }

  function Cut(all: seq<Device>, limit: int): Page
    requires limit >= 1
  {
    if |all| > limit then Page(all[..limit], all[limit - 1].id) else Page(all, "")
  }

  /** There is only one listing, hence only one page. */
  lemma ListingIsUnique(m: Store, o: ListOptions, a: seq<Device>, b: seq<Device>)
    requires IsListing(m, o, a) && IsListing(m, o, b)
    ensures a == b
  {
    forall x
      ensures x in Ids(a) <==> x in Ids(b)
    {
      ListedIds(m, o, a, x);
      ListedIds(m, o, b, x);
    }
    AscendingIsUnique(Ids(a), Ids(b));
    assert |a| == |Ids(a)| == |Ids(b)| == |b|;
    forall i | 0 <= i < |a|
      ensures a[i] == b[i]
    {
      assert Ids(a)[i] == Ids(b)[i];
    }
  }

  lemma ListedIds(m: Store, o: ListOptions, ds: seq<Device>, x: string)
    requires IsListing(m, o, ds)
    ensures x in Ids(ds) <==> x in m && Selects(o, m[x]) && m[x].id == x
  {
    if x in m && Selects(o, m[x]) && m[x].id == x {
      var i :| 0 <= i < |ds| && ds[i] == m[x];
      assert Ids(ds)[i] == x;
    }
  }

  lemma PageIsUnique(m: Store, raw: ListOptions, p: Page, q: Page)
    requires IsPage(m, raw, p) && IsPage(m, raw, q)
    ensures p == q
  {
    var a :| IsListing(m, Normalise(raw), a) && p == Cut(a, Normalise(raw).limit);
    var b :| IsListing(m, Normalise(raw), b) && q == Cut(b, Normalise(raw).limit);
    ListingIsUnique(m, Normalise(raw), a, b);
  }

  // ---------------------------------------------------------------- sorting by id

  predicate DistinctIds(ds: seq<Device>) {
    forall i, j | 0 <= i < j < |ds| :: ds[i].id != ds[j].id
  }

  /** a does not come after b. */
  predicate NotAfter(a: Device, b: Device) { !Less(b.id, a.id) }

  lemma NotAfterIsTotal()
    ensures TotalOrder(NotAfter)
  {
    hide Less;
    forall a: Device, b: Device
      ensures NotAfter(a, b) || NotAfter(b, a)
    {
      LessIsTotal(a.id, b.id);
    }
    forall a: Device, b: Device, c: Device | NotAfter(a, b) && NotAfter(b, c)
      ensures NotAfter(a, c)
    {
      NotAfterIsTransitive(a, b, c);
    }
  }

  lemma NotAfterIsTransitive(a: Device, b: Device, c: Device)
    requires NotAfter(a, b) && NotAfter(b, c)
    ensures NotAfter(a, c)
  {
    hide Less;
    LessIsTotal(a.id, b.id);
    LessIsTotal(b.id, c.id);
    if Less(c.id, a.id) {
      if Less(a.id, b.id) {
        LessIsTransitive(c.id, a.id, b.id);
      }
    }
  }

  /** sort.Slice by id. */
  function SortById(ds: seq<Device>): (r: seq<Device>)
    requires DistinctIds(ds)
    ensures Ascending(Ids(r)) && forall x :: x in r <==> x in ds
  {
    NotAfterIsTotal();
    var r := SortBy(NotAfter, ds);
    SortedAscends(ds, r);
    r
  }

  lemma SortedAscends(ds: seq<Device>, r: seq<Device>)
    requires DistinctIds(ds) && SortedBy(NotAfter, r) && multiset(r) == multiset(ds)
    ensures Ascending(Ids(r)) && forall x :: x in r <==> x in ds
  {
    hide Less;
    PermutedNoDuplicates(ds, r);
    forall i, j | 0 <= i < j < |r|
      ensures Less(Ids(r)[i], Ids(r)[j])
    {
      assert r[i] in ds && r[j] in ds && r[i] != r[j];
      assert NotAfter(r[i], r[j]);
      LessIsTotal(r[i].id, r[j].id);
    }
  }
}
