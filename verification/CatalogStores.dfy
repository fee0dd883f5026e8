/** The two stores behind the catalog: the in-memory repository, and the paging of the Postgres one. */
module CatalogStores {
  import opened Text
  import opened Catalog

  /** What creating a device answers: the stored device, or why not. */
  function CreateIn(m: Store, d: Device, now: real): Result<Device> {
    match Validated(d)
    case Err(e) => Err(e)
    case Ok(v) => if v.id in m then Err(AlreadyExists) else Ok(v.(createdAt := now, updatedAt := now))
  }

  /** Stores only grow: nothing is removed or replaced. */
  ghost predicate Extends(m: Store, m': Store) {
    forall id | id in m :: id in m' && m'[id] == m[id]
  }

  lemma CreateKeepsStore(m: Store, d: Device, now: real)
    requires StoreInv(m)
    ensures var r := CreateIn(m, d, now);
      r.Ok? ==> r.value.id !in m && StoreInv(m[r.value.id := r.value]) && Extends(m, m[r.value.id := r.value])
  {
    hide Normal, ValidId, TrimSpace, Validated;
    ValidationIsIdempotent(d);
  }

  /**
   What creating a device comes to. The device is stored, trimmed and in lower case but for its name,
   with a kind and both time stamps, if and only if that is well formed and its id is new; and an id that
   is taken is the reason only if nothing else is wrong.
   */
  lemma CreateMeans(m: Store, d: Device, now: real)
    ensures
      var kind := if Normal(d.kind) == "" then "unknown" else Normal(d.kind);
      var stored := Device(Normal(d.id), TrimSpace(d.name), Normal(d.site), kind, now, now);
      var r := CreateIn(m, d, now);
      && (r.Ok? <==> WellFormed(stored) && stored.id !in m)
      && (r.Ok? ==> r.value == stored)
      && (r == Err(AlreadyExists) <==> WellFormed(stored) && stored.id in m)
  {
    hide Normal, ValidId, TrimSpace, Validated;
    ValidationIsIdempotent(d);
    NotAboutTheStore(d);
  }

  lemma NotAboutTheStore(d: Device)
    ensures Validated(d) != Err(AlreadyExists)
  {
    hide Normal, ValidId, TrimSpace;
  }

  /** The store after any number of requests to create a device, accepted or not. */
  function CreateAll(m: Store, requests: seq<(Device, real)>): Store {
    if requests == [] then m
    else
      var n := |requests| - 1;
      var m1 := CreateAll(m, requests[..n]);
      var r := CreateIn(m1, requests[n].0, requests[n].1);
      if r.Ok? then m1[r.value.id := r.value] else m1
  }

  /** Creating devices keeps the store well formed and leaves what is stored alone. */
  lemma {:induction false} CreateAllGrows(m: Store, requests: seq<(Device, real)>)
    requires StoreInv(m)
    ensures StoreInv(CreateAll(m, requests)) && Extends(m, CreateAll(m, requests))
  {
    hide StoreInv, CreateIn;
    if requests != [] {
      var n := |requests| - 1;
      CreateAllGrows(m, requests[..n]);
      CreateKeepsStore(CreateAll(m, requests[..n]), requests[n].0, requests[n].1);
    }
  }

  lemma SameStore(m: Store)
    ensures Extends(m, m)
  {
  }

  lemma EmptyStore()
    ensures StoreInv(map[])
  {
    hide WellFormed;
  }

  /** Sorting what a scan of the store has matched gives the listing. */
  lemma SortedMatchesAreListing(m: Store, o: ListOptions, matched: seq<Device>)
    requires DistinctIds(matched)
    requires forall d | d in matched :: d.id in m && m[d.id] == d && Selects(o, d)
    requires forall id | id in m && Selects(o, m[id]) :: m[id] in matched
    ensures IsListing(m, o, SortById(matched))
  {
    hide Selects, SortById;
  }

  class MemoryRepository {
    var devices: Store

    ghost predicate Valid()
      reads this
    {
      StoreInv(devices)
    }

    constructor ()
      ensures Valid() && devices == map[]
    {
      devices := map[];
      new;
      hide StoreInv;
      EmptyStore();
    }

    method Create(d: Device, now: real) returns (r: Result<Device>)
      requires Valid()
      modifies this
      ensures Valid() && Extends(old(devices), devices)
      ensures r == CreateIn(old(devices), d, now)
      ensures devices == if r.Ok? then old(devices)[r.value.id := r.value] else old(devices)
    {
      hide Validated, Normalised, StoreInv, Extends;
      CreateKeepsStore(devices, d, now);
      SameStore(devices);
      var draft := new Draft(d);
      var ok, error := draft.Validate();
      if !ok {
        return Err(error);
      }
      var v := draft.device;
      if v.id in devices {
        return Err(AlreadyExists);
      }
      v := v.(createdAt := now, updatedAt := now);
      devices := devices[v.id := v];
      return Ok(v);
    }

    method Get(id: string) returns (r: Result<Device>)
      requires Valid()
      ensures r == if id in devices then Ok(devices[id]) else Err(NotFound)
      ensures r.Ok? ==> r.value.id == id && WellFormed(r.value)
    {
      if id !in devices {
        return Err(NotFound);
      }
      return Ok(devices[id]);
    }

    method List(raw: ListOptions) returns (page: Page)
      requires Valid()
      ensures IsPage(devices, raw, page)
    {
      hide Normalise, Selects, WellFormed, SortById, IsListing;
      var request := new ListRequest(raw);
      request.Clamp();
      var opts := request.options;
      var matched: seq<Device> := [];
      var keys := devices.Keys;
      while keys != {}
        invariant keys <= devices.Keys
        invariant DistinctIds(matched)
        invariant forall d | d in matched :: d.id in devices && d.id !in keys && devices[d.id] == d && Selects(opts, d)
        invariant forall id | id in devices && id !in keys && Selects(opts, devices[id]) :: devices[id] in matched
        decreases keys
      {
        var k :| k in keys;
        keys := keys - {k};
        if Selects(opts, devices[k]) {
          matched := matched + [devices[k]];
        }
      }
      SortedMatchesAreListing(devices, opts, matched);
      var all := SortById(matched);
      page := Page(all, "");
      if |all| > opts.limit {
        page := Page(all[..opts.limit], all[..opts.limit][opts.limit - 1].id);
      }
    }
  }

  // ---------------------------------------------------------------- the Postgres listing

  /** The meaning of the query: filtered, ordered by id, and no more than the given number of rows. */
  ghost predicate Answers(m: Store, o: ListOptions, limit: nat, rows: seq<Device>) {
    exists all :: IsListing(m, o, all) && rows == if |all| > limit then all[..limit] else all
  }

  /** One row more than the limit is fetched to learn whether there is another page. */
  method PostgresList(ghost m: Store, raw: ListOptions, rows: seq<Device>) returns (page: Page)
    requires Answers(m, Normalise(raw), Normalise(raw).limit + 1, rows)
    ensures IsPage(m, raw, page)
  {
    hide Normalise, IsListing;
    var opts := Normalise(raw);
    var devices: seq<Device> := [];
    for i := 0 to |rows|
      invariant devices == rows[..i]
    {
      devices := devices + [rows[i]];
    }
    assert devices == rows;
    page := Page(devices, "");
    if |devices| > opts.limit {
      page := Page(devices[..opts.limit], devices[opts.limit - 1].id);
    }
    ghost var all :| IsListing(m, opts, all) && rows == if |all| > opts.limit + 1 then all[..opts.limit + 1] else all;
    assert page == Cut(all, opts.limit);
  }

  // ---------------------------------------------------------------- listings exist

  /** What a scan of the given keys matches. */
  lemma {:induction false} Scan(m: Store, o: ListOptions, keys: set<string>) returns (ds: seq<Device>)
    requires StoreInv(m) && keys <= m.Keys
    ensures DistinctIds(ds)
    ensures forall d | d in ds :: d.id in keys && m[d.id] == d && Selects(o, d)
    ensures forall id | id in keys && Selects(o, m[id]) :: m[id] in ds
    decreases |keys|
  {
    hide Selects, WellFormed;
    ds := [];
    if keys != {} {
      var k :| k in keys;
      ds := Scan(m, o, keys - {k});
      if Selects(o, m[k]) {
        assert forall d | d in ds :: d.id != k;
        ds := ds + [m[k]];
      }
    }
  }

  lemma PageExists(m: Store, raw: ListOptions) returns (page: Page)
    requires StoreInv(m)
    ensures IsPage(m, raw, page)
  {
    hide Selects, WellFormed, Normalise, IsListing, SortById;
    var matched := Scan(m, Normalise(raw), m.Keys);
    SortedMatchesAreListing(m, Normalise(raw), matched);
    page := Cut(SortById(matched), Normalise(raw).limit);
  }
}
