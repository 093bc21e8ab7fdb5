/** The MINT Data-Catalog reader (funcs/readers/dcat_read_func.py): choosing the dataset's
    representation, filtering its resources by time, planning the downloads, the
    `ShardedBackend` that holds one loaded dataset per resource, and the `DCatAPI` client's
    key cache, singleton, query and response handling. The HTTP calls, `wget`, the clock,
    the file system and the D-REPR library are outside the model: their results are
    parameters. */
module DcatRead {
  import opened Wrappers
  import opened OrderedMaps
  import opened Strings

  // ---------------------------------------------------------------------------------
  // Representation and resources (`DcatReadFunc.__init__`)

  /** Which D-REPR description the dataset's metadata carries. */
  datatype ReprKind = ResourceRepr | DatasetRepr

  /** The assertions `__init__` can fail. */
  datatype ReadError =
    | MissingRepr        // neither `resource_repr` nor `dataset_repr`
    | BothReprs          // both keys present
    | NotOneResource     // `dataset_repr` with other than exactly one resource

  /** A resource as the catalog lists it; times are seconds on one common clock. */
  datatype Resource = Resource(id: string, url: string, coverageStart: int, coverageEnd: int)

  /** Lines 58-61: exactly one of the two keys must be present. */
  function SelectRepr(hasResourceRepr: bool, hasDatasetRepr: bool): (r: Result<ReprKind, ReadError>)
    ensures r.Ok? <==> hasResourceRepr != hasDatasetRepr
    ensures r.Ok? ==> (r.value == ResourceRepr <==> hasResourceRepr)
    ensures !hasResourceRepr && !hasDatasetRepr ==> r == Err(MissingRepr)
    ensures hasResourceRepr && hasDatasetRepr ==> r == Err(BothReprs)
  {
    if !hasResourceRepr && !hasDatasetRepr then Err(MissingRepr)
    else if hasResourceRepr && hasDatasetRepr then Err(BothReprs)
    else if hasResourceRepr then Ok(ResourceRepr)
    else Ok(DatasetRepr)
  }

  /** Lines 75-77: a resource is skipped when the requested start is after its coverage
      or the requested end before it. */
  predicate Skipped(start: Option<int>, end: Option<int>, r: Resource) {
    (start.Some? && start.value > r.coverageEnd) || (end.Some? && end.value < r.coverageStart)
  }

  /** A resource is kept iff its coverage meets the requested interval, each bound
      inclusive; with no bound every resource is kept. */
  lemma KeptIffOverlaps(start: Option<int>, end: Option<int>, r: Resource)
    ensures !Skipped(start, end, r) <==>
              (start.None? || start.value <= r.coverageEnd) && (end.None? || r.coverageStart <= end.value)
    ensures start.None? && end.None? ==> !Skipped(start, end, r)
  {
  }

  /** `resource_ids` after the `resource_repr` loop over `rs`: a dict, so a repeated id
      keeps its first position and takes the last url. */
  function ResourceIdsOf(rs: seq<Resource>, start: Option<int>, end: Option<int>): OMap<string, string>
    decreases |rs|
  {
    if rs == [] then Empty()
    else
      var init := ResourceIdsOf(rs[..|rs| - 1], start, end);
      var r := rs[|rs| - 1];
      if Skipped(start, end, r) then init else Put(init, r.id, r.url)
  }

  /** The resources the time filter keeps, in order. */
  function KeptResources(rs: seq<Resource>, start: Option<int>, end: Option<int>): (r: seq<Resource>)
    ensures forall x :: x in r <==> x in rs && !Skipped(start, end, x)
    decreases |rs|
  {
    if rs == [] then []
    else
      var init := KeptResources(rs[..|rs| - 1], start, end);
      var x := rs[|rs| - 1];
      assert forall y :: y in rs <==> y in rs[..|rs| - 1] || y == x;
      if Skipped(start, end, x) then init else init + [x]
  }

  /** The ids of a resource list, in order. */
  function ResourceIdList(rs: seq<Resource>): seq<string> {
    Project(rs, (r: Resource) => r.id)
  }

  /** The ids kept are the ids of the kept resources. */
  lemma {:induction false} ResourceIdsKept(rs: seq<Resource>, start: Option<int>, end: Option<int>)
    ensures forall id :: id in ResourceIdsOf(rs, start, end).vals <==> id in ResourceIdList(KeptResources(rs, start, end))
    decreases |rs|
  {
    if rs != [] {
      var init := rs[..|rs| - 1];
      var x := rs[|rs| - 1];
      ResourceIdsKept(init, start, end);
      var kept := KeptResources(init, start, end);
      if !Skipped(start, end, x) {
        assert ResourceIdList(kept + [x]) == ResourceIdList(kept) + [x.id];
      }
    }
  }

  /** With distinct ids the kept ids come in resource order. */
  lemma {:induction false} ResourceIdsOrder(rs: seq<Resource>, start: Option<int>, end: Option<int>)
    requires Distinct(ResourceIdList(KeptResources(rs, start, end)))
    ensures ResourceIdsOf(rs, start, end).keys == ResourceIdList(KeptResources(rs, start, end))
    decreases |rs|
  {
    if rs != [] {
      var init := rs[..|rs| - 1];
      var x := rs[|rs| - 1];
      var kept := KeptResources(init, start, end);
      if !Skipped(start, end, x) {
        assert ResourceIdList(kept + [x]) == ResourceIdList(kept) + [x.id];
        DistinctInit(ResourceIdList(kept), x.id);
        ResourceIdsKept(init, start, end);
      }
      ResourceIdsOrder(init, start, end);
    }
  }

  /** Each kept id maps to the url of the last kept resource with that id. */
  lemma {:induction false} ResourceIdsUrl(rs: seq<Resource>, start: Option<int>, end: Option<int>, i: nat)
    requires i < |rs| && !Skipped(start, end, rs[i])
    requires forall j :: i < j < |rs| && !Skipped(start, end, rs[j]) ==> rs[j].id != rs[i].id
    ensures rs[i].id in ResourceIdsOf(rs, start, end).vals
    ensures ResourceIdsOf(rs, start, end).vals[rs[i].id] == rs[i].url
    decreases |rs|
  {
    var init := rs[..|rs| - 1];
    if i < |rs| - 1 {
      assert init[i] == rs[i];
      forall j | i < j < |init| && !Skipped(start, end, init[j]) ensures init[j].id != init[i].id {
        assert init[j] == rs[j];
      }
      ResourceIdsUrl(init, start, end, i);
    }
  }

  /** Lines 67-87: the resource ids and urls to fetch. The `dataset_repr` path takes the
      only resource, unfiltered. */
  function ResourceIds(kind: ReprKind, rs: seq<Resource>, start: Option<int>, end: Option<int>)
    : (r: Result<OMap<string, string>, ReadError>)
    ensures kind == DatasetRepr ==>
              (r.Ok? <==> |rs| == 1) && (r.Ok? ==> r.value.keys == [rs[0].id] && r.value.vals[rs[0].id] == rs[0].url)
    ensures kind == ResourceRepr ==> r == Ok(ResourceIdsOf(rs, start, end))
  {
    if kind == DatasetRepr then
      if |rs| == 1 then Ok(Put(Empty(), rs[0].id, rs[0].url)) else Err(NotOneResource)
    else Ok(ResourceIdsOf(rs, start, end))
  }

  /** The loops at lines 67-87. */
  method CollectResourceIds(kind: ReprKind, rs: seq<Resource>, start: Option<int>, end: Option<int>)
    returns (r: Result<OMap<string, string>, ReadError>)
    ensures r == ResourceIds(kind, rs, start, end)
  {
    var ids: OMap<string, string> := Empty();
    if kind == ResourceRepr {
      for i := 0 to |rs|
        invariant ids == ResourceIdsOf(rs[..i], start, end)
      {
        var resource := rs[i];
        assert rs[..i + 1][..i] == rs[..i];
        if start.Some? || end.Some? {
          if (start.Some? && start.value > resource.coverageEnd) || (end.Some? && end.value < resource.coverageStart) {
            continue;
          }
        }
        ids := Put(ids, resource.id, resource.url);
      }
      assert rs[..|rs|] == rs;
      return Ok(ids);
    }
    if |rs| != 1 {
      return Err(NotOneResource);
    }
    ids := Put(ids, rs[0].id, rs[0].url);
    return Ok(ids);
  }

  // ---------------------------------------------------------------------------------
  // The download loop (lines 98-112)

  /** `os.path.join(directory, name)`: an absolute name replaces the directory, and a
      separator is inserted unless the directory is empty or already ends with one. */
  function PathJoin(directory: string, name: string): (p: string)
    ensures StartsWith(name, "/") ==> p == name
    ensures !StartsWith(name, "/") ==> exists prefix :: p == prefix + name
  {
    if StartsWith(name, "/") then name
    else if directory == [] || directory[|directory| - 1] == '/' then directory + name
    else directory + "/" + name
  }

  /** Where a resource is stored. */
  function CachePath(directory: string, id: string): string {
    PathJoin(directory, id + ".dat")
  }

  /** A download: the `wget` of `url` into `path`. */
  datatype Fetch = Fetch(url: string, path: string)

  /** Whether the loop skips resource `id`: the cache is on and its file exists. */
  predicate InCache(directory: string, useCache: bool, cached: set<string>, id: string) {
    useCache && CachePath(directory, id) in cached
  }

  /** The fetches the loop runs for the ids `keys`, in order. */
  function Fetches(keys: seq<string>, urls: map<string, string>, directory: string, useCache: bool, cached: set<string>)
    : (r: seq<Fetch>)
    requires forall k :: k in keys ==> k in urls
    ensures |r| <= |keys|
    decreases |keys|
  {
    if keys == [] then []
    else
      var init := Fetches(keys[..|keys| - 1], urls, directory, useCache, cached);
      var k := keys[|keys| - 1];
      if InCache(directory, useCache, cached, k) then init else init + [Fetch(urls[k], CachePath(directory, k))]
  }

  /** Each fetch downloads one listed resource that is not in the cache; without the
      cache every resource is fetched. */
  lemma {:induction false} FetchesOf(keys: seq<string>, urls: map<string, string>, directory: string, useCache: bool, cached: set<string>)
    requires forall k :: k in keys ==> k in urls
    ensures !useCache ==> |Fetches(keys, urls, directory, useCache, cached)| == |keys|
    ensures forall f :: f in Fetches(keys, urls, directory, useCache, cached) ==>
              exists k :: k in keys && f == Fetch(urls[k], CachePath(directory, k)) && !InCache(directory, useCache, cached, k)
    decreases |keys|
  {
    if keys != [] {
      var init := keys[..|keys| - 1];
      FetchesOf(init, urls, directory, useCache, cached);
      assert forall x :: x in init ==> x in keys;
      assert keys[|keys| - 1] in keys;
    }
  }

  /** `self.resources` after the loop has recorded the ids `keys`. */
  function Recorded(keys: seq<string>, directory: string): OMap<string, string>
    decreases |keys|
  {
    if keys == [] then Empty()
    else
      var k := keys[|keys| - 1];
      Put(Recorded(keys[..|keys| - 1], directory), k, CachePath(directory, k))
  }

  /** Distinct ids are recorded in order, each with its path in the download directory. */
  lemma {:induction false} RecordedPaths(keys: seq<string>, directory: string)
    requires Distinct(keys)
    ensures Recorded(keys, directory).keys == keys
    ensures forall k :: k in Recorded(keys, directory).vals ==> Recorded(keys, directory).vals[k] == CachePath(directory, k)
    decreases |keys|
  {
    if keys != [] {
      var init, k := keys[..|keys| - 1], keys[|keys| - 1];
      assert keys == init + [k];
      DistinctInit(init, k);
      RecordedPaths(init, directory);
    }
  }

  lemma RecordedStep(keys: seq<string>, directory: string, i: nat)
    requires i < |keys|
    ensures Recorded(keys[..i + 1], directory) == Put(Recorded(keys[..i], directory), keys[i], CachePath(directory, keys[i]))
  {
    assert keys[..i + 1][..i] == keys[..i];
  }

  lemma FetchesStep(keys: seq<string>, urls: map<string, string>, directory: string, useCache: bool, cached: set<string>, i: nat)
    requires forall k :: k in keys ==> k in urls
    requires i < |keys|
    ensures Fetches(keys[..i + 1], urls, directory, useCache, cached)
            == Fetches(keys[..i], urls, directory, useCache, cached)
               + (if InCache(directory, useCache, cached, keys[i]) then [] else [Fetch(urls[keys[i]], CachePath(directory, keys[i]))])
  {
    assert keys[..i + 1][..i] == keys[..i];
  }

  /** The loop at lines 98-112. `cached` is the set of paths that exist when the loop
      starts; the paths are distinct, so a fetch never changes a later check. Every id is
      recorded with its path, and the skipped and fetched resources add up. */
  method Download(ids: OMap<string, string>, directory: string, useCache: bool, cached: set<string>)
    returns (resources: OMap<string, string>, fetches: seq<Fetch>, nSkip: nat, nDownload: nat)
    ensures resources == Recorded(ids.keys, directory)
    ensures resources.keys == ids.keys
    ensures forall k :: k in resources.vals ==> resources.vals[k] == CachePath(directory, k)
    ensures fetches == Fetches(ids.keys, ids.vals, directory, useCache, cached)
    ensures nDownload == |fetches| && nSkip + nDownload == |ids.keys|
  {
    resources := Empty();
    fetches := [];
    nSkip, nDownload := 0, 0;
    var keys := ids.keys;
    assert Distinct(keys) && forall k :: k in keys ==> k in ids.vals;
    for i := 0 to |keys|
      invariant resources == Recorded(keys[..i], directory)
      invariant fetches == Fetches(keys[..i], ids.vals, directory, useCache, cached)
      invariant nDownload == |fetches| && nSkip + nDownload == i
    {
      var id := keys[i];
      var url := ids.vals[id];
      RecordedStep(keys, directory, i);
      FetchesStep(keys, ids.vals, directory, useCache, cached, i);
      var path := PathJoin(directory, id + ".dat");
      resources := Put(resources, id, path);
      if useCache && path in cached {
        nSkip := nSkip + 1;
        continue;
      }
      fetches := fetches + [Fetch(url, path)];
      nDownload := nDownload + 1;
    }
    assert keys[..|keys|] == keys;
    RecordedPaths(keys, directory);
  }

  // ---------------------------------------------------------------------------------
  // ShardedBackend (lines 140-184)

  datatype ShardError = IndexOutOfRange | EmptySlot

  /** The slots after `inserted` was added, in order, to `n` empty slots filled from the
      back: slot `n - 1 - i` holds the `i`-th dataset. */
  function Slots<D>(n: nat, inserted: seq<D>): seq<Option<D>>
    requires |inserted| <= n
  {
    seq(n, i requires 0 <= i < n => if n - 1 - i < |inserted| then Some(inserted[n - 1 - i]) else None)
  }

  function Reverse<T>(s: seq<T>): (r: seq<T>)
    ensures |r| == |s|
  {
    if s == [] then [] else Reverse(s[1..]) + [s[0]]
  }

  lemma {:induction false} ReverseAt<T>(s: seq<T>, i: nat)
    requires i < |s|
    ensures Reverse(s)[i] == s[|s| - 1 - i]
  {
    if i < |s| - 1 {
      ReverseAt(s[1..], i);
    }
  }

  function Present<D>(s: seq<D>): (r: seq<Option<D>>)
    ensures |r| == |s| && forall i :: 0 <= i < |s| ==> r[i] == Some(s[i])
  {
    seq(|s|, i requires 0 <= i < |s| => Some(s[i]))
  }

  /** Once every slot is filled, reading the slots backwards gives the datasets in the
      order they were added. */
  lemma SlotsReversed<D>(n: nat, inserted: seq<D>)
    requires |inserted| == n
    ensures Reverse(Slots(n, inserted)) == Present(inserted)
  {
    forall i | 0 <= i < n ensures Reverse(Slots(n, inserted))[i] == Present(inserted)[i] {
      ReverseAt(Slots(n, inserted), i);
    }
  }

  /** `add` writes the next free slot from the back. */
  lemma SlotsAdd<D>(n: nat, inserted: seq<D>, d: D)
    requires |inserted| < n
    ensures Slots(n, inserted)[n - 1 - |inserted| := Some(d)] == Slots(n, inserted + [d])
  {
  }

  /** The classes of each dataset, dataset by dataset; an empty slot raises. */
  function ClassesOf<D, C>(ds: seq<Option<D>>, classes: D -> seq<C>): Result<seq<C>, ShardError>
    decreases |ds|
  {
    if ds == [] then Ok([])
    else if ds[0].None? then Err(EmptySlot)
    else match ClassesOf(ds[1..], classes)
      case Err(x) => Err(x)
      case Ok(rest) => Ok(classes(ds[0].value) + rest)
  }

  function Flatten<D, C>(ds: seq<D>, classes: D -> seq<C>): seq<C>
    decreases |ds|
  {
    if ds == [] then [] else classes(ds[0]) + Flatten(ds[1..], classes)
  }

  lemma {:induction false} ClassesOfPresent<D, C>(ds: seq<D>, classes: D -> seq<C>)
    ensures ClassesOf(Present(ds), classes) == Ok(Flatten(ds, classes))
    decreases |ds|
  {
    if ds != [] {
      assert Present(ds)[1..] == Present(ds[1..]);
      ClassesOfPresent(ds[1..], classes);
    }
  }

  /** A dataset holding one loaded D-REPR output per resource, stored in reverse order. */
  class ShardedBackend<D> {
    const nChunks: nat
    var datasets: seq<Option<D>>
    var count: int
    /** The datasets added so far, in order. */
    ghost var inserted: seq<D>

    ghost predicate Valid()
      reads this
    {
      0 <= count <= nChunks && |inserted| == count && datasets == Slots(nChunks, inserted)
    }

    constructor (n: nat)
      ensures Valid() && nChunks == n && count == 0 && inserted == []
      ensures datasets == seq(n, _ => None)
    {
      nChunks := n;
      datasets := seq(n, _ => None);
      count := 0;
      inserted := [];
    }

    /** Writes slot `n_chunks - count - 1` and counts the dataset. Past `n_chunks` adds
        the index would go negative and Python would wrap it, so the caller must stop. */
    method Add(d: D)
      requires Valid() && count < nChunks
      modifies this
      ensures Valid() && count == old(count) + 1 && inserted == old(inserted) + [d]
      ensures datasets == old(datasets)[nChunks - old(count) - 1 := Some(d)]
    {
      SlotsAdd(nChunks, inserted, d);
      datasets := datasets[nChunks - count - 1 := Some(d)];
      count := count + 1;
      inserted := inserted + [d];
    }

    /** The index `inject_class_id` tags a class id with: the number of datasets added so
        far, i.e. the position the dataset being loaded will take. */
    function InjectClassId(): (idx: int)
      reads this
      ensures Valid() ==> idx == |inserted|
    {
      count
    }

    /** `iter_classes`: the datasets' classes, slots read backwards. */
    function IterClasses<C>(classes: D -> seq<C>): Result<seq<C>, ShardError>
      reads this
    {
      ClassesOf(Reverse(datasets), classes)
    }

    /** The dataset `get_record_by_id` and `cid` consult for a class id tagged `idx`, as
        written: slot `idx`. */
    function ShardAsWritten(idx: nat): (r: Result<D, ShardError>)
      reads this
      ensures Valid() && idx < nChunks && nChunks - 1 - idx < count ==> r == Ok(inserted[nChunks - 1 - idx])
      ensures Valid() && idx < nChunks - count ==> r == Err(EmptySlot)
      ensures idx >= |datasets| ==> r == Err(IndexOutOfRange)
    {
      if idx >= |datasets| then Err(IndexOutOfRange)
      else if datasets[idx].None? then Err(EmptySlot)
      else Ok(datasets[idx].value)
    }

    /** The dataset that was loaded with class ids tagged `idx`: slot `n_chunks - 1 - idx`. */
    function Shard(idx: nat): (r: Result<D, ShardError>)
      reads this
      ensures Valid() && idx < count ==> r == Ok(inserted[idx])
      ensures Valid() && count <= idx < nChunks ==> r == Err(EmptySlot)
      ensures Valid() && idx >= nChunks ==> r == Err(IndexOutOfRange)
    {
      var slot := nChunks - 1 - idx;
      if slot < 0 || slot >= |datasets| then Err(IndexOutOfRange)
      else if datasets[slot].None? then Err(EmptySlot)
      else Ok(datasets[slot].value)
    }

    /** `drain`: pops every slot from the end, so the datasets come out in the order they
        were added, and the list is left empty. */
    method Drain() returns (out: seq<Option<D>>)
      modifies this`datasets
      ensures out == Reverse(old(datasets)) && datasets == []
      ensures count == old(count) && inserted == old(inserted)
      ensures old(Valid()) && old(count) == nChunks ==> out == Present(old(inserted))
    {
      ghost var before := datasets;
      var n := |datasets|;
      out := [];
      for i := 0 to n
        invariant datasets == before[..n - i]
        invariant out == Reverse(before[n - i..])
      {
        var last := datasets[|datasets| - 1];
        assert before[n - i - 1..][0] == last && before[n - i - 1..][1..] == before[n - i..];
        out := out + [last];
        datasets := datasets[..|datasets| - 1];
      }
      assert before[0..] == before;
      if old(Valid()) && old(count) == nChunks {
        SlotsReversed(nChunks, inserted);
      }
    }
  }

  /** With every slot filled, `iter_classes` walks the datasets in the order they were
      added. */
  lemma IterClassesInOrder<D, C>(b: ShardedBackend<D>, classes: D -> seq<C>)
    requires b.Valid() && b.count == b.nChunks
    ensures b.IterClasses(classes) == Ok(Flatten(b.inserted, classes))
  {
    SlotsReversed(b.nChunks, b.inserted);
    ClassesOfPresent(b.inserted, classes);
  }

  /** `exec` for a `resource_repr` dataset: one backend slot per resource, each loaded with
      class ids tagged by its position. */
  method LoadSharded<D>(loaded: seq<D>) returns (b: ShardedBackend<D>, tags: seq<int>)
    ensures fresh(b) && b.Valid() && b.count == b.nChunks == |loaded| && b.inserted == loaded
    ensures |tags| == |loaded| && forall i :: 0 <= i < |loaded| ==> tags[i] == i
  {
    b := new ShardedBackend(|loaded|);
    tags := [];
    for i := 0 to |loaded|
      invariant b.Valid() && b.nChunks == |loaded| && b.inserted == loaded[..i]
      invariant |tags| == i && forall j :: 0 <= j < i ==> tags[j] == j
    {
      tags := tags + [b.InjectClassId()];
      b.Add(loaded[i]);
      assert loaded[..i + 1] == loaded[..i] + [loaded[i]];
    }
    assert loaded[..|loaded|] == loaded;
  }

  /** Looked up by its tag, a class is found in the dataset it was loaded with only by the
      corrected lookup; as written, the tag of the `i`-th dataset reads the dataset added
      `n - 1 - i`-th. */
  lemma LookupByTag<D>(n: nat, loaded: seq<D>, i: nat)
    requires |loaded| == n && i < n
    ensures Slots(n, loaded)[n - 1 - i] == Some(loaded[i])
    ensures Slots(n, loaded)[i] == Some(loaded[n - 1 - i])
  {
  }

  /** Two resources: the class ids of the first dataset (tag 0) are looked up, as written,
      in the second. */
  lemma AsWrittenLookupMisses()
    ensures Slots(2, [10, 20])[0] == Some(20)
    ensures Slots(2, [10, 20])[2 - 1 - 0] == Some(10)
  {
  }

  // ---------------------------------------------------------------------------------
  // DCatAPI (lines 187-289)

  /** The cached session token and the time it was fetched. */
  datatype ApiKey = ApiKey(key: string, time: real)

  /** Tokens older than this many seconds are fetched again. */
  const KeyLifetime: real := 600.0

  /** `get_api_key` fetches a new token iff there is none or the cached one is stale. */
  predicate NeedsRefresh(cached: Option<ApiKey>, now: real) {
    cached.None? || now - cached.value.time > KeyLifetime
  }

  /** The cached key after `get_api_key` at time `now`; a fetched `token` is stamped with
      the clock's reading `later` taken after the request. */
  function KeyAfter(cached: Option<ApiKey>, now: real, token: string, later: real): (r: ApiKey)
    ensures NeedsRefresh(cached, now) ==> r == ApiKey(token, later)
    ensures !NeedsRefresh(cached, now) ==> Some(r) == cached
  {
    if NeedsRefresh(cached, now) then ApiKey(token, later) else cached.value
  }

  /** A key fetched at `later` is served from the cache for the next 600 seconds and
      fetched again after that. */
  lemma KeyCached(cached: Option<ApiKey>, now: real, token: string, later: real, next: real, token2: string, later2: real)
    requires NeedsRefresh(cached, now)
    ensures next - later <= KeyLifetime ==>
              KeyAfter(Some(KeyAfter(cached, now, token, later)), next, token2, later2) == ApiKey(token, later)
    ensures next - later > KeyLifetime ==>
              KeyAfter(Some(KeyAfter(cached, now, token, later)), next, token2, later2) == ApiKey(token2, later2)
  {
  }

  class DCatApi {
    const dcatUrl: string
    var apiKey: Option<ApiKey>

    constructor (url: string)
      ensures dcatUrl == url && apiKey == None
    {
      dcatUrl := url;
      apiKey := None;
    }

    /** `get_api_key`: `now` and `later` are the two clock readings, `token` what the
        session-token endpoint would return. */
    method GetApiKey(now: real, token: string, later: real) returns (key: string)
      modifies this
      ensures apiKey == Some(KeyAfter(old(apiKey), now, token, later))
      ensures key == apiKey.value.key
      ensures NeedsRefresh(old(apiKey), now) ==> key == token
      ensures !NeedsRefresh(old(apiKey), now) ==> key == old(apiKey).value.key
    {
      if apiKey.None? || now - apiKey.value.time > 600.0 {
        apiKey := Some(ApiKey(token, later));
      }
      key := apiKey.value.key;
    }
  }

  /** The class attribute `DCatAPI.instance`. */
  class ApiSingleton {
    var instance: DCatApi?

    constructor ()
      ensures instance == null
    {
      instance := null;
    }

    /** `get_instance`: the first call creates the client with its url; every later call
        returns that same client, whatever url it is given. */
    method GetInstance(url: string) returns (api: DCatApi)
      modifies this
      ensures old(instance) == null ==> fresh(api) && api.dcatUrl == url && api.apiKey == None
      ensures old(instance) != null ==> api == old(instance)
      ensures instance == api
    {
      if instance == null {
        instance := new DCatApi(url);
      }
      api := instance;
    }
  }

  /** Two calls give the same client, built with the first call's url. */
  method GetInstanceTwice(s: ApiSingleton, url1: string, url2: string) returns (a: DCatApi, b: DCatApi)
    requires s.instance == null
    modifies s
    ensures a == b && a.dcatUrl == url1
  {
    a := s.GetInstance(url1);
    b := s.GetInstance(url2);
  }

  /** The body of the `dataset_resources` request. */
  datatype Query = Query(datasetId: string, limit: int, filter: Option<map<string, int>>)

  const DefaultLimit: int := 100000

  /** Lines 209-218: the query always names the dataset and the limit; a `filter` is
      added only when a bound is given, holding exactly the given bounds. */
  function BuildQuery(datasetId: string, start: Option<int>, end: Option<int>, limit: int): (q: Query)
    ensures q.datasetId == datasetId && q.limit == limit
    ensures q.filter.Some? <==> start.Some? || end.Some?
    ensures q.filter.Some? ==>
              && ("start_time__gte" in q.filter.value <==> start.Some?)
              && ("end_time__lte" in q.filter.value <==> end.Some?)
              && (start.Some? ==> q.filter.value["start_time__gte"] == start.value)
              && (end.Some? ==> q.filter.value["end_time__lte"] == end.value)
              && |q.filter.value.Keys| <= 2
  {
    if start.None? && end.None? then Query(datasetId, limit, None)
    else
      var f1: map<string, int> := if start.Some? then map["start_time__gte" := start.value] else map[];
      var f2 := if end.Some? then f1["end_time__lte" := end.value] else f1;
      assert f2.Keys <= {"start_time__gte", "end_time__lte"};
      Query(datasetId, limit, Some(f2))
  }

  /** The exceptions `handle_api_response` raises. */
  datatype ApiError =
    | NotJson             // `response.json()` fails before the status is looked at
    | BadRequest(text: string)
    | Forbidden
    | ServerError(status: int)

  /** Lines 252-289: the parsed body for 200, an exception for any other status. */
  function HandleApiResponse<B>(status: int, body: Option<B>, text: string): (r: Result<B, ApiError>)
    ensures r.Ok? <==> status == 200 && body.Some?
    ensures r.Ok? ==> r.value == body.value
    ensures body.None? ==> r == Err(NotJson)
    ensures body.Some? && status == 400 ==> r == Err(BadRequest(text))
    ensures body.Some? && status == 403 ==> r == Err(Forbidden)
    ensures body.Some? && status !in {200, 400, 403} ==> r == Err(ServerError(status))
  {
    if body.None? then Err(NotJson)
    else if status == 200 then Ok(body.value)
    else if status == 400 then Err(BadRequest(text))
    else if status == 403 then Err(Forbidden)
    else Err(ServerError(status))
  }
}
