/** The catalog side of reconciliation: the rows the inventory queries
    return, the objects a container lists, the storage key that links the
    two, and the record shape every report is made of. */
module Catalog {
  import opened Wrappers
  import opened Paths

  /** `model.core.State.ACTIVE`. */
  const Active: string := "active"
  /** The `url_type` of a resource whose file lives in the container. */
  const UploadType: string := "upload"
  /** First segment of every storage key. */
  const ResourcesDir: string := "resources"

  /** One row of the Resource-join-Package projection that the queries read.
      Timestamps are opaque values; only `render` turns them into text. */
  datatype Row = Row(
    id: string,
    url: string,
    urlType: string,
    state: string,
    packageId: string,
    packageState: string,
    ownerOrg: string,
    created: nat,
    lastModified: nat)

  /** An object as `container.list_objects()` yields it. */
  datatype StorageObject = StorageObject(name: string, size: nat)

  /** The library calls the code relies on but does not define:
      `munge_filename` and `h.render_datetime`. */
  datatype Host = Host(munge: string -> string, render: nat -> string)

  /** One entry of a report (a dict in the source); `None` is Python's None. */
  datatype UploadRecord = UploadRecord(
    resourceId: Option<string>,
    resourceFilename: Option<string>,
    packageId: Option<string>,
    created: Option<string>,
    lastModified: Option<string>,
    organizationId: Option<string>,
    uploadUrl: Option<string>,
    uploadSize: Option<real>,
    packageState: Option<string>,
    resourceState: Option<string>)

  /** `os.path.join('resources', id, munge_filename(url))`. */
  function StorageKey(host: Host, id: string, url: string): (key: string)
    ensures Component(id) && Sep !in host.munge(url) ==>
              key == ResourcesDir + [Sep] + id + [Sep] + host.munge(url)
  {
    PathJoin(PathJoin(ResourcesDir, id), host.munge(url))
  }

  /** The size of an object in kilobytes, `size / 1000.0` without rounding. */
  function SizeKB(o: StorageObject): real
  {
    o.size as real / 1000.0
  }

  predicate IsUpload(r: Row)
  {
    r.urlType == UploadType
  }

  /** The filter of the inventory query: an upload whose resource and
      package are both active. */
  predicate Eligible(r: Row)
  {
    IsUpload(r) && r.state == Active && r.packageState == Active
  }

  /** The set of keys the first query of `_get_uploads` builds. */
  function ExpectedKeys(rows: seq<Row>, host: Host): (keys: set<string>)
    ensures forall r :: r in rows && Eligible(r) ==> StorageKey(host, r.id, r.url) in keys
    ensures forall k :: k in keys ==> exists r :: r in rows && Eligible(r) && StorageKey(host, r.id, r.url) == k
  {
    set r | r in rows && Eligible(r) :: StorageKey(host, r.id, r.url)
  }

  /** A row whose key can be parsed back: a resource id that is a plain path
      component and a munged filename without separators. */
  predicate Resolvable(host: Host, r: Row)
  {
    Component(r.id) && Sep !in host.munge(r.url)
  }

  /** The second query of `_get_uploads`: the first upload row with that id
      (the query has no ORDER BY; the model takes row order). */
  function Lookup(rows: seq<Row>, id: string): (found: Option<Row>)
    ensures found.Some? ==> found.value in rows && IsUpload(found.value) && found.value.id == id
    ensures found.None? <==> forall r :: r in rows && IsUpload(r) ==> r.id != id
  {
    if rows == [] then None
    else if IsUpload(rows[0]) && rows[0].id == id then Some(rows[0])
    else Lookup(rows[1..], id)
  }

  /** A storage key splits into `resources`, the resource id and the munged
      filename, so the id segment of an object name names its resource. */
  lemma KeyNamesItsResource(host: Host, r: Row)
    requires Resolvable(host, r)
    ensures Split(StorageKey(host, r.id, r.url)) == [ResourcesDir, r.id, host.munge(r.url)]
  {
    var m := host.munge(r.url);
    PathJoinComponents(ResourcesDir, r.id);
    PathJoinComponents(ResourcesDir + [Sep] + r.id, m);
    var segs := [ResourcesDir, r.id, m];
    assert Join(segs[2..]) == m;
    assert Join(segs[1..]) == r.id + [Sep] + m;
    assert StorageKey(host, r.id, r.url) == Join(segs);
    SplitJoin(segs);
  }

  /** Every expected key is the key of an eligible row and parses back to
      that row's id; every eligible row's key is expected. */
  lemma ExpectedKeysNameEligibleRows(rows: seq<Row>, host: Host, k: string)
    requires forall r :: r in rows && Eligible(r) ==> Resolvable(host, r)
    ensures k in ExpectedKeys(rows, host) ==>
              |Split(k)| == 3 && Split(k)[0] == ResourcesDir &&
              exists r :: r in rows && Eligible(r) && r.id == Split(k)[1] && host.munge(r.url) == Split(k)[2]
    ensures forall r :: r in rows && Eligible(r) ==> StorageKey(host, r.id, r.url) in ExpectedKeys(rows, host)
  {
    if k in ExpectedKeys(rows, host) {
      var r :| r in rows && Eligible(r) && StorageKey(host, r.id, r.url) == k;
      KeyNamesItsResource(host, r);
    }
  }
}
