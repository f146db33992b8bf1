/** Reconciliation in utils.py: `_get_uploads` (the linked and unlinked
    selections, raw or enriched), `list_missing_uploads` and the listing
    commands built on them. */
module Uploads {
  import opened Wrappers
  import opened Paths
  import opened Sequences
  import opened Catalog
  import opened Reports

  /** The membership test of `_get_uploads`'s loop. */
  predicate Keep(o: StorageObject, keys: set<string>, linked: bool)
  {
    if linked then o.name in keys else o.name !in keys
  }

  /** The objects of a listing that `_get_uploads` keeps, in listing order. */
  function Select(listing: seq<StorageObject>, keys: set<string>, linked: bool): (sel: seq<StorageObject>)
    ensures |sel| <= |listing|
  {
    if listing == [] then []
    else
      var n := |listing| - 1;
      Select(listing[..n], keys, linked) + (if Keep(listing[n], keys, linked) then [listing[n]] else [])
  }

  /** Total size in kilobytes. */
  function SumKB(objs: seq<StorageObject>): real
  {
    if objs == [] then 0.0 else SumKB(objs[..|objs| - 1]) + SizeKB(objs[|objs| - 1])
  }

  /** The report entry for an object: the upload-type row whose id is the
      object's second name segment, or all-`None` catalog fields when that
      segment is empty or names no such row. */
  function RecordFor(host: Host, o: StorageObject, fields: Option<Row>): (e: UploadRecord)
    ensures e.uploadUrl == Some(o.name) && e.uploadSize == Some(SizeKB(o))
    ensures e.resourceId.Some? <==> fields.Some?
    ensures fields.Some? ==>
              e.resourceId == Some(fields.value.id) && e.resourceFilename == Some(fields.value.url) &&
              e.packageState == Some(fields.value.packageState) && e.resourceState == Some(fields.value.state)
  {
    match fields
    case Some(r) =>
      UploadRecord(Some(r.id), Some(r.url), Some(r.packageId), Some(host.render(r.created)),
                   Some(host.render(r.lastModified)), Some(r.ownerOrg), Some(o.name),
                   Some(SizeKB(o)), Some(r.packageState), Some(r.state))
    case None =>
      UploadRecord(None, None, None, None, None, None, Some(o.name), Some(SizeKB(o)), None, None)
  }

  /** Every catalog field of a found row's entry is taken from that row:
      the ids and url as they are, the timestamps through `render`, and
      both states. */
  lemma RecordForFields(host: Host, o: StorageObject, r: Row)
    ensures var e := RecordFor(host, o, Some(r));
      e.resourceId == Some(r.id) && e.resourceFilename == Some(r.url) &&
      e.packageId == Some(r.packageId) && e.organizationId == Some(r.ownerOrg) &&
      e.created == Some(host.render(r.created)) && e.lastModified == Some(host.render(r.lastModified)) &&
      e.packageState == Some(r.packageState) && e.resourceState == Some(r.state)
  {
  }

  /** Without a row every catalog field of the entry is `None`. */
  lemma RecordForNone(host: Host, o: StorageObject)
    ensures var e := RecordFor(host, o, None);
      e.resourceId == None && e.resourceFilename == None && e.packageId == None &&
      e.organizationId == None && e.created == None && e.lastModified == None &&
      e.packageState == None && e.resourceState == None
  {
  }

  /** `upload.name.split('/')[1]`; defined only where the name has a `/`. */
  function IdSegment(o: StorageObject): string
    requires Sep in o.name
  {
    SplitHasTwoSegments(o.name);
    Split(o.name)[1]
  }

  /** The report entry of one selected object. */
  function Enrich(rows: seq<Row>, host: Host, o: StorageObject): (e: UploadRecord)
    requires Sep in o.name
    ensures e.uploadUrl == Some(o.name) && e.uploadSize == Some(SizeKB(o))
    ensures e.resourceId.Some? ==> IdSegment(o) != "" && e.resourceId == Some(IdSegment(o))
  {
    var id := IdSegment(o);
    RecordFor(host, o, if id == "" then None else Lookup(rows, id))
  }

  predicate AllSplittable(objs: seq<StorageObject>)
  {
    forall o :: o in objs ==> Sep in o.name
  }

  function EnrichAll(rows: seq<Row>, host: Host, objs: seq<StorageObject>): (records: seq<UploadRecord>)
    requires AllSplittable(objs)
    ensures |records| == |objs|
  {
    if objs == [] then []
    else EnrichAll(rows, host, objs[..|objs| - 1]) + [Enrich(rows, host, objs[|objs| - 1])]
  }

  /** The list `_get_uploads` returns: raw objects or report entries. */
  datatype Parsed = ObjectList(objects: seq<StorageObject>) | RecordList(records: seq<UploadRecord>)

  datatype Uploads = Uploads(totalSpace: real, parsed: Parsed)

  /** `_get_uploads(get_linked, return_upload_objects_only)` over one
      snapshot of the catalog rows and one container listing. In
      objects-only mode the total stays 0; in enriched mode a selected
      object whose name has no `/` raises `IndexError`. */
  method GetUploads(rows: seq<Row>, listing: seq<StorageObject>, host: Host,
                    getLinked: bool, objectsOnly: bool)
    returns (r: Result<Uploads>)
    ensures var sel := Select(listing, ExpectedKeys(rows, host), getLinked);
      if objectsOnly then r == Ok(Uploads(0.0, ObjectList(sel)))
      else if AllSplittable(sel) then r == Ok(Uploads(SumKB(sel), RecordList(EnrichAll(rows, host, sel))))
      else r == Err(IndexError)
  {
    var resourceUrls := ExpectedKeys(rows, host);
    var objects: seq<StorageObject> := [];
    var records: seq<UploadRecord> := [];
    var totalSpaceUsed := 0.0;
    for i := 0 to |listing|
      invariant objectsOnly ==> objects == Select(listing[..i], resourceUrls, getLinked) && totalSpaceUsed == 0.0
      invariant !objectsOnly ==>
                  var sel := Select(listing[..i], resourceUrls, getLinked);
                  AllSplittable(sel) && records == EnrichAll(rows, host, sel) && totalSpaceUsed == SumKB(sel)
    {
      var upload := listing[i];
      SelectStep(listing, i, resourceUrls, getLinked);
      if Keep(upload, resourceUrls, getLinked) {
        if objectsOnly {
          objects := objects + [upload];
          continue;
        }
        var entry := EnrichUpload(rows, host, upload);
        if entry.Err? {
          SelectMembership(listing, resourceUrls, getLinked, upload);
          return Err(entry.error);
        }
        EnrichedStep(rows, host, listing, i, resourceUrls, getLinked);
        records := records + [entry.value];
        totalSpaceUsed := totalSpaceUsed + SizeKB(upload);
      }
    }
    assert listing[..|listing|] == listing;
    if objectsOnly {
      return Ok(Uploads(0.0, ObjectList(objects)));
    }
    return Ok(Uploads(totalSpaceUsed, RecordList(records)));
  }

  /** The body of `_get_uploads`'s loop for one kept object in enriched
      mode: split its name, look its resource up when the id segment is
      non-empty, and build its entry; a name without `/` raises. */
  method EnrichUpload(rows: seq<Row>, host: Host, upload: StorageObject) returns (r: Result<UploadRecord>)
    ensures Sep in upload.name ==> r == Ok(Enrich(rows, host, upload))
    ensures Sep !in upload.name ==> r == Err(IndexError)
  {
    var segs := Split(upload.name);
    SplitHasTwoSegments(upload.name);
    if |segs| < 2 {
      return Err(IndexError);
    }
    var resourceId := segs[1];
    var resourceFields: Option<Row> := None;
    if resourceId != "" {
      resourceFields := Lookup(rows, resourceId);
    }
    return Ok(RecordFor(host, upload, resourceFields));
  }

  /** One enriched step of `_get_uploads`'s loop: the kept object's entry
      and size are appended. */
  lemma EnrichedStep(rows: seq<Row>, host: Host, listing: seq<StorageObject>, i: nat,
                     keys: set<string>, linked: bool)
    requires i < |listing| && Keep(listing[i], keys, linked) && Sep in listing[i].name
    requires AllSplittable(Select(listing[..i], keys, linked))
    ensures var prev := Select(listing[..i], keys, linked);
      var sel := Select(listing[..i + 1], keys, linked);
      AllSplittable(sel) &&
      EnrichAll(rows, host, sel) == EnrichAll(rows, host, prev) + [Enrich(rows, host, listing[i])] &&
      SumKB(sel) == SumKB(prev) + SizeKB(listing[i])
  {
    var prev := Select(listing[..i], keys, linked);
    SelectStep(listing, i, keys, linked);
    EnrichAllSnoc(rows, host, prev, listing[i]);
  }

  lemma SelectStep(listing: seq<StorageObject>, i: nat, keys: set<string>, linked: bool)
    requires i < |listing|
    ensures Select(listing[..i + 1], keys, linked) ==
            Select(listing[..i], keys, linked) + (if Keep(listing[i], keys, linked) then [listing[i]] else [])
    ensures Keep(listing[i], keys, linked) ==>
            SumKB(Select(listing[..i + 1], keys, linked)) == SumKB(Select(listing[..i], keys, linked)) + SizeKB(listing[i])
    ensures !Keep(listing[i], keys, linked) ==>
            Select(listing[..i + 1], keys, linked) == Select(listing[..i], keys, linked)
  {
    assert listing[..i + 1][..i] == listing[..i];
    var sel := Select(listing[..i], keys, linked);
    assert (sel + [listing[i]])[..|sel|] == sel;
  }

  lemma EnrichAllSnoc(rows: seq<Row>, host: Host, sel: seq<StorageObject>, o: StorageObject)
    requires AllSplittable(sel) && Sep in o.name
    ensures AllSplittable(sel + [o])
    ensures EnrichAll(rows, host, sel + [o]) == EnrichAll(rows, host, sel) + [Enrich(rows, host, o)]
  {
    assert (sel + [o])[..|sel|] == sel;
  }

  /** An object is selected exactly when it is listed and passes the test. */
  lemma {:induction false} SelectMembership(listing: seq<StorageObject>, keys: set<string>, linked: bool, o: StorageObject)
    ensures o in Select(listing, keys, linked) <==> o in listing && Keep(o, keys, linked)
  {
    if listing != [] {
      var n := |listing| - 1;
      SelectMembership(listing[..n], keys, linked, o);
      assert listing == listing[..n] + [listing[n]];
    }
  }

  /** The linked and the unlinked selection split the listing: every listed
      object lands in exactly one of them, as often as it is listed. */
  lemma {:induction false} SelectPartition(listing: seq<StorageObject>, keys: set<string>)
    ensures multiset(Select(listing, keys, true)) + multiset(Select(listing, keys, false)) == multiset(listing)
  {
    if listing != [] {
      var n := |listing| - 1;
      SelectPartition(listing[..n], keys);
      assert listing == listing[..n] + [listing[n]];
    }
  }

  /** Both selections keep listing order. */
  lemma {:induction false} SelectKeepsOrder(listing: seq<StorageObject>, keys: set<string>, linked: bool)
    ensures IsSubsequence(Select(listing, keys, linked), listing)
  {
    if listing != [] {
      var n := |listing| - 1;
      var prev := Select(listing[..n], keys, linked);
      SelectKeepsOrder(listing[..n], keys, linked);
      assert listing == listing[..n] + [listing[n]];
      if Keep(listing[n], keys, linked) {
        SubsequenceAppendBoth(prev, listing[..n], listing[n]);
      } else {
        assert Select(listing, keys, linked) == prev;
        SubsequenceExtend(prev, listing[..n], listing[n]);
      }
    }
  }

  /** A smaller key set leaves more objects unlinked, in the same order. */
  lemma {:induction false} UnlinkedShrinksWithKeys(listing: seq<StorageObject>, fewer: set<string>, more: set<string>)
    requires fewer <= more
    ensures IsSubsequence(Select(listing, more, false), Select(listing, fewer, false))
  {
    if listing == [] {
    } else {
      var n := |listing| - 1;
      var a, b := Select(listing[..n], more, false), Select(listing[..n], fewer, false);
      UnlinkedShrinksWithKeys(listing[..n], fewer, more);
      if Keep(listing[n], more, false) {
        SubsequenceAppendBoth(a, b, listing[n]);
      } else if Keep(listing[n], fewer, false) {
        assert Select(listing, more, false) == a;
        SubsequenceExtend(a, b, listing[n]);
      } else {
        assert Select(listing, more, false) == a && Select(listing, fewer, false) == b;
      }
    }
  }

  /** Every key is `resources/...`, so it always holds a `/`. */
  lemma StorageKeyHasSeparator(host: Host, id: string, url: string)
    ensures Sep in StorageKey(host, id, url)
  {
    var inner := PathJoin(ResourcesDir, id);
    assert Sep in inner by {
      if |id| > 0 && id[0] == Sep {
        assert inner == id;
      } else {
        assert inner == ResourcesDir + [Sep] + id;
        assert inner[|ResourcesDir|] == Sep;
      }
    }
    var m := host.munge(url);
    var key := PathJoin(inner, m);
    if |m| > 0 && m[0] == Sep {
      assert key == m;
    } else if inner == [] || inner[|inner| - 1] == Sep {
      assert key == inner + m;
      assert forall j :: 0 <= j < |inner| ==> key[j] == inner[j];
    } else {
      assert key == inner + [Sep] + m;
      assert key[|inner|] == Sep;
    }
  }

  /** Linked objects are named by expected keys, so enriched linked mode
      never raises `IndexError`. */
  lemma LinkedAreSplittable(rows: seq<Row>, host: Host, listing: seq<StorageObject>)
    ensures AllSplittable(Select(listing, ExpectedKeys(rows, host), true))
  {
    var keys := ExpectedKeys(rows, host);
    forall o | o in Select(listing, keys, true)
      ensures Sep in o.name
    {
      SelectMembership(listing, keys, true, o);
      var r :| r in rows && Eligible(r) && StorageKey(host, r.id, r.url) == o.name;
      StorageKeyHasSeparator(host, r.id, r.url);
    }
  }

  /** Enrichment never drops an object: one entry per selected object, in
      order, with the object's name and size in KB. */
  lemma {:induction false} EnrichAllOnePerObject(rows: seq<Row>, host: Host, objs: seq<StorageObject>)
    requires AllSplittable(objs)
    ensures |EnrichAll(rows, host, objs)| == |objs|
    ensures forall i :: 0 <= i < |objs| ==>
              EnrichAll(rows, host, objs)[i].uploadUrl == Some(objs[i].name) &&
              EnrichAll(rows, host, objs)[i].uploadSize == Some(SizeKB(objs[i]))
  {
    if objs != [] {
      EnrichAllOnePerObject(rows, host, objs[..|objs| - 1]);
    }
  }

  /** An object whose id segment is empty or names no upload row is kept
      with `None` catalog fields; otherwise it carries that row's fields. */
  lemma EnrichUnresolved(rows: seq<Row>, host: Host, o: StorageObject)
    requires Sep in o.name
    ensures var e := Enrich(rows, host, o);
      (IdSegment(o) == "" || (forall r :: r in rows && IsUpload(r) ==> r.id != IdSegment(o))) <==>
      (e.resourceId == None && e.resourceFilename == None && e.packageId == None &&
       e.created == None && e.lastModified == None && e.organizationId == None &&
       e.packageState == None && e.resourceState == None)
  {
  }

  /** In linked mode every entry is resolved: it names the resource whose
      key the object carries. */
  lemma LinkedEntriesResolve(rows: seq<Row>, host: Host, o: StorageObject)
    requires forall r :: r in rows && Eligible(r) ==> Resolvable(host, r)
    requires o.name in ExpectedKeys(rows, host)
    ensures Sep in o.name && Enrich(rows, host, o).resourceId == Some(IdSegment(o))
    ensures IdSegment(o) != ""
  {
    ExpectedKeysNameEligibleRows(rows, host, o.name);
    var r :| r in rows && Eligible(r) && r.id == Split(o.name)[1];
    SplitHasTwoSegments(o.name);
  }

  function SumSizes(records: seq<UploadRecord>): real
  {
    if records == [] then 0.0
    else
      var last := records[|records| - 1];
      SumSizes(records[..|records| - 1]) + (if last.uploadSize.Some? then last.uploadSize.value else 0.0)
  }

  /** The enriched total is the sum of the entries' `upload_size`. */
  lemma {:induction false} TotalIsSumOfEntrySizes(rows: seq<Row>, host: Host, objs: seq<StorageObject>)
    requires AllSplittable(objs)
    ensures SumKB(objs) == SumSizes(EnrichAll(rows, host, objs))
  {
    if objs != [] {
      var prefix := objs[..|objs| - 1];
      TotalIsSumOfEntrySizes(rows, host, prefix);
      var all := EnrichAll(rows, host, objs);
      assert all[..|all| - 1] == EnrichAll(rows, host, prefix);
    }
  }

  /** The rows `list_missing_uploads`'s query returns, in query order. */
  function EligibleRows(rows: seq<Row>): seq<Row>
  {
    if rows == [] then []
    else
      var n := |rows| - 1;
      EligibleRows(rows[..n]) + (if Eligible(rows[n]) then [rows[n]] else [])
  }

  /** Names of the listed objects. */
  function Names(listing: seq<StorageObject>): set<string>
  {
    set o | o in listing :: o.name
  }

  /** Rows, in order, whose key is not among the listed names. */
  function MissingRows(host: Host, rows: seq<Row>, names: set<string>): seq<Row>
  {
    if rows == [] then []
    else
      var n := |rows| - 1;
      MissingRows(host, rows[..n], names) +
        (if StorageKey(host, rows[n].id, rows[n].url) !in names then [rows[n]] else [])
  }

  /** The entry `list_missing_uploads` reports for a row. */
  function MissingRecord(host: Host, r: Row): UploadRecord
  {
    UploadRecord(Some(r.id), Some(r.url), Some(r.packageId), Some(host.render(r.created)),
                 Some(host.render(r.lastModified)), Some(r.ownerOrg), None, None,
                 Some(Active), Some(Active))
  }

  function MissingRecords(host: Host, rows: seq<Row>): (records: seq<UploadRecord>)
    ensures |records| == |rows|
  {
    if rows == [] then []
    else MissingRecords(host, rows[..|rows| - 1]) + [MissingRecord(host, rows[|rows| - 1])]
  }

  lemma MissingRowsStep(host: Host, rows: seq<Row>, i: nat, names: set<string>)
    requires i < |rows|
    ensures var prev := MissingRows(host, rows[..i], names);
      MissingRecords(host, MissingRows(host, rows[..i + 1], names)) ==
        MissingRecords(host, prev) +
        (if StorageKey(host, rows[i].id, rows[i].url) !in names then [MissingRecord(host, rows[i])] else [])
  {
    assert rows[..i + 1][..i] == rows[..i];
    var prev := MissingRows(host, rows[..i], names);
    if StorageKey(host, rows[i].id, rows[i].url) !in names {
      assert MissingRows(host, rows[..i + 1], names) == prev + [rows[i]];
      assert (prev + [rows[i]])[..|prev|] == prev;
      assert MissingRecords(host, prev + [rows[i]]) == MissingRecords(host, prev) + [MissingRecord(host, rows[i])];
    } else {
      assert MissingRows(host, rows[..i + 1], names) == prev + [];
      assert prev + [] == prev;
    }
  }

  /** The loop of `list_missing_uploads`: the eligible rows whose key is
      not listed. */
  method MissingUploads(rows: seq<Row>, listing: seq<StorageObject>, host: Host)
    returns (missing: seq<UploadRecord>)
    ensures missing == MissingRecords(host, MissingRows(host, EligibleRows(rows), Names(listing)))
  {
    var uploadUrls := Names(listing);
    var resourceFields := EligibleRows(rows);
    missing := [];
    for i := 0 to |resourceFields|
      invariant missing == MissingRecords(host, MissingRows(host, resourceFields[..i], uploadUrls))
    {
      var r := resourceFields[i];
      MissingRowsStep(host, resourceFields, i, uploadUrls);
      var url := StorageKey(host, r.id, r.url);
      if url !in uploadUrls {
        missing := missing + [MissingRecord(host, r)];
      }
    }
    assert resourceFields[..|resourceFields|] == resourceFields;
  }

  lemma {:induction false} EligibleRowsMembership(rows: seq<Row>, r: Row)
    ensures r in EligibleRows(rows) <==> r in rows && Eligible(r)
  {
    if rows != [] {
      var n := |rows| - 1;
      EligibleRowsMembership(rows[..n], r);
      assert rows == rows[..n] + [rows[n]];
    }
  }

  lemma {:induction false} MissingRowsMembership(host: Host, rows: seq<Row>, names: set<string>, r: Row)
    ensures r in MissingRows(host, rows, names) <==> r in rows && StorageKey(host, r.id, r.url) !in names
  {
    if rows != [] {
      var n := |rows| - 1;
      MissingRowsMembership(host, rows[..n], names, r);
      assert rows == rows[..n] + [rows[n]];
    }
  }

  lemma {:induction false} MissingRecordsAt(host: Host, rows: seq<Row>, i: nat)
    requires i < |rows|
    ensures |MissingRecords(host, rows)| == |rows|
    ensures MissingRecords(host, rows)[i] == MissingRecord(host, rows[i])
  {
    var n := |rows| - 1;
    if n > 0 {
      MissingRecordsAt(host, rows[..n], if i < n then i else 0);
    }
  }

  /** `list_missing_uploads` reports an eligible row exactly when its key is
      not among the listed names; every entry carries no upload and both
      states ACTIVE, and entries keep query order. */
  lemma MissingUploadsExactly(rows: seq<Row>, listing: seq<StorageObject>, host: Host, r: Row)
    ensures var missing := MissingRows(host, EligibleRows(rows), Names(listing));
      (r in missing <==> r in rows && Eligible(r) && StorageKey(host, r.id, r.url) !in Names(listing)) &&
      IsSubsequence(missing, EligibleRows(rows)) &&
      forall i :: 0 <= i < |missing| ==>
        MissingRecords(host, missing)[i].resourceId == Some(missing[i].id) &&
        MissingRecords(host, missing)[i].uploadUrl == None &&
        MissingRecords(host, missing)[i].uploadSize == None &&
        MissingRecords(host, missing)[i].packageState == Some(Active) &&
        MissingRecords(host, missing)[i].resourceState == Some(Active)
  {
    var names := Names(listing);
    var eligible := EligibleRows(rows);
    var missing := MissingRows(host, eligible, names);
    EligibleRowsMembership(rows, r);
    MissingRowsMembership(host, eligible, names, r);
    MissingRowsKeepOrder(host, eligible, names);
    forall i | 0 <= i < |missing|
      ensures MissingRecords(host, missing)[i] == MissingRecord(host, missing[i])
    {
      MissingRecordsAt(host, missing, i);
    }
  }

  lemma {:induction false} MissingRowsKeepOrder(host: Host, rows: seq<Row>, names: set<string>)
    ensures IsSubsequence(MissingRows(host, rows, names), rows)
  {
    if rows != [] {
      var n := |rows| - 1;
      var prev := MissingRows(host, rows[..n], names);
      MissingRowsKeepOrder(host, rows[..n], names);
      assert rows == rows[..n] + [rows[n]];
      if StorageKey(host, rows[n].id, rows[n].url) !in names {
        SubsequenceAppendBoth(prev, rows[..n], rows[n]);
      } else {
        assert MissingRows(host, rows, names) == prev;
        SubsequenceExtend(prev, rows[..n], rows[n]);
      }
    }
  }

  /** Every eligible row is either linked (some listed object carries its
      key) or missing, never both. */
  lemma LinkedOrMissing(rows: seq<Row>, listing: seq<StorageObject>, host: Host, r: Row)
    requires r in rows && Eligible(r)
    ensures var key := StorageKey(host, r.id, r.url);
      (exists o :: o in Select(listing, ExpectedKeys(rows, host), true) && o.name == key) <==>
      r !in MissingRows(host, EligibleRows(rows), Names(listing))
  {
    var key := StorageKey(host, r.id, r.url);
    EligibleRowsMembership(rows, r);
    MissingRowsMembership(host, EligibleRows(rows), Names(listing), r);
    if key in Names(listing) {
      var o :| o in listing && o.name == key;
      SelectMembership(listing, ExpectedKeys(rows, host), true, o);
    }
    forall o | o in Select(listing, ExpectedKeys(rows, host), true) && o.name == key
      ensures key in Names(listing)
    {
      SelectMembership(listing, ExpectedKeys(rows, host), true, o);
    }
  }

  /** What `list_linked_uploads` and `list_unlinked_uploads` produce: a CSV
      export when an output path is given, else a count and a humanised
      total. */
  datatype Listing = Csv(output: CsvOutput) | Totals(count: nat, space: real, unit: Unit) | Count(count: nat)

  /** `list_linked_uploads` (linked) and `list_unlinked_uploads` (not linked). */
  method ListUploads(rows: seq<Row>, listing: seq<StorageObject>, host: Host,
                     getLinked: bool, outputPath: string)
    returns (r: Result<Listing>)
    ensures var sel := Select(listing, ExpectedKeys(rows, host), getLinked);
      (r.Ok? <==> AllSplittable(sel)) &&
      (r.Ok? && outputPath != "" ==>
         r.value.Csv? && (sel == [] <==> r.value.output == NothingToWrite) &&
         (r.value.output.Written? ==>
            |r.value.output.rows| == |sel| + 1 && r.value.output.rows[0] == Header &&
            forall i :: 0 <= i < |sel| ==> r.value.output.rows[i + 1] == CsvRow(EnrichAll(rows, host, sel)[i]))) &&
      (r.Ok? && outputPath == "" ==>
         r.value == Totals(|sel|, Humanize(SumKB(sel)).0, Humanize(SumKB(sel)).1))
  {
    var got := GetUploads(rows, listing, host, getLinked, false);
    if got.Err? {
      return Err(got.error);
    }
    ghost var sel := Select(listing, ExpectedKeys(rows, host), getLinked);
    var uploads := got.value.parsed.records;
    EnrichAllOnePerObject(rows, host, sel);
    if outputPath != "" {
      var out := WriteUploadsToCsv(uploads);
      return Ok(Csv(out));
    }
    var usedSpace, unit := HumanizeSpace(got.value.totalSpace);
    return Ok(Totals(|uploads|, usedSpace, unit));
  }

  /** `list_missing_uploads`: the CSV of the missing resources when an
      output path is given, otherwise their number. */
  method ListMissingUploads(rows: seq<Row>, listing: seq<StorageObject>, host: Host, outputPath: string)
    returns (r: Listing)
    ensures var missing := MissingRecords(host, MissingRows(host, EligibleRows(rows), Names(listing)));
      (outputPath != "" ==>
         r.Csv? && (missing == [] <==> r.output == NothingToWrite) &&
         (r.output.Written? ==>
            |r.output.rows| == |missing| + 1 && r.output.rows[0] == Header &&
            forall i :: 0 <= i < |missing| ==> r.output.rows[i + 1] == CsvRow(missing[i]))) &&
      (outputPath == "" ==> r == Count(|missing|))
  {
    var missing := MissingUploads(rows, listing, host);
    if outputPath != "" {
      var out := WriteUploadsToCsv(missing);
      return Csv(out);
    }
    return Count(|missing|);
  }
}
