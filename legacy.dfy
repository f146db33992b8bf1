/** The older reconciliation commands of cli.py: `_get_unlinked_uploads`,
    `_remove_unlinked_uploads` and `_list_missing_uploads`. Their queries
    filter on `url_type == 'upload'` only, with no lifecycle-state filter. */
module LegacyCli {
  import opened Sequences
  import opened Catalog
  import opened Uploads
  import opened Storage
  import opened Cleanup

  /** The rows of the query `filter(url_type == 'upload')`, in query order. */
  function UploadRows(rows: seq<Row>): seq<Row>
  {
    if rows == [] then []
    else
      var n := |rows| - 1;
      UploadRows(rows[..n]) + (if IsUpload(rows[n]) then [rows[n]] else [])
  }

  /** The storage key of each row, in order. */
  function KeysOf(host: Host, rows: seq<Row>): seq<string>
  {
    if rows == [] then []
    else
      var n := |rows| - 1;
      KeysOf(host, rows[..n]) + [StorageKey(host, rows[n].id, rows[n].url)]
  }

  /** The `resource_urls` list of `_get_unlinked_uploads`: exactly the
      keys of the upload-type rows, whatever their state. */
  function LegacyKeys(host: Host, rows: seq<Row>): (keys: seq<string>)
    ensures forall k :: k in keys <==> exists r :: r in rows && IsUpload(r) && StorageKey(host, r.id, r.url) == k
  {
    LegacyKeysExactly(host, rows);
    KeysOf(host, UploadRows(rows))
  }

  lemma LegacyKeysExactly(host: Host, rows: seq<Row>)
    ensures forall k :: k in KeysOf(host, UploadRows(rows)) <==>
              exists r :: r in rows && IsUpload(r) && StorageKey(host, r.id, r.url) == k
  {
    forall k
      ensures k in KeysOf(host, UploadRows(rows)) <==>
              exists r :: r in rows && IsUpload(r) && StorageKey(host, r.id, r.url) == k
    {
      KeysOfOrigin(host, UploadRows(rows), k);
      if k in KeysOf(host, UploadRows(rows)) {
        var r :| r in UploadRows(rows) && StorageKey(host, r.id, r.url) == k;
        UploadRowsMembership(rows, r);
      }
      if exists r :: r in rows && IsUpload(r) && StorageKey(host, r.id, r.url) == k {
        var r :| r in rows && IsUpload(r) && StorageKey(host, r.id, r.url) == k;
        UploadRowsMembership(rows, r);
        KeysOfMembership(host, UploadRows(rows), r);
      }
    }
  }

  /** Every key in the list belongs to one of the rows. */
  lemma {:induction false} KeysOfOrigin(host: Host, rows: seq<Row>, k: string)
    ensures k in KeysOf(host, rows) ==> exists r :: r in rows && StorageKey(host, r.id, r.url) == k
  {
    if rows != [] && k in KeysOf(host, rows) {
      var n := |rows| - 1;
      if k in KeysOf(host, rows[..n]) {
        KeysOfOrigin(host, rows[..n], k);
        var r :| r in rows[..n] && StorageKey(host, r.id, r.url) == k;
        assert r in rows;
      } else {
        assert StorageKey(host, rows[n].id, rows[n].url) == k;
      }
    }
  }

  /** `_get_unlinked_uploads` reports an object iff it is listed and no
      upload-type row, of any state, has its name as key. */
  lemma LegacyUnlinkedMembership(rows: seq<Row>, listing: seq<StorageObject>, host: Host, o: StorageObject)
    ensures o in Select(listing, LegacyKeySet(host, rows), false) <==>
              o in listing && forall r :: r in rows && IsUpload(r) ==> StorageKey(host, r.id, r.url) != o.name
  {
    SelectMembership(listing, LegacyKeySet(host, rows), false, o);
  }

  function LegacyKeySet(host: Host, rows: seq<Row>): set<string>
  {
    set k | k in LegacyKeys(host, rows)
  }

  function NamesOf(objs: seq<StorageObject>): seq<string>
  {
    if objs == [] then [] else NamesOf(objs[..|objs| - 1]) + [objs[|objs| - 1].name]
  }

  function IdsOf(rows: seq<Row>): seq<string>
  {
    if rows == [] then [] else IdsOf(rows[..|rows| - 1]) + [rows[|rows| - 1].id]
  }

  /** What `_get_unlinked_uploads` returns: the objects or only their names. */
  datatype Unlinked = ObjectsFound(objects: seq<StorageObject>) | NamesFound(names: seq<string>)

  lemma UploadRowsStep(rows: seq<Row>, i: nat)
    requires i < |rows|
    ensures UploadRows(rows[..i + 1]) == UploadRows(rows[..i]) + (if IsUpload(rows[i]) then [rows[i]] else [])
    ensures !IsUpload(rows[i]) ==> UploadRows(rows[..i + 1]) == UploadRows(rows[..i])
  {
    assert rows[..i + 1][..i] == rows[..i];
  }

  lemma KeysOfSnoc(host: Host, rows: seq<Row>, r: Row)
    ensures KeysOf(host, rows + [r]) == KeysOf(host, rows) + [StorageKey(host, r.id, r.url)]
  {
    assert (rows + [r])[..|rows|] == rows;
  }

  lemma NamesOfSnoc(objs: seq<StorageObject>, o: StorageObject)
    ensures NamesOf(objs + [o]) == NamesOf(objs) + [o.name]
  {
    assert (objs + [o])[..|objs|] == objs;
  }

  /** `_get_unlinked_uploads(return_objects)`: the listed objects whose name
      is the key of no upload-type row, in listing order. */
  method GetUnlinkedUploads(rows: seq<Row>, listing: seq<StorageObject>, host: Host, returnObjects: bool)
    returns (found: Unlinked)
    ensures var sel := Select(listing, LegacyKeySet(host, rows), false);
      found == if returnObjects then ObjectsFound(sel) else NamesFound(NamesOf(sel))
  {
    var resourceUrls: seq<string> := [];
    for i := 0 to |rows|
      invariant resourceUrls == KeysOf(host, UploadRows(rows[..i]))
    {
      UploadRowsStep(rows, i);
      if IsUpload(rows[i]) {
        KeysOfSnoc(host, UploadRows(rows[..i]), rows[i]);
        resourceUrls := resourceUrls + [StorageKey(host, rows[i].id, rows[i].url)];
      }
    }
    assert rows[..|rows|] == rows;
    ghost var keys := LegacyKeySet(host, rows);
    var objects: seq<StorageObject> := [];
    var names: seq<string> := [];
    for i := 0 to |listing|
      invariant objects == Select(listing[..i], keys, false)
      invariant names == NamesOf(objects)
    {
      var upload := listing[i];
      SelectStep(listing, i, keys, false);
      if upload.name !in resourceUrls {
        NamesOfSnoc(objects, upload);
        objects := objects + [upload];
        names := names + [upload.name];
      }
    }
    assert listing[..|listing|] == listing;
    if returnObjects {
      return ObjectsFound(objects);
    }
    return NamesFound(names);
  }

  lemma {:induction false} UploadRowsMembership(rows: seq<Row>, r: Row)
    ensures r in UploadRows(rows) <==> r in rows && IsUpload(r)
  {
    if rows != [] {
      var n := |rows| - 1;
      UploadRowsMembership(rows[..n], r);
      assert rows == rows[..n] + [rows[n]];
    }
  }

  lemma {:induction false} KeysOfMembership(host: Host, rows: seq<Row>, r: Row)
    requires r in rows
    ensures StorageKey(host, r.id, r.url) in KeysOf(host, rows)
  {
    var n := |rows| - 1;
    assert rows == rows[..n] + [rows[n]];
    if r != rows[n] {
      KeysOfMembership(host, rows[..n], r);
    }
  }

  /** The state filter of utils.py only narrows the key set of cli.py. */
  lemma CurrentKeysWithinLegacy(rows: seq<Row>, host: Host)
    ensures ExpectedKeys(rows, host) <= LegacyKeySet(host, rows)
  {
    forall k | k in ExpectedKeys(rows, host)
      ensures k in LegacyKeySet(host, rows)
    {
      var r :| r in rows && Eligible(r) && StorageKey(host, r.id, r.url) == k;
      UploadRowsMembership(rows, r);
      KeysOfMembership(host, UploadRows(rows), r);
    }
  }

  /** Every object cli.py reports unlinked, utils.py reports unlinked too,
      in the same order; utils.py may report more (objects of deleted
      resources or packages). */
  lemma LegacyUnlinkedWithinCurrent(rows: seq<Row>, listing: seq<StorageObject>, host: Host)
    ensures IsSubsequence(Select(listing, LegacyKeySet(host, rows), false),
                          Select(listing, ExpectedKeys(rows, host), false))
  {
    CurrentKeysWithinLegacy(rows, host);
    UnlinkedShrinksWithKeys(listing, ExpectedKeys(rows, host), LegacyKeySet(host, rows));
  }

  /** `_remove_unlinked_uploads`: one `delete_object` call per unlinked
      object, in order; the counters split them into successes and failures. */
  method RemoveUnlinkedUploads(rows: seq<Row>, host: Host, store: Container)
    returns (numSuccess: nat, numFailures: nat)
    modifies store
    ensures |store.Log| >= |old(store.Log)| && store.Log[..|old(store.Log)|] == old(store.Log)
    ensures var unlinked := Select(old(store.objects), LegacyKeySet(host, rows), false);
      var calls := store.Log[|old(store.Log)|..];
      AllDeletes(calls) && ObjectsOf(calls) == unlinked &&
      numSuccess == |Deleted(calls)| && numFailures == |Kept(calls)|
    ensures numSuccess + numFailures == |Select(old(store.objects), LegacyKeySet(host, rows), false)|
    ensures store.objects == Remaining(old(store.objects), store.Log[|old(store.Log)|..])
  {
    var listing := store.ListObjects();
    var found := GetUnlinkedUploads(rows, listing, host, true);
    var uploadsMissingResources := found.objects;
    ghost var log0, objs0 := store.Log, store.objects;
    ghost var calls: seq<Call> := [];
    numSuccess, numFailures := 0, 0;
    for i := 0 to |uploadsMissingResources|
      invariant store.Log == log0 + calls
      invariant AllDeletes(calls) && ObjectsOf(calls) == uploadsMissingResources[..i]
      invariant numSuccess == Tally(calls, 0.0).success && numFailures == Tally(calls, 0.0).failures
      invariant store.objects == Remaining(objs0, calls)
    {
      var upload := uploadsMissingResources[i];
      var ok := store.DeleteObject(upload);
      assert (calls + [Delete(upload, ok)])[..|calls|] == calls;
      calls := calls + [Delete(upload, ok)];
      assert uploadsMissingResources[..i + 1] == uploadsMissingResources[..i] + [upload];
      if ok {
        numSuccess := numSuccess + 1;
      } else {
        numFailures := numFailures + 1;
      }
    }
    assert uploadsMissingResources[..|uploadsMissingResources|] == uploadsMissingResources;
    assert store.Log[|log0|..] == calls;
    TallyAccounts(calls, 0.0);
  }

  /** `_list_missing_uploads`: ids of upload-type rows, in query order,
      whose key is not among the listed names. */
  method ListMissingUploads(rows: seq<Row>, listing: seq<StorageObject>, host: Host)
    returns (ids: seq<string>)
    ensures ids == IdsOf(MissingRows(host, UploadRows(rows), Names(listing)))
  {
    var uploadUrls := Names(listing);
    var resourceIdsAndFilenames := UploadRows(rows);
    ids := [];
    for i := 0 to |resourceIdsAndFilenames|
      invariant ids == IdsOf(MissingRows(host, resourceIdsAndFilenames[..i], uploadUrls))
    {
      var r := resourceIdsAndFilenames[i];
      MissingIdsStep(host, resourceIdsAndFilenames, i, uploadUrls);
      var url := StorageKey(host, r.id, r.url);
      if url !in uploadUrls {
        ids := ids + [r.id];
      }
    }
    assert resourceIdsAndFilenames[..|resourceIdsAndFilenames|] == resourceIdsAndFilenames;
  }

  lemma MissingRowsSnoc(host: Host, rows: seq<Row>, r: Row, names: set<string>)
    ensures MissingRows(host, rows + [r], names) ==
            MissingRows(host, rows, names) + (if StorageKey(host, r.id, r.url) !in names then [r] else [])
  {
    assert (rows + [r])[..|rows|] == rows;
  }

  lemma MissingIdsStep(host: Host, rows: seq<Row>, i: nat, names: set<string>)
    requires i < |rows|
    ensures IdsOf(MissingRows(host, rows[..i + 1], names)) ==
            IdsOf(MissingRows(host, rows[..i], names)) +
            (if StorageKey(host, rows[i].id, rows[i].url) !in names then [rows[i].id] else [])
  {
    assert rows[..i + 1] == rows[..i] + [rows[i]];
    MissingRowsSnoc(host, rows[..i], rows[i], names);
    var prev := MissingRows(host, rows[..i], names);
    assert (prev + [rows[i]])[..|prev|] == prev;
    assert prev + [] == prev;
  }

  /** cli.py reports an upload-type row as missing exactly when its key is
      not listed, whatever its lifecycle state. */
  lemma LegacyMissingExactly(rows: seq<Row>, listing: seq<StorageObject>, host: Host, r: Row)
    ensures r in MissingRows(host, UploadRows(rows), Names(listing)) <==>
            r in rows && IsUpload(r) && StorageKey(host, r.id, r.url) !in Names(listing)
  {
    UploadRowsMembership(rows, r);
    MissingRowsMembership(host, UploadRows(rows), Names(listing), r);
  }

  /** The rows utils.py reports missing are among those cli.py reports, in
      the same order: the state filter only removes rows. */
  lemma {:induction false} CurrentMissingWithinLegacy(rows: seq<Row>, host: Host, names: set<string>)
    ensures IsSubsequence(MissingRows(host, EligibleRows(rows), names),
                          MissingRows(host, UploadRows(rows), names))
  {
    if rows == [] {
    } else {
      var n := |rows| - 1;
      var r := rows[n];
      CurrentMissingWithinLegacy(rows[..n], host, names);
      var e, u := EligibleRows(rows[..n]), UploadRows(rows[..n]);
      var a, b := MissingRows(host, e, names), MissingRows(host, u, names);
      var out := StorageKey(host, r.id, r.url) !in names;
      if Eligible(r) {
        MissingRowsSnoc(host, e, r, names);
        MissingRowsSnoc(host, u, r, names);
        if out {
          SubsequenceAppendBoth(a, b, r);
        } else {
          assert a + [] == a && b + [] == b;
        }
      } else if IsUpload(r) {
        assert e + [] == e;
        MissingRowsSnoc(host, u, r, names);
        if out {
          SubsequenceExtend(a, b, r);
        } else {
          assert b + [] == b;
        }
      } else {
        assert e + [] == e && u + [] == u;
      }
    }
  }
}
