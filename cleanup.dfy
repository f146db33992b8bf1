/** `remove_unlinked_uploads` (utils.py): delete every unlinked object,
    counting successes, failures and the space they free. */
module Cleanup {
  import opened Wrappers
  import opened Catalog
  import opened Reports
  import opened Uploads
  import opened Storage

  /** `num_success`, `num_failures`, `saved_space` and `used_space` after
      the deletion loop. */
  datatype Counters = Counters(success: nat, failures: nat, saved: real, used: real)

  predicate AllDeletes(calls: seq<Call>)
  {
    forall c :: c in calls ==> c.Delete?
  }

  /** The objects the calls asked to delete, in call order. */
  function ObjectsOf(calls: seq<Call>): (objs: seq<StorageObject>)
    requires AllDeletes(calls)
    ensures |objs| == |calls|
  {
    if calls == [] then [] else ObjectsOf(calls[..|calls| - 1]) + [calls[|calls| - 1].obj]
  }

  /** The objects whose deletion succeeded, in call order. */
  function Deleted(calls: seq<Call>): seq<StorageObject>
    requires AllDeletes(calls)
  {
    if calls == [] then []
    else
      var last := calls[|calls| - 1];
      Deleted(calls[..|calls| - 1]) + (if last.ok then [last.obj] else [])
  }

  /** The objects whose deletion failed, in call order. */
  function Kept(calls: seq<Call>): seq<StorageObject>
    requires AllDeletes(calls)
  {
    if calls == [] then []
    else
      var last := calls[|calls| - 1];
      Kept(calls[..|calls| - 1]) + (if last.ok then [] else [last.obj])
  }

  /** The counters the loop of `remove_unlinked_uploads` holds after the
      given delete calls, when `used_space` starts at `used0`. */
  function Tally(calls: seq<Call>, used0: real): (c: Counters)
    requires AllDeletes(calls)
    ensures c.success + c.failures == |calls|
    ensures c.saved + c.used == used0
  {
    if calls == [] then Counters(0, 0, 0.0, used0)
    else
      var c := Tally(calls[..|calls| - 1], used0);
      var last := calls[|calls| - 1];
      if last.ok then Counters(c.success + 1, c.failures, c.saved + SizeKB(last.obj), c.used - SizeKB(last.obj))
      else Counters(c.success, c.failures + 1, c.saved, c.used)
  }

  /** The container's objects after the calls. */
  function Remaining(objs: seq<StorageObject>, calls: seq<Call>): seq<StorageObject>
    requires AllDeletes(calls)
  {
    if calls == [] then objs
    else
      var last := calls[|calls| - 1];
      var before := Remaining(objs, calls[..|calls| - 1]);
      if last.ok then Without(before, last.obj.name) else before
  }

  /** One more delete call: its object, its outcome in the counters and its
      effect on the container are appended. */
  lemma DeleteStep(calls: seq<Call>, d: Call, objs: seq<StorageObject>)
    requires AllDeletes(calls) && d.Delete?
    ensures AllDeletes(calls + [d])
    ensures ObjectsOf(calls + [d]) == ObjectsOf(calls) + [d.obj]
    ensures var t := Tally(calls, 0.0);
      Tally(calls + [d], 0.0) ==
        if d.ok then Counters(t.success + 1, t.failures, t.saved + SizeKB(d.obj), t.used - SizeKB(d.obj))
        else Counters(t.success, t.failures + 1, t.saved, t.used)
    ensures Remaining(objs, calls + [d]) ==
              if d.ok then Without(Remaining(objs, calls), d.obj.name) else Remaining(objs, calls)
  {
    assert (calls + [d])[..|calls|] == calls;
  }

  /** Every attempt ends as a success or a failure, and `used_space +
      saved_space` never changes: the counters account for exactly the
      deleted and the kept objects. */
  lemma {:induction false} TallyAccounts(calls: seq<Call>, used0: real)
    requires AllDeletes(calls)
    ensures var c := Tally(calls, used0);
      c.success + c.failures == |calls| &&
      c.success == |Deleted(calls)| && c.failures == |Kept(calls)| &&
      c.saved == SumKB(Deleted(calls)) && c.saved + c.used == used0 &&
      SumKB(Deleted(calls)) + SumKB(Kept(calls)) == SumKB(ObjectsOf(calls))
  {
    if calls != [] {
      var prefix := calls[..|calls| - 1];
      var last := calls[|calls| - 1];
      assert AllDeletes(prefix);
      TallyAccounts(prefix, used0);
      var d, k, all := Deleted(prefix), Kept(prefix), ObjectsOf(prefix);
      if last.ok {
        assert (d + [last.obj])[..|d|] == d;
        assert k + [] == k;
      } else {
        assert (k + [last.obj])[..|k|] == k;
        assert d + [] == d;
      }
      assert (all + [last.obj])[..|all|] == all;
    }
  }

  /** What `remove_unlinked_uploads` prints after the loop: the "Deleted N
      upload(s). Saved X U." line, the "Failed to delete N upload(s)." line
      and the "Remaining space used ..." line, each present or not. */
  datatype RemovalSummary = RemovalSummary(
    deleted: Option<(nat, real, Unit)>,
    failed: Option<nat>,
    remaining: Option<(real, Unit)>)

  /** The summary as utils.py:173-184 computes it: the "Saved" amount is
      `_humanize_space(used_space)`, not of `saved_space`. */
  function SummaryAsWritten(c: Counters): (s: RemovalSummary)
    ensures s.deleted.Some? <==> c.success != 0
    ensures s.failed.Some? <==> c.failures != 0
    ensures s.remaining.Some? <==> c.used != 0.0
    ensures s.deleted.Some? && c.used < 1000.0 ==> s.deleted.value == (c.success, c.used, KB)
  {
    var (u, unit) := Humanize(c.used);
    RemovalSummary(
      if c.success != 0 then Some((c.success, u, unit)) else None,
      if c.failures != 0 then Some(c.failures) else None,
      if c.used != 0.0 then Some(Humanize(c.used)) else None)
  }

  /** The summary as intended: "Saved" reports `saved_space`, and the space
      still used by unlinked uploads is their total minus what was saved
      (the objects-only listing returns a total of 0, so `used_space` alone
      is only the negated saving). */
  function Summary(c: Counters, unlinkedTotal: real): RemovalSummary
  {
    var (s, unit) := Humanize(c.saved);
    var left := unlinkedTotal + c.used;
    RemovalSummary(
      if c.success != 0 then Some((c.success, s, unit)) else None,
      if c.failures != 0 then Some(c.failures) else None,
      if left != 0.0 then Some(Humanize(left)) else None)
  }

  lemma HumanizeBelowThousand(x: real)
    requires x < 1000.0
    ensures Humanize(x) == (x, KB)
  {
  }

  /** As written, whenever a non-empty object is deleted the "Saved" amount
      is the negated saving and a negative "Remaining" line follows. */
  lemma SavedAsWrittenIsNegative(calls: seq<Call>)
    requires AllDeletes(calls)
    requires SumKB(Deleted(calls)) > 0.0
    ensures var s := SummaryAsWritten(Tally(calls, 0.0));
      s.deleted == Some((|Deleted(calls)|, -SumKB(Deleted(calls)), KB)) &&
      s.remaining == Some((-SumKB(Deleted(calls)), KB))
  {
    TallyAccounts(calls, 0.0);
    HumanizeBelowThousand(-SumKB(Deleted(calls)));
  }

  /** The concrete case: one unlinked 2000-byte object, deleted. */
  lemma SavedSpaceCounterexample()
    ensures var o := StorageObject("resources/gone/data.csv", 2000);
      var c := Tally([Delete(o, true)], 0.0);
      c == Counters(1, 0, 2.0, -2.0) &&
      SummaryAsWritten(c) == RemovalSummary(Some((1, -2.0, KB)), None, Some((-2.0, KB))) &&
      Summary(c, 2.0) == RemovalSummary(Some((1, 2.0, KB)), None, None)
  {
    var o := StorageObject("resources/gone/data.csv", 2000);
    var calls := [Delete(o, true)];
    assert calls[..0] == [];
    assert Tally(calls, 0.0) == Counters(1, 0, 2.0, -2.0);
    HumanizeBelowThousand(-2.0);
    HumanizeBelowThousand(2.0);
  }

  /** The intended summary reports the number and the space of the deleted
      objects, the number of failures, and exactly the space of the objects
      that could not be deleted. */
  lemma SummaryReportsSavedAndRemaining(calls: seq<Call>)
    requires AllDeletes(calls)
    ensures var s := Summary(Tally(calls, 0.0), SumKB(ObjectsOf(calls)));
      (s.deleted.Some? <==> Deleted(calls) != []) &&
      (s.deleted.Some? ==>
         s.deleted.value == (|Deleted(calls)|, Humanize(SumKB(Deleted(calls))).0, Humanize(SumKB(Deleted(calls))).1)) &&
      (s.failed.Some? <==> Kept(calls) != []) &&
      (s.failed.Some? ==> s.failed.value == |Kept(calls)|) &&
      (s.remaining.Some? <==> SumKB(Kept(calls)) != 0.0) &&
      (s.remaining.Some? ==> s.remaining.value == Humanize(SumKB(Kept(calls))))
  {
    TallyAccounts(calls, 0.0);
  }

  /** `remove_unlinked_uploads`: one `delete_object` call per unlinked
      object, in listing order, and the counters of its loop. The counters
      keep the source's `used_space` (it starts at the objects-only total,
      0), and the summary is the one the command prints. */
  method RemoveUnlinkedUploads(rows: seq<Row>, host: Host, store: Container)
    returns (c: Counters, summary: RemovalSummary)
    modifies store
    ensures |store.Log| >= |old(store.Log)| && store.Log[..|old(store.Log)|] == old(store.Log)
    ensures var unlinked := Select(old(store.objects), ExpectedKeys(rows, host), false);
      var calls := store.Log[|old(store.Log)|..];
      AllDeletes(calls) && ObjectsOf(calls) == unlinked &&
      c == Tally(calls, 0.0) &&
      store.objects == Remaining(old(store.objects), calls) &&
      summary == SummaryAsWritten(c)
  {
    var listing := store.ListObjects();
    var got := GetUploads(rows, listing, host, false, true);
    var uploadsMissingResources := got.value.parsed.objects;
    var usedSpace := got.value.totalSpace;
    ghost var log0, objs0 := store.Log, store.objects;
    ghost var calls: seq<Call> := [];
    var numSuccess, numFailures, savedSpace := 0, 0, 0.0;
    for i := 0 to |uploadsMissingResources|
      invariant store.Log == log0 + calls
      invariant AllDeletes(calls) && ObjectsOf(calls) == uploadsMissingResources[..i]
      invariant Counters(numSuccess, numFailures, savedSpace, usedSpace) == Tally(calls, 0.0)
      invariant store.objects == Remaining(objs0, calls)
    {
      var upload := uploadsMissingResources[i];
      var ok := store.DeleteObject(upload);
      DeleteStep(calls, Delete(upload, ok), objs0);
      calls := calls + [Delete(upload, ok)];
      assert uploadsMissingResources[..i + 1] == uploadsMissingResources[..i] + [upload];
      if ok {
        numSuccess := numSuccess + 1;
        savedSpace := savedSpace + SizeKB(upload);
        usedSpace := usedSpace - SizeKB(upload);
      } else {
        numFailures := numFailures + 1;
      }
    }
    assert uploadsMissingResources[..|uploadsMissingResources|] == uploadsMissingResources;
    assert store.Log[|log0|..] == calls;
    c := Counters(numSuccess, numFailures, savedSpace, usedSpace);
    summary := SummaryAsWritten(c);
  }
}
