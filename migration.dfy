/** `_migrate` of cli.py: walk a legacy storage tree, rebuild each file's
    resource id from its two deepest directories and its name, then upload
    every file whose resource is an upload, isolating per-file failures. */
module Migration {
  import opened Wrappers
  import opened Paths
  import opened Catalog
  import opened Storage

  /** One `(root, dirs, files)` triple of `os.walk`; `dirs` plays no part. */
  datatype WalkEntry = WalkEntry(root: string, files: seq<string>)

  /** The fields of `resource_show`'s answer that `_migrate` reads. */
  datatype Resource = Resource(id: string, url: string, urlType: string)

  /** `split_root[-2] + split_root[-1] + file_`: the file name preceded by
      the names of its two deepest directories, with no separator left in
      between. */
  function Identity(root: string, file: string): string
    requires |Split(root)| >= 2
  {
    var segs := Split(root);
    segs[|segs| - 2] + segs[|segs| - 1] + file
  }

  /** An identity ends with the file name, and it is a single path
      component whenever the file name is: the two directory names carry
      no separator. */
  lemma IdentityShape(root: string, file: string)
    requires |Split(root)| >= 2
    ensures var id := Identity(root, file);
      |id| >= |file| && id[|id| - |file|..] == file &&
      (Sep !in file ==> Sep !in id)
  {
    SplitSegmentsHaveNoSeparator(root);
    var segs := Split(root);
    var id := Identity(root, file);
    assert id == (segs[|segs| - 2] + segs[|segs| - 1]) + file;
  }

  /** `if single_id and ckan_res_id != single_id: continue` (an empty
      `single_id` is falsy and filters nothing). */
  predicate Wanted(id: string, singleId: Option<string>)
  {
    !(singleId.Some? && singleId.value != "" && id != singleId.value)
  }

  /** The tasks one walk entry adds, later files of the entry overwriting
      earlier ones with the same identity. */
  function EntryTasks(root: string, files: seq<string>, singleId: Option<string>): (m: map<string, string>)
    requires |Split(root)| >= 2
    ensures forall k :: k in m ==> Wanted(k, singleId)
  {
    if files == [] then map[]
    else
      var n := |files| - 1;
      var id := Identity(root, files[n]);
      var m := EntryTasks(root, files[..n], singleId);
      if Wanted(id, singleId) then m[id := PathJoin(root, files[n])] else m
  }

  /** The `resources` dict after the walk loop, or the `IndexError` raised
      by a file-bearing root with fewer than two segments. */
  function Tasks(walk: seq<WalkEntry>, singleId: Option<string>): (r: Result<map<string, string>>)
    ensures r.Err? ==> r.error == IndexError
    ensures r.Ok? ==> forall k :: k in r.value ==> Wanted(k, singleId)
  {
    if walk == [] then Ok(map[])
    else
      var n := |walk| - 1;
      var e := walk[n];
      match Tasks(walk[..n], singleId)
      case Err(err) => Err(err)
      case Ok(m) =>
        if e.files == [] then Ok(m)
        else if |Split(e.root)| < 2 then Err(IndexError)
        else Ok(m + EntryTasks(e.root, e.files, singleId))
  }

  /** The first loop of `_migrate`: build the task map from the walk. */
  method BuildTasks(walk: seq<WalkEntry>, singleId: Option<string>) returns (r: Result<map<string, string>>)
    ensures r == Tasks(walk, singleId)
  {
    var resources: map<string, string> := map[];
    for i := 0 to |walk|
      invariant Tasks(walk[..i], singleId) == Ok(resources)
    {
      var root, files := walk[i].root, walk[i].files;
      assert walk[..i + 1] == walk[..i] + [walk[i]];
      TasksSnoc(walk[..i], walk[i], singleId);
      if files == [] {
        continue;
      }
      var splitRoot := Split(root);
      if |splitRoot| < 2 {
        TasksErrorPersists(walk, i + 1, singleId);
        return Err(IndexError);
      }
      resources := AddEntryTasks(resources, root, files, singleId);
    }
    assert walk[..|walk|] == walk;
    return Ok(resources);
  }

  /** The inner loop of `_migrate`'s walk: one task per wanted file of a
      directory, added over the tasks already built. */
  method AddEntryTasks(before: map<string, string>, root: string, files: seq<string>, singleId: Option<string>)
    returns (resources: map<string, string>)
    requires |Split(root)| >= 2
    ensures resources == before + EntryTasks(root, files, singleId)
  {
    var splitRoot := Split(root);
    var resourceId := splitRoot[|splitRoot| - 2] + splitRoot[|splitRoot| - 1];
    resources := before;
    for j := 0 to |files|
      invariant resources == before + EntryTasks(root, files[..j], singleId)
    {
      var file := files[j];
      var ckanResId := resourceId + file;
      assert ckanResId == Identity(root, file);
      EntryTasksStep(root, files, j, singleId);
      if !Wanted(ckanResId, singleId) {
        continue;
      }
      UnionUpdate(before, EntryTasks(root, files[..j], singleId), ckanResId, PathJoin(root, file));
      resources := resources[ckanResId := PathJoin(root, file)];
    }
    assert files[..|files|] == files;
  }

  lemma TasksSnoc(walk: seq<WalkEntry>, e: WalkEntry, singleId: Option<string>)
    requires Tasks(walk, singleId).Ok?
    ensures Tasks(walk + [e], singleId) ==
            if e.files == [] then Tasks(walk, singleId)
            else if |Split(e.root)| < 2 then Err(IndexError)
            else Ok(Tasks(walk, singleId).value + EntryTasks(e.root, e.files, singleId))
  {
    assert (walk + [e])[..|walk|] == walk;
  }

  lemma EntryTasksStep(root: string, files: seq<string>, j: nat, singleId: Option<string>)
    requires |Split(root)| >= 2 && j < |files|
    ensures var id := Identity(root, files[j]);
      EntryTasks(root, files[..j + 1], singleId) ==
        if Wanted(id, singleId) then EntryTasks(root, files[..j], singleId)[id := PathJoin(root, files[j])]
        else EntryTasks(root, files[..j], singleId)
  {
    assert files[..j + 1][..j] == files[..j];
  }

  lemma UnionUpdate(a: map<string, string>, b: map<string, string>, k: string, v: string)
    ensures (a + b)[k := v] == a + b[k := v]
  {
  }

  /** The walk fails exactly when some directory that holds files has a
      path with fewer than two segments. */
  lemma {:induction false} TasksFailExactly(walk: seq<WalkEntry>, singleId: Option<string>)
    ensures Tasks(walk, singleId).Err? <==>
              exists i :: 0 <= i < |walk| && walk[i].files != [] && |Split(walk[i].root)| < 2
  {
    if walk != [] {
      var n := |walk| - 1;
      TasksFailExactly(walk[..n], singleId);
      if exists i :: 0 <= i < n && walk[..n][i].files != [] && |Split(walk[..n][i].root)| < 2 {
        var i :| 0 <= i < n && walk[..n][i].files != [] && |Split(walk[..n][i].root)| < 2;
        assert walk[i] == walk[..n][i];
      }
      if exists i :: 0 <= i < |walk| && walk[i].files != [] && |Split(walk[i].root)| < 2 {
        var i :| 0 <= i < |walk| && walk[i].files != [] && |Split(walk[i].root)| < 2;
        if i < n {
          assert walk[..n][i] == walk[i];
        }
      }
    }
  }

  /** An `IndexError` in a prefix of the walk is the outcome of the walk. */
  lemma {:induction false} TasksErrorPersists(walk: seq<WalkEntry>, i: nat, singleId: Option<string>)
    requires i <= |walk| && Tasks(walk[..i], singleId).Err?
    ensures Tasks(walk, singleId) == Err(IndexError)
    decreases |walk| - i
  {
    if i < |walk| {
      assert walk[..i + 1][..i] == walk[..i];
      TasksErrorPersists(walk, i + 1, singleId);
    } else {
      assert walk[..i] == walk;
    }
  }

  /** With `single_id` set, the only key the task map can hold is it. */
  lemma {:induction false} SingleIdTasks(walk: seq<WalkEntry>, s: string)
    requires s != "" && Tasks(walk, Some(s)).Ok?
    ensures Tasks(walk, Some(s)).value.Keys <= {s}
  {
    if walk != [] {
      var n := |walk| - 1;
      SingleIdTasks(walk[..n], s);
    }
  }

  /** Walk entries with no files contribute no tasks and raise nothing. */
  lemma {:induction false} EmptyEntriesIgnored(walk: seq<WalkEntry>, root: string, singleId: Option<string>)
    ensures Tasks(walk + [WalkEntry(root, [])], singleId) == Tasks(walk, singleId)
  {
    assert (walk + [WalkEntry(root, [])])[..|walk|] == walk;
  }

  /** A task key comes from a file of a file-bearing entry, keyed by that
      file's identity and mapped to its path. */
  lemma {:induction false} TaskOrigin(walk: seq<WalkEntry>, singleId: Option<string>, k: string)
    requires Tasks(walk, singleId).Ok?
    ensures k in Tasks(walk, singleId).value ==>
              exists i, j :: 0 <= i < |walk| && 0 <= j < |walk[i].files| &&
                |Split(walk[i].root)| >= 2 && Identity(walk[i].root, walk[i].files[j]) == k &&
                Tasks(walk, singleId).value[k] == PathJoin(walk[i].root, walk[i].files[j]) &&
                Wanted(k, singleId)
  {
    if walk != [] && k in Tasks(walk, singleId).value {
      var n := |walk| - 1;
      var e := walk[n];
      assert walk == walk[..n] + [e];
      TasksPrefixOk(walk, singleId);
      TasksSnoc(walk[..n], e, singleId);
      var m := Tasks(walk[..n], singleId).value;
      if e.files != [] && k in EntryTasks(e.root, e.files, singleId) {
        EntryOrigin(e.root, e.files, singleId, k);
        var j :| 0 <= j < |e.files| && Identity(e.root, e.files[j]) == k &&
                 EntryTasks(e.root, e.files, singleId)[k] == PathJoin(e.root, e.files[j]);
        assert walk[n].files[j] == e.files[j];
      } else {
        TaskOrigin(walk[..n], singleId, k);
        var i, j :| 0 <= i < n && 0 <= j < |walk[..n][i].files| &&
                    |Split(walk[..n][i].root)| >= 2 && Identity(walk[..n][i].root, walk[..n][i].files[j]) == k &&
                    m[k] == PathJoin(walk[..n][i].root, walk[..n][i].files[j]) && Wanted(k, singleId);
        assert walk[i] == walk[..n][i];
      }
    }
  }

  /** Every wanted file of the walk has a task under its identity. */
  lemma {:induction false} TaskCoverage(walk: seq<WalkEntry>, singleId: Option<string>, k: string, i: nat, j: nat)
    requires Tasks(walk, singleId).Ok?
    requires i < |walk| && j < |walk[i].files| && |Split(walk[i].root)| >= 2
    requires Identity(walk[i].root, walk[i].files[j]) == k && Wanted(k, singleId)
    ensures k in Tasks(walk, singleId).value
  {
    var n := |walk| - 1;
    var e := walk[n];
    assert walk == walk[..n] + [e];
    TasksPrefixOk(walk, singleId);
    TasksSnoc(walk[..n], e, singleId);
    if i < n {
      assert walk[..n][i] == walk[i];
      TaskCoverage(walk[..n], singleId, k, i, j);
    } else {
      EntryCoverage(e.root, e.files, singleId, k, j);
    }
  }

  /** Within one directory, each task is the identity of one of its files,
      mapped to that file's path. */
  lemma {:induction false} EntryOrigin(root: string, files: seq<string>, singleId: Option<string>, k: string)
    requires |Split(root)| >= 2
    ensures k in EntryTasks(root, files, singleId) ==>
              exists j :: 0 <= j < |files| && Identity(root, files[j]) == k &&
                EntryTasks(root, files, singleId)[k] == PathJoin(root, files[j])
  {
    if files != [] && k in EntryTasks(root, files, singleId) {
      var n := |files| - 1;
      if k != Identity(root, files[n]) || !Wanted(k, singleId) {
        EntryOrigin(root, files[..n], singleId, k);
        var j :| 0 <= j < n && Identity(root, files[..n][j]) == k &&
                 EntryTasks(root, files[..n], singleId)[k] == PathJoin(root, files[..n][j]);
        assert files[j] == files[..n][j];
      }
    }
  }

  /** Within one directory, every wanted file has a task. */
  lemma {:induction false} EntryCoverage(root: string, files: seq<string>, singleId: Option<string>, k: string, j: nat)
    requires |Split(root)| >= 2 && j < |files|
    requires Identity(root, files[j]) == k && Wanted(k, singleId)
    ensures k in EntryTasks(root, files, singleId)
  {
    var n := |files| - 1;
    if j < n {
      assert files[..n][j] == files[j];
      EntryCoverage(root, files[..n], singleId, k, j);
    }
  }

  /** The task map is keyed by identity: of two walk parts, the later one's
      path wins for an identity both produce. */
  lemma {:induction false} LaterOverwrites(w1: seq<WalkEntry>, w2: seq<WalkEntry>, singleId: Option<string>)
    requires Tasks(w1, singleId).Ok? && Tasks(w2, singleId).Ok?
    ensures Tasks(w1 + w2, singleId) == Ok(Tasks(w1, singleId).value + Tasks(w2, singleId).value)
    decreases |w2|
  {
    if w2 == [] {
      assert w1 + w2 == w1;
      assert Tasks(w1, singleId).value + map[] == Tasks(w1, singleId).value;
    } else {
      var n := |w2| - 1;
      var e := w2[n];
      assert w2 == w2[..n] + [e];
      assert w1 + w2 == (w1 + w2[..n]) + [e];
      TasksPrefixOk(w2, singleId);
      LaterOverwrites(w1, w2[..n], singleId);
      TasksSnoc(w1 + w2[..n], e, singleId);
      TasksSnoc(w2[..n], e, singleId);
      var a, b := Tasks(w1, singleId).value, Tasks(w2[..n], singleId).value;
      if e.files != [] {
        assert |Split(e.root)| >= 2;
        UnionAssoc(a, b, EntryTasks(e.root, e.files, singleId));
      }
    }
  }

  lemma UnionAssoc(a: map<string, string>, b: map<string, string>, c: map<string, string>)
    ensures (a + b) + c == a + (b + c)
  {
  }

  lemma TasksPrefixOk(walk: seq<WalkEntry>, singleId: Option<string>)
    requires walk != [] && Tasks(walk, singleId).Ok?
    ensures Tasks(walk[..|walk| - 1], singleId).Ok?
  {
  }

  /** `resource_show` answers `NotFound` (None) or a resource that is an
      upload. */
  predicate Uploadable(show: string -> Option<Resource>, k: string)
  {
    show(k).Some? && show(k).value.urlType == UploadType
  }

  /** The upload `_migrate` makes for task `k`: the resource's id, the last
      segment of its url as filename, and the task's local path. */
  function UploadFor(show: string -> Option<Resource>, tasks: map<string, string>, k: string, ok: bool): Call
    requires k in tasks && show(k).Some?
  {
    var res := show(k).value;
    Upload(res.id, LastSegment(res.url), tasks[k], ok)
  }

  predicate Distinct<T(==)>(s: seq<T>)
  {
    forall i, j :: 0 <= i < j < |s| ==> s[i] != s[j]
  }

  /** The tasks, in attempt order, whose upload raised. */
  function FailedOf(order: seq<string>, calls: seq<Call>): seq<string>
    requires |order| == |calls|
  {
    if order == [] then []
    else
      var n := |order| - 1;
      FailedOf(order[..n], calls[..n]) + (if calls[n].ok then [] else [order[n]])
  }

  /** The tasks, in attempt order, whose upload succeeded. */
  function SucceededOf(order: seq<string>, calls: seq<Call>): seq<string>
    requires |order| == |calls|
  {
    if order == [] then []
    else
      var n := |order| - 1;
      SucceededOf(order[..n], calls[..n]) + (if calls[n].ok then [order[n]] else [])
  }

  /** The outcome loop of `_migrate` over `tasks` ran: `order` lists the
      tasks that reached an upload (each uploadable task once, in the
      unspecified dict order), `calls` the uploads made for them, and
      `failed` the tasks whose upload raised. */
  ghost predicate Ran(tasks: map<string, string>, show: string -> Option<Resource>,
                      order: seq<string>, calls: seq<Call>, failed: seq<string>)
  {
    |calls| == |order| && Distinct(order) &&
    (forall k :: k in order <==> k in tasks && Uploadable(show, k)) &&
    (forall i :: 0 <= i < |order| ==>
       order[i] in tasks && show(order[i]).Some? && calls[i] == UploadFor(show, tasks, order[i], calls[i].ok)) &&
    failed == FailedOf(order, calls)
  }

  /** The second loop of `_migrate`: look every task up, skip `NotFound`
      and non-upload resources, upload the rest and collect the ids whose
      upload raised. The dict is visited in an unspecified order. */
  method RunTasks(tasks: map<string, string>, show: string -> Option<Resource>, store: Container)
    returns (failed: seq<string>, ghost order: seq<string>)
    modifies store
    ensures |store.Log| >= |old(store.Log)| && store.Log[..|old(store.Log)|] == old(store.Log)
    ensures Ran(tasks, show, order, store.Log[|old(store.Log)|..], failed)
    ensures store.objects == old(store.objects)
  {
    ghost var log0 := store.Log;
    ghost var calls: seq<Call> := [];
    var remaining := tasks.Keys;
    failed, order := [], [];
    while remaining != {}
      invariant remaining <= tasks.Keys
      invariant store.Log == log0 + calls && store.objects == old(store.objects)
      invariant |calls| == |order| && Distinct(order)
      invariant forall k :: k in order <==> k in tasks && k !in remaining && Uploadable(show, k)
      invariant forall i :: 0 <= i < |order| ==>
                  order[i] in tasks && show(order[i]).Some? && calls[i] == UploadFor(show, tasks, order[i], calls[i].ok)
      invariant failed == FailedOf(order, calls)
      decreases remaining
    {
      var resourceId :| resourceId in remaining;
      remaining := remaining - {resourceId};
      var filePath := tasks[resourceId];
      var resource := show(resourceId);
      if resource.None? {
        continue;
      }
      if resource.value.urlType != UploadType {
        continue;
      }
      var ok := store.UploadResource(resource.value.id, LastSegment(resource.value.url), filePath);
      FailedOfSnoc(order, calls, resourceId, UploadFor(show, tasks, resourceId, ok));
      calls := calls + [UploadFor(show, tasks, resourceId, ok)];
      order := order + [resourceId];
      if !ok {
        failed := failed + [resourceId];
      }
    }
    assert store.Log[|log0|..] == calls;
  }

  lemma FailedOfSnoc(order: seq<string>, calls: seq<Call>, k: string, c: Call)
    requires |order| == |calls|
    ensures FailedOf(order + [k], calls + [c]) == FailedOf(order, calls) + (if c.ok then [] else [k])
    ensures SucceededOf(order + [k], calls + [c]) == SucceededOf(order, calls) + (if c.ok then [k] else [])
  {
    assert (order + [k])[..|order|] == order;
    assert (calls + [c])[..|calls|] == calls;
  }

  lemma {:induction false} FailedSucceededSplit(order: seq<string>, calls: seq<Call>)
    requires |order| == |calls|
    ensures multiset(FailedOf(order, calls)) + multiset(SucceededOf(order, calls)) == multiset(order)
  {
    if order != [] {
      var n := |order| - 1;
      FailedSucceededSplit(order[..n], calls[..n]);
      assert order == order[..n] + [order[n]];
    }
  }

  lemma {:induction false} FailedWereAttempted(order: seq<string>, calls: seq<Call>, k: string)
    requires |order| == |calls|
    ensures k in FailedOf(order, calls) ==> exists i :: 0 <= i < |order| && order[i] == k && !calls[i].ok
  {
    if order != [] && k in FailedOf(order, calls) {
      var n := |order| - 1;
      if k in FailedOf(order[..n], calls[..n]) {
        FailedWereAttempted(order[..n], calls[..n], k);
        var i :| 0 <= i < n && order[..n][i] == k && !calls[..n][i].ok;
        assert order[i] == k && !calls[i].ok;
      } else {
        assert order[n] == k && !calls[n].ok;
      }
    }
  }

  /** Per-task failure isolation: a task lands in `failed` only after an
      upload was attempted for it and raised, so `NotFound` and non-upload
      tasks never do; `failed` holds task keys, each once; and the failed
      and the successful uploads together are exactly the uploadable tasks. */
  lemma FailuresIsolated(tasks: map<string, string>, show: string -> Option<Resource>,
                         order: seq<string>, calls: seq<Call>, failed: seq<string>)
    requires Ran(tasks, show, order, calls, failed)
    ensures forall k :: k in failed ==> k in tasks && Uploadable(show, k)
    ensures forall k :: k in tasks && !Uploadable(show, k) ==> k !in failed
    ensures Distinct(failed)
    ensures multiset(failed) + multiset(SucceededOf(order, calls)) == multiset(order)
    ensures forall k :: k in failed ==> exists i :: 0 <= i < |calls| && order[i] == k && calls[i].Upload? && !calls[i].ok
  {
    FailedSucceededSplit(order, calls);
    forall k | k in failed
      ensures k in tasks && Uploadable(show, k)
    {
      assert multiset(failed)[k] > 0;
      assert multiset(order)[k] > 0;
    }
    FailedDistinct(order, calls);
    forall k | k in failed
      ensures exists i :: 0 <= i < |calls| && order[i] == k && calls[i].Upload? && !calls[i].ok
    {
      FailedWereAttempted(order, calls, k);
      var i :| 0 <= i < |order| && order[i] == k && !calls[i].ok;
      assert calls[i] == UploadFor(show, tasks, order[i], calls[i].ok);
    }
  }

  lemma {:induction false} FailedDistinct(order: seq<string>, calls: seq<Call>)
    requires |order| == |calls| && Distinct(order)
    ensures Distinct(FailedOf(order, calls))
  {
    if order != [] {
      var n := |order| - 1;
      assert Distinct(order[..n]);
      FailedDistinct(order[..n], calls[..n]);
      FailedWereAttempted(order[..n], calls[..n], order[n]);
      var prev := FailedOf(order[..n], calls[..n]);
      if !calls[n].ok {
        if order[n] in prev {
          assert false;
        }
      }
    }
  }

  /** `log_file.file.writelines(failed)`: the ids with nothing between
      them, so the log holds exactly the characters of the ids. */
  function WriteLines(lines: seq<string>): (log: string)
    ensures |lines| == 0 ==> log == ""
    ensures forall c :: c in log <==> exists i :: 0 <= i < |lines| && c in lines[i]
  {
    if lines == [] then "" else WriteLines(lines[..|lines| - 1]) + lines[|lines| - 1]
  }

  /** The log of two batches of failures is the first batch's log followed
      by the second's: ids keep their order and nothing is inserted. */
  lemma {:induction false} WriteLinesAppend(a: seq<string>, b: seq<string>)
    ensures WriteLines(a + b) == WriteLines(a) + WriteLines(b)
  {
    if b == [] {
      assert a + b == a;
    } else {
      var n := |b| - 1;
      WriteLinesAppend(a, b[..n]);
      assert (a + b)[..|a + b| - 1] == a + b[..n];
    }
  }

  /** How a `_migrate` run ends. */
  datatype MigrationOutcome =
    | NoDirectory
    | WalkFailed(error: Error)
    | Done(tasks: map<string, string>, failed: seq<string>, failureLog: Option<string>)

  /** `_migrate(path, single_id)`: nothing happens unless the path is a
      directory; an `IndexError` of the walk aborts before any upload;
      otherwise every task is tried and a failure log is written exactly
      when some upload raised. */
  method Migrate(isDir: bool, walk: seq<WalkEntry>, singleId: Option<string>,
                 show: string -> Option<Resource>, store: Container)
    returns (run: MigrationOutcome, ghost order: seq<string>)
    modifies store
    ensures |store.Log| >= |old(store.Log)| && store.Log[..|old(store.Log)|] == old(store.Log)
    ensures store.objects == old(store.objects)
    ensures !isDir ==> run == NoDirectory && store.Log == old(store.Log)
    ensures isDir && Tasks(walk, singleId).Err? ==> run == WalkFailed(IndexError) && store.Log == old(store.Log)
    ensures isDir && Tasks(walk, singleId).Ok? ==>
              run.Done? && run.tasks == Tasks(walk, singleId).value &&
              Ran(run.tasks, show, order, store.Log[|old(store.Log)|..], run.failed) &&
              (run.failureLog.Some? <==> run.failed != []) &&
              (run.failureLog.Some? ==> run.failureLog.value == WriteLines(run.failed))
  {
    order := [];
    if !isDir {
      return NoDirectory, order;
    }
    var built := BuildTasks(walk, singleId);
    if built.Err? {
      return WalkFailed(built.error), order;
    }
    var resources := built.value;
    var failed;
    failed, order := RunTasks(resources, show, store);
    var failureLog := None;
    if failed != [] {
      failureLog := Some(WriteLines(failed));
    }
    run := Done(resources, failed, failureLog);
  }
}
