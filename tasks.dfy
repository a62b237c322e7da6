/** The Celery task `upload_resumes_to_gcs_task`: one offload cycle that uploads every
    file under the upload folder, verifies the object, deletes the local copy and prunes
    the directories that became empty, keeping counts of what happened. */
module CeleryTask {
  import opened Wrappers
  import opened Paths
  import opened Storage
  import opened Offload

  /** Seconds before Celery retries the task after the client could not be set up. */
  const RetryCountdown := 60

  datatype Counters = Counters(uploaded: nat, deleted: nat, failed: nat)

  datatype TaskResult =
    | Skipped(folder: Path)          // "Skipped: Folder ... not found."
    | NoFilesFound                   // "No files found."
    | Completed(counts: Counters)    // "Upload complete. Uploaded: .., Deleted: .., Failed/Kept: .."
    | Retry(countdown: nat)          // `raise self.retry(exc=e, countdown=60)`

  /** The object name: "resumes/" and the path relative to the upload folder, with the
      platform separator `sep` (`os.sep`) replaced by '/'. */
  function TaskObjectKey(root: Path, p: Path, sep: char): (k: string)
    requires StrictlyUnder(root, p)
    ensures ResumePrefix <= k
  {
    ResumePrefix + Replace(JoinWith(RelPath(root, p), sep), sep, '/')
  }

  /** The object name determines the relative path it was built from, on any platform. */
  lemma TaskKeyRoundTrip(root: Path, p: Path, sep: char)
    requires StrictlyUnder(root, p) && ValidComponents(RelPath(root, p), sep)
    ensures ParseObjectKey(TaskObjectKey(root, p, sep)) == Some(RelPath(root, p))
  {
    var rel := RelPath(root, p);
    ReplaceJoin(rel, sep, '/');
    SplitJoin(rel, '/');
    var k := TaskObjectKey(root, p, sep);
    assert k[|ResumePrefix|..] == JoinWith(rel, '/');
  }

  /** Two different files under the upload folder never share an object. */
  lemma TaskKeyInjective(root: Path, p: Path, q: Path, sep: char)
    requires StrictlyUnder(root, p) && ValidComponents(RelPath(root, p), sep)
    requires StrictlyUnder(root, q) && ValidComponents(RelPath(root, q), sep)
    requires TaskObjectKey(root, p, sep) == TaskObjectKey(root, q, sep)
    ensures p == q
  {
    TaskKeyRoundTrip(root, p, sep);
    TaskKeyRoundTrip(root, q, sep);
  }

  /** The counters after one more file: the file is counted once, as deleted or as
      failed/kept, and as uploaded exactly when its upload returned. */
  function Count(c: Counters, o: FileOutcome): (r: Counters)
    ensures r.deleted + r.failed == c.deleted + c.failed + 1
    ensures r.deleted == c.deleted + (if o == Deleted then 1 else 0)
    ensures r.uploaded == c.uploaded + (if o == Failed(false) then 0 else 1)
  {
    match o
    case Deleted => Counters(c.uploaded + 1, c.deleted + 1, c.failed)
    case Unverified => Counters(c.uploaded + 1, c.deleted, c.failed + 1)
    case Failed(uploaded) => Counters(if uploaded then c.uploaded + 1 else c.uploaded, c.deleted, c.failed + 1)
  }

  /** The counters after a batch: every file is either deleted or failed/kept, and a
      file is only deleted after its upload returned. */
  function Tally(os: seq<FileOutcome>): (c: Counters)
    ensures c.deleted <= c.uploaded <= |os|
    ensures c.deleted + c.failed == |os|
    ensures c.deleted == multiset(os)[Deleted]
    // "Uploaded" counts every file whose upload returned
    ensures c.uploaded == |os| - multiset(os)[Failed(false)]
  {
    if os == [] then Counters(0, 0, 0)
    else
      var init, last := os[..|os| - 1], os[|os| - 1];
      assert os == init + [last];
      Count(Tally(init), last)
  }

  /** The directories the prune loop removes, walking up from `d`: it removes `d` while `d`
      is a non-empty path, is not the upload folder itself, starts with it, and `os.listdir`
      shows it empty; anything else (a non-empty directory, or the OSError from a missing
      one) stops it. */
  function PrunedBelowRoot(e: map<Path, Node>, root: Path, d: Path): (r: map<Path, Node>)
    ensures r.Keys <= e.Keys
    ensures forall p <- r.Keys :: r[p] == e[p]
    ensures forall p | p in e && p !in r :: e[p].Dir? && StrictlyUnder(root, p) && IsPrefix(p, d)
    ensures WellFormed(e) ==> WellFormed(r)
    decreases |d|
  {
    if d != [] && d != root && IsPrefix(root, d) && IsEmptyDirIn(e, d) then
      RemoveLeafKeepsWellFormed(e, d);
      PrunedBelowRoot(e - {d}, root, Dirname(d))
    else e
  }

  /** The prune loop stops only where it must: no directory it may remove is left empty
      on the way up from `d`. */
  lemma {:induction false} PruneLeavesNoEmptyParent(e: map<Path, Node>, root: Path, d: Path)
    requires WellFormed(e) && (d == [] || d in e)
    ensures var r := PrunedBelowRoot(e, root, d);
            forall q | q in r && IsPrefix(q, d) && StrictlyUnder(root, q) :: !IsEmptyDirIn(r, q)
    decreases |d|
  {
    var r := PrunedBelowRoot(e, root, d);
    if d != [] && d != root && IsPrefix(root, d) && IsEmptyDirIn(e, d) {
      RemoveLeafKeepsWellFormed(e, d);
      PruneLeavesNoEmptyParent(e - {d}, root, Dirname(d));
      forall q | q in r && IsPrefix(q, d) && StrictlyUnder(root, q) ensures !IsEmptyDirIn(r, q) {
        assert q != d;
        assert IsPrefix(q, Dirname(d));
      }
    } else {
      forall q | q in r && IsPrefix(q, d) && StrictlyUnder(root, q) ensures !IsEmptyDirIn(r, q) {
        if q != d {
          ChildOnPath(e, q, d);
        }
      }
    }
  }

  /** A directory on the path to an existing entry has the next step of that path among
      its children. */
  lemma ChildOnPath(e: map<Path, Node>, q: Path, d: Path)
    requires WellFormed(e) && d in e && IsPrefix(q, d) && q != d && q != []
    ensures Children(e, q) != {}
  {
    var c := d[..|q| + 1];
    if c != d {
      AncestorExists(e, c, d);
    }
    assert Dirname(c) == q;
    assert c in Children(e, q);
  }

  /** The upload folder itself is never removed by the prune loop. */
  lemma PruneKeepsRoot(e: map<Path, Node>, root: Path, d: Path)
    requires root in e
    ensures root in PrunedBelowRoot(e, root, d)
  {
  }

  /** The `while parent_dir ...` loop of the task. */
  method PruneEmptyParents(disk: Disk, root: Path, start: Path)
    requires disk.Valid()
    modifies disk
    ensures disk.Valid()
    ensures disk.entries == PrunedBelowRoot(old(disk.entries), root, start)
  {
    var parent := start;
    while parent != [] && parent != root && IsPrefix(root, parent)
      invariant disk.Valid()
      invariant PrunedBelowRoot(disk.entries, root, parent) == PrunedBelowRoot(old(disk.entries), root, start)
      decreases |parent|
    {
      var names := disk.ListDir(parent);
      if names.None? || names.value != {} {
        break;
      }
      // `os.rmdir` cannot fail here: `os.listdir` has just seen the directory empty.
      var removed := disk.Rmdir(parent);
      parent := Dirname(parent);
    }
  }

  /** The body of the `for local_file in local_files` loop, inside its `try`. */
  method ProcessFile(disk: Disk, cloud: Cloud, root: Path, f: Path, sep: char, a: Attempt)
    returns (o: FileOutcome)
    requires disk.Valid() && StrictlyUnder(root, f)
    modifies disk, cloud
    ensures disk.Valid()
    ensures FileStep(old(disk.entries), old(cloud.objects), disk.entries, cloud.objects, root, f, sep, a, o)
    ensures cloud.calls == old(cloud.calls) + TaskRequests(old(disk.entries), f, TaskObjectKey(root, f, sep), a)
  {
    ghost var calls0 := cloud.calls;
    var key := TaskObjectKey(root, f, sep);
    var data := disk.Read(f);
    if data.None? {
      // `upload_from_filename` cannot open the file
      return Failed(false);
    }
    var returned := cloud.Upload(key, data.value, a.stored, a.uploadRaises);
    assert cloud.calls == calls0 + [UploadCall(key)];
    if !returned {
      return Failed(false);
    }
    var reloaded := cloud.Reload(key, a.reloadOk);
    assert cloud.calls == calls0 + [UploadCall(key), ReloadCall(key)];
    if !reloaded {
      return Failed(true);
    }
    var present := cloud.Exists(key);
    assert cloud.calls == calls0 + [UploadCall(key), ReloadCall(key), ExistsCall(key)];
    if present {
      // `os.remove` cannot fail here: the file has just been read.
      var removed := disk.Remove(f);
      PruneEmptyParents(disk, root, Dirname(f));
      o := Deleted;
    } else {
      o := Unverified;
    }
  }

  /** The upload and verification all go through for this file. */
  predicate FullySucceeds(a: Attempt) {
    a.stored && !a.uploadRaises && a.reloadOk
  }

  /** The failure an exception forces on a readable file before the existence check: the
      upload raising, or `reload()` raising after the upload returned. */
  function TaskInterruption(a: Attempt): (r: Option<FileOutcome>)
    ensures r.Some? <==> a.uploadRaises || !a.reloadOk
    ensures r.Some? ==> r.value == Failed(!a.uploadRaises)
  {
    if a.uploadRaises then Some(Failed(false))
    else if !a.reloadOk then Some(Failed(true))
    else None
  }

  function TaskInterruptions(attempts: nat -> Attempt): nat -> Option<FileOutcome> {
    (i: nat) => TaskInterruption(attempts(i))
  }

  /** The requests the loop body makes of the service for `f`: none when the file cannot
      be read, and the existence check only after the upload and `reload()` returned. */
  function TaskRequests(e: map<Path, Node>, f: Path, key: string, a: Attempt): (r: seq<Call>)
    ensures NewClient !in r
    // verify before delete: a deleted file's last request was the existence check
    ensures forall objs :: TaskOutcome(e, objs, f, key, a) == Deleted ==>
              r == [UploadCall(key), ReloadCall(key), ExistsCall(key)]
  {
    if !IsFileIn(e, f) then []
    else if a.uploadRaises then [UploadCall(key)]
    else if !a.reloadOk then [UploadCall(key), ReloadCall(key)]
    else [UploadCall(key), ReloadCall(key), ExistsCall(key)]
  }

  /** How the loop body ends for `f`, whose object name is `key`, on the disk `e` and the
      bucket `objs`: an upload that cannot read the file or raises, or a `reload()` that
      raises, is the exception path; otherwise the existence check decides. */
  function TaskOutcome(e: map<Path, Node>, objs: map<string, Bytes>, f: Path, key: string, a: Attempt): (r: FileOutcome)
    // `uploaded_count += 1` is reached exactly when the file could be read and the upload returned
    ensures r != Failed(false) <==> IsFileIn(e, f) && !a.uploadRaises
    // an exception decides the outcome exactly when `TaskInterruption` says so
    ensures IsFileIn(e, f) && TaskInterruption(a).Some? ==> r == TaskInterruption(a).value
    // verify before delete: the existence check saw the object
    ensures r == Deleted ==> a.reloadOk && (a.stored || key in objs)
    ensures IsFileIn(e, f) && TaskInterruption(a).None? && r != Deleted ==> r == Unverified && !a.stored && key !in objs
  {
    if !IsFileIn(e, f) || a.uploadRaises then Failed(false)
    else if !a.reloadOk then Failed(true)
    else if a.stored || key in objs then Deleted
    else Unverified
  }

  /** The disk and bucket after one file, as `ProcessFile` leaves them. */
  ghost predicate FileStep(e: map<Path, Node>, objs: map<string, Bytes>,
                           e': map<Path, Node>, objs': map<string, Bytes>,
                           root: Path, f: Path, sep: char, a: Attempt, o: FileOutcome): (r: bool)
    requires StrictlyUnder(root, f)
    // the disk only loses entries, the bucket only gains objects
    ensures r ==> e'.Keys <= e.Keys && objs.Keys <= objs'.Keys
    // the file is still there exactly when it was there and not deleted
    ensures r ==> (f in e' <==> f in e && o != Deleted)
    // the bucket gains at most the file's own object
    ensures r ==> objs'.Keys <= objs.Keys + {TaskObjectKey(root, f, sep)}
  {
    var key := TaskObjectKey(root, f, sep);
    && o == TaskOutcome(e, objs, f, key, a)
    && objs' == (if IsFileIn(e, f) && a.stored then objs[key := e[f].content] else objs)
    && e' == (if o == Deleted then PrunedBelowRoot(e - {f}, root, Dirname(f)) else e)
  }

  /** One file's step, as the batch invariant sees it. */
  lemma FileStepEffect(e: map<Path, Node>, objs: map<string, Bytes>,
                       e': map<Path, Node>, objs': map<string, Bytes>,
                       root: Path, f: Path, sep: char, a: Attempt, o: FileOutcome)
    requires WellFormed(e) && StrictlyUnder(root, f)
    requires FileStep(e, objs, e', objs', root, f, sep, a, o)
    ensures StepEffect(e, objs, e', objs', root, true, f, TaskObjectKey(root, f, sep), a.stored, TaskInterruption(a), o)
  {
    FileStepDisk(e, e', root, f, o == Deleted);
  }

  /** What one file's step does to the disk. */
  lemma FileStepDisk(e: map<Path, Node>, e': map<Path, Node>, root: Path, f: Path, deleted: bool)
    requires WellFormed(e) && (deleted ==> IsFileIn(e, f))
    requires e' == if deleted then PrunedBelowRoot(e - {f}, root, Dirname(f)) else e
    ensures e'.Keys <= e.Keys
    ensures forall p <- e'.Keys :: e'[p] == e[p]
    ensures forall p | p in e && p !in e' :: p == f || (e[p].Dir? && RemovableDir(root, true, p) && IsPrefix(p, f))
    ensures deleted ==> f !in e'
    ensures deleted ==>
              forall q | q in e' && IsPrefix(q, f) && q != f && RemovableDir(root, true, q) :: !IsEmptyDirIn(e', q)
  {
    if deleted {
      DeleteAndPrune(e, root, f);
      DeleteLeavesNoEmptyParent(e, root, f);
    }
  }

  /** Deleting the file `f` and running the prune loop from its directory removes `f` and
      directories on its path inside the folder, and no more. */
  lemma DeleteAndPrune(e: map<Path, Node>, root: Path, f: Path)
    requires WellFormed(e) && IsFileIn(e, f)
    ensures var e' := PrunedBelowRoot(e - {f}, root, Dirname(f));
            && f !in e'
            && forall p | p in e && p !in e' :: p == f || (e[p].Dir? && RemovableDir(root, true, p) && IsPrefix(p, f))
  {
    var e' := PrunedBelowRoot(e - {f}, root, Dirname(f));
    forall p | p in e && p !in e' && p != f
      ensures e[p].Dir? && RemovableDir(root, true, p) && IsPrefix(p, f)
    {
      assert p in e - {f};
    }
  }

  /** Deleting `f` and pruning leaves no removable directory empty on the path of `f`. */
  lemma DeleteLeavesNoEmptyParent(e: map<Path, Node>, root: Path, f: Path)
    requires WellFormed(e) && IsFileIn(e, f)
    ensures var e' := PrunedBelowRoot(e - {f}, root, Dirname(f));
            forall q | q in e' && IsPrefix(q, f) && q != f && RemovableDir(root, true, q) :: !IsEmptyDirIn(e', q)
  {
    RemoveLeafKeepsWellFormed(e, f);
    PruneLeavesNoEmptyParent(e - {f}, root, Dirname(f));
    var e' := PrunedBelowRoot(e - {f}, root, Dirname(f));
    forall q | q in e' && IsPrefix(q, f) && q != f && RemovableDir(root, true, q) ensures !IsEmptyDirIn(e', q) {
      assert IsPrefix(q, Dirname(f));
      assert StrictlyUnder(root, q);
    }
  }

  /** The object names of a batch, file by file. */
  function TaskObjectKeys(root: Path, files: seq<Path>, sep: char): (ks: seq<string>)
    requires forall p <- files :: StrictlyUnder(root, p)
    ensures |ks| == |files|
    ensures forall j | 0 <= j < |files| :: ks[j] == TaskObjectKey(root, files[j], sep)
  {
    seq(|files|, j requires 0 <= j < |files| => TaskObjectKey(root, files[j], sep))
  }

  /** One turn of the `for` loop: the next file, with the batch invariant carried across it. */
  method BatchTurn(disk: Disk, cloud: Cloud, root: Path, sep: char, files: seq<Path>, attempts: nat -> Attempt, i: nat,
                   ghost e0: map<Path, Node>, ghost objs0: map<string, Bytes>, ghost outcomes: seq<FileOutcome>)
    returns (o: FileOutcome)
    requires disk.Valid()
    requires forall p <- files :: StrictlyUnder(root, p)
    requires i == |outcomes| < |files|
    requires BatchInvariant(e0, objs0, disk.entries, cloud.objects, root, true, files, TaskObjectKeys(root, files, sep),
                            outcomes, Stored(attempts), TaskInterruptions(attempts))
    modifies disk, cloud
    ensures disk.Valid()
    ensures BatchInvariant(e0, objs0, disk.entries, cloud.objects, root, true, files, TaskObjectKeys(root, files, sep),
                           outcomes + [o], Stored(attempts), TaskInterruptions(attempts))
    ensures NoClientSince(old(cloud.calls), cloud.calls)
  {
    var f := files[i];
    ghost var e, objs := disk.entries, cloud.objects;
    o := ProcessFile(disk, cloud, root, f, sep, attempts(i));
    FileStepEffect(e, objs, disk.entries, cloud.objects, root, f, sep, attempts(i), o);
    BatchStep(e0, objs0, e, objs, disk.entries, cloud.objects,
              root, true, files, TaskObjectKeys(root, files, sep), outcomes, o, Stored(attempts), TaskInterruptions(attempts));
    assert cloud.calls[|old(cloud.calls)|..] == TaskRequests(e, f, TaskObjectKey(root, f, sep), attempts(i));
  }

  /** The `for local_file in local_files` loop, once the client exists. */
  method UploadBatch(disk: Disk, cloud: Cloud, root: Path, sep: char, files: seq<Path>, attempts: nat -> Attempt)
    returns (counters: Counters, ghost outcomes: seq<FileOutcome>)
    requires disk.Valid()
    requires forall p <- files :: StrictlyUnder(root, p) && disk.IsFile(p)
    modifies disk, cloud
    ensures disk.Valid()
    ensures BatchDone(old(disk.entries), old(cloud.objects), disk.entries, cloud.objects, root, sep, files, attempts, outcomes, counters)
    ensures NoClientSince(old(cloud.calls), cloud.calls)
  {
    ghost var keys := TaskObjectKeys(root, files, sep);
    counters, outcomes := Counters(0, 0, 0), [];
    BatchStart(disk.entries, cloud.objects, root, true, files, keys, Stored(attempts), TaskInterruptions(attempts));
    for i := 0 to |files|
      invariant disk.Valid()
      invariant |outcomes| == i && counters == Tally(outcomes)
      invariant BatchInvariant(old(disk.entries), old(cloud.objects), disk.entries, cloud.objects,
                               root, true, files, keys, outcomes, Stored(attempts), TaskInterruptions(attempts))
      invariant NoClientSince(old(cloud.calls), cloud.calls)
    {
      ghost var calls := cloud.calls;
      var o := BatchTurn(disk, cloud, root, sep, files, attempts, i, old(disk.entries), old(cloud.objects), outcomes);
      assert (outcomes + [o])[..i] == outcomes;
      assert Tally(outcomes + [o]) == Count(Tally(outcomes), o);
      NoNewClientAcross(old(cloud.calls), calls, cloud.calls);
      outcomes := outcomes + [o];
      counters := Count(counters, o);
    }
    BatchGuarantees(old(disk.entries), old(cloud.objects), disk.entries, cloud.objects, root, sep, files, outcomes, attempts);
  }

  /** What a finished batch of `files`, started from the disk `e0` and the bucket `objs0`,
      leaves: the counters tally the outcomes; the disk only lost offloaded files and
      directories below the folder; the bucket gained exactly the objects whose upload the
      service stored; every file is still local or in the bucket; each file ended as
      `Outcomes` says; and nothing emptied is left on a deleted file's path. */
  ghost predicate BatchDone(e0: map<Path, Node>, objs0: map<string, Bytes>, e: map<Path, Node>, objs: map<string, Bytes>,
                            root: Path, sep: char, files: seq<Path>, attempts: nat -> Attempt,
                            outcomes: seq<FileOutcome>, counters: Counters)
    requires forall p <- files :: StrictlyUnder(root, p)
  {
    && |outcomes| == |files| && counters == Tally(outcomes)
    && Frame(e0, e, root, true, Offloaded(files, outcomes))
    && objs.Keys == objs0.Keys + StoredKeys(TaskObjectKeys(root, files, sep), Stored(attempts), |files|)
    && (forall p <- files :: IsFileIn(e, p) || TaskObjectKey(root, p, sep) in objs)
    && Outcomes(objs0, root, sep, files, attempts, outcomes)
    && Tidied(e, root, files, outcomes)
  }

  /** How each file of a finished batch ended, against the bucket `objs0` it started from.
      An upload that raises ends in `Failed(false)`. The first time the batch meets a file
      whose upload returned, a `reload()` that raises ends it in `Failed(true)`, and
      otherwise the existence check decides between `Deleted` and `Unverified`; an upload
      that stored the object always ends in `Deleted`. A file is deleted only when its
      upload and `reload()` returned and its object was in the bucket before or stored by
      this or an earlier upload. */
  ghost predicate Outcomes(objs0: map<string, Bytes>, root: Path, sep: char, files: seq<Path>,
                           attempts: nat -> Attempt, outcomes: seq<FileOutcome>)
    requires forall p <- files :: StrictlyUnder(root, p)
    requires |outcomes| == |files|
  {
    && (forall j | 0 <= j < |files| && attempts(j).uploadRaises :: outcomes[j] == Failed(false))
    && (forall j | 0 <= j < |files| && files[j] !in files[..j] && !attempts(j).uploadRaises && !attempts(j).reloadOk ::
          outcomes[j] == Failed(true))
    && (forall j | 0 <= j < |files| && files[j] !in files[..j] && !attempts(j).uploadRaises && attempts(j).reloadOk ::
          outcomes[j] == if TaskObjectKey(root, files[j], sep) in objs0.Keys + StoredKeys(TaskObjectKeys(root, files, sep), Stored(attempts), j + 1)
                         then Deleted else Unverified)
    && (forall j | 0 <= j < |files| && files[j] !in files[..j] && FullySucceeds(attempts(j)) :: outcomes[j] == Deleted)
    && (forall j | 0 <= j < |files| && outcomes[j] == Deleted ::
          && !attempts(j).uploadRaises && attempts(j).reloadOk
          && TaskObjectKey(root, files[j], sep) in objs0.Keys + StoredKeys(TaskObjectKeys(root, files, sep), Stored(attempts), j + 1))
  }

  /** A batch of one file: how the service treats the file fixes its outcome, the counters,
      whether the file stays local and what the bucket gains. */
  lemma SingleFileBatch(e0: map<Path, Node>, objs0: map<string, Bytes>, e: map<Path, Node>, objs: map<string, Bytes>,
                        root: Path, sep: char, f: Path, attempts: nat -> Attempt,
                        outcomes: seq<FileOutcome>, counters: Counters)
    requires IsFileIn(e0, f) && StrictlyUnder(root, f)
    requires BatchDone(e0, objs0, e, objs, root, sep, [f], attempts, outcomes, counters)
    ensures var a, key := attempts(0), TaskObjectKey(root, f, sep);
            var o := if a.uploadRaises then Failed(false)
                     else if !a.reloadOk then Failed(true)
                     else if a.stored || key in objs0 then Deleted
                     else Unverified;
            && outcomes == [o]
            && counters == Count(Counters(0, 0, 0), o)
            && (IsFileIn(e, f) <==> o != Deleted)
            && objs.Keys == objs0.Keys + (if a.stored then {key} else {})
  {
    assert [f][..0] == [];
    var keys := TaskObjectKeys(root, [f], sep);
    assert StoredKeys(keys, Stored(attempts), 1) == if attempts(0).stored then {keys[0]} else {};
    assert outcomes == [outcomes[0]];
    assert Tally(outcomes) == Count(Tally([]), outcomes[0]);
    if outcomes[0] != Deleted {
      assert f !in Offloaded([f], outcomes);
    }
  }

  /** Every deleted file is gone, and no directory strictly inside the folder on its path is
      left empty. */
  ghost predicate Tidied(e: map<Path, Node>, root: Path, files: seq<Path>, outcomes: seq<FileOutcome>)
    requires |outcomes| == |files|
  {
    forall j | 0 <= j < |files| && outcomes[j] == Deleted ::
      && files[j] !in e
      && forall q | q in e && IsPrefix(q, files[j]) && q != files[j] && StrictlyUnder(root, q) :: !IsEmptyDirIn(e, q)
  }

  /** What a finished batch guarantees, read off the batch invariant. */
  lemma BatchGuarantees(e0: map<Path, Node>, objs0: map<string, Bytes>,
                        e: map<Path, Node>, objs: map<string, Bytes>,
                        root: Path, sep: char, files: seq<Path>,
                        outcomes: seq<FileOutcome>, attempts: nat -> Attempt)
    requires forall p <- files :: StrictlyUnder(root, p)
    requires BatchInvariant(e0, objs0, e, objs, root, true, files, TaskObjectKeys(root, files, sep), outcomes,
                            Stored(attempts), TaskInterruptions(attempts))
    requires |outcomes| == |files|
    ensures forall p <- files :: IsFileIn(e, p) || TaskObjectKey(root, p, sep) in objs
    ensures Outcomes(objs0, root, sep, files, attempts, outcomes)
    ensures Tidied(e, root, files, outcomes)
  {
    forall p <- files
      ensures IsFileIn(e, p) || TaskObjectKey(root, p, sep) in objs
    {
      var j :| 0 <= j < |files| && files[j] == p;
    }
    BatchOutcomes(e, objs0, objs, root, sep, files, outcomes, attempts);
    BatchTidied(e, objs0, objs, root, sep, files, outcomes, attempts);
  }

  lemma BatchOutcomes(e: map<Path, Node>, objs0: map<string, Bytes>, objs: map<string, Bytes>,
                      root: Path, sep: char, files: seq<Path>, outcomes: seq<FileOutcome>, attempts: nat -> Attempt)
    requires forall p <- files :: StrictlyUnder(root, p)
    requires |outcomes| == |files|
    requires Settled(e, objs0, objs, files, TaskObjectKeys(root, files, sep), outcomes, Stored(attempts), TaskInterruptions(attempts))
    ensures Outcomes(objs0, root, sep, files, attempts, outcomes)
  {
    var keys := TaskObjectKeys(root, files, sep);
    forall j | 0 <= j < |files| && files[j] !in files[..j] && !attempts(j).uploadRaises && !attempts(j).reloadOk
      ensures outcomes[j] == Failed(true)
    {
      assert TaskInterruptions(attempts)(j) == Some(Failed(true));
    }
    forall j | 0 <= j < |files| && files[j] !in files[..j] && !attempts(j).uploadRaises && attempts(j).reloadOk
      ensures outcomes[j] == if TaskObjectKey(root, files[j], sep) in objs0.Keys + StoredKeys(keys, Stored(attempts), j + 1)
                             then Deleted else Unverified
    {
      assert TaskInterruptions(attempts)(j) == None;
    }
    forall j | 0 <= j < |files| && files[j] !in files[..j] && FullySucceeds(attempts(j))
      ensures outcomes[j] == Deleted
    {
      assert TaskInterruptions(attempts)(j) == None && Stored(attempts)(j);
      assert keys[j] in StoredKeys(keys, Stored(attempts), j + 1);
    }
    forall j | 0 <= j < |files| && attempts(j).uploadRaises
      ensures outcomes[j] == Failed(false)
    {
      assert TaskInterruptions(attempts)(j) == Some(Failed(false));
    }
    forall j | 0 <= j < |files| && outcomes[j] == Deleted
      ensures !attempts(j).uploadRaises && attempts(j).reloadOk
    {
      assert TaskInterruptions(attempts)(j) == None;
    }
  }

  lemma BatchTidied(e: map<Path, Node>, objs0: map<string, Bytes>, objs: map<string, Bytes>,
                    root: Path, sep: char, files: seq<Path>, outcomes: seq<FileOutcome>, attempts: nat -> Attempt)
    requires forall p <- files :: StrictlyUnder(root, p)
    requires |outcomes| == |files|
    requires DeletedStored(e, objs0, objs, files, TaskObjectKeys(root, files, sep), outcomes, Stored(attempts), TaskInterruptions(attempts))
    requires Tidy(e, root, true, files, outcomes)
    ensures Tidied(e, root, files, outcomes)
  {
  }

  /** `upload_resumes_to_gcs_task(upload_folder, gcs_bucket_name)`. `cloud` is the bucket
      named by `gcs_bucket_name`; `globbed` is what the recursive glob returned, `clientOk`
      whether the client and bucket could be created, `attempts(i)` how the service treats
      the i-th file. */
  method UploadResumesTask(disk: Disk, cloud: Cloud, uploadFolder: Path, sep: char,
                           globbed: seq<Path>, clientOk: bool, attempts: nat -> Attempt)
    returns (r: TaskResult, ghost files: seq<Path>, ghost outcomes: seq<FileOutcome>)
    requires disk.Valid()
    requires forall p <- globbed :: StrictlyUnder(uploadFolder, p)
    modifies disk, cloud
    ensures disk.Valid()
    ensures files == LocalFiles(old(disk.entries), globbed)
    ensures !old(disk.Exists(uploadFolder)) ==> r == Skipped(uploadFolder)
    ensures old(disk.Exists(uploadFolder)) && files == [] ==> r == NoFilesFound
    ensures old(disk.Exists(uploadFolder)) && files != [] && !clientOk ==> r == Retry(RetryCountdown)
    ensures old(disk.Exists(uploadFolder)) && files != [] && clientOk ==> r.Completed?
    // nothing is touched unless the batch ran; no client is created unless there are files
    ensures !r.Completed? ==> disk.entries == old(disk.entries) && cloud.objects == old(cloud.objects)
    ensures r.Skipped? || r.NoFilesFound? ==> cloud.calls == old(cloud.calls)
    ensures r.Retry? ==> cloud.calls == old(cloud.calls) + [NewClient]
    // one client for the whole batch
    ensures r.Completed? ==> OneClientCreated(old(cloud.calls), cloud.calls)
    // the summary counts, the disk, the bucket and each file's outcome after the batch
    ensures r.Completed? ==> BatchDone(old(disk.entries), old(cloud.objects), disk.entries, cloud.objects,
                                       uploadFolder, sep, files, attempts, outcomes, r.counts)
    // the disk only loses offloaded files and directories below the folder, never the folder
    ensures Frame(old(disk.entries), disk.entries, uploadFolder, true, Offloaded(files, outcomes))
    ensures old(disk.Exists(uploadFolder)) ==> disk.Exists(uploadFolder)
  {
    files := LocalFiles(disk.entries, globbed);
    outcomes := [];
    if !disk.Exists(uploadFolder) {
      return Skipped(uploadFolder), files, outcomes;
    }
    var localFiles := LocalFiles(disk.entries, globbed);
    if localFiles == [] {
      return NoFilesFound, files, outcomes;
    }
    r, outcomes := ConnectAndUpload(disk, cloud, uploadFolder, sep, localFiles, clientOk, attempts);
  }

  /** The task's `try` block once files were found: create the client, retrying the task in
      60 seconds when that raises, and run the batch with it. */
  method ConnectAndUpload(disk: Disk, cloud: Cloud, uploadFolder: Path, sep: char,
                          files: seq<Path>, clientOk: bool, attempts: nat -> Attempt)
    returns (r: TaskResult, ghost outcomes: seq<FileOutcome>)
    requires disk.Valid()
    requires forall p <- files :: StrictlyUnder(uploadFolder, p) && disk.IsFile(p)
    modifies disk, cloud
    ensures disk.Valid()
    ensures r == Retry(RetryCountdown) || r.Completed?
    ensures r.Completed? <==> clientOk
    ensures r.Retry? ==> disk.entries == old(disk.entries) && cloud.objects == old(cloud.objects) && outcomes == []
    ensures r.Retry? ==> cloud.calls == old(cloud.calls) + [NewClient]
    ensures r.Completed? ==> OneClientCreated(old(cloud.calls), cloud.calls)
    ensures r.Completed? ==> BatchDone(old(disk.entries), old(cloud.objects), disk.entries, cloud.objects,
                                       uploadFolder, sep, files, attempts, outcomes, r.counts)
  {
    outcomes := [];
    var connected := cloud.Connect(clientOk);
    if !connected {
      return Retry(RetryCountdown), outcomes;
    }
    ghost var connectedCalls := cloud.calls;
    var counters;
    counters, outcomes := UploadBatch(disk, cloud, uploadFolder, sep, files, attempts);
    r := Completed(counters);
    assert connectedCalls == old(cloud.calls) + [NewClient];
  }
}
