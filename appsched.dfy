/** The APScheduler copy of the offload cycle, `upload_resumes_to_gcs` nested in
    `init_scheduler`: the same scan, upload, verify, delete and prune steps as the Celery
    task, but without the folder check, the separator normalisation, `reload()` or the
    counters. Its prune loop lacks the guard that keeps the upload folder itself: the job
    runs that loop as written, `PruneEmptyParents`, which removes the upload folder once
    its last file is offloaded; `PruneEmptyParentsKeepingRoot` is the loop with the guard
    restored. */
module Scheduler {
  import opened Wrappers
  import opened Paths
  import opened Storage
  import opened Offload
  import CeleryTask

  /** The object name: "resumes/" and `os.path.relpath` as it comes, joined with the
      platform separator `sep`. */
  function SchedObjectKey(root: Path, p: Path, sep: char): (k: string)
    requires StrictlyUnder(root, p)
    ensures ResumePrefix <= k
  {
    ResumePrefix + JoinWith(RelPath(root, p), sep)
  }

  /** Where '/' is the separator, the object name gives back the relative path. */
  lemma SchedKeyRoundTrip(root: Path, p: Path)
    requires StrictlyUnder(root, p) && ValidComponents(RelPath(root, p), '/')
    ensures ParseObjectKey(SchedObjectKey(root, p, '/')) == Some(RelPath(root, p))
  {
    SplitJoin(RelPath(root, p), '/');
  }

  /** The two copies of the cycle name a file's object alike exactly when the separator is
      '/' or the file sits directly in the upload folder; a nested file on a platform with
      another separator gets two different objects. */
  lemma SchedKeyMatchesTaskKey(root: Path, p: Path, sep: char)
    requires StrictlyUnder(root, p) && ValidComponents(RelPath(root, p), sep)
    ensures SchedObjectKey(root, p, sep) == CeleryTask.TaskObjectKey(root, p, sep)
            <==> sep == '/' || |RelPath(root, p)| == 1
  {
    var rel := RelPath(root, p);
    var joined := JoinWith(rel, sep);
    JoinHasSeparator(rel, sep);
    if sep in joined && sep != '/' {
      var i :| 0 <= i < |joined| && joined[i] == sep;
      assert Replace(joined, sep, '/')[i] == '/';
      assert (ResumePrefix + Replace(joined, sep, '/'))[|ResumePrefix| + i] == '/';
      assert (ResumePrefix + joined)[|ResumePrefix| + i] == sep;
    } else if sep !in joined {
      ReplaceIdentity(joined, sep, '/');
    }
  }

  /** The directories the scheduler's prune loop removes, walking up from `d`: `os.rmdir(d)`
      while `d` is a non-empty path that starts with the upload folder, until `rmdir` raises
      (not an empty directory). The upload folder passes the guard too. */
  function PrunedUpToRoot(e: map<Path, Node>, root: Path, d: Path): (r: map<Path, Node>)
    ensures r.Keys <= e.Keys
    ensures forall p <- r.Keys :: r[p] == e[p]
    ensures forall p | p in e && p !in r :: e[p].Dir? && p != [] && IsPrefix(root, p) && IsPrefix(p, d)
    ensures WellFormed(e) ==> WellFormed(r)
    decreases |d|
  {
    if d != [] && IsPrefix(root, d) && IsEmptyDirIn(e, d) then
      RemoveLeafKeepsWellFormed(e, d);
      PrunedUpToRoot(e - {d}, root, Dirname(d))
    else e
  }

  /** The scheduler's loop removes what the task's loop removes, and at most the upload
      folder besides, only once that folder is left empty. */
  lemma {:induction false} PrunedUpToRootVersusBelowRoot(e: map<Path, Node>, root: Path, d: Path)
    ensures var r := CeleryTask.PrunedBelowRoot(e, root, d);
            var s := PrunedUpToRoot(e, root, d);
            s == r || (s == r - {root} && IsEmptyDirIn(r, root))
    decreases |d|
  {
    if d != [] && IsPrefix(root, d) && IsEmptyDirIn(e, d) {
      if d == root {
        assert !IsPrefix(root, Dirname(d));
      } else {
        PrunedUpToRootVersusBelowRoot(e - {d}, root, Dirname(d));
      }
    }
  }

  /** The loop stops only where it must: no non-empty path inside the upload folder, the
      folder included, is left an empty directory on the way up from `d`. */
  lemma {:induction false} PruneUpToRootLeavesNoEmptyParent(e: map<Path, Node>, root: Path, d: Path)
    requires WellFormed(e) && (d == [] || d in e)
    ensures var r := PrunedUpToRoot(e, root, d);
            forall q | q in r && IsPrefix(q, d) && q != [] && IsPrefix(root, q) :: !IsEmptyDirIn(r, q)
    decreases |d|
  {
    var r := PrunedUpToRoot(e, root, d);
    if d != [] && IsPrefix(root, d) && IsEmptyDirIn(e, d) {
      RemoveLeafKeepsWellFormed(e, d);
      PruneUpToRootLeavesNoEmptyParent(e - {d}, root, Dirname(d));
      forall q | q in r && IsPrefix(q, d) && q != [] && IsPrefix(root, q) ensures !IsEmptyDirIn(r, q) {
        assert q != d;
        assert IsPrefix(q, Dirname(d));
      }
    } else {
      forall q | q in r && IsPrefix(q, d) && q != [] && IsPrefix(root, q) ensures !IsEmptyDirIn(r, q) {
        if q != d {
          CeleryTask.ChildOnPath(e, q, d);
        }
      }
    }
  }

  /** The smallest case: after `uploads/7/cv.pdf` is deleted, the loop removes `uploads/7`
      and then `uploads` itself, where the task's loop stops at `uploads`. */
  lemma UploadFolderRemovedExample()
    ensures var e := map[["uploads"] := Dir, ["uploads", "7"] := Dir];
            && PrunedUpToRoot(e, ["uploads"], ["uploads", "7"]) == map[]
            && CeleryTask.PrunedBelowRoot(e, ["uploads"], ["uploads", "7"]) == map[["uploads"] := Dir]
  {
    var e := map[["uploads"] := Dir, ["uploads", "7"] := Dir];
    var e1 := e - {["uploads", "7"]};
    assert Children(e, ["uploads", "7"]) == {} by {
      forall p | p in e && p != [] ensures Dirname(p) != ["uploads", "7"] {
        assert p == ["uploads"] || p == ["uploads", "7"];
      }
    }
    assert e1 == map[["uploads"] := Dir];
    assert Children(e1, ["uploads"]) == {} by {
      forall p | p in e1 && p != [] ensures Dirname(p) != ["uploads"] {
        assert p == ["uploads"];
      }
    }
    assert Dirname(["uploads", "7"]) == ["uploads"];
    assert Dirname(["uploads"]) == [];
    assert e1 - {["uploads"]} == map[];
  }

  /** The `while parent_dir and parent_dir.startswith(local_resume_folder)` loop, as written. */
  method PruneEmptyParents(disk: Disk, root: Path, start: Path)
    requires disk.Valid()
    modifies disk
    ensures disk.Valid()
    ensures disk.entries == PrunedUpToRoot(old(disk.entries), root, start)
  {
    var parent := start;
    while parent != [] && IsPrefix(root, parent)
      invariant disk.Valid()
      invariant PrunedUpToRoot(disk.entries, root, parent) == PrunedUpToRoot(old(disk.entries), root, start)
      decreases |parent|
    {
      var removed := disk.Rmdir(parent);
      if !removed {
        break;
      }
      parent := Dirname(parent);
    }
  }

  /** The same loop with the guard the task has (`parent_dir != local_resume_folder`): it
      removes exactly what the task's loop removes, so the upload folder stays. */
  method PruneEmptyParentsKeepingRoot(disk: Disk, root: Path, start: Path)
    requires disk.Valid()
    modifies disk
    ensures disk.Valid()
    ensures disk.entries == CeleryTask.PrunedBelowRoot(old(disk.entries), root, start)
    ensures old(disk.Exists(root)) ==> disk.Exists(root)
  {
    var parent := start;
    while parent != [] && parent != root && IsPrefix(root, parent)
      invariant disk.Valid()
      invariant CeleryTask.PrunedBelowRoot(disk.entries, root, parent)
                == CeleryTask.PrunedBelowRoot(old(disk.entries), root, start)
      decreases |parent|
    {
      var removed := disk.Rmdir(parent);
      if !removed {
        break;
      }
      parent := Dirname(parent);
    }
  }

  /** The body of `for local_file in local_files`, inside its `try`. The scheduler makes no
      `reload()` call, so `a.reloadOk` plays no part. */
  method ProcessFile(disk: Disk, cloud: Cloud, root: Path, f: Path, sep: char, a: Attempt)
    returns (o: FileOutcome)
    requires disk.Valid() && StrictlyUnder(root, f)
    modifies disk, cloud
    ensures disk.Valid()
    ensures FileStep(old(disk.entries), old(cloud.objects), disk.entries, cloud.objects, root, f, sep, a, o)
    ensures cloud.calls == old(cloud.calls) + SchedRequests(old(disk.entries), f, SchedObjectKey(root, f, sep), a)
  {
    ghost var calls0 := cloud.calls;
    var key := SchedObjectKey(root, f, sep);
    var data := disk.Read(f);
    if data.None? {
      // `upload_from_filename` cannot open the file
      return Failed(false);
    }
    var returned := cloud.Upload(key, data.value, a.stored, a.uploadRaises);
    assert cloud.calls == calls0 + [UploadCall(key)];
    if !returned {
      return Failed(false);
    }
    var present := cloud.Exists(key);
    assert cloud.calls == calls0 + [UploadCall(key), ExistsCall(key)];
    if present {
      // `os.remove` cannot fail here: the file has just been read.
      var removed := disk.Remove(f);
      PruneEmptyParents(disk, root, Dirname(f));
      o := Deleted;
    } else {
      o := Unverified;
    }
  }

  /** The failure an exception forces on a readable file before the existence check: only
      the upload raising, since the scheduler makes no `reload()` call. */
  function SchedInterruption(a: Attempt): (r: Option<FileOutcome>)
    ensures r.Some? <==> a.uploadRaises
    ensures r.Some? ==> r.value == Failed(false)
  {
    if a.uploadRaises then Some(Failed(false)) else None
  }

  function SchedInterruptions(attempts: nat -> Attempt): nat -> Option<FileOutcome> {
    (i: nat) => SchedInterruption(attempts(i))
  }

  /** The requests the loop body makes of the service for `f`: none when the file cannot
      be read, and the existence check only after the upload returned. */
  function SchedRequests(e: map<Path, Node>, f: Path, key: string, a: Attempt): (r: seq<Call>)
    ensures NewClient !in r
    // verify before delete: a deleted file's last request was the existence check
    ensures forall objs :: SchedOutcome(e, objs, f, key, a) == Deleted ==> r == [UploadCall(key), ExistsCall(key)]
  {
    if !IsFileIn(e, f) then []
    else if a.uploadRaises then [UploadCall(key)]
    else [UploadCall(key), ExistsCall(key)]
  }

  /** How the loop body ends for `f`, whose object name is `key`, on the disk `e` and the
      bucket `objs`: an upload that cannot read the file or raises is the exception path;
      otherwise the existence check decides. */
  function SchedOutcome(e: map<Path, Node>, objs: map<string, Bytes>, f: Path, key: string, a: Attempt): (r: FileOutcome)
    // the except branch is taken exactly when the file cannot be read or the upload raises
    ensures r.Failed? <==> !IsFileIn(e, f) || a.uploadRaises
    ensures r.Failed? ==> r == Failed(false)
    // verify before delete: the existence check saw the object
    ensures r == Deleted ==> a.stored || key in objs
    ensures r == Unverified ==> !a.stored && key !in objs
  {
    if !IsFileIn(e, f) || a.uploadRaises then Failed(false)
    else if a.stored || key in objs then Deleted
    else Unverified
  }

  /** The disk and bucket after one file, as `ProcessFile` leaves them. */
  ghost predicate FileStep(e: map<Path, Node>, objs: map<string, Bytes>,
                           e': map<Path, Node>, objs': map<string, Bytes>,
                           root: Path, f: Path, sep: char, a: Attempt, o: FileOutcome): (r: bool)
    requires StrictlyUnder(root, f)
    // the disk only loses entries, the bucket only gains objects
    ensures r ==> e'.Keys <= e.Keys && objs.Keys <= objs'.Keys
    // the file is still there exactly when it was there and not deleted
    ensures r ==> (f in e' <==> f in e && o != Deleted)
    // the bucket gains at most the file's own object
    ensures r ==> objs'.Keys <= objs.Keys + {SchedObjectKey(root, f, sep)}
  {
    var key := SchedObjectKey(root, f, sep);
    && o == SchedOutcome(e, objs, f, key, a)
    && objs' == (if IsFileIn(e, f) && a.stored then objs[key := e[f].content] else objs)
    && e' == (if o == Deleted then PrunedUpToRoot(e - {f}, root, Dirname(f)) else e)
  }

  /** One file's step, as the batch invariant sees it. */
  lemma FileStepEffect(e: map<Path, Node>, objs: map<string, Bytes>,
                       e': map<Path, Node>, objs': map<string, Bytes>,
                       root: Path, f: Path, sep: char, a: Attempt, o: FileOutcome)
    requires WellFormed(e) && StrictlyUnder(root, f)
    requires FileStep(e, objs, e', objs', root, f, sep, a, o)
    ensures StepEffect(e, objs, e', objs', root, false, f, SchedObjectKey(root, f, sep), a.stored, SchedInterruption(a), o)
  {
    FileStepDisk(e, e', root, f, o == Deleted);
  }

  /** What one file's step does to the disk. */
  lemma FileStepDisk(e: map<Path, Node>, e': map<Path, Node>, root: Path, f: Path, deleted: bool)
    requires WellFormed(e) && (deleted ==> IsFileIn(e, f))
    requires e' == if deleted then PrunedUpToRoot(e - {f}, root, Dirname(f)) else e
    ensures e'.Keys <= e.Keys
    ensures forall p <- e'.Keys :: e'[p] == e[p]
    ensures forall p | p in e && p !in e' :: p == f || (e[p].Dir? && RemovableDir(root, false, p) && IsPrefix(p, f))
    ensures deleted ==> f !in e'
    ensures deleted ==>
              forall q | q in e' && IsPrefix(q, f) && q != f && RemovableDir(root, false, q) :: !IsEmptyDirIn(e', q)
  {
    if deleted {
      DeleteAndPrune(e, root, f);
      DeleteLeavesNoEmptyParent(e, root, f);
    }
  }

  /** Deleting the file `f` and running the prune loop from its directory removes `f` and
      directories on its path inside the folder, the folder included, and no more. */
  lemma DeleteAndPrune(e: map<Path, Node>, root: Path, f: Path)
    requires WellFormed(e) && IsFileIn(e, f)
    ensures var e' := PrunedUpToRoot(e - {f}, root, Dirname(f));
            && f !in e'
            && forall p | p in e && p !in e' :: p == f || (e[p].Dir? && RemovableDir(root, false, p) && IsPrefix(p, f))
  {
    var e' := PrunedUpToRoot(e - {f}, root, Dirname(f));
    forall p | p in e && p !in e' && p != f
      ensures e[p].Dir? && RemovableDir(root, false, p) && IsPrefix(p, f)
    {
      assert p in e - {f};
    }
  }

  /** Deleting `f` and pruning leaves no removable directory empty on the path of `f`. */
  lemma DeleteLeavesNoEmptyParent(e: map<Path, Node>, root: Path, f: Path)
    requires WellFormed(e) && IsFileIn(e, f)
    ensures var e' := PrunedUpToRoot(e - {f}, root, Dirname(f));
            forall q | q in e' && IsPrefix(q, f) && q != f && RemovableDir(root, false, q) :: !IsEmptyDirIn(e', q)
  {
    RemoveLeafKeepsWellFormed(e, f);
    PruneUpToRootLeavesNoEmptyParent(e - {f}, root, Dirname(f));
    var e' := PrunedUpToRoot(e - {f}, root, Dirname(f));
    forall q | q in e' && IsPrefix(q, f) && q != f && RemovableDir(root, false, q) ensures !IsEmptyDirIn(e', q) {
      assert IsPrefix(q, Dirname(f));
    }
  }

  /** The object names of a batch, file by file. */
  function SchedObjectKeys(root: Path, files: seq<Path>, sep: char): (ks: seq<string>)
    requires forall p <- files :: StrictlyUnder(root, p)
    ensures |ks| == |files|
    ensures forall j | 0 <= j < |files| :: ks[j] == SchedObjectKey(root, files[j], sep)
  {
    seq(|files|, j requires 0 <= j < |files| => SchedObjectKey(root, files[j], sep))
  }

  /** One turn of the `for` loop: the next file, with the batch invariant carried across it. */
  method BatchTurn(disk: Disk, cloud: Cloud, root: Path, sep: char, files: seq<Path>, attempts: nat -> Attempt, i: nat,
                   ghost e0: map<Path, Node>, ghost objs0: map<string, Bytes>, ghost outcomes: seq<FileOutcome>)
    returns (o: FileOutcome)
    requires disk.Valid()
    requires forall p <- files :: StrictlyUnder(root, p)
    requires i == |outcomes| < |files|
    requires BatchInvariant(e0, objs0, disk.entries, cloud.objects, root, false, files, SchedObjectKeys(root, files, sep),
                            outcomes, Stored(attempts), SchedInterruptions(attempts))
    modifies disk, cloud
    ensures disk.Valid()
    ensures BatchInvariant(e0, objs0, disk.entries, cloud.objects, root, false, files, SchedObjectKeys(root, files, sep),
                           outcomes + [o], Stored(attempts), SchedInterruptions(attempts))
    ensures NoClientSince(old(cloud.calls), cloud.calls)
  {
    var f := files[i];
    ghost var e, objs := disk.entries, cloud.objects;
    o := ProcessFile(disk, cloud, root, f, sep, attempts(i));
    FileStepEffect(e, objs, disk.entries, cloud.objects, root, f, sep, attempts(i), o);
    BatchStep(e0, objs0, e, objs, disk.entries, cloud.objects,
              root, false, files, SchedObjectKeys(root, files, sep), outcomes, o, Stored(attempts), SchedInterruptions(attempts));
    assert cloud.calls[|old(cloud.calls)|..] == SchedRequests(e, f, SchedObjectKey(root, f, sep), attempts(i));
  }

  /** The `for local_file in local_files` loop, once the client exists. */
  method UploadBatch(disk: Disk, cloud: Cloud, root: Path, sep: char, files: seq<Path>, attempts: nat -> Attempt)
    returns (ghost outcomes: seq<FileOutcome>)
    requires disk.Valid()
    requires forall p <- files :: StrictlyUnder(root, p) && disk.IsFile(p)
    modifies disk, cloud
    ensures disk.Valid()
    ensures BatchDone(old(disk.entries), old(cloud.objects), disk.entries, cloud.objects, root, sep, files, attempts, outcomes)
    ensures NoClientSince(old(cloud.calls), cloud.calls)
  {
    ghost var keys := SchedObjectKeys(root, files, sep);
    outcomes := [];
    BatchStart(disk.entries, cloud.objects, root, false, files, keys, Stored(attempts), SchedInterruptions(attempts));
    for i := 0 to |files|
      invariant disk.Valid()
      invariant |outcomes| == i
      invariant BatchInvariant(old(disk.entries), old(cloud.objects), disk.entries, cloud.objects,
                               root, false, files, keys, outcomes, Stored(attempts), SchedInterruptions(attempts))
      invariant NoClientSince(old(cloud.calls), cloud.calls)
    {
      ghost var calls := cloud.calls;
      var o := BatchTurn(disk, cloud, root, sep, files, attempts, i, old(disk.entries), old(cloud.objects), outcomes);
      NoNewClientAcross(old(cloud.calls), calls, cloud.calls);
      outcomes := outcomes + [o];
    }
    BatchGuarantees(old(disk.entries), old(cloud.objects), disk.entries, cloud.objects, root, sep, files, outcomes, attempts);
  }

  /** What a finished batch of `files`, started from the disk `e0` and the bucket `objs0`,
      leaves: the disk only lost offloaded files and directories inside the folder, the
      folder included; the bucket gained exactly the objects whose upload the service
      stored; every file is still local or in the bucket; each file ended as `Outcomes`
      says; and nothing emptied is left on a deleted file's path. */
  ghost predicate BatchDone(e0: map<Path, Node>, objs0: map<string, Bytes>, e: map<Path, Node>, objs: map<string, Bytes>,
                            root: Path, sep: char, files: seq<Path>, attempts: nat -> Attempt, outcomes: seq<FileOutcome>)
    requires forall p <- files :: StrictlyUnder(root, p)
  {
    && |outcomes| == |files|
    && Frame(e0, e, root, false, Offloaded(files, outcomes))
    && objs.Keys == objs0.Keys + StoredKeys(SchedObjectKeys(root, files, sep), Stored(attempts), |files|)
    && (forall p <- files :: IsFileIn(e, p) || SchedObjectKey(root, p, sep) in objs)
    && Outcomes(objs0, root, sep, files, attempts, outcomes)
    && Tidied(e, root, files, outcomes)
  }

  /** How each file of a finished batch ended, against the bucket `objs0` it started from.
      An upload that raises ends in `Failed(false)`. The first time the batch meets a file
      whose upload returned, the existence check decides: `Deleted` when its object was in
      the bucket before or was stored by this or an earlier upload, `Unverified` otherwise.
      A file is deleted only when its upload returned and its object was found so. */
  ghost predicate Outcomes(objs0: map<string, Bytes>, root: Path, sep: char, files: seq<Path>,
                           attempts: nat -> Attempt, outcomes: seq<FileOutcome>)
    requires forall p <- files :: StrictlyUnder(root, p)
    requires |outcomes| == |files|
  {
    && (forall j | 0 <= j < |files| && attempts(j).uploadRaises :: outcomes[j] == Failed(false))
    && (forall j | 0 <= j < |files| && files[j] !in files[..j] && !attempts(j).uploadRaises ::
          outcomes[j] == if SchedObjectKey(root, files[j], sep) in objs0.Keys + StoredKeys(SchedObjectKeys(root, files, sep), Stored(attempts), j + 1)
                         then Deleted else Unverified)
    && (forall j | 0 <= j < |files| && outcomes[j] == Deleted ::
          && !attempts(j).uploadRaises
          && SchedObjectKey(root, files[j], sep) in objs0.Keys + StoredKeys(SchedObjectKeys(root, files, sep), Stored(attempts), j + 1))
  }

  /** Every deleted file is gone, and no non-empty path inside the folder on its path, the
      folder included, is left an empty directory. */
  ghost predicate Tidied(e: map<Path, Node>, root: Path, files: seq<Path>, outcomes: seq<FileOutcome>)
    requires |outcomes| == |files|
  {
    forall j | 0 <= j < |files| && outcomes[j] == Deleted ::
      && files[j] !in e
      && forall q | q in e && IsPrefix(q, files[j]) && q != files[j] && q != [] && IsPrefix(root, q) :: !IsEmptyDirIn(e, q)
  }

  /** What a finished batch guarantees, read off the batch invariant. */
  lemma BatchGuarantees(e0: map<Path, Node>, objs0: map<string, Bytes>,
                        e: map<Path, Node>, objs: map<string, Bytes>,
                        root: Path, sep: char, files: seq<Path>,
                        outcomes: seq<FileOutcome>, attempts: nat -> Attempt)
    requires forall p <- files :: StrictlyUnder(root, p)
    requires BatchInvariant(e0, objs0, e, objs, root, false, files, SchedObjectKeys(root, files, sep), outcomes,
                            Stored(attempts), SchedInterruptions(attempts))
    requires |outcomes| == |files|
    ensures BatchDone(e0, objs0, e, objs, root, sep, files, attempts, outcomes)
  {
    forall p <- files
      ensures IsFileIn(e, p) || SchedObjectKey(root, p, sep) in objs
    {
      var j :| 0 <= j < |files| && files[j] == p;
    }
    BatchOutcomes(e, objs0, objs, root, sep, files, outcomes, attempts);
  }

  lemma BatchOutcomes(e: map<Path, Node>, objs0: map<string, Bytes>, objs: map<string, Bytes>,
                      root: Path, sep: char, files: seq<Path>, outcomes: seq<FileOutcome>, attempts: nat -> Attempt)
    requires forall p <- files :: StrictlyUnder(root, p)
    requires |outcomes| == |files|
    requires Settled(e, objs0, objs, files, SchedObjectKeys(root, files, sep), outcomes, Stored(attempts), SchedInterruptions(attempts))
    ensures Outcomes(objs0, root, sep, files, attempts, outcomes)
  {
    var keys := SchedObjectKeys(root, files, sep);
    forall j | 0 <= j < |files| && files[j] !in files[..j] && !attempts(j).uploadRaises
      ensures outcomes[j] == if SchedObjectKey(root, files[j], sep) in objs0.Keys + StoredKeys(keys, Stored(attempts), j + 1)
                             then Deleted else Unverified
    {
      assert SchedInterruptions(attempts)(j) == None;
    }
    forall j | 0 <= j < |files| && attempts(j).uploadRaises
      ensures outcomes[j] == Failed(false)
    {
      assert SchedInterruptions(attempts)(j) == Some(Failed(false));
    }
    forall j | 0 <= j < |files| && outcomes[j] == Deleted
      ensures !attempts(j).uploadRaises
    {
      assert SchedInterruptions(attempts)(j) == None;
    }
  }

  /** In a batch of one file, how the service treats the file fixes its outcome, whether it
      stays local and what the bucket gains. */
  lemma SingleFileBatch(e0: map<Path, Node>, objs0: map<string, Bytes>, e: map<Path, Node>, objs: map<string, Bytes>,
                        root: Path, sep: char, f: Path, attempts: nat -> Attempt, outcomes: seq<FileOutcome>)
    requires IsFileIn(e0, f) && StrictlyUnder(root, f)
    requires BatchDone(e0, objs0, e, objs, root, sep, [f], attempts, outcomes)
    ensures var a, key := attempts(0), SchedObjectKey(root, f, sep);
            var o := if a.uploadRaises then Failed(false)
                     else if a.stored || key in objs0 then Deleted
                     else Unverified;
            && outcomes == [o]
            && (IsFileIn(e, f) <==> o != Deleted)
            && objs.Keys == objs0.Keys + (if a.stored then {key} else {})
  {
    assert [f][..0] == [];
    var keys := SchedObjectKeys(root, [f], sep);
    assert StoredKeys(keys, Stored(attempts), 1) == if attempts(0).stored then {keys[0]} else {};
    assert outcomes == [outcomes[0]];
    if outcomes[0] != Deleted {
      assert f !in Offloaded([f], outcomes);
    }
  }

  /** The upload folder `root`, when it is gone from `e`, leaves nothing inside it, and every
      file it held in `e0` is among those offloaded, `gone`. */
  ghost predicate FolderGoneOnlyWhenEmpty(e0: map<Path, Node>, e: map<Path, Node>, root: Path, gone: set<Path>) {
    root != [] && root !in e ==>
      && (forall p <- e.Keys :: !StrictlyUnder(root, p))
      && (forall p | p in e0 && StrictlyUnder(root, p) && e0[p].File? :: p in gone)
  }

  /** A run that only removes offloaded files and directories inside the folder leaves the
      folder gone only when it emptied it. */
  lemma FolderGoneOnlyWhenEmptied(e0: map<Path, Node>, e: map<Path, Node>, root: Path, gone: set<Path>)
    requires WellFormed(e) && Frame(e0, e, root, false, gone)
    ensures FolderGoneOnlyWhenEmpty(e0, e, root, gone)
  {
    if root != [] && root !in e {
      forall p <- e.Keys ensures !StrictlyUnder(root, p) {
        if StrictlyUnder(root, p) {
          AncestorExists(e, root, p);
        }
      }
    }
  }

  /** A glob below a folder that does not exist finds no files. */
  lemma MissingFolderNoFiles(e: map<Path, Node>, root: Path, globbed: seq<Path>)
    requires WellFormed(e) && root != [] && root !in e
    requires forall p <- globbed :: StrictlyUnder(root, p)
    ensures LocalFiles(e, globbed) == []
  {
    forall p <- globbed ensures !IsFileIn(e, p) {
      if p in e {
        AncestorExists(e, root, p);
      }
    }
    NoLocalFiles(e, globbed);
  }

  /** How one run of the job ended: no files ("No files found in resumes folder"), the
      client could not be set up (logged, not re-raised), or the loop ran to its end. */
  datatype JobResult = NoFiles | SetupFailed | Completed

  /** `upload_resumes_to_gcs()`, one run of the scheduled job. `cloud` is the bucket named
      by `gcs_bucket_name`; `globbed` is what the recursive glob returned, `clientOk` whether
      the client and bucket could be created, `attempts(i)` how the service treats the i-th
      file. */
  method UploadResumesJob(disk: Disk, cloud: Cloud, uploadFolder: Path, sep: char,
                          globbed: seq<Path>, clientOk: bool, attempts: nat -> Attempt)
    returns (r: JobResult, ghost files: seq<Path>, ghost outcomes: seq<FileOutcome>)
    requires disk.Valid()
    requires forall p <- globbed :: StrictlyUnder(uploadFolder, p)
    modifies disk, cloud
    ensures disk.Valid()
    ensures files == LocalFiles(old(disk.entries), globbed)
    ensures r == NoFiles <==> files == []
    ensures r == SetupFailed <==> files != [] && !clientOk
    // a missing upload folder holds no files: nothing to do
    ensures uploadFolder != [] && !old(disk.Exists(uploadFolder)) ==> r == NoFiles
    // nothing is touched unless the batch ran; no client is created unless there are files
    ensures !r.Completed? ==> disk.entries == old(disk.entries) && cloud.objects == old(cloud.objects)
    ensures r == NoFiles ==> cloud.calls == old(cloud.calls)
    ensures r == SetupFailed ==> cloud.calls == old(cloud.calls) + [NewClient]
    // one client for the whole batch
    ensures r.Completed? ==> OneClientCreated(old(cloud.calls), cloud.calls)
    // the disk, the bucket and each file's outcome after the batch
    ensures r.Completed? ==> BatchDone(old(disk.entries), old(cloud.objects), disk.entries, cloud.objects,
                                       uploadFolder, sep, files, attempts, outcomes)
    // the disk only loses offloaded files and directories inside the folder, the folder included
    ensures Frame(old(disk.entries), disk.entries, uploadFolder, false, Offloaded(files, outcomes))
    // the folder is gone only once every file it held was offloaded
    ensures FolderGoneOnlyWhenEmpty(old(disk.entries), disk.entries, uploadFolder, Offloaded(files, outcomes))
  {
    files := LocalFiles(disk.entries, globbed);
    outcomes := [];
    if uploadFolder != [] && !disk.Exists(uploadFolder) {
      MissingFolderNoFiles(disk.entries, uploadFolder, globbed);
    }
    var localFiles := LocalFiles(disk.entries, globbed);
    if localFiles == [] {
      r := NoFiles;
      FrameUnchanged(disk.entries, uploadFolder, false, Offloaded(files, outcomes));
    } else {
      r, outcomes := ConnectAndUpload(disk, cloud, uploadFolder, sep, localFiles, clientOk, attempts);
      if r == SetupFailed {
        FrameUnchanged(disk.entries, uploadFolder, false, Offloaded(files, outcomes));
      }
    }
    assert Frame(old(disk.entries), disk.entries, uploadFolder, false, Offloaded(files, outcomes));
    FolderGoneOnlyWhenEmptied(old(disk.entries), disk.entries, uploadFolder, Offloaded(files, outcomes));
  }

  /** The job's `try` block once files were found: create the client, logging and giving up
      on this run when that raises, and run the batch with it. */
  method ConnectAndUpload(disk: Disk, cloud: Cloud, uploadFolder: Path, sep: char,
                          files: seq<Path>, clientOk: bool, attempts: nat -> Attempt)
    returns (r: JobResult, ghost outcomes: seq<FileOutcome>)
    requires disk.Valid()
    requires forall p <- files :: StrictlyUnder(uploadFolder, p) && disk.IsFile(p)
    modifies disk, cloud
    ensures disk.Valid()
    ensures r == SetupFailed || r == Completed
    ensures r == Completed <==> clientOk
    ensures r == SetupFailed ==> disk.entries == old(disk.entries) && cloud.objects == old(cloud.objects) && outcomes == []
    ensures r == SetupFailed ==> cloud.calls == old(cloud.calls) + [NewClient]
    ensures r == Completed ==> OneClientCreated(old(cloud.calls), cloud.calls)
    ensures r == Completed ==> BatchDone(old(disk.entries), old(cloud.objects), disk.entries, cloud.objects,
                                         uploadFolder, sep, files, attempts, outcomes)
  {
    outcomes := [];
    var connected := cloud.Connect(clientOk);
    if !connected {
      return SetupFailed, outcomes;
    }
    ghost var connectedCalls := cloud.calls;
    outcomes := UploadBatch(disk, cloud, uploadFolder, sep, files, attempts);
    r := Completed;
    assert connectedCalls == old(cloud.calls) + [NewClient];
  }

  /** The name of the lock file in the system's temporary directory (`LOCK_FILE`). */
  const LockFileName := "scheduler.lock"

  function LockFile(tempDir: Path): (p: Path)
    ensures |p| == |tempDir| + 1 && Dirname(p) == tempDir && p[|tempDir|] == LockFileName
  {
    tempDir + [LockFileName]
  }

  /** The bucket name that ships in the configuration template. */
  const PlaceholderBucket := "your-gcs-bucket-name"

  /** Minutes between two runs of the job. */
  const JobIntervalMinutes := 15

  /** `not gcs_bucket_name or gcs_bucket_name == 'your-gcs-bucket-name'` is false. */
  predicate UsableBucket(bucket: Option<string>): (r: bool)
    // a missing, empty or placeholder name is refused; any other name is used
    ensures bucket.None? || bucket == Some("") || bucket == Some(PlaceholderBucket) ==> !r
    ensures bucket.Some? && bucket.value != "" && bucket.value != PlaceholderBucket ==> r
  {
    bucket.Some? && bucket.value != "" && bucket.value != PlaceholderBucket
  }

  /** A job registered with `add_job(func=upload_resumes_to_gcs, trigger="interval", minutes=..)`;
      the closure is identified by the bucket it uploads to. */
  datatype IntervalJob = IntervalJob(minutes: nat, bucket: string)

  datatype BackgroundScheduler = BackgroundScheduler(jobs: seq<IntervalJob>, started: bool)

  /** A callable registered with `atexit.register`. */
  datatype ExitHook = ShutdownScheduler | CloseFd(fd: nat)

  /** How a call of `init_scheduler` ended. */
  datatype InitOutcome =
    | OpenRaised          // `os.open` raised; the error propagates to the caller
    | LockBusy            // `flock` raised: "Scheduler already initialized by another process"
    | AlreadyInitialized  // `scheduler is not None`
    | BadBucket           // the bucket name is missing or the placeholder
    | Started

  /** The state of the process `init_scheduler` runs in: its open descriptors and the file
      each refers to, the descriptors holding an exclusive `flock`, the module global
      `scheduler`, and the exit hooks registered so far. */
  class Process {
    var openFiles: map<nat, Path>
    var locked: set<nat>
    var nextFd: nat
    var scheduler: Option<BackgroundScheduler>
    var exitHooks: seq<ExitHook>

    /** Every locking descriptor is open, descriptors are handed out in order, and no two
        descriptors of this process hold the lock on the same file. */
    ghost predicate Valid()
      reads this
    {
      && locked <= openFiles.Keys
      && (forall fd <- openFiles.Keys :: fd < nextFd)
      && (forall f <- locked, g <- locked | openFiles[f] == openFiles[g] :: f == g)
    }

    constructor ()
      ensures Valid()
      ensures openFiles == map[] && locked == {} && nextFd == 0 && scheduler == None && exitHooks == []
    {
      openFiles, locked, nextFd := map[], {}, 0;
      scheduler, exitHooks := None, [];
    }

    /** Some descriptor of this process holds the lock on `path`. */
    predicate HoldsLock(path: Path)
      reads this
    {
      exists fd <- locked :: fd in openFiles && openFiles[fd] == path
    }

    /** `os.open(path, os.O_CREAT | os.O_RDWR)`; `ok` is whether it returned. */
    method Open(path: Path, ok: bool) returns (fd: Option<nat>)
      requires Valid()
      modifies this
      ensures Valid()
      ensures fd.Some? <==> ok
      ensures ok ==> fd.value == old(nextFd) && fd.value !in old(openFiles)
      ensures openFiles == if ok then old(openFiles)[fd.value := path] else old(openFiles)
      ensures nextFd == if ok then old(nextFd) + 1 else old(nextFd)
      ensures locked == old(locked) && scheduler == old(scheduler) && exitHooks == old(exitHooks)
    {
      if ok {
        fd := Some(nextFd);
        openFiles := openFiles[nextFd := path];
        nextFd := nextFd + 1;
      } else {
        fd := None;
      }
    }

    /** `fcntl.flock(fd, fcntl.LOCK_EX | fcntl.LOCK_NB)`: granted unless another process
        (`othersHold`) or another descriptor of this one holds the lock on the same file. */
    method Flock(fd: nat, othersHold: bool) returns (granted: bool)
      requires Valid() && fd in openFiles && fd !in locked
      modifies this
      ensures Valid()
      ensures granted <==> !othersHold && !old(HoldsLock(openFiles[fd]))
      ensures locked == if granted then old(locked) + {fd} else old(locked)
      ensures openFiles == old(openFiles) && nextFd == old(nextFd)
      ensures scheduler == old(scheduler) && exitHooks == old(exitHooks)
    {
      var path := openFiles[fd];
      var heldHere := exists g <- locked :: g in openFiles && openFiles[g] == path;
      granted := !othersHold && !heldHere;
      if granted {
        locked := locked + {fd};
      }
    }

    /** `os.close(fd)`, which also releases the descriptor's lock. */
    method Close(fd: nat)
      requires Valid() && fd in openFiles
      modifies this
      ensures Valid()
      ensures openFiles == old(openFiles) - {fd} && locked == old(locked) - {fd}
      ensures nextFd == old(nextFd) && scheduler == old(scheduler) && exitHooks == old(exitHooks)
    {
      openFiles := openFiles - {fd};
      locked := locked - {fd};
    }

    /** `init_scheduler(app, gcs_bucket_name)`, as written: the lock file is opened, then
        locked, and every early return after the lock is granted leaves the descriptor open
        and the lock held. `tempDir` is `tempfile.gettempdir()`, `openOk` whether `os.open`
        returned, `othersHold` whether another process holds the lock. */
    method InitScheduler(tempDir: Path, bucket: Option<string>, openOk: bool, othersHold: bool)
      returns (o: InitOutcome)
      requires Valid()
      modifies this
      ensures Valid()
      ensures var fd, lock := old(nextFd), LockFile(tempDir);
        && (o == OpenRaised <==> !openOk)
        && (o == LockBusy <==> openOk && (othersHold || old(HoldsLock(lock))))
        && (o == AlreadyInitialized <==> openOk && !othersHold && !old(HoldsLock(lock)) && old(scheduler).Some?)
        && (o == BadBucket <==> openOk && !othersHold && !old(HoldsLock(lock)) && old(scheduler).None?
                                && !UsableBucket(bucket))
        // a refused lock leaves no descriptor behind; nothing else changes unless the lock was granted
        && (o in {OpenRaised, LockBusy} ==>
              openFiles == old(openFiles) && locked == old(locked)
              && scheduler == old(scheduler) && exitHooks == old(exitHooks))
        // once granted, the descriptor stays open and keeps the lock, whatever follows
        && (o in {AlreadyInitialized, BadBucket, Started} ==>
              openFiles == old(openFiles)[fd := lock] && locked == old(locked) + {fd})
        && (o in {AlreadyInitialized, BadBucket} ==> scheduler == old(scheduler) && exitHooks == old(exitHooks))
        // one started scheduler with one job, and the two exit hooks
        && (o == Started ==>
              && scheduler == Some(BackgroundScheduler([IntervalJob(JobIntervalMinutes, bucket.value)], true))
              && exitHooks == old(exitHooks) + [ShutdownScheduler, CloseFd(fd)])
    {
      var fd := Open(LockFile(tempDir), openOk);
      if fd.None? {
        return OpenRaised;
      }
      var granted := Flock(fd.value, othersHold);
      if !granted {
        Close(fd.value);
        return LockBusy;
      }
      if scheduler.None? {
        if !UsableBucket(bucket) {
          return BadBucket;
        }
        var s := BackgroundScheduler([], false);
        s := s.(jobs := s.jobs + [IntervalJob(JobIntervalMinutes, bucket.value)]);
        assert s.jobs == [IntervalJob(JobIntervalMinutes, bucket.value)];
        s := s.(started := true);
        scheduler := Some(s);
        exitHooks := exitHooks + [ShutdownScheduler];
        exitHooks := exitHooks + [CloseFd(fd.value)];
        return Started;
      }
      return AlreadyInitialized;
    }

    /** `init_scheduler` with the descriptor closed on the paths that start nothing, so the
        lock is held exactly while a scheduler it started exists. */
    method InitSchedulerCorrected(tempDir: Path, bucket: Option<string>, openOk: bool, othersHold: bool)
      returns (o: InitOutcome)
      requires Valid()
      modifies this
      ensures Valid()
      ensures var fd, lock := old(nextFd), LockFile(tempDir);
        && (o == OpenRaised <==> !openOk)
        && (o == LockBusy <==> openOk && (othersHold || old(HoldsLock(lock))))
        && (o == AlreadyInitialized <==> openOk && !othersHold && !old(HoldsLock(lock)) && old(scheduler).Some?)
        && (o == BadBucket <==> openOk && !othersHold && !old(HoldsLock(lock)) && old(scheduler).None?
                                && !UsableBucket(bucket))
        // nothing is left open or locked unless the scheduler started
        && (o != Started ==>
              openFiles == old(openFiles) && locked == old(locked)
              && scheduler == old(scheduler) && exitHooks == old(exitHooks))
        && (o == Started ==>
              && openFiles == old(openFiles)[fd := lock] && locked == old(locked) + {fd}
              && scheduler == Some(BackgroundScheduler([IntervalJob(JobIntervalMinutes, bucket.value)], true))
              && exitHooks == old(exitHooks) + [ShutdownScheduler, CloseFd(fd)])
    {
      var fd := Open(LockFile(tempDir), openOk);
      if fd.None? {
        return OpenRaised;
      }
      var granted := Flock(fd.value, othersHold);
      if !granted {
        Close(fd.value);
        return LockBusy;
      }
      if scheduler.None? {
        if !UsableBucket(bucket) {
          Close(fd.value);
          return BadBucket;
        }
        var s := BackgroundScheduler([], false);
        s := s.(jobs := s.jobs + [IntervalJob(JobIntervalMinutes, bucket.value)]);
        assert s.jobs == [IntervalJob(JobIntervalMinutes, bucket.value)];
        s := s.(started := true);
        scheduler := Some(s);
        exitHooks := exitHooks + [ShutdownScheduler];
        exitHooks := exitHooks + [CloseFd(fd.value)];
        return Started;
      }
      Close(fd.value);
      return AlreadyInitialized;
    }
  }
}
