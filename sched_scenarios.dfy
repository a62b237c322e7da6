/** Small runs of the scheduler's job and of `init_scheduler`: the job on a tree with one
    resume, each run fixing how the service treats the upload, and two calls of
    `init_scheduler` in one process. */
module SchedulerScenarios {
  import opened Wrappers
  import opened Paths
  import opened Storage
  import opened Offload
  import opened Scheduler
  import TaskScenarios

  /** A run of the job on the one-resume tree, the service treating the upload as `a`:
      whether the resume stays local, whether its object is in the bucket, and whether its
      directory and the upload folder are left. The resume is deleted exactly when the
      upload returned and the object was stored, whatever `reload()` would have done; the
      loop as written then prunes the directory and the upload folder with it. */
  method RunOnOneResume(a: Attempt) returns (r: JobResult, stillLocal: bool, inBucket: bool, dirLeft: bool, folderLeft: bool)
    ensures var o := if a.uploadRaises then Failed(false)
                     else if a.stored then Deleted
                     else Unverified;
            && r == Completed
            && (stillLocal <==> o != Deleted)
            && (inBucket <==> a.stored)
            && (dirLeft <==> o != Deleted)
            && (folderLeft <==> o != Deleted)
  {
    TaskScenarios.OneResumeWellFormed();
    TaskScenarios.OneResumeLoneFile();
    OneResumeLoneDir();
    var disk := new Disk(TaskScenarios.OneResume());
    var cloud := new Cloud(map[]);
    r, stillLocal, inBucket, dirLeft, folderLeft := RunOnLoneFile(disk, cloud, ["uploads"], ["uploads", "7", "cv.pdf"], a);
  }

  /** In the one-resume tree, the resume's directory is alone in the upload folder. */
  lemma OneResumeLoneDir()
    ensures Children(TaskScenarios.OneResume(), ["uploads"]) == {["uploads", "7"]}
  {
    var e, dir := TaskScenarios.OneResume(), ["uploads", "7"];
    assert Dirname(dir) == ["uploads"];
    forall p | p in e && p != [] && Dirname(p) == ["uploads"] ensures p == dir {
      assert p == ["uploads"] || p == dir || p == ["uploads", "7", "cv.pdf"];
    }
  }

  /** A run of the job on any tree and bucket, with `file` alone in its directory and that
      directory alone in the upload folder `folder`, the service treating the upload as `a`. */
  method RunOnLoneFile(disk: Disk, cloud: Cloud, folder: Path, file: Path, a: Attempt)
    returns (r: JobResult, stillLocal: bool, inBucket: bool, dirLeft: bool, folderLeft: bool)
    requires disk.Valid() && IsFileIn(disk.entries, file)
    requires StrictlyUnder(folder, Dirname(file)) && Children(disk.entries, Dirname(file)) == {file}
    requires disk.Exists(folder) && Children(disk.entries, folder) == {Dirname(file)}
    requires cloud.objects == map[]
    modifies disk, cloud
    ensures var o := if a.uploadRaises then Failed(false)
                     else if a.stored then Deleted
                     else Unverified;
            && r == Completed
            && (stillLocal <==> o != Deleted)
            && (inBucket <==> a.stored)
            && (dirLeft <==> o != Deleted)
            && (folderLeft <==> o != Deleted)
  {
    var dir := Dirname(file);
    var attempts := (i: nat) => a;
    assert attempts(0) == a;
    assert LocalFiles(disk.entries, [file]) == [file];
    ghost var files, outcomes;
    ghost var e0, objs0 := disk.entries, cloud.objects;
    r, files, outcomes := UploadResumesJob(disk, cloud, folder, '/', [file], true, attempts);
    SingleFileBatch(e0, objs0, disk.entries, cloud.objects, folder, '/', file, attempts, outcomes);
    stillLocal := disk.IsFile(file);
    inBucket := SchedObjectKey(folder, file, '/') in cloud.objects;
    if stillLocal {
      AncestorExists(disk.entries, dir, file);
      AncestorExists(disk.entries, folder, file);
    } else {
      LoneFileTreePruned(e0, disk.entries, folder, file, outcomes);
    }
    dirLeft := disk.Exists(dir);
    folderLeft := disk.Exists(folder);
  }

  /** Once a file alone in its directory, itself alone in the folder, is deleted, no tidy
      remainder of the tree keeps either the directory or, the prune loop being as written,
      the upload folder. */
  lemma LoneFileTreePruned(e0: map<Path, Node>, e: map<Path, Node>, folder: Path, file: Path, outcomes: seq<FileOutcome>)
    requires WellFormed(e0) && IsFileIn(e0, file) && folder in e0
    requires StrictlyUnder(folder, Dirname(file)) && Children(e0, Dirname(file)) == {file}
    requires Children(e0, folder) == {Dirname(file)}
    requires e.Keys <= e0.Keys && forall p <- e.Keys :: e[p] == e0[p]
    requires outcomes == [Deleted] && Tidied(e, folder, [file], outcomes)
    ensures Dirname(file) !in e && folder !in e
  {
    var dir := Dirname(file);
    assert [file][0] == file && outcomes[0] == Deleted;
    assert file !in e && folder != [] && IsPrefix(folder, file);
    assert Children(e, dir) <= Children(e0, dir);
    assert Children(e, folder) <= Children(e0, folder);
  }

  /** One resume whose upload and verification go through: the local copy is gone, its
      object exists, and the loop as written prunes the directory that held it and then the
      upload folder itself. */
  method OneFileOffloaded() returns (r: JobResult, stillLocal: bool, inBucket: bool, dirLeft: bool, folderLeft: bool)
    ensures r == Completed && !stillLocal && inBucket && !dirLeft && !folderLeft
  {
    r, stillLocal, inBucket, dirLeft, folderLeft := RunOnOneResume(Attempt(true, false, true));
  }

  /** One resume whose upload raises: the job completes and the tree stays as it was. */
  method OneFileUploadRaises() returns (r: JobResult, stillLocal: bool, inBucket: bool, dirLeft: bool, folderLeft: bool)
    ensures r == Completed && stillLocal && !inBucket && dirLeft && folderLeft
  {
    r, stillLocal, inBucket, dirLeft, folderLeft := RunOnOneResume(Attempt(false, true, false));
  }

  /** One resume whose upload returns but was not stored: the existence check finds no
      object, so the job completes with the file kept and the bucket empty. */
  method OneFileNotConfirmed() returns (r: JobResult, stillLocal: bool, inBucket: bool, dirLeft: bool, folderLeft: bool)
    ensures r == Completed && stillLocal && !inBucket && dirLeft && folderLeft
  {
    r, stillLocal, inBucket, dirLeft, folderLeft := RunOnOneResume(Attempt(false, false, true));
  }

  /** One resume stored by the upload on a service whose `reload()` would raise: the job
      never calls `reload()`, so it deletes the file where the task keeps it. */
  method OneFileReloadNotCalled() returns (r: JobResult, stillLocal: bool, inBucket: bool, dirLeft: bool, folderLeft: bool)
    ensures r == Completed && !stillLocal && inBucket && !dirLeft && !folderLeft
  {
    r, stillLocal, inBucket, dirLeft, folderLeft := RunOnOneResume(Attempt(true, false, false));
  }

  /** An upload folder with no files: the job does nothing and creates no client. */
  method NoFilesNoClient() returns (r: JobResult, calls: nat)
    ensures r == NoFiles && calls == 0
  {
    var disk := new Disk(map[["uploads"] := Dir]);
    var cloud := new Cloud(map[]);
    ghost var files, outcomes;
    r, files, outcomes := UploadResumesJob(disk, cloud, ["uploads"], '/', [], true, (i: nat) => Attempt(true, false, true));
    calls := |cloud.calls|;
  }

  /** As written, a call with a bad bucket name keeps the lock, so a later call in the same
      process with a usable name finds the lock taken and never starts the scheduler. */
  method BadBucketBlocksLaterStart() returns (first: InitOutcome, second: InitOutcome)
    ensures first == BadBucket && second == LockBusy
  {
    var process := new Process();
    first := process.InitScheduler(["tmp"], None, true, false);
    assert process.HoldsLock(LockFile(["tmp"])) by {
      assert 0 in process.locked && process.openFiles[0] == LockFile(["tmp"]);
    }
    second := process.InitScheduler(["tmp"], Some("resumes"), true, false);
  }

  /** With the descriptor closed, the same two calls start the scheduler the second time. */
  method CorrectedBadBucketAllowsLaterStart() returns (first: InitOutcome, second: InitOutcome)
    ensures first == BadBucket && second == Started
  {
    var process := new Process();
    first := process.InitSchedulerCorrected(["tmp"], None, true, false);
    second := process.InitSchedulerCorrected(["tmp"], Some("resumes"), true, false);
  }
}
