/** Small runs of the Celery task on a tree with one resume, each fixing how the service
    treats the upload and stating what the task reports and leaves behind. */
module TaskScenarios {
  import opened Paths
  import opened Storage
  import opened Offload
  import opened CeleryTask

  /** A tree with one resume, `uploads/7/cv.pdf`. */
  function OneResume(): map<Path, Node> {
    map[["uploads"] := Dir, ["uploads", "7"] := Dir, ["uploads", "7", "cv.pdf"] := File([0x25])]
  }

  lemma OneResumeWellFormed()
    ensures WellFormed(OneResume())
  {
    var e := OneResume();
    forall p | p in e && |p| > 1 ensures Dirname(p) in e && e[Dirname(p)].Dir? {
      if p == ["uploads", "7"] {
        assert Dirname(p) == ["uploads"];
      } else {
        assert p == ["uploads", "7", "cv.pdf"];
        assert Dirname(p) == ["uploads", "7"];
      }
    }
  }

  /** A run of the task on that tree, the service treating the one upload as `a`: the
      summary, whether the resume stays local, whether its object is in the bucket, and
      whether its directory and the upload folder are left. The resume is deleted, and its
      directory pruned, exactly when the upload returned, `reload()` did not raise and the
      object was stored; the upload folder always stays. */
  method RunOnOneResume(a: Attempt) returns (r: TaskResult, stillLocal: bool, inBucket: bool, dirLeft: bool, folderLeft: bool)
    ensures var o := if a.uploadRaises then Failed(false)
                     else if !a.reloadOk then Failed(true)
                     else if a.stored then Deleted
                     else Unverified;
            && r == Completed(Count(Counters(0, 0, 0), o))
            && (stillLocal <==> o != Deleted)
            && (inBucket <==> a.stored)
            && (dirLeft <==> o != Deleted)
            && folderLeft
  {
    OneResumeWellFormed();
    OneResumeLoneFile();
    var disk := new Disk(OneResume());
    var cloud := new Cloud(map[]);
    r, stillLocal, inBucket, dirLeft, folderLeft := RunOnLoneFile(disk, cloud, ["uploads"], ["uploads", "7", "cv.pdf"], a);
  }

  /** In that tree the resume sits alone in `uploads/7`, one level inside the upload folder. */
  lemma OneResumeLoneFile()
    ensures var e, file := OneResume(), ["uploads", "7", "cv.pdf"];
            && IsFileIn(e, file) && ["uploads"] in e
            && Dirname(file) == ["uploads", "7"] && StrictlyUnder(["uploads"], Dirname(file))
            && Children(e, Dirname(file)) == {file}
  {
    var e, dir, file := OneResume(), ["uploads", "7"], ["uploads", "7", "cv.pdf"];
    assert Dirname(file) == dir;
    forall p | p in e && p != [] && Dirname(p) == dir ensures p == file {
      assert p == ["uploads"] || p == dir || p == file;
    }
  }

  /** A run of the task on any tree and bucket, with `file` alone in its directory inside the
      upload folder `folder`, the service treating its upload as `a`. */
  method RunOnLoneFile(disk: Disk, cloud: Cloud, folder: Path, file: Path, a: Attempt)
    returns (r: TaskResult, stillLocal: bool, inBucket: bool, dirLeft: bool, folderLeft: bool)
    requires disk.Valid() && disk.Exists(folder) && IsFileIn(disk.entries, file)
    requires StrictlyUnder(folder, Dirname(file)) && Children(disk.entries, Dirname(file)) == {file}
    requires cloud.objects == map[]
    modifies disk, cloud
    ensures var o := if a.uploadRaises then Failed(false)
                     else if !a.reloadOk then Failed(true)
                     else if a.stored then Deleted
                     else Unverified;
            && r == Completed(Count(Counters(0, 0, 0), o))
            && (stillLocal <==> o != Deleted)
            && (inBucket <==> a.stored)
            && (dirLeft <==> o != Deleted)
            && folderLeft
  {
    var dir := Dirname(file);
    var attempts := (i: nat) => a;
    assert attempts(0) == a;
    assert LocalFiles(disk.entries, [file]) == [file];
    ghost var files, outcomes;
    ghost var e0, objs0 := disk.entries, cloud.objects;
    r, files, outcomes := UploadResumesTask(disk, cloud, folder, '/', [file], true, attempts);
    SingleFileBatch(e0, objs0, disk.entries, cloud.objects, folder, '/', file, attempts, outcomes, r.counts);
    stillLocal := disk.IsFile(file);
    inBucket := TaskObjectKey(folder, file, '/') in cloud.objects;
    if stillLocal {
      AncestorExists(disk.entries, dir, file);
    } else {
      LoneFileDirPruned(e0, disk.entries, folder, file, outcomes);
    }
    dirLeft := disk.Exists(dir);
    folderLeft := disk.Exists(folder);
  }

  /** Once a file alone in its directory inside the folder is deleted, no tidy remainder of
      the tree keeps that directory. */
  lemma LoneFileDirPruned(e0: map<Path, Node>, e: map<Path, Node>, folder: Path, file: Path, outcomes: seq<FileOutcome>)
    requires WellFormed(e0) && IsFileIn(e0, file)
    requires StrictlyUnder(folder, Dirname(file)) && Children(e0, Dirname(file)) == {file}
    requires e.Keys <= e0.Keys && forall p <- e.Keys :: e[p] == e0[p]
    requires outcomes == [Deleted] && Tidied(e, folder, [file], outcomes)
    ensures Dirname(file) !in e
  {
    var dir := Dirname(file);
    assert [file][0] == file && outcomes[0] == Deleted;
    assert file !in e;
    assert Children(e, dir) <= Children(e0, dir);
  }

  /** One resume whose upload and verification go through: the summary reports one uploaded
      and one deleted, the local copy is gone, its object exists, and the directory that held
      it is pruned while the upload folder stays. */
  method OneFileOffloaded() returns (r: TaskResult, stillLocal: bool, inBucket: bool, dirLeft: bool, folderLeft: bool)
    ensures r == Completed(Counters(1, 1, 0)) && !stillLocal && inBucket && !dirLeft && folderLeft
  {
    r, stillLocal, inBucket, dirLeft, folderLeft := RunOnOneResume(Attempt(true, false, true));
  }

  /** One resume whose upload raises: the summary reports one failed, and the file and the
      tree stay as they were. */
  method OneFileUploadRaises() returns (r: TaskResult, stillLocal: bool, inBucket: bool, dirLeft: bool, folderLeft: bool)
    ensures r == Completed(Counters(0, 0, 1)) && stillLocal && !inBucket && dirLeft && folderLeft
  {
    r, stillLocal, inBucket, dirLeft, folderLeft := RunOnOneResume(Attempt(false, true, true));
  }

  /** One resume whose upload returns but was not stored: the existence check finds no
      object, so the summary reports one uploaded and one failed/kept, the file stays and
      the bucket stays empty. */
  method OneFileNotConfirmed() returns (r: TaskResult, stillLocal: bool, inBucket: bool, dirLeft: bool, folderLeft: bool)
    ensures r == Completed(Counters(1, 0, 1)) && stillLocal && !inBucket && dirLeft && folderLeft
  {
    r, stillLocal, inBucket, dirLeft, folderLeft := RunOnOneResume(Attempt(false, false, true));
  }

  /** One resume stored by the upload whose `reload()` raises: the file counts as uploaded
      and failed/kept, and stays local although its object is in the bucket. */
  method OneFileReloadRaises() returns (r: TaskResult, stillLocal: bool, inBucket: bool, dirLeft: bool, folderLeft: bool)
    ensures r == Completed(Counters(1, 0, 1)) && stillLocal && inBucket && dirLeft && folderLeft
  {
    r, stillLocal, inBucket, dirLeft, folderLeft := RunOnOneResume(Attempt(true, false, false));
  }
}
