/** The reasoning shared by both copies of the offload cycle: what holds of the disk and
    the bucket after a prefix of the batch has been processed, file by file. */
module Offload {
  import opened Wrappers
  import opened Paths
  import opened Storage

  /** `[f for f in all_files if os.path.isfile(f)]`: the glob result with directories dropped. */
  function LocalFiles(e: map<Path, Node>, globbed: seq<Path>): (r: seq<Path>)
    ensures multiset(r) <= multiset(globbed)
    ensures forall p <- r :: p in globbed
    ensures forall p <- r :: IsFileIn(e, p)
    ensures forall p <- globbed :: IsFileIn(e, p) ==> p in r
  {
    if globbed == [] then []
    else
      var rest := LocalFiles(e, globbed[1..]);
      assert globbed == [globbed[0]] + globbed[1..];
      if IsFileIn(e, globbed[0]) then [globbed[0]] + rest else rest
  }

  lemma {:induction false} NoLocalFiles(e: map<Path, Node>, globbed: seq<Path>)
    requires forall p <- globbed :: !IsFileIn(e, p)
    ensures LocalFiles(e, globbed) == []
  {
    if globbed != [] {
      NoLocalFiles(e, globbed[1..]);
    }
  }

  /** A directory the prune loop may remove: a non-empty path inside the upload folder, and
      not the folder itself when `keepRoot`. */
  predicate RemovableDir(root: Path, keepRoot: bool, p: Path) {
    p != [] && IsPrefix(root, p) && (keepRoot ==> p != root)
  }

  /** Whether the service stores each file's upload. */
  function Stored(attempts: nat -> Attempt): nat -> bool {
    (i: nat) => attempts(i).stored
  }

  /** The object names of the first `n` files whose upload the service stores. */
  function StoredKeys(keys: seq<string>, stored: nat -> bool, n: nat): (s: set<string>)
    ensures forall k :: k in s <==> exists j | 0 <= j < n && j < |keys| :: stored(j) && keys[j] == k
  {
    set j | 0 <= j < n && j < |keys| && stored(j) :: keys[j]
  }

  lemma StoredKeysStep(keys: seq<string>, stored: nat -> bool, n: nat)
    requires n < |keys|
    ensures StoredKeys(keys, stored, n + 1) == StoredKeys(keys, stored, n) + (if stored(n) then {keys[n]} else {})
  {
  }

  /** The files of a batch whose outcome was `Deleted`. */
  function Offloaded(files: seq<Path>, outcomes: seq<FileOutcome>): (s: set<Path>)
    ensures forall p :: p in s <==> exists j | 0 <= j < |outcomes| && j < |files| :: files[j] == p && outcomes[j] == Deleted
  {
    set j | 0 <= j < |outcomes| && j < |files| && outcomes[j] == Deleted :: files[j]
  }

  /** What holds after the first |outcomes| files of the batch `files` (whose object names
      are `keys`), started from the disk `e0` and the bucket `objs0`, have been processed,
      leaving `e` and `objs`. `stored(j)` says the service stores file j's upload;
      `interrupted(j)` is the failure an exception forces on file j before its existence
      check, or None when the existence check decides. */
  ghost predicate BatchInvariant(e0: map<Path, Node>, objs0: map<string, Bytes>,
                                 e: map<Path, Node>, objs: map<string, Bytes>,
                                 root: Path, keepRoot: bool, files: seq<Path>, keys: seq<string>,
                                 outcomes: seq<FileOutcome>, stored: nat -> bool, interrupted: nat -> Option<FileOutcome>)
  {
    && Named(e0, files, keys, |outcomes|)
    && Frame(e0, e, root, keepRoot, Offloaded(files, outcomes))
    && Bucket(objs0, objs, keys, stored, |outcomes|)
    && Durable(e, objs, files, keys, |outcomes|)
    && Pending(e, files, |outcomes|)
    && Settled(e, objs0, objs, files, keys, outcomes, stored, interrupted)
    && Tidy(e, root, keepRoot, files, outcomes)
  }

  /** `n` files are done, every file of the batch was a file at the start, and a file has
      the same object name wherever it recurs. */
  ghost predicate Named(e0: map<Path, Node>, files: seq<Path>, keys: seq<string>, n: nat) {
    && n <= |files| == |keys|
    && (forall p <- files :: IsFileIn(e0, p))
    && (forall j, k | 0 <= j < |files| && 0 <= k < |files| && files[j] == files[k] :: keys[j] == keys[k])
  }

  /** The disk keeps its other entries as they were and only loses the files in `gone` and
      directories the prune loop may remove. */
  ghost predicate Frame(e0: map<Path, Node>, e: map<Path, Node>, root: Path, keepRoot: bool, gone: set<Path>) {
    && e.Keys <= e0.Keys
    && (forall p <- e.Keys :: e[p] == e0[p])
    && (forall p | p in e0 && p !in e :: p in gone || (e0[p].Dir? && RemovableDir(root, keepRoot, p)))
  }

  /** A disk left as it was keeps the frame, whatever was offloaded. */
  lemma FrameUnchanged(e: map<Path, Node>, root: Path, keepRoot: bool, gone: set<Path>)
    ensures Frame(e, e, root, keepRoot, gone)
  {
  }

  /** The bucket holds the objects it held before and exactly the stored uploads besides. */
  ghost predicate Bucket(objs0: map<string, Bytes>, objs: map<string, Bytes>, keys: seq<string>, stored: nat -> bool, n: nat) {
    objs.Keys == objs0.Keys + StoredKeys(keys, stored, n)
  }

  /** Every processed file is still local or in the bucket. */
  ghost predicate Durable(e: map<Path, Node>, objs: map<string, Bytes>, files: seq<Path>, keys: seq<string>, n: nat) {
    n <= |files| == |keys| && forall j | 0 <= j < n :: IsFileIn(e, files[j]) || keys[j] in objs
  }

  /** Files not reached yet are untouched. */
  ghost predicate Pending(e: map<Path, Node>, files: seq<Path>, n: nat) {
    n <= |files| && forall j | n <= j < |files| && files[j] !in files[..n] :: IsFileIn(e, files[j])
  }

  /** How the processed files ended: see `FirstOutcomes`, `RaisedFails` and `DeletedStored`. */
  ghost predicate Settled(e: map<Path, Node>, objs0: map<string, Bytes>, objs: map<string, Bytes>,
                          files: seq<Path>, keys: seq<string>,
                          outcomes: seq<FileOutcome>, stored: nat -> bool, interrupted: nat -> Option<FileOutcome>)
  {
    && |outcomes| <= |files| == |keys|
    && FirstOutcomes(objs0, files, keys, outcomes, stored, interrupted)
    && RaisedFails(outcomes, interrupted)
    && DeletedStored(e, objs0, objs, files, keys, outcomes, stored, interrupted)
  }

  /** A file met for the first time ends in its forced failure when an exception interrupts
      it, and otherwise in `Deleted` or `Unverified`: `Deleted` whenever its object was in
      the bucket before or was stored by this or an earlier upload. */
  ghost predicate FirstOutcomes(objs0: map<string, Bytes>, files: seq<Path>, keys: seq<string>,
                                outcomes: seq<FileOutcome>, stored: nat -> bool, interrupted: nat -> Option<FileOutcome>) {
    && |outcomes| <= |files| == |keys|
    && (forall j | 0 <= j < |outcomes| && files[j] !in files[..j] && interrupted(j).Some? ::
          outcomes[j] == interrupted(j).value)
    && (forall j | 0 <= j < |outcomes| && files[j] !in files[..j] && interrupted(j).None? ::
          outcomes[j] == Deleted || outcomes[j] == Unverified)
    && (forall j | 0 <= j < |outcomes| && files[j] !in files[..j] && interrupted(j).None?
                   && keys[j] in objs0.Keys + StoredKeys(keys, stored, j + 1) ::
          outcomes[j] == Deleted)
  }

  /** An upload that raises always ends in `Failed(false)`. */
  ghost predicate RaisedFails(outcomes: seq<FileOutcome>, interrupted: nat -> Option<FileOutcome>) {
    forall j | 0 <= j < |outcomes| && interrupted(j) == Some(Failed(false)) :: outcomes[j] == Failed(false)
  }

  /** A deleted file is gone from the disk, was not interrupted, and its object is in the
      bucket: it was there before or was stored by this or an earlier upload. */
  ghost predicate DeletedStored(e: map<Path, Node>, objs0: map<string, Bytes>, objs: map<string, Bytes>,
                                files: seq<Path>, keys: seq<string>,
                                outcomes: seq<FileOutcome>, stored: nat -> bool, interrupted: nat -> Option<FileOutcome>)
  {
    forall j | 0 <= j < |outcomes| && j < |files| && j < |keys| && outcomes[j] == Deleted ::
      && files[j] !in e && keys[j] in objs && interrupted(j).None?
      && keys[j] in objs0.Keys + StoredKeys(keys, stored, j + 1)
  }

  /** No directory the prune loop may remove is left empty on the path of a deleted file. */
  ghost predicate Tidy(e: map<Path, Node>, root: Path, keepRoot: bool, files: seq<Path>, outcomes: seq<FileOutcome>) {
    forall j, q | 0 <= j < |outcomes| && j < |files| && outcomes[j] == Deleted && q in e && IsPrefix(q, files[j])
                  && q != files[j] && RemovableDir(root, keepRoot, q) ::
      !IsEmptyDirIn(e, q)
  }

  /** What one file's step does, with `key` its object name, `stored` whether the service
      stores its upload and `interrupted` the failure an exception forces before the
      existence check. */
  ghost predicate StepEffect(e: map<Path, Node>, objs: map<string, Bytes>,
                             e': map<Path, Node>, objs': map<string, Bytes>,
                             root: Path, keepRoot: bool, f: Path, key: string,
                             stored: bool, interrupted: Option<FileOutcome>, o: FileOutcome)
  {
    && StepRecord(e, objs, objs', f, key, stored, interrupted, o)
    && e'.Keys <= e.Keys
    && (forall p <- e'.Keys :: e'[p] == e[p])
    && (o != Deleted ==> e' == e)
    && (forall p | p in e && p !in e' :: p == f || (e[p].Dir? && RemovableDir(root, keepRoot, p) && IsPrefix(p, f)))
    && (o == Deleted ==> f !in e')
    && (o == Deleted ==>
          forall q | q in e' && IsPrefix(q, f) && q != f && RemovableDir(root, keepRoot, q) :: !IsEmptyDirIn(e', q))
  }

  /** The part of one file's step that concerns the bucket and the outcome: the bucket gains
      the object exactly when the file was readable and its upload stored; an unreadable file
      fails without upload; an interruption decides the outcome; otherwise the existence
      check does. */
  ghost predicate StepRecord(e: map<Path, Node>, objs: map<string, Bytes>, objs': map<string, Bytes>,
                             f: Path, key: string, stored: bool, interrupted: Option<FileOutcome>, o: FileOutcome)
  {
    && objs'.Keys == objs.Keys + (if IsFileIn(e, f) && stored then {key} else {})
    && (interrupted.Some? ==> interrupted.value.Failed?)
    && (!IsFileIn(e, f) ==> o == Failed(false))
    && (IsFileIn(e, f) && interrupted.Some? ==> o == interrupted.value)
    && (IsFileIn(e, f) && interrupted.None? ==> o == if stored || key in objs then Deleted else Unverified)
  }

  lemma BatchStart(e: map<Path, Node>, objs: map<string, Bytes>, root: Path, keepRoot: bool,
                   files: seq<Path>, keys: seq<string>, stored: nat -> bool, interrupted: nat -> Option<FileOutcome>)
    requires forall p <- files :: IsFileIn(e, p)
    requires |keys| == |files|
    requires forall j, k | 0 <= j < |files| && 0 <= k < |files| && files[j] == files[k] :: keys[j] == keys[k]
    ensures BatchInvariant(e, objs, e, objs, root, keepRoot, files, keys, [], stored, interrupted)
  {
    assert StoredKeys(keys, stored, 0) == {};
  }

  /** Processing the next file of the batch keeps the invariant. */
  lemma BatchStep(e0: map<Path, Node>, objs0: map<string, Bytes>,
                  e: map<Path, Node>, objs: map<string, Bytes>,
                  e': map<Path, Node>, objs': map<string, Bytes>,
                  root: Path, keepRoot: bool, files: seq<Path>, keys: seq<string>,
                  outcomes: seq<FileOutcome>, o: FileOutcome, stored: nat -> bool, interrupted: nat -> Option<FileOutcome>)
    requires BatchInvariant(e0, objs0, e, objs, root, keepRoot, files, keys, outcomes, stored, interrupted)
    requires |outcomes| < |files|
    requires StepEffect(e, objs, e', objs', root, keepRoot, files[|outcomes|], keys[|outcomes|],
                        stored(|outcomes|), interrupted(|outcomes|), o)
    ensures BatchInvariant(e0, objs0, e', objs', root, keepRoot, files, keys, outcomes + [o], stored, interrupted)
  {
    DiskStep(e0, objs0, e, objs, e', objs', root, keepRoot, files, keys, outcomes, o, stored, interrupted);
    RecordStep(e0, objs0, e, objs, e', objs', root, keepRoot, files, keys, outcomes, o, stored, interrupted);
  }

  /** The step keeps what the invariant says about the disk. */
  lemma DiskStep(e0: map<Path, Node>, objs0: map<string, Bytes>,
                 e: map<Path, Node>, objs: map<string, Bytes>,
                 e': map<Path, Node>, objs': map<string, Bytes>,
                 root: Path, keepRoot: bool, files: seq<Path>, keys: seq<string>,
                 outcomes: seq<FileOutcome>, o: FileOutcome, stored: nat -> bool, interrupted: nat -> Option<FileOutcome>)
    requires BatchInvariant(e0, objs0, e, objs, root, keepRoot, files, keys, outcomes, stored, interrupted)
    requires |outcomes| < |files|
    requires StepEffect(e, objs, e', objs', root, keepRoot, files[|outcomes|], keys[|outcomes|],
                        stored(|outcomes|), interrupted(|outcomes|), o)
    ensures Frame(e0, e', root, keepRoot, Offloaded(files, outcomes + [o]))
    ensures Pending(e', files, |outcomes| + 1)
    ensures Tidy(e', root, keepRoot, files, outcomes + [o])
  {
    var i := |outcomes|;
    FrameStep(e0, e, e', root, keepRoot, files, outcomes, objs, objs', keys[i], stored(i), interrupted(i), o);
    PendingStep(e, objs, e', objs', root, keepRoot, files, keys[i], i, o, stored(i), interrupted(i));
    TidyStep(e, objs, e', objs', root, keepRoot, files, keys[i], outcomes, o, stored(i), interrupted(i));
  }

  /** The step keeps what the invariant says about the bucket and the outcomes. */
  lemma RecordStep(e0: map<Path, Node>, objs0: map<string, Bytes>,
                   e: map<Path, Node>, objs: map<string, Bytes>,
                   e': map<Path, Node>, objs': map<string, Bytes>,
                   root: Path, keepRoot: bool, files: seq<Path>, keys: seq<string>,
                   outcomes: seq<FileOutcome>, o: FileOutcome, stored: nat -> bool, interrupted: nat -> Option<FileOutcome>)
    requires BatchInvariant(e0, objs0, e, objs, root, keepRoot, files, keys, outcomes, stored, interrupted)
    requires |outcomes| < |files|
    requires StepEffect(e, objs, e', objs', root, keepRoot, files[|outcomes|], keys[|outcomes|],
                        stored(|outcomes|), interrupted(|outcomes|), o)
    ensures Bucket(objs0, objs', keys, stored, |outcomes| + 1)
    ensures Durable(e', objs', files, keys, |outcomes| + 1)
    ensures Settled(e', objs0, objs', files, keys, outcomes + [o], stored, interrupted)
  {
    var i := |outcomes|;
    BucketStep(e0, objs0, e, objs, e', objs', root, keepRoot, files, keys, outcomes, o, stored, interrupted);
    DurableStep(e, objs, e', objs', root, keepRoot, files, keys, i, o, stored(i), interrupted(i));
    SettledStep(e, objs0, objs, e', objs', root, keepRoot, files, keys, outcomes, o, stored, interrupted);
  }

  lemma FrameStep(e0: map<Path, Node>, e: map<Path, Node>, e': map<Path, Node>,
                  root: Path, keepRoot: bool, files: seq<Path>, outcomes: seq<FileOutcome>,
                  objs: map<string, Bytes>, objs': map<string, Bytes>, key: string,
                  stored: bool, interrupted: Option<FileOutcome>, o: FileOutcome)
    requires |outcomes| < |files|
    requires Frame(e0, e, root, keepRoot, Offloaded(files, outcomes))
    requires StepEffect(e, objs, e', objs', root, keepRoot, files[|outcomes|], key, stored, interrupted, o)
    ensures Frame(e0, e', root, keepRoot, Offloaded(files, outcomes + [o]))
  {
    var i, outcomes' := |outcomes|, outcomes + [o];
    forall p | p in Offloaded(files, outcomes) ensures p in Offloaded(files, outcomes') {
      var j :| 0 <= j < i && files[j] == p && outcomes[j] == Deleted;
      assert outcomes'[j] == Deleted;
    }
    if o == Deleted {
      assert outcomes'[i] == Deleted;
      assert files[i] in Offloaded(files, outcomes');
    }
  }

  /** A file that is no longer on the disk was deleted earlier in the batch, so its object
      is already in the bucket. */
  lemma GoneFileIsStored(e0: map<Path, Node>, objs0: map<string, Bytes>, e: map<Path, Node>, objs: map<string, Bytes>,
                         root: Path, keepRoot: bool, files: seq<Path>, keys: seq<string>,
                         outcomes: seq<FileOutcome>, stored: nat -> bool, interrupted: nat -> Option<FileOutcome>, i: nat)
    requires BatchInvariant(e0, objs0, e, objs, root, keepRoot, files, keys, outcomes, stored, interrupted)
    requires i < |files| && !IsFileIn(e, files[i])
    ensures keys[i] in objs
  {
    var f := files[i];
    assert f in e0 && e0[f].File?;
    assert f !in e;
    assert f in Offloaded(files, outcomes);
    var k :| 0 <= k < |outcomes| && k < |files| && files[k] == f && outcomes[k] == Deleted;
  }

  lemma BucketStep(e0: map<Path, Node>, objs0: map<string, Bytes>,
                   e: map<Path, Node>, objs: map<string, Bytes>,
                   e': map<Path, Node>, objs': map<string, Bytes>,
                   root: Path, keepRoot: bool, files: seq<Path>, keys: seq<string>,
                   outcomes: seq<FileOutcome>, o: FileOutcome, stored: nat -> bool, interrupted: nat -> Option<FileOutcome>)
    requires BatchInvariant(e0, objs0, e, objs, root, keepRoot, files, keys, outcomes, stored, interrupted)
    requires |outcomes| < |files|
    requires StepEffect(e, objs, e', objs', root, keepRoot, files[|outcomes|], keys[|outcomes|],
                        stored(|outcomes|), interrupted(|outcomes|), o)
    ensures Bucket(objs0, objs', keys, stored, |outcomes| + 1)
  {
    var i := |outcomes|;
    StoredKeysStep(keys, stored, i);
    if stored(i) && !IsFileIn(e, files[i]) {
      GoneFileIsStored(e0, objs0, e, objs, root, keepRoot, files, keys, outcomes, stored, interrupted, i);
    }
  }

  lemma DurableStep(e: map<Path, Node>, objs: map<string, Bytes>,
                    e': map<Path, Node>, objs': map<string, Bytes>,
                    root: Path, keepRoot: bool, files: seq<Path>, keys: seq<string>, i: nat, o: FileOutcome,
                    stored: bool, interrupted: Option<FileOutcome>)
    requires i < |files| == |keys|
    requires forall j, k | 0 <= j < |files| && 0 <= k < |files| && files[j] == files[k] :: keys[j] == keys[k]
    requires Durable(e, objs, files, keys, i) && Pending(e, files, i)
    requires StepEffect(e, objs, e', objs', root, keepRoot, files[i], keys[i], stored, interrupted, o)
    ensures Durable(e', objs', files, keys, i + 1)
  {
    var f := files[i];
    forall j | 0 <= j < i + 1
      ensures IsFileIn(e', files[j]) || keys[j] in objs'
    {
      if j == i && !IsFileIn(e, f) {
        var k :| 0 <= k < i && files[k] == f;
        assert keys[k] in objs;
      } else if IsFileIn(e, files[j]) && o == Deleted && files[j] == f {
        assert keys[j] == keys[i];
      }
    }
  }

  lemma PendingStep(e: map<Path, Node>, objs: map<string, Bytes>,
                    e': map<Path, Node>, objs': map<string, Bytes>,
                    root: Path, keepRoot: bool, files: seq<Path>, key: string, i: nat, o: FileOutcome,
                    stored: bool, interrupted: Option<FileOutcome>)
    requires Pending(e, files, i) && i < |files|
    requires StepEffect(e, objs, e', objs', root, keepRoot, files[i], key, stored, interrupted, o)
    ensures Pending(e', files, i + 1)
  {
    assert files[..i + 1] == files[..i] + [files[i]];
    forall j | i + 1 <= j < |files| && files[j] !in files[..i + 1]
      ensures IsFileIn(e', files[j])
    {
      assert IsFileIn(e, files[j]);
    }
  }

  lemma SettledStep(e: map<Path, Node>, objs0: map<string, Bytes>, objs: map<string, Bytes>,
                    e': map<Path, Node>, objs': map<string, Bytes>,
                    root: Path, keepRoot: bool, files: seq<Path>, keys: seq<string>,
                    outcomes: seq<FileOutcome>, o: FileOutcome, stored: nat -> bool, interrupted: nat -> Option<FileOutcome>)
    requires Settled(e, objs0, objs, files, keys, outcomes, stored, interrupted) && |outcomes| < |files|
    requires Pending(e, files, |outcomes|)
    requires Bucket(objs0, objs, keys, stored, |outcomes|)
    requires StepEffect(e, objs, e', objs', root, keepRoot, files[|outcomes|], keys[|outcomes|],
                        stored(|outcomes|), interrupted(|outcomes|), o)
    ensures Settled(e', objs0, objs', files, keys, outcomes + [o], stored, interrupted)
  {
    FirstOutcomesStep(e, objs0, objs, objs', files, keys, outcomes, o, stored, interrupted);
    RaisedFailsStep(e, objs, e', objs', root, keepRoot, files[|outcomes|], keys[|outcomes|], outcomes, o, stored, interrupted);
    DeletedStoredStep(e, objs0, objs, e', objs', files, keys, outcomes, o, stored, interrupted);
  }

  lemma FirstOutcomesStep(e: map<Path, Node>, objs0: map<string, Bytes>, objs: map<string, Bytes>, objs': map<string, Bytes>,
                          files: seq<Path>, keys: seq<string>,
                          outcomes: seq<FileOutcome>, o: FileOutcome, stored: nat -> bool, interrupted: nat -> Option<FileOutcome>)
    requires FirstOutcomes(objs0, files, keys, outcomes, stored, interrupted) && |outcomes| < |files|
    requires Pending(e, files, |outcomes|)
    requires Bucket(objs0, objs, keys, stored, |outcomes|)
    requires StepRecord(e, objs, objs', files[|outcomes|], keys[|outcomes|], stored(|outcomes|), interrupted(|outcomes|), o)
    ensures FirstOutcomes(objs0, files, keys, outcomes + [o], stored, interrupted)
  {
    var i := |outcomes|;
    var os := outcomes + [o];
    forall j | 0 <= j < |os| && files[j] !in files[..j] && interrupted(j).Some?
      ensures os[j] == interrupted(j).value
    {
      if j == i {
        assert IsFileIn(e, files[i]);
      }
    }
    forall j | 0 <= j < |os| && files[j] !in files[..j] && interrupted(j).None?
      ensures os[j] == Deleted || os[j] == Unverified
    {
      if j == i {
        assert IsFileIn(e, files[i]);
      }
    }
    forall j | 0 <= j < |os| && files[j] !in files[..j] && interrupted(j).None?
               && keys[j] in objs0.Keys + StoredKeys(keys, stored, j + 1)
      ensures os[j] == Deleted
    {
      if j == i {
        assert IsFileIn(e, files[i]);
        StoredKeysStep(keys, stored, i);
        assert stored(i) || keys[i] in objs.Keys;
      }
    }
  }

  lemma RaisedFailsStep(e: map<Path, Node>, objs: map<string, Bytes>,
                        e': map<Path, Node>, objs': map<string, Bytes>,
                        root: Path, keepRoot: bool, f: Path, key: string,
                        outcomes: seq<FileOutcome>, o: FileOutcome, stored: nat -> bool, interrupted: nat -> Option<FileOutcome>)
    requires RaisedFails(outcomes, interrupted)
    requires StepEffect(e, objs, e', objs', root, keepRoot, f, key, stored(|outcomes|), interrupted(|outcomes|), o)
    ensures RaisedFails(outcomes + [o], interrupted)
  {
  }

  lemma DeletedStoredStep(e: map<Path, Node>, objs0: map<string, Bytes>, objs: map<string, Bytes>,
                          e': map<Path, Node>, objs': map<string, Bytes>, files: seq<Path>, keys: seq<string>,
                          outcomes: seq<FileOutcome>, o: FileOutcome, stored: nat -> bool, interrupted: nat -> Option<FileOutcome>)
    requires DeletedStored(e, objs0, objs, files, keys, outcomes, stored, interrupted) && |outcomes| < |files| == |keys|
    requires Bucket(objs0, objs, keys, stored, |outcomes|)
    requires StepRecord(e, objs, objs', files[|outcomes|], keys[|outcomes|], stored(|outcomes|), interrupted(|outcomes|), o)
    requires e'.Keys <= e.Keys && (o == Deleted ==> files[|outcomes|] !in e')
    ensures DeletedStored(e', objs0, objs', files, keys, outcomes + [o], stored, interrupted)
  {
    var i := |outcomes|;
    var os := outcomes + [o];
    StoredKeysStep(keys, stored, i);
    forall j | 0 <= j < |os| && j < |files| && j < |keys| && os[j] == Deleted
      ensures files[j] !in e' && keys[j] in objs' && interrupted(j).None?
      ensures keys[j] in objs0.Keys + StoredKeys(keys, stored, j + 1)
    {
      if j < i {
        assert os[j] == outcomes[j];
      } else {
        assert IsFileIn(e, files[i]) && interrupted(i).None?;
      }
    }
  }

  lemma TidyStep(e: map<Path, Node>, objs: map<string, Bytes>,
                 e': map<Path, Node>, objs': map<string, Bytes>,
                 root: Path, keepRoot: bool, files: seq<Path>, key: string,
                 outcomes: seq<FileOutcome>, o: FileOutcome, stored: bool, interrupted: Option<FileOutcome>)
    requires Tidy(e, root, keepRoot, files, outcomes) && |outcomes| < |files|
    requires StepEffect(e, objs, e', objs', root, keepRoot, files[|outcomes|], key, stored, interrupted, o)
    ensures Tidy(e', root, keepRoot, files, outcomes + [o])
  {
    var i, f, outcomes' := |outcomes|, files[|outcomes|], outcomes + [o];
    forall j, q | 0 <= j < |outcomes'| && j < |files| && outcomes'[j] == Deleted && q in e' && IsPrefix(q, files[j])
                  && q != files[j] && RemovableDir(root, keepRoot, q)
      ensures !IsEmptyDirIn(e', q)
    {
    }
  }
}
