# Resume offload and resume access: a Dafny model

The job portal stores uploaded resumes under a local upload folder. Two copies of one
offload cycle move them to a cloud bucket:

- the Celery task `upload_resumes_to_gcs_task` (`tasks.py`);
- the APScheduler job `upload_resumes_to_gcs`, nested in `init_scheduler` (`appsched.py`).

Each copy uploads every file under the folder to `resumes/<relative path>`. It checks that
the object exists, deletes the local copy, and removes the directories that became empty.
`init_scheduler` guards the scheduler with an exclusive `flock` on a lock file in the
temporary directory, so only one process starts it. The endpoint `serve_resume`
(`blueprints/utils/routes.py`) decides who may download a resume.

The files:

- `wrappers.dfy` (module `Wrappers`): the `Option` datatype.
- `paths.dfy` (module `Paths`): paths as sequences of components. It defines
  `os.path.dirname`, `os.path.relpath`, joining, `str.split` and `str.replace`.
- `storage.dfy` (module `Storage`): the local disk (class `Disk`) and the bucket (class
  `Cloud`). Both are mutable state. `Cloud` also keeps a log of every request made to the
  storage service.
- `offload.dfy` (module `Offload`): the part both copies share. It has the glob filter, and
  the batch invariant with its step lemmas, which hold after any prefix of the batch.
- `tasks.dfy` (module `CeleryTask`): the Celery task, as imperative methods. Pure functions
  specify its prune loop, each file's outcome, and the counters.
- `task_scenarios.dfy` (module `TaskScenarios`): runs of the task on one resume, one per
  way the storage service can treat the upload.
- `appsched.dfy` (module `Scheduler`): the scheduler's copy of the cycle, and
  `init_scheduler` on a `Process` class. That class holds the open descriptors, the
  `flock`s, the `scheduler` global and the `atexit` hooks.
- `sched_scenarios.dfy` (module `SchedulerScenarios`): runs of the job on one resume, the
  "no files" run, and two calls of `init_scheduler` in one process.
- `resume_access.dfy` (module `ResumeAccess`): `serve_resume`, as a pure function.

Inputs that come from outside the model are parameters:

- what the recursive glob returns (`globbed`);
- whether the client and the bucket can be created (`clientOk`);
- how the storage service treats the i-th file (`attempts(i)`): is the object stored,
  does the upload raise, does `reload()` raise;
- whether `os.open` works (`openOk`);
- whether another process holds the lock (`othersHold`);
- `get_resume_file` (`retrieve`).

`blob.exists()` answers truthfully: it says whether the bucket holds the key.

Behaviour of the code worth noting:

- If `os.open` of the lock file raises, the error propagates to the caller. It is not
  logged and swallowed.
- On a missing or placeholder bucket name, `init_scheduler` returns with the lock still held.
  It does not release the lock (see Findings).
- The scheduler's prune loop also removes the upload folder itself once it is empty. The
  job runs that loop as written (`Scheduler.PruneEmptyParents`), so offloading the last
  file of the folder removes the folder (`SchedulerScenarios.OneFileOffloaded`); see
  Findings.
- The scheduler job has no "folder missing" result. A missing folder globs to nothing, and
  the job reports that no files were found (`UploadResumesJob`).
- The scheduler's object name keeps the platform separator. It is not normalised to '/'
  (`SchedKeyMatchesTaskKey`).
- The scheduler makes no `reload()` call, so a file whose upload was stored is deleted
  even where the task would have failed on `reload()` (`OneFileReloadNotCalled`).
- `init_scheduler` never reads `SCHEDULER_INITIALIZED`. Only the `scheduler` global decides
  whether a scheduler already exists.

## Model

| member | source | states |
|---|---|---|
| Paths.Dirname | tasks.py:87 | `os.path.dirname` drops the last component: the result is a prefix one component shorter |
| Paths.RelPath | tasks.py:64-65 | the path relative to the upload folder is non-empty, and the folder followed by it is the path |
| Paths.Replace | tasks.py:67 | `replace(os.sep, '/')` keeps the length, and changes exactly the separator characters |
| Storage.AncestorExists | appsched.py:96-99 | an entry inside a directory means the directory exists, so a missing folder globs to nothing |
| Storage.Disk.Exists | tasks.py:38 | `os.path.exists` holds exactly when the path is an entry of the tree, and then the directory holding it exists too; both top-level runs use it to decide the missing-folder path |
| Storage.Disk.IsFile | tasks.py:46 | `os.path.isfile` is true only of an existing entry that is a file, and a file holds no entries |
| Storage.ParseObjectKey | tasks.py:67 | an object name parses back to components exactly when it starts with `resumes/` |
| Storage.Disk.Read | tasks.py:72 | the upload reads the bytes of the file, and fails exactly when the path is not a file |
| Storage.Disk.ListDir | tasks.py:90 | `os.listdir` succeeds exactly on a directory; it returns exactly the names of the entries inside, and is empty exactly when nothing is inside |
| Storage.Disk.Remove | tasks.py:81 | `os.remove` removes a file and only a file; the tree stays well formed |
| Storage.Disk.Rmdir | tasks.py:91 | `os.rmdir` removes an empty directory, and raises otherwise; the tree stays well formed |
| Storage.Cloud.Connect | tasks.py:57-58 | creating the client logs one client creation, and the bucket is unchanged |
| Storage.Cloud.Upload | tasks.py:72 | the upload stores the file's bytes under the key when the service accepts them, and returns exactly when it does not raise |
| Storage.Cloud.Reload | tasks.py:78 | `reload()` changes no object and returns exactly when it does not raise |
| Storage.Cloud.Exists | tasks.py:79 | `exists()` is true exactly when the bucket holds the key |
| Offload.LocalFiles | tasks.py:46 | the local files are a sub-multiset of the glob result: globbed entries that are files, and every globbed file is among them |
| Offload.NoLocalFiles | appsched.py:99-101 | when no globbed entry is a file, the list is empty and the job takes the "no files" branch |
| Offload.BatchStart | tasks.py:61 | before the first file, the invariant holds of the untouched disk and bucket |
| Offload.BatchStep | tasks.py:61-109 | one more file keeps the batch invariant: the disk frame, the bucket holding exactly the old keys plus the stored uploads' keys, durability, pending files untouched, each outcome fixed by interruption or existence check, a deleted file's object present, and no emptied directory left on its path |
| CeleryTask.TaskObjectKey | tasks.py:64-67 | the object name is `resumes/` followed by the relative path with '/' separators |
| CeleryTask.TaskKeyRoundTrip | tasks.py:64-67 | parsing the object name gives back the relative path, on any platform separator |
| CeleryTask.TaskKeyInjective | tasks.py:64-68 | two different files never share an object name |
| CeleryTask.Count | tasks.py:75-108 | each file is counted once, as deleted or as failed/kept, and as uploaded exactly when its upload returned |
| CeleryTask.Tally | tasks.py:75-108 | every file counts as deleted or failed/kept, and no more are deleted than uploaded, or uploaded than files |
| CeleryTask.PrunedBelowRoot | tasks.py:86-99 | the prune walk removes only empty directories strictly inside the upload folder on the path upward, and keeps the tree well formed |
| CeleryTask.PruneLeavesNoEmptyParent | tasks.py:86-99 | the walk stops only where it must: no directory strictly inside the folder on the path upward is left empty |
| CeleryTask.PruneKeepsRoot | tasks.py:88 | the task's prune walk never removes the upload folder |
| CeleryTask.PruneEmptyParents | tasks.py:86-99 | the `while parent_dir` loop leaves the disk as the prune walk specifies |
| CeleryTask.ProcessFile | tasks.py:62-109 | one file: outcome, new disk and bucket as `FileStep` defines them, and the requests it makes |
| CeleryTask.TaskInterruption | tasks.py:72-109 | an exception decides a readable file's outcome exactly when the upload or `reload()` raises; it is `Failed`, counted as uploaded only when the upload returned |
| CeleryTask.TaskOutcome | tasks.py:72-109 | the upload counter is reached exactly when the file is readable and the upload returns; a raise decides the outcome as `TaskInterruption` says; `Deleted` only when `reload()` returned and the object was stored or already there; otherwise `Unverified` exactly when it was neither |
| CeleryTask.FileStep | tasks.py:62-99 | one file only removes entries and only adds objects; the file stays exactly when it was there and was not deleted; the only object gained is the file's own |
| CeleryTask.TaskRequests | tasks.py:72-79 | the loop body never creates a client; a deleted file was uploaded, reloaded and checked for existence first |
| CeleryTask.FileStepEffect | tasks.py:62-109 | one file's step, read by the batch invariant: the bucket gains exactly the stored key; an unreadable file fails; a raise decides the outcome; otherwise `Deleted` exactly when the object is present; only that file and emptied directories below the root go |
| CeleryTask.BatchTurn | tasks.py:61-109 | one iteration of the `for` loop keeps the batch invariant and creates no client |
| CeleryTask.UploadBatch | tasks.py:61-109 | the batch: counters are the tally of outcomes; the bucket holds exactly the old keys plus the keys of stored uploads; every file is still local or in the bucket; each file's outcome is fixed by whether its upload or `reload()` raised and whether its object was there; only offloaded files and emptied sub-folders disappear |
| CeleryTask.BatchGuarantees | tasks.py:61-109 | a finished batch leaves every file local or in the bucket, the outcomes as `Outcomes` states, and no emptied directory on a deleted file's path |
| CeleryTask.SingleFileBatch | tasks.py:61-109 | a batch of one file: its outcome, the counters, whether it stays local and what the bucket gains follow from how the service treats it |
| CeleryTask.ConnectAndUpload | tasks.py:55-119 | retry in 60 seconds exactly when the client cannot be created, with nothing touched; otherwise one client and the batch guarantees |
| CeleryTask.UploadResumesTask | tasks.py:17-123 | the task: Skipped exactly for a missing folder, "no files", retry in 60 seconds when the client fails, otherwise the batch guarantees; one client per batch; the folder is kept |
| TaskScenarios.RunOnLoneFile | tasks.py:61-113 | a file alone in its directory: the summary counters, whether it stays local, whether its object is stored, and whether its directory goes, for each way the service treats it; the folder stays |
| TaskScenarios.LoneFileDirPruned | tasks.py:86-99 | once a file alone in its directory is deleted, the directory is pruned |
| TaskScenarios.RunOnOneResume | tasks.py:61-113 | the same on the tree holding only `uploads/7/cv.pdf` |
| TaskScenarios.OneFileOffloaded | tasks.py:72-99 | a resume that uploads and verifies: counters (1, 1, 0), the local copy and `uploads/7` are gone, the object exists, `uploads` stays |
| TaskScenarios.OneFileUploadRaises | tasks.py:105-109 | a resume whose upload raises: counters (0, 0, 1), and the file stays with nothing in the bucket |
| TaskScenarios.OneFileNotConfirmed | tasks.py:100-103 | a resume uploaded but not found by `exists()`: counters (1, 0, 1), and the file stays |
| TaskScenarios.OneFileReloadRaises | tasks.py:75-109 | a resume stored but whose `reload()` raises: counters (1, 0, 1), and the file stays although the object exists |
| Scheduler.SchedObjectKey | appsched.py:113-115 | the object name is `resumes/` followed by the relative path, as `relpath` spells it |
| Scheduler.SchedKeyRoundTrip | appsched.py:113-115 | with '/' as separator, parsing the object name gives back the relative path |
| Scheduler.SchedKeyMatchesTaskKey | appsched.py:113-115 | the two copies name an object alike exactly when the separator is '/' or the file sits directly in the folder |
| Scheduler.PrunedUpToRoot | appsched.py:129-140 | the scheduler's prune walk removes only empty directories on the path upward, the upload folder included |
| Scheduler.PruneUpToRootLeavesNoEmptyParent | appsched.py:129-140 | the walk stops only where it must: no directory inside the folder on the path upward, the folder included, is left empty |
| Scheduler.PrunedUpToRootVersusBelowRoot | appsched.py:131 | the scheduler's walk removes what the task's walk removes, and at most the upload folder besides, once it is empty |
| Scheduler.UploadFolderRemovedExample | appsched.py:131 | after `uploads/7/cv.pdf` is deleted, the scheduler's walk leaves no `uploads` folder; the task's walk keeps it |
| Scheduler.PruneEmptyParents | appsched.py:129-140 | the loop as written leaves the disk as `PrunedUpToRoot` specifies |
| Scheduler.PruneEmptyParentsKeepingRoot | appsched.py:131 | the loop with the task's guard removes exactly what the task's walk removes, and keeps the folder |
| Scheduler.ProcessFile | appsched.py:111-148 | one file: outcome, new disk and bucket as `FileStep` defines them with the prune loop as written, and the requests it makes |
| Scheduler.SchedInterruption | appsched.py:118-148 | an exception decides a readable file's outcome exactly when the upload raises, and it is `Failed` |
| Scheduler.SchedOutcome | appsched.py:118-148 | the except branch is taken exactly when the file cannot be read or the upload raises; `Deleted` only when the object was stored or already there, `Unverified` only when it was neither |
| Scheduler.FileStep | appsched.py:111-140 | one file only removes entries and only adds objects; the file stays exactly when it was there and was not deleted; the only object gained is the file's own |
| Scheduler.SchedRequests | appsched.py:118-123 | the loop body never creates a client; a deleted file was uploaded and checked for existence first |
| Scheduler.FileStepEffect | appsched.py:111-148 | one file's step, read by the batch invariant: the bucket gains exactly the stored key; an unreadable file or a raising upload fails; otherwise `Deleted` exactly when the object is present; only that file and emptied directories inside the folder, the folder included, go |
| Scheduler.BatchTurn | appsched.py:110-148 | one iteration keeps the batch invariant and creates no client |
| Scheduler.UploadBatch | appsched.py:110-148 | the bucket holds exactly the old keys plus the keys of stored uploads; every file is still local or in the bucket; each file's outcome is fixed by whether its upload raised and whether its object was there; only offloaded files and emptied directories inside the folder, the folder included, disappear |
| Scheduler.BatchGuarantees | appsched.py:110-148 | a finished batch leaves every file local or in the bucket, the outcomes as `Outcomes` states, and no emptied directory on a deleted file's path |
| Scheduler.SingleFileBatch | appsched.py:110-148 | a batch of one file: its outcome, whether it stays local and what the bucket gains follow from how the service treats it |
| Scheduler.FolderGoneOnlyWhenEmptied | appsched.py:129-140 | when the prune loop removed the upload folder, nothing is left inside it and every file it held was offloaded |
| Scheduler.MissingFolderNoFiles | appsched.py:96-101 | a glob below a missing folder finds no files |
| Scheduler.ConnectAndUpload | appsched.py:104-154 | a setup error exactly when the client cannot be created, logged with nothing touched; otherwise one client and the batch guarantees |
| Scheduler.UploadResumesJob | appsched.py:92-156 | "no files" exactly when no globbed entry is a file (always when the folder is missing); a failed client changes nothing; otherwise the batch guarantees, with one client; the folder is gone only when every file it held was offloaded |
| SchedulerScenarios.RunOnLoneFile | appsched.py:110-148 | a file alone in its directory, itself alone in the folder: whether the file stays, whether its object is stored, and whether its directory and the folder go, for each way the service treats it |
| SchedulerScenarios.LoneFileTreePruned | appsched.py:129-140 | once such a file is deleted, its directory and the upload folder are both pruned |
| SchedulerScenarios.RunOnOneResume | appsched.py:110-148 | the same on the tree holding only `uploads/7/cv.pdf` |
| SchedulerScenarios.OneFileOffloaded | tests/test_scheduler.py:47-73 | a resume whose upload is confirmed is deleted locally; `uploads/7` and `uploads` go with it |
| SchedulerScenarios.OneFileUploadRaises | tests/test_scheduler.py:75-98 | a resume whose upload raises stays on disk, with nothing in the bucket |
| SchedulerScenarios.OneFileNotConfirmed | appsched.py:141-143 | a resume uploaded but not found by `exists()` stays on disk |
| SchedulerScenarios.OneFileReloadNotCalled | appsched.py:118-123 | a resume stored by a service whose `reload()` would raise is still deleted: the job never calls `reload()` |
| SchedulerScenarios.NoFilesNoClient | tests/test_scheduler.py:100-108 | an empty folder gives "no files" and no request to the service |
| Scheduler.LockFile | appsched.py:32 | the lock file is `scheduler.lock` directly inside the temporary directory |
| Scheduler.UsableBucket | appsched.py:70 | a missing, empty or placeholder bucket name is refused, and any other name is used |
| Scheduler.Process.Open | appsched.py:59 | `os.open` hands out a fresh descriptor for the lock file, or raises |
| Scheduler.Process.Flock | appsched.py:63 | the exclusive non-blocking lock is granted exactly when no other process or descriptor holds it |
| Scheduler.Process.Close | appsched.py:67 | closing a descriptor also releases its lock |
| Scheduler.Process.InitScheduler | appsched.py:37-163 | each outcome's exact condition; a refused lock leaves nothing behind; a granted lock stays held on every return; Started gives one started scheduler with a 15-minute job and the two exit hooks |
| Scheduler.Process.InitSchedulerCorrected | appsched.py:71-74 | the same, with the descriptor closed on the returns that start nothing: the lock is held only with a started scheduler |
| SchedulerScenarios.BadBucketBlocksLaterStart | appsched.py:59-74 | as written, a bad bucket name then a good one in the same process gives BadBucket then LockBusy |
| SchedulerScenarios.CorrectedBadBucketAllowsLaterStart | appsched.py:71-74 | corrected, the same two calls give BadBucket then Started |
| ResumeAccess.FirstMatch | blueprints/utils/routes.py:50-51 | the query finds nothing exactly when no row records the path, and otherwise the first row that does |
| ResumeAccess.PathJoin | blueprints/utils/routes.py:49 | `os.path.join`, in three cases: an absolute name replaces the folder; after an empty folder or one ending in '/', the name is appended as it is; after any other folder, a '/' comes between them |
| ResumeAccess.ServeResume | blueprints/utils/routes.py:19-78 | 404 without an application; 500 exactly for an employer whose application's job is missing; 403 exactly when not allowed; the file is served exactly when allowed and found; 404 when allowed but missing |
| ResumeAccess.Deliver | blueprints/utils/routes.py:72-78 | once access is granted the answer is never 403 or 500: the file is served exactly when the helper found it, and otherwise 404 |
| ResumeAccess.EmployerApplicantNotPosterRefused | blueprints/utils/routes.py:60-64 | an employer who is the applicant but did not post the job is refused: the role decides first |
| ResumeAccess.LaterApplicationsIgnored | blueprints/utils/routes.py:50-51 | rows after the first matching application change nothing |
| ResumeAccess.ReadersGetTheSameAnswer | blueprints/utils/routes.py:72-78 | any two users allowed to read the resume get the same response |

## Left out

- Logging, the Celery task name, the result message text and `print` are not modelled. The
  task's result is a datatype that carries the counters.
- The Flask application, its config, `create_app`, the Celery worker and the job's app
  context are not modelled. The task's retry stops at the request (`Retry(60)`): Celery's
  retry limit, and the `MaxRetriesExceededError` once it is reached, are not modelled. The upload folder, bucket and temporary directory are
  parameters.
- The real storage service is not modelled. Its behaviour per file is the `attempts`
  oracle. `blob.exists()` is assumed truthful and never raising, and `bucket.blob()` never
  raises.
- Glob details are not modelled: hidden files, symlinks and ordering. The glob result is a
  parameter; the model only requires that every entry lies inside the upload folder.
- `os.remove` and `os.rmdir` failing for permissions are not modelled. A file that has just
  been read is removable, and `rmdir` fails only on a non-empty or missing directory.
- Paths are sequences of components. Python's string `startswith` becomes a component
  prefix. The two agree on every path the prune loops reach, but an upload folder written
  with a trailing separator is not modelled.
- Concurrency is not modelled: two runs of the cycle at once, other processes changing the
  folder, and lock semantics across processes beyond "another process holds it"
  (`othersHold`).
- The atexit hooks are recorded but never run. Their last-in-first-out order (the
  descriptor closes before the scheduler shuts down) and the BackgroundScheduler's timing
  are not modelled.
- `Attempt.reloadOk`: the scheduler makes no `reload()` call, so this field plays no part
  there.
- `get_resume_file` is the `retrieve` parameter. Its local-then-bucket lookup and download
  are not modelled. `login_required` is not modelled; a logged-in session is assumed.

## Findings

| source | as written | input that shows it | evidently intended | confidence | as-written member | corrected member |
|---|---|---|---|---|---|---|
| appsched.py:131 | the prune loop keeps going while the path starts with the upload folder, so `os.rmdir` also removes the upload folder once it is empty | folder `uploads` containing only `uploads/7/cv.pdf`, uploaded and confirmed: the loop removes `uploads/7`, then `uploads` | stop at the upload folder, as the task's loop does with `parent_dir != upload_folder` (tasks.py:88) | not executed | Scheduler.UploadFolderRemovedExample | Scheduler.PruneEmptyParentsKeepingRoot |
| appsched.py:71-74 | when the bucket name is missing or the placeholder, `init_scheduler` returns with the lock descriptor still open and locked | in one process, call with no bucket name, then with a usable one: the second call cannot get the lock and never starts the scheduler | close the descriptor before returning, so the lock is held only by a started scheduler | not executed | SchedulerScenarios.BadBucketBlocksLaterStart | SchedulerScenarios.CorrectedBadBucketAllowsLaterStart |

The scheduler job (`Scheduler.ProcessFile`, `Scheduler.UploadResumesJob`) runs the prune
loop as written, and its contract says the folder is gone only once every file it held was
offloaded. `Scheduler.PruneEmptyParentsKeepingRoot` is the loop with the guard restored,
proved to match the task's walk. `init_scheduler` is modelled both ways:
`Scheduler.Process.InitScheduler` as written and `Scheduler.Process.InitSchedulerCorrected`
with the descriptor closed.
