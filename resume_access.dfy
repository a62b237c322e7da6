/** The `/resume/<path:filename>` endpoint, `serve_resume`: look up the application that
    owns the file, decide from the session's role and ids whether the user may read it, then
    serve it if the retrieval helper (local disk first, then the bucket) finds it. The
    decision changes no state, so it is a function of the database rows, the session and
    the helper's answer. */
module ResumeAccess {
  import opened Wrappers

  /** The columns of an `Application` row that the endpoint reads. */
  datatype Application = Application(id: nat, resumePath: string, jobId: nat, applicantId: nat)

  /** The columns of a `Job` row that the endpoint reads. */
  datatype Job = Job(id: nat, posterId: nat)

  /** `session['user_id']` and `session['role']` of the logged-in user. */
  datatype Session = Session(userId: nat, role: string)

  /** `UPLOAD_FOLDER`, `ENABLE_GCS_UPLOAD` and `GCS_BUCKET_NAME` from the application config. */
  datatype Config = Config(uploadFolder: string, enableGcs: bool, bucket: Option<string>)

  /** What `get_resume_file` hands back: a file (local path or fetched copy) and whether it
      exists. */
  datatype Retrieved = Retrieved(file: string, found: bool)

  /** The HTTP outcome: `send_file(file)`, or an error status (`abort`, or the uncaught
      exception Flask turns into a server error). */
  datatype Response = Served(file: string) | Status(code: nat)

  const NotFound := 404
  const Forbidden := 403
  const ServerError := 500

  /** The prefix the upload form records in `Application.resume_path`. */
  const StoredResumePrefix := "static/resumes/"

  /** `Application.query.filter_by(resume_path=path).first()`, over the rows in the order the
      query returns them. */
  function FirstMatch(apps: seq<Application>, path: string): (r: Option<Application>)
    ensures r.None? <==> forall a <- apps :: a.resumePath != path
    ensures r.Some? ==> exists k | 0 <= k < |apps| :: apps[k] == r.value
                          && r.value.resumePath == path
                          && forall j | 0 <= j < k :: apps[j].resumePath != path
  {
    if apps == [] then None
    else if apps[0].resumePath == path then Some(apps[0])
    else
      var rest := FirstMatch(apps[1..], path);
      if rest.Some? then
        var k :| 0 <= k < |apps[1..]| && apps[1..][k] == rest.value
                 && rest.value.resumePath == path
                 && forall j | 0 <= j < k :: apps[1..][j].resumePath != path;
        assert apps[k + 1] == rest.value;
        rest
      else rest
  }

  /** `os.path.join(a, b)` on a POSIX system: an absolute `b` replaces `a`; otherwise a '/'
      is put between them unless `a` is empty or already ends with one. */
  function PathJoin(a: string, b: string): (r: string)
    ensures |b| > 0 && b[0] == '/' ==> r == b
    ensures !(|b| > 0 && b[0] == '/') ==> a <= r && |b| <= |r| && r[|r| - |b|..] == b
    ensures !(|b| > 0 && b[0] == '/') && a != [] && a[|a| - 1] != '/' ==> |r| == |a| + 1 + |b| && r[|a|] == '/'
    ensures !(|b| > 0 && b[0] == '/') && (a == [] || a[|a| - 1] == '/') ==> r == a + b
  {
    if |b| > 0 && b[0] == '/' then b
    else if a == [] || a[|a| - 1] == '/' then a + b
    else a + "/" + b
  }

  /** Who may read an application's resume: any admin; an employer who posted the job the
      application is for; anyone else only when they are the applicant. */
  ghost predicate MayRead(s: Session, app: Application, jobs: map<nat, Job>) {
    || s.role == "admin"
    || (s.role == "employer" && app.jobId in jobs && jobs[app.jobId].posterId == s.userId)
    || (s.role !in {"admin", "employer"} && s.userId == app.applicantId)
  }

  /** `serve_resume(filename)`. `apps` are the application rows, `jobs` the job rows by id,
      `retrieve` is `get_resume_file` with its `enable_gcs` and `gcs_bucket_name` arguments. */
  function ServeResume(apps: seq<Application>, jobs: map<nat, Job>, s: Session, cfg: Config,
                       filename: string, retrieve: (string, bool, Option<string>) -> Retrieved)
    : (r: Response)
    // no application records the file: 404 before any role check
    ensures FirstMatch(apps, StoredResumePrefix + filename).None? ==> r == Status(NotFound)
    ensures FirstMatch(apps, StoredResumePrefix + filename).Some? ==>
      var app := FirstMatch(apps, StoredResumePrefix + filename).value;
      var got := retrieve(PathJoin(cfg.uploadFolder, filename), cfg.enableGcs, cfg.bucket);
      // an employer whose application points at a missing job makes `job.poster_id` raise
      && (r == Status(ServerError) <==> s.role == "employer" && app.jobId !in jobs)
      && (r == Status(Forbidden) <==> !MayRead(s, app, jobs) && !(s.role == "employer" && app.jobId !in jobs))
      && (r.Served? <==> MayRead(s, app, jobs) && got.found)
      && (r.Served? ==> r.file == got.file)
      && (MayRead(s, app, jobs) && !got.found ==> r == Status(NotFound))
  {
    var found := FirstMatch(apps, StoredResumePrefix + filename);
    if found.None? then Status(NotFound)
    else
      var app := found.value;
      if s.role == "admin" then Deliver(cfg, filename, retrieve)
      else if s.role == "employer" then
        if app.jobId !in jobs then Status(ServerError)
        else if jobs[app.jobId].posterId != s.userId then Status(Forbidden)
        else Deliver(cfg, filename, retrieve)
      else if s.userId != app.applicantId then Status(Forbidden)
      else Deliver(cfg, filename, retrieve)
  }

  /** The tail of the endpoint once access is granted: serve what the helper found, or 404. */
  function Deliver(cfg: Config, filename: string, retrieve: (string, bool, Option<string>) -> Retrieved)
    : (r: Response)
    // once access is granted the endpoint never refuses: it serves the file or reports it missing
    ensures r.Served? || r == Status(NotFound)
    ensures r.Served? <==> retrieve(PathJoin(cfg.uploadFolder, filename), cfg.enableGcs, cfg.bucket).found
    ensures r.Served? ==> r.file == retrieve(PathJoin(cfg.uploadFolder, filename), cfg.enableGcs, cfg.bucket).file
  {
    var got := retrieve(PathJoin(cfg.uploadFolder, filename), cfg.enableGcs, cfg.bucket);
    if got.found then Served(got.file) else Status(NotFound)
  }

  /** The role decides before the ids do: an employer who is also the applicant, but did not
      post the job, is refused. */
  lemma EmployerApplicantNotPosterRefused(apps: seq<Application>, jobs: map<nat, Job>, s: Session, cfg: Config,
                                          filename: string, retrieve: (string, bool, Option<string>) -> Retrieved)
    requires FirstMatch(apps, StoredResumePrefix + filename).Some?
    requires var app := FirstMatch(apps, StoredResumePrefix + filename).value;
             s.role == "employer" && s.userId == app.applicantId
             && app.jobId in jobs && jobs[app.jobId].posterId != s.userId
    ensures ServeResume(apps, jobs, s, cfg, filename, retrieve) == Status(Forbidden)
  {
  }

  /** Only the first application recording the file is consulted: rows after it change nothing. */
  lemma LaterApplicationsIgnored(apps: seq<Application>, more: seq<Application>, jobs: map<nat, Job>,
                                 s: Session, cfg: Config, filename: string,
                                 retrieve: (string, bool, Option<string>) -> Retrieved)
    requires FirstMatch(apps, StoredResumePrefix + filename).Some?
    ensures ServeResume(apps + more, jobs, s, cfg, filename, retrieve)
            == ServeResume(apps, jobs, s, cfg, filename, retrieve)
  {
    FirstMatchPrefix(apps, more, StoredResumePrefix + filename);
  }

  lemma {:induction false} FirstMatchPrefix(apps: seq<Application>, more: seq<Application>, path: string)
    requires FirstMatch(apps, path).Some?
    ensures FirstMatch(apps + more, path) == FirstMatch(apps, path)
  {
    assert (apps + more)[0] == apps[0];
    if apps[0].resumePath != path {
      assert (apps + more)[1..] == apps[1..] + more;
      FirstMatchPrefix(apps[1..], more, path);
    }
  }

  /** The answer for a user who may read the resume does not depend on who they are:
      it is whatever the helper finds. */
  lemma ReadersGetTheSameAnswer(apps: seq<Application>, jobs: map<nat, Job>, s1: Session, s2: Session,
                                cfg: Config, filename: string,
                                retrieve: (string, bool, Option<string>) -> Retrieved)
    requires FirstMatch(apps, StoredResumePrefix + filename).Some?
    requires var app := FirstMatch(apps, StoredResumePrefix + filename).value;
             MayRead(s1, app, jobs) && MayRead(s2, app, jobs)
    ensures ServeResume(apps, jobs, s1, cfg, filename, retrieve)
            == ServeResume(apps, jobs, s2, cfg, filename, retrieve)
  {
  }
}
