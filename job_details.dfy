/**
  The job details page of a student: the job named by the route, a cover
  letter box and the apply button. Whether the student has already applied
  is worked out on the client from the student's applications, and it is
  the only thing that hides the apply form.
*/
module JobDetails {
  import opened Common
  import opened Tables
  import opened Store

  /** `apps.some((app) => app.job_id === jobId)` */
  function AnyForJob(apps: seq<Application>, jobId: Id): (r: bool)
    ensures r <==> exists a :: a in apps && a.job_id == jobId
  {
    if apps == [] then false
    else
      assert apps == [apps[0]] + apps[1..];
      apps[0].job_id == jobId || AnyForJob(apps[1..], jobId)
  }

  /** The student has applied to the job exactly when the table holds an application of that pair. */
  lemma AppliedIffPairPresent(apps: seq<Application>, studentId: Id, jobId: Id)
    ensures AnyForJob(ApplicationsOfStudent(apps, studentId), jobId)
            <==> exists a :: a in apps && a.student_id == studentId && a.job_id == jobId
  {
    var mine := ApplicationsOfStudent(apps, studentId);
    if exists a :: a in apps && a.student_id == studentId && a.job_id == jobId {
      var a :| a in apps && a.student_id == studentId && a.job_id == jobId;
      assert a in mine;
    }
  }

  /** The rows of one (job, student) pair. */
  function PairRows(apps: seq<Application>, jobId: Id, studentId: Id): (r: seq<Application>)
    ensures forall a :: a in r <==> a in apps && a.job_id == jobId && a.student_id == studentId
  {
    Filter(apps, ForPair(jobId, studentId))
  }

  class JobDetails {
    /** The job id of the route. */
    const routeId: Id
    /** The signed-in student's profile id. */
    const userId: Id
    var job: Option<Job>
    var loading: bool
    var applying: bool
    var coverLetter: string
    var hasApplied: bool

    /** The page before its first load. */
    constructor (routeId: Id, userId: Id)
      ensures this.routeId == routeId && this.userId == userId
      ensures job == None && loading && !applying && coverLetter == "" && !hasApplied
    {
      this.routeId, this.userId := routeId, userId;
      job, loading, applying, coverLetter, hasApplied := None, true, false, "", false;
    }

    /** The apply form is rendered only once the job has loaded and while the student has not applied. */
    predicate ApplyFormShown()
      reads this
    {
      !loading && job.Some? && !hasApplied
    }

    /** The submit button is enabled only while no application request is outstanding. */
    predicate SubmitEnabled()
      reads this
    {
      ApplyFormShown() && !applying
    }

    /** `loadJob`: the job with the route id, if the request succeeds and finds it; the page stops loading either way. */
    method LoadJob(db: Store, fails: bool)
      requires db.Valid()
      modifies this
      ensures !fails && (exists j :: j in db.jobs && j.id == routeId) ==>
                job.Some? && job.value in db.jobs && job.value.id == routeId
      ensures fails || (forall j :: j in db.jobs ==> j.id != routeId) ==> job == old(job)
      ensures !loading
      ensures applying == old(applying) && coverLetter == old(coverLetter) && hasApplied == old(hasApplied)
    {
      var res := JobById(db.jobs, routeId);
      if !fails && res.value.Some? {
        job := res.value;
      }
      loading := false;
    }

    /** `checkApplication`: `hasApplied` is recomputed from the student's applications; a failed request leaves it. */
    method CheckApplication(db: Store, fails: bool)
      modifies this
      ensures !fails ==> (hasApplied <==> exists a :: a in db.applications && a.student_id == userId && a.job_id == routeId)
      ensures fails ==> hasApplied == old(hasApplied)
      ensures job == old(job) && loading == old(loading) && applying == old(applying) && coverLetter == old(coverLetter)
    {
      if !fails {
        var mine := ApplicationsOfStudent(db.applications, userId);
        AppliedIffPairPresent(db.applications, userId, routeId);
        hasApplied := AnyForJob(mine, routeId);
      }
    }

    /** Typing in the cover letter box. */
    method SetCoverLetter(text: string)
      modifies this
      ensures coverLetter == text
      ensures job == old(job) && loading == old(loading) && applying == old(applying) && hasApplied == old(hasApplied)
    {
      coverLetter := text;
    }

    /**
      `handleApply`: marks the request outstanding, inserts one pending
      application of this student to the route's job with the typed cover
      letter, then clears the mark; only a success sets `hasApplied`, which
      hides the form. The button that runs it is offered only on the shown
      form and only while no request is outstanding. The store adds the row
      whether or not the pair is already present.
    */
    method HandleApply(db: Store, now: int, fails: bool) returns (r: Result<Application>, ghost applyingAtRequest: bool)
      requires db.Valid()
      requires SubmitEnabled()
      modifies this, db
      ensures db.Valid()
      ensures db.jobs == old(db.jobs) && db.students == old(db.students) && db.companies == old(db.companies)
      ensures applyingAtRequest && !applying
      ensures r.Ok? <==> !fails
      ensures r.Ok? ==> !ApplyFormShown()
      ensures r.Err? ==> SubmitEnabled()
      ensures db.nextId == if fails then old(db.nextId) else old(db.nextId) + 1
      ensures fails ==> r.Err? && db.applications == old(db.applications) && hasApplied == old(hasApplied)
      ensures !fails ==> r.Ok? && db.applications == old(db.applications) + [r.value] && hasApplied
      ensures r.Ok? ==> r.value.job_id == routeId && r.value.student_id == userId
      ensures r.Ok? ==> r.value.cover_letter == old(coverLetter) && r.value.status == AppStatus.Pending
      ensures !fails ==> |PairRows(db.applications, routeId, userId)| == |PairRows(old(db.applications), routeId, userId)| + 1
      ensures job == old(job) && coverLetter == old(coverLetter) && loading == old(loading)
    {
      applying := true;
      applyingAtRequest := applying;
      r := db.CreateApplication(NewApplication(routeId, userId, coverLetter, AppStatus.Pending), now, fails);
      applying := false;
      if r.Ok? {
        InsertAddsOnePair(old(db.applications), r.value);
        hasApplied := true;
      }
    }
  }

  /**
    A visit whose `checkApplication` fails keeps the apply form for a
    (student, job) pair already in the table (applied on an earlier visit),
    and its submit then makes a second row of that pair.
  */
  method FailedCheckAllowsSecondApplication() returns (shownWithPair: bool, pairRows: nat)
    ensures shownWithPair && pairRows == 2
  {
    var db := new Store([], []);
    var posted := db.CreateJob(NewJob(1, "Engineer", "Designs parts", "", "Chennai", "full-time", "", Active), 0, false);
    var jobId := posted.value.id;
    var earlier := db.CreateApplication(NewApplication(jobId, 7, "", AppStatus.Pending), 1, false);
    InsertAddsOnePair([], earlier.value);
    var page := new JobDetails(jobId, 7);
    page.LoadJob(db, false);
    page.CheckApplication(db, true);
    shownWithPair := page.ApplyFormShown() && |PairRows(db.applications, jobId, 7)| == 1;
    var r, g := page.HandleApply(db, 2, false);
    pairRows := |PairRows(db.applications, jobId, 7)|;
  }

  /**
    The client check is the only guard against a second application: once a
    pair is present, a store insert of the same pair makes two rows of it.
  */
  lemma DuplicateApplicationsPossible(apps: seq<Application>, row: Application)
    requires exists a :: a in apps && a.job_id == row.job_id && a.student_id == row.student_id
    ensures |PairRows(apps + [row], row.job_id, row.student_id)| >= 2
  {
    var a :| a in apps && a.job_id == row.job_id && a.student_id == row.student_id;
    assert a in PairRows(apps, row.job_id, row.student_id);
    InsertAddsOnePair(apps, row);
  }
}
