/**
  The company dashboard: the company's profile form, the post-job form
  (usable only once the company is approved), the company's own jobs, and
  the applicants of one selected job with Shortlist / Reject buttons.
*/
module CompanyDashboard {
  import opened Common
  import opened Tables
  import opened Store

  /** The post-job form. Its keys are exactly the six job columns the company types. */
  datatype JobForm = JobForm(
    title: string, description: string, requirements: string,
    location: string, job_type: string, salary_range: string)

  /** The `name` attributes of the post-job inputs. */
  datatype JobField = Title | Description | Requirements | Location | JobType | SalaryRange

  /** The `name` attributes of the profile inputs. */
  datatype CompanyField = GstNumber | CinNumber | Website | About | Place | Phone

  /** The post-job form as first shown and after every successful post. */
  const EmptyJobForm: JobForm := JobForm("", "", "", "", "full-time", "")

  /** The profile form before the profile is loaded. */
  const EmptyCompanyForm: CompanyDetails := CompanyDetails("", "", "", "", "", "")

  function GetJobField(f: JobForm, n: JobField): string
  {
    match n
    case Title => f.title
    case Description => f.description
    case Requirements => f.requirements
    case Location => f.location
    case JobType => f.job_type
    case SalaryRange => f.salary_range
  }

  /** `{ ...prev, [name]: value }` on the post-job form. */
  function WithJobField(f: JobForm, n: JobField, v: string): (r: JobForm)
    ensures GetJobField(r, n) == v
    ensures forall m :: m != n ==> GetJobField(r, m) == GetJobField(f, m)
  {
    match n
    case Title => f.(title := v)
    case Description => f.(description := v)
    case Requirements => f.(requirements := v)
    case Location => f.(location := v)
    case JobType => f.(job_type := v)
    case SalaryRange => f.(salary_range := v)
  }

  function GetCompanyField(f: CompanyDetails, n: CompanyField): string
  {
    match n
    case GstNumber => f.gst_number
    case CinNumber => f.cin_number
    case Website => f.website
    case About => f.description
    case Place => f.location
    case Phone => f.phone
  }

  /** `{ ...prev, [name]: value }` on the profile form. */
  function WithCompanyField(f: CompanyDetails, n: CompanyField, v: string): (r: CompanyDetails)
    ensures GetCompanyField(r, n) == v
    ensures forall m :: m != n ==> GetCompanyField(r, m) == GetCompanyField(f, m)
  {
    match n
    case GstNumber => f.(gst_number := v)
    case CinNumber => f.(cin_number := v)
    case Website => f.(website := v)
    case About => f.(description := v)
    case Place => f.(location := v)
    case Phone => f.(phone := v)
  }

  /** A form is determined by its fields: writing a field's own value changes nothing, and a later write of a field wins. */
  lemma FieldWriteLaws(f: JobForm, g: CompanyDetails, n: JobField, m: CompanyField, v: string, w: string)
    ensures WithJobField(f, n, GetJobField(f, n)) == f
    ensures WithJobField(WithJobField(f, n, v), n, w) == WithJobField(f, n, w)
    ensures WithCompanyField(g, m, GetCompanyField(g, m)) == g
    ensures WithCompanyField(WithCompanyField(g, m, v), m, w) == WithCompanyField(g, m, w)
  {
  }

  /** `{ ...jobData, company_id: user.id, status: 'active' }`: the company and the status never come from the form. */
  function JobPayload(f: JobForm, userId: Id): (p: NewJob)
    ensures p.company_id == userId && p.status == Active
    ensures p.title == f.title && p.description == f.description && p.requirements == f.requirements
    ensures p.location == f.location && p.job_type == f.job_type && p.salary_range == f.salary_range
  {
    NewJob(userId, f.title, f.description, f.requirements, f.location, f.job_type, f.salary_range, Active)
  }

  /** The profile form filled from a company row; a missing column shows as the empty string. */
  function FormOfCompany(c: Company): (f: CompanyDetails)
    ensures f.gst_number == OrEmpty(c.gst_number) && f.cin_number == OrEmpty(c.cin_number)
    ensures f.website == OrEmpty(c.website) && f.description == OrEmpty(c.description)
    ensures f.location == OrEmpty(c.location) && f.phone == OrEmpty(c.phone)
  {
    CompanyDetails(OrEmpty(c.gst_number), OrEmpty(c.cin_number), OrEmpty(c.website),
                   OrEmpty(c.description), OrEmpty(c.location), OrEmpty(c.phone))
  }

  /** Saving the profile form and loading the row back shows the same form; a row with every column present is restored by its own form. */
  lemma CompanyFormRoundTrip(c: Company, d: CompanyDetails)
    ensures FormOfCompany(WithCompanyDetails(c, d)) == d
    ensures (c.gst_number.Some? && c.cin_number.Some? && c.website.Some? && c.description.Some?
             && c.location.Some? && c.phone.Some?) ==> WithCompanyDetails(c, FormOfCompany(c)) == c
  {
  }

  /** The status targets of the Shortlist and Reject buttons of an applicant card. */
  function StatusTargets(a: Application): (r: set<AppStatus>)
    ensures Shortlisted in r && AppStatus.Rejected in r && AppStatus.Pending !in r
  {
    {Shortlisted, AppStatus.Rejected}
  }

  /** The buttons do not depend on the application's current status. */
  lemma TargetsIgnoreStatus(a: Application, b: Application)
    ensures StatusTargets(a) == StatusTargets(b)
  {
  }

  /** An application status change a company can make through the page. */
  predicate AppUiTransition(a: Application, to: AppStatus)
  {
    to in StatusTargets(a)
  }

  /**
    No application status is terminal: whatever the current status, the page
    offers a different one, and the only status never offered is pending.
  */
  lemma NoTerminalApplicationStatus(a: Application)
    ensures exists to :: AppUiTransition(a, to) && to != a.status
    ensures forall to :: AppUiTransition(a, to) <==> to != AppStatus.Pending
  {
    if a.status == Shortlisted {
      assert AppUiTransition(a, AppStatus.Rejected);
    } else {
      assert AppUiTransition(a, Shortlisted);
    }
  }

  /** The company a row with that id in a table becomes after the details are written. */
  lemma RereadAfterUpdate(old_: seq<Company>, id: Id, d: CompanyDetails, c: Company)
    requires c in SetCompanyDetails(old_, id, d) && c.id == id
    ensures FormOfCompany(c) == d
  {
    var r := SetCompanyDetails(old_, id, d);
    var i :| 0 <= i < |r| && r[i] == c;
    CompanyFormRoundTrip(old_[i], d);
  }

  class CompanyDashboard {
    /** The signed-in company's profile id. */
    const userId: Id
    var profile: Option<Company>
    var jobs: seq<Job>
    var selectedJob: Option<Id>
    var applicants: seq<Application>
    var loading: bool
    var profileData: CompanyDetails
    var jobData: JobForm

    /** The page before its first load. */
    constructor (userId: Id)
      ensures this.userId == userId
      ensures profile == None && jobs == [] && selectedJob == None && applicants == [] && loading
      ensures profileData == EmptyCompanyForm && jobData == EmptyJobForm
    {
      this.userId := userId;
      profile, jobs, selectedJob, applicants, loading := None, [], None, [], true;
      profileData, jobData := EmptyCompanyForm, EmptyJobForm;
    }

    /** The post-job form is rendered, once the page has loaded, only for an approved company; otherwise a notice is. */
    predicate PostJobFormShown()
      reads this
    {
      !loading && profile.Some? && profile.value.verification_status == Approved
    }

    /**
      The page after a `loadData` of `db` from a page that showed the profile
      `p`, the form `pd` and the jobs `js`: the company's row and its form when
      the profile request succeeds and finds the row, the company's jobs when
      the jobs request succeeds, and the old values otherwise.
    */
    predicate Reloaded(db: Store, profileFails: bool, jobsFails: bool,
                       p: Option<Company>, pd: CompanyDetails, js: seq<Job>)
      reads this, db
    {
      && (if !profileFails && exists c :: c in db.companies && c.id == userId
          then profile.Some? && profile.value in db.companies && profile.value.id == userId
               && profileData == FormOfCompany(profile.value)
          else profile == p && profileData == pd)
      && jobs == (if jobsFails then js else JobsOfCompany(db.jobs, userId))
      && !loading
    }

    /**
      `loadData`: the company's row fills the profile and its form; the jobs
      list is every job of the company. A request that fails, or a profile
      with no row, leaves that part of the page as it was.
    */
    method LoadData(db: Store, profileFails: bool, jobsFails: bool)
      requires db.Valid()
      modifies this
      ensures Reloaded(db, profileFails, jobsFails, old(profile), old(profileData), old(jobs))
      ensures selectedJob == old(selectedJob) && applicants == old(applicants) && jobData == old(jobData)
    {
      loading := true;
      var res := CompanyById(db.companies, userId);
      assert res.Ok?;
      if !profileFails && res.value.Some? {
        profile := res.value;
        profileData := FormOfCompany(res.value.value);
      }
      if !jobsFails {
        jobs := JobsOfCompany(db.jobs, userId);
      }
      loading := false;
    }

    /** `handleInputChange` on the profile form. */
    method HandleCompanyInput(n: CompanyField, v: string)
      modifies this
      ensures profileData == WithCompanyField(old(profileData), n, v)
      ensures profile == old(profile) && jobs == old(jobs) && selectedJob == old(selectedJob)
      ensures applicants == old(applicants) && loading == old(loading) && jobData == old(jobData)
    {
      profileData := WithCompanyField(profileData, n, v);
    }

    /** `handleInputChange` on the post-job form. */
    method HandleJobInput(n: JobField, v: string)
      modifies this
      ensures jobData == WithJobField(old(jobData), n, v)
      ensures profile == old(profile) && jobs == old(jobs) && selectedJob == old(selectedJob)
      ensures applicants == old(applicants) && loading == old(loading) && profileData == old(profileData)
    {
      jobData := WithJobField(jobData, n, v);
    }

    /**
      `handleProfileUpdate`: sends the six form fields, never the verification
      status; on success the page reloads, and the reloaded form is the form
      that was sent.
    */
    method HandleProfileUpdate(db: Store, fails: bool, profileFails: bool, jobsFails: bool) returns (ok: bool)
      requires db.Valid()
      modifies this, db
      ensures db.Valid()
      ensures db.jobs == old(db.jobs) && db.applications == old(db.applications) && db.students == old(db.students)
      ensures db.nextId == old(db.nextId)
      ensures db.companies == if fails then old(db.companies) else SetCompanyDetails(old(db.companies), userId, old(profileData))
      ensures |db.companies| == |old(db.companies)|
      ensures forall i :: 0 <= i < |db.companies| ==>
                db.companies[i].verification_status == old(db.companies)[i].verification_status
      ensures ok <==> !fails && exists c :: c in old(db.companies) && c.id == userId
      ensures ok ==> Reloaded(db, profileFails, jobsFails, old(profile), old(profileData), old(jobs))
      ensures ok && !profileFails ==> profile.Some? && profile.value in db.companies && profile.value.id == userId
      ensures profileData == old(profileData)
      ensures !ok ==> profile == old(profile) && jobs == old(jobs) && loading == old(loading)
      ensures selectedJob == old(selectedJob) && applicants == old(applicants) && jobData == old(jobData)
    {
      var sent := profileData;
      var r := db.UpdateCompany(userId, sent, fails);
      ok := r.Ok?;
      if ok {
        LoadData(db, profileFails, jobsFails);
        if !profileFails {
          assert r.value in db.companies;
          RereadAfterUpdate(old(db.companies), userId, sent, profile.value);
        }
      }
    }

    /**
      `handleJobCreate`: posts the form as a new active job of this company,
      with no check of the verification status; on success the form resets
      and the page reloads, on error the page is kept.
    */
    method HandleJobCreate(db: Store, now: int, fails: bool, profileFails: bool, jobsFails: bool)
      returns (r: Result<Job>)
      requires db.Valid()
      modifies this, db
      ensures db.Valid()
      ensures db.applications == old(db.applications) && db.students == old(db.students)
      ensures db.companies == old(db.companies)
      ensures fails ==> r.Err? && db.jobs == old(db.jobs) && db.nextId == old(db.nextId)
      ensures fails ==> profile == old(profile) && jobs == old(jobs) && loading == old(loading)
      ensures fails ==> profileData == old(profileData) && jobData == old(jobData)
      ensures !fails ==> r.Ok? && db.jobs == old(db.jobs) + [r.value] && db.nextId == old(db.nextId) + 1
      ensures r.Ok? ==> r.value == Job(old(db.nextId), userId, old(jobData).title, old(jobData).description,
                                       old(jobData).requirements, old(jobData).location, old(jobData).job_type,
                                       old(jobData).salary_range, Active, now)
      ensures r.Ok? ==> jobData == EmptyJobForm
      ensures r.Ok? ==> Reloaded(db, profileFails, jobsFails, old(profile), old(profileData), old(jobs))
      ensures r.Ok? && !jobsFails ==> r.value in jobs
      ensures selectedJob == old(selectedJob) && applicants == old(applicants)
    {
      r := db.CreateJob(JobPayload(jobData, userId), now, fails);
      if r.Ok? {
        jobData := EmptyJobForm;
        LoadData(db, profileFails, jobsFails);
        assert r.value in db.jobs;
      }
    }

    /**
      A submit from the post-job tab. The browser submits only with a title,
      a description and a location typed (the inputs are `required`), and the
      form exists only for an approved company, so for any other company (or
      none loaded) nothing is created and nothing changes.
    */
    method SubmitPostJob(db: Store, now: int, fails: bool, profileFails: bool, jobsFails: bool)
      returns (created: bool)
      requires db.Valid()
      requires jobData.title != "" && jobData.description != "" && jobData.location != ""
      modifies this, db
      ensures db.Valid()
      ensures created <==> old(PostJobFormShown()) && !fails
      ensures db.applications == old(db.applications) && db.students == old(db.students)
      ensures db.companies == old(db.companies)
      ensures !created ==> db.jobs == old(db.jobs) && db.nextId == old(db.nextId) && jobData == old(jobData)
      ensures !created ==> profile == old(profile) && jobs == old(jobs) && loading == old(loading)
      ensures !created ==> profileData == old(profileData)
      ensures created ==> |db.jobs| == |old(db.jobs)| + 1 && db.jobs[..|old(db.jobs)|] == old(db.jobs)
      ensures created ==> db.jobs[|old(db.jobs)|] == Job(old(db.nextId), userId, old(jobData).title,
                                                         old(jobData).description, old(jobData).requirements,
                                                         old(jobData).location, old(jobData).job_type,
                                                         old(jobData).salary_range, Active, now)
      ensures created ==> db.nextId == old(db.nextId) + 1 && jobData == EmptyJobForm
      ensures created ==> Reloaded(db, profileFails, jobsFails, old(profile), old(profileData), old(jobs))
      ensures selectedJob == old(selectedJob) && applicants == old(applicants)
    {
      created := false;
      if PostJobFormShown() {
        var r := HandleJobCreate(db, now, fails, profileFails, jobsFails);
        created := r.Ok?;
        if created {
          assert db.jobs[..|old(db.jobs)|] == old(db.jobs);
        }
      }
    }

    /** `loadApplicants`: selects the job first, then lists its applications; a failed request keeps the old list. */
    method LoadApplicants(db: Store, jobId: Id, fails: bool)
      modifies this
      ensures selectedJob == Some(jobId)
      ensures applicants == if fails then old(applicants) else ApplicationsForJob(db.applications, jobId)
      ensures profile == old(profile) && jobs == old(jobs) && profileData == old(profileData)
      ensures jobData == old(jobData) && loading == old(loading)
    {
      selectedJob := Some(jobId);
      if !fails {
        applicants := ApplicationsForJob(db.applications, jobId);
      }
    }

    /**
      `handleStatusUpdate`: writes any status, whatever the current one; on
      success the applicants of the selected job are listed again.
    */
    method HandleStatusUpdate(db: Store, appId: Id, status: AppStatus, fails: bool, reloadFails: bool)
      returns (ok: bool)
      requires db.Valid()
      modifies this, db
      ensures db.Valid()
      ensures db.jobs == old(db.jobs) && db.students == old(db.students) && db.companies == old(db.companies)
      ensures db.nextId == old(db.nextId)
      ensures db.applications == if fails then old(db.applications) else SetApplicationStatus(old(db.applications), appId, status)
      ensures ok <==> !fails && exists a :: a in old(db.applications) && a.id == appId
      ensures selectedJob == old(selectedJob)
      ensures ok && selectedJob.Some? && !reloadFails ==> applicants == ApplicationsForJob(db.applications, selectedJob.value)
      ensures !ok || selectedJob.None? || reloadFails ==> applicants == old(applicants)
      ensures profile == old(profile) && jobs == old(jobs) && profileData == old(profileData)
      ensures jobData == old(jobData) && loading == old(loading)
    {
      var r := db.UpdateStatus(appId, status, fails);
      ok := r.Ok?;
      if ok && selectedJob.Some? {
        LoadApplicants(db, selectedJob.value, reloadFails);
      }
    }
  }
}
