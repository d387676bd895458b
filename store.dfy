/**
  The query layer (`jobsAPI`, `applicationsAPI`, `studentsAPI`, `companiesAPI`)
  over an abstract copy of the hosted database: four tables held in memory.
  Every read is an equality filter followed by a descending-timestamp order;
  every write overwrites columns of the row with the matching id, inserts one
  row, or deletes the matching rows.
*/
module Store {
  import opened Common
  import opened Tables

  type Id = nat

  datatype JobStatus = Active | Closed
  datatype Verification = Pending | Approved | Rejected
  datatype AppStatus = Pending | Shortlisted | Rejected

  /** A row of `jobs`. Timestamps are opaque integers, used only for ordering. */
  datatype Job = Job(
    id: Id, company_id: Id, title: string, description: string, requirements: string,
    location: string, job_type: string, salary_range: string, status: JobStatus, created_at: int)

  /** What a client inserts into `jobs`; the database supplies `id` and `created_at`. */
  datatype NewJob = NewJob(
    company_id: Id, title: string, description: string, requirements: string,
    location: string, job_type: string, salary_range: string, status: JobStatus)

  /** The columns a job update may set; an absent column keeps its value. */
  datatype JobPatch = JobPatch(
    title: Option<string>, description: Option<string>, requirements: Option<string>,
    location: Option<string>, job_type: Option<string>, salary_range: Option<string>,
    status: Option<JobStatus>)

  /** A row of `applications`. */
  datatype Application = Application(
    id: Id, job_id: Id, student_id: Id, cover_letter: string, status: AppStatus, applied_at: int)

  /** What a client inserts into `applications`; the database supplies `id` and `applied_at`. */
  datatype NewApplication = NewApplication(job_id: Id, student_id: Id, cover_letter: string, status: AppStatus)

  /** A row of `students`; its id is the owner's profile id. Nullable columns are options. */
  datatype Student = Student(
    id: Id, degree: Option<string>, skills: Option<seq<string>>, phone: Option<string>,
    bio: Option<string>, resume_url: Option<string>)

  /** The columns the student dashboard writes. */
  datatype StudentDetails = StudentDetails(degree: string, skills: seq<string>, phone: string, bio: string)

  /** A row of `companies`; its id is the owner's profile id. */
  datatype Company = Company(
    id: Id, company_name: string, gst_number: Option<string>, cin_number: Option<string>,
    website: Option<string>, description: Option<string>, location: Option<string>,
    phone: Option<string>, verification_status: Verification, created_at: int)

  /** The columns the company dashboard writes: never `verification_status`. */
  datatype CompanyDetails = CompanyDetails(
    gst_number: string, cin_number: string, website: string, description: string,
    location: string, phone: string)

  // Primary keys and ordering columns, as function values for the generic table operations.
  function JobKey(j: Job): Id { j.id }
  function ApplicationKey(a: Application): Id { a.id }
  function StudentKey(s: Student): Id { s.id }
  function CompanyKey(c: Company): Id { c.id }
  function JobCreatedAt(j: Job): int { j.created_at }
  function AppliedAt(a: Application): int { a.applied_at }
  function CompanyCreatedAt(c: Company): int { c.created_at }

  // The equality conditions of the queries.
  predicate IsActive(j: Job) { j.status == Active }
  function HasJobId(id: Id): Job -> bool { (j: Job) => j.id == id }
  function LacksJobId(id: Id): Job -> bool { (j: Job) => j.id != id }
  function OfCompany(cid: Id): Job -> bool { (j: Job) => j.company_id == cid }
  function HasApplicationId(id: Id): Application -> bool { (a: Application) => a.id == id }
  function OfStudent(sid: Id): Application -> bool { (a: Application) => a.student_id == sid }
  function ForJob(jid: Id): Application -> bool { (a: Application) => a.job_id == jid }
  function HasStudentId(id: Id): Student -> bool { (s: Student) => s.id == id }
  function HasCompanyId(id: Id): Company -> bool { (c: Company) => c.id == id }

  /** `.maybeSingle()`: no row is no data, one row is that row, more is an error. */
  function MaybeSingle<T>(rows: seq<T>): (r: Result<Option<T>>)
    ensures r.Ok? <==> |rows| <= 1
    ensures r.Ok? && r.value.Some? ==> |rows| == 1 && r.value.value == rows[0]
    ensures r.Ok? && r.value.None? ==> rows == []
  {
    if |rows| == 0 then Ok(None)
    else if |rows| == 1 then Ok(Some(rows[0]))
    else Err(MultipleRows)
  }

  /** `.single()`: exactly one row, or an error. */
  function Single<T>(rows: seq<T>): (r: Result<T>)
    ensures r.Ok? <==> |rows| == 1
    ensures r.Ok? ==> r.value == rows[0]
    ensures rows == [] ==> r == Err(NoRows)
  {
    if |rows| == 1 then Ok(rows[0])
    else if |rows| == 0 then Err(NoRows)
    else Err(MultipleRows)
  }

  // ---------------------------------------------------------------- reads

  /** `jobsAPI.getAll`: the active jobs, newest first. */
  function ActiveJobs(jobs: seq<Job>): (r: seq<Job>)
    ensures SortedDesc(r, JobCreatedAt)
    ensures forall j :: j in r <==> j in jobs && j.status == Active
  {
    SortDesc(Filter(jobs, IsActive), JobCreatedAt)
  }

  /** `jobsAPI.getByCompany`: every job of one company whatever its status, newest first. */
  function JobsOfCompany(jobs: seq<Job>, cid: Id): (r: seq<Job>)
    ensures SortedDesc(r, JobCreatedAt)
    ensures forall j :: j in r <==> j in jobs && j.company_id == cid
  {
    SortDesc(Filter(jobs, OfCompany(cid)), JobCreatedAt)
  }

  /** `jobsAPI.getById`: the job with that id, or no data when there is none. */
  function JobById(jobs: seq<Job>, id: Id): (r: Result<Option<Job>>)
    ensures r.Ok? && r.value.Some? ==> r.value.value in jobs && r.value.value.id == id
    ensures r.Ok? && r.value.None? ==> forall j :: j in jobs ==> j.id != id
    ensures KeysUnique(jobs, JobKey) ==> r.Ok?
  {
    var rows := Filter(jobs, HasJobId(id));
    assert rows != [] ==> rows[0] in rows;
    if KeysUnique(jobs, JobKey) then
      SelectByKeyAtMostOne(jobs, JobKey, HasJobId(id), id);
      MaybeSingle(rows)
    else
      MaybeSingle(rows)
  }

  /** `applicationsAPI.getByStudent`: one student's applications, newest first. */
  function ApplicationsOfStudent(apps: seq<Application>, sid: Id): (r: seq<Application>)
    ensures SortedDesc(r, AppliedAt)
    ensures forall a :: a in r <==> a in apps && a.student_id == sid
  {
    SortDesc(Filter(apps, OfStudent(sid)), AppliedAt)
  }

  /** `applicationsAPI.getByJob`: the applications to one job, newest first. */
  function ApplicationsForJob(apps: seq<Application>, jid: Id): (r: seq<Application>)
    ensures SortedDesc(r, AppliedAt)
    ensures forall a :: a in r <==> a in apps && a.job_id == jid
  {
    SortDesc(Filter(apps, ForJob(jid)), AppliedAt)
  }

  /** `ActiveJobs` returns the active jobs, each as often as the table holds it, and nothing else: a permutation of the selection. */
  lemma ActiveJobsCounts(jobs: seq<Job>)
    ensures forall j :: multiset(ActiveJobs(jobs))[j] == if j.status == Active then multiset(jobs)[j] else 0
  {
    FilterMultiset(jobs, IsActive);
  }

  /** `JobsOfCompany` returns the jobs of one company, each as often as the table holds it, and nothing else: a permutation of the selection. */
  lemma JobsOfCompanyCounts(jobs: seq<Job>, cid: Id)
    ensures forall j :: multiset(JobsOfCompany(jobs, cid))[j] == if j.company_id == cid then multiset(jobs)[j] else 0
  {
    FilterMultiset(jobs, OfCompany(cid));
  }

  /** `ApplicationsOfStudent` returns the applications of one student, each as often as the table holds it, and nothing else: a permutation of the selection. */
  lemma ApplicationsOfStudentCounts(apps: seq<Application>, sid: Id)
    ensures forall a :: multiset(ApplicationsOfStudent(apps, sid))[a] == if a.student_id == sid then multiset(apps)[a] else 0
  {
    FilterMultiset(apps, OfStudent(sid));
  }

  /** `ApplicationsForJob` returns the applications to one job, each as often as the table holds it, and nothing else: a permutation of the selection. */
  lemma ApplicationsForJobCounts(apps: seq<Application>, jid: Id)
    ensures forall a :: multiset(ApplicationsForJob(apps, jid))[a] == if a.job_id == jid then multiset(apps)[a] else 0
  {
    FilterMultiset(apps, ForJob(jid));
  }

  /** `studentsAPI.getProfile`: the student row with that id, or no data. */
  function StudentById(students: seq<Student>, id: Id): (r: Result<Option<Student>>)
    ensures r.Ok? && r.value.Some? ==> r.value.value in students && r.value.value.id == id
    ensures r.Ok? && r.value.None? ==> forall s :: s in students ==> s.id != id
    ensures KeysUnique(students, StudentKey) ==> r.Ok?
  {
    var rows := Filter(students, HasStudentId(id));
    assert rows != [] ==> rows[0] in rows;
    if KeysUnique(students, StudentKey) then
      SelectByKeyAtMostOne(students, StudentKey, HasStudentId(id), id);
      MaybeSingle(rows)
    else
      MaybeSingle(rows)
  }

  /** `companiesAPI.getProfile`: the company row with that id, or no data. */
  function CompanyById(companies: seq<Company>, id: Id): (r: Result<Option<Company>>)
    ensures r.Ok? && r.value.Some? ==> r.value.value in companies && r.value.value.id == id
    ensures r.Ok? && r.value.None? ==> forall c :: c in companies ==> c.id != id
    ensures KeysUnique(companies, CompanyKey) ==> r.Ok?
  {
    var rows := Filter(companies, HasCompanyId(id));
    assert rows != [] ==> rows[0] in rows;
    if KeysUnique(companies, CompanyKey) then
      SelectByKeyAtMostOne(companies, CompanyKey, HasCompanyId(id), id);
      MaybeSingle(rows)
    else
      MaybeSingle(rows)
  }

  /** `companiesAPI.getAll`: every company, newest first. */
  function AllCompanies(companies: seq<Company>): (r: seq<Company>)
    ensures SortedDesc(r, CompanyCreatedAt)
    ensures multiset(r) == multiset(companies)
  {
    SortDesc(companies, CompanyCreatedAt)
  }

  // ---------------------------------------------------------------- row rewrites

  /** A job after an update: the columns the patch carries are overwritten, the rest kept. */
  function Patched(j: Job, p: JobPatch): Job
  {
    j.(title := OptionOr(p.title, j.title),
       description := OptionOr(p.description, j.description),
       requirements := OptionOr(p.requirements, j.requirements),
       location := OptionOr(p.location, j.location),
       job_type := OptionOr(p.job_type, j.job_type),
       salary_range := OptionOr(p.salary_range, j.salary_range),
       status := OptionOr(p.status, j.status))
  }

  function OptionOr<T>(o: Option<T>, default: T): T
  {
    if o.Some? then o.value else default
  }

  /** A patch never touches the key, the owner or the creation time, and applying it twice is applying it once. */
  lemma PatchedKeepsIdentity(j: Job, p: JobPatch)
    ensures Patched(j, p).id == j.id && Patched(j, p).company_id == j.company_id
    ensures Patched(j, p).created_at == j.created_at
    ensures Patched(Patched(j, p), p) == Patched(j, p)
    ensures p == JobPatch(None, None, None, None, None, None, None) ==> Patched(j, p) == j
  {
  }

  /** A company after `companiesAPI.update` with the dashboard's details. */
  function WithCompanyDetails(c: Company, d: CompanyDetails): (r: Company)
    ensures r.id == c.id && r.company_name == c.company_name && r.created_at == c.created_at
    ensures r.verification_status == c.verification_status
  {
    c.(gst_number := Some(d.gst_number), cin_number := Some(d.cin_number),
       website := Some(d.website), description := Some(d.description),
       location := Some(d.location), phone := Some(d.phone))
  }

  /** A student after `studentsAPI.update` with the dashboard's details. */
  function WithStudentDetails(s: Student, d: StudentDetails): (r: Student)
    ensures r.id == s.id && r.resume_url == s.resume_url
  {
    s.(degree := Some(d.degree), skills := Some(d.skills), phone := Some(d.phone), bio := Some(d.bio))
  }

  // ---------------------------------------------------------------- table rewrites

  /** `jobs.update(patch).eq('id', id)` */
  function PatchJobs(jobs: seq<Job>, id: Id, p: JobPatch): (r: seq<Job>)
    ensures |r| == |jobs|
    ensures forall i :: 0 <= i < |jobs| && jobs[i].id == id ==> r[i] == Patched(jobs[i], p)
    ensures forall i :: 0 <= i < |jobs| && jobs[i].id != id ==> r[i] == jobs[i]
  {
    UpdateWhere(jobs, HasJobId(id), (j: Job) => Patched(j, p))
  }

  /** `applications.update({ status }).eq('id', id)`: only the status column of the matching row. */
  function SetApplicationStatus(apps: seq<Application>, id: Id, status: AppStatus): (r: seq<Application>)
    ensures |r| == |apps|
    ensures forall i :: 0 <= i < |apps| && apps[i].id == id ==> r[i] == apps[i].(status := status)
    ensures forall i :: 0 <= i < |apps| && apps[i].id != id ==> r[i] == apps[i]
  {
    UpdateWhere(apps, HasApplicationId(id), (a: Application) => a.(status := status))
  }

  /** `students.update(details).eq('id', id)` */
  function SetStudentDetails(students: seq<Student>, id: Id, d: StudentDetails): (r: seq<Student>)
    ensures |r| == |students|
    ensures forall i :: 0 <= i < |students| && students[i].id == id ==> r[i] == WithStudentDetails(students[i], d)
    ensures forall i :: 0 <= i < |students| && students[i].id != id ==> r[i] == students[i]
  {
    UpdateWhere(students, HasStudentId(id), (s: Student) => WithStudentDetails(s, d))
  }

  /** `companies.update(details).eq('id', id)` */
  function SetCompanyDetails(companies: seq<Company>, id: Id, d: CompanyDetails): (r: seq<Company>)
    ensures |r| == |companies|
    ensures forall i :: 0 <= i < |companies| && companies[i].id == id ==> r[i] == WithCompanyDetails(companies[i], d)
    ensures forall i :: 0 <= i < |companies| && companies[i].id != id ==> r[i] == companies[i]
  {
    UpdateWhere(companies, HasCompanyId(id), (c: Company) => WithCompanyDetails(c, d))
  }

  /** `companies.update({ verification_status }).eq('id', id)`: any status value is accepted. */
  function SetVerification(companies: seq<Company>, id: Id, v: Verification): (r: seq<Company>)
    ensures |r| == |companies|
    ensures forall i :: 0 <= i < |companies| && companies[i].id == id ==> r[i] == companies[i].(verification_status := v)
    ensures forall i :: 0 <= i < |companies| && companies[i].id != id ==> r[i] == companies[i]
  {
    UpdateWhere(companies, HasCompanyId(id), (c: Company) => c.(verification_status := v))
  }

  /** `jobs.delete().eq('id', id)`: the rows with that id go, every other row stays in order. */
  function DeleteJobRows(jobs: seq<Job>, id: Id): (r: seq<Job>)
    ensures forall j :: j in r <==> j in jobs && j.id != id
    ensures forall j: Job :: j.id != id ==> multiset(r)[j] == multiset(jobs)[j]
  {
    FilterMultiset(jobs, LacksJobId(id));
    Filter(jobs, LacksJobId(id))
  }

  /** Deleting by primary key removes exactly one row when the id is present, none otherwise. */
  lemma DeleteJobRowsCount(jobs: seq<Job>, id: Id)
    requires KeysUnique(jobs, JobKey)
    ensures |DeleteJobRows(jobs, id)| == if exists j :: j in jobs && j.id == id then |jobs| - 1 else |jobs|
  {
    DeleteByKey(jobs, JobKey, id, LacksJobId(id));
  }

  /** Inserting an application never looks at the rows already there: a pair already present is present once more. */
  lemma InsertAddsOnePair(apps: seq<Application>, row: Application)
    ensures |Filter(apps + [row], ForPair(row.job_id, row.student_id))|
         == |Filter(apps, ForPair(row.job_id, row.student_id))| + 1
  {
    FilterAppend(apps, [row], ForPair(row.job_id, row.student_id));
  }

  function ForPair(jid: Id, sid: Id): Application -> bool
  {
    (a: Application) => a.job_id == jid && a.student_id == sid
  }

  // ---------------------------------------------------------------- the store

  /** The four tables of the hosted database, and the generator of fresh row ids. */
  class Store {
    var jobs: seq<Job>
    var applications: seq<Application>
    var students: seq<Student>
    var companies: seq<Company>
    /** The next id the database gives an inserted job or application. */
    var nextId: nat

    /** Primary keys are unique, and every generated id is below the generator. */
    ghost predicate Valid()
      reads this
    {
      && KeysUnique(jobs, JobKey)
      && KeysUnique(applications, ApplicationKey)
      && KeysUnique(students, StudentKey)
      && KeysUnique(companies, CompanyKey)
      && (forall j :: j in jobs ==> j.id < nextId)
      && (forall a :: a in applications ==> a.id < nextId)
    }

    /** A database holding the given student and company rows (created at sign-up) and no jobs or applications. */
    constructor (students0: seq<Student>, companies0: seq<Company>)
      requires KeysUnique(students0, StudentKey) && KeysUnique(companies0, CompanyKey)
      ensures Valid()
      ensures jobs == [] && applications == [] && students == students0 && companies == companies0
    {
      jobs, applications := [], [];
      students, companies := students0, companies0;
      nextId := 0;
    }

    /** `jobsAPI.create`: inserts one row and returns it; nothing is checked about the company. */
    method CreateJob(payload: NewJob, now: int, fails: bool) returns (r: Result<Job>)
      requires Valid()
      modifies this
      ensures Valid()
      ensures applications == old(applications) && students == old(students) && companies == old(companies)
      ensures fails ==> r == Err(BackendError) && jobs == old(jobs) && nextId == old(nextId)
      ensures !fails ==> r.Ok? && jobs == old(jobs) + [r.value] && nextId == old(nextId) + 1
      ensures r.Ok? ==> r.value == Job(old(nextId), payload.company_id, payload.title, payload.description,
                                       payload.requirements, payload.location, payload.job_type,
                                       payload.salary_range, payload.status, now)
    {
      if fails {
        return Err(BackendError);
      }
      var row := Job(nextId, payload.company_id, payload.title, payload.description, payload.requirements,
                     payload.location, payload.job_type, payload.salary_range, payload.status, now);
      jobs := jobs + [row];
      nextId := nextId + 1;
      r := Ok(row);
    }

    /** `jobsAPI.update`: overwrites the patched columns of the job with that id and returns it. */
    method UpdateJob(id: Id, patch: JobPatch, fails: bool) returns (r: Result<Job>)
      requires Valid()
      modifies this
      ensures Valid()
      ensures applications == old(applications) && students == old(students) && companies == old(companies)
      ensures nextId == old(nextId)
      ensures fails ==> r == Err(BackendError) && jobs == old(jobs)
      ensures !fails ==> jobs == PatchJobs(old(jobs), id, patch)
      ensures !fails ==> (r.Ok? <==> exists j :: j in old(jobs) && j.id == id)
      ensures !fails && r.Err? ==> r.error == NoRows
      ensures r.Ok? ==> r.value in jobs && r.value.id == id
      ensures r.Ok? ==> exists j :: j in old(jobs) && j.id == id && r.value == Patched(j, patch)
    {
      if fails {
        return Err(BackendError);
      }
      UpdateByKey(jobs, JobKey, id, HasJobId(id), (j: Job) => Patched(j, patch));
      jobs := PatchJobs(jobs, id, patch);
      r := Single(Filter(jobs, HasJobId(id)));
    }

    /** `jobsAPI.delete`: removes the job with that id and no other row. */
    method DeleteJob(id: Id, fails: bool) returns (r: Result<()>)
      requires Valid()
      modifies this
      ensures Valid()
      ensures applications == old(applications) && students == old(students) && companies == old(companies)
      ensures nextId == old(nextId)
      ensures fails ==> r == Err(BackendError) && jobs == old(jobs)
      ensures !fails ==> r == Ok(()) && jobs == DeleteJobRows(old(jobs), id)
    {
      if fails {
        return Err(BackendError);
      }
      var rest := DeleteJobRows(jobs, id);
      assert Filter(jobs, LacksJobId(id)) == rest;
      FilterKeepsKeys(jobs, JobKey, LacksJobId(id));
      jobs := rest;
      r := Ok(());
    }

    /** `applicationsAPI.create`: inserts exactly one row and returns it, with no check for an existing (job, student) pair. */
    method CreateApplication(payload: NewApplication, now: int, fails: bool) returns (r: Result<Application>)
      requires Valid()
      modifies this
      ensures Valid()
      ensures jobs == old(jobs) && students == old(students) && companies == old(companies)
      ensures fails ==> r == Err(BackendError) && applications == old(applications) && nextId == old(nextId)
      ensures !fails ==> r.Ok? && applications == old(applications) + [r.value] && nextId == old(nextId) + 1
      ensures r.Ok? ==> r.value == Application(old(nextId), payload.job_id, payload.student_id,
                                               payload.cover_letter, payload.status, now)
    {
      if fails {
        return Err(BackendError);
      }
      var row := Application(nextId, payload.job_id, payload.student_id, payload.cover_letter, payload.status, now);
      applications := applications + [row];
      nextId := nextId + 1;
      r := Ok(row);
    }

    /** `applicationsAPI.updateStatus`: changes only the status of the application with that id, whatever it was. */
    method UpdateStatus(id: Id, status: AppStatus, fails: bool) returns (r: Result<Application>)
      requires Valid()
      modifies this
      ensures Valid()
      ensures jobs == old(jobs) && students == old(students) && companies == old(companies)
      ensures nextId == old(nextId)
      ensures fails ==> r == Err(BackendError) && applications == old(applications)
      ensures !fails ==> applications == SetApplicationStatus(old(applications), id, status)
      ensures !fails ==> (r.Ok? <==> exists a :: a in old(applications) && a.id == id)
      ensures !fails && r.Err? ==> r.error == NoRows
      ensures r.Ok? ==> r.value in applications && r.value.id == id
      ensures r.Ok? ==> exists a :: a in old(applications) && a.id == id && r.value == a.(status := status)
    {
      if fails {
        return Err(BackendError);
      }
      UpdateByKey(applications, ApplicationKey, id, HasApplicationId(id), (a: Application) => a.(status := status));
      applications := SetApplicationStatus(applications, id, status);
      r := Single(Filter(applications, HasApplicationId(id)));
    }

    /** `studentsAPI.update` with the dashboard's details. */
    method UpdateStudent(id: Id, d: StudentDetails, fails: bool) returns (r: Result<Student>)
      requires Valid()
      modifies this
      ensures Valid()
      ensures jobs == old(jobs) && applications == old(applications) && companies == old(companies)
      ensures nextId == old(nextId)
      ensures fails ==> r == Err(BackendError) && students == old(students)
      ensures !fails ==> students == SetStudentDetails(old(students), id, d)
      ensures !fails ==> (r.Ok? <==> exists s :: s in old(students) && s.id == id)
      ensures !fails && r.Err? ==> r.error == NoRows
      ensures r.Ok? ==> r.value in students && r.value.id == id
      ensures r.Ok? ==> exists s :: s in old(students) && s.id == id && r.value == WithStudentDetails(s, d)
    {
      if fails {
        return Err(BackendError);
      }
      UpdateByKey(students, StudentKey, id, HasStudentId(id), (s: Student) => WithStudentDetails(s, d));
      students := SetStudentDetails(students, id, d);
      r := Single(Filter(students, HasStudentId(id)));
    }

    /** `companiesAPI.update` with the dashboard's details: the verification status is not written. */
    method UpdateCompany(id: Id, d: CompanyDetails, fails: bool) returns (r: Result<Company>)
      requires Valid()
      modifies this
      ensures Valid()
      ensures jobs == old(jobs) && applications == old(applications) && students == old(students)
      ensures nextId == old(nextId)
      ensures fails ==> r == Err(BackendError) && companies == old(companies)
      ensures !fails ==> companies == SetCompanyDetails(old(companies), id, d)
      ensures !fails ==> (r.Ok? <==> exists c :: c in old(companies) && c.id == id)
      ensures !fails && r.Err? ==> r.error == NoRows
      ensures r.Ok? ==> r.value in companies && r.value.id == id
      ensures r.Ok? ==> exists c :: c in old(companies) && c.id == id && r.value == WithCompanyDetails(c, d)
    {
      if fails {
        return Err(BackendError);
      }
      UpdateByKey(companies, CompanyKey, id, HasCompanyId(id), (c: Company) => WithCompanyDetails(c, d));
      companies := SetCompanyDetails(companies, id, d);
      r := Single(Filter(companies, HasCompanyId(id)));
    }

    /** `companiesAPI.updateVerification`: changes only the verification status, to any value, from any value. */
    method UpdateVerification(id: Id, v: Verification, fails: bool) returns (r: Result<Company>)
      requires Valid()
      modifies this
      ensures Valid()
      ensures jobs == old(jobs) && applications == old(applications) && students == old(students)
      ensures nextId == old(nextId)
      ensures fails ==> r == Err(BackendError) && companies == old(companies)
      ensures !fails ==> companies == SetVerification(old(companies), id, v)
      ensures !fails ==> (r.Ok? <==> exists c :: c in old(companies) && c.id == id)
      ensures !fails && r.Err? ==> r.error == NoRows
      ensures r.Ok? ==> r.value in companies && r.value.id == id
      ensures r.Ok? ==> exists c :: c in old(companies) && c.id == id && r.value == c.(verification_status := v)
    {
      if fails {
        return Err(BackendError);
      }
      UpdateByKey(companies, CompanyKey, id, HasCompanyId(id), (c: Company) => c.(verification_status := v));
      companies := SetVerification(companies, id, v);
      r := Single(Filter(companies, HasCompanyId(id)));
    }
  }
}
