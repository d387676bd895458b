/**
  The student dashboard: the profile form (skills typed as one
  comma-separated string), the active jobs, and the student's own
  applications.
*/
module StudentDashboard {
  import opened Common
  import opened Tables
  import opened Store
  import opened Skills

  /** The profile form; `skills` is the text of the skills input. */
  datatype StudentForm = StudentForm(degree: string, skills: string, phone: string, bio: string)

  /** The `name` attributes of the profile inputs. */
  datatype StudentField = Degree | SkillsText | Phone | Bio

  const EmptyStudentForm: StudentForm := StudentForm("", "", "", "")

  function GetStudentField(f: StudentForm, n: StudentField): string
  {
    match n
    case Degree => f.degree
    case SkillsText => f.skills
    case Phone => f.phone
    case Bio => f.bio
  }

  /** `{ ...profileData, [name]: value }` */
  function WithStudentField(f: StudentForm, n: StudentField, v: string): (r: StudentForm)
    ensures GetStudentField(r, n) == v
    ensures forall m :: m != n ==> GetStudentField(r, m) == GetStudentField(f, m)
  {
    match n
    case Degree => f.(degree := v)
    case SkillsText => f.(skills := v)
    case Phone => f.(phone := v)
    case Bio => f.(bio := v)
  }

  /** Writing a field's own value changes nothing, and a later write of a field wins. */
  lemma StudentFieldWriteLaws(f: StudentForm, n: StudentField, v: string, w: string)
    ensures WithStudentField(f, n, GetStudentField(f, n)) == f
    ensures WithStudentField(WithStudentField(f, n, v), n, w) == WithStudentField(f, n, w)
  {
  }

  /** The form filled from a student row: missing columns show as empty, the skills list is joined. */
  function FormOfStudent(s: Student): (f: StudentForm)
    ensures f.degree == OrEmpty(s.degree) && f.phone == OrEmpty(s.phone) && f.bio == OrEmpty(s.bio)
    ensures f.skills == FormatSkills(s.skills)
  {
    StudentForm(OrEmpty(s.degree), FormatSkills(s.skills), OrEmpty(s.phone), OrEmpty(s.bio))
  }

  /** The update payload: the three text fields as typed and the parsed skills, nothing else. */
  function DetailsOf(f: StudentForm): (d: StudentDetails)
    ensures d.degree == f.degree && d.phone == f.phone && d.bio == f.bio
    ensures d.skills == ParseSkills(f.skills)
  {
    StudentDetails(f.degree, ParseSkills(f.skills), f.phone, f.bio)
  }

  /**
    Saving the form and loading the row back keeps the text fields and the
    parsed skills: the skills text may be rewritten (", " between items, no
    empty items), but it parses to the same list.
  */
  lemma StudentFormRoundTrip(s: Student, f: StudentForm)
    ensures FormOfStudent(WithStudentDetails(s, DetailsOf(f))).degree == f.degree
    ensures FormOfStudent(WithStudentDetails(s, DetailsOf(f))).phone == f.phone
    ensures FormOfStudent(WithStudentDetails(s, DetailsOf(f))).bio == f.bio
    ensures ParseSkills(FormOfStudent(WithStudentDetails(s, DetailsOf(f))).skills) == ParseSkills(f.skills)
    ensures DetailsOf(FormOfStudent(WithStudentDetails(s, DetailsOf(f)))) == DetailsOf(f)
  {
    ParseIsStable(f.skills);
  }

  /** The row with the user's id, after the details are written, loads into a form equivalent to the one sent. */
  lemma RereadAfterUpdate(old_: seq<Student>, id: Id, f: StudentForm, s: Student)
    requires s in SetStudentDetails(old_, id, DetailsOf(f)) && s.id == id
    ensures DetailsOf(FormOfStudent(s)) == DetailsOf(f)
  {
    var r := SetStudentDetails(old_, id, DetailsOf(f));
    var i :| 0 <= i < |r| && r[i] == s;
    StudentFormRoundTrip(old_[i], f);
  }

  class StudentDashboard {
    /** The signed-in student's profile id. */
    const userId: Id
    var profile: Option<Student>
    var jobs: seq<Job>
    var applications: seq<Application>
    var loading: bool
    var profileData: StudentForm

    /** The page before its first load. */
    constructor (userId: Id)
      ensures this.userId == userId
      ensures profile == None && jobs == [] && applications == [] && loading
      ensures profileData == EmptyStudentForm
    {
      this.userId := userId;
      profile, jobs, applications, loading := None, [], [], true;
      profileData := EmptyStudentForm;
    }

    /**
      The page after a `loadData` of `db` from a page that showed the profile
      `p`, the form `pd`, the jobs `js` and the applications `apps`: the
      student's row and its form when the profile request succeeds and finds
      the row, every active job and the student's own applications when those
      requests succeed, and the old values otherwise.
    */
    predicate Reloaded(db: Store, profileFails: bool, jobsFail: bool, appsFail: bool,
                       p: Option<Student>, pd: StudentForm, js: seq<Job>, apps: seq<Application>)
      reads this, db
    {
      && (if !profileFails && exists s :: s in db.students && s.id == userId
          then profile.Some? && profile.value in db.students && profile.value.id == userId
               && profileData == FormOfStudent(profile.value)
          else profile == p && profileData == pd)
      && jobs == (if jobsFail then js else ActiveJobs(db.jobs))
      && applications == (if appsFail then apps else ApplicationsOfStudent(db.applications, userId))
      && !loading
    }

    /**
      `loadData`: the student's row fills the profile and its form, the jobs
      list is every active job and the applications are the student's own. A
      request that fails, or a profile with no row, leaves that part as it was.
    */
    method LoadData(db: Store, profileFails: bool, jobsFail: bool, appsFail: bool)
      requires db.Valid()
      modifies this
      ensures Reloaded(db, profileFails, jobsFail, appsFail, old(profile), old(profileData), old(jobs), old(applications))
    {
      loading := true;
      var res := StudentById(db.students, userId);
      assert res.Ok?;
      if !profileFails && res.value.Some? {
        profile := res.value;
        profileData := FormOfStudent(res.value.value);
      }
      if !jobsFail {
        jobs := ActiveJobs(db.jobs);
      }
      if !appsFail {
        applications := ApplicationsOfStudent(db.applications, userId);
      }
      loading := false;
    }

    /** `handleInputChange`: only the named field of the form changes. */
    method HandleInputChange(n: StudentField, v: string)
      modifies this
      ensures profileData == WithStudentField(old(profileData), n, v)
      ensures profile == old(profile) && jobs == old(jobs) && applications == old(applications)
      ensures loading == old(loading)
    {
      profileData := WithStudentField(profileData, n, v);
    }

    /**
      `handleProfileUpdate`: sends the degree, the parsed skills, the phone and
      the bio; on success the page reloads, and the reloaded form is
      equivalent to the one sent.
    */
    method HandleProfileUpdate(db: Store, fails: bool, profileFails: bool, jobsFail: bool, appsFail: bool)
      returns (ok: bool)
      requires db.Valid()
      modifies this, db
      ensures db.Valid()
      ensures db.jobs == old(db.jobs) && db.applications == old(db.applications) && db.companies == old(db.companies)
      ensures db.students == if fails then old(db.students)
                             else SetStudentDetails(old(db.students), userId, DetailsOf(old(profileData)))
      ensures db.nextId == old(db.nextId)
      ensures ok <==> !fails && exists s :: s in old(db.students) && s.id == userId
      ensures ok ==> Reloaded(db, profileFails, jobsFail, appsFail,
                              old(profile), old(profileData), old(jobs), old(applications))
      ensures ok && !profileFails ==> profile.Some? && profile.value in db.students && profile.value.id == userId
      ensures ok && !profileFails ==> DetailsOf(profileData) == DetailsOf(old(profileData))
      ensures !ok ==> profileData == old(profileData) && profile == old(profile) && jobs == old(jobs)
      ensures !ok ==> applications == old(applications) && loading == old(loading)
    {
      var sent := profileData;
      var r := db.UpdateStudent(userId, DetailsOf(sent), fails);
      ok := r.Ok?;
      if ok {
        LoadData(db, profileFails, jobsFail, appsFail);
        if !profileFails {
          assert r.value in db.students;
          RereadAfterUpdate(old(db.students), userId, sent, profile.value);
        }
      }
    }
  }
}
