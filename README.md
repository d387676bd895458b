# GetJobAndGo, modelled in Dafny

GetJobAndGo is a job board for fresh graduates. It is a React front end over a hosted
database with four tables: `jobs`, `applications`, `students` and `companies`. Students keep
a profile and apply to active jobs. Companies keep a profile, post jobs once an
administrator has approved them, and shortlist or reject applicants. An administrator
approves or rejects pending companies. A public page publishes a fixed list of listings as
schema.org `JobPosting` structured data.

This project models the logic of that front end and proves properties of it:

- `tables.dfy` (module `Tables`): the generic table operations every query is built from.
  These are the equality filter (`WHERE`), the stable descending order
  (`ORDER BY ... DESC`), the keyed update and the keyed delete. A table is a sequence of rows.
- `store.dfy` (module `Store`): the query layer in `src/services/api.js`.
  - The row types.
  - The reads (`getAll`, `getById`, `getByCompany`, `getByStudent`, `getByJob`,
    `getProfile`), as pure functions.
  - A `Store` class whose methods are the writes (`create`, `update`, `updateStatus`,
    `updateVerification`, `delete`). They change the tables in place and keep ids unique.
- `skills.dfy` (module `Skills`): the skills codec of the student profile. Parsing splits on
  `','`, trims each piece and drops the empty ones. Formatting joins with `", "`.
- `job_schema.dfy` (module `JobSchema`): the `jobsData` → `JobPosting` mapping of the jobs
  page, and the job-type display rewrite.
- `navbar.dfy` (module `Navbar`): the signed-in and signed-out items of the navigation bar,
  and the role → dashboard route.
- `company_dashboard.dfy`, `admin_dashboard.dfy`, `student_dashboard.dfy` and
  `job_details.dfy`: one class per page. Their fields are the page's state. Their methods
  are the page's handlers, run in sequence against a `Store`.

Requests that can fail take a `fails` flag. On failure the response has an error and no
data. The database clock is a `now` parameter. The ids the database generates come from
the store's `nextId` counter.

## Model

| member | source | states |
|---|---|---|
| Common.OrEmpty | src/pages/company/CompanyDashboard.jsx:44-49 | `x \|\| ''` on a nullable column: the value when present, the empty string when missing |
| Tables.Filter | src/services/api.js:15 | the selection holds exactly the rows of the table that satisfy the condition, and is no longer than the table |
| Tables.FilterAppend | src/services/api.js:131 | selecting from a table with a row appended selects from the old rows, then from the new row |
| Tables.FilterMultiset | src/services/api.js:15 | a selected row occurs as often as in the table; a row that fails the condition never occurs |
| Tables.FilterNone | src/services/api.js:15 | nothing is selected when no row satisfies the condition |
| Tables.SelectByKeyAtMostOne | src/services/api.js:34-35 | under a primary key, a condition on the key selects at most one row |
| Tables.FilterKeepsKeys | src/services/api.js:73-75 | a selection from a table with unique keys still has unique keys |
| Tables.KeysKept | src/services/api.js:63-64 | rewriting rows without touching their keys keeps the keys unique |
| Tables.DeleteByKey | src/services/api.js:73-75 | deleting by primary key removes exactly one row when the key is present, and none otherwise |
| Tables.InsertDesc | src/services/api.js:16 | inserting into a descending table keeps it descending, and the result is the old rows plus the new one, as a multiset |
| Tables.SortDesc | src/services/api.js:16 | the result is ordered by non-increasing key and is a permutation of the input |
| Tables.UpdateWhere | src/services/api.js:63-64 | every matching row is rewritten, every other row is kept, and positions do not move |
| Tables.UpdateByKey | src/services/api.js:63-66 | an update by primary key keeps the keys unique; selecting the key afterwards returns exactly one row, the rewrite of the old row, exactly when the key was present, and no row otherwise |
| Store.MaybeSingle | src/services/api.js:35 | `.maybeSingle()`: no row gives no data, one row gives that row, more rows give an error |
| Store.Single | src/services/api.js:55 | `.single()`: exactly one row gives that row; no row gives a NoRows error |
| Store.ActiveJobs | src/services/api.js:4-16 | `getAll` returns exactly the active jobs, newest first |
| Store.ActiveJobsCounts | src/services/api.js:15-16 | `getAll` is a permutation of the active rows: each as often as in the table |
| Store.JobsOfCompany | src/services/api.js:40-45 | `getByCompany` returns every job of that company, whatever its status, newest first |
| Store.JobsOfCompanyCounts | src/services/api.js:44-45 | `getByCompany` is a permutation of the company's rows |
| Store.JobById | src/services/api.js:21-35 | `getById` returns a job with that id, or no data only when no such job exists; under unique ids it never errs |
| Store.ApplicationsOfStudent | src/services/api.js:82-99 | `getByStudent` returns exactly the student's applications, the most recently applied first |
| Store.ApplicationsOfStudentCounts | src/services/api.js:98-99 | `getByStudent` is a permutation of the student's rows |
| Store.ApplicationsForJob | src/services/api.js:104-123 | `getByJob` returns exactly the applications to that job, the most recently applied first |
| Store.ApplicationsForJobCounts | src/services/api.js:122-123 | `getByJob` is a permutation of the job's rows |
| Store.StudentById | src/services/api.js:151-165 | `studentsAPI.getProfile` returns the row with that id, or no data only when there is none |
| Store.CompanyById | src/services/api.js:180-194 | `companiesAPI.getProfile` returns the row with that id, or no data only when there is none |
| Store.AllCompanies | src/services/api.js:207-220 | `companiesAPI.getAll` returns every company, newest first, as a permutation of the table |
| Store.PatchedKeepsIdentity | src/services/api.js:60-69 | a job update never changes the id, the owner or the creation time; applying it twice is the same as once; an empty patch changes nothing |
| Store.WithCompanyDetails | src/services/api.js:196-205 | a company profile update keeps the id, the name, the creation time and the verification status |
| Store.WithStudentDetails | src/services/api.js:167-176 | a student profile update keeps the id and the résumé |
| Store.PatchJobs | src/services/api.js:60-69 | the job with the id is patched; every other row is unchanged and keeps its place |
| Store.SetApplicationStatus | src/services/api.js:141-142 | only the status column of the application with the id changes; every other column and row stays |
| Store.SetStudentDetails | src/services/api.js:170-171 | only the row with the id gets the new details |
| Store.SetCompanyDetails | src/services/api.js:199-200 | only the row with the id gets the new details |
| Store.SetVerification | src/services/api.js:225-226 | only the verification status of the company with the id changes, to any value |
| Store.DeleteJobRows | src/services/api.js:73-75 | the rows with the id are gone; every other row stays, as often as before |
| Store.DeleteJobRowsCount | src/services/api.js:71-78 | with unique ids a delete removes exactly one row when the id is present, and none otherwise |
| Store.InsertAddsOnePair | src/services/api.js:128-136 | an insert adds one more row of its (job, student) pair, however many there were |
| Store.Store.CreateJob | src/services/api.js:50-58 | inserts one row, built from the payload with a fresh id and the current time, and returns it; on failure nothing changes |
| Store.Store.UpdateJob | src/services/api.js:60-69 | patches the job with the id and returns it; returns a NoRows error when there is no such job; other tables are unchanged |
| Store.Store.DeleteJob | src/services/api.js:71-78 | removes the job with the id and no other row |
| Store.Store.CreateApplication | src/services/api.js:128-136 | inserts exactly one row and returns it, with no check for an existing (job, student) pair |
| Store.Store.UpdateStatus | src/services/api.js:138-147 | changes only the status of the application with the id, from any status; returns the updated row, or NoRows when there is none |
| Store.Store.UpdateStudent | src/services/api.js:167-176 | writes the details into the student's row and returns it, or NoRows |
| Store.Store.UpdateCompany | src/services/api.js:196-205 | writes the details into the company's row and returns it, or NoRows; never writes the verification status |
| Store.Store.UpdateVerification | src/services/api.js:222-231 | changes only the verification status of the company, to any value from any value; returns the row, or NoRows |
| Skills.SpaceEnd | src/pages/student/StudentDashboard.jsx:50 | the scan stops at the first non-white-space character, having passed only white space |
| Skills.SpaceStart | src/pages/student/StudentDashboard.jsx:50 | the backward scan stops after the last non-white-space character, having passed only white space |
| Skills.Trim | src/pages/student/StudentDashboard.jsx:50 | the result has no white space at either end |
| Skills.TrimRemovesOnlySpace | src/pages/student/StudentDashboard.jsx:50 | everything `trim` removes is white space |
| Skills.TrimIsInfix | src/pages/student/StudentDashboard.jsx:50 | every character `trim` keeps was in the string |
| Skills.TrimAfterSpace | src/pages/student/StudentDashboard.jsx:50 | white space followed by a trimmed string trims to that string |
| Skills.TrimmedIsFixed | src/pages/student/StudentDashboard.jsx:50 | `trim` leaves a trimmed string alone |
| Skills.Split | src/pages/student/StudentDashboard.jsx:50 | `split` yields at least one piece, and no piece contains the separator |
| Skills.JoinSplit | src/pages/student/StudentDashboard.jsx:50 | joining the pieces of a split with the separator restores the string |
| Skills.SplitAfterPiece | src/pages/student/StudentDashboard.jsx:50 | a separator-free piece followed by the separator splits off first |
| Skills.SplitNoSeparator | src/pages/student/StudentDashboard.jsx:50 | a string without the separator is a single piece |
| Skills.TrimAll | src/pages/student/StudentDashboard.jsx:50 | one trimmed piece per piece |
| Skills.TrimAllAppend | src/pages/student/StudentDashboard.jsx:50 | trimming every piece of a concatenation is trimming each part |
| Skills.ParseSkills | src/pages/student/StudentDashboard.jsx:50 | every parsed skill is non-empty, trimmed and comma-free |
| Skills.Join | src/pages/student/StudentDashboard.jsx:36 | `join` of one piece is that piece, and every character of a join comes from a piece or from the separator |
| Skills.FormatSkills | src/pages/student/StudentDashboard.jsx:36 | absent skills format to the empty string |
| Skills.ParseJoinAfterSpace | src/pages/student/StudentDashboard.jsx:50 | a join of skills, after any leading white space, parses back to the skills |
| Skills.ParseFormatRoundTrip | src/pages/student/StudentDashboard.jsx:36 | format then parse returns the list when every skill is non-empty, trimmed and comma-free |
| Skills.ParseIsStable | src/pages/student/StudentDashboard.jsx:50 | parsing the formatted result of a parse gives the same list |
| Skills.AbsentSkillsParseEmpty | src/pages/student/StudentDashboard.jsx:36 | absent skills show as an empty box, which parses to no skills |
| JobSchema.Description | src/pages/Jobs.jsx:33 | the description starts with the title and ends with ". Apply through GetJobAndGo." |
| JobSchema.ToPosting | src/pages/Jobs.jsx:29-62 | the posting copies the title, type and date; its organisation, place and salary carry the company, the location (in IN) and the salary (INR, per YEAR), with the constant types and URL |
| JobSchema.PostingKeepsListing | src/pages/Jobs.jsx:29-62 | everything of a listing except its id can be read back from its posting |
| JobSchema.PostingInjective | src/pages/Jobs.jsx:29-62 | two listings with the same posting differ at most in their ids |
| JobSchema.Schema | src/pages/Jobs.jsx:29 | exactly one posting per listing, in the same order |
| JobSchema.SchemaKeepsListings | src/pages/Jobs.jsx:29-62 | the listings can be read back from the structured data, position by position |
| JobSchema.SchemaAppend | src/pages/Jobs.jsx:29 | the mapping commutes with concatenation |
| JobSchema.PageSchema | src/pages/Jobs.jsx:3-22 | the page publishes two full-time postings paid in rupees |
| JobSchema.IndexOf | src/pages/Jobs.jsx:94 | the position of the first occurrence, or the length when there is none |
| JobSchema.DisplayType | src/pages/Jobs.jsx:94 | the card shows the job type with its first `_` replaced by a space (what that rewrite does is stated by `ReplaceFirstAt` and `ReplaceFirstCounts`) |
| JobSchema.ReplaceFirst | src/pages/Jobs.jsx:94 | `replace` with a string pattern changes the first occurrence and nothing else; without an occurrence the string is unchanged |
| JobSchema.ReplaceFirstAt | src/pages/Jobs.jsx:94 | the replacement is exactly an update at the first occurrence |
| JobSchema.ReplaceFirstCounts | src/pages/Jobs.jsx:94 | a replacement trades one `_` for one space, and only when there is an `_` |
| JobSchema.FullTimeShown | src/pages/Jobs.jsx:94 | "FULL_TIME" is shown as "FULL TIME" |
| JobSchema.PageTypesShown | src/pages/Jobs.jsx:84-96 | both cards of the page show "FULL TIME" |
| JobSchema.OnlyFirstReplaced | src/pages/Jobs.jsx:94 | in "A_B_C" only the first underscore is replaced |
| Navbar.DashboardPath | src/components/Navbar.jsx:48-54 | student → `/student/dashboard`, company → `/company/dashboard`, any other role or no profile → `/admin/dashboard`, each in both directions |
| Navbar.NavItems | src/components/Navbar.jsx:24-66 | signed out: the three login and registration links; signed in: the dashboard link, the name and the sign-out button |
| Navbar.DashboardLinkIffSignedIn | src/components/Navbar.jsx:24-66 | a dashboard link and a sign-out button appear exactly when signed in; signed in there is no login link |
| Navbar.RolesReachDistinctDashboards | src/components/Navbar.jsx:48-54 | the route depends only on the role, and student and company reach their own dashboards |
| AdminDashboard.TargetOf | src/pages/admin/AdminDashboard.jsx:154-160 | Approve requests approved and Reject requests rejected; neither requests pending |
| AdminDashboard.OfferedDecisions | src/pages/admin/AdminDashboard.jsx:151-166 | both buttons are offered for a pending company, and none otherwise |
| AdminDashboard.UiTransitionIff | src/pages/admin/AdminDashboard.jsx:151-166 | a card offers a change exactly when the status it shows is pending, and only to approved or rejected |
| AdminDashboard.UiPathsAreShort | src/pages/admin/AdminDashboard.jsx:151 | approved and rejected are terminal for the status a card shows: a path of card transitions has at most one step and never returns to pending |
| AdminDashboard.AdminDashboard.constructor | src/pages/admin/AdminDashboard.jsx:5-8 | the initial state: empty lists, loading |
| AdminDashboard.AdminDashboard.ShowsCurrent | src/pages/admin/AdminDashboard.jsx:21 | every card shows a row as the database holds it now |
| AdminDashboard.AdminDashboard.LoadData | src/pages/admin/AdminDashboard.jsx:14-25 | every company and every active job; a list whose request fails keeps its old value; a successful company request leaves every card current |
| AdminDashboard.AdminDashboard.HandleVerificationUpdate | src/pages/admin/AdminDashboard.jsx:27-36 | writes the status of that company only, succeeds exactly when the row exists and the request does not fail, and reloads only then; other tables and the id counter are unchanged |
| AdminDashboard.AdminDashboard.Review | src/pages/admin/AdminDashboard.jsx:151-166 | a click happens only on a card showing pending and writes its button's status; the whole new page and database as for `handleVerificationUpdate`; while every card is current, the database's change of that company is a card transition, so from pending |
| AdminDashboard.StaleCardReview | src/pages/admin/AdminDashboard.jsx:21 | after an approval whose reload fails, the card still shows pending, and its Reject button turns the approved company rejected |
| CompanyDashboard.WithJobField | src/pages/company/CompanyDashboard.jsx:96-101 | the named field of the post-job form takes the value; every other field is unchanged |
| CompanyDashboard.WithCompanyField | src/pages/company/CompanyDashboard.jsx:96-101 | the named field of the profile form takes the value; every other field is unchanged |
| CompanyDashboard.FieldWriteLaws | src/pages/company/CompanyDashboard.jsx:96-101 | writing a field's own value changes nothing, and the later of two writes wins |
| CompanyDashboard.JobPayload | src/pages/company/CompanyDashboard.jsx:74-78 | the new job carries the user's id and the active status, never values from the form, plus the six typed fields |
| CompanyDashboard.FormOfCompany | src/pages/company/CompanyDashboard.jsx:43-50 | a loaded profile field that is missing shows as the empty string |
| CompanyDashboard.CompanyFormRoundTrip | src/pages/company/CompanyDashboard.jsx:41-61 | saving the form and loading the row back shows the same form |
| CompanyDashboard.StatusTargets | src/pages/company/CompanyDashboard.jsx:494-506 | the only targets offered are shortlisted and rejected |
| CompanyDashboard.TargetsIgnoreStatus | src/pages/company/CompanyDashboard.jsx:494-506 | the targets do not depend on the application's current status |
| CompanyDashboard.NoTerminalApplicationStatus | src/pages/company/CompanyDashboard.jsx:494-506 | every application status has a different target offered, and the offered targets are exactly the non-pending statuses |
| CompanyDashboard.RereadAfterUpdate | src/pages/company/CompanyDashboard.jsx:58-69 | the row written by a profile update loads back into the form that was sent |
| CompanyDashboard.CompanyDashboard.constructor | src/pages/company/CompanyDashboard.jsx:8-28 | the initial state: no profile, empty lists, loading, empty forms with job type "full-time" |
| CompanyDashboard.CompanyDashboard.PostJobFormShown | src/pages/company/CompanyDashboard.jsx:119-124 | the post-job form is rendered only after loading and only for an approved profile (the render gate at lines 290-299) |
| CompanyDashboard.CompanyDashboard.Reloaded | src/pages/company/CompanyDashboard.jsx:41-55 | the page after a reload: the row and its form when found, the company's jobs, each failed part as before, not loading |
| CompanyDashboard.CompanyDashboard.LoadData | src/pages/company/CompanyDashboard.jsx:34-56 | the company's row fills the profile and the form, and the jobs are the company's; a failed request or a missing row keeps that part; the selected job, the applicants and the post-job form are kept |
| CompanyDashboard.CompanyDashboard.HandleCompanyInput | src/pages/company/CompanyDashboard.jsx:96-101 | only the named profile field changes |
| CompanyDashboard.CompanyDashboard.HandleJobInput | src/pages/company/CompanyDashboard.jsx:96-101 | only the named post-job field changes |
| CompanyDashboard.CompanyDashboard.HandleProfileUpdate | src/pages/company/CompanyDashboard.jsx:58-69 | sends the six form fields; no verification status changes; succeeds exactly when the row exists; on success the page is reloaded and the reloaded form is the one sent; on error the page is kept; the rest of the page and the id counter never change |
| CompanyDashboard.CompanyDashboard.HandleJobCreate | src/pages/company/CompanyDashboard.jsx:71-94 | one new active job of this company with the typed fields, the next id and the current time; on success the form resets, the page is reloaded and the job is listed; on error the page and the database are kept |
| CompanyDashboard.CompanyDashboard.SubmitPostJob | src/pages/company/CompanyDashboard.jsx:290-352 | a submit, which the `required` inputs allow only with a title, a description and a location, creates a job exactly when the form is shown and the request succeeds; otherwise the page and the jobs table are unchanged; a created job is this company's, active, with the typed fields |
| CompanyDashboard.CompanyDashboard.LoadApplicants | src/pages/company/CompanyDashboard.jsx:103-107 | selects the job first, then lists its applications; a failed request keeps the old list |
| CompanyDashboard.CompanyDashboard.HandleStatusUpdate | src/pages/company/CompanyDashboard.jsx:109-117 | writes any status; on success with a selected job, lists that job's applicants again; the rest of the page and the other tables are unchanged |
| StudentDashboard.WithStudentField | src/pages/student/StudentDashboard.jsx:67-72 | the named field takes the value; every other field is unchanged |
| StudentDashboard.StudentFieldWriteLaws | src/pages/student/StudentDashboard.jsx:67-72 | writing a field's own value changes nothing, and the later of two writes wins |
| StudentDashboard.FormOfStudent | src/pages/student/StudentDashboard.jsx:34-39 | missing text fields show as empty, and the skills as their join |
| StudentDashboard.DetailsOf | src/pages/student/StudentDashboard.jsx:50-57 | the payload is the degree, the phone and the bio as typed, and the parsed skills |
| StudentDashboard.StudentFormRoundTrip | src/pages/student/StudentDashboard.jsx:34-57 | saving the form and loading the row back keeps the text fields and parses to the same skills |
| StudentDashboard.RereadAfterUpdate | src/pages/student/StudentDashboard.jsx:48-65 | the row written by a profile update loads into a form that sends the same payload |
| StudentDashboard.StudentDashboard.constructor | src/pages/student/StudentDashboard.jsx:9-18 | the initial state: no profile, empty lists, loading, an empty form |
| StudentDashboard.StudentDashboard.Reloaded | src/pages/student/StudentDashboard.jsx:31-45 | the page after a reload: the row and its form when found, the active jobs, the student's applications, each failed part as before, not loading |
| StudentDashboard.StudentDashboard.LoadData | src/pages/student/StudentDashboard.jsx:24-46 | the student's row fills the profile and the form; the jobs are the active ones and the applications the student's own; a failed request or a missing row keeps that part |
| StudentDashboard.StudentDashboard.HandleInputChange | src/pages/student/StudentDashboard.jsx:67-72 | only the named field changes |
| StudentDashboard.StudentDashboard.HandleProfileUpdate | src/pages/student/StudentDashboard.jsx:48-65 | sends the degree, the parsed skills, the phone and the bio; succeeds exactly when the row exists; on success the page is reloaded and the reloaded form sends the same payload; on error the whole page is kept |
| JobDetails.AnyForJob | src/pages/student/JobDetails.jsx:32 | `some` is true exactly when an application to the job is in the list |
| JobDetails.AppliedIffPairPresent | src/pages/student/JobDetails.jsx:29-35 | the student has applied exactly when the table holds an application of that student to that job |
| JobDetails.PairRows | src/services/api.js:128-136 | the rows of one (job, student) pair |
| JobDetails.JobDetails.constructor | src/pages/student/JobDetails.jsx:10-14 | no job, loading, not applying, an empty cover letter, not applied |
| JobDetails.JobDetails.LoadJob | src/pages/student/JobDetails.jsx:21-27 | the route's job when it exists and the request succeeds; the page stops loading either way |
| JobDetails.JobDetails.CheckApplication | src/pages/student/JobDetails.jsx:29-35 | `hasApplied` is true exactly when the student has an application to the route's job; it is kept when the request fails |
| JobDetails.JobDetails.ApplyFormShown | src/pages/student/JobDetails.jsx:57-71 | the apply form is rendered only after loading, for a found job, while `hasApplied` is false (line 140) |
| JobDetails.JobDetails.SubmitEnabled | src/pages/student/JobDetails.jsx:157-159 | the submit button is on the shown form and disabled while `applying` |
| JobDetails.JobDetails.SetCoverLetter | src/pages/student/JobDetails.jsx:149-150 | typing sets the cover letter and nothing else |
| JobDetails.JobDetails.HandleApply | src/pages/student/JobDetails.jsx:37-55 | runs only from an enabled button; inserts one pending application of this student to the route's job with the cover letter; `applying` is true during the request and false after; success hides the form, and an error leaves the button enabled |
| JobDetails.FailedCheckAllowsSecondApplication | src/pages/student/JobDetails.jsx:29-35 | a visit whose check fails shows the apply form for a pair already in the table, and its submit makes a second row of that pair |
| JobDetails.DuplicateApplicationsPossible | src/pages/student/JobDetails.jsx:140 | the client check is the only guard: applying again makes two rows of the pair |

## Left out

- The hosted database client, the network, the auth session and row-level security policies are left out. The store is abstract tables. Each request either succeeds on them or fails as a whole, and no actor is checked.
- Nested `select(...)` joins (company names on jobs, student profiles on applications) are left out. They are projections of related rows and do not change which rows come back or in what order.
- `Promise.all` in the `loadData` handlers is left out. So are the racing `loadJob` and `checkApplication` effects, and the handlers that call `loadData()` without waiting for it. Each handler is one sequential step, and a reload runs to completion inside the handler that starts it.
- Rendering, CSS, `useEffect` scheduling, `alert()`, `navigate` and the tabs are left out. Only the conditions that decide what is offered are modelled: the post-job gate, the review buttons, the apply form and the status buttons.
- `toLocaleDateString` and real timestamps are left out. Timestamps are integers, used only for ordering. Rows with equal timestamps keep the order the model's sort gives them, which the database does not promise.
- `JSON.stringify` and the insertion and removal of the script element on the jobs page are left out.
- Skills.Trim: removes a fixed white-space set: space, tab to carriage return, no-break space and byte-order mark. JavaScript's `trim` removes every Unicode space separator and line terminator.
- AdminDashboard.UiTransitionIff: is about the status a card shows. The card can be stale: a reload that fails after a write keeps the old list. `Review` ties the card to the database only while every card is current (`ShowsCurrent`).
- AdminDashboard.UiPathsAreShort: terminality holds for the status a card shows, not for the company's row. `StaleCardReview` shows an approved company rejected through the page after a failed reload.
- JobDetails.JobDetails.CheckApplication: compares the route id and `job_id` as values of one type. In the source the route parameter is a string and `===` is strict. A `job_id` of another type would never match.
- CompanyDashboard.CompanyDashboard.HandleStatusUpdate: models the truthiness of `selectedJob` as "a job is selected". In the source an id the language treats as false, such as `0`, would skip the reload. The model reloads for every selected id, `0` included, so it does not capture that case.
- JobDetails.JobDetails.HandleApply: the state between its writes (`applying == true` while the insert is outstanding) is reported through a ghost out-parameter. The page shows that state only as a disabled button.
- A `handleInputChange` with an input `name` outside the form's keys is left out. It would add a key to the form. The form types fix their fields, so the events are the form's own fields.
- A `jobsAPI.update` that changes `company_id` or sets `created_at` is left out. The patch covers the columns a job form can carry.
- Failures are `fails` flags chosen by the caller, not a model of why a request fails.
- The profile reads can return `MultipleRows` only for a table with a repeated id. The `Store` invariant rules that out, so every dashboard's profile read succeeds unless its request fails.
