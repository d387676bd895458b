/**
  The navigation bar: signed out it offers the login and registration links;
  signed in it offers one link to the dashboard of the user's role, the
  user's name and a sign-out button.
*/
module Navbar {
  import opened Common

  /** The signed-in account, as far as the bar uses it. */
  datatype User = User(id: nat)

  /** The account's profile row; `role` is free text in the database. */
  datatype Profile = Profile(role: string, fullName: string)

  datatype NavItem =
    | Link(to: string, caption: string)
    | NameLabel(text: Option<string>)
    | SignOutButton

  const StudentDashboard: string := "/student/dashboard"
  const CompanyDashboard: string := "/company/dashboard"
  const AdminDashboard: string := "/admin/dashboard"

  /** The dashboard route for the profile's role; anything but a student or a company goes to the admin route. */
  function DashboardPath(profile: Option<Profile>): (r: string)
    ensures r == StudentDashboard <==> profile.Some? && profile.value.role == "student"
    ensures r == CompanyDashboard <==> profile.Some? && profile.value.role == "company"
    ensures r == AdminDashboard <==> profile.None? || (profile.value.role != "student" && profile.value.role != "company")
  {
    if profile.Some? && profile.value.role == "student" then StudentDashboard
    else if profile.Some? && profile.value.role == "company" then CompanyDashboard
    else AdminDashboard
  }

  const SignedOutItems: seq<NavItem> := [
    Link("/student/login", "Student Login"),
    Link("/company/login", "Company Login"),
    Link("/student/register", "Join as Student")
  ]

  predicate IsDashboardLink(item: NavItem)
  {
    item.Link? && item.to in {StudentDashboard, CompanyDashboard, AdminDashboard}
  }

  /** The items of the bar, left to right. */
  function NavItems(user: Option<User>, profile: Option<Profile>): (r: seq<NavItem>)
    ensures user.None? ==> r == SignedOutItems
    ensures user.Some? ==> |r| == 3 && r[0] == Link(DashboardPath(profile), "Dashboard") && r[2] == SignOutButton
    ensures user.Some? ==> r[1] == NameLabel(if profile.Some? then Some(profile.value.fullName) else None)
  {
    if user.None? then SignedOutItems
    else
      [Link(DashboardPath(profile), "Dashboard"),
       NameLabel(if profile.Some? then Some(profile.value.fullName) else None),
       SignOutButton]
  }

  /** Signed out there is no dashboard link and no sign-out button; signed in there is exactly one dashboard link and no login link. */
  lemma DashboardLinkIffSignedIn(user: Option<User>, profile: Option<Profile>)
    ensures user.None? ==> forall item :: item in NavItems(user, profile) ==> !IsDashboardLink(item) && item != SignOutButton
    ensures user.Some? ==> forall i :: 0 <= i < 3 ==> (IsDashboardLink(NavItems(user, profile)[i]) <==> i == 0)
    ensures user.Some? ==> forall item :: item in SignedOutItems ==> item !in NavItems(user, profile)
  {
  }

  /** The route depends on the role alone, and the three roles reach three different dashboards. */
  lemma RolesReachDistinctDashboards(a: Profile, b: Profile)
    ensures a.role == b.role ==> DashboardPath(Some(a)) == DashboardPath(Some(b))
    ensures DashboardPath(Some(a)) == DashboardPath(Some(b)) && a.role in {"student", "company"} ==> a.role == b.role
  {
  }
}
