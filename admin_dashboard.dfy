/**
  The admin dashboard: the list of every company with its verification
  status, the list of active jobs, and the Approve / Reject controls that
  the page shows only for a pending company.
*/
module AdminDashboard {
  import opened Common
  import opened Tables
  import opened Store

  /** The two review buttons. */
  datatype Decision = Approve | Reject

  /** The status each button requests. */
  function TargetOf(d: Decision): (v: Verification)
    ensures v != Verification.Pending
    ensures d == Approve <==> v == Approved
  {
    match d
    case Approve => Approved
    case Reject => Verification.Rejected
  }

  /** The buttons shown on a company card: both for a pending company, none otherwise. */
  function OfferedDecisions(status: Verification): (r: set<Decision>)
    ensures r != {} <==> status == Verification.Pending
    ensures status == Verification.Pending ==> Approve in r && Reject in r
  {
    if status == Verification.Pending then {Approve, Reject} else {}
  }

  /** A status change an admin can make through a card that shows the status `from`. */
  predicate UiTransition(from: Verification, to: Verification)
  {
    exists d :: d in OfferedDecisions(from) && TargetOf(d) == to
  }

  /** Only a card showing pending offers a change, and only to approved or rejected. */
  lemma UiTransitionIff(from: Verification, to: Verification)
    ensures UiTransition(from, to) <==> from == Verification.Pending && to != Verification.Pending
  {
    if from == Verification.Pending && to == Approved {
      assert TargetOf(Approve) == to;
    } else if from == Verification.Pending && to == Verification.Rejected {
      assert TargetOf(Reject) == to;
    }
  }

  /** Consecutive statuses of a path are UI transitions. */
  predicate IsUiPath(p: seq<Verification>)
  {
    forall i :: 0 < i < |p| ==> UiTransition(p[i - 1], p[i])
  }

  /**
    Approved and rejected are terminal for the status a card shows: a path of
    UI transitions has at most one step, starts at pending when it has one,
    and never returns to pending.
  */
  lemma {:induction false} UiPathsAreShort(p: seq<Verification>)
    requires IsUiPath(p)
    ensures |p| <= 2
    ensures |p| == 2 ==> p[0] == Verification.Pending && p[1] != Verification.Pending
    ensures forall i :: 0 < i < |p| ==> p[i] != Verification.Pending
  {
    if |p| >= 2 {
      UiTransitionIff(p[0], p[1]);
      if |p| >= 3 {
        UiTransitionIff(p[1], p[2]);
        assert false;
      }
    }
  }

  /** Two rows with the same primary key in a keyed table are the same row. */
  lemma SameKeySameRow(s: seq<Company>, c: Company, e: Company)
    requires KeysUnique(s, CompanyKey) && c in s && e in s && c.id == e.id
    ensures c == e
  {
    var i :| 0 <= i < |s| && s[i] == c;
    var j :| 0 <= j < |s| && s[j] == e;
    assert CompanyKey(s[i]) == CompanyKey(s[j]);
  }

  /** A permutation holds only rows of the table it permutes. */
  lemma SameRows(a: seq<Company>, b: seq<Company>)
    requires multiset(a) == multiset(b)
    ensures forall c :: c in a ==> c in b
  {
    forall c | c in a ensures c in b {
      assert c in multiset(a);
    }
  }

  class AdminDashboard {
    var companies: seq<Company>
    var jobs: seq<Job>
    var loading: bool

    /** The page before its first load. */
    constructor ()
      ensures companies == [] && jobs == [] && loading
    {
      companies, jobs, loading := [], [], true;
    }

    /** Every card shows a row as the database holds it now. */
    predicate ShowsCurrent(db: Store)
      reads this, db
    {
      forall c :: c in companies ==> c in db.companies
    }

    /** `loadData`: every company and every active job; a list whose request fails keeps its old value. */
    method LoadData(db: Store, companiesFail: bool, jobsFail: bool)
      modifies this
      ensures companies == if companiesFail then old(companies) else AllCompanies(db.companies)
      ensures jobs == if jobsFail then old(jobs) else ActiveJobs(db.jobs)
      ensures !loading
      ensures !companiesFail ==> ShowsCurrent(db)
    {
      loading := true;
      if !companiesFail {
        var all := AllCompanies(db.companies);
        SameRows(all, db.companies);
        companies := all;
      }
      if !jobsFail {
        jobs := ActiveJobs(db.jobs);
      }
      loading := false;
    }

    /** `handleVerificationUpdate`: writes the status, and reloads the page only when the write succeeded. */
    method HandleVerificationUpdate(db: Store, companyId: Id, status: Verification, fails: bool,
                                    companiesFail: bool, jobsFail: bool) returns (ok: bool)
      requires db.Valid()
      modifies this, db
      ensures db.Valid()
      ensures db.jobs == old(db.jobs) && db.applications == old(db.applications) && db.students == old(db.students)
      ensures db.nextId == old(db.nextId)
      ensures db.companies == if fails then old(db.companies) else SetVerification(old(db.companies), companyId, status)
      ensures ok <==> !fails && exists c :: c in old(db.companies) && c.id == companyId
      ensures ok ==> companies == (if companiesFail then old(companies) else AllCompanies(db.companies))
      ensures ok ==> jobs == (if jobsFail then old(jobs) else ActiveJobs(db.jobs)) && !loading
      ensures ok && !companiesFail ==> ShowsCurrent(db)
      ensures !ok ==> companies == old(companies) && jobs == old(jobs) && loading == old(loading)
    {
      var r := db.UpdateVerification(companyId, status, fails);
      ok := r.Ok?;
      if ok {
        LoadData(db, companiesFail, jobsFail);
      }
    }

    /**
      A click on a review button of the card at `index`: the button exists
      only for a card showing pending, and it requests the button's status.
      The guard reads the page's copy of the list, not the database; while
      that copy is current, the change the database sees is a UI transition.
    */
    method Review(db: Store, index: nat, d: Decision, fails: bool, companiesFail: bool, jobsFail: bool)
      returns (ok: bool)
      requires db.Valid()
      requires index < |companies| && d in OfferedDecisions(companies[index].verification_status)
      modifies this, db
      ensures db.Valid()
      ensures old(companies[index].verification_status) == Verification.Pending
      ensures db.jobs == old(db.jobs) && db.applications == old(db.applications) && db.students == old(db.students)
      ensures db.nextId == old(db.nextId)
      ensures db.companies == if fails then old(db.companies)
                              else SetVerification(old(db.companies), old(companies[index].id), TargetOf(d))
      ensures ok <==> !fails && exists c :: c in old(db.companies) && c.id == old(companies[index].id)
      ensures ok ==> companies == (if companiesFail then old(companies) else AllCompanies(db.companies))
      ensures ok ==> jobs == (if jobsFail then old(jobs) else ActiveJobs(db.jobs)) && !loading
      ensures ok && !companiesFail ==> ShowsCurrent(db)
      ensures !ok ==> companies == old(companies) && jobs == old(jobs) && loading == old(loading)
      ensures old(ShowsCurrent(db)) ==>
                forall c :: c in old(db.companies) && c.id == old(companies[index].id) ==>
                  UiTransition(c.verification_status, TargetOf(d))
    {
      ghost var card := companies[index];
      ghost var before := db.companies;
      if ShowsCurrent(db) {
        forall c | c in before && c.id == card.id
          ensures UiTransition(c.verification_status, TargetOf(d))
        {
          SameKeySameRow(before, c, card);
          assert d in OfferedDecisions(c.verification_status);
        }
      }
      ok := HandleVerificationUpdate(db, companies[index].id, TargetOf(d), fails, companiesFail, jobsFail);
    }
  }

  /**
    A reload that fails after an approval leaves the card showing pending,
    so its Reject button stays and an approved company is then rejected
    through the page.
  */
  method StaleCardReview() returns (afterApprove: Verification, afterReject: Verification)
    ensures afterApprove == Approved && afterReject == Verification.Rejected
  {
    var c := Company(1, "Acme", None, None, None, None, None, None, Verification.Pending, 0);
    var db := new Store([], [c]);
    var page := new AdminDashboard();
    page.LoadData(db, false, false);
    assert multiset(page.companies) == multiset{c};
    assert |page.companies| == 1 && page.companies[0] in multiset(page.companies);
    var ok1 := page.Review(db, 0, Approve, false, true, false);
    afterApprove := db.companies[0].verification_status;
    var ok2 := page.Review(db, 0, Reject, false, false, false);
    afterReject := db.companies[0].verification_status;
  }
}
