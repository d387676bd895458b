/**
  The public jobs page: a fixed list of listings, shown as cards and published
  as schema.org `JobPosting` structured data (JSON-LD). The mapping is a pure
  record-to-record transform with constant vocabulary fields.
*/
module JobSchema {

  /** One entry of the page's fixed `jobsData` list. */
  datatype JobListing = JobListing(
    id: nat, title: string, company: string, location: string,
    salary: string, jobType: string, datePosted: string)

  // The nested JSON-LD records; `schemaType` is the object's `@type`.
  datatype Organization = Organization(schemaType: string, name: string, sameAs: string)
  datatype PostalAddress = PostalAddress(schemaType: string, addressLocality: string, addressCountry: string)
  datatype Place = Place(schemaType: string, address: PostalAddress)
  datatype QuantitativeValue = QuantitativeValue(schemaType: string, value: string, unitText: string)
  datatype MonetaryAmount = MonetaryAmount(schemaType: string, currency: string, value: QuantitativeValue)
  datatype Country = Country(schemaType: string, name: string)

  /** A `JobPosting` object; `context` is its `@context`. */
  datatype JobPosting = JobPosting(
    context: string, schemaType: string, title: string, description: string,
    datePosted: string, employmentType: string, hiringOrganization: Organization,
    jobLocation: Place, baseSalary: MonetaryAmount, applicantLocationRequirements: Country)

  const SchemaContext: string := "https://schema.org"
  const SiteUrl: string := "https://www.getjobandgo.com"
  const DescriptionSuffix: string := ". Apply through GetJobAndGo."

  /** The sentence describing a listing. */
  function Description(job: JobListing): (r: string)
    ensures |r| >= |job.title| + |DescriptionSuffix|
    ensures r[..|job.title|] == job.title
    ensures r[|r| - |DescriptionSuffix|..] == DescriptionSuffix
  {
    var r := job.title + " position available at " + job.company + " located in " + job.location + DescriptionSuffix;
    assert r == job.title + (" position available at " + job.company + " located in " + job.location + DescriptionSuffix);
    assert r == (job.title + " position available at " + job.company + " located in " + job.location) + DescriptionSuffix;
    r
  }

  /** The `JobPosting` published for one listing. */
  function ToPosting(job: JobListing): (r: JobPosting)
    ensures r.context == SchemaContext && r.schemaType == "JobPosting"
    ensures r.title == job.title && r.employmentType == job.jobType && r.datePosted == job.datePosted
    ensures r.description == Description(job)
    ensures r.hiringOrganization == Organization("Organization", job.company, SiteUrl)
    ensures r.jobLocation.schemaType == "Place"
    ensures r.jobLocation.address == PostalAddress("PostalAddress", job.location, "IN")
    ensures r.baseSalary.schemaType == "MonetaryAmount" && r.baseSalary.currency == "INR"
    ensures r.baseSalary.value == QuantitativeValue("QuantitativeValue", job.salary, "YEAR")
    ensures r.applicantLocationRequirements == Country("Country", "India")
  {
    JobPosting(
      SchemaContext, "JobPosting", job.title, Description(job), job.datePosted, job.jobType,
      Organization("Organization", job.company, SiteUrl),
      Place("Place", PostalAddress("PostalAddress", job.location, "IN")),
      MonetaryAmount("MonetaryAmount", "INR", QuantitativeValue("QuantitativeValue", job.salary, "YEAR")),
      Country("Country", "India"))
  }

  /** The listing a posting was built from, but for the id, which the posting does not carry. */
  function ListingOf(id: nat, p: JobPosting): JobListing
  {
    JobListing(id, p.title, p.hiringOrganization.name, p.jobLocation.address.addressLocality,
               p.baseSalary.value.value, p.employmentType, p.datePosted)
  }

  /** A posting loses nothing of its listing except the id. */
  lemma PostingKeepsListing(job: JobListing)
    ensures ListingOf(job.id, ToPosting(job)) == job
  {
  }

  /** Two listings with the same posting differ at most in their ids. */
  lemma PostingInjective(a: JobListing, b: JobListing)
    requires ToPosting(a) == ToPosting(b)
    ensures a.(id := b.id) == b
  {
    PostingKeepsListing(a);
    PostingKeepsListing(b);
  }

  /** `jobsData.map(...)`: the structured data of the page, one posting per listing, in order. */
  function Schema(listings: seq<JobListing>): (r: seq<JobPosting>)
    ensures |r| == |listings|
    ensures forall i :: 0 <= i < |listings| ==> r[i] == ToPosting(listings[i])
  {
    seq(|listings|, i requires 0 <= i < |listings| => ToPosting(listings[i]))
  }

  /** The listings can be read back from the structured data. */
  lemma SchemaKeepsListings(listings: seq<JobListing>)
    ensures |Schema(listings)| == |listings|
    ensures forall i :: 0 <= i < |listings| ==> ListingOf(listings[i].id, Schema(listings)[i]) == listings[i]
  {
  }

  /** The structured data of a concatenation is the concatenation of the structured data. */
  lemma SchemaAppend(a: seq<JobListing>, b: seq<JobListing>)
    ensures Schema(a + b) == Schema(a) + Schema(b)
  {
    var l := Schema(a + b);
    var r := Schema(a) + Schema(b);
    forall i | 0 <= i < |l| ensures l[i] == r[i] {
      if i < |a| {
        assert (a + b)[i] == a[i];
      } else {
        assert (a + b)[i] == b[i - |a|];
      }
    }
  }

  /** The page's fixed listings. */
  const JobsData: seq<JobListing> := [
    JobListing(1, "Mechanical Engineer - Fresher", "Chennai Precision Pvt Ltd",
               "Chennai, Tamil Nadu, India", "18000", "FULL_TIME", "2026-02-15"),
    JobListing(2, "Software Developer - Entry Level", "TechNova Solutions",
               "Coimbatore, Tamil Nadu, India", "400000", "FULL_TIME", "2026-02-15")
  ]

  /** The page publishes two postings, both full-time with a yearly salary in rupees. */
  lemma PageSchema()
    ensures |Schema(JobsData)| == 2
    ensures forall p :: p in Schema(JobsData) ==> p.employmentType == "FULL_TIME" && p.baseSalary.currency == "INR"
    ensures Schema(JobsData)[0].hiringOrganization.name == "Chennai Precision Pvt Ltd"
    ensures Schema(JobsData)[1].baseSalary.value.value == "400000"
  {
    var r := Schema(JobsData);
    assert r[0] == ToPosting(JobsData[0]) && r[1] == ToPosting(JobsData[1]);
  }

  /** The position of the first `c` in `s`, or `|s|` when there is none. */
  function IndexOf(s: string, c: char): (k: nat)
    ensures k <= |s| && c !in s[..k]
    ensures k < |s| ==> s[k] == c
    ensures k == |s| <==> c !in s
  {
    if s == [] then 0
    else if s[0] == c then 0
    else
      assert s[..1 + IndexOf(s[1..], c)] == [s[0]] + s[1..][..IndexOf(s[1..], c)];
      assert s == [s[0]] + s[1..];
      1 + IndexOf(s[1..], c)
  }

  /**
    `s.replace(c, d)` with a one-character string pattern: the first
    occurrence of `c` becomes `d`, every other character stays.
  */
  function ReplaceFirst(s: string, c: char, d: char): (r: string)
    ensures |r| == |s|
    ensures c !in s ==> r == s
    ensures c in s ==> r[IndexOf(s, c)] == d
    ensures forall i :: 0 <= i < |s| && i != IndexOf(s, c) ==> r[i] == s[i]
  {
    var k := IndexOf(s, c);
    if k == |s| then s else s[..k] + [d] + s[k + 1..]
  }

  /** The job type as a card shows it. */
  function DisplayType(job: JobListing): string
  {
    ReplaceFirst(job.jobType, '_', ' ')
  }

  /** The replacement lands on the first occurrence and nowhere else. */
  lemma ReplaceFirstAt(s: string, c: char, d: char, k: nat)
    requires k < |s| && s[k] == c && c !in s[..k]
    ensures ReplaceFirst(s, c, d) == s[k := d]
  {
    assert s[k] in s;
    var k' := IndexOf(s, c);
    assert forall i :: 0 <= i < k ==> s[..k][i] == s[i] && s[..k][i] in s[..k];
    assert forall i :: 0 <= i < k' ==> s[..k'][i] == s[i] && s[..k'][i] in s[..k'];
    assert k' == k;
  }

  /** Replacing trades one occurrence of `c` for one of `d`, and only when there is one. */
  lemma ReplaceFirstCounts(s: string, c: char, d: char)
    ensures multiset(ReplaceFirst(s, c, d)) == if c in s then multiset(s) - multiset{c} + multiset{d} else multiset(s)
  {
    if c in s {
      var k := IndexOf(s, c);
      assert s == s[..k] + [c] + s[k + 1..];
      assert multiset(s) == multiset(s[..k]) + multiset{c} + multiset(s[k + 1..]);
      assert multiset(ReplaceFirst(s, c, d)) == multiset(s[..k]) + multiset{d} + multiset(s[k + 1..]);
    }
  }

  /** A card shows "FULL TIME" for the type "FULL_TIME". */
  lemma FullTimeShown(t: string)
    requires t == "FULL_TIME"
    ensures ReplaceFirst(t, '_', ' ') == "FULL TIME"
  {
    assert IndexOf(t, '_') == 4;
    assert t[..4] + [' '] + t[5..] == "FULL TIME";
  }

  /** Both listings of the page are shown as "FULL TIME". */
  lemma PageTypesShown(listings: seq<JobListing>)
    requires listings == JobsData
    ensures |listings| == 2
    ensures forall i :: 0 <= i < |listings| ==> DisplayType(listings[i]) == "FULL TIME"
  {
    forall i | 0 <= i < |listings| ensures DisplayType(listings[i]) == "FULL TIME" {
      FullTimeShown(listings[i].jobType);
    }
  }

  /** A second underscore is left in place. */
  lemma OnlyFirstReplaced(t: string)
    requires t == "A_B_C"
    ensures ReplaceFirst(t, '_', ' ') == "A B_C"
  {
    assert IndexOf(t, '_') == 1;
    assert t[..1] + [' '] + t[2..] == "A B_C";
  }
}
