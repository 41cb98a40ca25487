/** The certifications page: the fixed categories and certificates, the grouping of
    certificates by category, and what each certificate card shows. */
module CertificationsPage {
  import opened Wrappers
  import Seqs

  datatype Category = Category(id: string, name: string)

  /** A certificate record; the verification link is display data and is not modelled. */
  datatype Cert = Cert(name: string, issuer: string, year: Option<string>, expected: Option<string>,
                       category: string, inProgress: bool, highlight: bool, details: Option<string>)

  const CATEGORIES: seq<Category> := [
    Category("security", "Security & Governance"),
    Category("cloud", "Cloud"),
    Category("ai", "AI Safety & Trust"),
    Category("privacy", "Privacy")
  ]

  const CERTIFICATIONS: seq<Cert> := [
    Cert("Certified Information Systems Security Professional (CISSP)", "ISC2", Some("2024"), None, "security", false, true, None),
    Cert("ISO 27001 Lead Auditor (ISMS)", "Mastermind Assurance", Some("2025"), None, "security", false, true, None),
    Cert("GIAC Security Leadership (GSLC)", "GIAC", Some("2023"), None, "security", false, false, None),
    Cert("Security Awareness Professional (SSAP)", "SANS", Some("2023"), None, "security", false, false, None),
    Cert("Certified Information Systems Auditor (CISA)", "ISACA", None, Some("Summer 2026"), "security", true, false, None),
    Cert("AWS Certified Security Specialty", "AWS", None, Some("Spring 2026"), "cloud", true, false, None),
    Cert("ISO 42001 Lead Auditor (AIMS)", "Mastermind Assurance", Some("2025"), None, "ai", false, true, None),
    Cert("AWS Certified Cloud Practitioner", "AWS", Some("2025"), None, "cloud", false, false, None),
    Cert("TAISE (Trusted AI Safety Expert)", "Cloud Security Alliance", Some("2026"), None, "ai", false, true, None),
    Cert("AWS Certified AI Practitioner", "AWS", None, Some("Summer 2026"), "ai", true, false, None),
    Cert("AWS Certified Developer", "AWS", None, Some("Winter 2026"), "cloud", true, false, None),
    Cert("OneTrust Fellow of Privacy Technology", "OneTrust", Some("2024"), None, "privacy", false, true,
         Some("10 specializations including Privacy, GRC, TPRM, PIAs, Data Mapping")),
    Cert("ISO 27701 Lead Auditor (PIMS)", "TBD", None, Some("Fall 2026"), "privacy", true, false, None)
  ]

  /** `getCertsByCategory(id)`: the certificates of that category, in their original order. */
  function GetCertsByCategory(certs: seq<Cert>, id: string): (r: seq<Cert>)
    ensures Seqs.IsSubsequence(r, certs)
    ensures forall i :: 0 <= i < |certs| ==> (certs[i] in r <==> certs[i].category == id)
    ensures forall i :: 0 <= i < |r| ==> r[i] in certs && r[i].category == id
    ensures forall c: Cert :: multiset(r)[c] == if c.category == id then multiset(certs)[c] else 0
  {
    var keep := (c: Cert) => c.category == id;
    Seqs.FilterCounts(certs, keep);
    Seqs.Filter(certs, keep)
  }

  /** One rendered category block. */
  datatype Group = Group(category: Category, certs: seq<Cert>)

  /** The categories of a list of groups, in order. */
  function CategoriesOf(groups: seq<Group>): seq<Category> {
    seq(|groups|, i requires 0 <= i < |groups| => groups[i].category)
  }

  /** The category blocks (`categories.map`, with `null` for an empty category): one per
      category, in the order of `cats`, holding that category's certificates. */
  function Groups(cats: seq<Category>, certs: seq<Cert>): seq<Group>
    decreases |cats|
  {
    if cats == [] then []
    else
      var certs0 := GetCertsByCategory(certs, cats[0].id);
      if |certs0| == 0 then Groups(cats[1..], certs)
      else [Group(cats[0], certs0)] + Groups(cats[1..], certs)
  }

  /** Every block is non-empty and holds exactly the certificates of its category,
      which is one of `cats`. */
  lemma {:induction false} GroupsHoldTheirCategory(cats: seq<Category>, certs: seq<Cert>)
    ensures forall g :: g in Groups(cats, certs) ==>
              g.category in cats && |g.certs| > 0 && g.certs == GetCertsByCategory(certs, g.category.id)
    decreases |cats|
  {
    if cats != [] {
      GroupsHoldTheirCategory(cats[1..], certs);
      assert cats == [cats[0]] + cats[1..];
    }
  }

  /** The blocks appear in the order of `cats`. */
  lemma {:induction false} GroupsInCategoryOrder(cats: seq<Category>, certs: seq<Cert>)
    ensures Seqs.IsSubsequence(CategoriesOf(Groups(cats, certs)), cats)
    decreases |cats|
  {
    if cats != [] {
      GroupsInCategoryOrder(cats[1..], certs);
      var rest := Groups(cats[1..], certs);
      var certs0 := GetCertsByCategory(certs, cats[0].id);
      if |certs0| > 0 {
        var r := [Group(cats[0], certs0)] + rest;
        assert Groups(cats, certs) == r;
        assert CategoriesOf(r)[0] == cats[0];
        assert CategoriesOf(r)[1..] == CategoriesOf(rest);
      } else {
        assert Groups(cats, certs) == rest;
      }
    }
  }

  /** A category that has a certificate gets a block. */
  lemma {:induction false} NonEmptyCategoryHasGroup(cats: seq<Category>, certs: seq<Cert>, k: nat)
    requires k < |cats| && |GetCertsByCategory(certs, cats[k].id)| > 0
    ensures exists g :: g in Groups(cats, certs) && g.category == cats[k]
    decreases |cats|
  {
    var rest := Groups(cats[1..], certs);
    var certs0 := GetCertsByCategory(certs, cats[0].id);
    if k == 0 {
      assert Groups(cats, certs)[0] == Group(cats[0], certs0);
    } else {
      assert cats[1..][k - 1] == cats[k];
      NonEmptyCategoryHasGroup(cats[1..], certs, k - 1);
      var g :| g in rest && g.category == cats[k];
      assert g in Groups(cats, certs);
    }
  }

  /** The number of blocks that show certificate `c`. */
  function Occurrences(groups: seq<Group>, c: Cert): nat {
    if groups == [] then 0
    else (if c in groups[0].certs then 1 else 0) + Occurrences(groups[1..], c)
  }

  /** The number of categories with a given id. */
  function IdCount(cats: seq<Category>, id: string): nat {
    if cats == [] then 0 else (if cats[0].id == id then 1 else 0) + IdCount(cats[1..], id)
  }

  /** A certificate is shown once for every category carrying its category id. */
  lemma {:induction false} OccurrencesCountIds(cats: seq<Category>, certs: seq<Cert>, c: Cert)
    requires c in certs
    ensures Occurrences(Groups(cats, certs), c) == IdCount(cats, c.category)
    decreases |cats|
  {
    if cats != [] {
      OccurrencesCountIds(cats[1..], certs, c);
      var certs0 := GetCertsByCategory(certs, cats[0].id);
      if |certs0| > 0 {
        var r := [Group(cats[0], certs0)] + Groups(cats[1..], certs);
        assert r[1..] == Groups(cats[1..], certs);
      } else {
        assert c !in certs0;
      }
    }
  }

  /** Among distinct ids, an id that occurs occurs once. */
  lemma {:induction false} DistinctIdOnce(cats: seq<Category>, k: nat)
    requires DistinctIds(cats) && k < |cats|
    ensures IdCount(cats, cats[k].id) == 1
    decreases |cats|
  {
    if k == 0 {
      AbsentIdNone(cats[1..], cats[0].id);
    } else {
      assert cats[1..][k - 1] == cats[k];
      DistinctIdOnce(cats[1..], k - 1);
    }
  }

  /** An id no category carries is counted zero times. */
  lemma {:induction false} AbsentIdNone(cats: seq<Category>, id: string)
    requires forall i :: 0 <= i < |cats| ==> cats[i].id != id
    ensures IdCount(cats, id) == 0
    decreases |cats|
  {
    if cats != [] {
      AbsentIdNone(cats[1..], id);
    }
  }

  /** The category ids are pairwise distinct. */
  predicate DistinctIds(cats: seq<Category>) {
    forall i, j :: 0 <= i < j < |cats| ==> cats[i].id != cats[j].id
  }

  /** When the category ids are distinct and a certificate's category is one of them,
      the certificate appears in exactly one block. */
  lemma ExactlyOneGroup(cats: seq<Category>, certs: seq<Cert>, c: Cert, k: nat)
    requires DistinctIds(cats) && c in certs && k < |cats| && cats[k].id == c.category
    ensures Occurrences(Groups(cats, certs), c) == 1
  {
    OccurrencesCountIds(cats, certs, c);
    DistinctIdOnce(cats, k);
  }

  /** The four category ids are pairwise distinct. */
  lemma CategoryIdsDistinct()
    ensures DistinctIds(CATEGORIES)
  {
    assert CATEGORIES[0].id[0] == 's' && CATEGORIES[1].id[0] == 'c';
    assert CATEGORIES[2].id[0] == 'a' && CATEGORIES[3].id[0] == 'p';
  }

  /** Some block has the category id `id`. */
  predicate IsCategoryId(id: string) {
    exists k :: 0 <= k < |CATEGORIES| && CATEGORIES[k].id == id
  }

  /** Every certificate's category is one of the four ids. */
  lemma CertCategoriesListed()
    ensures forall i :: 0 <= i < |CERTIFICATIONS| ==> IsCategoryId(CERTIFICATIONS[i].category)
  {
    forall i | 0 <= i < |CERTIFICATIONS|
      ensures IsCategoryId(CERTIFICATIONS[i].category)
    {
      var c := CERTIFICATIONS[i].category;
      var k := if c == "security" then 0 else if c == "cloud" then 1 else if c == "ai" then 2 else 3;
      assert CATEGORIES[k].id == c;
    }
  }

  /** The page's data: the four ids are distinct and every certificate belongs to one of
      them, so every certificate is shown in exactly one block. */
  lemma EveryCertInOneGroup(c: Cert)
    requires c in CERTIFICATIONS
    ensures Occurrences(Groups(CATEGORIES, CERTIFICATIONS), c) == 1
  {
    CategoryIdsDistinct();
    CertCategoriesListed();
    var i :| 0 <= i < |CERTIFICATIONS| && CERTIFICATIONS[i] == c;
    var k :| 0 <= k < |CATEGORIES| && CATEGORIES[k].id == CERTIFICATIONS[i].category;
    ExactlyOneGroup(CATEGORIES, CERTIFICATIONS, c, k);
  }

  /** The date a card shows: the expected date while in progress, otherwise the year. */
  function DateShown(c: Cert): Option<string> {
    if c.inProgress then c.expected else c.year
  }

  /** The link label: `Info` while in progress, `Verify` once earned. */
  function LinkLabel(c: Cert): (text: string)
    ensures text == "Info" <==> c.inProgress
    ensures text == "Verify" <==> !c.inProgress
  {
    if c.inProgress then "Info" else "Verify"
  }

  /** Every in-progress certificate has an expected date and every other one a year, so
      every card shows a date. */
  lemma EveryCardShowsDate()
    ensures forall i :: 0 <= i < |CERTIFICATIONS| ==>
              (CERTIFICATIONS[i].inProgress ==> CERTIFICATIONS[i].expected.Some?) &&
              (!CERTIFICATIONS[i].inProgress ==> CERTIFICATIONS[i].year.Some?)
    ensures forall i :: 0 <= i < |CERTIFICATIONS| ==> DateShown(CERTIFICATIONS[i]).Some?
  {
  }

  /** On every card the link label and the date agree: an `Info` card shows its expected
      date and a `Verify` card its year, and that date is present. */
  lemma LabelMatchesDate()
    ensures forall i :: 0 <= i < |CERTIFICATIONS| && LinkLabel(CERTIFICATIONS[i]) == "Info" ==>
              DateShown(CERTIFICATIONS[i]) == CERTIFICATIONS[i].expected && CERTIFICATIONS[i].expected.Some?
    ensures forall i :: 0 <= i < |CERTIFICATIONS| && LinkLabel(CERTIFICATIONS[i]) == "Verify" ==>
              DateShown(CERTIFICATIONS[i]) == CERTIFICATIONS[i].year && CERTIFICATIONS[i].year.Some?
  {
    EveryCardShowsDate();
  }
}
