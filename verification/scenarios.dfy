/** Worked examples of the lead hook on a two-lead seed. */
module Scenarios {
  import opened Wrappers
  import opened LeadTypes
  import opened Text
  import ScoreSort
  import opened UseLeads
  import opened EmailValidation
  import opened LeadDetailPanel
  import opened SaveFlow
  import Seqs

  const Ann := Lead(1, "Ann", "Acme", "ann@acme.com", "Web", 80, "New")
  const Bo := Lead(2, "Bo", "Zeta", "bo@zeta.io", "Referral", 50, "Qualified")
  const Seeded := State([Ann, Bo], [], None, Desc)

  /** Before the leads arrive: the list is empty, no lead is selected, and
      pressing Save in the empty panel changes nothing. */
  lemma NothingBeforeLoad(term: string, statusFilter: string, persist: Persist)
    ensures FilteredLeads(Initial, term, statusFilter) == []
    ensures SelectedLead(Initial) == None
    ensures SaveFromPanel(Screen(Initial, InitialPanel), persist) == Screen(Initial, InitialPanel)
  {
  }

  /** No term and every status: both leads, highest score first. */
  lemma UnfilteredSeedOrder()
    ensures FilteredLeads(Seeded, "", AllStatuses) == [Ann, Bo]
  {
    assert Lower("") == "";
    ContainsEmpty(Lower(Ann.name));
    ContainsEmpty(Lower(Bo.name));
    assert Matches(Ann, "", AllStatuses) && Matches(Bo, "", AllStatuses);
    Seqs.FilterKeepsAll(Seeded.leads, MatchesFilter("", AllStatuses));
    assert [Bo][1..] == [] && ScoreSort.Sort(Desc, []) == [];
    assert ScoreSort.Sort(Desc, [Bo]) == [Bo];
    assert ScoreSort.Insert(Desc, Ann, [Bo]) == [Ann, Bo];
  }

  /** Lower-casing the seed's names and companies, and the term. */
  lemma SeedLowered()
    ensures Lower("Zeta") == "zeta" && Lower("zeta") == "zeta" && Lower("Bo") == "bo"
    ensures Lower("Ann") == "ann" && Lower("Acme") == "acme"
  {
    LowersTo("Zeta", "zeta");
    LowersTo("zeta", "zeta");
    LowersTo("Bo", "bo");
    LowersTo("Ann", "ann");
    LowersTo("Acme", "acme");
  }

  lemma LowersTo(s: string, t: string)
    requires |s| == |t| && forall i :: 0 <= i < |s| ==> LowerChar(s[i]) == t[i]
    ensures Lower(s) == t
  {
    assert forall i :: 0 <= i < |s| ==> Lower(s)[i] == t[i];
  }

  /** "zeta" occurs in "zeta" and in neither "ann" nor "acme". */
  lemma ZetaOccurrences()
    ensures Contains("zeta", "zeta")
    ensures !Contains("ann", "zeta") && !Contains("acme", "zeta")
  {
    assert OccursAt("zeta", "zeta", 0);
    assert forall i :: !OccursAt("ann", "zeta", i);
    assert forall i :: OccursAt("acme", "zeta", i) ==> i == 0;
    assert "acme"[0..4] == "acme" && "acme"[0] != "zeta"[0];
  }

  /** Of the two seed leads, only Bo matches the term "zeta". */
  lemma ZetaMatchesOnlyBo()
    ensures Matches(Bo, "zeta", AllStatuses) && !Matches(Ann, "zeta", AllStatuses)
  {
    SeedLowered();
    ZetaOccurrences();
  }

  /** The term "zeta" keeps only the lead whose company is Zeta. */
  lemma SearchByCompany()
    ensures FilteredLeads(Seeded, "zeta", AllStatuses) == [Bo]
  {
    ZetaMatchesOnlyBo();
    assert Seqs.Filter(Seeded.leads, MatchesFilter("zeta", AllStatuses)) == [Bo];
  }

  /** Converting Ann and unconverting the opportunity brings Ann back whole,
      her original id included, after Bo. */
  lemma ConvertAnnAndBack()
    ensures var converted := ConvertLead(Seeded, Ann, 1000);
            && converted.leads == [Bo]
            && converted.opportunities[0].accountName == "Acme"
            && UnconvertOpportunity(converted, 1000, 2000).leads == [Bo, Ann]
  {
    ConvertThenUnconvert(Seeded, Ann, 1000, 2000);
    assert Seqs.Filter(Seeded.leads, LeadIdIsNot(Ann.id)) == [Bo];
  }

  /** A well-formed address passes the check; one without `@` does not. */
  lemma SampleEmails()
    ensures ValidateEmail("ann@acme.com")
    ensures !ValidateEmail("not-an-email")
  {
    var good := "ann@acme.com";
    assert good[..3] == "ann" && good[4..8] == "acme" && good[9..] == "com";
    assert MatchesAt(good, 3, 8);
    RejectsMissingAt("not-an-email");
  }

  /** Saving Ann with the email "not-an-email" leaves the leads alone and
      shows the validation message. */
  lemma SaveWithMalformedEmail(persist: Persist)
    ensures var sc := Screen(SelectLead(Seeded, 1), Panel(FormData(Some("not-an-email"), Some("New")), false, None));
            && SaveFromPanel(sc, persist).state == sc.state
            && SaveFromPanel(sc, persist).panel.error == Some(InvalidEmailMessage)
  {
    RejectsMissingAt("not-an-email");
    assert Seqs.FindIndex(Seeded.leads, LeadHasId(1)) == Some(0);
  }
}
