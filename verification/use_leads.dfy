/** The state core of `src/hooks/useLeads.ts`: the lead and opportunity
    collections, the selected lead id and the sort direction, with the hook's
    derived views and handlers as pure transitions. The debounced search term
    and the status filter are inputs of the view; `Date.now()` is an injected
    `freshId`; the outcome of `saveLead` is a parameter. */
module UseLeads {
  import opened Wrappers
  import opened LeadTypes
  import opened Text
  import opened ScoreSort
  import Seqs

  datatype State = State(
    leads: seq<Lead>,
    opportunities: seq<Opportunity>,
    selectedId: Option<int>,
    sortOrder: SortOrder)

  /** The hook's state before the leads arrive: nothing loaded, nothing
      selected, highest scores first. */
  const Initial := State([], [], None, Desc)

  /** The status-filter value that lets every status through. */
  const AllStatuses := "All"

  /** The filter predicate: the lower-cased term occurs in the lower-cased name
      or company, and the status filter is "All" or equals the status. */
  predicate Matches(l: Lead, term: string, statusFilter: string) {
    && (Contains(Lower(l.name), Lower(term)) || Contains(Lower(l.company), Lower(term)))
    && (statusFilter == AllStatuses || l.status == statusFilter)
  }

  function MatchesFilter(term: string, statusFilter: string): Lead -> bool {
    (l: Lead) => Matches(l, term, statusFilter)
  }

  function LeadHasId(id: int): Lead -> bool {
    (l: Lead) => l.id == id
  }

  function LeadIdIsNot(id: int): Lead -> bool {
    (l: Lead) => l.id != id
  }

  function OpportunityHasId(id: int): Opportunity -> bool {
    (o: Opportunity) => o.id == id
  }

  function OpportunityIdIsNot(id: int): Opportunity -> bool {
    (o: Opportunity) => o.id != id
  }

  /** `filteredLeads`: the leads that pass the filter, ordered by score in the
      current direction, leads of equal score in their original order. */
  function FilteredLeads(s: State, term: string, statusFilter: string): (r: seq<Lead>)
    ensures forall l :: l in r <==> l in s.leads && Matches(l, term, statusFilter)
    ensures |r| <= |s.leads|
    ensures forall i :: 0 <= i < |r| - 1 ==> InOrder(s.sortOrder, r[i], r[i + 1])
    ensures forall k :: Seqs.IsSubsequence(WithScore(r, k), s.leads)
  {
    var kept := Seqs.Filter(s.leads, MatchesFilter(term, statusFilter));
    var r := Sort(s.sortOrder, kept);
    SameElements(r, kept);
    StableWithin(r, kept, s.leads);
    r
  }

  /** Two permutations of each other have the same length and the same elements. */
  lemma SameElements(a: seq<Lead>, b: seq<Lead>)
    requires multiset(a) == multiset(b)
    ensures |a| == |b|
    ensures forall x :: x in a <==> x in b
  {
    assert |a| == |multiset(a)|;
    forall x ensures x in a <==> x in b {
      assert x in a <==> x in multiset(a);
      assert x in b <==> x in multiset(b);
    }
  }

  /** A stable rearrangement of a subsequence of `s` keeps each score's leads
      in their order in `s`. */
  lemma StableWithin(r: seq<Lead>, kept: seq<Lead>, s: seq<Lead>)
    requires Seqs.IsSubsequence(kept, s)
    requires forall k :: WithScore(r, k) == WithScore(kept, k)
    ensures forall k :: Seqs.IsSubsequence(WithScore(r, k), s)
  {
    forall k ensures Seqs.IsSubsequence(WithScore(r, k), s) {
      Seqs.SubsequenceTransitive(WithScore(kept, k), kept, s);
    }
  }

  /** Each lead that passes the filter appears in `filteredLeads` exactly as
      often as in `leads`; no other lead appears. */
  lemma FilteredLeadsMultiplicity(s: State, term: string, statusFilter: string, l: Lead)
    ensures multiset(FilteredLeads(s, term, statusFilter))[l]
         == if Matches(l, term, statusFilter) then multiset(s.leads)[l] else 0
  {
    Seqs.FilterMultiplicity(s.leads, MatchesFilter(term, statusFilter), l);
  }

  /** With an empty search term and the "All" filter, `filteredLeads` is a
      permutation of all leads. */
  lemma FilteredLeadsUnfiltered(s: State)
    ensures multiset(FilteredLeads(s, "", AllStatuses)) == multiset(s.leads)
  {
    forall l ensures multiset(FilteredLeads(s, "", AllStatuses))[l] == multiset(s.leads)[l] {
      ContainsEmpty(Lower(l.name));
      FilteredLeadsMultiplicity(s, "", AllStatuses, l);
    }
  }

  /** `filteredLeads` is the one sorted, stable arrangement of the filtered
      leads: whichever stable sort the engine runs, it yields this sequence. */
  lemma FilteredLeadsIsStableSort(s: State, term: string, statusFilter: string, r: seq<Lead>)
    requires Sorted(s.sortOrder, r)
    requires forall k :: WithScore(r, k) == WithScore(Seqs.Filter(s.leads, MatchesFilter(term, statusFilter)), k)
    ensures r == FilteredLeads(s, term, statusFilter)
  {
    SortIsDetermined(s.sortOrder, Seqs.Filter(s.leads, MatchesFilter(term, statusFilter)), r);
  }

  /** `selectedLead`: the first lead whose id is the selected id, or none. */
  function SelectedLead(s: State): (r: Option<Lead>)
    ensures r.Some? <==> s.selectedId.Some? && exists i :: 0 <= i < |s.leads| && s.leads[i].id == s.selectedId.value
    ensures r.Some? ==> r.value.id == s.selectedId.value
    ensures r.Some? ==> exists i :: 0 <= i < |s.leads| && s.leads[i] == r.value
                                    && forall j :: 0 <= j < i ==> s.leads[j].id != r.value.id
  {
    match s.selectedId
    case None => None
    case Some(id) =>
      match Seqs.FindIndex(s.leads, LeadHasId(id))
      case None => None
      case Some(i) => Some(s.leads[i])
  }

  /** `handleSelectLead`: the panel shows the lead with that id, if there is one. */
  function SelectLead(s: State, id: int): (r: State)
    ensures r.leads == s.leads && r.opportunities == s.opportunities && r.sortOrder == s.sortOrder
    ensures SelectedLead(r).Some? <==> exists i :: 0 <= i < |s.leads| && s.leads[i].id == id
    ensures SelectedLead(r).Some? ==> SelectedLead(r).value.id == id
    ensures r.selectedId == Some(id)
  {
    s.(selectedId := Some(id))
  }

  /** `handleClosePanel`: no lead is selected afterwards. */
  function ClosePanel(s: State): (r: State)
    ensures r.leads == s.leads && r.opportunities == s.opportunities && r.sortOrder == s.sortOrder
    ensures SelectedLead(r) == None && r.selectedId == None
  {
    s.(selectedId := None)
  }

  /** `toggleSortOrder`: the direction flips and nothing else changes. */
  function ToggleSortOrder(s: State): (r: State)
    ensures r.sortOrder != s.sortOrder
    ensures r.leads == s.leads && r.opportunities == s.opportunities && r.selectedId == s.selectedId
  {
    s.(sortOrder := if s.sortOrder == Desc then Asc else Desc)
  }

  /** Toggling twice restores the state. */
  lemma ToggleSortOrderTwice(s: State)
    ensures ToggleSortOrder(ToggleSortOrder(s)) == s
  {
  }

  /** `prev.map(lead => lead.id === updated.id ? updated : lead)`. */
  function ReplaceById(leads: seq<Lead>, updated: Lead): (r: seq<Lead>)
    ensures |r| == |leads|
    ensures forall i :: 0 <= i < |leads| ==> r[i] == if leads[i].id == updated.id then updated else leads[i]
  {
    if leads == [] then []
    else [if leads[0].id == updated.id then updated else leads[0]] + ReplaceById(leads[1..], updated)
  }

  /** Replacing by id twice with the same lead is replacing once. */
  lemma ReplaceByIdIdempotent(leads: seq<Lead>, updated: Lead)
    ensures ReplaceById(ReplaceById(leads, updated), updated) == ReplaceById(leads, updated)
  {
  }

  /** The outcome of the `saveLead` service call. */
  datatype Persist = Persisted | Rejected(error: string)

  /** The state after `handleSaveLead` settles, and the error it re-throws, if any. */
  datatype SaveResult = SaveResult(state: State, thrown: Option<string>)

  /** `handleSaveLead`: once persisted, every lead with the updated lead's id is
      replaced by it, the rest stay where they were, and the panel closes; when
      persistence fails, nothing changes and the error is re-thrown. */
  function SaveLead(s: State, updated: Lead, persist: Persist): (r: SaveResult)
    ensures persist.Persisted? ==> r.thrown == None
    ensures persist.Persisted? ==> |r.state.leads| == |s.leads|
    ensures persist.Persisted? ==> forall i :: 0 <= i < |s.leads| ==>
              r.state.leads[i] == if s.leads[i].id == updated.id then updated else s.leads[i]
    ensures persist.Persisted? ==> SelectedLead(r.state) == None && r.state.selectedId == None
    ensures persist.Persisted? ==> r.state.opportunities == s.opportunities && r.state.sortOrder == s.sortOrder
    ensures persist.Rejected? ==> r.state == s && r.thrown == Some(persist.error)
  {
    match persist
    case Persisted => SaveResult(ClosePanel(s.(leads := ReplaceById(s.leads, updated))), None)
    case Rejected(e) => SaveResult(s, Some(e))
  }

  /** The opportunity `handleConvertLead` builds from a lead. */
  function NewOpportunity(lead: Lead, freshId: int): Opportunity {
    Opportunity(freshId, lead.name + "'s Opportunity", lead.company, Discovery, None, lead)
  }

  /** `handleConvertLead`: one opportunity carrying the lead is appended, every
      lead with that id is removed (the rest keep their order), and the panel
      closes. No service is called. */
  function ConvertLead(s: State, lead: Lead, freshId: int): (r: State)
    ensures |r.opportunities| == |s.opportunities| + 1
    ensures r.opportunities[..|s.opportunities|] == s.opportunities
    ensures var o := r.opportunities[|s.opportunities|];
            && o.id == freshId
            && o.name == lead.name + "'s Opportunity"
            && o.accountName == lead.company
            && o.stage == Discovery
            && o.amount == None
            && o.originalLeadData == lead
    ensures forall l :: l in r.leads <==> l in s.leads && l.id != lead.id
    ensures forall l :: multiset(r.leads)[l] == if l.id != lead.id then multiset(s.leads)[l] else 0
    ensures Seqs.IsSubsequence(r.leads, s.leads)
    ensures SelectedLead(r) == None && r.selectedId == None && r.sortOrder == s.sortOrder
  {
    var opportunities := s.opportunities + [NewOpportunity(lead, freshId)];
    assert opportunities[..|s.opportunities|] == s.opportunities;
    Seqs.FilterMultiplicities(s.leads, LeadIdIsNot(lead.id));
    State(Seqs.Filter(s.leads, LeadIdIsNot(lead.id)), opportunities, None, s.sortOrder)
  }

  /** `handleUnconvertOpportunity`: with no opportunity of that id nothing
      changes; otherwise the lead stored in the first such opportunity is
      appended and every opportunity with that id is removed. The lead is built
      as `{ id: freshId, ...originalLeadData }`, and since the stored data still
      carries the original id, the spread overrides `freshId`. */
  function UnconvertOpportunity(s: State, id: int, freshId: int): (r: State)
    ensures (forall j :: 0 <= j < |s.opportunities| ==> s.opportunities[j].id != id) ==> r == s
    ensures (exists j :: 0 <= j < |s.opportunities| && s.opportunities[j].id == id) ==>
              exists i :: && 0 <= i < |s.opportunities|
                          && s.opportunities[i].id == id
                          && (forall j :: 0 <= j < i ==> s.opportunities[j].id != id)
                          && r.leads == s.leads + [s.opportunities[i].originalLeadData]
    ensures forall o :: o in r.opportunities <==> o in s.opportunities && o.id != id
    ensures forall o :: multiset(r.opportunities)[o] == if o.id != id then multiset(s.opportunities)[o] else 0
    ensures Seqs.IsSubsequence(r.opportunities, s.opportunities)
    ensures r.selectedId == s.selectedId && r.sortOrder == s.sortOrder
  {
    match Seqs.FindIndex(s.opportunities, OpportunityHasId(id))
    case None =>
      Seqs.FilterKeepsAll(s.opportunities, OpportunityIdIsNot(id));
      s
    case Some(i) =>
      var restored := s.opportunities[i].originalLeadData;
      Seqs.FilterMultiplicities(s.opportunities, OpportunityIdIsNot(id));
      s.(leads := s.leads + [restored],
         opportunities := Seqs.Filter(s.opportunities, OpportunityIdIsNot(id)))
  }

  /** The fresh id handed to unconvert never reaches the restored lead. */
  lemma UnconvertIgnoresFreshId(s: State, id: int, freshId1: int, freshId2: int)
    ensures UnconvertOpportunity(s, id, freshId1) == UnconvertOpportunity(s, id, freshId2)
  {
  }

  /** Converting a lead under an unused opportunity id and then unconverting
      that opportunity gives back the opportunities as they were, and the leads
      without that id followed by the lead itself, every field equal, id included. */
  lemma ConvertThenUnconvert(s: State, lead: Lead, freshId: int, laterId: int)
    requires forall j :: 0 <= j < |s.opportunities| ==> s.opportunities[j].id != freshId
    ensures var r := UnconvertOpportunity(ConvertLead(s, lead, freshId), freshId, laterId);
            && r.opportunities == s.opportunities
            && r.leads == Seqs.Filter(s.leads, LeadIdIsNot(lead.id)) + [lead]
            && r.selectedId == None
  {
    var c := ConvertLead(s, lead, freshId);
    var n := |s.opportunities|;
    assert c.opportunities == s.opportunities + [NewOpportunity(lead, freshId)];
    assert Seqs.FindIndex(c.opportunities, OpportunityHasId(freshId)) == Some(n);
    Seqs.FilterAppend(s.opportunities, [NewOpportunity(lead, freshId)], OpportunityIdIsNot(freshId));
    Seqs.FilterKeepsAll(s.opportunities, OpportunityIdIsNot(freshId));
  }

  /** Lead ids are pairwise distinct. */
  predicate UniqueLeadIds(leads: seq<Lead>) {
    forall i, j :: 0 <= i < j < |leads| ==> leads[i].id != leads[j].id
  }

  /** With unique ids, the lead at position `i` occurs once, and no other lead
      with its id occurs at all. */
  lemma UniqueIdCounts(leads: seq<Lead>, i: int, x: Lead)
    requires UniqueLeadIds(leads) && 0 <= i < |leads| && x.id == leads[i].id
    ensures multiset(leads)[x] == if x == leads[i] then 1 else 0
  {
    assert leads == leads[..i] + [leads[i]] + leads[i + 1..];
    forall j | 0 <= j < |leads| && j != i ensures leads[j] != x {
    }
    assert x !in leads[..i] && x !in leads[i + 1..];
  }

  /** When lead ids are unique and the lead is present, the round trip only
      moves the lead to the end: the leads are a permutation of the original ones. */
  lemma ConvertThenUnconvertPermutes(s: State, lead: Lead, freshId: int, laterId: int)
    requires forall j :: 0 <= j < |s.opportunities| ==> s.opportunities[j].id != freshId
    requires lead in s.leads && UniqueLeadIds(s.leads)
    ensures multiset(UnconvertOpportunity(ConvertLead(s, lead, freshId), freshId, laterId).leads) == multiset(s.leads)
  {
    ConvertThenUnconvert(s, lead, freshId, laterId);
    MoveToEndPermutes(s.leads, lead);
  }

  /** Removing the leads with a lead's id and appending that lead permutes
      leads with unique ids. */
  lemma MoveToEndPermutes(leads: seq<Lead>, lead: Lead)
    requires lead in leads && UniqueLeadIds(leads)
    ensures multiset(Seqs.Filter(leads, LeadIdIsNot(lead.id)) + [lead]) == multiset(leads)
  {
    var kept := Seqs.Filter(leads, LeadIdIsNot(lead.id));
    var i :| 0 <= i < |leads| && leads[i] == lead;
    forall x ensures multiset(kept + [lead])[x] == multiset(leads)[x] {
      Seqs.FilterMultiplicity(leads, LeadIdIsNot(lead.id), x);
      if x.id == lead.id {
        UniqueIdCounts(leads, i, x);
      }
    }
    assert multiset(kept + [lead]) == multiset(leads);
  }

  function LeadIds(leads: seq<Lead>): set<int> {
    set l | l in leads :: l.id
  }

  function OriginIds(opportunities: seq<Opportunity>): set<int> {
    set o | o in opportunities :: o.originalLeadData.id
  }

  /** The ids whose lineage the state holds: the ids of the leads and the
      original lead ids carried by the opportunities. */
  function LineageIds(s: State): set<int> {
    LeadIds(s.leads) + OriginIds(s.opportunities)
  }

  /** Opportunities that share an id, or that carry leads of the same id, are
      the same record, and no lead's id is carried by an opportunity: each
      original lead lives in exactly one of the two collections. */
  predicate LineageInvariant(s: State) {
    && (forall o1, o2 :: o1 in s.opportunities && o2 in s.opportunities && o1.id == o2.id ==> o1 == o2)
    && (forall o1, o2 ::
          o1 in s.opportunities && o2 in s.opportunities && o1.originalLeadData.id == o2.originalLeadData.id
          ==> o1 == o2)
    && (forall l, o :: l in s.leads && o in s.opportunities ==> l.id != o.originalLeadData.id)
  }

  /** Converting a listed lead under an unused opportunity id moves its
      lineage from the leads to the opportunities. */
  lemma ConvertPreservesLineage(s: State, lead: Lead, freshId: int)
    requires LineageInvariant(s)
    requires lead in s.leads
    requires forall j :: 0 <= j < |s.opportunities| ==> s.opportunities[j].id != freshId
    ensures LineageInvariant(ConvertLead(s, lead, freshId))
    ensures LineageIds(ConvertLead(s, lead, freshId)) == LineageIds(s)
  {
    var r := ConvertLead(s, lead, freshId);
    var n := |s.opportunities|;
    assert r.opportunities == s.opportunities + [NewOpportunity(lead, freshId)];
    forall o | o in r.opportunities ensures o in s.opportunities || o == NewOpportunity(lead, freshId) {
    }
    assert lead.id in LineageIds(r) by {
      assert r.opportunities[n] in r.opportunities;
    }
  }

  /** Removing the opportunities with `id`, of which there is exactly the one
      at `i`, removes exactly that opportunity's original lead id. */
  lemma RemoveOpportunityOrigins(s: State, id: int, i: nat)
    requires LineageInvariant(s)
    requires i < |s.opportunities| && s.opportunities[i].id == id
    ensures OriginIds(Seqs.Filter(s.opportunities, OpportunityIdIsNot(id)))
         == OriginIds(s.opportunities) - {s.opportunities[i].originalLeadData.id}
    ensures forall o :: o in Seqs.Filter(s.opportunities, OpportunityIdIsNot(id)) ==>
              o.originalLeadData.id != s.opportunities[i].originalLeadData.id
  {
    var rest := Seqs.Filter(s.opportunities, OpportunityIdIsNot(id));
    var back := s.opportunities[i].originalLeadData;
    assert s.opportunities[i] in s.opportunities;
  }

  /** Unconverting moves the lineage of the opportunity's lead back to the leads. */
  lemma UnconvertPreservesLineage(s: State, id: int, freshId: int)
    requires LineageInvariant(s)
    ensures LineageInvariant(UnconvertOpportunity(s, id, freshId))
    ensures LineageIds(UnconvertOpportunity(s, id, freshId)) == LineageIds(s)
  {
    var r := UnconvertOpportunity(s, id, freshId);
    match Seqs.FindIndex(s.opportunities, OpportunityHasId(id))
    case None =>
    case Some(i) =>
      var back := s.opportunities[i].originalLeadData;
      assert r.leads == s.leads + [back];
      RemoveOpportunityOrigins(s, id, i);
      assert LeadIds(r.leads) == LeadIds(s.leads) + {back.id} by {
        forall l | l in r.leads ensures l in s.leads || l == back {
        }
      }
      assert back.id in OriginIds(s.opportunities) by {
        assert s.opportunities[i] in s.opportunities;
      }
  }

  /** A save keeps every lead id where it was, so it keeps the lineage. */
  lemma SavePreservesLineage(s: State, updated: Lead, persist: Persist)
    requires LineageInvariant(s)
    ensures LineageInvariant(SaveLead(s, updated, persist).state)
    ensures LineageIds(SaveLead(s, updated, persist).state) == LineageIds(s)
  {
    var r := SaveLead(s, updated, persist).state;
    if persist.Persisted? {
      assert forall i :: 0 <= i < |s.leads| ==> r.leads[i].id == s.leads[i].id;
      assert LeadIds(r.leads) == LeadIds(s.leads) by {
        forall x | x in LeadIds(s.leads) ensures x in LeadIds(r.leads) {
          var i :| 0 <= i < |s.leads| && s.leads[i].id == x;
          assert r.leads[i] in r.leads;
        }
        forall x | x in LeadIds(r.leads) ensures x in LeadIds(s.leads) {
          var i :| 0 <= i < |r.leads| && r.leads[i].id == x;
          assert s.leads[i] in s.leads;
        }
      }
    }
  }
}
