/** The detail panel wired to the hook as the page does it: the panel shows
    `selectedLead` and its `onSave` is `handleSaveLead`. */
module SaveFlow {
  import opened Wrappers
  import opened LeadTypes
  import opened UseLeads
  import opened LeadDetailPanel

  datatype Screen = Screen(state: State, panel: Panel)

  /** Pressing Save in the panel. */
  function SaveFromPanel(sc: Screen, persist: Persist): (r: Screen)
    ensures SelectedLead(sc.state).None? ==> r == sc
    ensures SelectedLead(sc.state).Some? && RejectsEmail(sc.panel.form) ==>
              r.state == sc.state && r.panel == sc.panel.(error := Some(InvalidEmailMessage))
    ensures SelectedLead(sc.state).Some? && !RejectsEmail(sc.panel.form) && persist.Persisted? ==>
              var edited := Merge(SelectedLead(sc.state).value, sc.panel.form);
              && |r.state.leads| == |sc.state.leads|
              && (forall i :: 0 <= i < |sc.state.leads| ==>
                    r.state.leads[i] == if sc.state.leads[i].id == edited.id then edited else sc.state.leads[i])
              && SelectedLead(r.state) == None && r.state.selectedId == None
              && r.state.opportunities == sc.state.opportunities
              && r.state.sortOrder == sc.state.sortOrder
              && r.panel.form == sc.panel.form && r.panel.error == None && !r.panel.isSaving
    ensures SelectedLead(sc.state).Some? && !RejectsEmail(sc.panel.form) && persist.Rejected? ==>
              && r.state == sc.state && r.panel.form == sc.panel.form
              && r.panel.error == Some(SaveFailedMessage) && !r.panel.isSaving
  {
    match StartSave(sc.panel, SelectedLead(sc.state))
    case NoLead => sc
    case Invalid(q) => Screen(sc.state, q)
    case Submitting(q, record) =>
      var saved := SaveLead(sc.state, record, persist);
      Screen(saved.state, FinishSave(q, saved.thrown))
  }

  /** A rejected email never reaches the lead collection, whatever the service would do. */
  lemma InvalidEmailNeverSaved(sc: Screen, persist: Persist)
    requires RejectsEmail(sc.panel.form)
    ensures SaveFromPanel(sc, persist).state == sc.state
  {
  }

  /** After a successful save the lead with the selected id carries the form's
      email and status, and keeps its other fields. */
  lemma SavedLeadCarriesForm(sc: Screen, i: int)
    requires SelectedLead(sc.state).Some? && !RejectsEmail(sc.panel.form)
    requires 0 <= i < |sc.state.leads| && sc.state.leads[i].id == sc.state.selectedId.value
    ensures var l := SaveFromPanel(sc, Persisted).state.leads[i];
            var before := SelectedLead(sc.state).value;
            && l.id == before.id && l.name == before.name && l.company == before.company
            && l.source == before.source && l.score == before.score
            && l.email == sc.panel.form.email.GetOr(before.email)
            && l.status == sc.panel.form.status.GetOr(before.status)
  {
  }
}
