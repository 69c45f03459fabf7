/** The form logic of `LeadDetailPanel`: the form state, the reset when a new
    lead arrives, input changes, and `handleSave` split at its `await` into
    `StartSave` and `FinishSave`. */
module LeadDetailPanel {
  import opened Wrappers
  import opened LeadTypes
  import opened EmailValidation

  /** The form's `Partial<Lead>`; the panel only ever edits email and status. */
  datatype FormData = FormData(email: Option<string>, status: Option<string>)

  datatype Panel = Panel(form: FormData, isSaving: bool, error: Option<string>)

  /** The panel before its first lead: an empty form, not saving, no error. */
  const InitialPanel := Panel(FormData(None, None), false, None)

  const InvalidEmailMessage := "Please enter a valid email address."

  const SaveFailedMessage := "Failed to save. Please try again."

  /** The effect on `lead`: a new lead resets the form to exactly its email and
      status and clears the error; when the lead goes away nothing changes. */
  function OnLeadChange(p: Panel, lead: Option<Lead>): (r: Panel)
    ensures lead.Some? ==> r.form == FormData(Some(lead.value.email), Some(lead.value.status))
    ensures lead.Some? ==> r.error == None && r.isSaving == p.isSaving
    ensures lead.None? ==> r == p
  {
    match lead
    case None => p
    case Some(l) => p.(form := FormData(Some(l.email), Some(l.status)), error := None)
  }

  /** The reset's partner: a form just reset to a lead and saved unedited
      gives back that lead, field for field. */
  lemma ResetThenMergeIsLead(p: Panel, l: Lead)
    ensures Merge(l, OnLeadChange(p, Some(l)).form) == l
  {
  }

  /** The two inputs of the form, by their `name` attribute. */
  datatype Field = EmailField | StatusField

  /** `handleInputChange`: the named field takes the input's value; the other
      field, the saving flag and the error are kept. */
  function InputChange(p: Panel, field: Field, value: string): (r: Panel)
    ensures field == EmailField ==> r.form.email == Some(value) && r.form.status == p.form.status
    ensures field == StatusField ==> r.form.status == Some(value) && r.form.email == p.form.email
    ensures r.isSaving == p.isSaving && r.error == p.error
  {
    match field
    case EmailField => p.(form := p.form.(email := Some(value)))
    case StatusField => p.(form := p.form.(status := Some(value)))
  }

  /** `{ ...lead, ...formData }`: the fields present in the form override the lead's. */
  function Merge(lead: Lead, form: FormData): Lead {
    lead.(email := form.email.GetOr(lead.email), status := form.status.GetOr(lead.status))
  }

  /** The guard of `handleSave`: a non-empty email in the form that fails the
      check. An absent or empty email is not checked. */
  predicate RejectsEmail(form: FormData) {
    form.email.Some? && form.email.value != "" && !ValidateEmail(form.email.value)
  }

  /** How the synchronous part of `handleSave` ends: no lead, a rejected email,
      or a record handed to `onSave` while the panel shows it is saving. */
  datatype SaveStart = NoLead | Invalid(panel: Panel) | Submitting(panel: Panel, record: Lead)

  /** `handleSave` up to `await onSave(...)`. */
  function StartSave(p: Panel, lead: Option<Lead>): (r: SaveStart)
    ensures r.NoLead? <==> lead.None?
    ensures r.Invalid? <==> lead.Some? && RejectsEmail(p.form)
    ensures r.Invalid? ==> r.panel == p.(error := Some(InvalidEmailMessage))
    ensures r.Submitting? ==> r.panel == p.(isSaving := true, error := None)
    ensures r.Submitting? ==>
              var l := lead.value;
              && r.record.id == l.id && r.record.name == l.name && r.record.company == l.company
              && r.record.source == l.source && r.record.score == l.score
              && r.record.email == (if p.form.email.Some? then p.form.email.value else l.email)
              && r.record.status == (if p.form.status.Some? then p.form.status.value else l.status)
    ensures r.Submitting? && p.form.email.Some? ==> r.record.email == "" || EmailPattern(r.record.email)
  {
    match lead
    case None => NoLead
    case Some(l) =>
      if RejectsEmail(p.form) then Invalid(p.(error := Some(InvalidEmailMessage)))
      else Submitting(p.(isSaving := true, error := None), Merge(l, p.form))
  }

  /** `handleSave` after `onSave` settles; `thrown` is the error it rejected
      with, if any. The saving flag drops whatever the outcome. */
  function FinishSave(p: Panel, thrown: Option<string>): (r: Panel)
    ensures !r.isSaving && r.form == p.form
    ensures thrown.Some? ==> r.error == Some(SaveFailedMessage)
    ensures thrown.None? ==> r.error == p.error
  {
    match thrown
    case Some(_) => p.(isSaving := false, error := Some(SaveFailedMessage))
    case None => p.(isSaving := false)
  }

  /** The whole of `handleSave`: the panel it leaves and the record it handed
      to `onSave`, if it called it. */
  datatype SaveStep = SaveStep(panel: Panel, submitted: Option<Lead>)

  function HandleSave(p: Panel, lead: Option<Lead>, thrown: Option<string>): (r: SaveStep)
    ensures lead.None? ==> r == SaveStep(p, None)
    ensures lead.Some? && RejectsEmail(p.form) ==>
              r.submitted == None && r.panel == p.(error := Some(InvalidEmailMessage))
    ensures lead.Some? && !RejectsEmail(p.form) ==>
              && r.submitted == Some(Merge(lead.value, p.form))
              && !r.panel.isSaving && r.panel.form == p.form
              && r.panel.error == (if thrown.Some? then Some(SaveFailedMessage) else None)
  {
    match StartSave(p, lead)
    case NoLead => SaveStep(p, None)
    case Invalid(q) => SaveStep(q, None)
    case Submitting(q, record) => SaveStep(FinishSave(q, thrown), Some(record))
  }
}
