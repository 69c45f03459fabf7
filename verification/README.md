# Lead console state core, in Dafny

A model of the logic of a small lead-management console: the `useLeads` hook
that owns the leads and opportunities and derives the filtered, score-sorted
lead list, and the form logic of the lead detail panel (email check, save
guard and merge, form reset). Everything is a pure function over immutable
records; the clock, the mocked persistence service and the debounce timer
become parameters.

Modules, leaf first:

- `Wrappers` (`wrappers.dfy`): `Option`.
- `Seqs` (`seqs.dfy`): order-preserving `Filter`, `FindIndex`, `IsSubsequence`.
- `LeadTypes` (`lead_types.dfy`): `Lead`, `Opportunity`, `Stage`, `SortOrder`.
- `Text` (`text.dfy`): ASCII lower-casing, substring search, the `\s` class.
- `ScoreSort` (`score_sort.dfy`): the stable sort by score.
- `UseLeads` (`use_leads.dfy`): the hook's state and handlers.
- `EmailValidation` (`email_validation.dfy`): the email regular expression.
- `LeadDetailPanel` (`lead_detail_panel.dfy`): the panel's form state and `handleSave`.
- `SaveFlow` (`save_flow.dfy`): the panel wired to the hook, as the page wires them.
- `Scenarios` (`scenarios.dfy`): worked examples on a two-lead seed.

Three places where the code does something other than what its types and
names suggest. The model follows the code in each:

- Unconvert restores the lead with its ORIGINAL id, not a fresh one.
  `originalLeadData` is typed `Omit<Lead, "id">`, but it is made by an object
  rest (`const { ...originalLeadData } = leadToConvert`), which copies `id` as
  well. The later `{ id: Date.now(), ...originalLeadData }` therefore has its
  fresh id overridden by the spread. `UnconvertIgnoresFreshId` and
  `ConvertThenUnconvert` state this.
- Convert calls no service and cannot fail. `saveOpportunity` exists among
  the services, but the hook never calls it.
- The hook has no `updateOpportunity` handler. The page destructures one
  (src/components/ui/MainContent.tsx:29), but the hook neither defines nor
  returns it.

## Model

| member | source | states |
|---|---|---|
| `UseLeads.FilteredLeads` | src/hooks/useLeads.ts:46-61 | a lead is in the list iff it is in `leads` and its lower-cased name or company contains the lower-cased term and the filter is "All" or its status; never longer than `leads`; adjacent leads in score order for the direction; leads of one score in their order in `leads` |
| `UseLeads.FilteredLeadsMultiplicity` | src/hooks/useLeads.ts:47-57 | each passing lead occurs exactly as often as in `leads`, every other lead not at all: nothing added, nothing duplicated |
| `UseLeads.FilteredLeadsUnfiltered` | src/hooks/useLeads.ts:47-57 | with an empty term and "All" the list is a permutation of all leads |
| `UseLeads.FilteredLeadsIsStableSort` | src/hooks/useLeads.ts:58-60 | any sorted, stable arrangement of the passing leads is exactly the list, so the engine's own stable sort yields it |
| `ScoreSort.Sort` | src/hooks/useLeads.ts:58-60 | the result is a permutation of the input, sorted for the comparator, and keeps leads of equal score in input order |
| `ScoreSort.Insert` | src/hooks/useLeads.ts:58-60 | inserting adds exactly one element and places the new lead first among its equal-score leads, the others in their order |
| `ScoreSort.InsertSorted` | src/hooks/useLeads.ts:58-60 | inserting into a sorted sequence gives a sorted sequence |
| `ScoreSort.SortedStableUnique` | src/hooks/useLeads.ts:58-60 | two sorted sequences with the same leads per score in the same order are equal |
| `ScoreSort.SortIsDetermined` | src/hooks/useLeads.ts:58-60 | every stable sort by score of a sequence equals `Sort` of it |
| `UseLeads.SelectedLead` | src/hooks/useLeads.ts:63-66 | some lead iff a lead has the selected id; then it is the first such lead; none when nothing is selected |
| `UseLeads.SelectLead` | src/hooks/useLeads.ts:68-71 | the stored selected id becomes `id`; the selected lead then exists iff a lead has that id, and has that id; collections unchanged |
| `UseLeads.ClosePanel` | src/hooks/useLeads.ts:72 | the stored selected id becomes null, so no lead is selected even after that id reappears; collections unchanged |
| `UseLeads.ToggleSortOrder` | src/hooks/useLeads.ts:73-76 | the direction changes; nothing else does |
| `UseLeads.ToggleSortOrderTwice` | src/hooks/useLeads.ts:73-76 | toggling twice is the identity |
| `UseLeads.ReplaceById` | src/hooks/useLeads.ts:82-84 | same length; each position holds the updated lead if its id matches, otherwise the old lead |
| `UseLeads.ReplaceByIdIdempotent` | src/hooks/useLeads.ts:82-84 | replacing by id twice with one lead equals replacing once |
| `UseLeads.SaveLead` | src/hooks/useLeads.ts:78-92 | once persisted: every lead with the id is replaced, others unchanged in place, length kept, the stored selected id null, nothing thrown; if persistence fails: state unchanged and the same error re-thrown |
| `UseLeads.ConvertLead` | src/hooks/useLeads.ts:94-106 | appends exactly one opportunity: the fresh id, name `name + "'s Opportunity"`, account the company, stage Discovery, no amount, the whole lead as original data; removes every lead with the id, the rest keeping order and multiplicity; the stored selected id becomes null |
| `UseLeads.UnconvertOpportunity` | src/hooks/useLeads.ts:108-121 | unknown id: state unchanged; otherwise appends the lead stored in the first opportunity with the id, and removes every opportunity with the id, the rest keeping order and multiplicity; selection kept |
| `UseLeads.UnconvertIgnoresFreshId` | src/hooks/useLeads.ts:114-117 | the restored lead does not depend on the fresh id; the spread of the stored data overrides it |
| `UseLeads.ConvertThenUnconvert` | src/hooks/useLeads.ts:94-121 | convert under an unused id, then unconvert: opportunities as before; leads are the others followed by the lead itself, every field equal, id included |
| `UseLeads.ConvertThenUnconvertPermutes` | src/hooks/useLeads.ts:94-121 | with unique lead ids and a listed lead, the round trip permutes the leads |
| `UseLeads.MoveToEndPermutes` | src/hooks/useLeads.ts:104 | with unique ids, removing the leads with a listed lead's id and appending that lead is a permutation |
| `UseLeads.ConvertPreservesLineage` | src/hooks/useLeads.ts:94-106 | converting a listed lead under an unused id keeps every original lead in exactly one collection, with the same set of lineage ids |
| `UseLeads.UnconvertPreservesLineage` | src/hooks/useLeads.ts:108-121 | unconvert keeps every original lead in exactly one collection, with the same set of lineage ids |
| `UseLeads.SavePreservesLineage` | src/hooks/useLeads.ts:78-92 | a save keeps lead ids, so it keeps the lineage invariant and ids |
| `Seqs.Filter` | src/hooks/useLeads.ts:47-57 | `filter`: no longer than the input; holds exactly the elements passing the predicate; a subsequence of the input |
| `Seqs.FilterMultiplicity` | src/hooks/useLeads.ts:104 | kept elements occur as often as in the input, dropped ones not at all |
| `Seqs.FilterAppend` | src/hooks/useLeads.ts:120 | filtering distributes over concatenation |
| `Seqs.FindIndex` | src/hooks/useLeads.ts:109-111 | `find`: the position of the first element passing the predicate; none iff no element passes |
| `Text.Lower` | src/hooks/useLeads.ts:50-55 | same length, each character lower-cased, no upper-case letter left |
| `Text.LowerIdempotent` | src/hooks/useLeads.ts:50-55 | lower-casing twice is lower-casing once |
| `Text.Contains` | src/hooks/useLeads.ts:50-55 | `includes`: true iff the needle occurs at some position of the haystack |
| `Text.ContainsEmpty` | src/hooks/useLeads.ts:50-55 | the empty term occurs in every string |
| `EmailValidation.ValidateEmail` | src/components/leads/LeadsDetailPanel/LeadsDetailPanel.tsx:40-41 | true iff the string is three non-empty runs without `@` or whitespace, joined by `@` and `.` |
| `EmailValidation.PatternAtFirstAt` | src/components/leads/LeadsDetailPanel/LeadsDetailPanel.tsx:40-41 | the expression matches iff the local part before the `@` is non-empty with no `@` or whitespace, and the domain after it has none either and has a `.` with a character on each side |
| `EmailValidation.RejectsWhitespace` | src/components/leads/LeadsDetailPanel/LeadsDetailPanel.tsx:40-41 | a string holding any `\s` character is rejected |
| `EmailValidation.RejectsMissingAt` | src/components/leads/LeadsDetailPanel/LeadsDetailPanel.tsx:40-41 | a string without `@` is rejected |
| `EmailValidation.RejectsTwoAts` | src/components/leads/LeadsDetailPanel/LeadsDetailPanel.tsx:40-41 | a string with two or more `@` is rejected |
| `LeadDetailPanel.OnLeadChange` | src/components/leads/LeadsDetailPanel/LeadsDetailPanel.tsx:26-31 | a new lead makes the form exactly its email and status and clears the error; no lead changes nothing |
| `LeadDetailPanel.ResetThenMergeIsLead` | src/components/leads/LeadsDetailPanel/LeadsDetailPanel.tsx:26-31 | a form just reset to a lead and saved unedited merges back into exactly that lead |
| `LeadDetailPanel.InputChange` | src/components/leads/LeadsDetailPanel/LeadsDetailPanel.tsx:33-38 | the named field takes the value; the other field, the flag and the error are kept |
| `LeadDetailPanel.StartSave` | src/components/leads/LeadsDetailPanel/LeadsDetailPanel.tsx:43-52 | no lead: nothing; a non-empty failing email: the validation message and no save; otherwise saving starts with the error cleared, and the record sent is the lead with only email and status taken from the form; an email from the form is empty or well formed |
| `LeadDetailPanel.FinishSave` | src/components/leads/LeadsDetailPanel/LeadsDetailPanel.tsx:51-57 | the flag ends false whatever the outcome; a rejected save sets "Failed to save. Please try again." |
| `LeadDetailPanel.HandleSave` | src/components/leads/LeadsDetailPanel/LeadsDetailPanel.tsx:43-58 | the whole handler: no-op without a lead; validation error without a call; otherwise the merged record is sent and the panel ends not saving, with an error iff the save threw |
| `SaveFlow.SaveFromPanel` | src/components/ui/MainContent.tsx:98-102 | Save with nothing selected changes nothing; a failing email leaves the state alone and only sets the message; a persisted save replaces the leads with the id by the merged record, nulls the stored selected id, keeps opportunities, sort order and the form, and clears the error and flag; a failed one leaves the state and form alone and shows the failure |
| `SaveFlow.InvalidEmailNeverSaved` | src/components/leads/LeadsDetailPanel/LeadsDetailPanel.tsx:45-48 | a rejected email never reaches the lead collection |
| `SaveFlow.SavedLeadCarriesForm` | src/components/leads/LeadsDetailPanel/LeadsDetailPanel.tsx:52 | after a persisted save the lead keeps id, name, company, source and score, and carries the form's email and status |
| `Scenarios.NothingBeforeLoad` | src/hooks/useLeads.ts:17-28 | in the initial state the list is empty, nothing is selected, and Save in the initial panel changes nothing |
| `Scenarios.UnfilteredSeedOrder` | src/hooks/useLeads.ts:46-61 | seed Ann (80) and Bo (50), no term, "All": the list is Ann then Bo |
| `Scenarios.SearchByCompany` | src/hooks/useLeads.ts:47-57 | the term "zeta" keeps only Bo, whose company is Zeta |
| `Scenarios.ConvertAnnAndBack` | src/hooks/useLeads.ts:94-121 | converting Ann leaves Bo and an Acme opportunity; unconverting gives Bo then Ann |
| `Scenarios.SampleEmails` | src/components/leads/LeadsDetailPanel/LeadsDetailPanel.tsx:40-41 | "ann@acme.com" passes and "not-an-email" fails |
| `Scenarios.SaveWithMalformedEmail` | src/components/leads/LeadsDetailPanel/LeadsDetailPanel.tsx:45-48 | saving with "not-an-email" leaves the state alone and shows the validation message |

## Left out

- The debounce (`useDebounce`, the 300 ms timer): timer scheduling. The debounced term is an input of `FilteredLeads`.
- The initial fetch effect, `isLoading`, the load error and the services: asynchronous I/O. The outcome of `saveLead` is the `Persist` parameter, and what `onSave` throws is the `thrown` parameter of the panel.
- `Date.now()`: a clock. It is the `freshId` argument. Uniqueness is a precondition where a lemma needs it.
- `console.*` logging: it has no effect on state.
- `handleUpdateOpportunity`: it is not defined in the hook.
- The intermediate renders between `setIsSaving(true)` and the settled save appear only as `StartSave`'s panel. React's batching and the memoisation of derived values are not modelled.
- `Text.Lower`: lower-cases ASCII letters only, not full Unicode `toLowerCase`. This keeps the case mapping finite and checkable.
- `score` and `Opportunity.amount`: JavaScript numbers in the source, integers here. NaN, infinities and fractional values are not modelled; the core never sets `amount` beyond leaving it absent.
- Rendering: the page, the lists, the side menu, the inputs and the CSS class strings carry no logic.
