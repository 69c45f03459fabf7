/** The records of `src/types/Leads.ts`. A score is a JavaScript number in the
    source; here it is an integer. */
module LeadTypes {
  import opened Wrappers

  datatype Lead = Lead(
    id: int,
    name: string,
    company: string,
    email: string,
    source: string,
    score: int,
    status: string)

  datatype Stage = Discovery | Proposal | Negotiation | Closed

  /** `originalLeadData` is typed `Omit<Lead, "id">` in the source, but the
      object rest `const { ...originalLeadData } = leadToConvert` copies every
      own property, `id` included; so at run time it is a whole lead. */
  datatype Opportunity = Opportunity(
    id: int,
    name: string,
    accountName: string,
    stage: Stage,
    amount: Option<int>,
    originalLeadData: Lead)

  /** The `"desc" | "asc"` sort direction of the lead list. */
  datatype SortOrder = Desc | Asc
}
