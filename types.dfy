/** The records shared by the catalog, the chat and the simulation store
    (`src/types/index.ts`). Optional TypeScript properties are `Option`s;
    string unions are enumerations. */
module Types {
  import opened Seqs

  datatype Category = Fda | Iso | Eu | Other

  /** A section of a standard; `subsections` is empty where the property is absent. */
  datatype StandardSection = StandardSection(
    id: string,
    title: string,
    content: string,
    subsections: seq<StandardSection>)

  datatype RegulatoryStandard = RegulatoryStandard(
    id: string,
    name: string,
    description: string,
    authority: string,
    category: Category,
    sections: seq<StandardSection>)

  datatype Citation = Citation(standard: string, section: string, text: string, url: Option<string>)

  datatype SimulationStatus = Draft | Active | Completed

  datatype FindingSeverity = Minor | Major | Critical

  datatype AuditFinding = AuditFinding(
    id: string,
    title: string,
    description: string,
    severity: FindingSeverity,
    section: string,
    evidence: Option<string>)

  datatype AuditSimulation = AuditSimulation(
    id: string,
    title: string,
    description: string,
    standard: string,
    status: SimulationStatus,
    findings: seq<AuditFinding>,
    createdAt: string)

  datatype Role = User | Assistant

  datatype ChatMessage = ChatMessage(
    id: string,
    role: Role,
    content: string,
    citations: Option<seq<Citation>>,
    timestamp: string)
}
