/** The audit-simulation store (`src/hooks/use-simulation.ts`): a list of
    `AuditSimulation` records that every operation replaces as a whole.

    The list operations are functions on sequences (`map`, `filter`, `find`
    in the source), proved about once; `SimulationStore` is the hook's
    state, whose methods assign their results to its one field. Fresh ids
    (`crypto.randomUUID()`) and timestamps are parameters. */
module Simulation {
  import opened Seqs
  import opened Types

  /** The argument of `createSimulation`: a simulation without its id,
      creation time, status and findings. */
  datatype SimulationDraft = SimulationDraft(title: string, description: string, standard: string)

  /** The argument of `addFinding`: a finding without its id. */
  datatype FindingDraft = FindingDraft(
    title: string,
    description: string,
    severity: FindingSeverity,
    section: string,
    evidence: Option<string>)

  /** `Partial<AuditSimulation>`: every property may be absent (`None`). */
  datatype SimulationPatch = SimulationPatch(
    id: Option<string>,
    title: Option<string>,
    description: Option<string>,
    standard: Option<string>,
    status: Option<SimulationStatus>,
    findings: Option<seq<AuditFinding>>,
    createdAt: Option<string>)

  /** The patch that supplies nothing. */
  const EmptyPatch := SimulationPatch(None, None, None, None, None, None, None)

  /** What the hook's `simulation` is: `null` when no id was asked for,
      `undefined` when none has that id, or the record found. */
  datatype Selection = NoRequest | Missing | Found(sim: AuditSimulation)

  /** Spreading a patch over a record: every supplied property replaces the
      record's, every other one is kept. */
  function Merge(sim: AuditSimulation, patch: SimulationPatch): (r: AuditSimulation)
    ensures patch.id.Some? ==> r.id == patch.id.value
    ensures patch.id.None? ==> r.id == sim.id
    ensures patch.title.Some? ==> r.title == patch.title.value
    ensures patch.title.None? ==> r.title == sim.title
    ensures patch.description.Some? ==> r.description == patch.description.value
    ensures patch.description.None? ==> r.description == sim.description
    ensures patch.standard.Some? ==> r.standard == patch.standard.value
    ensures patch.standard.None? ==> r.standard == sim.standard
    ensures patch.status.Some? ==> r.status == patch.status.value
    ensures patch.status.None? ==> r.status == sim.status
    ensures patch.findings.Some? ==> r.findings == patch.findings.value
    ensures patch.findings.None? ==> r.findings == sim.findings
    ensures patch.createdAt.Some? ==> r.createdAt == patch.createdAt.value
    ensures patch.createdAt.None? ==> r.createdAt == sim.createdAt
  {
    AuditSimulation(
      Pick(patch.id, sim.id),
      Pick(patch.title, sim.title),
      Pick(patch.description, sim.description),
      Pick(patch.standard, sim.standard),
      Pick(patch.status, sim.status),
      Pick(patch.findings, sim.findings),
      Pick(patch.createdAt, sim.createdAt))
  }

  /** Applying the same patch twice is applying it once. */
  lemma MergeIdempotent(sim: AuditSimulation, patch: SimulationPatch)
    ensures Merge(Merge(sim, patch), patch) == Merge(sim, patch)
  {
  }

  /** A patch that supplies nothing changes nothing. */
  lemma MergeEmpty(sim: AuditSimulation)
    ensures Merge(sim, EmptyPatch) == sim
  {
  }

  /** The ids of a list of simulations, in order. */
  function Ids(sims: seq<AuditSimulation>): (ids: seq<string>)
    ensures |ids| == |sims| && forall k :: 0 <= k < |sims| ==> ids[k] == sims[k].id
  {
    seq(|sims|, k requires 0 <= k < |sims| => sims[k].id)
  }

  /** No two simulations share an id. */
  ghost predicate UniqueIds(sims: seq<AuditSimulation>)
  {
    Distinct(Ids(sims))
  }

  /** The record `createSimulation` builds. */
  function NewSimulation(draft: SimulationDraft, id: string, createdAt: string): (r: AuditSimulation)
    ensures r.id == id && r.createdAt == createdAt && r.status == Draft && r.findings == []
    ensures r.title == draft.title && r.description == draft.description && r.standard == draft.standard
  {
    AuditSimulation(id, draft.title, draft.description, draft.standard, Draft, [], createdAt)
  }

  /** `updateSimulation` on the list: every record with the id is patched, in place in the order. */
  function Updated(sims: seq<AuditSimulation>, id: string, patch: SimulationPatch): (r: seq<AuditSimulation>)
    ensures |r| == |sims|
    ensures forall k :: 0 <= k < |sims| && sims[k].id == id ==> r[k] == Merge(sims[k], patch)
    ensures forall k :: 0 <= k < |sims| && sims[k].id != id ==> r[k] == sims[k]
  {
    seq(|sims|, k requires 0 <= k < |sims| => if sims[k].id == id then Merge(sims[k], patch) else sims[k])
  }

  /** `deleteSimulation` on the list: the records with another id, in their order. */
  function Deleted(sims: seq<AuditSimulation>, id: string): (r: seq<AuditSimulation>)
    ensures IsSubsequence(r, sims)
    ensures forall k :: 0 <= k < |r| ==> r[k].id != id && r[k] in sims
    ensures forall k :: 0 <= k < |sims| && sims[k].id != id ==> sims[k] in r
    ensures forall s :: multiset(r)[s] == if s.id != id then multiset(sims)[s] else 0
  {
    FilterCounts(sims, (s: AuditSimulation) => s.id != id);
    Filter(sims, (s: AuditSimulation) => s.id != id)
  }

  /** The finding `addFinding` builds. */
  function NewFinding(draft: FindingDraft, id: string): (f: AuditFinding)
    ensures f.id == id && f.title == draft.title && f.description == draft.description
    ensures f.severity == draft.severity && f.section == draft.section && f.evidence == draft.evidence
  {
    AuditFinding(id, draft.title, draft.description, draft.severity, draft.section, draft.evidence)
  }

  /** `addFinding` on the list: every record with the id gets the finding appended to its findings. */
  function WithFinding(sims: seq<AuditSimulation>, simulationId: string, finding: AuditFinding): (r: seq<AuditSimulation>)
    ensures |r| == |sims|
    ensures forall k :: 0 <= k < |sims| && sims[k].id == simulationId ==>
      r[k] == sims[k].(findings := sims[k].findings + [finding])
    ensures forall k :: 0 <= k < |sims| && sims[k].id != simulationId ==> r[k] == sims[k]
  {
    seq(|sims|, k requires 0 <= k < |sims| =>
      if sims[k].id == simulationId then sims[k].(findings := sims[k].findings + [finding]) else sims[k])
  }

  /** The hook's `simulation`: the first record with the id, when an id is given;
      the empty string counts as no id, as it is falsy. */
  function Lookup(id: Option<string>, sims: seq<AuditSimulation>): (r: Selection)
    ensures r.NoRequest? <==> id.None? || id.value == ""
    ensures r.Missing? <==> id.Some? && id.value != "" && forall k :: 0 <= k < |sims| ==> sims[k].id != id.value
    ensures r.Found? ==> exists k :: (0 <= k < |sims| && sims[k] == r.sim && sims[k].id == id.value
      && forall j :: 0 <= j < k ==> sims[j].id != id.value)
  {
    if id.None? || id.value == "" then NoRequest
    else
      match FirstIndex(sims, (s: AuditSimulation) => s.id == id.value)
      case None => Missing
      case Some(k) => Found(sims[k])
  }

  /** In a list with unique ids, the record found for an id is the one with that id. */
  lemma LookupUnique(id: string, sims: seq<AuditSimulation>, k: nat)
    requires UniqueIds(sims) && k < |sims| && sims[k].id == id && id != ""
    ensures Lookup(Some(id), sims) == Found(sims[k])
  {
    var r := Lookup(Some(id), sims);
    var j :| 0 <= j < |sims| && sims[j] == r.sim && sims[j].id == id && forall i :: 0 <= i < j ==> sims[i].id != id;
    assert Ids(sims)[j] == Ids(sims)[k];
  }

  /** A created simulation can be looked up right away when its id is new and not empty. */
  lemma CreateThenLookup(sims: seq<AuditSimulation>, draft: SimulationDraft, id: string, createdAt: string)
    requires id != "" && forall k :: 0 <= k < |sims| ==> sims[k].id != id
    ensures Lookup(Some(id), sims + [NewSimulation(draft, id, createdAt)]) == Found(NewSimulation(draft, id, createdAt))
  {
    var r := sims + [NewSimulation(draft, id, createdAt)];
    assert r[|sims|].id == id;
    var s := Lookup(Some(id), r);
    var j :| 0 <= j < |r| && r[j] == s.sim && r[j].id == id && forall i :: 0 <= i < j ==> r[i].id != id;
    assert j == |sims|;
  }

  /** Creating with an id not yet used keeps the ids unique. */
  lemma CreateKeepsUnique(sims: seq<AuditSimulation>, sim: AuditSimulation)
    requires UniqueIds(sims) && forall k :: 0 <= k < |sims| ==> sims[k].id != sim.id
    ensures UniqueIds(sims + [sim])
  {
    var ids := Ids(sims + [sim]);
    forall i, j | 0 <= i < j < |ids| ensures ids[i] != ids[j] {
      if j < |sims| {
        assert ids[i] == Ids(sims)[i] && ids[j] == Ids(sims)[j];
      } else {
        assert ids[i] == sims[i].id;
      }
    }
  }

  /** After deleting an id, looking it up finds nothing. */
  lemma DeleteThenLookup(sims: seq<AuditSimulation>, id: string)
    requires id != ""
    ensures Lookup(Some(id), Deleted(sims, id)) == Missing
  {
  }

  /** Deleting twice is deleting once. */
  lemma DeleteIdempotent(sims: seq<AuditSimulation>, id: string)
    ensures Deleted(Deleted(sims, id), id) == Deleted(sims, id)
  {
    FilterIdempotent(sims, (s: AuditSimulation) => s.id != id);
  }

  /** Deleting an id no record has leaves the list identical. */
  lemma DeleteUnknown(sims: seq<AuditSimulation>, id: string)
    requires forall k :: 0 <= k < |sims| ==> sims[k].id != id
    ensures Deleted(sims, id) == sims
  {
    FilterKeepsAll(sims, (s: AuditSimulation) => s.id != id);
  }

  /** Deleting keeps the ids unique. */
  lemma DeleteKeepsUnique(sims: seq<AuditSimulation>, id: string)
    requires UniqueIds(sims)
    ensures UniqueIds(Deleted(sims, id))
  {
    var r := Deleted(sims, id);
    IdsOfSubsequence(r, sims);
    SubsequenceOfDistinct(Ids(r), Ids(sims));
  }

  /** The ids of a subsequence are a subsequence of the ids. */
  lemma {:induction false} IdsOfSubsequence(s: seq<AuditSimulation>, xs: seq<AuditSimulation>)
    requires IsSubsequence(s, xs)
    ensures IsSubsequence(Ids(s), Ids(xs))
    decreases |xs|
  {
    if |s| > 0 {
      assert Ids(s)[1..] == Ids(s[1..]) && Ids(xs)[1..] == Ids(xs[1..]);
      if s[0] == xs[0] && IsSubsequence(s[1..], xs[1..]) {
        IdsOfSubsequence(s[1..], xs[1..]);
      } else {
        IdsOfSubsequence(s, xs[1..]);
      }
    }
  }

  /** Updating an id no record has leaves the list identical. */
  lemma UpdateUnknown(sims: seq<AuditSimulation>, id: string, patch: SimulationPatch)
    requires forall k :: 0 <= k < |sims| ==> sims[k].id != id
    ensures Updated(sims, id, patch) == sims
  {
  }

  /** Updating twice with the same patch is updating once, as long as the patch keeps the id. */
  lemma UpdateIdempotent(sims: seq<AuditSimulation>, id: string, patch: SimulationPatch)
    requires patch.id.None? || patch.id.value == id
    ensures Updated(Updated(sims, id, patch), id, patch) == Updated(sims, id, patch)
  {
    var once := Updated(sims, id, patch);
    forall k | 0 <= k < |sims| ensures Updated(once, id, patch)[k] == once[k] {
      if sims[k].id == id {
        MergeIdempotent(sims[k], patch);
      }
    }
  }

  /** No status transition is refused: whatever the record's status, a patch
      supplying a status sets it (a completed simulation can go back to draft). */
  lemma UpdateSetsAnyStatus(sims: seq<AuditSimulation>, id: string, status: SimulationStatus, k: nat)
    requires k < |sims| && sims[k].id == id
    ensures Updated(sims, id, EmptyPatch.(status := Some(status)))[k] == sims[k].(status := status)
  {
  }

  /** An update that leaves ids alone keeps the ids unique. */
  lemma UpdateKeepsUnique(sims: seq<AuditSimulation>, id: string, patch: SimulationPatch)
    requires UniqueIds(sims) && (patch.id.None? || patch.id.value == id)
    ensures UniqueIds(Updated(sims, id, patch))
  {
    assert Ids(Updated(sims, id, patch)) == Ids(sims);
  }

  /** Adding a finding for an id no record has leaves the list identical. */
  lemma AddFindingUnknown(sims: seq<AuditSimulation>, simulationId: string, finding: AuditFinding)
    requires forall k :: 0 <= k < |sims| ==> sims[k].id != simulationId
    ensures WithFinding(sims, simulationId, finding) == sims
  {
  }

  /** Adding a finding never changes an id, so ids stay unique. */
  lemma AddFindingKeepsUnique(sims: seq<AuditSimulation>, simulationId: string, finding: AuditFinding)
    requires UniqueIds(sims)
    ensures UniqueIds(WithFinding(sims, simulationId, finding))
  {
    assert Ids(WithFinding(sims, simulationId, finding)) == Ids(sims);
  }

  /** Adding a finding is the update that supplies the extended findings list. */
  lemma AddFindingIsUpdate(sims: seq<AuditSimulation>, simulationId: string, finding: AuditFinding, k: nat)
    requires k < |sims| && sims[k].id == simulationId
    ensures WithFinding(sims, simulationId, finding)[k]
      == Merge(sims[k], EmptyPatch.(findings := Some(sims[k].findings + [finding])))
  {
  }

  /** The hook's state: the stored `'audit-simulations'` list. */
  class SimulationStore {
    var simulations: seq<AuditSimulation>

    /** `useKV('audit-simulations', [])` with nothing stored yet. */
    constructor()
      ensures simulations == []
    {
      simulations := [];
    }

    /** `createSimulation`: append a draft with no findings and return it. */
    method CreateSimulation(draft: SimulationDraft, id: string, createdAt: string) returns (sim: AuditSimulation)
      modifies this
      ensures sim == NewSimulation(draft, id, createdAt)
      ensures simulations == old(simulations) + [sim]
    {
      sim := AuditSimulation(id, draft.title, draft.description, draft.standard, Draft, [], createdAt);
      simulations := simulations + [sim];
    }

    /** `updateSimulation`. */
    method UpdateSimulation(id: string, updates: SimulationPatch)
      modifies this
      ensures simulations == Updated(old(simulations), id, updates)
    {
      simulations := Updated(simulations, id, updates);
    }

    /** `deleteSimulation`. */
    method DeleteSimulation(id: string)
      modifies this
      ensures simulations == Deleted(old(simulations), id)
    {
      simulations := Deleted(simulations, id);
    }

    /** `addFinding`: the finding is returned whether or not a simulation matched. */
    method AddFinding(simulationId: string, draft: FindingDraft, id: string) returns (finding: AuditFinding)
      modifies this
      ensures finding == NewFinding(draft, id)
      ensures simulations == WithFinding(old(simulations), simulationId, finding)
    {
      finding := AuditFinding(id, draft.title, draft.description, draft.severity, draft.section, draft.evidence);
      simulations := WithFinding(simulations, simulationId, finding);
    }

  }
}
