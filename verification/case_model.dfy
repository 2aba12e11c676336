/** Diagnosis cases: their fields, what a reviewer needs to see filled in, and the text
    that is embedded for retrieval. */
module CaseModel {
  import opened Text

  datatype CaseStatus = Draft | PendingReview | Approved | Rejected | Disabled | Superseded

  datatype CaseIndex = Waiting | Enqueued | Live | Partial | Broken | Removed

  datatype Content = Content(
    deviceType: Option<string>, deviceModel: Option<string>, alarmName: Option<string>,
    symptomSummary: Option<string>, timeseries: Option<string>, rootCause: string,
    resolutionSteps: seq<string>, evidenceRefs: seq<string>)

  datatype Case = Case(
    session: nat, version: nat, status: CaseStatus, index: CaseIndex, active: bool,
    createdBy: string, reviewer: Option<string>, supersedes: Option<nat>,
    embeddingText: Option<string>, content: Content)

  /** The embedding of a text: an injective abstraction of the provider's vector. */
  datatype Vector = Embedded(text: string)

  /** Statuses a reviewer's decision leads to. */
  predicate Reviewed(status: CaseStatus) {
    status in {Approved, Rejected, Disabled, Superseded}
  }

  /** Once withdrawn, a case must disappear from retrieval. */
  predicate Withdrawn(status: CaseStatus) {
    status in {Disabled, Superseded}
  }

  /** Statuses that an approval has led to. */
  predicate WasApproved(status: CaseStatus) {
    status in {Approved, Disabled, Superseded}
  }

  /** The moves the lifecycle allows. */
  predicate MayMove(from: CaseStatus, to: CaseStatus) {
    || from == to
    || (from == Draft && to == PendingReview)
    || (from == PendingReview && to in {Approved, Rejected})
    || (from == Approved && Withdrawn(to))
  }

  predicate IsSpace(c: char) {
    || c in " \t\n\r" || c == '\U{0B}' || c == '\U{0C}' || '\U{1C}' <= c <= '\U{1F}'
    || c in {'\U{85}', '\U{A0}', '\U{1680}', '\U{2028}', '\U{2029}', '\U{202F}', '\U{205F}', '\U{3000}'}
    || '\U{2000}' <= c <= '\U{200A}'
  }

  function PartText(o: Option<string>): seq<string> {
    match o
    case None => []
    case Some(s) =>
      var t := Trim(s, IsSpace);
      if t == "" then [] else [t]
  }

  const STEP_SEPARATOR := "\U{FF1B}"

  function BuildEmbeddingText(c: Content): string {
    Join(
      PartText(c.deviceType) + PartText(c.deviceModel) + PartText(c.alarmName) + PartText(c.symptomSummary)
      + PartText(c.timeseries) + PartText(Some(c.rootCause))
      + PartText(Some(Join(c.resolutionSteps, STEP_SEPARATOR))),
      "\n")
  }

  predicate Filled(o: Option<string>) {
    o.Some? && o.value != ""
  }

  predicate Complete(c: Content, createdBy: string) {
    && Filled(c.deviceType) && Filled(c.deviceModel) && Filled(c.alarmName) && Filled(c.symptomSummary)
    && c.rootCause != "" && c.resolutionSteps != [] && c.evidenceRefs != [] && createdBy != ""
  }

  function Lacking(name: string, present: bool): seq<string> {
    if present then [] else [name]
  }

  /** The names of the fields that keep a draft from review: none exactly when every
      required field is filled in and every reference is known. */
  function MissingCaseFields(c: Content, createdBy: string, validEvidence: set<string>): (missing: seq<string>)
    ensures missing == [] <==>
              Complete(c, createdBy) && forall i :: 0 <= i < |c.evidenceRefs| ==> c.evidenceRefs[i] in validEvidence
  {
    Lacking("device_type", Filled(c.deviceType)) + Lacking("device_model", Filled(c.deviceModel))
    + Lacking("alarm_name", Filled(c.alarmName)) + Lacking("symptom_summary", Filled(c.symptomSummary))
    + Lacking("root_cause", c.rootCause != "") + Lacking("resolution_steps", c.resolutionSteps != [])
    + Lacking("evidence_refs", c.evidenceRefs != []) + Lacking("created_by", createdBy != "")
    + Lacking("valid_evidence_refs", forall i :: 0 <= i < |c.evidenceRefs| ==> c.evidenceRefs[i] in validEvidence)
  }

  datatype Field<+T> = Keep | Put(value: T)

  /** The fields a patch or revision request sets. */
  datatype Patch = Patch(
    deviceType: Field<Option<string>>, deviceModel: Field<Option<string>>, alarmName: Field<Option<string>>,
    symptomSummary: Field<Option<string>>, timeseries: Field<Option<string>>, rootCause: Field<string>,
    resolutionSteps: Field<seq<string>>, evidenceRefs: Field<seq<string>>)

  function Or<T>(f: Field<T>, current: T): T {
    if f.Put? then f.value else current
  }

  function Patched(c: Content, p: Patch): Content {
    Content(
      Or(p.deviceType, c.deviceType), Or(p.deviceModel, c.deviceModel), Or(p.alarmName, c.alarmName),
      Or(p.symptomSummary, c.symptomSummary), Or(p.timeseries, c.timeseries), Or(p.rootCause, c.rootCause),
      Or(p.resolutionSteps, c.resolutionSteps), Or(p.evidenceRefs, c.evidenceRefs))
  }
}
