/** The approval gate and the audit record it lives on (api/v1alpha1/actionaudit_types.go). */
module ApprovalApi {
  import opened Common
  import opened Executor
  import opened AuditRecord

  /** spec.gate.decision; the field is a string, so other values can be submitted. */
  datatype Decision = Undecided | Approve | Deny | Unrecognised(text: string)

  datatype Phase = NoPhase | Pending | Approved | Denied | Expired

  datatype Gate = Gate(
    actionIndex: nat, pendingPlugins: seq<string>, targets: seq<Target>, expiresAt: int,
    decision: Decision, decidedBy: string, decidedAt: Option<int>, reason: string)

  /** Details travel as raw JSON text. */
  type Record = ActionRecord<string>

  datatype AuditSpec = AuditSpec(
    policyUid: string, triggeredAt: int, metricValue: string, actions: seq<Record>,
    revertRequested: bool, gate: Option<Gate>)

  datatype AuditStatus = AuditStatus(phase: Phase, resumedAt: Option<int>, reverted: bool)

  datatype Audit = Audit(spec: AuditSpec, status: AuditStatus)

  /** The phase moves from empty to Pending, from Pending to one of its three ends, and stays. */
  predicate PhaseMoves(from: Phase, to: Phase) {
    from == to || (from == NoPhase && to == Pending) || (from == Pending && to in {Approved, Denied, Expired})
  }

  predicate Decided(a: Audit) {
    a.spec.gate.Some? && a.spec.gate.value.decision != Undecided
  }
}
