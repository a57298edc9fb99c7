/**
 The admission handler for approval decisions (internal/webhook/v1alpha1/actionaudit_webhook.go)
 and what it guarantees over any sequence of updates to one record.
 */
module ApprovalWebhook {
  import opened Common
  import opened ApprovalApi

  datatype Refusal = GateRemoved | GateAdded | StampWritten | AlreadyDecided | NotAVerdict | NotOpen | Lapsed

  datatype Response = Allowed | Refused(why: Refusal) | Patched(spec: AuditSpec)

  /** The authenticated identity behind a request. */
  function RequesterName(user: string): string {
    if user != "" then user else "unknown"
  }

  /** Handle, for an update request: `stored` is the old object, `sent` the spec in the request. */
  function Handle(stored: Audit, sent: AuditSpec, user: string, now: int): Response {
    if sent.gate.None? && stored.spec.gate.None? then Allowed
    else if sent.gate.None? then Refused(GateRemoved)
    else if stored.spec.gate.None? then Refused(GateAdded)
    else
      var before, after := stored.spec.gate.value, sent.gate.value;
      if after.decision == before.decision then
        if after.decidedBy != before.decidedBy || after.decidedAt != before.decidedAt
        then Refused(StampWritten)
        else Allowed
      else if before.decision != Undecided then Refused(AlreadyDecided)
      else if after.decision !in {Approve, Deny} then Refused(NotAVerdict)
      else if stored.status.phase != Pending then Refused(NotOpen)
      else if !(now < before.expiresAt) then Refused(Lapsed)
      else Patched(sent.(gate := Some(after.(decidedBy := RequesterName(user), decidedAt := Some(now)))))
  }

  /** An update goes through if and only if the gate is neither added nor removed, and it leaves the verdict and
      its stamps alone or is the first verdict, a real one, on an open gate that has not expired. What
      is stored is what was sent, with a new verdict under the name and time of the request. */
  lemma AdmittedExactly(stored: Audit, sent: AuditSpec, user: string, now: int)
    ensures var response, before, after := Handle(stored, sent, user, now), stored.spec.gate, sent.gate;
            && (!response.Refused? <==>
                  || (before.None? && after.None?)
                  || (before.Some? && after.Some? && VerdictUnchanged(before.value, after.value))
                  || (before.Some? && after.Some? && before.value.decision == Undecided
                      && (after.value.decision == Approve || after.value.decision == Deny)
                      && stored.status.phase == Pending && now < before.value.expiresAt))
            && (response.Allowed? ==> before.Some? == after.Some? && (after.Some? ==> VerdictUnchanged(before.value, after.value)))
            && (response.Patched? ==>
                  after.Some? && response.spec == sent.(gate := Some(after.value.(
                    decidedBy := if user == "" then "unknown" else user, decidedAt := Some(now)))))
  {
  }

  predicate VerdictUnchanged(before: Gate, after: Gate) {
    after.decision == before.decision && after.decidedBy == before.decidedBy && after.decidedAt == before.decidedAt
  }

  // ---------------------------------------------------------------------------------------
  // Runs of updates
  // ---------------------------------------------------------------------------------------

  /** An update of the spec by anyone, or a status write by the operator, which the API server
      keeps apart: a spec update leaves the status alone and the other way round. */
  datatype Attempt = UpdateSpec(spec: AuditSpec, user: string, now: int) | UpdateStatus(status: AuditStatus)

  function Submit(a: Audit, attempt: Attempt): Audit {
    match attempt
    case UpdateStatus(status) => a.(status := status)
    case UpdateSpec(spec, user, now) =>
      match Handle(a, spec, user, now)
      case Allowed => a.(spec := spec)
      case Patched(patched) => a.(spec := patched)
      case Refused(_) => a
  }

  /** The record after the first k attempts. */
  function AfterAttempts(a: Audit, attempts: seq<Attempt>, k: nat): Audit
    requires k <= |attempts|
  {
    if k == 0 then a else Submit(AfterAttempts(a, attempts, k - 1), attempts[k - 1])
  }

  datatype Verdict = Verdict(decision: Decision, who: string, at: Option<int>)

  function VerdictOf(a: Audit): Option<Verdict> {
    if a.spec.gate.None? then None
    else Some(Verdict(a.spec.gate.value.decision, a.spec.gate.value.decidedBy, a.spec.gate.value.decidedAt))
  }

  const OPEN := Verdict(Undecided, "", None)

  /** attempts[i] is the admitted decision: made while the gate was undecided, Pending and not
      yet lapsed, and recorded under the name and time of that very request. */
  predicate Decides(a: Audit, attempts: seq<Attempt>, i: nat)
    requires i < |attempts|
  {
    var before, after := AfterAttempts(a, attempts, i), AfterAttempts(a, attempts, i + 1);
    && attempts[i].UpdateSpec?
    && attempts[i].spec.gate.Some?
    && attempts[i].spec.gate.value.decision in {Approve, Deny}
    && VerdictOf(before) == Some(OPEN)
    && before.status.phase == Pending
    && attempts[i].now < before.spec.gate.value.expiresAt
    && VerdictOf(after) == Some(Verdict(attempts[i].spec.gate.value.decision, RequesterName(attempts[i].user), Some(attempts[i].now)))
  }

  /** A gate the operator opened stays open until one attempt decides it; from then on neither the
      verdict, nor the name, nor the time next to it ever changes. */
  lemma {:induction false} VerdictIsWriteOnce(a: Audit, attempts: seq<Attempt>, k: nat)
    requires VerdictOf(a) == Some(OPEN)
    requires k <= |attempts|
    ensures VerdictOf(AfterAttempts(a, attempts, k)) == Some(OPEN)
            || exists i :: 0 <= i < k && Decides(a, attempts, i)
                           && VerdictOf(AfterAttempts(a, attempts, k)) == VerdictOf(AfterAttempts(a, attempts, i + 1))
    ensures forall i, j :: 0 <= i < j < k && Decides(a, attempts, i) ==> !Decides(a, attempts, j)
  {
    if k > 0 {
      VerdictIsWriteOnce(a, attempts, k - 1);
      var before := AfterAttempts(a, attempts, k - 1);
      if VerdictOf(before) == Some(OPEN) {
        assert VerdictOf(AfterAttempts(a, attempts, k)) == Some(OPEN) || Decides(a, attempts, k - 1);
        forall i | 0 <= i < k - 1
          ensures !Decides(a, attempts, i)
        {
          if Decides(a, attempts, i) {
            VerdictStays(a, attempts, i + 1, k - 1);
            assert false;
          }
        }
      } else {
        VerdictStays(a, attempts, k - 1, k);
      }
    }
  }

  lemma {:induction false} VerdictStays(a: Audit, attempts: seq<Attempt>, i: nat, k: nat)
    requires i <= k <= |attempts|
    requires Decided(AfterAttempts(a, attempts, i))
    ensures VerdictOf(AfterAttempts(a, attempts, k)) == VerdictOf(AfterAttempts(a, attempts, i))
    decreases k
  {
    if i < k {
      VerdictStays(a, attempts, i, k - 1);
    }
  }

  /** Updates that only add action records, as the operator's own do, are admitted unchanged. */
  lemma OperatorUpdatesAdmitted(stored: Audit, actions: seq<Record>, user: string, now: int)
    ensures Handle(stored, stored.spec.(actions := actions), user, now) == Allowed
  {
  }
}
