/** The status vocabulary shared by the API and the dashboards. Statuses are
    plain strings in the application; these are the values it gives meaning to. */
module Statuses {

  const NotStarted := "Not Started"
  const InProgress := "In Progress"
  const Completed := "Completed"
  const CompletedLate := "Completed Late"
  const NotRequired := "Not Required"
  const Audited := "Audited"

  const AuditPending := "Pending"
  const AuditApproved := "Approved"
  const AuditReopened := "Reopened"

  /** The frequency label of a task that does not recur. */
  const OneTime := "One Time"

  /** The two statuses that mean the work is done: a status update to one of
      them stamps `completed_at` and may spawn a successor. */
  predicate IsCompletion(status: string) {
    status == Completed || status == CompletedLate
  }

  /** The statuses the dashboards do not count as pending. */
  predicate IsClosed(status: string) {
    IsCompletion(status) || status == NotRequired
  }
}
