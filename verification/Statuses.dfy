/** The `work_status` type of the `fin_agents` schema (sql/fin_agents.sql). */
module Statuses {
  datatype Status = Pending | Running | Paused | Completed | Failed | Cancelled | Wrong

  /** The status list that every guard of the SQL statements excludes. */
  predicate Terminal(status: Status) {
    status.Completed? || status.Failed? || status.Cancelled? || status.Wrong?
  }
}
