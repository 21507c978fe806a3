/** The entities the tables, the queue and the worker streams share. */
module Types {

  /** jobs.status (migrations/000001_initial_schema.up.sql). */
  datatype Status = Pending | Running | Retrying | Completed | Failed | Cancelled

  /** The statuses handleResult and CancelJob refuse to act on. */
  predicate Settled(s: Status) { s == Completed || s == Failed || s == Cancelled }

  datatype RunStatus = RunRunning | RunCompleted | RunFailed | RunCancelled

  /** A job's text: submitted as is, or the JSON object submitStep builds. */
  datatype Payload = Raw(text: string) | Shell(command: string, previousOutput: string)

  /** jobs.max_retries is a 32-bit INT with CHECK (max_retries >= 0); other values fail the insert. */
  predicate RetriesFit(n: int) { 0 <= n < 0x8000_0000 }

  /** queue.Job. */
  datatype Job = Job(id: nat, retryCount: nat, maxRetries: int, kind: string, payload: Payload)
}
