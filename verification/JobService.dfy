/** The JobService object (internal/service/job_service.go). */
module JobService {
  import opened Types
  import T = Tables
  import D = Delivery
  import opened Postgres
  import opened Redis
  import opened Relay

  class Service {
    const db: Database
    const queue: RedisQueue

    constructor (db: Database, queue: RedisQueue)
      ensures this.db == db && this.queue == queue
    {
      this.db, this.queue := db, queue;
    }

    method SubmitJob(maxRetries: int, kind: string, payload: Payload) returns (r: T.Inserted)
      requires db.Valid()
      modifies db
      ensures db.Valid() && (db.State(), r) == T.InsertJob(old(db.State()), maxRetries, kind, payload)
    {
      r := db.InsertJob(maxRetries, kind, payload);
    }

    /** False when the job does not exist or is already settled. */
    method CancelJob(id: nat, now: int) returns (ok: bool)
      modifies db, queue
      ensures old(db.Valid()) ==> db.Valid()
      ensures ok <==> id in old(db.jobs) && !Settled(old(db.jobs)[id].status)
      ensures ok ==> DiskOf(db, queue) == D.CancelDisk(old(DiskOf(db, queue)), id, now, D.ALL)
      ensures !ok ==> DiskOf(db, queue) == old(DiskOf(db, queue))
    {
      var row := db.GetJob(id);
      if row.None? || Settled(row.value.status) {
        return false;
      }
      db.UpdateJobState(id, Cancelled, row.value.retryCount);
      db.CancelOutboxEntry(id, now);
      queue.Cancel(id);
      ok := true;
    }
  }
}
