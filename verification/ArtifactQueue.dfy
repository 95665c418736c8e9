/** The artifact command queue: each statement or transaction is one guarded
    update of the command rows and of the snapshot and checkpoint tables. */
module ArtifactQueue {
  import opened Wrappers

  datatype Status = Pending | Processing | Succeeded | Failed | Quarantined
  datatype Kind = Snapshot | Export | Restore | Import
  datatype Disposition = FailedForGood | Quarantine | Retryable

  datatype QueueError = FenceLost | CheckpointCorrupt | Unavailable

  const MAX_ATTEMPTS: nat := 5

  datatype Command = Command(
    kind: Kind,
    documentId: nat,
    generation: int,
    targetGeneration: Option<int>,
    targetName: Option<nat>,
    status: Status,
    attempts: nat,
    availableAt: int,
    requestedAt: int,
    leaseOwner: Option<nat>,
    leaseToken: Option<nat>,
    leaseUntil: Option<int>,
    startedAt: Option<int>,
    completedAt: Option<int>,
    failureCode: Option<nat>,
    resultSnapshotId: Option<nat>)

  /** What a claim returns to its worker. */
  datatype Job = Job(
    commandId: nat,
    leaseToken: nat,
    attempts: nat,
    documentId: nat,
    targetGeneration: Option<int>,
    targetName: Option<nat>,
    revokeGeneration: int)

  datatype Checkpoint = Checkpoint(providerName: nat, state: seq<int>, writerFence: int)

  /** The tables; `generations` are the document generations that exist. Tokens and
      snapshot ids are drawn fresh. */
  datatype Database = Database(
    commands: map<nat, Command>,
    snapshots: map<nat, nat>,
    checkpoints: map<(nat, int), Checkpoint>,
    generations: set<(nat, int)>,
    tokens: nat,
    snapshotIds: nat)

  function Min(a: int, b: int): int
  {
    if a < b then a else b
  }

  predicate Claimable(c: Command, now: int)
  {
    c.attempts < MAX_ATTEMPTS
    && ((c.status == Pending && c.availableAt <= now)
        || (c.status == Processing && c.leaseUntil.Some? && c.leaseUntil.value <= now))
  }

  function ClaimedBy(c: Command, worker: nat, token: nat, now: int, leaseSeconds: nat): Command
  {
    c.(status := Processing, leaseOwner := Some(worker), leaseToken := Some(token),
       leaseUntil := Some(now + leaseSeconds), attempts := c.attempts + 1,
       startedAt := if c.startedAt.Some? then c.startedAt else Some(now),
       completedAt := None, failureCode := None)
  }

  function Claimed(db: Database, id: nat, worker: nat, now: int, leaseSeconds: nat): Database
    requires id in db.commands
  {
    db.(commands := db.commands[id := ClaimedBy(db.commands[id], worker, db.tokens, now, leaseSeconds)],
        tokens := db.tokens + 1)
  }

  function JobOf(db: Database, id: nat, token: nat, revokeGeneration: int): Job
    requires id in db.commands
  {
    var c := db.commands[id];
    Job(id, token, c.attempts, c.documentId, c.targetGeneration, c.targetName, revokeGeneration)
  }

  /** The guard of every later update of a claimed row. */
  predicate Fenced(db: Database, job: Job)
  {
    job.commandId in db.commands
    && db.commands[job.commandId].status == Processing
    && db.commands[job.commandId].leaseToken == Some(job.leaseToken)
  }

  function Unleased(c: Command): Command
  {
    c.(leaseOwner := None, leaseToken := None, leaseUntil := None)
  }

  /** The committed transaction of a snapshot or export. */
  function Published(db: Database, job: Job, now: int): Database
    requires Fenced(db, job)
  {
    var c := Unleased(db.commands[job.commandId]);
    db.(commands := db.commands[job.commandId :=
                      c.(status := Succeeded, resultSnapshotId := Some(db.snapshotIds), completedAt := Some(now))],
        snapshots := db.snapshots[db.snapshotIds := job.commandId],
        snapshotIds := db.snapshotIds + 1)
  }

  const MAX_CHECKPOINT_BYTES: nat := 20 * 1024 * 1024

  /** The job names a generation, which is not zero, and a provider document. */
  predicate HasTarget(job: Job)
  {
    job.targetGeneration.Some? && job.targetGeneration.value != 0 && job.targetName.Some?
  }

  function RestoreError(db: Database, job: Job, state: seq<int>): Option<QueueError>
  {
    if !HasTarget(job) then Some(Unavailable)
    else if !(1 <= |state| <= MAX_CHECKPOINT_BYTES) then Some(CheckpointCorrupt)
    else if !Fenced(db, job) then Some(FenceLost)
    else
      var key := (job.documentId, job.targetGeneration.value);
      // A stored checkpoint is replaced only while its generation does not exist yet.
      if key in db.checkpoints && key in db.generations then Some(CheckpointCorrupt) else None
  }

  /** The committed transaction of a restore. */
  function Restored(db: Database, job: Job, state: seq<int>, now: int): Database
    requires RestoreError(db, job, state).None?
  {
    var c := Unleased(db.commands[job.commandId]);
    db.(commands := db.commands[job.commandId := c.(status := Succeeded, completedAt := Some(now))],
        checkpoints := db.checkpoints[(job.documentId, job.targetGeneration.value) :=
                         Checkpoint(job.targetName.value, state, job.revokeGeneration + 1)])
  }

  function FailureOf(job: Job, disposition: Disposition): Status
  {
    if disposition == Retryable && job.attempts < MAX_ATTEMPTS then Pending
    else if disposition == Quarantine then Quarantined
    else Failed
  }

  function FailedRow(c: Command, status: Status, code: nat, now: int): Command
  {
    Unleased(c).(status := status,
                 availableAt := if status == Pending then now + Min(60, c.attempts * c.attempts) else c.availableAt,
                 failureCode := if status == Pending then None else Some(code),
                 completedAt := if status == Pending then None else Some(now))
  }

  function FailedWith(db: Database, job: Job, disposition: Disposition, code: nat, now: int): Database
    requires Fenced(db, job)
  {
    db.(commands := db.commands[job.commandId :=
                      FailedRow(db.commands[job.commandId], FailureOf(job, disposition), code, now)])
  }

  /** The order in which rows are claimed. */
  predicate Before(commands: map<nat, Command>, a: nat, b: nat)
    requires a in commands && b in commands
  {
    var x, y := commands[a], commands[b];
    x.availableAt < y.availableAt
    || (x.availableAt == y.availableAt
        && (x.requestedAt < y.requestedAt || (x.requestedAt == y.requestedAt && a < b)))
  }

  /** `id` comes first, in claim order, among the claimable rows that nobody has locked. */
  ghost predicate FirstInOrder(commands: map<nat, Command>, locked: set<nat>, now: int, id: nat)
  {
    id in commands && id !in locked && Claimable(commands[id], now)
    && forall j :: j in commands && j !in locked && Claimable(commands[j], now) && j != id ==> Before(commands, id, j)
  }

  ghost predicate NoneClaimable(commands: map<nat, Command>, locked: set<nat>, now: int)
  {
    forall id :: id in commands && id !in locked ==> !Claimable(commands[id], now)
  }

  class PostgresArtifactQueue {
    var commands: map<nat, Command>
    var snapshots: map<nat, nat>
    var checkpoints: map<(nat, int), Checkpoint>
    var generations: set<(nat, int)>
    var tokens: nat
    var snapshotIds: nat

    function Tables(): Database
      reads this
    {
      Database(commands, snapshots, checkpoints, generations, tokens, snapshotIds)
    }

    /** The first claimable row, in claim order, that no other transaction has locked. */
    method Candidate(now: int, locked: set<nat>) returns (candidate: Option<nat>)
      ensures candidate.None? <==> NoneClaimable(commands, locked, now)
      ensures candidate.Some? ==> FirstInOrder(commands, locked, now, candidate.value)
    {
      var todo := commands.Keys - locked;
      candidate := None;
      while todo != {}
        invariant todo <= commands.Keys - locked
        invariant candidate.Some? ==>
          candidate.value in commands && candidate.value !in locked && Claimable(commands[candidate.value], now)
        invariant forall id :: id in commands && id !in locked && id !in todo && Claimable(commands[id], now) ==>
          candidate.Some? && (id == candidate.value || Before(commands, candidate.value, id))
        decreases |todo|
      {
        var id :| id in todo;
        todo := todo - {id};
        if Claimable(commands[id], now) && (candidate.None? || Before(commands, id, candidate.value)) {
          candidate := Some(id);
        }
      }
    }

    /** `joined` is the revoke generation of the document that is read back with the job;
        the claim commits even when reading back fails. */
    method Claim(worker: nat, leaseSeconds: nat, now: int, locked: set<nat>, joined: Option<int>) returns (job: Option<Job>)
      modifies this
      ensures old(NoneClaimable(commands, locked, now)) ==> Tables() == old(Tables()) && job.None?
      ensures !old(NoneClaimable(commands, locked, now)) ==>
              exists id :: old(FirstInOrder(commands, locked, now, id))
                && Tables() == Claimed(old(Tables()), id, worker, now, leaseSeconds)
                && job == if joined.Some? then Some(JobOf(Tables(), id, old(tokens), joined.value)) else None
    {
      job := None;
      var candidate := Candidate(now, locked);
      if candidate.Some? {
        var id := candidate.value;
        assert FirstInOrder(commands, locked, now, id);
        var row := commands[id];
        row := row.(status := Processing, leaseOwner := Some(worker), leaseToken := Some(tokens),
                    leaseUntil := Some(now + leaseSeconds), attempts := row.attempts + 1,
                    startedAt := if row.startedAt.Some? then row.startedAt else Some(now),
                    completedAt := None, failureCode := None);
        commands, tokens := commands[id := row], tokens + 1;
        if joined.Some? {
          job := Some(Job(id, tokens - 1, row.attempts, row.documentId, row.targetGeneration, row.targetName, joined.value));
        }
      }
    }

    method PublishSnapshot(job: Job, now: int) returns (error: Option<QueueError>)
      modifies this
      ensures error == if old(Fenced(Tables(), job)) then None else Some(FenceLost)
      ensures error.None? ==> Tables() == Published(old(Tables()), job, now)
      ensures error.Some? ==> Tables() == old(Tables())
    {
      if job.commandId !in commands || commands[job.commandId].status != Processing
         || commands[job.commandId].leaseToken != Some(job.leaseToken)
      {
        return Some(FenceLost);
      }
      snapshots := snapshots[snapshotIds := job.commandId];
      commands := commands[job.commandId :=
        Unleased(commands[job.commandId]).(status := Succeeded, resultSnapshotId := Some(snapshotIds),
                                           completedAt := Some(now))];
      snapshotIds := snapshotIds + 1;
      return None;
    }

    method CompleteRestore(job: Job, state: seq<int>, now: int) returns (error: Option<QueueError>)
      modifies this
      ensures error == old(RestoreError(Tables(), job, state))
      ensures error.None? ==> Tables() == Restored(old(Tables()), job, state, now)
      ensures error.Some? ==> Tables() == old(Tables())
    {
      if !HasTarget(job) {
        return Some(Unavailable);
      }
      if |state| < 1 || |state| > MAX_CHECKPOINT_BYTES {
        return Some(CheckpointCorrupt);
      }
      if job.commandId !in commands || commands[job.commandId].status != Processing
         || commands[job.commandId].leaseToken != Some(job.leaseToken)
      {
        return Some(FenceLost);
      }
      var key := (job.documentId, job.targetGeneration.value);
      if key in checkpoints && key in generations {
        return Some(CheckpointCorrupt);
      }
      checkpoints := checkpoints[key := Checkpoint(job.targetName.value, state, job.revokeGeneration + 1)];
      commands := commands[job.commandId :=
        Unleased(commands[job.commandId]).(status := Succeeded, completedAt := Some(now))];
      return None;
    }

    method Fail(job: Job, disposition: Disposition, code: nat, now: int) returns (error: Option<QueueError>)
      modifies this
      ensures error == if old(Fenced(Tables(), job)) then None else Some(FenceLost)
      ensures error.None? ==> Tables() == FailedWith(old(Tables()), job, disposition, code, now)
      ensures error.Some? ==> Tables() == old(Tables())
    {
      var status := if disposition == Retryable && job.attempts < MAX_ATTEMPTS then Pending
                    else if disposition == Quarantine then Quarantined else Failed;
      if job.commandId !in commands || commands[job.commandId].status != Processing
         || commands[job.commandId].leaseToken != Some(job.leaseToken)
      {
        return Some(FenceLost);
      }
      commands := commands[job.commandId := FailedRow(commands[job.commandId], status, code, now)];
      return None;
    }
  }
}
