/** Any interleaving of workers, lease expiries and crashes over the queue. */
module ArtifactRuns {
  import opened Wrappers
  import opened ArtifactQueue

  /** A publish or restore transaction that committed. */
  datatype Commit = Commit(commandId: nat, leaseToken: nat)

  /** The tables, the clock, every job ever handed out, by lease token, and the
      transactions committed so far. A worker may act on its job at any later time,
      again and again, or never. */
  datatype System = System(db: Database, now: int, jobs: map<nat, Job>, commits: seq<Commit>)

  datatype Step =
    | Tick(seconds: nat)
    | Request(id: nat, kind: Kind, documentId: nat, generation: int, targetGeneration: Option<int>, targetName: Option<nat>)
    | GenerationAppears(documentId: nat, generation: int)
    | Claim(id: nat, worker: nat, leaseSeconds: nat, revokeGeneration: int)
    | Publish(token: nat)
    | CompleteRestore(token: nat, state: seq<int>)
    | Fail(token: nat, disposition: Disposition, code: nat)

  function NewCommand(step: Step, now: int): Command
    requires step.Request?
  {
    Command(step.kind, step.documentId, step.generation, step.targetGeneration, step.targetName, Pending, 0, now, now,
            None, None, None, None, None, None, None)
  }

  /** A step whose guard fails changes nothing. */
  function Next(s: System, step: Step): System
  {
    match step
    case Tick(seconds) => s.(now := s.now + seconds)
    case Request(id, _, _, _, _, _) =>
      if id in s.db.commands then s
      else s.(db := s.db.(commands := s.db.commands[id := NewCommand(step, s.now)]))
    case GenerationAppears(documentId, generation) =>
      s.(db := s.db.(generations := s.db.generations + {(documentId, generation)}))
    case Claim(id, worker, leaseSeconds, revokeGeneration) =>
      if id in s.db.commands && Claimable(s.db.commands[id], s.now) then
        var db := Claimed(s.db, id, worker, s.now, leaseSeconds);
        s.(db := db, jobs := s.jobs[s.db.tokens := JobOf(db, id, s.db.tokens, revokeGeneration)])
      else s
    case Publish(token) =>
      if token in s.jobs && Fenced(s.db, s.jobs[token]) then
        s.(db := Published(s.db, s.jobs[token], s.now), commits := s.commits + [Commit(s.jobs[token].commandId, token)])
      else s
    case CompleteRestore(token, state) =>
      if token in s.jobs && RestoreError(s.db, s.jobs[token], state).None? then
        s.(db := Restored(s.db, s.jobs[token], state, s.now),
           commits := s.commits + [Commit(s.jobs[token].commandId, token)])
      else s
    case Fail(token, disposition, code) =>
      if token in s.jobs && Fenced(s.db, s.jobs[token]) then
        s.(db := FailedWith(s.db, s.jobs[token], disposition, code, s.now))
      else s
  }

  function At(steps: seq<Step>, n: nat): System
    requires n <= |steps|
  {
    if n == 0 then System(Database(map[], map[], map[], {}, 0, 0), 0, map[], [])
    else Next(At(steps, n - 1), steps[n - 1])
  }

  // ----- every reachable state -----

  function JobsFor(jobs: map<nat, Job>, id: nat): set<nat>
  {
    set token | token in jobs && jobs[token].commandId == id
  }

  predicate Terminal(c: Command)
  {
    c.status == Succeeded || c.status == Failed || c.status == Quarantined
  }

  /** A row is leased exactly while it is processed, by the job that its token names. */
  ghost predicate RowInv(s: System, id: nat, c: Command)
  {
    && (c.status == Processing <==> c.leaseToken.Some?)
    && (c.leaseToken.Some? ==>
          c.leaseToken.value in s.jobs && s.jobs[c.leaseToken.value].commandId == id
          && s.jobs[c.leaseToken.value].attempts == c.attempts)
    && c.attempts <= MAX_ATTEMPTS
    && (c.status == Pending ==> c.attempts < MAX_ATTEMPTS)
    && c.attempts == |JobsFor(s.jobs, id)|
    && (c.status != Succeeded ==> forall i :: 0 <= i < |s.commits| ==> s.commits[i].commandId != id)
  }

  ghost predicate Inv(s: System)
  {
    && (forall id :: id in s.db.commands ==> RowInv(s, id, s.db.commands[id]))
    && (forall token :: token in s.jobs ==>
          token < s.db.tokens && s.jobs[token].leaseToken == token && s.jobs[token].commandId in s.db.commands)
    && (forall i :: 0 <= i < |s.commits| ==> s.commits[i].commandId in s.db.commands)
    && (forall i, j :: 0 <= i < j < |s.commits| ==> s.commits[i].commandId != s.commits[j].commandId)
  }

  /** Only the row of command `id` changed, and no job was handed out. */
  lemma RowUpdated(s: System, t: System, id: nat, c: Command)
    requires Inv(s) && id in s.db.commands && t.db.commands == s.db.commands[id := c]
    requires t.jobs == s.jobs && t.db.tokens == s.db.tokens
    requires RowInv(t, id, c)
    requires t.commits == s.commits
             || (s.db.commands[id].status == Processing && exists token :: t.commits == s.commits + [Commit(id, token)])
    ensures Inv(t)
  {
    forall other | other in t.db.commands ensures RowInv(t, other, t.db.commands[other]) {
      if other != id { assert RowInv(s, other, s.db.commands[other]); }
    }
    assert RowInv(s, id, s.db.commands[id]);
  }

  lemma ClaimedRow(s: System, step: Step)
    requires Inv(s) && step.Claim? && step.id in s.db.commands && Claimable(s.db.commands[step.id], s.now)
    ensures RowInv(Next(s, step), step.id, Next(s, step).db.commands[step.id])
  {
    var id, t := step.id, Next(s, step);
    assert RowInv(s, id, s.db.commands[id]);
    assert JobsFor(t.jobs, id) == JobsFor(s.jobs, id) + {s.db.tokens};
    assert s.db.tokens !in JobsFor(s.jobs, id);
    hide JobsFor;
  }

  lemma UnclaimedRow(s: System, step: Step, other: nat)
    requires Inv(s) && step.Claim? && step.id in s.db.commands && Claimable(s.db.commands[step.id], s.now)
    requires other in s.db.commands && other != step.id
    ensures RowInv(Next(s, step), other, Next(s, step).db.commands[other])
  {
    var t := Next(s, step);
    assert RowInv(s, other, s.db.commands[other]);
    assert JobsFor(t.jobs, other) == JobsFor(s.jobs, other);
    hide JobsFor;
  }

  lemma ClaimInv(s: System, step: Step)
    requires Inv(s) && step.Claim?
    ensures Inv(Next(s, step))
  {
    hide RowInv, JobsFor, Claimable;
    var t := Next(s, step);
    if step.id in s.db.commands && Claimable(s.db.commands[step.id], s.now) {
      forall other | other in t.db.commands ensures RowInv(t, other, t.db.commands[other]) {
        if other == step.id {
          ClaimedRow(s, step);
        } else {
          UnclaimedRow(s, step, other);
        }
      }
    }
  }

  lemma RequestInv(s: System, step: Step)
    requires Inv(s) && step.Request?
    ensures Inv(Next(s, step))
  {
    var id, t := step.id, Next(s, step);
    if id !in s.db.commands {
      assert JobsFor(s.jobs, id) == {};
      forall other | other in t.db.commands ensures RowInv(t, other, t.db.commands[other]) {
        if other != id { assert RowInv(s, other, s.db.commands[other]); }
      }
    }
  }

  lemma PublishInv(s: System, step: Step)
    requires Inv(s) && step.Publish?
    ensures Inv(Next(s, step))
  {
    var t := Next(s, step);
    if t != s {
      var id := s.jobs[step.token].commandId;
      assert RowInv(s, id, s.db.commands[id]);
      RowUpdated(s, t, id, t.db.commands[id]);
    }
  }

  lemma RestoreInv(s: System, step: Step)
    requires Inv(s) && step.CompleteRestore?
    ensures Inv(Next(s, step))
  {
    var t := Next(s, step);
    if t != s {
      var id := s.jobs[step.token].commandId;
      assert RowInv(s, id, s.db.commands[id]);
      RowUpdated(s, t, id, t.db.commands[id]);
    }
  }

  lemma FailInv(s: System, step: Step)
    requires Inv(s) && step.Fail?
    ensures Inv(Next(s, step))
  {
    var t := Next(s, step);
    if t != s {
      var id := s.jobs[step.token].commandId;
      assert RowInv(s, id, s.db.commands[id]);
      RowUpdated(s, t, id, t.db.commands[id]);
    }
  }

  lemma StepInv(s: System, step: Step)
    requires Inv(s)
    ensures Inv(Next(s, step))
  {
    match step
    case Tick(_) => SameRows(s, Next(s, step));
    case GenerationAppears(_, _) => SameRows(s, Next(s, step));
    case Request(_, _, _, _, _, _) => RequestInv(s, step);
    case Claim(_, _, _, _) => ClaimInv(s, step);
    case Publish(_) => PublishInv(s, step);
    case CompleteRestore(_, _) => RestoreInv(s, step);
    case Fail(_, _, _) => FailInv(s, step);
  }

  lemma SameRows(s: System, t: System)
    requires Inv(s) && t.db.commands == s.db.commands && t.jobs == s.jobs && t.db.tokens == s.db.tokens
    requires t.commits == s.commits
    ensures Inv(t)
  {
    forall id | id in t.db.commands ensures RowInv(t, id, t.db.commands[id]) {
      assert RowInv(s, id, s.db.commands[id]);
    }
  }

  lemma {:induction false} RunInv(steps: seq<Step>, n: nat)
    requires n <= |steps|
    ensures Inv(At(steps, n))
  {
    if n > 0 {
      RunInv(steps, n - 1);
      StepInv(At(steps, n - 1), steps[n - 1]);
    }
  }

  // ----- the claims -----

  /** A command is claimed at most five times, and a pending one fewer. */
  lemma AtMostFiveClaims(steps: seq<Step>, id: nat)
    ensures var s := At(steps, |steps|);
            |JobsFor(s.jobs, id)| <= MAX_ATTEMPTS
            && (id in s.db.commands && s.db.commands[id].status == Pending ==> |JobsFor(s.jobs, id)| < MAX_ATTEMPTS)
  {
    var s := At(steps, |steps|);
    RunInv(steps, |steps|);
    if id in s.db.commands {
      assert RowInv(s, id, s.db.commands[id]);
    } else {
      assert JobsFor(s.jobs, id) == {};
    }
  }

  /** At most one publish or restore of a command ever commits. */
  lemma AtMostOneCommit(steps: seq<Step>, i: nat, j: nat)
    requires var commits := At(steps, |steps|).commits;
             i < |commits| && j < |commits| && commits[i].commandId == commits[j].commandId
    ensures i == j
  {
    RunInv(steps, |steps|);
  }

  lemma StepKeepsTerminal(s: System, step: Step, id: nat)
    requires Inv(s) && id in s.db.commands && Terminal(s.db.commands[id])
    ensures id in Next(s, step).db.commands && Next(s, step).db.commands[id] == s.db.commands[id]
  {
    assert RowInv(s, id, s.db.commands[id]);
  }

  /** A succeeded, failed or quarantined row never changes again. */
  lemma {:induction false} TerminalIsFinal(steps: seq<Step>, i: nat, j: nat, id: nat)
    requires i <= j <= |steps|
    requires id in At(steps, i).db.commands && Terminal(At(steps, i).db.commands[id])
    ensures id in At(steps, j).db.commands && At(steps, j).db.commands[id] == At(steps, i).db.commands[id]
  {
    if i < j {
      hide Next, Inv;
      TerminalIsFinal(steps, i, j - 1, id);
      assert At(steps, j) == Next(At(steps, j - 1), steps[j - 1]);
      hide At, Terminal;
      RunInv(steps, j - 1);
      StepKeepsTerminal(At(steps, j - 1), steps[j - 1], id);
    }
  }

  /** The job of `token` is no longer the one that its row is leased to. */
  ghost predicate Superseded(s: System, token: nat)
  {
    token in s.jobs && !Fenced(s.db, s.jobs[token])
  }

  lemma StepKeepsSuperseded(s: System, step: Step, token: nat)
    requires Inv(s) && Superseded(s, token)
    ensures Superseded(Next(s, step), token) && Next(s, step).jobs[token] == s.jobs[token]
  {
    var id := s.jobs[token].commandId;
    assert RowInv(s, id, s.db.commands[id]);
    assert s.jobs[token].leaseToken == token;
  }

  lemma {:induction false} StaysSuperseded(steps: seq<Step>, i: nat, j: nat, token: nat)
    requires i <= j <= |steps| && Superseded(At(steps, i), token)
    ensures Superseded(At(steps, j), token)
  {
    if i < j {
      StaysSuperseded(steps, i, j - 1, token);
      RunInv(steps, j - 1);
      StepKeepsSuperseded(At(steps, j - 1), steps[j - 1], token);
    }
  }

  /** Once a row has been claimed again or finished, whatever its earlier worker still
      attempts changes nothing, forever. */
  lemma OldTokenChangesNothing(steps: seq<Step>, i: nat, j: nat, token: nat)
    requires i <= j < |steps| && Superseded(At(steps, i), token)
    requires steps[j] == Publish(token) || (steps[j].CompleteRestore? && steps[j].token == token)
             || (steps[j].Fail? && steps[j].token == token)
    ensures At(steps, j + 1) == At(steps, j)
  {
    StaysSuperseded(steps, i, j, token);
  }

  /** A claim supersedes every job handed out before for the same command. */
  lemma ClaimSupersedes(s: System, step: Step, token: nat)
    requires Inv(s) && step.Claim? && step.id in s.db.commands && Claimable(s.db.commands[step.id], s.now)
    requires token in s.jobs && s.jobs[token].commandId == step.id
    ensures Superseded(Next(s, step), token)
  {
    assert s.jobs[token].leaseToken == token;
  }

  /** Succeeded exactly when a publish or restore committed. */
  lemma {:induction false} SucceededIffCommitted(steps: seq<Step>, n: nat, id: nat)
    requires n <= |steps| && id in At(steps, n).db.commands
    ensures At(steps, n).db.commands[id].status == Succeeded <==>
            exists i :: 0 <= i < |At(steps, n).commits| && At(steps, n).commits[i].commandId == id
  {
    var s := At(steps, n);
    RunInv(steps, n);
    assert RowInv(s, id, s.db.commands[id]);
    if s.db.commands[id].status == Succeeded {
      var i := CommitOf(steps, n, id);
    }
  }

  lemma {:induction false} CommitOf(steps: seq<Step>, n: nat, id: nat) returns (i: nat)
    requires n <= |steps| && id in At(steps, n).db.commands && At(steps, n).db.commands[id].status == Succeeded
    ensures i < |At(steps, n).commits| && At(steps, n).commits[i].commandId == id
  {
    var s := At(steps, n - 1);
    if id in s.db.commands && s.db.commands[id].status == Succeeded {
      i := CommitOf(steps, n - 1, id);
    } else {
      i := |s.commits|;
    }
  }
}
