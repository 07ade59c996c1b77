/** What becomes of a dispatched task, of its group and of its account, by the exception's own class. */
module Outcomes {
  import opened Base
  import opened Tasks
  import opened TaskProtocol
  import opened Errors
  import opened Runner

  // ---------------- the exception classes ----------------

  predicate IsDead(exc: Exc) {
    exc.AuthKeyUnregistered? || exc.UserDeactivated? || exc.UserDeactivatedBan? || exc.SessionRevoked?
  }

  predicate IsPrivate(exc: Exc) {
    exc.ChannelPrivate? || exc.ChatAdminRequired? || exc.UserBannedInChannel? || exc.ChatWriteForbidden?
  }

  predicate IsInvalid(exc: Exc) {
    exc.ChannelInvalid? || exc.PeerIdInvalid? || exc.UsernameInvalid? || exc.UsernameNotOccupied?
  }

  /** A password request, or a class the runner does not know. */
  predicate IsUnnamed(exc: Exc) {
    exc.SessionPasswordNeeded? || exc.Other?
  }

  predicate Scans(kind: TaskType) {
    kind.ScanMessages? || kind.ScanMembers?
  }

  // ---------------- the task ----------------

  /** The task fails for good: its type is unknown, its group is missing or invalid, or it has used up its
      retries on errors nobody knows. */
  predicate FailsForGood(kind: TaskType, hasAccount: bool, hasGroup: bool, outcome: Outcome, retry: nat) {
    && hasAccount
    && (|| kind.UnknownType?
        || (outcome.Finished? && Scans(kind) && !hasGroup)
        || (outcome.Raised? && IsInvalid(outcome.exc))
        || (outcome.Raised? && IsUnnamed(outcome.exc) && retry >= 3))
  }

  /** The task is done: its work finished, or its group turned out to be private. */
  predicate IsDone(kind: TaskType, hasAccount: bool, hasGroup: bool, outcome: Outcome) {
    && hasAccount && !kind.UnknownType?
    && (|| (outcome.Finished? && (Scans(kind) ==> hasGroup))
        || (outcome.Raised? && IsPrivate(outcome.exc)))
  }

  /** The task is tried again and the try is counted. */
  predicate IsRetried(kind: TaskType, hasAccount: bool, outcome: Outcome, retry: nat) {
    hasAccount && !kind.UnknownType? && outcome.Raised? && IsUnnamed(outcome.exc) && retry < 3
  }

  /** The verdict, without the runner's own classification. */
  lemma {:induction false} VerdictIs(kind: TaskType, hasAccount: bool, hasGroup: bool, outcome: Outcome, threshold: int)
    ensures var verdict := Verdicts(kind, hasAccount, hasGroup, outcome, threshold);
            && (verdict.Completed? <==> IsDone(kind, hasAccount, hasGroup, outcome))
            && (verdict.Failed? <==> FailsForGood(kind, hasAccount, hasGroup, outcome, 0))
            && (verdict.RetriedOrFailed? <==> IsRetried(kind, hasAccount, outcome, 0))
  {
  }

  /** The row after a dispatch: in error, done, or pending again, whatever its status was meanwhile. Only a
      counted retry moves the count, read from the copy and added to the row; without an account, and after
      floods and dead accounts, the task waits as it was. */
  lemma {:induction false} DispatchRow(s: State, w: nat, kind: TaskType, hasAccount: bool, hasGroup: bool,
      outcome: Outcome,
      threshold: int)
    requires Holds(s, w) && s.workers[w].value.id in s.rows
    ensures var c := s.workers[w].value;
            var s' := Apply(s, StepFor(Verdicts(kind, hasAccount, hasGroup, outcome, threshold), w));
            var row, row' := s.rows[c.id], s'.rows[c.id];
            var fails := FailsForGood(kind, hasAccount, hasGroup, outcome, c.retry);
            var done := IsDone(kind, hasAccount, hasGroup, outcome);
            && (row'.status.Error? <==> fails) && (row'.status.Done? <==> done)
            && (row'.status.Pending? <==> !fails && !done)
            && row'.startedAt == (if row'.status.Pending? then None else row.startedAt)
            && row'.finishedAt == (if row'.status.Pending? then row.finishedAt else Some(s.now))
            && row'.retryCount == row.retryCount + (if IsRetried(kind, hasAccount, outcome, c.retry) then 1 else 0)
            && row'.priority == row.priority && row'.createdAt == row.createdAt
  {
    VerdictIs(kind, hasAccount, hasGroup, outcome, threshold);
    WriteIs(s, w, Verdicts(kind, hasAccount, hasGroup, outcome, threshold));
  }

  /** What each verdict writes into the row. */
  lemma {:induction false} WriteIs(s: State, w: nat, verdict: Verdict)
    requires Holds(s, w) && s.workers[w].value.id in s.rows
    ensures var c := s.workers[w].value;
            var row, row' := s.rows[c.id], Apply(s, StepFor(verdict, w)).rows[c.id];
            && (verdict.Completed? ==> row' == row.(status := Done, finishedAt := Some(s.now)))
            && (verdict.PutBack? ==> row' == row.(status := Pending, startedAt := None))
            && (verdict.Failed? || (verdict.RetriedOrFailed? && c.retry >= 3) ==>
                  row' == row.(status := Error, finishedAt := Some(s.now)))
            && (verdict.RetriedOrFailed? && c.retry < 3 ==>
                  row' == row.(status := Pending, startedAt := None, retryCount := row.retryCount + 1))
  {
  }

  /** Nothing else moves: the other rows, the queue and the other workers stay, and the worker is free. */
  lemma {:induction false} DispatchFrame(s: State, w: nat, verdict: Verdict)
    requires Holds(s, w)
    ensures var s' := Apply(s, StepFor(verdict, w));
            && s'.rows.Keys == s.rows.Keys
            && (forall id :: id in s.rows && id != s.workers[w].value.id ==> s'.rows[id] == s.rows[id])
            && s' == s.(rows := s'.rows, workers := s.workers[w := None])
  {
  }

  // ---------------- the account and the group ----------------

  /** A short flood pauses the account, a long one bans it for its seconds, a peer flood bans it for a day,
      a dead session takes it out; nothing else touches it. */
  lemma {:induction false} ActionIs(exc: Exc, threshold: int)
    ensures ActionFor(exc, threshold) ==
            if exc.FloodWait? && exc.value < threshold then HandleFlood(exc.value)
            else if exc.FloodWait? then MarkBanned(exc.value)
            else if exc.PeerFlood? then MarkBanned(24 * 3600)
            else if IsDead(exc) then MarkDead
            else NoAction
  {
  }

  /** The group row changes only when its scan finished, or when it turned out private or invalid; the first
      is the row that was scanned, the others the one the task names. */
  lemma {:induction false} GroupsAre(groups: Groups, kind: TaskType, hasAccount: bool, group: Option<nat>,
      payload: Option<nat>,
      outcome: Outcome, threshold: int, id: nat)
    requires id in groups
    ensures var groups' := GroupsAfter(groups, kind, hasAccount, group, payload, outcome, threshold);
            var runs := hasAccount && !kind.UnknownType?;
            && groups'.Keys == groups.Keys
            && groups'[id] ==
               if id == 0 then groups[id]
               else if runs && outcome.Finished? && kind.ScanMessages? && group == Some(id) then Scanned
               else if runs && outcome.Raised? && IsPrivate(outcome.exc) && payload == Some(id) then PrivateGroup
               else if runs && outcome.Raised? && IsInvalid(outcome.exc) && payload == Some(id) then FailedGroup
               else groups[id]
  {
  }
}
