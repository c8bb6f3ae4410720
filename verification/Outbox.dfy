/**
 The outbox dispatcher: workers claim rows under a lease, run a handler, and write the row's outcome by its id alone.
 The state machine interleaves any number of workers, each with a `now` it captured earlier.
 */
module Outbox {
  import opened Domain

  type RowId = nat
  type ClaimId = nat

  datatype EventType = InitiatePaymentEvent | ClearCartEvent | UnknownEvent

  datatype RowStatus = Pending | Processing | Completed | Failed

  datatype Row = Row(
    kind: EventType, status: RowStatus, attempts: nat, maxAttempts: nat, nextAttemptAt: Time, lockedUntil: Option<Time>)

  /** The document a worker got back from its claim, as it was then. */
  datatype Claim = Claim(row: RowId, attempts: nat, maxAttempts: nat, leaseEnd: Time)

  const LOCK_TTL_MS := 30_000
  const BATCH_SIZE := 10
  const BASE_BACKOFF_MS := 1_000
  const MAX_BACKOFF_MS := 300_000

  function Pow2(n: nat): nat {
    if n == 0 then 1 else 2 * Pow2(n - 1)
  }

  function Min(a: int, b: int): int {
    if a < b then a else b
  }

  function BackoffMs(attempts: nat): int
    requires attempts >= 1
  {
    Min(MAX_BACKOFF_MS, BASE_BACKOFF_MS * Pow2(attempts - 1))
  }

  predicate Eligible(row: Row, now: Time) {
    (row.status == Pending || row.status == Processing)
    && row.nextAttemptAt <= now
    && (row.lockedUntil == None || row.lockedUntil.value <= now)
    && row.attempts < row.maxAttempts
  }

  function ClaimedRow(row: Row, now: Time): Row {
    row.(status := Processing, lockedUntil := Some(now + LOCK_TTL_MS), attempts := row.attempts + 1)
  }

  function ClaimOf(id: RowId, row: Row, now: Time): Claim {
    Claim(id, row.attempts + 1, row.maxAttempts, now + LOCK_TTL_MS)
  }

  predicate Exhausted(c: Claim) {
    c.attempts >= c.maxAttempts
  }

  /** The row after a worker wrote its outcome at the given time; what the row has become meanwhile is not looked at. */
  function FinishedRow(row: Row, c: Claim, ok: bool, at: Time): Row
    requires c.attempts >= 1
  {
    if ok then row.(status := Completed, lockedUntil := None)
    else if Exhausted(c) then row.(status := Failed, lockedUntil := None)
    else row.(status := Pending, lockedUntil := None, nextAttemptAt := at + BackoffMs(c.attempts))
  }

  // ---------- the dispatcher as a state machine ----------

  datatype Box = Box(rows: map<RowId, Row>, claims: map<ClaimId, Claim>, clock: Time)

  datatype BoxStep =
    | Tick(to: Time)
    | TakeRow(claim: ClaimId, row: RowId, now: Time)
    | Finish(claim: ClaimId, ok: bool)
    | Crash(claim: ClaimId)

  function Apply(b: Box, step: BoxStep): Box {
    match step
    case Tick(to) => if b.clock <= to then b.(clock := to) else b
    case TakeRow(c, r, now) =>
      if c !in b.claims && r in b.rows && now <= b.clock && Eligible(b.rows[r], now)
      then b.(rows := b.rows[r := ClaimedRow(b.rows[r], now)], claims := b.claims[c := ClaimOf(r, b.rows[r], now)])
      else b
    case Finish(c, ok) =>
      if c in b.claims && b.claims[c].row in b.rows && b.claims[c].attempts >= 1
      then
        var claim := b.claims[c];
        b.(rows := b.rows[claim.row := FinishedRow(b.rows[claim.row], claim, ok, b.clock)], claims := b.claims - {c})
      else b
    case Crash(c) => b.(claims := b.claims - {c})
  }

  function Run(b: Box, steps: seq<BoxStep>): Box
    decreases |steps|
  {
    if steps == [] then b else Run(Apply(b, steps[0]), steps[1..])
  }

  // ---------- exclusion ----------

  ghost predicate Holding(b: Box, c: ClaimId, r: RowId) {
    c in b.claims && b.claims[c].row == r
  }

  ghost predicate Held(b: Box, r: RowId) {
    exists c :: Holding(b, c, r)
  }

  ghost predicate Exclusive(b: Box, r: RowId) {
    forall c, d :: Holding(b, c, r) && Holding(b, d, r) ==> c == d
  }

  /** A claim still describes its row. */
  ghost predicate Describes(b: Box, c: ClaimId)
    requires c in b.claims
  {
    var claim := b.claims[c];
    claim.row in b.rows && claim.attempts >= 1
    && var row := b.rows[claim.row];
       row.status == Processing && row.lockedUntil == Some(claim.leaseEnd)
       && row.attempts == claim.attempts && row.maxAttempts == claim.maxAttempts
  }

  /** At most one worker has the row, and its claim describes the row. */
  ghost predicate LeaseInv(b: Box, r: RowId) {
    Exclusive(b, r) && forall c :: Holding(b, c, r) ==> Describes(b, c)
  }

  predicate Takes(b: Box, step: BoxStep, r: RowId) {
    step.TakeRow? && step.row == r && step.claim !in b.claims && r in b.rows && step.now <= b.clock
    && Eligible(b.rows[r], step.now)
  }

  /** A worker claims a row that another one still has. */
  ghost predicate Steals(b: Box, step: BoxStep, r: RowId) {
    Takes(b, step, r) && Held(b, r)
  }

  ghost predicate NeverSteals(b: Box, steps: seq<BoxStep>, r: RowId)
    decreases |steps|
  {
    steps != [] ==> !Steals(b, steps[0], r) && NeverSteals(Apply(b, steps[0]), steps[1..], r)
  }

  ghost predicate ExclusiveThroughout(b: Box, steps: seq<BoxStep>, r: RowId)
    decreases |steps|
  {
    Exclusive(b, r) && (steps != [] ==> ExclusiveThroughout(Apply(b, steps[0]), steps[1..], r))
  }

  /** Where the claims of a row after a step come from. */
  lemma HoldingBefore(b: Box, step: BoxStep, c: ClaimId, r: RowId)
    ensures Holding(Apply(b, step), c, r) <==>
              (Holding(b, c, r) && !(step.Crash? && step.claim == c) && !(step.Finish? && step.claim == c && Apply(b, step) != b))
              || (Takes(b, step, r) && step.claim == c)
  {
  }

  lemma StealBreaksExclusion(b: Box, step: BoxStep, r: RowId)
    requires Steals(b, step, r)
    ensures !Exclusive(Apply(b, step), r)
  {
    var c :| Holding(b, c, r);
    HoldingBefore(b, step, c, r);
    HoldingBefore(b, step, step.claim, r);
  }

  lemma StepKeepsLease(b: Box, step: BoxStep, r: RowId)
    requires LeaseInv(b, r) && !Steals(b, step, r)
    ensures LeaseInv(Apply(b, step), r)
  {
    var t := Apply(b, step);
    forall c, d | Holding(t, c, r) && Holding(t, d, r) ensures c == d && Describes(t, c) {
      HoldingBefore(b, step, c, r);
      HoldingBefore(b, step, d, r);
      if Holding(b, c, r) {
        assert Describes(b, c);
        if step.Finish? && step.claim in b.claims {
          assert Holding(b, step.claim, b.claims[step.claim].row);
        }
      }
    }
  }

  /** Lease exclusion: no two workers ever have the row at once, at any moment of a run, exactly when no worker of the run
      claims it while another still has it. What happens to other rows plays no part. */
  lemma {:induction false} LeaseExclusion(b: Box, steps: seq<BoxStep>, r: RowId)
    requires LeaseInv(b, r)
    ensures ExclusiveThroughout(b, steps, r) <==> NeverSteals(b, steps, r)
    ensures NeverSteals(b, steps, r) ==> LeaseInv(Run(b, steps), r)
    decreases |steps|
  {
    if steps != [] {
      if Steals(b, steps[0], r) {
        StealBreaksExclusion(b, steps[0], r);
      } else {
        StepKeepsLease(b, steps[0], r);
        LeaseExclusion(Apply(b, steps[0]), steps[1..], r);
      }
    }
  }

  /** Only a worker that outlived its lease can lose its row to another, however stale the other's captured time. */
  lemma StealNeedsOverrun(b: Box, step: BoxStep, r: RowId, holder: ClaimId)
    requires LeaseInv(b, r) && Steals(b, step, r) && Holding(b, holder, r)
    ensures b.claims[holder].leaseEnd <= step.now <= b.clock
  {
    assert Describes(b, holder);
  }

  /** Whatever was claimed of the row is finished (or lost) before its lease ends. */
  ghost predicate Timely(b: Box, steps: seq<BoxStep>, r: RowId)
    decreases |steps|
  {
    (forall c :: Holding(b, c, r) ==> b.clock < b.claims[c].leaseEnd)
    && (steps != [] ==> Timely(Apply(b, steps[0]), steps[1..], r))
  }

  /** Handlers that finish inside their leases are enough. */
  lemma {:induction false} TimelyNeverSteals(b: Box, steps: seq<BoxStep>, r: RowId)
    requires LeaseInv(b, r) && Timely(b, steps, r)
    ensures NeverSteals(b, steps, r)
    decreases |steps|
  {
    if steps != [] {
      if Steals(b, steps[0], r) {
        var c :| Holding(b, c, r);
        StealNeedsOverrun(b, steps[0], r, c);
      }
      StepKeepsLease(b, steps[0], r);
      TimelyNeverSteals(Apply(b, steps[0]), steps[1..], r);
    }
  }

  predicate Terminal(row: Row) {
    row.status == Completed || row.status == Failed
  }

  lemma {:induction false} UnheldTerminalStays(b: Box, steps: seq<BoxStep>, r: RowId)
    requires r in b.rows && Terminal(b.rows[r]) && !Held(b, r)
    ensures r in Run(b, steps).rows && Run(b, steps).rows[r] == b.rows[r]
    decreases |steps|
  {
    if steps != [] {
      var next := Apply(b, steps[0]);
      if steps[0].Finish? && steps[0].claim in b.claims {
        assert Holding(b, steps[0].claim, b.claims[steps[0].claim].row);
      }
      forall c ensures !Holding(next, c, r) {
        HoldingBefore(b, steps[0], c, r);
      }
      UnheldTerminalStays(next, steps[1..], r);
    }
  }

  ghost predicate StaysForGood(b: Box, r: RowId)
    requires r in b.rows
  {
    forall steps :: r in Run(b, steps).rows && Run(b, steps).rows[r] == b.rows[r]
  }

  /** A COMPLETED or FAILED row stays as it is for ever exactly when no worker still has it: the outcome of one that does
      overwrites the row, whatever the row has become. */
  lemma TerminalForGoodIffUnheld(b: Box, r: RowId)
    requires r in b.rows && Terminal(b.rows[r]) && forall c :: Holding(b, c, r) ==> b.claims[c].attempts >= 1
    ensures StaysForGood(b, r) <==> !Held(b, r)
  {
    if Held(b, r) {
      var c :| Holding(b, c, r);
      var ok := b.rows[r].status == Failed;
      RunOne(b, Finish(c, ok));
      assert Run(b, [Finish(c, ok)]).rows[r].status != b.rows[r].status;
    } else {
      forall steps ensures r in Run(b, steps).rows && Run(b, steps).rows[r] == b.rows[r] {
        UnheldTerminalStays(b, steps, r);
      }
    }
  }

  /** COMPLETED and FAILED are absorbing: once a run without steals has brought the row there, nothing that follows,
      timely or not, changes it. */
  lemma TerminalIsAbsorbing(b: Box, steps: seq<BoxStep>, later: seq<BoxStep>, r: RowId)
    requires LeaseInv(b, r) && NeverSteals(b, steps, r)
    requires r in Run(b, steps).rows && Terminal(Run(b, steps).rows[r])
    ensures var done := Run(b, steps);
            r in Run(done, later).rows && Run(done, later).rows[r] == done.rows[r]
  {
    LeaseExclusion(b, steps, r);
    TerminalIsUnheld(Run(b, steps), r);
    UnheldTerminalStays(Run(b, steps), later, r);
  }

  lemma TerminalIsUnheld(b: Box, r: RowId)
    requires LeaseInv(b, r) && r in b.rows && Terminal(b.rows[r])
    ensures !Held(b, r)
  {
    forall c ensures !Holding(b, c, r) {
    }
  }

  /** Why the lease matters: a worker that outlives its lease shares the row with the next one, and its late failure
      reopens the row that the other has completed. */
  lemma LateWorkerReopensRow(b: Box, r: RowId, c: ClaimId, d: ClaimId)
    requires c !in b.claims && d !in b.claims && c != d
    requires r in b.rows && Eligible(b.rows[r], b.clock) && b.rows[r].attempts + 1 < b.rows[r].maxAttempts
    ensures var later := b.clock + LOCK_TTL_MS;
            var shared := Run(b, [TakeRow(c, r, b.clock), Tick(later), TakeRow(d, r, later)]);
            var completed := Run(shared, [Finish(d, true)]);
            var reopened := Run(completed, [Finish(c, false)]);
            !Exclusive(shared, r)
            && r in completed.rows && completed.rows[r].status == Completed
            && r in reopened.rows && reopened.rows[r].status == Pending
  {
    var later := b.clock + LOCK_TTL_MS;
    var s1 := Apply(b, TakeRow(c, r, b.clock));
    var s2 := Apply(s1, Tick(later));
    var shared := Apply(s2, TakeRow(d, r, later));
    RunThree(b, TakeRow(c, r, b.clock), Tick(later), TakeRow(d, r, later));
    assert Holding(shared, c, r) && Holding(shared, d, r);
    var completed := Apply(shared, Finish(d, true));
    assert Run(shared, [Finish(d, true)]) == completed by { RunOne(shared, Finish(d, true)); }
    RunOne(completed, Finish(c, false));
  }

  lemma RunOne(b: Box, step: BoxStep)
    ensures Run(b, [step]) == Apply(b, step)
  {
    assert Run(b, [step]) == Run(Apply(b, step), [step][1..]);
  }

  lemma RunThree(b: Box, s1: BoxStep, s2: BoxStep, s3: BoxStep)
    ensures Run(b, [s1, s2, s3]) == Apply(Apply(Apply(b, s1), s2), s3)
  {
    assert [s1, s2, s3][1..] == [s2, s3] && [s2, s3][1..] == [s3];
    RunOne(Apply(Apply(b, s1), s2), s3);
    assert Run(Apply(b, s1), [s2, s3]) == Run(Apply(Apply(b, s1), s2), [s3]);
  }

  // ---------- bounded attempts and termination ----------

  /** How often the run claims the row. */
  function TimesTaken(b: Box, steps: seq<BoxStep>, r: RowId): nat
    decreases |steps|
  {
    if steps == [] then 0
    else
      var next := Apply(b, steps[0]);
      (if steps[0].TakeRow? && steps[0].row == r && next != b then 1 else 0) + TimesTaken(next, steps[1..], r)
  }

  /** In any run at all, lease or no lease, crashes or none: a row's attempts count its claims, and never pass its limit. */
  lemma {:induction false} AttemptsAreBounded(b: Box, steps: seq<BoxStep>, r: RowId)
    requires r in b.rows && b.rows[r].attempts <= b.rows[r].maxAttempts
    ensures var t := Run(b, steps);
            r in t.rows && t.rows[r].maxAttempts == b.rows[r].maxAttempts
            && t.rows[r].attempts == b.rows[r].attempts + TimesTaken(b, steps, r) <= b.rows[r].maxAttempts
    decreases |steps|
  {
    if steps != [] {
      var next := Apply(b, steps[0]);
      if steps[0].TakeRow? && steps[0].row == r {
        assert next != b <==> next.rows[r] != b.rows[r] by { assert next.rows[r] == b.rows[r] ==> next == b; }
      }
      AttemptsAreBounded(next, steps[1..], r);
    }
  }

  /** The row is decided, or a worker has it, or it has attempts left: whoever crashed with it, some poll can claim it once
      it is due and its lease has run out. */
  ghost predicate Recoverable(b: Box, r: RowId) {
    r in b.rows && (Terminal(b.rows[r]) || Held(b, r) || b.rows[r].attempts < b.rows[r].maxAttempts)
  }

  predicate Due(row: Row, now: Time) {
    row.nextAttemptAt <= now && (row.lockedUntil == None || row.lockedUntil.value <= now)
  }

  lemma WaitingRowIsClaimable(b: Box, r: RowId, c: ClaimId, now: Time)
    requires Recoverable(b, r) && !Terminal(b.rows[r]) && !Held(b, r)
    requires c !in b.claims && Due(b.rows[r], now) && now <= b.clock
    ensures Holding(Apply(b, TakeRow(c, r, now)), c, r)
  {
  }

  /** The row's worker is lost on the row's last attempt. */
  predicate LosesLastAttempt(b: Box, step: BoxStep, r: RowId) {
    step.Crash? && step.claim in b.claims && b.claims[step.claim].row == r && Exhausted(b.claims[step.claim])
  }

  predicate NeverLosesLastAttempt(b: Box, steps: seq<BoxStep>, r: RowId)
    decreases |steps|
  {
    steps != [] ==> !LosesLastAttempt(b, steps[0], r) && NeverLosesLastAttempt(Apply(b, steps[0]), steps[1..], r)
  }

  /** An undecided row that nobody has, with no attempts left: the PROCESSING row of a worker lost on the last attempt. */
  ghost predicate Lost(b: Box, r: RowId) {
    r in b.rows && !Terminal(b.rows[r]) && b.rows[r].attempts >= b.rows[r].maxAttempts && !Held(b, r)
  }

  lemma LossLosesRow(b: Box, step: BoxStep, r: RowId)
    requires LeaseInv(b, r) && LosesLastAttempt(b, step, r)
    ensures Lost(Apply(b, step), r)
  {
    assert Holding(b, step.claim, r) && Describes(b, step.claim);
    forall c ensures !Holding(Apply(b, step), c, r) {
      HoldingBefore(b, step, c, r);
    }
  }

  lemma StepKeepsRecoverable(b: Box, step: BoxStep, r: RowId)
    requires LeaseInv(b, r) && Recoverable(b, r) && !LosesLastAttempt(b, step, r)
    ensures Recoverable(Apply(b, step), r)
  {
    var t := Apply(b, step);
    if c :| Holding(b, c, r) {
      assert Describes(b, c);
      HoldingBefore(b, step, c, r);
      if step.Finish? && step.claim in b.claims {
        assert Holding(b, step.claim, b.claims[step.claim].row);
      }
    } else if Takes(b, step, r) {
      HoldingBefore(b, step, step.claim, r);
    } else if step.Finish? && step.claim in b.claims {
      assert Holding(b, step.claim, b.claims[step.claim].row);
    }
  }

  /** A worker that dies on the last attempt leaves a row that no poll will ever claim again. */
  lemma {:induction false} CrashOnLastAttemptSticks(b: Box, steps: seq<BoxStep>, r: RowId)
    requires Lost(b, r)
    ensures Lost(Run(b, steps), r) && Run(b, steps).rows[r] == b.rows[r]
    decreases |steps|
  {
    if steps != [] {
      var next := Apply(b, steps[0]);
      if steps[0].Finish? && steps[0].claim in b.claims {
        assert Holding(b, steps[0].claim, b.claims[steps[0].claim].row);
      }
      forall c ensures !Holding(next, c, r) {
        HoldingBefore(b, steps[0], c, r);
      }
      CrashOnLastAttemptSticks(next, steps[1..], r);
    }
  }

  /** A row of a run without steals ends up recoverable exactly when no worker of the row was lost on its last
      attempt. Crashes on other rows do no harm, nor do crashes on earlier attempts. */
  lemma {:induction false} LostOnlyOnLastAttempt(b: Box, steps: seq<BoxStep>, r: RowId)
    requires LeaseInv(b, r) && NeverSteals(b, steps, r) && Recoverable(b, r)
    ensures Recoverable(Run(b, steps), r) <==> NeverLosesLastAttempt(b, steps, r)
    decreases |steps|
  {
    if steps != [] {
      var next := Apply(b, steps[0]);
      if LosesLastAttempt(b, steps[0], r) {
        LossLosesRow(b, steps[0], r);
        CrashOnLastAttemptSticks(next, steps[1..], r);
      } else {
        StepKeepsLease(b, steps[0], r);
        StepKeepsRecoverable(b, steps[0], r);
        LostOnlyOnLastAttempt(next, steps[1..], r);
      }
    }
  }

  /** A poll of the row by a worker with a free slot, when the row is due, its lease has run out and nobody has it. */
  ghost predicate DuePoll(b: Box, step: BoxStep, r: RowId) {
    step.TakeRow? && step.row == r && step.claim !in b.claims && r in b.rows
    && step.now <= b.clock && Due(b.rows[r], step.now) && !Held(b, r)
  }

  ghost function DuePolls(b: Box, steps: seq<BoxStep>, r: RowId): nat
    decreases |steps|
  {
    if steps == [] then 0
    else (if DuePoll(b, steps[0], r) then 1 else 0) + DuePolls(Apply(b, steps[0]), steps[1..], r)
  }

  lemma {:induction false} DuePollsTake(b: Box, steps: seq<BoxStep>, r: RowId)
    requires LeaseInv(b, r) && NeverSteals(b, steps, r) && Recoverable(b, r) && NeverLosesLastAttempt(b, steps, r)
    ensures r in Run(b, steps).rows
    ensures !Terminal(Run(b, steps).rows[r]) ==> DuePolls(b, steps, r) <= TimesTaken(b, steps, r)
    decreases |steps|
  {
    if steps != [] {
      var next := Apply(b, steps[0]);
      StepKeepsLease(b, steps[0], r);
      StepKeepsRecoverable(b, steps[0], r);
      DuePollsTake(next, steps[1..], r);
      if Terminal(b.rows[r]) {
        TerminalIsUnheld(b, r);
        UnheldTerminalStays(b, steps, r);
      } else if DuePoll(b, steps[0], r) {
        WaitingRowIsClaimable(b, r, steps[0].claim, steps[0].now);
        assert next != b;
      }
    }
  }

  /** Outbox termination: a row that is polled when due more often than it has attempts left ends COMPLETED or FAILED
      exactly when no worker was lost on its last attempt, whatever its handlers do, whoever else crashes, and whatever
      else goes on. */
  lemma PolledRowEnds(b: Box, steps: seq<BoxStep>, r: RowId)
    requires LeaseInv(b, r) && NeverSteals(b, steps, r) && Recoverable(b, r)
    requires b.rows[r].attempts <= b.rows[r].maxAttempts < b.rows[r].attempts + DuePolls(b, steps, r)
    ensures r in Run(b, steps).rows
    ensures Terminal(Run(b, steps).rows[r]) <==> NeverLosesLastAttempt(b, steps, r)
  {
    LostOnlyOnLastAttempt(b, steps, r);
    AttemptsAreBounded(b, steps, r);
    if NeverLosesLastAttempt(b, steps, r) {
      DuePollsTake(b, steps, r);
    }
  }

  // ---------- retry delays ----------

  lemma {:induction false} Pow2Monotone(m: nat, n: nat)
    requires m <= n
    ensures 1 <= Pow2(m) <= Pow2(n)
    decreases n
  {
    if m < n {
      Pow2Monotone(m, n - 1);
    } else if m > 0 {
      Pow2Monotone(m - 1, n - 1);
    }
  }

  /** Retry delays never shrink, and stay between one second and five minutes. */
  lemma BackoffGrows(m: nat, n: nat)
    requires 1 <= m <= n
    ensures BASE_BACKOFF_MS <= BackoffMs(m) <= BackoffMs(n) <= MAX_BACKOFF_MS
  {
    Pow2Monotone(m - 1, n - 1);
  }

  /** The first retry comes a second later, and each further one twice as late as the one before, up to five minutes. */
  lemma BackoffDoubles(n: nat)
    requires n >= 1
    ensures BackoffMs(1) == BASE_BACKOFF_MS
    ensures BackoffMs(n + 1) == Min(MAX_BACKOFF_MS, 2 * BackoffMs(n))
  {
    assert Pow2(n) == 2 * Pow2(n - 1);
  }

  /** The next claim of the row, if the run has one, comes with a time no sooner than the given one. */
  predicate NextClaimWaits(b: Box, steps: seq<BoxStep>, r: RowId, due: Time)
    decreases |steps|
  {
    steps != [] ==>
      if Takes(b, steps[0], r) then steps[0].now >= due else NextClaimWaits(Apply(b, steps[0]), steps[1..], r, due)
  }

  lemma {:induction false} UnheldRowWaits(b: Box, steps: seq<BoxStep>, r: RowId)
    requires r in b.rows && !Held(b, r)
    ensures NextClaimWaits(b, steps, r, b.rows[r].nextAttemptAt)
    decreases |steps|
  {
    if steps != [] && !Takes(b, steps[0], r) {
      var next := Apply(b, steps[0]);
      if steps[0].Finish? && steps[0].claim in b.claims {
        assert Holding(b, steps[0].claim, b.claims[steps[0].claim].row);
      }
      forall c ensures !Holding(next, c, r) {
        HoldingBefore(b, steps[0], c, r);
      }
      UnheldRowWaits(next, steps[1..], r);
    }
  }

  /** After a failed attempt that is not the last, the row is not claimed again before the backoff of that attempt is over,
      whatever the run. */
  lemma RetryWaitsForBackoff(b: Box, c: ClaimId, r: RowId, steps: seq<BoxStep>)
    requires LeaseInv(b, r) && Holding(b, c, r) && b.claims[c].attempts < b.claims[c].maxAttempts
    ensures b.claims[c].attempts >= 1
    ensures var next := Apply(b, Finish(c, false));
            r in next.rows && next.rows[r].status == Pending
            && NextClaimWaits(next, steps, r, b.clock + BackoffMs(b.claims[c].attempts))
  {
    assert Describes(b, c);
    var next := Apply(b, Finish(c, false));
    forall d ensures !Holding(next, d, r) {
      HoldingBefore(b, Finish(c, false), d, r);
    }
    UnheldRowWaits(next, steps, r);
  }

  /** The delays that the run's failures of the row asked for, added up. */
  function TotalDelay(b: Box, steps: seq<BoxStep>, r: RowId): int
    decreases |steps|
  {
    if steps == [] then 0
    else
      (if Reschedules(b, steps[0], r) then BackoffMs(b.claims[steps[0].claim].attempts) else 0)
      + TotalDelay(Apply(b, steps[0]), steps[1..], r)
  }

  predicate Reschedules(b: Box, step: BoxStep, r: RowId) {
    step.Finish? && !step.ok && step.claim in b.claims
    && var claim := b.claims[step.claim];
       claim.row == r && r in b.rows && claim.attempts >= 1 && !Exhausted(claim)
  }

  /** Attempts that are over: the one under way, if any, is not counted. */
  ghost function EndedAttempts(b: Box, r: RowId): nat
    requires r in b.rows
  {
    if Held(b, r) && b.rows[r].attempts >= 1 then b.rows[r].attempts - 1 else b.rows[r].attempts
  }

  lemma StepDelay(b: Box, step: BoxStep, r: RowId)
    requires LeaseInv(b, r) && !Steals(b, step, r) && r in b.rows
    ensures var next := Apply(b, step);
            r in next.rows && EndedAttempts(b, r) <= EndedAttempts(next, r)
            && (Reschedules(b, step, r) ==>
                  EndedAttempts(next, r) == EndedAttempts(b, r) + 1 == b.claims[step.claim].attempts)
  {
    var next := Apply(b, step);
    if c :| Holding(b, c, r) {
      assert Describes(b, c);
      HoldingBefore(b, step, c, r);
    }
    if c :| Holding(next, c, r) {
      HoldingBefore(b, step, c, r);
    }
    if step.Finish? && step.claim in b.claims {
      assert Holding(b, step.claim, b.claims[step.claim].row);
    }
  }

  /** In a run without steals, after k ended attempts the delays asked for add up to at most 1000 * (2^k - 1) ms. */
  lemma {:induction false} DelayIsBounded(b: Box, steps: seq<BoxStep>, r: RowId)
    requires LeaseInv(b, r) && NeverSteals(b, steps, r) && r in b.rows
    ensures r in Run(b, steps).rows
    ensures TotalDelay(b, steps, r)
         <= BASE_BACKOFF_MS * (Pow2(EndedAttempts(Run(b, steps), r)) - Pow2(EndedAttempts(b, r)))
    decreases |steps|
  {
    if steps != [] {
      var next := Apply(b, steps[0]);
      StepDelay(b, steps[0], r);
      StepKeepsLease(b, steps[0], r);
      DelayIsBounded(next, steps[1..], r);
      Pow2Monotone(EndedAttempts(b, r), EndedAttempts(next, r));
    }
  }
}
