/**
 One worker's poll of the outbox, updating the stored rows in place: claim a batch, then settle each event when its handler
 ends. What it does is a run of the state machine in `Outbox`.
 */
module OutboxBatch {
  import opened Domain
  import opened Outbox

  lemma {:induction false} RunConcat(b: Box, steps: seq<BoxStep>, more: seq<BoxStep>)
    ensures Run(b, steps + more) == Run(Run(b, steps), more)
    decreases |steps|
  {
    if steps == [] {
      assert [] + more == more;
    } else {
      RunConcat(Apply(b, steps[0]), steps[1..], more);
      assert (steps + more)[1..] == steps[1..] + more;
    }
  }

  lemma RunAppend(b: Box, steps: seq<BoxStep>, last: BoxStep)
    ensures Run(b, steps + [last]) == Apply(Run(b, steps), last)
  {
    RunConcat(b, steps, [last]);
    RunOne(Run(b, steps), last);
  }

  /** The claims of a batch as steps; the claim of row r goes by the id `first + r`. */
  function TakeSteps(claimed: seq<Claim>, first: ClaimId, now: Time): seq<BoxStep> {
    if claimed == [] then []
    else
      var c := claimed[|claimed|-1];
      TakeSteps(claimed[..|claimed|-1], first, now) + [TakeRow(first + c.row, c.row, now)]
  }

  /** The outcomes of a batch as steps, in the order in which the handlers end. */
  function SettleSteps(ended: seq<Claim>, first: ClaimId, ok: RowId -> bool, at: RowId -> Time): seq<BoxStep> {
    if ended == [] then []
    else
      var c := ended[|ended|-1];
      SettleSteps(ended[..|ended|-1], first, ok, at) + [Tick(at(c.row)), Finish(first + c.row, ok(c.row))]
  }

  ghost predicate OtherRows(claimed: seq<Claim>, j: nat, k: nat)
    requires j < k < |claimed|
  {
    claimed[j].row != claimed[k].row
  }

  ghost predicate DistinctRows(claimed: seq<Claim>) {
    forall j: nat, k: nat | j < k < |claimed| :: OtherRows(claimed, j, k)
  }

  function RowsOf(claimed: seq<Claim>): set<RowId> {
    if claimed == [] then {} else RowsOf(claimed[..|claimed|-1]) + {claimed[|claimed|-1].row}
  }

  lemma {:induction false} RowsOfMembers(claimed: seq<Claim>)
    ensures RowsOf(claimed) == set c | c in claimed :: c.row
    decreases |claimed|
  {
    if claimed != [] {
      RowsOfMembers(claimed[..|claimed|-1]);
      assert claimed == claimed[..|claimed|-1] + [claimed[|claimed|-1]];
    }
  }

  /** The same claims, in the order of the times at which their handlers end. */
  ghost predicate EndsOf(ended: seq<Claim>, claimed: seq<Claim>, at: RowId -> Time) {
    (forall c :: c in ended <==> c in claimed) && InEndingOrder(ended, at)
  }

  ghost predicate Later(ended: seq<Claim>, at: RowId -> Time, j: nat, k: nat)
    requires j < k < |ended|
  {
    ended[j].row != ended[k].row && at(ended[j].row) <= at(ended[k].row)
  }

  /** Of different rows, and none later than the next. */
  ghost predicate InEndingOrder(ended: seq<Claim>, at: RowId -> Time) {
    forall j: nat, k: nat | j < k < |ended| :: Later(ended, at, j, k)
  }

  lemma OneLater(ended: seq<Claim>, at: RowId -> Time, c: Claim)
    requires InEndingOrder(ended, at) && forall d | d in ended :: d.row != c.row && at(d.row) <= at(c.row)
    ensures InEndingOrder(ended + [c], at)
  {
    var more := ended + [c];
    forall j: nat, k: nat | j < k < |more| ensures Later(more, at, j, k) {
      assert ended[j] in ended && more[j] == ended[j];
      if k < |ended| {
        assert Later(ended, at, j, k);
      }
    }
  }

  lemma {:induction false} EarliestExists(pending: set<Claim>, at: RowId -> Time)
    requires pending != {}
    ensures exists c :: c in pending && forall d | d in pending :: at(c.row) <= at(d.row)
    decreases |pending|
  {
    var c :| c in pending;
    if pending != {c} {
      EarliestExists(pending - {c}, at);
      var e :| e in pending - {c} && forall d | d in pending - {c} :: at(e.row) <= at(d.row);
      var least := if at(e.row) < at(c.row) then e else c;
      assert forall d | d in pending :: at(least.row) <= at(d.row);
    }
  }

  method OrderOfEnding(claimed: seq<Claim>, at: RowId -> Time) returns (ended: seq<Claim>)
    requires DistinctRows(claimed)
    ensures EndsOf(ended, claimed, at)
  {
    ended := [];
    var pending := set c | c in claimed;
    while pending != {}
      invariant forall c :: c in claimed <==> c in ended || c in pending
      invariant forall c, d | c in ended && d in pending :: c.row != d.row && at(c.row) <= at(d.row)
      invariant InEndingOrder(ended, at)
      decreases pending
    {
      EarliestExists(pending, at);
      var c :| c in pending && forall d | d in pending :: at(c.row) <= at(d.row);
      forall d | d in pending && d != c ensures d.row != c.row {
        if d.row == c.row {
          SameRowSameClaim(claimed, c, d);
        }
      }
      OneLater(ended, at, c);
      ended, pending := ended + [c], pending - {c};
    }
  }

  lemma SameRowSameClaim(claimed: seq<Claim>, c: Claim, d: Claim)
    requires DistinctRows(claimed) && c in claimed && d in claimed && c.row == d.row
    ensures c == d
  {
    var i :| 0 <= i < |claimed| && claimed[i] == c;
    var j :| 0 <= j < |claimed| && claimed[j] == d;
    assert i < j ==> OtherRows(claimed, i, j);
    assert j < i ==> OtherRows(claimed, j, i);
  }

  /** A handler ends at the given time, and its outcome is written. */
  function EndAt(b: Box, claim: ClaimId, ok: bool, at: Time): Box {
    Apply(Apply(b, Tick(at)), Finish(claim, ok))
  }

  lemma RunTickFinish(b: Box, at: Time, c: ClaimId, ok: bool)
    ensures Run(b, [Tick(at), Finish(c, ok)]) == EndAt(b, c, ok, at)
  {
    assert [Tick(at), Finish(c, ok)][1..] == [Finish(c, ok)];
    RunOne(Apply(b, Tick(at)), Finish(c, ok));
  }

  /** The box after the first k of the batch have ended, each writing its outcome over its row. */
  function BoxAfter(start: Box, ended: seq<Claim>, k: nat, first: ClaimId, write: (Row, Claim) -> Row, at: RowId -> Time): Box
    requires k <= |ended|
  {
    if k == 0 then start
    else
      var b, c := BoxAfter(start, ended, k - 1, first, write, at), ended[k-1];
      if c.row in b.rows then SettledBox(b, first + c.row, c, write, at(c.row)) else b
  }

  function Writes(ok: RowId -> bool, at: RowId -> Time): (Row, Claim) -> Row {
    (row: Row, c: Claim) => if c.attempts >= 1 then FinishedRow(row, c, ok(c.row), at(c.row)) else row
  }

  /** The claims stand, and their handlers are still at work. */
  ghost predicate Standing(b: Box, ended: seq<Claim>, first: ClaimId, at: RowId -> Time) {
    forall c | c in ended :: Stands(b, c, first, at)
  }

  ghost predicate Stands(b: Box, c: Claim, first: ClaimId, at: RowId -> Time) {
    c.row in b.rows && c.attempts >= 1 && b.clock <= at(c.row) && Recorded(b.claims, first, c)
  }

  /** The box after the claim's outcome was written. */
  function SettledBox(b: Box, claim: ClaimId, c: Claim, write: (Row, Claim) -> Row, at: Time): Box
    requires c.row in b.rows
  {
    Box(b.rows[c.row := write(b.rows[c.row], c)], b.claims - {claim}, at)
  }

  lemma EndsSettled(b: Box, c: Claim, first: ClaimId, ok: RowId -> bool, at: RowId -> Time)
    requires Recorded(b.claims, first, c) && c.row in b.rows && c.attempts >= 1 && b.clock <= at(c.row)
    ensures EndAt(b, first + c.row, ok(c.row), at(c.row)) == SettledBox(b, first + c.row, c, Writes(ok, at), at(c.row))
  {
  }

  /** An event whose handler has not ended is as it was. */
  lemma {:induction false} StillToEnd(
      start: Box, ended: seq<Claim>, first: ClaimId, write: (Row, Claim) -> Row, at: RowId -> Time, k: nat, m: nat)
    requires InEndingOrder(ended, at) && Standing(start, ended, first, at) && k <= m < |ended|
    ensures var b, c := BoxAfter(start, ended, k, first, write, at), ended[m];
            Stands(b, c, first, at) && c.row in start.rows && b.rows[c.row] == start.rows[c.row]
    decreases k
  {
    if k == 0 {
      assert ended[m] in ended;
    } else {
      StillToEnd(start, ended, first, write, at, k - 1, k - 1);
      StillToEnd(start, ended, first, write, at, k - 1, m);
      assert Later(ended, at, k - 1, m);
    }
  }

  /** When the handler of event k ends, its claim stands and its row is as it was claimed. */
  ghost predicate EndsInTurn(start: Box, ended: seq<Claim>, k: nat, first: ClaimId, write: (Row, Claim) -> Row, at: RowId -> Time)
    requires k < |ended|
  {
    var b, c := BoxAfter(start, ended, k, first, write, at), ended[k];
    c.row in b.rows && c.row in start.rows && b.rows[c.row] == start.rows[c.row] && c.attempts >= 1
    && b.clock <= at(c.row) && Recorded(b.claims, first, c)
  }

  lemma AllEndInTurn(start: Box, ended: seq<Claim>, first: ClaimId, write: (Row, Claim) -> Row, at: RowId -> Time)
    requires InEndingOrder(ended, at) && Standing(start, ended, first, at)
    ensures forall k: nat | k < |ended| :: EndsInTurn(start, ended, k, first, write, at)
  {
    forall k: nat | k < |ended| ensures EndsInTurn(start, ended, k, first, write, at) {
      StillToEnd(start, ended, first, write, at, k, k);
      assert ended[k] in ended;
    }
  }

  /** An event whose handler has ended is settled. */
  lemma {:induction false} HasEnded(
      start: Box, ended: seq<Claim>, first: ClaimId, write: (Row, Claim) -> Row, at: RowId -> Time, k: nat, m: nat)
    requires InEndingOrder(ended, at) && Standing(start, ended, first, at) && m < k <= |ended|
    ensures var b, c := BoxAfter(start, ended, k, first, write, at), ended[m];
            c.row in start.rows && c.row in b.rows && b.rows[c.row] == write(start.rows[c.row], c)
    decreases k
  {
    StillToEnd(start, ended, first, write, at, k - 1, k - 1);
    assert ended[k-1] in ended;
    if m < k - 1 {
      HasEnded(start, ended, first, write, at, k - 1, m);
      assert Later(ended, at, m, k - 1);
    }
  }

  /** No other row changes. */
  lemma {:induction false} OthersStay(
      start: Box, ended: seq<Claim>, first: ClaimId, write: (Row, Claim) -> Row, at: RowId -> Time, k: nat)
    requires k <= |ended|
    ensures var b := BoxAfter(start, ended, k, first, write, at);
            b.rows.Keys == start.rows.Keys && forall r | r in b.rows && r !in RowsOf(ended) :: b.rows[r] == start.rows[r]
    decreases k
  {
    RowsOfMembers(ended);
    if k > 0 {
      OthersStay(start, ended, first, write, at, k - 1);
      assert ended[k-1] in ended;
    }
  }

  lemma {:induction false} BoxAfterIsRun(
      start: Box, ended: seq<Claim>, k: nat, first: ClaimId, ok: RowId -> bool, at: RowId -> Time, done: seq<Claim>)
    requires InEndingOrder(ended, at) && Standing(start, ended, first, at) && k <= |ended| && done == ended[..k]
    ensures BoxAfter(start, ended, k, first, Writes(ok, at), at) == Run(start, SettleSteps(done, first, ok, at))
    decreases k
  {
    if k > 0 {
      var c, before := ended[k-1], ended[..k-1];
      var b := BoxAfter(start, ended, k - 1, first, Writes(ok, at), at);
      assert done[..k-1] == before && done[k-1] == c;
      BoxAfterIsRun(start, ended, k - 1, first, ok, at, before);
      StillToEnd(start, ended, first, Writes(ok, at), at, k - 1, k - 1);
      OneMoreEnds(start, b, before, c, first, ok, at, done);
    }
  }

  lemma OneMoreEnds(
      start: Box, b: Box, before: seq<Claim>, c: Claim, first: ClaimId, ok: RowId -> bool, at: RowId -> Time, done: seq<Claim>)
    requires b == Run(start, SettleSteps(before, first, ok, at)) && done == before + [c]
    requires Recorded(b.claims, first, c) && c.row in b.rows && c.attempts >= 1 && b.clock <= at(c.row)
    ensures Run(start, SettleSteps(done, first, ok, at)) == SettledBox(b, first + c.row, c, Writes(ok, at), at(c.row))
  {
    EndsSettled(b, c, first, ok, at);
    assert done[..|before|] == before;
    RunConcat(start, SettleSteps(before, first, ok, at), [Tick(at(c.row)), Finish(first + c.row, ok(c.row))]);
    RunTickFinish(b, at(c.row), first + c.row, ok(c.row));
  }

  /** The rows that must be compensated, among the first k to end. */
  function CompensatedRows(rows: map<RowId, Row>, ended: seq<Claim>, k: nat, handled: RowId -> bool): set<RowId>
    requires k <= |ended|
  {
    if k == 0 then {}
    else
      var c := ended[k-1];
      CompensatedRows(rows, ended, k - 1, handled)
      + if c.row in rows && MustCompensate(rows[c.row], c, handled) then {c.row} else {}
  }

  lemma {:induction false} CompensatedIff(
      rows: map<RowId, Row>, ended: seq<Claim>, at: RowId -> Time, k: nat, handled: RowId -> bool, m: nat)
    requires InEndingOrder(ended, at) && k <= |ended| && m < |ended| && ended[m].row in rows
    ensures ended[m].row in CompensatedRows(rows, ended, k, handled)
            <==> m < k && MustCompensate(rows[ended[m].row], ended[m], handled)
    decreases k
  {
    if k > 0 {
      CompensatedIff(rows, ended, at, k - 1, handled, m);
      if k - 1 < m {
        assert Later(ended, at, k - 1, m);
      } else if m < k - 1 {
        assert Later(ended, at, m, k - 1);
      }
    }
  }

  lemma {:induction false} CompensatedAreListed(rows: map<RowId, Row>, ended: seq<Claim>, k: nat, handled: RowId -> bool)
    requires k <= |ended|
    ensures CompensatedRows(rows, ended, k, handled) <= RowsOf(ended)
    decreases k
  {
    RowsOfMembers(ended);
    if k > 0 {
      CompensatedAreListed(rows, ended, k - 1, handled);
      assert ended[k-1] in ended;
    }
  }

  lemma AllSettled(
      start: Box, ended: seq<Claim>, first: ClaimId, handled: RowId -> bool, ok: RowId -> bool, at: RowId -> Time)
    requires InEndingOrder(ended, at) && Standing(start, ended, first, at) && ok == Outcomes(KindsOf(start.rows), handled)
    ensures var b := BoxAfter(start, ended, |ended|, first, Writes(ok, at), at);
            var compensated := CompensatedRows(start.rows, ended, |ended|, handled);
            b == Run(start, SettleSteps(ended, first, ok, at))
            && b.rows.Keys == start.rows.Keys
            && (forall c | c in ended :: SettledFrom(start.rows, b.rows, compensated, c, handled, at))
            && forall r | r in b.rows && r !in RowsOf(ended) :: b.rows[r] == start.rows[r] && r !in compensated
  {
    var b, n := BoxAfter(start, ended, |ended|, first, Writes(ok, at), at), |ended|;
    BoxAfterIsRun(start, ended, n, first, ok, at, ended);
    OthersStay(start, ended, first, Writes(ok, at), at, n);
    CompensatedAreListed(start.rows, ended, n, handled);
    forall c | c in ended
      ensures SettledFrom(start.rows, b.rows, CompensatedRows(start.rows, ended, n, handled), c, handled, at)
    {
      var m :| 0 <= m < |ended| && ended[m] == c;
      HasEnded(start, ended, first, Writes(ok, at), at, n, m);
      CompensatedIff(start.rows, ended, at, n, handled, m);
    }
  }

  /** How far a batch is claimed. */
  ghost predicate Taking(start: Box, b: Box, claimed: seq<Claim>, first: ClaimId, now: Time) {
    b == Run(start, TakeSteps(claimed, first, now)) && b.clock == start.clock
    && AllRecorded(b.claims, first, claimed) && RowsTaken(start.rows, b.rows, claimed, now)
  }

  /** The batch's claims are recorded, and they are all that is new. */
  ghost predicate AllRecorded(claims: map<ClaimId, Claim>, first: ClaimId, claimed: seq<Claim>) {
    (forall c | c in claimed :: Recorded(claims, first, c))
    && forall id | id in claims :: id < first || id - first in RowsOf(claimed)
  }

  lemma OneMoreRecorded(claims: map<ClaimId, Claim>, first: ClaimId, claimed: seq<Claim>, c: Claim)
    requires AllRecorded(claims, first, claimed) && c.row !in RowsOf(claimed)
    ensures first + c.row !in claims && AllRecorded(claims[first + c.row := c], first, claimed + [c])
  {
    RowsOfMembers(claimed);
    MoreRows(claimed, c);
    forall d | d in claimed ensures Recorded(claims[first + c.row := c], first, d) {
      assert Recorded(claims, first, d) && d.row in RowsOf(claimed);
    }
  }

  ghost predicate RowsTaken(before: map<RowId, Row>, after: map<RowId, Row>, claimed: seq<Claim>, now: Time) {
    DistinctRows(claimed)
    && (forall c | c in claimed :: TakenFrom(before, after, c, now))
    && after.Keys == before.Keys
    && forall r | r in after && r !in RowsOf(claimed) :: after[r] == before[r]
  }

  lemma TakingGoesOn(start: Box, b: Box, claimed: seq<Claim>, first: ClaimId, now: Time, r: RowId)
    requires Taking(start, b, claimed, first, now) && now <= b.clock && r in b.rows && Eligible(b.rows[r], now)
    ensures var c := ClaimOf(r, b.rows[r], now);
            Taking(start, Box(b.rows[r := ClaimedRow(b.rows[r], now)], b.claims[first + r := c], b.clock), claimed + [c], first, now)
  {
    var c := ClaimOf(r, b.rows[r], now);
    NotYetTaken(start.rows, b.rows, claimed, now, r);
    OneMoreRecorded(b.claims, first, claimed, c);
    assert Run(start, TakeSteps(claimed + [c], first, now))
        == Box(b.rows[r := ClaimedRow(b.rows[r], now)], b.claims[first + r := c], b.clock) by {
      OneMoreTaken(start, b, claimed, first, now, r);
    }
    assert RowsTaken(start.rows, b.rows[r := ClaimedRow(b.rows[r], now)], claimed + [c], now) by {
      OneMoreRowTaken(start.rows, b.rows, claimed, now, r);
    }
  }

  lemma MoreRows(claimed: seq<Claim>, c: Claim)
    ensures RowsOf(claimed + [c]) == RowsOf(claimed) + {c.row}
  {
    assert (claimed + [c])[..|claimed|] == claimed;
  }

  lemma NotYetTaken(start: map<RowId, Row>, before: map<RowId, Row>, claimed: seq<Claim>, now: Time, r: RowId)
    requires RowsTaken(start, before, claimed, now) && r in before && Eligible(before[r], now)
    ensures r !in RowsOf(claimed)
  {
    RowsOfMembers(claimed);
    forall c | c in claimed ensures c.row != r {
      assert TakenFrom(start, before, c, now);
    }
  }

  lemma StillDistinct(claimed: seq<Claim>, c: Claim)
    requires DistinctRows(claimed) && c.row !in RowsOf(claimed)
    ensures DistinctRows(claimed + [c])
  {
    RowsOfMembers(claimed);
    var more := claimed + [c];
    forall j: nat, k: nat | j < k < |more| ensures OtherRows(more, j, k) {
      assert claimed[j] in claimed && more[j] == claimed[j];
      if k < |claimed| {
        assert OtherRows(claimed, j, k);
      }
    }
  }

  lemma OneMoreRowTaken(start: map<RowId, Row>, before: map<RowId, Row>, claimed: seq<Claim>, now: Time, r: RowId)
    requires RowsTaken(start, before, claimed, now) && r in before && Eligible(before[r], now)
    ensures RowsTaken(start, before[r := ClaimedRow(before[r], now)], claimed + [ClaimOf(r, before[r], now)], now)
  {
    RowsOfMembers(claimed);
    var more, after := claimed + [ClaimOf(r, before[r], now)], before[r := ClaimedRow(before[r], now)];
    NotYetTaken(start, before, claimed, now, r);
    MoreRows(claimed, ClaimOf(r, before[r], now));
    StillDistinct(claimed, ClaimOf(r, before[r], now));
    forall c | c in claimed ensures TakenFrom(start, after, c, now) {
      assert TakenFrom(start, before, c, now) && c.row in RowsOf(claimed);
    }
  }

  lemma OneMoreTaken(start: Box, b: Box, claimed: seq<Claim>, first: ClaimId, now: Time, r: RowId)
    requires b == Run(start, TakeSteps(claimed, first, now))
    requires r in b.rows && Eligible(b.rows[r], now) && now <= b.clock && first + r !in b.claims
    ensures var c := ClaimOf(r, b.rows[r], now);
            Run(start, TakeSteps(claimed + [c], first, now))
            == Box(b.rows[r := ClaimedRow(b.rows[r], now)], b.claims[first + r := c], b.clock)
  {
    var c := ClaimOf(r, b.rows[r], now);
    assert (claimed + [c])[..|claimed|] == claimed;
    RunAppend(start, TakeSteps(claimed, first, now), TakeRow(first + c.row, c.row, now));
  }

  class OutboxStore {
    var rows: map<RowId, Row>
    // The claims of all workers and the clock, see Box
    ghost var claims: map<ClaimId, Claim>
    ghost var clock: Time

    constructor (rows: map<RowId, Row>)
      ensures Contents() == Box(rows, map[], 0)
    {
      this.rows := rows;
      claims, clock := map[], 0;
    }

    ghost function Contents(): Box
      reads this
    {
      Box(rows, claims, clock)
    }

    /** Claims eligible rows one by one, up to the batch size; a short batch means that nothing eligible is left. */
    method ClaimBatch(now: Time, ghost first: ClaimId) returns (claimed: seq<Claim>)
      requires now <= clock && forall c | c in claims :: c < first
      modifies this
      ensures Taking(old(Contents()), Contents(), claimed, first, now)
      ensures |claimed| <= BATCH_SIZE
      ensures forall c | c in claimed ::
                c.row in old(rows) && c.row in rows
                && Claimable(old(rows)[c.row], now) && ClaimedSo(old(rows)[c.row], rows[c.row], c, now)
      ensures |claimed| < BATCH_SIZE ==> forall r | r in rows :: !Claimable(rows[r], now)
    {
      claimed := [];
      ghost var start := Contents();
      while |claimed| < BATCH_SIZE
        invariant |claimed| <= BATCH_SIZE && Taking(start, Contents(), claimed, first, now)
      {
        if r :| r in rows && Eligible(rows[r], now) {
          var c := ClaimOf(r, rows[r], now);
          TakingGoesOn(start, Contents(), claimed, first, now, r);
          rows, claims, claimed := rows[r := ClaimedRow(rows[r], now)], claims[first + r := c], claimed + [c];
        } else {
          break;
        }
      }
      BatchClaimed(start.rows, rows, claimed, now);
    }

    /** Writes the outcome of one handler that ends at the given time; true if the exhausted event must be compensated. */
    method Settle(event: Claim, ok: bool, at: Time, ghost claim: ClaimId) returns (compensate: bool)
      requires claim in claims && claims[claim] == event
      requires event.row in rows && event.attempts >= 1 && clock <= at
      modifies this
      ensures Contents() == Box(old(rows)[event.row := FinishedRow(old(rows)[event.row], event, ok, at)], old(claims) - {claim}, at)
      ensures event.row in rows && WrittenSo(old(rows)[event.row], rows[event.row], event, ok, at)
      ensures compensate <==> !ok && event.attempts >= event.maxAttempts && old(rows)[event.row].kind == InitiatePaymentEvent
    {
      var row := rows[event.row];
      compensate := false;
      if ok {
        rows := rows[event.row := row.(status := Completed, lockedUntil := None)];
      } else {
        compensate := event.attempts >= event.maxAttempts && row.kind == InitiatePaymentEvent;
        if event.attempts >= event.maxAttempts {
          rows := rows[event.row := row.(status := Failed, lockedUntil := None)];
        } else {
          var backoffMs := Min(MAX_BACKOFF_MS, BASE_BACKOFF_MS * Pow2(event.attempts - 1));
          rows := rows[event.row := row.(status := Pending, lockedUntil := None, nextAttemptAt := at + backoffMs)];
        }
      }
      clock, claims := at, claims - {claim};
    }

    /** Settles claimed events one by one in the order in which their handlers end; an event of unknown type always fails.
        `handled` says of which rows the handler and the write of its completion both succeed. */
    method SettleEach(ended: seq<Claim>, handled: RowId -> bool, at: RowId -> Time, ghost first: ClaimId, ghost ok: RowId -> bool)
      returns (compensated: set<RowId>)
      requires ok == Outcomes(KindsOf(rows), handled)
      requires forall k: nat | k < |ended| :: EndsInTurn(Contents(), ended, k, first, Writes(ok, at), at)
      modifies this
      ensures Contents() == BoxAfter(old(Contents()), ended, |ended|, first, Writes(ok, at), at)
      ensures compensated == CompensatedRows(old(rows), ended, |ended|, handled)
    {
      ghost var start := Contents();
      compensated := {};
      for k := 0 to |ended|
        invariant Contents() == BoxAfter(start, ended, k, first, Writes(ok, at), at)
        invariant compensated == CompensatedRows(start.rows, ended, k, handled)
      {
        var event := ended[k];
        assert EndsInTurn(start, ended, k, first, Writes(ok, at), at);
        var handledWell := handled(event.row) && rows[event.row].kind != UnknownEvent;
        var compensate := Settle(event, handledWell, at(event.row), first + event.row);
        if compensate {
          compensated := compensated + {event.row};
        }
      }
    }

    /** The same, row by row. */
    method SettleAll(ended: seq<Claim>, handled: RowId -> bool, at: RowId -> Time, ghost first: ClaimId)
      returns (compensated: set<RowId>)
      requires InEndingOrder(ended, at) && Standing(Contents(), ended, first, at)
      modifies this
      ensures Contents() == Run(old(Contents()), SettleSteps(ended, first, Outcomes(KindsOf(old(rows)), handled), at))
      ensures rows.Keys == old(rows).Keys
      ensures forall c | c in ended :: SettledFrom(old(rows), rows, compensated, c, handled, at)
      ensures forall r | r in rows && r !in RowsOf(ended) :: rows[r] == old(rows)[r] && r !in compensated
    {
      ghost var ok := Outcomes(KindsOf(rows), handled);
      AllSettled(Contents(), ended, first, handled, ok, at);
      AllEndInTurn(Contents(), ended, first, Writes(ok, at), at);
      compensated := SettleEach(ended, handled, at, first, ok);
    }

    /** One tick: claim a batch, then settle what was claimed. A batch that is not full leaves nothing eligible behind. */
    method ProcessBatch(now: Time, handled: RowId -> bool, at: RowId -> Time, ghost first: ClaimId)
      returns (claimed: seq<Claim>, ended: seq<Claim>, compensated: set<RowId>)
      requires now <= clock && (forall c | c in claims :: c < first) && forall r :: clock <= at(r)
      modifies this
      ensures EndsOf(ended, claimed, at)
      ensures Contents() == Run(old(Contents()), TakeSteps(claimed, first, now)
                                                 + SettleSteps(ended, first, Outcomes(KindsOf(old(rows)), handled), at))
      ensures |claimed| <= BATCH_SIZE && (|claimed| < BATCH_SIZE ==> forall r | r in rows :: !Claimable(rows[r], now))
      ensures rows.Keys == old(rows).Keys
      ensures forall c | c in claimed :: Processed(old(rows), rows, compensated, c, now, handled, at)
      ensures forall r | r in rows && r !in RowsOf(claimed) :: rows[r] == old(rows)[r] && r !in compensated
    {
      claimed := ClaimBatch(now, first);
      ghost var taken := Contents();
      ended := OrderOfEnding(claimed, at);
      BatchStands(old(Contents()), taken, claimed, ended, first, now, at);
      compensated := SettleAll(ended, handled, at, first);
      RunConcat(old(Contents()), TakeSteps(claimed, first, now), SettleSteps(ended, first, Outcomes(KindsOf(taken.rows), handled), at));
      BatchProcessed(old(rows), taken.rows, rows, claimed, ended, compensated, now, handled, at);
    }
  }

  ghost predicate Recorded(claims: map<ClaimId, Claim>, first: ClaimId, c: Claim) {
    first + c.row in claims && claims[first + c.row] == c
  }

  predicate NothingEligible(rows: map<RowId, Row>, now: Time) {
    forall r | r in rows :: !Eligible(rows[r], now)
  }

  /** The claim was made of an eligible row, and the row carries its lease. */
  predicate TakenFrom(before: map<RowId, Row>, after: map<RowId, Row>, c: Claim, now: Time) {
    c.row in before && Eligible(before[c.row], now) && c == ClaimOf(c.row, before[c.row], now)
    && c.row in after && after[c.row] == ClaimedRow(before[c.row], now)
  }

  function KindsOf(rows: map<RowId, Row>): map<RowId, EventType> {
    map r | r in rows :: rows[r].kind
  }

  /** Which rows' events end well. */
  function Outcomes(kinds: map<RowId, EventType>, handled: RowId -> bool): RowId -> bool {
    (r: RowId) => handled(r) && r in kinds && kinds[r] != UnknownEvent
  }

  predicate Succeeds(row: Row, c: Claim, handled: RowId -> bool) {
    handled(c.row) && row.kind != UnknownEvent
  }

  predicate Settled(taken: Row, after: Row, c: Claim, handled: RowId -> bool, at: RowId -> Time) {
    c.attempts >= 1 && after == FinishedRow(taken, c, Succeeds(taken, c, handled), at(c.row))
  }

  predicate MustCompensate(row: Row, c: Claim, handled: RowId -> bool) {
    !Succeeds(row, c, handled) && Exhausted(c) && row.kind == InitiatePaymentEvent
  }

  predicate SettledFrom(
      taken: map<RowId, Row>, after: map<RowId, Row>, compensated: set<RowId>, c: Claim, handled: RowId -> bool, at: RowId -> Time)
  {
    c.row in taken && c.row in after && Settled(taken[c.row], after[c.row], c, handled, at)
    && (c.row in compensated <==> MustCompensate(taken[c.row], c, handled))
  }

  /** What a worker may claim: an open row that is due, under no lease, and with attempts left. */
  predicate Claimable(row: Row, now: Time) {
    row.status in {Pending, Processing} && row.nextAttemptAt <= now && row.attempts < row.maxAttempts
    && (row.lockedUntil.Some? ==> row.lockedUntil.value <= now)
  }

  /** What a claim makes of the row: one more attempt, under a lease of half a minute. */
  predicate ClaimedSo(was: Row, row: Row, c: Claim, now: Time) {
    row.status == Processing && row.lockedUntil == Some(now + 30_000) && row.attempts == was.attempts + 1
    && row.kind == was.kind && row.maxAttempts == was.maxAttempts && row.nextAttemptAt == was.nextAttemptAt
    && c.attempts == row.attempts && c.maxAttempts == row.maxAttempts && c.leaseEnd == now + 30_000
  }

  /** What the outcome of a handler makes of the row: it is completed, or has failed for good on its last attempt, or is put
      off by the backoff of its attempt. The lease ends, and all else stays. */
  predicate WrittenSo(was: Row, row: Row, c: Claim, ok: bool, at: Time)
    requires c.attempts >= 1
  {
    row.status == (if ok then Completed else if c.attempts >= c.maxAttempts then Failed else Pending)
    && row.nextAttemptAt == (if row.status == Pending then at + BackoffMs(c.attempts) else was.nextAttemptAt)
    && row.lockedUntil == None
    && row.kind == was.kind && row.attempts == was.attempts && row.maxAttempts == was.maxAttempts
  }

  /** The row was claimable, was claimed, and ended as its handler did, an event of unknown type badly; a payment initiation
      that failed for good is due for compensation. */
  ghost predicate Processed(
      before: map<RowId, Row>, after: map<RowId, Row>, compensated: set<RowId>, c: Claim, now: Time,
      handled: RowId -> bool, at: RowId -> Time)
  {
    c.row in before && c.row in after && c.attempts >= 1
    && var ok := handled(c.row) && before[c.row].kind != UnknownEvent;
       Claimable(before[c.row], now)
       && (exists taken :: ClaimedSo(before[c.row], taken, c, now) && WrittenSo(taken, after[c.row], c, ok, at(c.row)))
       && (c.row in compensated <==>
             !ok && c.attempts >= c.maxAttempts && before[c.row].kind == InitiatePaymentEvent)
  }

  lemma TakingKeepsKinds(before: map<RowId, Row>, taken: map<RowId, Row>, claimed: seq<Claim>, now: Time)
    requires RowsTaken(before, taken, claimed, now)
    ensures KindsOf(taken) == KindsOf(before)
  {
    RowsOfMembers(claimed);
    forall r | r in taken ensures taken[r].kind == before[r].kind {
      if r in RowsOf(claimed) {
        var c :| c in claimed && c.row == r;
        assert TakenFrom(before, taken, c, now);
      }
    }
  }

  lemma BatchClaimed(before: map<RowId, Row>, after: map<RowId, Row>, claimed: seq<Claim>, now: Time)
    requires RowsTaken(before, after, claimed, now)
    ensures forall c | c in claimed ::
              c.row in before && c.row in after && Claimable(before[c.row], now) && ClaimedSo(before[c.row], after[c.row], c, now)
  {
    forall c | c in claimed
      ensures c.row in before && c.row in after && Claimable(before[c.row], now) && ClaimedSo(before[c.row], after[c.row], c, now)
    {
      assert TakenFrom(before, after, c, now);
    }
  }

  lemma BatchStands(
      start: Box, b: Box, claimed: seq<Claim>, ended: seq<Claim>, first: ClaimId, now: Time, at: RowId -> Time)
    requires Taking(start, b, claimed, first, now) && EndsOf(ended, claimed, at) && forall r :: start.clock <= at(r)
    ensures Standing(b, ended, first, at) && KindsOf(b.rows) == KindsOf(start.rows)
  {
    TakingKeepsKinds(start.rows, b.rows, claimed, now);
    forall c | c in ended ensures Stands(b, c, first, at) {
      assert Recorded(b.claims, first, c) && TakenFrom(start.rows, b.rows, c, now);
    }
  }

  lemma BatchProcessed(
      before: map<RowId, Row>, taken: map<RowId, Row>, after: map<RowId, Row>, claimed: seq<Claim>, ended: seq<Claim>,
      compensated: set<RowId>, now: Time, handled: RowId -> bool, at: RowId -> Time)
    requires RowsTaken(before, taken, claimed, now) && EndsOf(ended, claimed, at) && forall r :: now <= at(r)
    requires after.Keys == taken.Keys && forall c | c in ended :: SettledFrom(taken, after, compensated, c, handled, at)
    requires forall r | r in after && r !in RowsOf(ended) :: after[r] == taken[r] && r !in compensated
    ensures forall c | c in claimed :: Processed(before, after, compensated, c, now, handled, at)
    ensures forall r | r in after && r !in RowsOf(claimed) :: after[r] == before[r] && r !in compensated
    ensures NothingEligible(taken, now) ==> NothingEligible(after, now)
  {
    RowsOfMembers(claimed);
    RowsOfMembers(ended);
    forall c | c in claimed ensures Processed(before, after, compensated, c, now, handled, at) {
      assert c in ended;
      assert TakenFrom(before, taken, c, now) && SettledFrom(taken, after, compensated, c, handled, at);
      assert ClaimedSo(before[c.row], taken[c.row], c, now);
    }
    assert RowsOf(ended) == RowsOf(claimed);
    if NothingEligible(taken, now) {
      NothingEligibleAfter(taken, after, ended, compensated, now, handled, at);
    }
  }

  /** What was claimed is decided, or scheduled for later than the poll. */
  lemma NothingEligibleAfter(
      taken: map<RowId, Row>, after: map<RowId, Row>, claimed: seq<Claim>, compensated: set<RowId>, now: Time,
      handled: RowId -> bool, at: RowId -> Time)
    requires NothingEligible(taken, now) && after.Keys == taken.Keys
    requires forall c | c in claimed :: SettledFrom(taken, after, compensated, c, handled, at) && now <= at(c.row)
    requires forall r | r in after && r !in RowsOf(claimed) :: after[r] == taken[r]
    ensures NothingEligible(after, now)
  {
    RowsOfMembers(claimed);
    forall r | r in after ensures !Eligible(after[r], now) {
      if r in RowsOf(claimed) {
        var c :| c in claimed && c.row == r;
        BackoffGrows(c.attempts, c.attempts);
      }
    }
  }
}
