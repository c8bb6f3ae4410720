/**
 Checkout under the retrying transaction wrapper: attempts may abort, commit, or commit without the caller learning of it,
 while any other steps of the shop (among them checkouts with the same key) run in between.
 */
module CheckoutRetry {
  import opened Domain
  import opened Ledger
  import opened Cart
  import opened Shop
  import opened ShopInvariants
  import opened PaymentTheorems
  import opened Retry

  const DUPLICATE_KEY := 11000

  /** How one attempt ends. A failure may or may not have been committed: after an unknown commit result the writes may
      well be in the database. */
  datatype TxOutcome = Acknowledged | Failure(committed: bool, err: TxError)

  /** What the rest of the shop does before an attempt, the end of the hold by the attempt's clock, and how it ends. */
  datatype Turn = Turn(others: seq<ShopStep>, heldUntil: Time, outcome: TxOutcome)

  datatype Created = Created(order: OrderId, ref: PaymentRef, expiresAt: Time)

  datatype CheckoutResult = Confirmed(created: Created) | Thrown(err: TxError) | KeyReused

  datatype Reply = Reply(requestHash: nat, created: Created)

  /** The result names an order that the user placed with the key, and that order's payment reference. */
  ghost predicate Names(db: Db, created: Created, user: UserId, key: IdempotencyKey) {
    created.order in db.orders
    && var order := db.orders[created.order];
       order.user == user && order.key == key && order.paymentRef == created.ref && order.expiresAt == created.expiresAt
  }

  ghost predicate ShopInv(db: Db) {
    Table(db) && Money(db) && OnePerKey(db) && OutboxMatches(db)
  }

  lemma RunKeepsShopInv(db: Db, steps: seq<ShopStep>, user: UserId, key: IdempotencyKey)
    requires ShopInv(db)
    ensures ShopInv(Run(db, steps))
    ensures HasOrder(db.orders, user, key) ==> HasOrder(Run(db, steps).orders, user, key)
  {
    TableKept(db, steps);
    MoneyKept(db, steps);
    OneOrderPerKey(db, steps, user, key);
  }

  lemma RunKeepsOrder(db: Db, steps: seq<ShopStep>, user: UserId, key: IdempotencyKey)
    requires HasOrder(db.orders, user, key)
    ensures HasOrder(Run(db, steps).orders, user, key)
  {
    var o :| o in db.orders && db.orders[o].user == user && db.orders[o].key == key;
    DecidedForGood(db, steps, o);
    assert Terms(Run(db, steps).orders[o]) == Terms(db.orders[o]);
  }

  function Drawn(req: Request): Created {
    Created(req.order, req.ref, req.expiresAt)
  }

  /** The order of the key; there is only one in the end (see OneOfEach). */
  function FindOrder(orders: map<OrderId, Order>, user: UserId, key: IdempotencyKey): OrderId
    requires HasOrder(orders, user, key)
  {
    LeastExists(orders, user, key);
    var o :| o in orders && HasKey(orders, o, user, key) && forall p | p in orders && HasKey(orders, p, user, key) :: o <= p;
    o
  }

  predicate HasKey(orders: map<OrderId, Order>, o: OrderId, user: UserId, key: IdempotencyKey)
    requires o in orders
  {
    orders[o].user == user && orders[o].key == key
  }

  lemma LeastExists(orders: map<OrderId, Order>, user: UserId, key: IdempotencyKey)
    requires HasOrder(orders, user, key)
    ensures exists o :: o in orders && HasKey(orders, o, user, key)
                        && forall p | p in orders && HasKey(orders, p, user, key) :: o <= p
  {
    var o :| o in orders && orders[o].user == user && orders[o].key == key;
    while exists p :: p in orders && HasKey(orders, p, user, key) && p < o
      invariant o in orders && HasKey(orders, o, user, key)
      decreases o
    {
      var p :| p in orders && HasKey(orders, p, user, key) && p < o;
      o := p;
    }
  }

  lemma AcceptedNames(db: Db, req: Request)
    requires Decide(db, req) == Accepted
    ensures !HasOrder(db.orders, req.user, req.key)
    ensures Names(Apply(db, Checkout(req)), Drawn(req), req.user, req.key)
  {
    assert Apply(db, Checkout(req)).orders[req.order] == NewOrder(req);
  }

  function ErrorOf(decision: Decision): TxError {
    if decision == DuplicateId then TxError(None, true, Some(DUPLICATE_KEY)) else BUSINESS_ERROR
  }

  predicate Commits(outcome: TxOutcome) {
    outcome.Acknowledged? || outcome.committed
  }

  /** The request has an order, or gets one, if it is decided in this state. */
  predicate Served(db: Db, req: Request) {
    Decide(db, req).AlreadyOrdered? || Decide(db, req).Accepted?
  }

  /** What an attempt itself writes if its closure runs in the given state: the checkout, if the attempt commits and the
      request is accepted there, and nothing otherwise. */
  function OwnSteps(db: Db, req: Request, turn: Turn): seq<ShopStep> {
    if Commits(turn.outcome) && Decide(db, req) == Accepted then [Checkout(req.(heldUntil := turn.heldUntil))] else []
  }

  lemma HoldTermDecidesNothing(db: Db, req: Request, heldUntil: Time)
    ensures Decide(db, req.(heldUntil := heldUntil)) == Decide(db, req)
  {
  }

  /** How an attempt ends for its caller when the closure runs in the given state. */
  function EndOf(db: Db, req: Request, outcome: TxOutcome): Option<TxError> {
    match outcome
    case Failure(committed, err) => Some(err)
    case Acknowledged => if Served(db, req) then None else Some(ErrorOf(Decide(db, req)))
  }

  /** An accepted checkout needs a free key, and takes it. */
  lemma OwnStepsTakeKey(db: Db, req: Request, turn: Turn)
    ensures OwnSteps(db, req, turn) != [] ==>
              !HasOrder(db.orders, req.user, req.key) && Names(Run(db, OwnSteps(db, req, turn)), Drawn(req), req.user, req.key)
  {
    var held := req.(heldUntil := turn.heldUntil);
    if OwnSteps(db, req, turn) != [] {
      HoldTermDecidesNothing(db, req, turn.heldUntil);
      AcceptedNames(db, held);
      assert OwnSteps(db, req, turn) == [Checkout(held)] + [];
      RunFirst(db, OwnSteps(db, req, turn), Checkout(held), [], Apply(db, Checkout(held)));
    }
  }

  /** What a checkout has on its hands between attempts: the database, and which order its closure last noted down; and its
      history: all that has happened, what others had a part in it, and how many checkouts were its own. */
  datatype Progress = Progress(db: Db, noted: Created, trace: seq<ShopStep>, others: seq<ShopStep>, own: nat)

  function Start(db0: Db, req: Request): Progress {
    Progress(db0, Drawn(req), [], [], 0)
  }

  /** The closure of the checkout transaction, in one attempt: it looks for an order with the key before it creates one, and
      notes down which order it is about. Its writes stay only if the attempt commits. */
  function AttemptOn(req: Request, s: Progress, turn: Turn): Ended<Progress> {
    var met := Run(s.db, turn.others);
    var own := OwnSteps(met, req, turn);
    Ended(Progress(Run(met, own), NoteDown(met, req, s.noted), s.trace + (turn.others + own), s.others + turn.others, s.own + |own|),
          EndOf(met, req, turn.outcome))
  }

  function NoteDown(met: Db, req: Request, noted: Created): Created {
    if Decide(met, req).AlreadyOrdered?
    then
      var o := FindOrder(met.orders, req.user, req.key);
      Created(o, met.orders[o].paymentRef, met.orders[o].expiresAt)
    else noted
  }

  function Closure(req: Request): (Progress, Turn) -> Ended<Progress> {
    (s: Progress, turn: Turn) => AttemptOn(req, s, turn)
  }

  /** Where n attempts lead. */
  function Reached(db0: Db, req: Request, turns: seq<Turn>, n: nat): Progress
    requires n <= |turns|
  {
    StateAfter(Closure(req), Start(db0, req), turns, n)
  }

  ghost predicate NotedRightly(req: Request, s: Progress) {
    s.noted == Drawn(req) || HasOrder(s.db.orders, req.user, req.key)
  }

  lemma OwnStepsWrite(met: Db, req: Request, turn: Turn, held: Request)
    requires held == req.(heldUntil := turn.heldUntil)
    ensures Decide(met, held) == Decide(met, req)
    ensures var writes := Decide(met, held) == Accepted && Commits(turn.outcome);
            OwnSteps(met, req, turn) == (if writes then [Checkout(held)] else [])
            && Run(met, OwnSteps(met, req, turn)) == if writes then Apply(met, Checkout(held)) else met
  {
    HoldTermDecidesNothing(met, req, turn.heldUntil);
    RunFirst(met, [Checkout(held)], Checkout(held), [], Apply(met, Checkout(held)));
  }

  /** The closure as the transaction runs it. */
  method RunClosure(req: Request, s: Progress, turn: Turn) returns (r: Ended<Progress>)
    requires NotedRightly(req, s)
    ensures r == AttemptOn(req, s, turn)
    ensures NotedRightly(req, r.state)
    ensures r.failure.None? ==> Names(r.state.db, r.state.noted, req.user, req.key)
  {
    var met := Run(s.db, turn.others);
    var db, noted, own := met, s.noted, [];
    var held := req.(heldUntil := turn.heldUntil);
    var decision := Decide(met, held);
    OwnStepsWrite(met, req, turn, held);
    if decision == AlreadyOrdered {
      var o := FindOrder(met.orders, req.user, req.key);
      noted := Created(o, met.orders[o].paymentRef, met.orders[o].expiresAt);
    } else if decision == Accepted && Commits(turn.outcome) {
      db, own := Apply(met, Checkout(held)), [Checkout(held)];
    }
    var failure := if turn.outcome.Failure? then Some(turn.outcome.err)
                   else if decision == AlreadyOrdered || decision == Accepted then None
                   else Some(ErrorOf(decision));
    r := Ended(Progress(db, noted, s.trace + (turn.others + own), s.others + turn.others, s.own + |own|), failure);
    AttemptNames(req, s, turn);
  }

  // ---------- what every attempt keeps ----------

  lemma AttemptNames(req: Request, s: Progress, turn: Turn)
    requires NotedRightly(req, s)
    ensures var r := AttemptOn(req, s, turn);
            NotedRightly(req, r.state) && (r.failure.None? ==> Names(r.state.db, r.state.noted, req.user, req.key))
  {
    var met := Run(s.db, turn.others);
    if HasOrder(s.db.orders, req.user, req.key) {
      RunKeepsOrder(s.db, turn.others, req.user, req.key);
    }
    OwnStepsTakeKey(met, req, turn);
  }

  lemma AttemptKeepsTrace(db0: Db, req: Request, s: Progress, turn: Turn)
    requires s.db == Run(db0, s.trace)
    ensures var t := AttemptOn(req, s, turn).state; t.db == Run(db0, t.trace)
  {
    var own := OwnSteps(Run(s.db, turn.others), req, turn);
    RunConcat(s.db, turn.others, own);
    RunConcat(db0, s.trace, turn.others + own);
  }

  /** At most one checkout of its own, and then its key has an order; without one, only others have done anything. */
  ghost predicate AtMostOnce(req: Request, s: Progress) {
    s.own <= 1
    && (s.own == 1 ==> HasOrder(s.db.orders, req.user, req.key))
    && (s.own == 0 ==> s.trace == s.others)
  }

  lemma AttemptKeepsOnce(req: Request, s: Progress, turn: Turn)
    requires AtMostOnce(req, s)
    ensures AtMostOnce(req, AttemptOn(req, s, turn).state)
  {
    var met := Run(s.db, turn.others);
    if HasOrder(s.db.orders, req.user, req.key) {
      RunKeepsOrder(s.db, turn.others, req.user, req.key);
    }
    OwnStepsTakeKey(met, req, turn);
  }

  /** Once the request has checked out, its key names the order that it drew. */
  ghost predicate OwnOrderNamed(req: Request, s: Progress) {
    ShopInv(s.db) && (s.own >= 1 ==> Names(s.db, Drawn(req), req.user, req.key))
  }

  lemma AttemptKeepsOwnOrder(req: Request, s: Progress, turn: Turn)
    requires OwnOrderNamed(req, s)
    ensures OwnOrderNamed(req, AttemptOn(req, s, turn).state)
  {
    var met := Run(s.db, turn.others);
    RunKeepsShopInv(s.db, turn.others, req.user, req.key);
    RunKeepsShopInv(met, OwnSteps(met, req, turn), req.user, req.key);
    if s.own >= 1 {
      RunKeepsNames(s.db, turn.others, Drawn(req), req.user, req.key);
    }
    OwnStepsTakeKey(met, req, turn);
  }

  /** The attempt commits, and its closure meets a state in which the request is accepted. */
  predicate ChecksOut(req: Request, s: Progress, turn: Turn) {
    Commits(turn.outcome) && Decide(Run(s.db, turn.others), req) == Accepted
  }

  lemma AttemptCounts(req: Request, s: Progress, turn: Turn)
    ensures AttemptOn(req, s, turn).state.own == s.own + if ChecksOut(req, s, turn) then 1 else 0
    ensures AttemptOn(req, s, turn).state.others == s.others + turn.others
  {
  }

  // ---------- what any number of attempts comes to ----------

  /** The history is exact: the database is where the trace leads. */
  lemma ReachedByTrace(db0: Db, req: Request, turns: seq<Turn>, n: nat)
    requires n <= |turns|
    ensures Reached(db0, req, turns, n).db == Run(db0, Reached(db0, req, turns, n).trace)
  {
    var inv := (s: Progress) => s.db == Run(db0, s.trace);
    forall s, t | inv(s) ensures inv(Closure(req)(s, t).state) {
      AttemptKeepsTrace(db0, req, s, t);
    }
    StateInvariant(Closure(req), Start(db0, req), turns, n, inv);
  }

  /** What the rest of the shop does over the first n attempts. */
  function OthersOf(turns: seq<Turn>, n: nat): seq<ShopStep>
    requires n <= |turns|
  {
    if n == 0 then [] else OthersOf(turns, n - 1) + turns[n-1].others
  }

  lemma {:induction false} OthersReached(work: (Progress, Turn) -> Ended<Progress>, start: Progress, turns: seq<Turn>, n: nat)
    requires n <= |turns| && start.others == []
    requires forall s, t :: work(s, t).state.others == s.others + t.others
    ensures StateAfter(work, start, turns, n).others == OthersOf(turns, n)
    decreases n
  {
    if n > 0 {
      OthersReached(work, start, turns, n - 1);
    }
  }

  /** Exactly once: whatever the attempts' outcomes and whatever others do in between, the request itself checks out at most
      once, and does so exactly if some attempt commits that met a state in which it was accepted. If it does, its key has an
      order from then on; if it does not, the attempts have left nothing behind at all. */
  lemma OwnCheckoutOnce(db0: Db, req: Request, turns: seq<Turn>, n: nat)
    requires n <= |turns|
    ensures var s := Reached(db0, req, turns, n);
            s.own <= 1
            && (s.own == 1 <==> exists k | 0 <= k < n :: ChecksOut(req, Reached(db0, req, turns, k), turns[k]))
            && (s.own == 1 ==> HasOrder(s.db.orders, req.user, req.key))
            && (s.own == 0 ==> s.trace == OthersOf(turns, n))
  {
    OwnBounded(db0, req, turns, n);
    OwnMoved(db0, req, turns, n);
    forall s: Progress, t: Turn ensures Closure(req)(s, t).state.others == s.others + t.others {
      AttemptCounts(req, s, t);
    }
    OthersReached(Closure(req), Start(db0, req), turns, n);
  }

  lemma OwnBounded(db0: Db, req: Request, turns: seq<Turn>, n: nat)
    requires n <= |turns|
    ensures AtMostOnce(req, Reached(db0, req, turns, n))
  {
    var inv := (s: Progress) => AtMostOnce(req, s);
    forall s, t | inv(s) ensures inv(Closure(req)(s, t).state) {
      AttemptKeepsOnce(req, s, t);
    }
    StateInvariant(Closure(req), Start(db0, req), turns, n, inv);
  }

  lemma OwnMoved(db0: Db, req: Request, turns: seq<Turn>, n: nat)
    requires n <= |turns|
    ensures Reached(db0, req, turns, n).own > 0
            <==> exists k | 0 <= k < n :: ChecksOut(req, Reached(db0, req, turns, k), turns[k])
  {
    var counter, counts := (s: Progress) => s.own, (s: Progress, t: Turn) => ChecksOut(req, s, t);
    forall s, t ensures counter(Closure(req)(s, t).state) == counter(s) + if counts(s, t) then 1 else 0 {
      AttemptCounts(req, s, t);
    }
    CounterMoved(Closure(req), Start(db0, req), turns, n, counter, counts);
    assert forall k | 0 <= k < n ::
        CountsAt(Closure(req), Start(db0, req), turns, counts, k) == ChecksOut(req, Reached(db0, req, turns, k), turns[k]);
  }

  /** Once the request has checked out, the order it drew is the one that its key names: one order, with one payment, one
      reservation of its lines and one initiation (see OneOfEach). */
  lemma OwnOrderStands(db0: Db, req: Request, turns: seq<Turn>, n: nat)
    requires ShopInv(db0) && n <= |turns|
    ensures OwnOrderNamed(req, Reached(db0, req, turns, n))
  {
    var inv := (s: Progress) => OwnOrderNamed(req, s);
    forall s, t | inv(s) ensures inv(Closure(req)(s, t).state) {
      AttemptKeepsOwnOrder(req, s, t);
    }
    StateInvariant(Closure(req), Start(db0, req), turns, n, inv);
  }

  /** An attempt that ends well has noted down the order of the key, whatever was noted down before. */
  lemma SuccessNames(db0: Db, req: Request, turns: seq<Turn>, n: nat)
    requires 0 < n <= |turns| && FailureOf(Closure(req), Start(db0, req), turns, n).None?
    ensures var s := Reached(db0, req, turns, n); Names(s.db, s.noted, req.user, req.key)
  {
    var inv := (s: Progress) => NotedRightly(req, s);
    var post := (r: Ended<Progress>) => r.failure.None? ==> Names(r.state.db, r.state.noted, req.user, req.key);
    forall s, t | inv(s) ensures inv(Closure(req)(s, t).state) && post(Closure(req)(s, t)) {
      AttemptNames(req, s, t);
    }
    LastEnded(Closure(req), Start(db0, req), turns, n, inv, post);
  }

  /** What was recorded for a key names the order of that key. */
  ghost predicate RepliesName(db: Db, replies: map<(UserId, IdempotencyKey), Reply>) {
    forall k | k in replies :: Names(db, replies[k].created, k.0, k.1)
  }

  lemma RunKeepsNames(db: Db, steps: seq<ShopStep>, created: Created, user: UserId, key: IdempotencyKey)
    requires ShopInv(db) && Names(db, created, user, key)
    ensures Names(Run(db, steps), created, user, key)
  {
    var o, t := created.order, Run(db, steps);
    DecidedForGood(db, steps, o);
    assert Terms(t.orders[o]) == Terms(db.orders[o]);
    PaymentOfOrderKept(db, steps, created.ref);
  }

  /** Which payment an order names never changes. */
  lemma {:induction false} PaymentOfOrderKept(db: Db, steps: seq<ShopStep>, ref: PaymentRef)
    requires Table(db) && Money(db) && ref in db.payments
    ensures ref in Run(db, steps).payments
    ensures var o := db.payments[ref].order;
            Run(db, steps).payments[ref].order == o
            && o in Run(db, steps).orders && Run(db, steps).orders[o].paymentRef == ref
    decreases |steps|
  {
    if steps == [] {
      assert PaymentMoney(db, ref);
    } else {
      var c, next := ChangeOf(db, steps[0]), Apply(db, steps[0]);
      StepIsChange(db, steps[0]);
      ChangeKeepsTable(db, c, next);
      ChangeKeepsMoney(db, c, next);
      if !c.Placed? {
        ChangeKeepsPayments(db, c, next);
      } else {
        PlacingAddsOrder(db, c.req, next);
      }
      PaymentOfOrderKept(next, steps[1..], ref);
    }
  }

  /** A reply that names its order does so ever after. */
  lemma RunKeepsReplies(db: Db, steps: seq<ShopStep>, replies: map<(UserId, IdempotencyKey), Reply>)
    requires ShopInv(db) && RepliesName(db, replies)
    ensures RepliesName(Run(db, steps), replies)
  {
    forall k | k in replies ensures Names(Run(db, steps), replies[k].created, k.0, k.1) {
      RunKeepsNames(db, steps, replies[k].created, k.0, k.1);
    }
  }

  /** A duplicate key means that some other request won the key: the order it placed is looked up and confirmed. */
  method AfterFailure(db0: Db, req: Request, err: TxError, others: seq<ShopStep>)
    returns (db: Db, result: CheckoutResult)
    ensures db == Run(db0, StepsAfter(Some(err), others))
    ensures result.Confirmed? <==> err.code == Some(DUPLICATE_KEY) && HasOrder(db.orders, req.user, req.key)
    ensures result.Confirmed? ==> Names(db, result.created, req.user, req.key)
    ensures result.Thrown? ==> result.err == err
    ensures !result.KeyReused?
  {
    db, result := db0, Thrown(err);
    if err.code == Some(DUPLICATE_KEY) {
      db := Run(db0, others);
      if o :| o in db.orders && db.orders[o].user == req.user && db.orders[o].key == req.key {
        result := Confirmed(Created(o, db.orders[o].paymentRef, db.orders[o].expiresAt));
      }
    }
  }

  /** What others do before the order of a duplicate key is looked up. */
  function StepsAfter(failure: Option<TxError>, others: seq<ShopStep>): seq<ShopStep> {
    if failure.Some? && failure.value.code == Some(DUPLICATE_KEY) then others else []
  }

  /** Refused before any transaction starts; the cart was read and priced by then. */
  predicate RefusedOutright(db: Db, req: Request) {
    Decide(db, req).EmptyCart? || Decide(db, req).UnavailableItems? || Decide(db, req).PriceChanged?
  }

  /** The transactional part of a checkout, with its handling of duplicate keys. */
  method PlaceOrder(db0: Db, req: Request, turns: seq<Turn>, others: seq<ShopStep>)
    returns (db: Db, result: CheckoutResult, attempt: nat)
    requires |turns| >= MAX_RETRIES
    ensures PlacedSo(db0, req, turns, others, db, result, attempt)
    ensures result.Confirmed? ==> Names(db, result.created, req.user, req.key)
  {
    if RefusedOutright(db0, req) {
      return db0, Thrown(BUSINESS_ERROR), 0;
    }
    var s, failure;
    s, failure, attempt := WithRetryableTransaction(Closure(req), Start(db0, req), turns, MAX_RETRIES);
    db, result := s.db, Confirmed(s.noted);
    if failure.Some? {
      db, result := AfterFailure(db, req, failure.value, others);
    } else {
      SuccessNames(db0, req, turns, attempt);
    }
  }

  /** A request that is refused outright touches nothing. Any other makes its attempts, and the database is where they lead
      (and what others do before the order of a duplicate key is looked up); the last attempt decides the answer. */
  ghost predicate PlacedSo(
      db0: Db, req: Request, turns: seq<Turn>, others: seq<ShopStep>, db: Db, result: CheckoutResult, attempt: nat)
  {
    if RefusedOutright(db0, req) then attempt == 0 && db == db0 && result == Thrown(BUSINESS_ERROR)
    else
      Attempted(Closure(req), Start(db0, req), turns, MAX_RETRIES, attempt)
      && var failure := FailureOf(Closure(req), Start(db0, req), turns, attempt);
         db == Run(Reached(db0, req, turns, attempt).db, StepsAfter(failure, others)) && Answers(failure, db, req, result)
  }

  lemma ReachedNext(db0: Db, req: Request, turns: seq<Turn>, n: nat)
    requires n < |turns|
    ensures Reached(db0, req, turns, n + 1) == AttemptOn(req, Reached(db0, req, turns, n), turns[n]).state
    ensures FailureOf(Closure(req), Start(db0, req), turns, n + 1)
         == EndOf(Run(Reached(db0, req, turns, n).db, turns[n].others), req, turns[n].outcome)
  {
  }

  /** A first attempt that fails is followed by another exactly if its error is one to be retried; an error that is not, and is
      no duplicate key, is thrown. */
  lemma FirstFailureDecides(
      db0: Db, req: Request, turns: seq<Turn>, others: seq<ShopStep>, db: Db, result: CheckoutResult, attempt: nat)
    requires |turns| >= MAX_RETRIES && !RefusedOutright(db0, req) && turns[0].outcome.Failure?
    requires PlacedSo(db0, req, turns, others, db, result, attempt)
    ensures attempt >= 2 <==> ShouldRetry(turns[0].outcome.err)
    ensures !ShouldRetry(turns[0].outcome.err) && turns[0].outcome.err.code != Some(DUPLICATE_KEY)
            ==> result == Thrown(turns[0].outcome.err)
  {
    ReachedNext(db0, req, turns, 0);
    assert attempt >= 2 ==> Retried(FailureOf(Closure(req), Start(db0, req), turns, 1));
  }

  /** A commit whose acknowledgement is lost is tried again; if the next attempt is acknowledged, the order is confirmed, and
      the request has checked out once, not twice. */
  lemma LostAcknowledgementIsRecovered(
      db0: Db, req: Request, turns: seq<Turn>, others: seq<ShopStep>, db: Db, result: CheckoutResult, attempt: nat)
    requires |turns| >= MAX_RETRIES && PlacedSo(db0, req, turns, others, db, result, attempt)
    requires Decide(Run(db0, turns[0].others), req) == Accepted
    requires turns[0].outcome.Failure? && turns[0].outcome.committed
    requires turns[0].outcome.err.labels.Some? && UnknownTransactionCommitResult in turns[0].outcome.err.labels.value
    requires turns[1].outcome.Acknowledged?
    ensures attempt == 2 && result.Confirmed? && db == Reached(db0, req, turns, 2).db
    ensures Reached(db0, req, turns, 2).own == 1 && HasOrder(db.orders, req.user, req.key)
  {
    CartDecidesAlike(db0, Run(db0, turns[0].others), req);
    RetriedErrors(turns[0].outcome.err);
    FirstFailureDecides(db0, req, turns, others, db, result, attempt);
    CommittedOnce(db0, req, turns);
    OwnBounded(db0, req, turns, 1);
    OwnBounded(db0, req, turns, 2);
    SecondSucceeds(db0, req, turns);
    var second := FailureOf(Closure(req), Start(db0, req), turns, 2);
    assert attempt > 2 ==> Retried(second);
  }

  lemma CartDecidesAlike(a: Db, b: Db, req: Request)
    requires Decide(b, req) == Accepted
    ensures !RefusedOutright(a, req)
  {
  }

  lemma CommittedOnce(db0: Db, req: Request, turns: seq<Turn>)
    requires |turns| >= 2 && Commits(turns[0].outcome) && Decide(Run(db0, turns[0].others), req) == Accepted
    ensures Reached(db0, req, turns, 1).own == 1 && Reached(db0, req, turns, 2).own >= 1
  {
    ReachedNext(db0, req, turns, 0);
    AttemptCounts(req, Start(db0, req), turns[0]);
    ReachedNext(db0, req, turns, 1);
    AttemptCounts(req, Reached(db0, req, turns, 1), turns[1]);
  }

  lemma SecondSucceeds(db0: Db, req: Request, turns: seq<Turn>)
    requires |turns| >= 2 && turns[1].outcome.Acknowledged?
    requires HasOrder(Reached(db0, req, turns, 1).db.orders, req.user, req.key)
    requires !RefusedOutright(db0, req)
    ensures FailureOf(Closure(req), Start(db0, req), turns, 2) == None
  {
    var before := Reached(db0, req, turns, 1).db;
    ReachedNext(db0, req, turns, 1);
    RunKeepsOrder(before, turns[1].others, req.user, req.key);
    TakenKeyServes(db0, Run(before, turns[1].others), req);
  }

  lemma TakenKeyServes(db0: Db, db: Db, req: Request)
    requires !RefusedOutright(db0, req) && HasOrder(db.orders, req.user, req.key)
    ensures Decide(db, req) == AlreadyOrdered
  {
  }

  /** The answer to a request whose attempts ended so: a success is confirmed, and so is a duplicate key that has an order;
      any other error is passed on. */
  ghost predicate Answers(failure: Option<TxError>, db: Db, req: Request, result: CheckoutResult) {
    match failure
    case None => result.Confirmed?
    case Some(err) =>
      if err.code == Some(DUPLICATE_KEY) && HasOrder(db.orders, req.user, req.key)
      then result.Confirmed? else result == Thrown(err)
  }

  lemma RecordingKeepsReplies(db: Db, replies: map<(UserId, IdempotencyKey), Reply>, k: (UserId, IdempotencyKey), reply: Reply)
    requires RepliesName(db, replies) && Names(db, reply.created, k.0, k.1)
    ensures RepliesName(db, replies[k := reply])
  {
  }

  /** The whole checkout: a recorded reply is replayed, a lost race for the key is turned into the winner's order, and the
      reply is recorded unless someone else did so first (`repliesAtEnd` is what is recorded by then). */
  method CheckoutOnce(
      db0: Db, replies: map<(UserId, IdempotencyKey), Reply>, repliesAtEnd: map<(UserId, IdempotencyKey), Reply>,
      req: Request, requestHash: nat, turns: seq<Turn>, others: seq<ShopStep>)
    returns (db: Db, replies': map<(UserId, IdempotencyKey), Reply>, result: CheckoutResult, attempt: nat)
    requires RepliesName(db0, replies) && |turns| >= MAX_RETRIES
    ensures result.Confirmed? ==> Names(db, result.created, req.user, req.key)
    ensures RepliesName(db, repliesAtEnd) ==> RepliesName(db, replies')
    ensures var k := (req.user, req.key);
            if k in replies then
              attempt == 0 && db == db0 && replies' == repliesAtEnd
              && result == if replies[k].requestHash == requestHash then Confirmed(replies[k].created) else KeyReused
            else
              PlacedSo(db0, req, turns, others, db, result, attempt)
              && replies' == if result.Confirmed? && k !in repliesAtEnd
                             then repliesAtEnd[k := Reply(requestHash, result.created)] else repliesAtEnd
  {
    var k := (req.user, req.key);
    if k in replies {
      var reply := replies[k];
      return db0, repliesAtEnd, if reply.requestHash == requestHash then Confirmed(reply.created) else KeyReused, 0;
    }
    db, result, attempt := PlaceOrder(db0, req, turns, others);
    replies' := repliesAtEnd;
    if result.Confirmed? && k !in repliesAtEnd {
      var reply := Reply(requestHash, result.created);
      if RepliesName(db, repliesAtEnd) {
        RecordingKeepsReplies(db, repliesAtEnd, k, reply);
      }
      replies' := repliesAtEnd[k := reply];
    }
  }

  /** All that exists for an order exists once: its payment, its reservation (of exactly its lines) and its initiation. */
  lemma OneOfEach(db: Db, o: OrderId)
    requires ShopInv(db) && o in db.orders
    ensures forall ref | ref in db.payments :: db.payments[ref].order == o <==> ref == db.orders[o].paymentRef
    ensures o in db.ledger.reservations && db.ledger.reservations[o].items == ItemsOf(db.orders[o].lines)
    ensures Initiations(db.outbox, o) == 1
    ensures forall o' | o' in db.orders && db.orders[o'].user == db.orders[o].user && db.orders[o'].key == db.orders[o].key
              :: o' == o
  {
    assert OrderMoney(db, o);
    forall ref | ref in db.payments ensures db.payments[ref].order == o <==> ref == db.orders[o].paymentRef {
      assert PaymentMoney(db, ref);
    }
  }
}
