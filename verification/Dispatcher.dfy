/** Outbound webhook deliveries: attempts, backoff, dead letters and manual retries
    (internal/webhook/dispatcher.go, ListPendingDeliveries and UpdateDelivery of
    internal/repository/postgres/webhook_repo.go, RetryWebhookDelivery of
    internal/service/webhook_service.go). Times are integers in one unit, a second. */
module Dispatcher {
  import opened Wrappers

  datatype DeliveryStatus = Pending | Delivered | Failed | Dlq

  /** The fields of a delivery the retry logic reads or writes. */
  datatype Delivery = Delivery(
    status: DeliveryStatus,
    attempts: int,
    responseCode: int,
    lastAttemptedAt: Option<int>,
    nextRetryAt: Option<int>)

  /** The outcome of the HTTP call: a transport error, or a status code. */
  datatype HttpOutcome = TransportError | Response(code: int)

  datatype Config = Config(maxAttempts: int, intervals: seq<int>)

  /** domain.DefaultRetryPolicy, also the default configuration. */
  const DEFAULT: Config := Config(7, [5, 30, 120, 600, 3600, 21600, 86400])

  predicate Success(o: HttpOutcome) {
    o.Response? && 200 <= o.code < 300
  }

  /** Rows the worker may pick up: pending or failed, and due. */
  predicate Listed(d: Delivery, now: int) {
    (d.status.Pending? || d.status.Failed?) && (d.nextRetryAt.None? || d.nextRetryAt.value <= now)
  }

  /** The configured wait after the k-th failure, k >= 1. */
  function Wait(c: Config, k: int): int
    requires k >= 1 && |c.intervals| >= 1
  {
    c.intervals[if k - 1 < |c.intervals| then k - 1 else |c.intervals| - 1]
  }

  /** The delivery after an attempt that reached the HTTP call at `called`; handleFailure reads the
      clock again, at `clock`. None: the slice index panics and nothing is stored. */
  function Attempted(c: Config, d: Delivery, o: HttpOutcome, called: int, clock: int): Option<Delivery> {
    var n := d.attempts + 1;
    var d1 := d.(attempts := n, lastAttemptedAt := Some(called), responseCode := if o.Response? then o.code else 0);
    if Success(o) then Some(d1.(status := Delivered))
    else if n >= c.maxAttempts then Some(d1.(status := Dlq))
    else if 1 <= n && |c.intervals| >= 1 then Some(d1.(status := Failed, nextRetryAt := Some(clock + Wait(c, n))))
    else None
  }

  /** The worker's own copy after that attempt, also when it panicked. */
  function Tried(c: Config, d: Delivery, o: HttpOutcome, called: int, clock: int): Delivery {
    var next := Attempted(c, d, o, called, clock);
    if next.Some? then next.value
    else
      d.(attempts := d.attempts + 1, lastAttemptedAt := Some(called),
         responseCode := if o.Response? then o.code else 0, status := Failed)
  }

  function Retried(d: Delivery): Delivery {
    d.(status := Pending, nextRetryAt := None)
  }

  /** A manual retry makes any row, dead or delivered, due at once, with all its attempts behind it. */
  lemma RetriedIsDue(d: Delivery, now: int)
    ensures Listed(Retried(d), now) && Retried(d).status == Pending && Retried(d).attempts == d.attempts
    ensures Retried(d).responseCode == d.responseCode && Retried(d).lastAttemptedAt == d.lastAttemptedAt
  {
  }

  /** The backoff index is out of range exactly when a retry is due and no interval is configured. */
  lemma PanicsIff(c: Config, d: Delivery, o: HttpOutcome, called: int, clock: int)
    requires d.attempts >= 0
    ensures Attempted(c, d, o, called, clock).None? <==>
      !Success(o) && d.attempts + 1 < c.maxAttempts && c.intervals == []
  {
  }

  class WebhookDelivery {
    var row: Delivery

    constructor (row: Delivery)
      ensures this.row == row
    {
      this.row := row;
    }
  }

  class WebhookDispatcher {
    const config: Config
    /** The row of the delivery in the database. */
    const stored: WebhookDelivery

    constructor (config: Config, stored: WebhookDelivery)
      ensures this.config == config && this.stored == stored
    {
      this.config, this.stored := config, stored;
    }

    /** Dispatch on the worker's own copy of the row. `ok` is nil error; `panicked` the index panic. */
    method Dispatch(delivery: WebhookDelivery, buildOk: bool, o: HttpOutcome, called: int, clock: int, writeOk: bool)
      returns (ok: bool, panicked: bool)
      requires delivery != stored && delivery.row.attempts >= 0
      modifies delivery, stored
      ensures !buildOk ==> !ok && !panicked && delivery.row == old(delivery.row) && stored.row == old(stored.row)
      ensures buildOk ==>
        var next := Attempted(config, old(delivery.row), o, called, clock);
        && panicked == next.None?
        && delivery.row == Tried(config, old(delivery.row), o, called, clock)
        && delivery.row.attempts == old(delivery.row).attempts + 1 && delivery.row.lastAttemptedAt == Some(called)
        && delivery.row.responseCode == (if o.Response? then o.code else 0)
        && (o.Response? && 200 <= o.code < 300 ==> delivery.row.status == Delivered && !panicked)
        && (!(o.Response? && 200 <= o.code < 300) ==>
             delivery.row.status == if delivery.row.attempts >= config.maxAttempts then Dlq else Failed)
        && (next.Some? ==> ok == writeOk)
        && stored.row == (if next.Some? && writeOk then next.value else old(stored.row))
    {
      if !buildOk {
        return false, false;
      }
      delivery.row := delivery.row.(attempts := delivery.row.attempts + 1, lastAttemptedAt := Some(called));
      if o.TransportError? {
        delivery.row := delivery.row.(responseCode := 0);
        ok, panicked := HandleFailure(delivery, clock, writeOk);
        return;
      }
      delivery.row := delivery.row.(responseCode := o.code);
      if 200 <= o.code < 300 {
        delivery.row := delivery.row.(status := Delivered);
      } else {
        ok, panicked := HandleFailure(delivery, clock, writeOk);
        return;
      }
      panicked := false;
      ok := UpdateDelivery(delivery, writeOk);
    }

    method HandleFailure(delivery: WebhookDelivery, clock: int, writeOk: bool) returns (ok: bool, panicked: bool)
      requires delivery != stored && delivery.row.attempts >= 1
      modifies delivery, stored
      ensures panicked <==> old(delivery.row).attempts < config.maxAttempts && config.intervals == []
      ensures !panicked ==> ok == writeOk
      ensures panicked ==> delivery.row == old(delivery.row).(status := Failed)
      ensures !panicked ==>
        && (old(delivery.row).attempts >= config.maxAttempts ==> delivery.row == old(delivery.row).(status := Dlq))
        && (old(delivery.row).attempts < config.maxAttempts ==>
             delivery.row == old(delivery.row).(
               status := Failed, nextRetryAt := Some(clock + Wait(config, old(delivery.row).attempts))))
      ensures stored.row == if panicked || !writeOk then old(stored.row) else delivery.row
    {
      if delivery.row.attempts >= config.maxAttempts {
        delivery.row := delivery.row.(status := Dlq);
      } else {
        delivery.row := delivery.row.(status := Failed);
        var idx := delivery.row.attempts - 1;
        if idx >= |config.intervals| {
          idx := |config.intervals| - 1;
        }
        if idx < 0 {
          return false, true;
        }
        delivery.row := delivery.row.(nextRetryAt := Some(clock + config.intervals[idx]));
      }
      panicked := false;
      ok := UpdateDelivery(delivery, writeOk);
    }

    /** UPDATE webhook_deliveries overwrites the whole row. */
    method UpdateDelivery(delivery: WebhookDelivery, writeOk: bool) returns (ok: bool)
      modifies stored
      ensures ok == writeOk
      ensures stored.row == if writeOk then old(delivery.row) else old(stored.row)
    {
      if writeOk {
        stored.row := delivery.row;
      }
      return writeOk;
    }

    /** RetryWebhookDelivery: the only way back from delivered or dlq. */
    method RetryWebhookDelivery(getOk: bool, writeOk: bool) returns (ok: bool)
      modifies stored
      ensures ok == (getOk && writeOk)
      ensures stored.row == if ok then Retried(old(stored.row)) else old(stored.row)
      ensures ok ==> stored.row.status == Pending && stored.row.nextRetryAt == None
    {
      if !getOk {
        return false;
      }
      var d := stored.row.(status := Pending, nextRetryAt := None);
      if !writeOk {
        return false;
      }
      stored.row := d;
      return true;
    }
  }

  // ── Any interleaving of listing, dispatching and retrying ──

  /** One delivery, the copies workers and retry requests hold of its row, and the retries stored. */
  datatype System = System(row: Delivery, copies: seq<Delivery>, retries: nat)

  datatype Action =
      /** A worker lists the row and keeps a copy. */
    | List(now: int)
      /** A worker dispatches a copy it holds, however stale, and as its last attempt left it; its
          write may fail. */
    | Dispatch(copy: nat, o: HttpOutcome, called: int, clock: int, writeOk: bool)
      /** A retry request reads the row ... */
    | ReadForRetry
      /** ... and stores its copy reset to pending. */
    | StoreRetry(copy: nat)

  function Act(c: Config, s: System, a: Action): System {
    match a
    case List(now) => if Listed(s.row, now) then s.(copies := s.copies + [s.row]) else s
    case Dispatch(n, o, called, clock, writeOk) =>
      if n < |s.copies| && (s.copies[n].status.Pending? || s.copies[n].status.Failed?) then
        var next := Attempted(c, s.copies[n], o, called, clock);
        var tried := s.(copies := s.copies[n := Tried(c, s.copies[n], o, called, clock)]);
        if next.Some? && writeOk then tried.(row := next.value) else tried
      else s
    case ReadForRetry => s.(copies := s.copies + [s.row])
    case StoreRetry(n) =>
      if n < |s.copies| then s.(row := Retried(s.copies[n]), retries := s.retries + 1) else s
  }

  function Interleave(c: Config, s: System, actions: seq<Action>): System {
    if actions == [] then s
    else Act(c, Interleave(c, s, actions[..|actions| - 1]), actions[|actions| - 1])
  }

  /** What a row may say after r stored retries. */
  predicate Bounded(c: Config, d: Delivery, r: int) {
    && 0 <= d.attempts <= c.maxAttempts + r
    && (d.status.Failed? ==> d.attempts < c.maxAttempts)
    && (d.status.Pending? ==> d.attempts < c.maxAttempts + r)
  }

  function Created(): Delivery {
    Delivery(Pending, 0, 0, None, None)
  }

  ghost predicate SystemBounded(c: Config, s: System) {
    && Bounded(c, s.row, s.retries)
    && forall n :: 0 <= n < |s.copies| ==> Bounded(c, s.copies[n], s.retries)
  }

  lemma ActKeepsBound(c: Config, s: System, a: Action)
    requires c.maxAttempts >= 1 && SystemBounded(c, s)
    ensures SystemBounded(c, Act(c, s, a))
  {
  }

  /** With R manual retries a delivery is attempted at most maxAttempts + R times as far as its row
      knows, in any interleaving, with stale copies, lost writes and copies dispatched again. */
  lemma {:induction false} AttemptsBounded(c: Config, actions: seq<Action>)
    requires c.maxAttempts >= 1
    ensures SystemBounded(c, Interleave(c, System(Created(), [], 0), actions))
    ensures
      var s := Interleave(c, System(Created(), [], 0), actions);
      s.row.attempts <= c.maxAttempts + s.retries
  {
    if actions != [] {
      var q := actions[..|actions| - 1];
      AttemptsBounded(c, q);
      ActKeepsBound(c, Interleave(c, System(Created(), [], 0), q), actions[|actions| - 1]);
    }
  }

  // ── One worker, no manual retry ──

  /** One round of the worker: the row is listed at `listed`, the HTTP call ends at `called`, and
      handleFailure reads `clock`; the update is stored. */
  datatype Round = Round(o: HttpOutcome, listed: int, called: int, clock: int)

  predicate Timely(r: Round) {
    r.listed <= r.called <= r.clock
  }

  /** The row after the rounds, or None if some round was not due or panicked. */
  function Work(c: Config, rounds: seq<Round>): Option<Delivery> {
    if rounds == [] then Some(Created())
    else
      var r := rounds[|rounds| - 1];
      var before := Work(c, rounds[..|rounds| - 1]);
      if before.Some? && Timely(r) && Listed(before.value, r.listed)
      then Attempted(c, before.value, r.o, r.called, r.clock) else None
  }

  predicate Terminal(d: Delivery) {
    d.status.Delivered? || d.status.Dlq?
  }

  /** Each round is one attempt; maxAttempts - attempts is the measure that runs out, so after
      maxAttempts rounds the delivery is delivered or dead, and no further round is listed. */
  lemma {:induction false} WorkEnds(c: Config, rounds: seq<Round>)
    requires c.maxAttempts >= 1 && Work(c, rounds).Some?
    ensures
      var d := Work(c, rounds).value;
      && d.attempts == |rounds| <= c.maxAttempts
      && (|rounds| == c.maxAttempts ==> Terminal(d))
      && (Terminal(d) <==> |rounds| > 0 && (Success(rounds[|rounds| - 1].o) || |rounds| == c.maxAttempts))
  {
    if rounds != [] {
      WorkEnds(c, rounds[..|rounds| - 1]);
    }
  }

  /** Delivered exactly when the last answer was a 2xx, whichever attempt it was; dead exactly when the
      last attempt allowed got no 2xx; otherwise failed and to be tried again. */
  lemma OutcomeIff(c: Config, rounds: seq<Round>)
    requires c.maxAttempts >= 1 && Work(c, rounds).Some? && |rounds| >= 1
    ensures
      var status, o := Work(c, rounds).value.status, rounds[|rounds| - 1].o;
      var ok := o.Response? && 200 <= o.code < 300;
      && (status == Delivered <==> ok)
      && (status == Dlq <==> !ok && |rounds| == c.maxAttempts)
      && (status == Failed <==> !ok && |rounds| < c.maxAttempts)
  {
    WorkEnds(c, rounds);
    WorkEnds(c, rounds[..|rounds| - 1]);
  }

  /** A row that is neither delivered nor dead can be taken up again from its retry time on: no delivery
      is stuck. */
  lemma WorkGoesOn(c: Config, rounds: seq<Round>, r: Round)
    requires c.maxAttempts >= 1 && |c.intervals| >= 1 && Work(c, rounds).Some? && !Terminal(Work(c, rounds).value)
    requires Timely(r)
    requires
      |rounds| == 0 || r.listed >= rounds[|rounds| - 1].clock + c.intervals[Min(|rounds|, |c.intervals|) - 1]
    ensures Work(c, rounds + [r]).Some?
  {
    assert (rounds + [r])[..|rounds|] == rounds;
    WorkEnds(c, rounds);
    if |rounds| >= 1 {
      FailureSchedules(c, rounds);
      OutcomeIff(c, rounds);
    }
  }

  function Min(a: int, b: int): int {
    if a <= b then a else b
  }

  /** After the k-th failure the row is due after the interval k, or the last one. */
  lemma {:induction false} FailureSchedules(c: Config, rounds: seq<Round>)
    requires c.maxAttempts >= 1 && |c.intervals| >= 1
    requires Work(c, rounds).Some? && |rounds| >= 1 && !Terminal(Work(c, rounds).value)
    ensures
      var d := Work(c, rounds).value;
      d.nextRetryAt == Some(rounds[|rounds| - 1].clock + c.intervals[Min(|rounds|, |c.intervals|) - 1])
  {
    WorkEnds(c, rounds);
    WorkEnds(c, rounds[..|rounds| - 1]);
  }

  /** Consecutive attempts are at least the configured wait apart: the (k+1)-th round is listed no
      earlier than intervals[min(k, len) - 1] after the k-th failure. */
  lemma RoundsAreApart(c: Config, rounds: seq<Round>)
    requires c.maxAttempts >= 1 && |c.intervals| >= 1
    requires Work(c, rounds).Some? && |rounds| >= 2
    ensures
      rounds[|rounds| - 1].listed >= rounds[|rounds| - 2].clock + c.intervals[Min(|rounds| - 1, |c.intervals|) - 1]
  {
    var q := rounds[..|rounds| - 1];
    WorkEnds(c, rounds);
    WorkEnds(c, q);
    FailureSchedules(c, q);
  }

  function WaitsUpTo(c: Config, n: int): int
    requires |c.intervals| >= 1
  {
    if n <= 0 then 0 else WaitsUpTo(c, n - 1) + Wait(c, n)
  }

  /** The n-th attempt comes no earlier than the first failure plus the first n - 1 waits. */
  lemma {:induction false} TotalWait(c: Config, rounds: seq<Round>)
    requires c.maxAttempts >= 1 && |c.intervals| >= 1
    requires Work(c, rounds).Some? && |rounds| >= 2
    ensures rounds[|rounds| - 1].listed >= rounds[0].clock + WaitsUpTo(c, |rounds| - 1)
  {
    RoundsAreApart(c, rounds);
    var q := rounds[..|rounds| - 1];
    if |q| >= 2 {
      TotalWait(c, q);
      assert Timely(q[|q| - 1]);
    } else {
      assert WaitsUpTo(c, 0) == 0;
    }
  }

  /** What a run waits in all before its dead letter is waits 1 to maxAttempts - 1: any intervals
      that agree on those give the same schedule, so the last configured one is never used. */
  lemma {:induction false} LastIntervalUnused(c: Config, x: int, rounds: seq<Round>)
    requires c.maxAttempts >= 1 && |c.intervals| == c.maxAttempts
    ensures Work(c.(intervals := c.intervals[..c.maxAttempts - 1] + [x]), rounds) == Work(c, rounds)
  {
    if rounds != [] {
      LastIntervalUnused(c, x, rounds[..|rounds| - 1]);
    }
  }

  /** With the default policy a dead letter took at least 25,955 seconds of backoff, and the
      seventh interval (86,400) plays no part in it. */
  lemma DefaultTotalWait(rounds: seq<Round>)
    requires Work(DEFAULT, rounds).Some? && Work(DEFAULT, rounds).value.status.Dlq?
    ensures |rounds| == 7 && rounds[6].listed >= rounds[0].clock + 25_955
  {
    WorkEnds(DEFAULT, rounds);
    LastIsDead(DEFAULT, rounds);
    TotalWait(DEFAULT, rounds);
    assert WaitsUpTo(DEFAULT, 1) == 5;
    assert WaitsUpTo(DEFAULT, 2) == 35;
    assert WaitsUpTo(DEFAULT, 3) == 155;
    assert WaitsUpTo(DEFAULT, 4) == 755;
    assert WaitsUpTo(DEFAULT, 5) == 4_355;
  }

  lemma LastIsDead(c: Config, rounds: seq<Round>)
    requires c.maxAttempts >= 1 && Work(c, rounds).Some? && Work(c, rounds).value.status.Dlq?
    ensures |rounds| == c.maxAttempts
  {
    WorkEnds(c, rounds);
    WorkEnds(c, rounds[..|rounds| - 1]);
  }
}
