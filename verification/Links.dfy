/** Payment and subscription links: redeeming, expiring and cancelling them
    (internal/service/member_service.go), with the writes of UpdatePaymentLink and
    UpdateSubscriptionLink (internal/repository/postgres/member_repo.go). Calls run one after
    another; every foreign call may fail. */
module Links {
  import opened Wrappers

  datatype Kind = PaymentLink | SubscriptionLink

  /** active / pending, redeemed / completed, expired, cancelled. */
  datatype Status = Open | Done | Expired | Cancelled

  datatype LinkRow = LinkRow(status: Status, expiresAt: Option<int>, closedAt: Option<int>)

  /** A charge or a subscription that exists at OpenPay: the clock when the link's expiry was
      checked, and the clock when OpenPay was called. */
  datatype Made = Made(checked: int, at: int)

  /** Lost: made at OpenPay, but the client saw an error. */
  datatype Upstream = Refused | Lost | Accepted

  datatype Fetch = Found | Missing | Broken

  /** What the calls answer, in the order they are made. Payment links do not ask for the plan. */
  datatype Answers = Answers(
    inputsOk: bool, fetch: Fetch, checked: int, expiryMarked: bool,
    memberOk: bool, hasCustomer: bool, planOk: bool, planActive: bool, cardOk: bool, tenantOk: bool,
    networkOk: bool, cardSaved: bool, at: int, upstream: Upstream, recorded: bool,
    doneAt: int, marked: bool)

  datatype Reply = Success | InvalidArgument | NotFound | FailedPrecondition | PermissionDenied | Internal

  datatype Event =
    | Redeem(answers: Answers)
      /** ExpirePaymentLink, asked by the tenant. */
    | Cancel(fetch: Fetch, marked: bool)

  datatype State = State(link: LinkRow, made: seq<Made>)

  // ── One call ──

  predicate Outdated(l: LinkRow, now: int) {
    l.expiresAt.Some? && now > l.expiresAt.value
  }

  /** The error of the first step that fails between the expiry check and the call to OpenPay. */
  function Obstacle(kind: Kind, a: Answers): Option<Reply> {
    if !a.memberOk then Some(Internal)
    else if !a.hasCustomer then Some(FailedPrecondition)
    else if kind.SubscriptionLink? && !a.planOk then Some(Internal)
    else if kind.SubscriptionLink? && !a.planActive then Some(FailedPrecondition)
    else if !a.cardOk then Some(Internal)
    else if !a.tenantOk then Some(Internal)
    else if !a.networkOk then Some(PermissionDenied)
    else if !a.cardSaved then Some(Internal)
    else None
  }

  /** The operation exists at OpenPay but the link stays open: the answer was lost, the new
      subscription could not be stored, or the link's status could not be written. */
  predicate Slipped(kind: Kind, a: Answers) {
    a.upstream.Lost? || (a.upstream.Accepted? && ((kind.SubscriptionLink? && !a.recorded) || !a.marked))
  }

  function Redeemed(kind: Kind, s: State, a: Answers): (State, Reply) {
    if !a.inputsOk then (s, InvalidArgument)
    else if a.fetch.Missing? then (s, NotFound)
    else if a.fetch.Broken? then (s, Internal)
    else if !s.link.status.Open? then (s, FailedPrecondition)
    else if Outdated(s.link, a.checked) then
      (if a.expiryMarked then s.(link := s.link.(status := Expired)) else s, FailedPrecondition)
    else if Obstacle(kind, a).Some? then (s, Obstacle(kind, a).value)
    else if a.upstream.Refused? then (s, Internal)
    else
      var s1 := s.(made := s.made + [Made(a.checked, a.at)]);
      if a.upstream.Lost? || (kind.SubscriptionLink? && !a.recorded) then (s1, Internal)
      else if !a.marked then (s1, Success)
      else (s1.(link := s.link.(status := Done, closedAt := Some(a.doneAt))), Success)
  }

  function CancelledBy(s: State, fetch: Fetch, marked: bool): (State, Reply) {
    if fetch.Missing? then (s, NotFound)
    else if fetch.Broken? then (s, Internal)
    else if !s.link.status.Open? then (s, FailedPrecondition)
    else if !marked then (s, Internal)
    else (s.(link := s.link.(status := Cancelled)), Success)
  }

  class MemberService {
    var link: LinkRow
    /** What OpenPay has carried out for this link. */
    var made: seq<Made>

    constructor (link: LinkRow)
      ensures this.link == link && made == []
    {
      this.link, made := link, [];
    }

    ghost function Now(): State
      reads this
    {
      State(link, made)
    }

    method UpdateLink(l: LinkRow, ok: bool)
      modifies this`link
      ensures link == if ok then l else old(link)
    {
      if ok {
        link := l;
      }
    }

    method RedeemPaymentLink(a: Answers) returns (reply: Reply)
      modifies this
      ensures (Now(), reply) == Redeemed(PaymentLink, old(Now()), a)
    {
      if !a.inputsOk {
        return InvalidArgument;
      }
      if a.fetch != Found {
        return if a.fetch.Missing? then NotFound else Internal;
      }
      var l := link;
      if l.status != Open {
        return FailedPrecondition;
      }
      if l.expiresAt.Some? && a.checked > l.expiresAt.value {
        l := l.(status := Expired);
        UpdateLink(l, a.expiryMarked);
        return FailedPrecondition;
      }
      if !a.memberOk {
        return Internal;
      }
      if !a.hasCustomer {
        return FailedPrecondition;
      }
      if !a.cardOk || !a.tenantOk {
        return Internal;
      }
      if !a.networkOk {
        return PermissionDenied;
      }
      if !a.cardSaved || a.upstream == Refused {
        return Internal;
      }
      made := made + [Made(a.checked, a.at)];
      if a.upstream == Lost {
        return Internal;
      }
      // A payment row that could not be stored is only logged.
      l := l.(status := Done, closedAt := Some(a.doneAt));
      UpdateLink(l, a.marked);
      return Success;
    }

    method RedeemSubscriptionLink(a: Answers) returns (reply: Reply)
      modifies this
      ensures (Now(), reply) == Redeemed(SubscriptionLink, old(Now()), a)
    {
      if !a.inputsOk {
        return InvalidArgument;
      }
      if a.fetch != Found {
        return if a.fetch.Missing? then NotFound else Internal;
      }
      var l := link;
      if l.status != Open {
        return FailedPrecondition;
      }
      if l.expiresAt.Some? && a.checked > l.expiresAt.value {
        l := l.(status := Expired);
        UpdateLink(l, a.expiryMarked);
        return FailedPrecondition;
      }
      if !a.memberOk {
        return Internal;
      }
      if !a.hasCustomer {
        return FailedPrecondition;
      }
      if !a.planOk {
        return Internal;
      }
      if !a.planActive {
        return FailedPrecondition;
      }
      if !a.cardOk || !a.tenantOk {
        return Internal;
      }
      if !a.networkOk {
        return PermissionDenied;
      }
      if !a.cardSaved || a.upstream == Refused {
        return Internal;
      }
      made := made + [Made(a.checked, a.at)];
      if a.upstream == Lost || !a.recorded {
        return Internal;
      }
      l := l.(status := Done, closedAt := Some(a.doneAt));
      UpdateLink(l, a.marked);
      return Success;
    }

    method ExpirePaymentLink(fetch: Fetch, marked: bool) returns (reply: Reply)
      modifies this
      ensures (Now(), reply) == CancelledBy(old(Now()), fetch, marked)
      ensures reply == Success <==> fetch == Found && old(link).status == Open && marked
      ensures reply == Success ==> link == old(link).(status := Cancelled)
      ensures reply != Success ==> link == old(link)
      ensures made == old(made)
    {
      if fetch != Found {
        return if fetch.Missing? then NotFound else Internal;
      }
      var l := link;
      if l.status != Open {
        return FailedPrecondition;
      }
      l := l.(status := Cancelled);
      UpdateLink(l, marked);
      return if marked then Success else Internal;
    }
  }

  // ── Whole runs ──

  function Next(kind: Kind, s: State, e: Event): State {
    match e
    case Redeem(a) => Redeemed(kind, s, a).0
    case Cancel(fetch, marked) => CancelledBy(s, fetch, marked).0
  }

  function Run(kind: Kind, s: State, es: seq<Event>): State {
    if es == [] then s else Next(kind, Run(kind, s, es[..|es| - 1]), es[|es| - 1])
  }

  predicate MakesOne(kind: Kind, s: State, e: Event) {
    |Next(kind, s, e).made| == |s.made| + 1
  }

  /** Steps that made an operation and slipped. */
  function Slips(kind: Kind, s: State, es: seq<Event>): nat {
    if es == [] then 0
    else
      var before, e := es[..|es| - 1], es[|es| - 1];
      Slips(kind, s, before)
      + if MakesOne(kind, Run(kind, s, before), e) && e.Redeem? && Slipped(kind, e.answers) then 1 else 0
  }

  /** What OpenPay carried out is counted exactly: one for the redemption that closed the link,
      and one for every slip. */
  lemma {:induction false} OperationsAreCounted(kind: Kind, s: State, es: seq<Event>)
    requires !s.link.status.Done?
    ensures
      var after := Run(kind, s, es);
      |after.made| == |s.made| + Slips(kind, s, es) + if after.link.status.Done? then 1 else 0
  {
    if es != [] {
      OperationsAreCounted(kind, s, es[..|es| - 1]);
    }
  }

  /** A link that left its open status never changes again, and nothing more is made for it. */
  lemma {:induction false} ClosedIsFinal(kind: Kind, s: State, es: seq<Event>)
    requires !s.link.status.Open?
    ensures Run(kind, s, es) == s
  {
    if es != [] {
      ClosedIsFinal(kind, s, es[..|es| - 1]);
    }
  }

  /** Operations are only added, each by a redemption that found the link open and its expiry
      not yet passed. */
  lemma {:induction false} OperationsAreTimely(kind: Kind, s: State, es: seq<Event>)
    ensures
      var after := Run(kind, s, es);
      && after.link.expiresAt == s.link.expiresAt
      && |after.made| >= |s.made| && after.made[..|s.made|] == s.made
      && forall i :: |s.made| <= i < |after.made| ==> !Outdated(s.link, after.made[i].checked)
  {
    if es != [] {
      OperationsAreTimely(kind, s, es[..|es| - 1]);
    }
  }

  predicate AllAfter(es: seq<Event>, t: int) {
    forall i :: 0 <= i < |es| && es[i].Redeem? ==> es[i].answers.checked > t
  }

  /** Once the expiry has passed, no sequence of calls makes anything or redeems the link. */
  lemma {:induction false} NothingAfterExpiry(kind: Kind, s: State, es: seq<Event>)
    requires s.link.expiresAt.Some? && AllAfter(es, s.link.expiresAt.value)
    ensures Run(kind, s, es).made == s.made
    ensures Run(kind, s, es).link.status.Done? ==> s.link.status.Done?
  {
    if es != [] {
      NothingAfterExpiry(kind, s, es[..|es| - 1]);
      OperationsAreTimely(kind, s, es[..|es| - 1]);
    }
  }

  /** An operation made after the link's expiry. */
  predicate MadeLate(before: State, after: State) {
    && before.link.expiresAt.Some?
    && |after.made| > |before.made| && after.made[|before.made|].at > before.link.expiresAt.value
  }

  /** The call to OpenPay comes after the expiry check, so an operation may be later than the expiry:
      exactly when the expiry lies between the two and nothing else stops the redemption. */
  lemma ChargedLateIff(kind: Kind, s: State, a: Answers)
    requires s.link.expiresAt.Some?
    ensures MadeLate(s, Redeemed(kind, s, a).0) <==>
      && Admitted(s, a) && a.checked <= s.link.expiresAt.value < a.at
      && Cleared(kind, a) && a.upstream != Refused
  {
  }

  predicate WithinDelay(es: seq<Event>, d: int) {
    forall i :: 0 <= i < |es| && es[i].Redeem? ==> es[i].answers.at <= es[i].answers.checked + d
  }

  /** If OpenPay is called at most d after the check, no operation of any run is later than d after
      the expiry. */
  lemma {:induction false} LateByAtMost(kind: Kind, s: State, es: seq<Event>, d: int)
    requires s.link.expiresAt.Some? && WithinDelay(es, d)
    ensures
      var made := Run(kind, s, es).made;
      && |made| >= |s.made|
      && forall i :: |s.made| <= i < |made| ==> made[i].at <= s.link.expiresAt.value + d
  {
    if es != [] {
      var q := es[..|es| - 1];
      LateByAtMost(kind, s, q, d);
      OperationsAreTimely(kind, s, q);
    }
  }

  /** The caller is told that the link is redeemed whether or not its row says so: the row says so
      exactly when the last write went through. */
  lemma ToldRedeemed(kind: Kind, s: State, a: Answers)
    requires Redeemed(kind, s, a).1 == Success
    ensures Redeemed(kind, s, a).0.link.status.Done? <==> a.marked
    ensures |Redeemed(kind, s, a).0.made| == |s.made| + 1
  {
  }

  // ── What one call answers and leaves behind ──

  /** The steps between the expiry check and the call to OpenPay all went well. */
  predicate Cleared(kind: Kind, a: Answers) {
    && a.memberOk && a.hasCustomer && a.cardOk && a.tenantOk && a.networkOk && a.cardSaved
    && (kind == SubscriptionLink ==> a.planOk && a.planActive)
  }

  /** The request is well-formed and finds a link that is open. */
  predicate Admitted(s: State, a: Answers) {
    a.inputsOk && a.fetch == Found && s.link.status == Open
  }

  predicate InTime(l: LinkRow, a: Answers) {
    l.expiresAt.None? || a.checked <= l.expiresAt.value
  }

  /** An operation is made exactly when an open link is redeemed in time, nothing stands in the way, and
      OpenPay does not refuse. */
  lemma OperationMadeIff(kind: Kind, s: State, a: Answers)
    ensures
      var after := Redeemed(kind, s, a).0;
      var made := Admitted(s, a) && InTime(s.link, a) && Cleared(kind, a) && a.upstream != Refused;
      after.made == if made then s.made + [Made(a.checked, a.at)] else s.made
  {
  }

  /** The row after a redemption: done when the operation was accepted, stored where it must be, and the
      last write went through; expired when it came too late and that write went through; otherwise as
      it was. */
  lemma RowAfterRedemption(kind: Kind, s: State, a: Answers)
    ensures
      var l, l' := s.link, Redeemed(kind, s, a).0.link;
      var accepted := Cleared(kind, a) && a.upstream == Accepted && (kind == SubscriptionLink ==> a.recorded);
      l' == if !Admitted(s, a) then l
            else if !InTime(l, a) then (if a.expiryMarked then l.(status := Expired) else l)
            else if accepted && a.marked then l.(status := Done, closedAt := Some(a.doneAt))
            else l
  {
  }

  /** What the caller is told: success when the operation was accepted and stored where it must be. */
  lemma RedemptionReply(kind: Kind, s: State, a: Answers)
    ensures
      var reply := Redeemed(kind, s, a).1;
      && (reply == Success <==>
           && Admitted(s, a) && InTime(s.link, a) && Cleared(kind, a) && a.upstream == Accepted
           && (kind == SubscriptionLink ==> a.recorded))
      && (reply == InvalidArgument <==> !a.inputsOk)
      && (reply == NotFound <==> a.inputsOk && a.fetch == Missing)
      && (reply == PermissionDenied ==> a.cardOk && a.tenantOk && !a.networkOk)
      && (a.inputsOk && a.fetch == Found && !(Admitted(s, a) && InTime(s.link, a)) ==> reply == FailedPrecondition)
  {
  }

  /** A cancellation is answered success exactly when the link was found open and the write went through,
      and then the link is cancelled; otherwise nothing changes. */
  lemma CancellationIff(s: State, fetch: Fetch, marked: bool)
    ensures
      var (after, reply) := CancelledBy(s, fetch, marked);
      && (reply == Success <==> fetch == Found && s.link.status == Open && marked)
      && after == (if reply == Success then s.(link := s.link.(status := Cancelled)) else s)
      && (reply == NotFound <==> fetch == Missing)
      && (reply == FailedPrecondition <==> fetch == Found && s.link.status != Open)
  {
  }

  /** After a cancellation answered success no sequence of calls makes an operation or redeems the link. */
  lemma NothingAfterCancelling(kind: Kind, s: State, fetch: Fetch, marked: bool, es: seq<Event>)
    requires CancelledBy(s, fetch, marked).1 == Success
    ensures
      var after := Run(kind, CancelledBy(s, fetch, marked).0, es);
      after.made == s.made && after.link == s.link.(status := Cancelled)
  {
    ClosedIsFinal(kind, CancelledBy(s, fetch, marked).0, es);
  }

  /** A cancellation in a run does what the call alone does. */
  lemma CancelStep(kind: Kind, s: State, es: seq<Event>, fetch: Fetch, marked: bool)
    ensures
      var before := Run(kind, s, es);
      Run(kind, s, es + [Cancel(fetch, marked)]) ==
        if fetch == Found && before.link.status == Open && marked
        then before.(link := before.link.(status := Cancelled)) else before
  {
    assert (es + [Cancel(fetch, marked)])[..|es|] == es;
  }
}
