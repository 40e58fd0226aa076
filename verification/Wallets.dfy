/** Top-up payments, gateway webhooks and wallet balances.

    Amounts are in halalas. The gateway's id of a payment is assigned by the environment, to one
    payment at most, and a webhook names a payment by that id. */
module Wallets {
  import opened Basics
  import opened Options
  import opened Sequences

  type Id = string

  datatype PaymentStatus = PaymentPending | PaymentCompleted | PaymentFailed
  datatype PaymentType = BookingPayment | WalletTopUp
  datatype Gateway = Moyasar | StcPay | WalletGateway

  datatype Payment = Payment(
    userId: Id,
    kind: PaymentType,
    gateway: Gateway,
    amount: int,
    status: PaymentStatus,
    paidAt: Option<Instant>,
    failedAt: Option<Instant>)

  datatype Wallet = Wallet(userId: Id, balance: int)

  datatype Booking = Booking(customerId: Id, totalAmount: int)

  /** Payments are named by their position; `byGateway` is the column of gateway ids. */
  datatype State = State(
    bookings: map<Id, Booking>,
    payments: seq<Payment>,
    byGateway: map<Id, nat>,
    wallets: seq<Wallet>)

  datatype WebhookType = PaymentPaidEvent | PaymentFailedEvent | OtherEvent

  datatype Event =
    | Create(user: Id, booking: Id, gateway: Gateway, requested: Option<int>)
    | TopUp(user: Id, amount: int, gateway: Gateway)
    | GetWallet(user: Id)
    | AssignGatewayId(payment: nat, gatewayId: Id) // by the environment
    // `saves` is the number of its saves the storage accepts; where a save fails, it stops
    | Webhook(kind: WebhookType, gatewayId: Id, now: Instant, saves: nat)

  /** The position of the wallet of `user`. */
  function Find(wallets: seq<Wallet>, user: Id): (r: Option<nat>)
    ensures r.None? <==> forall i :: 0 <= i < |wallets| ==> wallets[i].userId != user
    ensures r.Some? ==> r.value < |wallets| && wallets[r.value].userId == user
  {
    if wallets == [] then None
    else
      var n := |wallets| - 1;
      assert forall i :: 0 <= i < n ==> wallets[..n][i] == wallets[i];
      var before := Find(wallets[..n], user);
      if before.Some? then before else if wallets[n].userId == user then Some(n) else None
  }

  /** The payment a webhook matches. */
  function Matched(st: State, e: Event): Option<nat> {
    if e.Webhook? && e.kind != OtherEvent && e.gatewayId in st.byGateway && st.byGateway[e.gatewayId] < |st.payments|
    then Some(st.byGateway[e.gatewayId]) else None
  }

  function MarkFailed(st: State, p: nat, now: Instant): State
    requires p < |st.payments|
  {
    st.(payments := st.payments[p := st.payments[p].(status := PaymentFailed, failedAt := Some(now))])
  }

  function MarkCompleted(st: State, p: nat, now: Instant): State
    requires p < |st.payments|
  {
    st.(payments := st.payments[p := st.payments[p].(status := PaymentCompleted, paidAt := Some(now))])
  }

  /** A paid event that matches `p` has a wallet to credit. */
  predicate Creditable(st: State, p: nat) {
    p < |st.payments| && st.payments[p].kind == WalletTopUp && Find(st.wallets, st.payments[p].userId).Some?
  }

  function CreditWallet(st: State, p: nat): State
    requires Creditable(st, p)
  {
    var i := Find(st.wallets, st.payments[p].userId).value;
    st.(wallets := st.wallets[i := st.wallets[i].(balance := st.wallets[i].balance + st.payments[p].amount)])
  }

  function NewPayment(user: Id, kind: PaymentType, gateway: Gateway, amount: int): Payment {
    Payment(user, kind, gateway, amount, PaymentPending, None, None)
  }

  function Step(st: State, e: Event): State {
    match e
    case Create(user, booking, gateway, requested) =>
      if booking !in st.bookings || st.bookings[booking].customerId != user then st
      else
        var due := if requested.Some? && requested.value != 0 then requested.value else st.bookings[booking].totalAmount;
        st.(payments := st.payments + [NewPayment(user, BookingPayment, gateway, due)])
    case TopUp(user, amount, gateway) =>
      st.(payments := st.payments + [NewPayment(user, WalletTopUp, gateway, amount)])
    case GetWallet(user) =>
      if Find(st.wallets, user).Some? then st else st.(wallets := st.wallets + [Wallet(user, 0)])
    case AssignGatewayId(payment, gatewayId) =>
      if gatewayId in st.byGateway || payment >= |st.payments| then st
      else st.(byGateway := st.byGateway[gatewayId := payment])
    case Webhook(kind, _, now, saves) =>
      if Matched(st, e).None? || saves == 0 then st
      else
        var p := Matched(st, e).value;
        if kind == PaymentFailedEvent then MarkFailed(st, p, now)
        else if saves >= 2 && Creditable(st, p) then CreditWallet(MarkCompleted(st, p, now), p)
        else MarkCompleted(st, p, now)
  }

  function Run(st: State, events: seq<Event>): State
    decreases |events|
  {
    if events == [] then st else Run(Step(st, events[0]), events[1..])
  }

  // ---- one event --------------------------------------------------------------------------

  /** Paying for one's own booking records a pending payment over the given amount, if it is not 0,
      and else over the price; for no other booking anything is recorded. */
  lemma CreateDoes(st: State, user: Id, booking: Id, gateway: Gateway, requested: Option<int>)
    ensures
      var st' := Step(st, Create(user, booking, gateway, requested));
      if booking !in st.bookings || st.bookings[booking].customerId != user then st' == st
      else
        var price := st.bookings[booking].totalAmount;
        var amount := if requested == None || requested == Some(0) then price else requested.value;
        st' == st.(payments := st.payments + [Payment(user, BookingPayment, gateway, amount, PaymentPending, None, None)])
  {
  }

  lemma TopUpDoes(st: State, user: Id, amount: int, gateway: Gateway)
    ensures Step(st, TopUp(user, amount, gateway))
         == st.(payments := st.payments + [Payment(user, WalletTopUp, gateway, amount, PaymentPending, None, None)])
  {
  }

  /** A user without a wallet gets an empty one. */
  lemma GetWalletDoes(st: State, user: Id)
    ensures Step(st, GetWallet(user))
         == if exists i :: 0 <= i < |st.wallets| && st.wallets[i].userId == user then st
            else st.(wallets := st.wallets + [Wallet(user, 0)])
  {
  }

  /** A paid event completes its payment and, for a top-up, adds the amount to the first wallet of the
      user, if there is one; a failed event marks its payment; and no other event or id does
      anything. */
  lemma WebhookDoes(st: State, kind: WebhookType, g: Id, now: Instant)
    requires forall h :: h in st.byGateway ==> st.byGateway[h] < |st.payments|
    ensures
      var st' := Step(st, Webhook(kind, g, now, 2));
      if g !in st.byGateway || kind == OtherEvent then st' == st
      else
        var p := st.byGateway[g];
        var payment := st.payments[p];
        && st'.bookings == st.bookings && st'.byGateway == st.byGateway
        && st'.payments == st.payments[p := if kind == PaymentPaidEvent
                                            then payment.(status := PaymentCompleted, paidAt := Some(now))
                                            else payment.(status := PaymentFailed, failedAt := Some(now))]
        && |st'.wallets| == |st.wallets|
        && forall i :: 0 <= i < |st.wallets| ==>
             st'.wallets[i] == if kind == PaymentPaidEvent && payment.kind == WalletTopUp && IsFirstWallet(st.wallets, i, payment.userId)
                               then st.wallets[i].(balance := st.wallets[i].balance + payment.amount)
                               else st.wallets[i]
  {
    if g in st.byGateway && kind == PaymentPaidEvent {
      FindIsFirst(st.wallets, st.payments[st.byGateway[g]].userId);
    }
  }

  /** A webhook whose first save fails does nothing, and one whose second fails has marked its payment
      and credited nobody. */
  lemma WebhookStops(st: State, kind: WebhookType, g: Id, now: Instant)
    ensures Step(st, Webhook(kind, g, now, 0)) == st
    ensures Step(st, Webhook(kind, g, now, 1)).wallets == st.wallets
    ensures Step(st, Webhook(kind, g, now, 1)).payments == Step(st, Webhook(kind, g, now, 2)).payments
  {
  }

  predicate IsFirstWallet(wallets: seq<Wallet>, i: nat, user: Id) {
    i < |wallets| && wallets[i].userId == user && forall j :: 0 <= j < i ==> wallets[j].userId != user
  }

  lemma {:induction false} FindIsFirst(wallets: seq<Wallet>, user: Id)
    ensures forall i: nat :: IsFirstWallet(wallets, i, user) <==> Find(wallets, user) == Some(i)
    decreases |wallets|
  {
    if wallets != [] {
      var n := |wallets| - 1;
      FindIsFirst(wallets[..n], user);
      forall i: nat ensures IsFirstWallet(wallets, i, user) <==> Find(wallets, user) == Some(i) {
        assert IsFirstWallet(wallets[..n], i, user) <==> Find(wallets[..n], user) == Some(i);
      }
    }
  }

  // ---- conservation -----------------------------------------------------------------------

  function Total(wallets: seq<Wallet>): int {
    if wallets == [] then 0 else Total(wallets[..|wallets| - 1]) + wallets[|wallets| - 1].balance
  }

  /** The payment credited by `e`: a paid event that matches a top-up whose user has a wallet, and
      both saves of it are accepted. */
  function Credited(st: State, e: Event): seq<nat> {
    var m := Matched(st, e);
    if m.Some? && e.kind == PaymentPaidEvent && Creditable(st, m.value) && e.saves >= 2 then [m.value] else []
  }

  function Credits(st: State, events: seq<Event>): seq<nat>
    decreases |events|
  {
    if events == [] then [] else Credited(st, events[0]) + Credits(Step(st, events[0]), events[1..])
  }

  function AmountsOf(ids: seq<nat>, payments: seq<Payment>): int {
    if ids == [] then 0
    else AmountsOf(ids[1..], payments) + if ids[0] < |payments| then payments[ids[0]].amount else 0
  }

  /** Payments are never removed and keep their user, kind and amount. */
  predicate Extends(a: seq<Payment>, b: seq<Payment>) {
    |a| <= |b| && forall i :: 0 <= i < |a| ==> b[i].amount == a[i].amount && b[i].kind == a[i].kind && b[i].userId == a[i].userId
  }

  lemma {:induction false} RunExtends(st: State, events: seq<Event>)
    ensures Extends(st.payments, Run(st, events).payments)
    decreases |events|
  {
    if events != [] {
      RunExtends(Step(st, events[0]), events[1..]);
    }
  }

  lemma {:induction false} TotalUpdate(wallets: seq<Wallet>, i: nat, w: Wallet)
    requires i < |wallets|
    ensures Total(wallets[i := w]) == Total(wallets) - wallets[i].balance + w.balance
  {
    var n := |wallets| - 1;
    if i < n {
      assert wallets[i := w][..n] == wallets[..n][i := w];
      TotalUpdate(wallets[..n], i, w);
    } else {
      assert wallets[i := w][..n] == wallets[..n];
    }
  }

  /** Only crediting a wallet and making an empty one change the wallets. */
  lemma WalletsAfterStep(st: State, e: Event)
    ensures Credited(st, e) != [] ==> Step(st, e).wallets == CreditWallet(st, Credited(st, e)[0]).wallets
    ensures Credited(st, e) == [] ==>
              Step(st, e).wallets == st.wallets || exists user :: Step(st, e).wallets == st.wallets + [Wallet(user, 0)]
  {
  }

  lemma StepConserves(st: State, e: Event)
    ensures Total(Step(st, e).wallets) == Total(st.wallets) + AmountsOf(Credited(st, e), st.payments)
  {
    WalletsAfterStep(st, e);
    if Credited(st, e) != [] {
      CreditAddsAmount(st, Credited(st, e)[0]);
      assert Credited(st, e)[1..] == [];
    } else if Step(st, e).wallets != st.wallets {
      var user :| Step(st, e).wallets == st.wallets + [Wallet(user, 0)];
      assert (st.wallets + [Wallet(user, 0)])[..|st.wallets|] == st.wallets;
    }
  }

  lemma CreditAddsAmount(st: State, p: nat)
    requires Creditable(st, p)
    ensures Total(CreditWallet(st, p).wallets) == Total(st.wallets) + st.payments[p].amount
  {
    var i := Find(st.wallets, st.payments[p].userId).value;
    TotalUpdate(st.wallets, i, st.wallets[i].(balance := st.wallets[i].balance + st.payments[p].amount));
  }

  /** Wallet conservation: over any sequence of payments, top-ups, wallet creations and webhooks,
      duplicates and unknown ids included, the balances grow by exactly the amounts of the paid
      events that matched a top-up whose user had a wallet. */
  lemma {:induction false} WalletConservation(st: State, events: seq<Event>)
    ensures Total(Run(st, events).wallets) == Total(st.wallets) + AmountsOf(Credits(st, events), Run(st, events).payments)
    decreases |events|
  {
    if events != [] {
      var (st', c) := (Step(st, events[0]), Credited(st, events[0]));
      StepConserves(st, events[0]);
      WalletConservation(st', events[1..]);
      RunExtends(st', events[1..]);
      AmountsConcat(c, Credits(st', events[1..]), Run(st, events).payments);
      AmountLater(st, events[0], Run(st, events).payments);
    }
  }

  lemma AmountsConcat(c: seq<nat>, ids: seq<nat>, payments: seq<Payment>)
    requires |c| <= 1
    ensures AmountsOf(c + ids, payments) == AmountsOf(c, payments) + AmountsOf(ids, payments)
  {
    if c == [] {
      assert c + ids == ids;
    } else {
      assert (c + ids)[1..] == ids && c[1..] == [];
    }
  }

  /** The amount of a credited payment is still the same later. */
  lemma AmountLater(st: State, e: Event, payments: seq<Payment>)
    requires Extends(Step(st, e).payments, payments)
    ensures AmountsOf(Credited(st, e), payments) == AmountsOf(Credited(st, e), st.payments)
  {
    var c := Credited(st, e);
    if c != [] {
      assert c[1..] == [];
      assert Step(st, e).payments[c[0]].amount == st.payments[c[0]].amount;
    }
  }

  // ---- against the completed top-ups ------------------------------------------------------

  function Is(p: nat): nat -> bool {
    (x: nat) => x == p
  }

  /** The amounts of the first `n` payments that were credited and are completed now. */
  function CompletedCredited(ids: seq<nat>, payments: seq<Payment>, n: nat): int
    requires n <= |payments|
  {
    if n == 0 then 0
    else
      CompletedCredited(ids, payments, n - 1)
      + if Count(ids, Is(n - 1)) > 0 && payments[n - 1].status == PaymentCompleted then payments[n - 1].amount else 0
  }

  /** The amounts of the first `n` payments, each as often as it was credited. */
  function Weighted(ids: seq<nat>, payments: seq<Payment>, n: nat): int
    requires n <= |payments|
  {
    if n == 0 then 0 else Weighted(ids, payments, n - 1) + Count(ids, Is(n - 1)) * payments[n - 1].amount
  }

  lemma {:induction false} WeightedCons(x: nat, ids: seq<nat>, payments: seq<Payment>, n: nat)
    requires n <= |payments|
    ensures Weighted([x] + ids, payments, n) == Weighted(ids, payments, n) + if x < n then payments[x].amount else 0
    decreases n
  {
    if n > 0 {
      var amount, c := payments[n - 1].amount, Count(ids, Is(n - 1));
      WeightedCons(x, ids, payments, n - 1);
      CountConcat([x], ids, Is(n - 1));
      assert Count([x], Is(n - 1)) == if x == n - 1 then 1 else 0 by {
        assert [x] == [] + [x];
        CountPush([], x, Is(n - 1));
      }
      MulAdds(1, c, amount);
    }
  }

  lemma {:induction false} WeightedNothing(payments: seq<Payment>, n: nat)
    requires n <= |payments|
    ensures Weighted([], payments, n) == 0
    decreases n
  {
    if n > 0 {
      WeightedNothing(payments, n - 1);
    }
  }

  lemma {:induction false} AmountsAreWeighted(ids: seq<nat>, payments: seq<Payment>)
    ensures AmountsOf(ids, payments) == Weighted(ids, payments, |payments|)
    decreases |ids|
  {
    if ids == [] {
      WeightedNothing(payments, |payments|);
    } else {
      AmountsAreWeighted(ids[1..], payments);
      WeightedCons(ids[0], ids[1..], payments, |payments|);
      assert [ids[0]] + ids[1..] == ids;
    }
  }

  /** Was this payment credited once and is it completed, or was it never credited? */
  predicate CreditedOnce(ids: seq<nat>, payments: seq<Payment>, p: nat)
    requires p < |payments|
  {
    Count(ids, Is(p)) == 0 || (Count(ids, Is(p)) == 1 && payments[p].status == PaymentCompleted)
  }

  lemma {:induction false} WeightedAgainstCompleted(ids: seq<nat>, payments: seq<Payment>, n: nat)
    requires n <= |payments|
    requires forall p :: 0 <= p < n && Count(ids, Is(p)) > 0 ==> payments[p].amount > 0
    ensures Weighted(ids, payments, n) >= CompletedCredited(ids, payments, n)
    ensures Weighted(ids, payments, n) == CompletedCredited(ids, payments, n)
       <==> forall p :: 0 <= p < n ==> CreditedOnce(ids, payments, p)
    decreases n
  {
    if n > 0 {
      WeightedAgainstCompleted(ids, payments, n - 1);
      var c, amount := Count(ids, Is(n - 1)), payments[n - 1].amount;
      if c > 1 {
        assert c * amount >= 2 * amount;
      }
      assert CreditedOnce(ids, payments, n - 1) <==> c * amount == (if c > 0 && payments[n - 1].status == PaymentCompleted then amount else 0);
    }
  }

  predicate PositiveTopUps(st: State) {
    forall i :: 0 <= i < |st.payments| && st.payments[i].kind == WalletTopUp ==> st.payments[i].amount > 0
  }

  predicate PositiveEvents(events: seq<Event>) {
    forall i :: 0 <= i < |events| && events[i].TopUp? ==> events[i].amount > 0
  }

  lemma StepKeepsPositive(st: State, e: Event)
    requires PositiveTopUps(st) && (e.TopUp? ==> e.amount > 0)
    ensures PositiveTopUps(Step(st, e))
    ensures Extends(st.payments, Step(st, e).payments)
  {
  }

  lemma CountOne(ids: seq<nat>, p: nat)
    requires |ids| <= 1
    ensures Count(ids, Is(p)) == if ids != [] && ids[0] == p then 1 else 0
  {
    if ids != [] {
      assert ids == [] + [ids[0]];
      CountPush([], ids[0], Is(p));
    }
  }

  /** Counting over a run: the first event and the rest. */
  lemma CountCredits(st: State, events: seq<Event>, p: nat)
    requires events != []
    ensures Count(Credits(st, events), Is(p))
         == (if Credited(st, events[0]) == [p] then 1 else 0) + Count(Credits(Step(st, events[0]), events[1..]), Is(p))
  {
    CountConcat(Credited(st, events[0]), Credits(Step(st, events[0]), events[1..]), Is(p));
    CountOne(Credited(st, events[0]), p);
  }

  lemma {:induction false} CreditsArePositive(st: State, events: seq<Event>, p: nat)
    requires PositiveTopUps(st) && PositiveEvents(events)
    ensures Count(Credits(st, events), Is(p)) > 0 ==> p < |Run(st, events).payments| && Run(st, events).payments[p].amount > 0
    decreases |events|
  {
    if events != [] {
      StepKeepsPositive(st, events[0]);
      CountCredits(st, events, p);
      RunExtends(st, events);
      CreditsArePositive(Step(st, events[0]), events[1..], p);
    }
  }

  // ---- when balances agree with the completed top-ups -------------------------------------

  /** The payment a webhook matches and saves. */
  function MatchOf(st: State, e: Event): seq<nat> {
    if Matched(st, e).Some? && e.saves >= 1 then [Matched(st, e).value] else []
  }

  /** The payments matched and saved by the webhooks of a run. */
  function Matches(st: State, events: seq<Event>): seq<nat>
    decreases |events|
  {
    if events == [] then [] else MatchOf(st, events[0]) + Matches(Step(st, events[0]), events[1..])
  }

  lemma CountMatches(st: State, events: seq<Event>, p: nat)
    requires events != []
    ensures Count(Matches(st, events), Is(p))
         == (if MatchOf(st, events[0]) == [p] then 1 else 0) + Count(Matches(Step(st, events[0]), events[1..]), Is(p))
  {
    CountConcat(MatchOf(st, events[0]), Matches(Step(st, events[0]), events[1..]), Is(p));
    CountOne(MatchOf(st, events[0]), p);
  }

  /** What one event does to payment `p`: only a matching webhook writes its status. */
  lemma StepOnPayment(st: State, e: Event, p: nat)
    ensures Credited(st, e) == [p] ==> MatchOf(st, e) == [p] && Step(st, e).payments[p].status == PaymentCompleted
    ensures p < |st.payments| && MatchOf(st, e) != [p] ==>
              p < |Step(st, e).payments| && Step(st, e).payments[p].status == st.payments[p].status
  {
  }

  /** What the last webhook of a run that matches `p` and saves it says. */
  function LastWord(st: State, events: seq<Event>, p: nat): Option<WebhookType>
    decreases |events|
  {
    if events == [] then None
    else
      var later := LastWord(Step(st, events[0]), events[1..], p);
      if later.Some? then later else if MatchOf(st, events[0]) == [p] then Some(events[0].kind) else None
  }

  lemma {:induction false} StatusFollowsLastWord(st: State, events: seq<Event>, p: nat)
    requires p < |st.payments|
    ensures p < |Run(st, events).payments|
    ensures Run(st, events).payments[p].status
         == match LastWord(st, events, p)
            case None => st.payments[p].status
            case Some(kind) => if kind == PaymentPaidEvent then PaymentCompleted else PaymentFailed
    ensures LastWord(st, events, p) != Some(OtherEvent)
    decreases |events|
  {
    if events != [] {
      StepOnPayment(st, events[0], p);
      StatusFollowsLastWord(Step(st, events[0]), events[1..], p);
    }
  }

  /** Whenever an event of the run credits payment `p`, no later event credits it again, and the
      last later webhook that matches it, if any does, says paid. */
  predicate Settled(st: State, events: seq<Event>, p: nat)
    decreases |events|
  {
    events != [] ==>
      var (st', rest) := (Step(st, events[0]), events[1..]);
      && (Credited(st, events[0]) == [p] ==>
            p !in Credits(st', rest) && (LastWord(st', rest, p) == None || LastWord(st', rest, p) == Some(PaymentPaidEvent)))
      && Settled(st', rest, p)
  }

  /** Whenever an event of the run credits payment `p`, no later webhook matches it. */
  predicate LeftAlone(st: State, events: seq<Event>, p: nat)
    decreases |events|
  {
    events != [] ==>
      var (st', rest) := (Step(st, events[0]), events[1..]);
      && (Credited(st, events[0]) == [p] ==> p !in Matches(st', rest))
      && LeftAlone(st', rest, p)
  }

  lemma {:induction false} CountIn(ids: seq<nat>, p: nat)
    ensures Count(ids, Is(p)) == 0 <==> p !in ids
    decreases |ids|
  {
    if ids != [] {
      CountIn(ids[..|ids| - 1], p);
      assert ids == ids[..|ids| - 1] + [ids[|ids| - 1]];
    }
  }

  /** A payment is never credited, or credited once and completed in the end, exactly when every
      credit of it is settled by what comes later, however webhooks are interrupted. */
  lemma {:induction false} CreditedOnceMeansSettled(st: State, events: seq<Event>, p: nat)
    requires p < |Run(st, events).payments|
    ensures Settled(st, events, p) <==> CreditedOnce(Credits(st, events), Run(st, events).payments, p)
    decreases |events|
  {
    if events != [] {
      var (st', rest) := (Step(st, events[0]), events[1..]);
      CountCredits(st, events, p);
      CreditedOnceMeansSettled(st', rest, p);
      if Credited(st, events[0]) == [p] {
        StepOnPayment(st, events[0], p);
        StatusFollowsLastWord(st', rest, p);
        CountIn(Credits(st', rest), p);
      }
    }
  }

  predicate AllWhole(events: seq<Event>) {
    forall i :: 0 <= i < |events| && events[i].Webhook? ==> events[i].saves >= 2
  }

  /** Wallets keep their places and their users. */
  lemma StepKeepsWallets(st: State, e: Event, w: nat)
    requires w < |st.wallets|
    ensures w < |Step(st, e).wallets| && Step(st, e).wallets[w].userId == st.wallets[w].userId
  {
    WalletsAfterStep(st, e);
  }

  lemma StepExtends(st: State, e: Event)
    ensures Extends(st.payments, Step(st, e).payments)
  {
  }

  lemma StepKeepsCreditable(st: State, e: Event, p: nat)
    requires Creditable(st, p)
    ensures Creditable(Step(st, e), p)
  {
    var (st', w) := (Step(st, e), Find(st.wallets, st.payments[p].userId).value);
    StepExtends(st, e);
    StepKeepsWallets(st, e, w);
    assert st'.wallets[w].userId == st'.payments[p].userId;
  }

  /** Once `p` can be credited, the webhooks that match it credit it again unless the last of them
      says failed. */
  lemma {:induction false} UnsettledByMatch(st: State, events: seq<Event>, p: nat)
    requires Creditable(st, p) && AllWhole(events)
    ensures p in Matches(st, events) ==>
              p in Credits(st, events) || LastWord(st, events, p) == Some(PaymentFailedEvent)
    ensures p !in Matches(st, events) ==> p !in Credits(st, events) && LastWord(st, events, p) == None
    decreases |events|
  {
    if events != [] {
      StepKeepsCreditable(st, events[0], p);
      UnsettledByMatch(Step(st, events[0]), events[1..], p);
    }
  }

  /** Without interruptions, a credit is settled exactly when no later webhook matches the
      payment. */
  lemma {:induction false} SettledMeansLeftAlone(st: State, events: seq<Event>, p: nat)
    requires AllWhole(events)
    ensures Settled(st, events, p) <==> LeftAlone(st, events, p)
    decreases |events|
  {
    if events != [] {
      SettledMeansLeftAlone(Step(st, events[0]), events[1..], p);
      if Credited(st, events[0]) == [p] {
        StepKeepsCreditable(st, events[0], p);
        UnsettledByMatch(Step(st, events[0]), events[1..], p);
      }
    }
  }

  /** The balances never grow by less than the amounts of the top-ups that were credited and are
      completed in the end, and they grow by exactly that if and only if every credit is settled;
      without interruptions, if and only if no webhook matches a payment after it was credited. */
  lemma CompletedTopUps(st: State, events: seq<Event>)
    requires PositiveTopUps(st) && PositiveEvents(events)
    ensures
      var fin := Run(st, events);
      var growth := Total(fin.wallets) - Total(st.wallets);
      var completed := CompletedCredited(Credits(st, events), fin.payments, |fin.payments|);
      && growth >= completed
      && (growth == completed <==> AllSettled(st, events, |fin.payments|))
      && (AllWhole(events) ==> (growth == completed <==> AllLeftAlone(st, events, |fin.payments|)))
  {
    var (fin, ids) := (Run(st, events), Credits(st, events));
    WalletConservation(st, events);
    GrowthAgainstCompleted(st, events, fin, ids);
    SettledPayments(st, events, fin, ids);
    if AllWhole(events) {
      LeftAlonePayments(st, events, |fin.payments|);
    }
  }

  predicate AllSettled(st: State, events: seq<Event>, n: nat) {
    forall p :: 0 <= p < n ==> Settled(st, events, p)
  }

  predicate AllLeftAlone(st: State, events: seq<Event>, n: nat) {
    forall p :: 0 <= p < n ==> LeftAlone(st, events, p)
  }

  lemma GrowthAgainstCompleted(st: State, events: seq<Event>, fin: State, ids: seq<nat>)
    requires PositiveTopUps(st) && PositiveEvents(events) && fin == Run(st, events) && ids == Credits(st, events)
    ensures AmountsOf(ids, fin.payments) >= CompletedCredited(ids, fin.payments, |fin.payments|)
    ensures AmountsOf(ids, fin.payments) == CompletedCredited(ids, fin.payments, |fin.payments|)
       <==> forall p :: 0 <= p < |fin.payments| ==> CreditedOnce(ids, fin.payments, p)
  {
    AmountsAreWeighted(ids, fin.payments);
    forall p | 0 <= p < |fin.payments| && Count(ids, Is(p)) > 0 ensures fin.payments[p].amount > 0 {
      CreditsArePositive(st, events, p);
    }
    WeightedAgainstCompleted(ids, fin.payments, |fin.payments|);
  }

  lemma SettledPayments(st: State, events: seq<Event>, fin: State, ids: seq<nat>)
    requires fin == Run(st, events) && ids == Credits(st, events)
    ensures AllSettled(st, events, |fin.payments|)
       <==> forall p :: 0 <= p < |fin.payments| ==> CreditedOnce(ids, fin.payments, p)
  {
    if AllSettled(st, events, |fin.payments|) {
      forall p | 0 <= p < |fin.payments| ensures CreditedOnce(ids, fin.payments, p) {
        CreditedOnceMeansSettled(st, events, p);
      }
    } else {
      var p :| 0 <= p < |fin.payments| && !Settled(st, events, p);
      CreditedOnceMeansSettled(st, events, p);
    }
  }

  lemma LeftAlonePayments(st: State, events: seq<Event>, n: nat)
    requires AllWhole(events)
    ensures AllSettled(st, events, n) <==> AllLeftAlone(st, events, n)
  {
    if AllLeftAlone(st, events, n) {
      forall p | 0 <= p < n ensures Settled(st, events, p) {
        SettledMeansLeftAlone(st, events, p);
      }
    } else {
      var p :| 0 <= p < n && !LeftAlone(st, events, p);
      SettledMeansLeftAlone(st, events, p);
    }
  }

  /** The database after one user asked for a top-up and for the wallet. */
  function Ready(user: Id, amount: int, gateway: Gateway, g: Id): State {
    State(map[], [NewPayment(user, WalletTopUp, gateway, amount)], map[g := 0], [Wallet(user, 0)])
  }

  lemma ReadyIsReached(user: Id, amount: int, gateway: Gateway, g: Id)
    ensures Run(State(map[], [], map[], []), [TopUp(user, amount, gateway), GetWallet(user), AssignGatewayId(0, g)])
         == Ready(user, amount, gateway, g)
  {
    var e := [TopUp(user, amount, gateway), GetWallet(user), AssignGatewayId(0, g)];
    var st1 := Step(State(map[], [], map[], []), e[0]);
    var st2 := Step(st1, e[1]);
    assert e[1..][1..] == [e[2]] && [e[2]][1..] == [];
    assert Run(st1, e[1..]) == Run(st2, [e[2]]) == Run(Step(st2, e[2]), []);
  }

  lemma CountTwo(x: nat, y: nat, p: nat)
    ensures Count([x, y], Is(p)) == (if x == p then 1 else 0) + if y == p then 1 else 0
  {
    assert [x, y] == [x] + [y];
    CountPush([x], y, Is(p));
    CountOne([x], p);
  }

  /** A second webhook breaks the agreement: a top-up that is paid and then reported again is
      credited twice when the second event says paid, and stays credited without being completed
      when it says failed. */
  lemma SecondWebhookBreaksAgreement(user: Id, amount: int, gateway: Gateway, g: Id, second: WebhookType, now: Instant)
    requires amount > 0 && second != OtherEvent
    ensures
      var st := Ready(user, amount, gateway, g);
      var events := [Webhook(PaymentPaidEvent, g, now, 2), Webhook(second, g, now, 2)];
      var fin := Run(st, events);
      && !LeftAlone(st, events, 0)
      && |fin.payments| == 1
      && Total(fin.wallets) - Total(st.wallets) == (if second == PaymentPaidEvent then 2 * amount else amount)
      && CompletedCredited(Credits(st, events), fin.payments, 1) == (if second == PaymentPaidEvent then amount else 0)
  {
    var (first, next) := (Webhook(PaymentPaidEvent, g, now, 2), Webhook(second, g, now, 2));
    var st := Ready(user, amount, gateway, g);
    var st1 := Step(st, first);
    FirstWebhook(st, user, amount, gateway, g, first);
    NextWebhook(st1, user, amount, g, next);
    TwoEvents(st, first, next);
    CountTwo(0, 0, 0);
    CountOne([0], 0);
    TotalOfOne(st.wallets);
    TotalOfOne(Step(st1, next).wallets);
  }

  lemma TotalOfOne(wallets: seq<Wallet>)
    requires |wallets| == 1
    ensures Total(wallets) == wallets[0].balance
  {
    assert wallets[..0] == [];
  }

  /** `st` has the one top-up `g`, of `amount`, with this balance and status. */
  predicate OneTopUp(st: State, user: Id, amount: int, g: Id, balance: int, status: PaymentStatus) {
    && |st.payments| == 1 && st.wallets == [Wallet(user, balance)] && g in st.byGateway && st.byGateway[g] == 0
    && var p := st.payments[0];
    && p.userId == user && p.kind == WalletTopUp && p.amount == amount && p.status == status
  }

  lemma FirstWebhook(st: State, user: Id, amount: int, gateway: Gateway, g: Id, e: Event)
    requires st == Ready(user, amount, gateway, g)
    requires e.Webhook? && e.kind == PaymentPaidEvent && e.gatewayId == g && e.saves == 2
    ensures OneTopUp(Step(st, e), user, amount, g, amount, PaymentCompleted)
    ensures Credited(st, e) == [0]
  {
  }

  lemma NextWebhook(st: State, user: Id, amount: int, g: Id, e: Event)
    requires OneTopUp(st, user, amount, g, amount, PaymentCompleted)
    requires e.Webhook? && e.kind != OtherEvent && e.gatewayId == g && e.saves == 2
    ensures MatchOf(st, e) == [0]
    ensures e.kind == PaymentPaidEvent ==>
              OneTopUp(Step(st, e), user, amount, g, 2 * amount, PaymentCompleted) && Credited(st, e) == [0]
    ensures e.kind == PaymentFailedEvent ==>
              OneTopUp(Step(st, e), user, amount, g, amount, PaymentFailed) && Credited(st, e) == []
  {
  }

  lemma TwoEvents(st: State, a: Event, b: Event)
    ensures var (st1, e) := (Step(st, a), [a, b]);
            && Run(st, e) == Step(st1, b)
            && Credits(st, e) == Credited(st, a) + Credited(st1, b)
            && Matches(st1, [b]) == MatchOf(st1, b)
            && [a, b][1..] == [b]
  {
    var st1 := Step(st, a);
    var st2 := Step(st1, b);
    assert [a, b][1..] == [b] && [b][1..] == [];
    assert Run(st1, [b]) == Run(st2, []);
    assert Credits(st1, [b]) == Credited(st1, b) + Credits(st2, []);
    assert Matches(st1, [b]) == MatchOf(st1, b) + Matches(st2, []);
  }

  // ---- one event for each payment ---------------------------------------------------------

  lemma {:induction false} NoMatchNoWord(st: State, events: seq<Event>, p: nat)
    requires p !in Matches(st, events)
    ensures p !in Credits(st, events) && LastWord(st, events, p) == None
    decreases |events|
  {
    if events != [] {
      NoMatchNoWord(Step(st, events[0]), events[1..], p);
    }
  }

  lemma {:induction false} OneMatchIsSettled(st: State, events: seq<Event>, p: nat)
    requires Count(Matches(st, events), Is(p)) <= 1
    ensures Settled(st, events, p)
    decreases |events|
  {
    if events != [] {
      var (st', rest) := (Step(st, events[0]), events[1..]);
      CountMatches(st, events, p);
      OneMatchIsSettled(st', rest, p);
      if Credited(st, events[0]) == [p] {
        CountIn(Matches(st', rest), p);
        NoMatchNoWord(st', rest, p);
      }
    }
  }

  /** If each payment is matched by at most one webhook, the balances grow by exactly the amounts
      of the credited top-ups that are completed. */
  lemma OneEventForEachPayment(st: State, events: seq<Event>)
    requires PositiveTopUps(st) && PositiveEvents(events)
    requires forall p :: 0 <= p < |Run(st, events).payments| ==> Count(Matches(st, events), Is(p)) <= 1
    ensures Total(Run(st, events).wallets) - Total(st.wallets)
         == CompletedCredited(Credits(st, events), Run(st, events).payments, |Run(st, events).payments|)
  {
    CompletedTopUps(st, events);
    forall p | 0 <= p < |Run(st, events).payments| ensures Settled(st, events, p) {
      OneMatchIsSettled(st, events, p);
    }
  }

  // ---- interrupted webhooks ---------------------------------------------------------------

  /** The payment that `e` saves as completed although its user has a wallet to credit. */
  function Due(st: State, e: Event): seq<nat> {
    if MatchOf(st, e) != [] && e.kind == PaymentPaidEvent && Creditable(st, MatchOf(st, e)[0]) then MatchOf(st, e) else []
  }

  /** The payments with a wallet to credit that are saved as completed in a run, and those of them
      whose webhook stops there. */
  function Dues(st: State, events: seq<Event>): seq<nat>
    decreases |events|
  {
    if events == [] then [] else Due(st, events[0]) + Dues(Step(st, events[0]), events[1..])
  }

  function Halted(st: State, events: seq<Event>): seq<nat>
    decreases |events|
  {
    if events == [] then []
    else (if Due(st, events[0]) != [] && events[0].saves == 1 then Due(st, events[0]) else [])
         + Halted(Step(st, events[0]), events[1..])
  }

  /** However webhooks are interrupted, a payment with a wallet to credit is saved as completed once
      for each credit and once for each webhook that stopped in between; so credits never run ahead
      of completions. */
  lemma {:induction false} CreditsNeverRunAhead(st: State, events: seq<Event>, p: nat)
    ensures Count(Dues(st, events), Is(p)) == Count(Credits(st, events), Is(p)) + Count(Halted(st, events), Is(p))
    decreases |events|
  {
    if events != [] {
      var (st', rest) := (Step(st, events[0]), events[1..]);
      var due := Due(st, events[0]);
      var halted := if due != [] && events[0].saves == 1 then due else [];
      CreditsNeverRunAhead(st', rest, p);
      CountCredits(st, events, p);
      CountConcat(due, Dues(st', rest), Is(p));
      CountConcat(halted, Halted(st', rest), Is(p));
      CountOne(due, p);
      CountOne(halted, p);
    }
  }

  lemma MulAdds(x: int, y: int, z: int)
    ensures (x + y) * z == x * z + y * z
  {
  }

  lemma {:induction false} WeightedSum(all: seq<nat>, a: seq<nat>, b: seq<nat>, payments: seq<Payment>, n: nat)
    requires n <= |payments|
    requires forall p: nat :: Count(all, Is(p)) == Count(a, Is(p)) + Count(b, Is(p))
    ensures Weighted(all, payments, n) == Weighted(a, payments, n) + Weighted(b, payments, n)
    decreases n
  {
    if n > 0 {
      WeightedSum(all, a, b, payments, n - 1);
      MulAdds(Count(a, Is(n - 1)), Count(b, Is(n - 1)), payments[n - 1].amount);
    }
  }

  /** So the balances fall short of the completed top-ups by exactly the amounts of the webhooks that
      stopped in between. */
  lemma HaltedIsMissing(st: State, events: seq<Event>)
    ensures var payments := Run(st, events).payments;
            Total(Run(st, events).wallets) - Total(st.wallets)
            == AmountsOf(Dues(st, events), payments) - AmountsOf(Halted(st, events), payments)
  {
    var payments := Run(st, events).payments;
    var (dues, credits, halted) := (Dues(st, events), Credits(st, events), Halted(st, events));
    forall p: nat ensures Count(dues, Is(p)) == Count(credits, Is(p)) + Count(halted, Is(p)) {
      CreditsNeverRunAhead(st, events, p);
    }
    WeightedSum(dues, credits, halted, payments, |payments|);
    AmountsAreWeighted(dues, payments);
    AmountsAreWeighted(credits, payments);
    AmountsAreWeighted(halted, payments);
    WalletConservation(st, events);
  }
}
