/** The payment handlers, updating payments and wallet balances in place. */
module PaymentsService {
  import opened Basics
  import opened Options
  import opened Wallets

  class PaymentsService {
    const bookings: map<Id, Booking>
    var payments: seq<Payment>
    var byGateway: map<Id, nat>
    var wallets: seq<Wallet>

    ghost function View(): State
      reads this
    {
      State(bookings, payments, byGateway, wallets)
    }

    /** Every gateway id names a payment. */
    ghost predicate Valid()
      reads this
    {
      forall g :: g in byGateway ==> byGateway[g] < |payments|
    }

    constructor (bookings: map<Id, Booking>)
      ensures Valid() && View() == State(bookings, [], map[], [])
    {
      this.bookings, payments, byGateway, wallets := bookings, [], map[], [];
    }

    /** Returns the new payment, or nothing where the booking is not the user's. */
    method CreatePayment(userId: Id, bookingId: Id, gateway: Gateway, amount: Option<int>) returns (r: Option<nat>)
      requires Valid()
      modifies this
      ensures Valid() && View() == Step(old(View()), Create(userId, bookingId, gateway, amount))
      ensures r == if bookingId in bookings && bookings[bookingId].customerId == userId then Some(|old(payments)|) else None
    {
      if bookingId !in bookings || bookings[bookingId].customerId != userId { return None; }
      var booking := bookings[bookingId];
      var due := if amount.Some? && amount.value != 0 then amount.value else booking.totalAmount;
      var payment := Payment(userId, BookingPayment, gateway, due, PaymentPending, None, None);
      payments := payments + [payment];
      return Some(|payments| - 1);
    }

    method TopUpWallet(userId: Id, amount: int, gateway: Gateway) returns (id: nat)
      requires Valid()
      modifies this
      ensures Valid() && View() == Step(old(View()), TopUp(userId, amount, gateway))
      ensures id == |old(payments)|
    {
      var payment := Payment(userId, WalletTopUp, gateway, amount, PaymentPending, None, None);
      payments := payments + [payment];
      return |payments| - 1;
    }

    method GetUserWallet(userId: Id) returns (wallet: Wallet)
      requires Valid()
      modifies this
      ensures Valid() && View() == Step(old(View()), GetWallet(userId))
      ensures wallet.userId == userId && wallet in wallets
    {
      var found := Find(wallets, userId);
      if found.Some? { return wallets[found.value]; }
      wallet := Wallet(userId, 0);
      wallets := wallets + [wallet];
    }

    method HandleMoyasarWebhook(kind: WebhookType, gatewayId: Id, now: Instant, saves: nat)
      requires Valid()
      modifies this
      ensures Valid() && View() == Step(old(View()), Webhook(kind, gatewayId, now, saves))
    {
      if kind == PaymentPaidEvent {
        MarkPaymentCompleted(gatewayId, now, saves);
      } else if kind == PaymentFailedEvent {
        MarkPaymentFailed(gatewayId, now, saves);
      }
    }

    method MarkPaymentCompleted(gatewayId: Id, now: Instant, saves: nat)
      requires Valid()
      modifies this
      ensures Valid() && View() == Step(old(View()), Webhook(PaymentPaidEvent, gatewayId, now, saves))
    {
      if gatewayId !in byGateway { return; }
      var id := byGateway[gatewayId];
      var payment := payments[id];
      payment := payment.(status := PaymentCompleted);
      payment := payment.(paidAt := Some(now));
      if saves < 1 { return; }
      payments := payments[id := payment];
      if payment.kind == WalletTopUp {
        var found := Find(wallets, payment.userId);
        if found.Some? {
          var wallet := wallets[found.value];
          wallet := wallet.(balance := wallet.balance + payment.amount);
          if saves < 2 { return; }
          wallets := wallets[found.value := wallet];
        }
      }
    }

    method MarkPaymentFailed(gatewayId: Id, now: Instant, saves: nat)
      requires Valid()
      modifies this
      ensures Valid() && View() == Step(old(View()), Webhook(PaymentFailedEvent, gatewayId, now, saves))
    {
      if gatewayId !in byGateway { return; }
      var id := byGateway[gatewayId];
      var payment := payments[id];
      payment := payment.(status := PaymentFailed);
      payment := payment.(failedAt := Some(now));
      if saves < 1 { return; }
      payments := payments[id := payment];
    }
  }
}
