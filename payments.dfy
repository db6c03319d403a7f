/**
 * Paid boosts through the PayHere gateway: the checkout a seller is sent to,
 * the signed server-to-server notification that settles the payment, and the
 * 24-hour boost a paid notification grants. Money is kept in integer cents;
 * `md5` (lower-case hex) is an uninterpreted function of the desk.
 */
module Payments {
  import opened Wrappers
  import opened Strings

  /** `24 * 60 * 60 * 1000`. */
  const DayMs: int := 86400000
  const Currency: string := "LKR"
  const DefaultCheckoutUrl: string := "https://sandbox.payhere.lk/pay/checkout"

  /** `(Number(amount) || 0).toFixed(2)` for an amount of `cents` hundredths. */
  function FormatAmount(cents: int): string {
    var a := if cents < 0 then -cents else cents;
    (if cents < 0 then "-" else "") + NatToString(a / 100) + "." + [DigitChar(a % 100 / 10), DigitChar(a % 10)]
  }

  predicate AllDigits(s: string) {
    forall i :: 0 <= i < |s| ==> IsDigit(s[i])
  }

  /** The hundredths a fraction of at most two digits stands for. */
  function FractionValue(f: string): nat
    requires AllDigits(f) && |f| <= 2
  {
    if |f| == 0 then 0 else if |f| == 1 then DigitsValue(f) * 10 else DigitsValue(f)
  }

  /** An unsigned decimal with at most two decimals, in hundredths. */
  function ParseUnsigned(body: string): Option<nat> {
    var parts := Split(body, '.');
    if |parts| == 1 then
      if ParseNat(parts[0]).Some? then Some(ParseNat(parts[0]).value * 100) else None
    else if |parts| == 2 && |parts[1]| <= 2 && (parts[0] != "" || parts[1] != "") &&
            AllDigits(parts[0]) && AllDigits(parts[1]) then
      Some(DigitsValue(parts[0]) * 100 + FractionValue(parts[1]))
    else None
  }

  /**
   * `Number(text)` in hundredths, for blank text (0) and for an optional minus
   * sign followed by digits with at most two decimals; `None` is `NaN`.
   */
  function ParseAmount(text: string): Option<int> {
    var t := Trim(text);
    if t == "" then Some(0)
    else
      var neg := t[0] == '-';
      match ParseUnsigned(if neg then t[1..] else t)
      case Some(n) => var x: int := n; if neg then Some(-x) else Some(x)
      case None => None
  }

  /** `Number(text) || 0`, in hundredths. */
  function AmountOf(text: string): int {
    ParseAmount(text).GetOr(0)
  }

  lemma DigitsValueTwo(x: nat, y: nat)
    requires x < 10 && y < 10
    ensures DigitsValue([DigitChar(x), DigitChar(y)]) == 10 * x + y
  {
    var s := [DigitChar(x), DigitChar(y)];
    assert DigitChar(x) as int - '0' as int == x;
    assert DigitChar(y) as int - '0' as int == y;
    assert s[..1] == [DigitChar(x)];
    assert s[..1][..0] == [];
    assert DigitsValue(s[..1]) == x;
  }

  /** Text that splits at its one point into digit runs reads as whole hundreds plus the decimals. */
  lemma ParseUnsignedParts(body: string, whole: string, frac: string)
    requires Split(body, '.') == [whole, frac]
    requires whole != [] && AllDigits(whole) && AllDigits(frac) && |frac| <= 2
    ensures ParseUnsigned(body) == Some(DigitsValue(whole) * 100 + FractionValue(frac))
  {
  }

  /** A run of digits, a point and two more digits reads as whole hundreds plus the two decimals. */
  lemma ParseUnsignedPoint(whole: string, frac: string)
    requires whole != [] && AllDigits(whole) && AllDigits(frac) && |frac| == 2
    ensures ParseUnsigned(whole + "." + frac) == Some(DigitsValue(whole) * 100 + DigitsValue(frac))
  {
    var b := whole + "." + frac;
    assert b == whole + ['.'] + frac;
    SplitPair(whole, frac, '.');
    var w, f := DigitsValue(whole), DigitsValue(frac);
    assert FractionValue(frac) == f;
    ParseUnsignedParts(b, whole, frac);
    assert ParseUnsigned(b) == Some(w * 100 + f);
  }

  /** The two decimals of a number of hundredths. */
  lemma TwoDecimals(a: nat)
    ensures a % 100 / 10 < 10 && a % 10 < 10
    ensures 10 * (a % 100 / 10) + a % 10 == a % 100
    ensures (a / 100) * 100 + a % 100 == a
  {
    var r := a % 100;
    assert a == 100 * (a / 100) + r;
    assert a == 10 * (10 * (a / 100) + r / 10) + r % 10;
    assert a % 10 == r % 10;
  }

  /** Whole units, a point and two decimal digits read back as hundredths. */
  lemma ParseUnsignedDigits(q: nat, d1: nat, d0: nat, n: nat)
    requires d1 < 10 && d0 < 10 && n == q * 100 + (10 * d1 + d0)
    ensures ParseUnsigned(NatToString(q) + "." + [DigitChar(d1), DigitChar(d0)]) == Some(n)
  {
    var whole := NatToString(q);
    var frac := [DigitChar(d1), DigitChar(d0)];
    ParseNatToString(q);
    assert AllDigits(whole) && DigitsValue(whole) == q;
    DigitsValueTwo(d1, d0);
    assert AllDigits(frac);
    ParseUnsignedPoint(whole, frac);
  }

  /** The unsigned part of a formatted amount reads back as its hundredths. */
  lemma ParseUnsignedFormat(a: nat)
    ensures ParseUnsigned(NatToString(a / 100) + "." + [DigitChar(a % 100 / 10), DigitChar(a % 10)]) == Some(a)
  {
    TwoDecimals(a);
    ParseUnsignedDigits(a / 100, a % 100 / 10, a % 10, a);
  }

  /** Reading a formatted amount back gives the amount. */
  lemma ParseFormatAmount(cents: int)
    ensures ParseAmount(FormatAmount(cents)) == Some(cents)
  {
    var a := if cents < 0 then -cents else cents;
    var body := NatToString(a / 100) + "." + [DigitChar(a % 100 / 10), DigitChar(a % 10)];
    var s := FormatAmount(cents);
    assert s == (if cents < 0 then "-" else "") + body;
    TrimUnpadded(s);
    ParseUnsignedFormat(a);
    if cents < 0 {
      assert s[1..] == body;
    } else {
      assert s == body;
      assert s[0] != '-';
    }
  }

  /** Two amounts format alike exactly when they are equal, so `toFixed(2)` comparisons compare cents. */
  lemma FormatAmountInjective(a: int, b: int)
    ensures FormatAmount(a) == FormatAmount(b) <==> a == b
  {
    ParseFormatAmount(a);
    ParseFormatAmount(b);
  }

  /** A run of digits with no point reads as whole hundreds. */
  lemma ParseUnsignedWhole(whole: string)
    requires whole != [] && AllDigits(whole)
    ensures ParseUnsigned(whole) == Some(DigitsValue(whole) * 100)
  {
    SplitNoSeparator(whole, '.');
  }

  lemma DigitsValueEightHundred()
    ensures DigitsValue("800") == 800
  {
    assert "800"[..2] == "80" && "80"[..1] == "8" && "8"[..0] == "";
  }

  /** Blank text is 0, and "800" (the default price) is 80000 hundredths. */
  lemma ParseAmountDefaults()
    ensures ParseAmount("") == Some(0) && ParseAmount("800") == Some(80000)
  {
    assert ParseAmount("") == Some(0) by {
      assert Trim("") == "";
    }
    assert Trim("800") == "800" by {
      TrimUnpadded("800");
    }
    assert ParseUnsigned("800") == Some(80000) by {
      ParseUnsignedWhole("800");
      DigitsValueEightHundred();
    }
  }

  /** `hashSecret`: the upper-case md5 of the merchant secret. */
  function HashSecret(md5: string -> string, secret: string): string {
    ToUpper(md5(secret))
  }

  /** `buildCheckoutHash`, which is always in upper case. */
  function CheckoutHash(md5: string -> string, merchantId: string, orderId: string, amount: string,
                        currency: string, secret: string): (h: string)
    ensures ToUpper(h) == h
  {
    ToUpperIdempotent(md5(merchantId + orderId + amount + currency + HashSecret(md5, secret)));
    ToUpper(md5(merchantId + orderId + amount + currency + HashSecret(md5, secret)))
  }

  /** `buildNotifyHash`: the status code goes between the currency and the hashed secret. */
  function NotifyHash(md5: string -> string, merchantId: string, orderId: string, amount: string,
                      currency: string, statusCode: string, secret: string): (h: string)
    ensures ToUpper(h) == h
  {
    ToUpperIdempotent(md5(merchantId + orderId + amount + currency + statusCode + HashSecret(md5, secret)));
    ToUpper(md5(merchantId + orderId + amount + currency + statusCode + HashSecret(md5, secret)))
  }

  /** The two signatures differ only by the status code: with an empty code they coincide. */
  lemma NotifyHashExtendsCheckout(md5: string -> string, merchantId: string, orderId: string, amount: string,
                                  currency: string, secret: string)
    ensures NotifyHash(md5, merchantId, orderId, amount, currency, "", secret) ==
            CheckoutHash(md5, merchantId, orderId, amount, currency, secret)
  {
    assert merchantId + orderId + amount + currency + "" == merchantId + orderId + amount + currency;
  }

  /** The gateway settings, read from the environment. */
  datatype PayConfig = PayConfig(
    merchantId: string,
    merchantSecret: string,
    checkoutUrl: string,
    boostPriceCents: int,
    appUrl: string,
    apiUrl: string)

  /** `process.env[key] || fallback`. */
  function EnvOr(env: map<string, string>, key: string, fallback: string): string {
    if key in env && env[key] != "" then env[key] else fallback
  }

  /** `getPayHereConfig` with the module's constants: trimmed ids, the `BOOST_PRICE_LKR` price (800 by default). */
  function LoadConfig(env: map<string, string>): (cfg: PayConfig)
    ensures "BOOST_PRICE_LKR" !in env ==> cfg.boostPriceCents == 80000
    ensures "PAYHERE_MERCHANT_ID" !in env ==> cfg.merchantId == ""
  {
    ParseAmountDefaults();
    assert Trim("") == "";
    PayConfig(Trim(EnvOr(env, "PAYHERE_MERCHANT_ID", "")),
              Trim(EnvOr(env, "PAYHERE_MERCHANT_SECRET", "")),
              Trim(EnvOr(env, "PAYHERE_CHECKOUT_URL", DefaultCheckoutUrl)),
              AmountOf(EnvOr(env, "BOOST_PRICE_LKR", "800")),
              EnvOr(env, "APP_URL", "http://localhost:5173"),
              EnvOr(env, "API_URL", "http://localhost:5000"))
  }

  predicate Configured(cfg: PayConfig) {
    cfg.merchantId != "" && cfg.merchantSecret != ""
  }

  datatype Status = Pending | Paid | Failed | Cancelled

  /** The signed-in seller, as the auth layer supplies it ("" for an absent field). */
  datatype Customer = Customer(id: string, name: string, email: string, mobile: string, address: string, city: string)

  /** What the checkout reads of an item. */
  datatype ItemInfo = ItemInfo(owner: string, title: string, slug: string, city: string)

  /** The PayHere form fields (`payload`), the hash included. */
  datatype Checkout = Checkout(
    merchantId: string, returnUrl: string, cancelUrl: string, notifyUrl: string, orderId: string,
    items: string, amount: string, currency: string, firstName: string, lastName: string,
    email: string, phone: string, address: string, city: string, country: string,
    custom1: string, custom2: string, hash: string)

  /** The fields of a gateway notification, as posted. */
  datatype Notification = Notification(
    merchantId: string, orderId: string, amount: string, currency: string,
    statusCode: string, md5sig: string, paymentId: string)

  /** A `Payment` document; `payhereStatusCode` is `Number(status_code)` in hundredths, `None` for `NaN`. */
  datatype Payment = Payment(
    orderId: string, gateway: string, item: string, user: string, amountCents: int, currency: string,
    status: Status, customerName: string, customerEmail: string, customerPhone: string,
    payherePaymentId: string, payhereStatusCode: Option<int>, rawNotification: Option<Notification>,
    paidAt: Option<int>)

  /** `boost-<item id>-<Date.now()>`. */
  function OrderId(itemId: string, now: nat): string {
    "boost-" + itemId + "-" + IntToString(now)
  }

  /** Orders for one item at two different instants get different ids. */
  lemma OrderIdsDiffer(itemId: string, t1: nat, t2: nat)
    ensures OrderId(itemId, t1) == OrderId(itemId, t2) <==> t1 == t2
  {
    var p := "boost-" + itemId + "-";
    if OrderId(itemId, t1) == OrderId(itemId, t2) {
      assert OrderId(itemId, t1)[|p|..] == NatToString(t1);
      assert OrderId(itemId, t2)[|p|..] == NatToString(t2);
      NatToStringInjective(t1, t2);
    }
  }

  function Or(s: string, fallback: string): string {
    if s != "" then s else fallback
  }

  /** The checkout `/boost/create` answers with. */
  function CheckoutFor(cfg: PayConfig, md5: string -> string, user: Customer, itemId: string, item: ItemInfo,
                       now: nat): (c: Checkout)
    ensures c.orderId == OrderId(itemId, now) && c.currency == Currency
    ensures c.amount == FormatAmount(cfg.boostPriceCents)
    ensures c.hash == CheckoutHash(md5, cfg.merchantId, c.orderId, c.amount, Currency, cfg.merchantSecret)
    ensures c.custom1 == itemId && c.custom2 == user.id && c.merchantId == cfg.merchantId
  {
    var orderId := OrderId(itemId, now);
    var amount := FormatAmount(cfg.boostPriceCents);
    var page := cfg.appUrl + "/items/" + Or(item.slug, itemId);
    Checkout(cfg.merchantId,
             page + "?boostReturn=1&orderId=" + orderId,
             page + "?boostCancelled=1",
             cfg.apiUrl + "/api/payments/boost/notify",
             orderId,
             "24h Boost for " + item.title,
             amount,
             Currency,
             Or(user.name, "User"),
             "",
             Or(user.email, "no-email@godakpin.lk"),
             user.mobile,
             Or(user.address, "Address"),
             Or(user.city, Or(item.city, "Colombo")),
             "Sri Lanka",
             itemId,
             user.id,
             CheckoutHash(md5, cfg.merchantId, orderId, amount, Currency, cfg.merchantSecret))
  }

  /** The pending payment `/boost/create` records; its amount is `Number(amount)` of the formatted price. */
  function NewPayment(cfg: PayConfig, user: Customer, itemId: string, now: nat): (p: Payment)
    ensures p.status == Pending && p.currency == Currency && p.orderId == OrderId(itemId, now)
    ensures p.amountCents == cfg.boostPriceCents
  {
    ParseFormatAmount(cfg.boostPriceCents);
    Payment(OrderId(itemId, now), "payhere", itemId, user.id, AmountOf(FormatAmount(cfg.boostPriceCents)),
            Currency, Pending, user.name, user.email, user.mobile, "", None, None, None)
  }

  /** The first check a notification fails, as a status and message; `None` when it passes them all. */
  function NotifyVerdict(cfg: PayConfig, md5: string -> string, n: Notification,
                         payments: map<string, Payment>): Option<(int, string)> {
    if !Configured(cfg) then Some((500, "Payment not configured"))
    else if NotifyHash(md5, n.merchantId, n.orderId, n.amount, n.currency, n.statusCode, cfg.merchantSecret) != n.md5sig
    then Some((400, "Invalid signature"))
    else if n.merchantId != cfg.merchantId then Some((400, "Invalid merchant"))
    else if n.orderId !in payments then Some((404, "Payment not found"))
    else if FormatAmount(AmountOf(n.amount)) != FormatAmount(payments[n.orderId].amountCents) ||
            ToUpper(n.currency) != ToUpper(payments[n.orderId].currency)
    then Some((400, "Amount or currency mismatch"))
    else None
  }

  /** A notification is accepted exactly when it is signed, from our merchant, for a known order, and for its amount and currency. */
  lemma NotifyAccepted(cfg: PayConfig, md5: string -> string, n: Notification, payments: map<string, Payment>)
    ensures NotifyVerdict(cfg, md5, n, payments).None? <==>
      Configured(cfg) &&
      n.md5sig == NotifyHash(md5, n.merchantId, n.orderId, n.amount, n.currency, n.statusCode, cfg.merchantSecret) &&
      n.merchantId == cfg.merchantId &&
      n.orderId in payments &&
      AmountOf(n.amount) == payments[n.orderId].amountCents &&
      ToUpper(n.currency) == ToUpper(payments[n.orderId].currency)
  {
    if n.orderId in payments {
      FormatAmountInjective(AmountOf(n.amount), payments[n.orderId].amountCents);
    }
  }

  /** A rejection's status follows the order of the checks. */
  lemma NotifyVerdictOrder(cfg: PayConfig, md5: string -> string, n: Notification, payments: map<string, Payment>)
    ensures var v := NotifyVerdict(cfg, md5, n, payments);
      (v.Some? && v.value.0 == 500 <==> !Configured(cfg)) &&
      (v.Some? && v.value.0 == 404 <==>
         Configured(cfg) && n.merchantId == cfg.merchantId && n.orderId !in payments &&
         n.md5sig == NotifyHash(md5, n.merchantId, n.orderId, n.amount, n.currency, n.statusCode, cfg.merchantSecret)) &&
      (v.Some? ==> v.value.0 in {400, 404, 500})
  {
  }

  /** The status a notification's code leads to: 2 is paid, -1 cancelled, anything else failed. */
  function StatusFor(code: Option<int>): Status {
    if code == Some(200) then Paid else if code == Some(-100) then Cancelled else Failed
  }

  /**
   * The payment after an accepted notification with a numeric status code
   * (`Notify` answers 500 for the others before settling).
   */
  function Settle(p: Payment, n: Notification, now: int): (q: Payment)
    ensures q.status != Pending
    ensures q.status == Paid <==> ParseAmount(n.statusCode) == Some(200)
    ensures q.status == Cancelled <==> ParseAmount(n.statusCode) == Some(-100)
  {
    var code := ParseAmount(n.statusCode);
    var status := StatusFor(code);
    p.(rawNotification := Some(n), payherePaymentId := n.paymentId, payhereStatusCode := code,
       status := status, paidAt := if status == Paid then Some(now) else p.paidAt)
  }

  /** Settling touches only the gateway fields; the order, item, buyer and amount stay. */
  lemma SettleKeeps(p: Payment, n: Notification, now: int)
    ensures var q := Settle(p, n, now);
      q.orderId == p.orderId && q.item == p.item && q.user == p.user && q.amountCents == p.amountCents &&
      q.currency == p.currency && q.gateway == p.gateway &&
      (q.status == Paid ==> q.paidAt == Some(now)) && (q.status != Paid ==> q.paidAt == p.paidAt)
  {
  }

  /** A repeated notification settles the payment the same way. */
  lemma SettleIdempotent(p: Payment, n: Notification, now: int)
    ensures Settle(Settle(p, n, now), n, now) == Settle(p, n, now)
  {
  }

  /** `extendBoost`: 24 hours past the later of now and an unexpired boost. */
  function BoostEnd(current: Option<int>, now: int): (t: int) {
    (if current.Some? && current.value > now then current.value else now) + DayMs
  }

  /** A boost lasts at least a day from now and never ends earlier than before plus a day. */
  lemma BoostEndBounds(current: Option<int>, now: int)
    ensures BoostEnd(current, now) >= now + DayMs
    ensures current.Some? ==> BoostEnd(current, now) >= current.value + DayMs
    ensures BoostEnd(current, now) == now + DayMs ||
            (current.Some? && BoostEnd(current, now) == current.value + DayMs)
  {
  }

  /** Two paid notifications at the same instant stack two days. */
  lemma BoostStacks(current: Option<int>, now: int)
    ensures BoostEnd(Some(BoostEnd(current, now)), now) == BoostEnd(current, now) + DayMs
  {
  }

  /**
   * `extendBoost` as written: the item schema has no `boostedUntil` path, so
   * the stored value is never read back (always `undefined`) and the save
   * drops the assignment. The result only depends on `now`.
   */
  function BoostEndAsWritten(stored: Option<int>, now: int): int {
    BoostEnd(None, now)
  }

  /** As written, a second paid notification at the same instant gives the same end, not one day more. */
  lemma BoostDoesNotStackAsWritten(now: int)
    ensures var first := BoostEndAsWritten(None, now);
      BoostEndAsWritten(Some(first), now) == first &&
      BoostEndAsWritten(Some(first), now) != BoostEnd(Some(first), now)
  {
  }

  /** What `/boost/notify` answers. */
  /**
   * The message of the validation error `save` rejects with when `NaN` is cast
   * to the Number path `payhereStatusCode` (its exact wording depends on the
   * mongoose version).
   */
  const CastFailed := "Payment validation failed: payhereStatusCode: Cast to Number failed for value \"NaN\" (type number) at path \"payhereStatusCode\""

  datatype NotifyReply =
    | Rejected(code: int, message: string)
    | PaidReply(boostedUntil: Option<int>, alreadyPaid: bool)
    | Acknowledged

  /** The payments, the items a boost can be bought for, and the boosts bought. */
  class BoostDesk {
    var payments: map<string, Payment>
    var items: map<string, ItemInfo>
    var boosts: map<string, int>
    const cfg: PayConfig
    const md5: string -> string

    constructor (cfg: PayConfig, md5: string -> string, items: map<string, ItemInfo>)
      ensures this.cfg == cfg && this.md5 == md5 && this.items == items
      ensures payments == map[] && boosts == map[]
    {
      this.cfg := cfg;
      this.md5 := md5;
      this.items := items;
      payments := map[];
      boosts := map[];
    }

    /** The boost end stored for an item. */
    function Boost(itemId: string): Option<int>
      reads this
    {
      if itemId in boosts then Some(boosts[itemId]) else None
    }

    /** `extendBoost`: `None` for an unknown item; otherwise the new end, which is stored. */
    method ExtendBoost(itemId: string, now: int) returns (until: Option<int>)
      modifies this
      ensures itemId !in items ==> until.None? && boosts == old(boosts)
      ensures itemId in items ==>
        until == Some(BoostEnd(old(Boost(itemId)), now)) && boosts == old(boosts)[itemId := until.value]
      ensures payments == old(payments) && items == old(items)
    {
      if itemId !in items {
        return None;
      }
      var end := BoostEnd(Boost(itemId), now);
      boosts := boosts[itemId := end];
      until := Some(end);
    }

    /**
     * `/boost/create`: 500 without merchant settings, 404 for an unknown item,
     * 403 for someone else's item, 500 when the order id is taken (the unique
     * index); otherwise a pending payment is recorded and `{ checkoutUrl, payload }`
     * returned: the configured gateway URL and the checkout.
     */
    method CreateBoost(user: Customer, itemId: string, now: nat)
      returns (status: int, checkoutUrl: string, checkout: Option<Checkout>)
      requires user.id != ""
      modifies this
      ensures !Configured(cfg) ==> status == 500
      ensures Configured(cfg) && itemId !in items ==> status == 404
      ensures Configured(cfg) && itemId in items && items[itemId].owner != user.id ==> status == 403
      ensures (Configured(cfg) && itemId in items && items[itemId].owner == user.id &&
               OrderId(itemId, now) in old(payments)) ==> status == 500
      ensures status == 200 <==>
        Configured(cfg) && itemId in items && items[itemId].owner == user.id && OrderId(itemId, now) !in old(payments)
      ensures status != 200 ==> checkout.None? && checkoutUrl == "" && payments == old(payments)
      ensures status == 200 ==>
        checkoutUrl == cfg.checkoutUrl &&
        checkout == Some(CheckoutFor(cfg, md5, user, itemId, items[itemId], now)) &&
        payments == old(payments)[OrderId(itemId, now) := NewPayment(cfg, user, itemId, now)]
      ensures items == old(items) && boosts == old(boosts)
    {
      if !Configured(cfg) {
        return 500, "", None;
      }
      if itemId !in items {
        return 404, "", None;
      }
      var item := items[itemId];
      if item.owner != user.id {
        return 403, "", None;
      }
      var orderId := OrderId(itemId, now);
      if orderId in payments {
        return 500, "", None;
      }
      payments := payments[orderId := NewPayment(cfg, user, itemId, now)];
      status, checkoutUrl, checkout := 200, cfg.checkoutUrl, Some(CheckoutFor(cfg, md5, user, itemId, item, now));
    }

    /**
     * `/boost/notify`: a rejected notification changes nothing; an accepted one
     * settles the payment, and a paid one extends the item's boost and says
     * whether the payment was already paid. A status code that `Number` reads
     * as `NaN` cannot be cast to the schema's Number path, so the save fails
     * and the error handler answers 500 with nothing stored.
     */
    method Notify(n: Notification, now: int) returns (reply: NotifyReply)
      modifies this
      ensures var v := NotifyVerdict(cfg, md5, n, old(payments));
        v.Some? ==> reply == Rejected(v.value.0, v.value.1) && payments == old(payments) && boosts == old(boosts)
      ensures NotifyVerdict(cfg, md5, n, old(payments)).None? && ParseAmount(n.statusCode).None? ==>
        reply == Rejected(500, CastFailed) && payments == old(payments) && boosts == old(boosts)
      ensures NotifyVerdict(cfg, md5, n, old(payments)).None? && ParseAmount(n.statusCode).Some? ==>
        var p := old(payments)[n.orderId];
        var q := Settle(p, n, now);
        payments == old(payments)[n.orderId := q] &&
        (q.status == Paid ==>
           reply == PaidReply(if p.item in items then Some(BoostEnd(old(Boost(p.item)), now)) else None,
                              p.status == Paid) &&
           boosts == (if p.item in items then old(boosts)[p.item := BoostEnd(old(Boost(p.item)), now)] else old(boosts))) &&
        (q.status != Paid ==> reply == Acknowledged && boosts == old(boosts))
      ensures items == old(items)
    {
      var v := NotifyVerdict(cfg, md5, n, payments);
      if v.Some? {
        return Rejected(v.value.0, v.value.1);
      }
      if ParseAmount(n.statusCode).None? {
        return Rejected(500, CastFailed);
      }
      var p := payments[n.orderId];
      var alreadyPaid := p.status == Paid;
      var q := Settle(p, n, now);
      payments := payments[n.orderId := q];
      if q.status == Paid {
        var until := ExtendBoost(p.item, now);
        reply := PaidReply(until, alreadyPaid);
      } else {
        reply := Acknowledged;
      }
    }
  }
}
