/**
 * Payments through the Flow gateway: the order identifier that carries the
 * appointment id to the gateway and back, the parameter string the request
 * signature is computed over, the payment-link handler, and the
 * confirmation callback that settles the appointment and its payments.
 */
module Payments {
  import opened Records
  import opened Ordering
  import opened Text
  import opened Store

  // ---------------------------------------------------------------------
  // The order identifier

  /** `ORD-<appointment id>-<milliseconds>`. */
  function CommerceOrder(appointmentId: nat, now: nat): (r: string)
    ensures StartsWith(r, "ORD-")
  {
    "ORD-" + Decimal(appointmentId) + "-" + Decimal(now)
  }

  /** `order.split("-")[1]`; None where that field is undefined. */
  function OrderKeyField(order: string): Option<string> {
    var fields := Split(order, '-');
    if |fields| >= 2 then Some(fields[1]) else None
  }

  /** The appointment id comes back out of the order identifier unchanged. */
  lemma CommerceOrderRoundTrip(appointmentId: nat, now: nat)
    ensures OrderKeyField(CommerceOrder(appointmentId, now)) == Some(Decimal(appointmentId))
    ensures ParseDecimal(OrderKeyField(CommerceOrder(appointmentId, now)).value) == Some(appointmentId)
  {
    var parts := ["ORD", Decimal(appointmentId), Decimal(now)];
    assert forall k :: 0 <= k < |parts[1]| ==> IsDigit(parts[1][k]);
    assert forall k :: 0 <= k < |parts[2]| ==> IsDigit(parts[2][k]);
    assert '-' !in parts[0] && '-' !in parts[1] && '-' !in parts[2];
    assert parts[1..] == [Decimal(appointmentId), Decimal(now)] && parts[1..][1..] == [Decimal(now)];
    assert Join(parts[1..][1..], '-') == Decimal(now);
    assert Join(parts[1..], '-') == Decimal(appointmentId) + "-" + Decimal(now);
    assert Join(parts, '-') == CommerceOrder(appointmentId, now);
    SplitJoin(parts, '-');
    ParseDecimalOfDecimal(appointmentId);
  }

  // ---------------------------------------------------------------------
  // The signed parameter string

  datatype Param = Param(key: string, value: string)

  /** `${key}=${value}`. */
  function Field(p: Param): string {
    p.key + "=" + p.value
  }

  function Fields(ps: seq<Param>): (r: seq<string>)
    ensures |r| == |ps|
    ensures forall i :: 0 <= i < |ps| ==> r[i] == Field(ps[i])
  {
    if ps == [] then [] else [Field(ps[0])] + Fields(ps[1..])
  }

  /** The comparison Array.prototype.sort applies to the keys. */
  function ByParamKey(): (Param, Param) -> bool {
    (a: Param, b: Param) => LexLe(a.key, b.key)
  }

  lemma ByParamKeyIsTotalPreorder()
    ensures TotalPreorder(ByParamKey())
  {
    forall x: Param, y: Param ensures LexLe(x.key, y.key) || LexLe(y.key, x.key) {
      LexLeTotal(x.key, y.key);
    }
    forall x: Param, y: Param, z: Param | LexLe(x.key, y.key) && LexLe(y.key, z.key)
      ensures LexLe(x.key, z.key)
    {
      LexLeTransitive(x.key, y.key, z.key);
    }
  }

  /** The parameters in ascending key order. */
  function OrderedParams(ps: seq<Param>): (r: seq<Param>)
    ensures multiset(r) == multiset(ps)
    ensures forall i, j :: 0 <= i < j < |r| ==> LexLe(r[i].key, r[j].key)
  {
    ByParamKeyIsTotalPreorder();
    var r := SortWith(ps, ByParamKey());
    assert forall i, j :: 0 <= i < j < |r| ==> ByParamKey()(r[i], r[j]);
    r
  }

  /** The string the signature is computed over: `key=value` pairs by ascending key, joined by `&`. */
  function SigningBase(ps: seq<Param>): string {
    Join(Fields(OrderedParams(ps)), '&')
  }

  predicate DistinctKeys(ps: seq<Param>) {
    forall i, j :: 0 <= i < j < |ps| ==> ps[i].key != ps[j].key
  }

  lemma {:induction false} DistinctKeysOccurOnce(ps: seq<Param>, p: Param)
    requires DistinctKeys(ps) && p in ps
    ensures multiset(ps)[p] == 1
  {
    assert ps == [ps[0]] + ps[1..];
    if p == ps[0] {
      forall j | 0 <= j < |ps[1..]| ensures ps[1..][j] != p {
        assert ps[j + 1].key != ps[0].key;
      }
    } else {
      assert DistinctKeys(ps[1..]) by {
        forall i, j | 0 <= i < j < |ps[1..]| ensures ps[1..][i].key != ps[1..][j].key {
          assert ps[1..][i] == ps[i + 1] && ps[1..][j] == ps[j + 1];
        }
      }
      DistinctKeysOccurOnce(ps[1..], p);
    }
  }

  lemma RepeatedElementCountsTwice<T>(s: seq<T>, i: nat, j: nat)
    requires i < j < |s| && s[i] == s[j]
    ensures multiset(s)[s[i]] >= 2
  {
    assert s == s[..j] + s[j..];
    assert s[i] in s[..j] && s[j] in s[j..];
  }

  /** With distinct keys the ordered parameters have strictly ascending keys, each parameter once. */
  lemma OrderedKeysStrictlyAscend(ps: seq<Param>)
    requires DistinctKeys(ps)
    ensures forall i, j :: 0 <= i < j < |OrderedParams(ps)| ==> OrderedParams(ps)[i].key != OrderedParams(ps)[j].key
    ensures forall p :: p in ps ==> multiset(OrderedParams(ps))[p] == 1
  {
    var r := OrderedParams(ps);
    forall p | p in ps ensures multiset(r)[p] == 1 {
      DistinctKeysOccurOnce(ps, p);
    }
    forall i, j | 0 <= i < j < |r| ensures r[i].key != r[j].key {
      assert r[i] in multiset(ps) && r[j] in multiset(ps);
      var x :| 0 <= x < |ps| && ps[x] == r[i];
      var y :| 0 <= y < |ps| && ps[y] == r[j];
      if r[i] == r[j] {
        RepeatedElementCountsTwice(r, i, j);
      } else if x < y {
        assert ps[x].key != ps[y].key;
      } else if y < x {
        assert ps[y].key != ps[x].key;
      }
    }
  }

  lemma FieldKeepsOut(p: Param, c: char)
    requires c != '=' && c !in p.key && c !in p.value
    ensures c !in Field(p)
  {
    var f := Field(p);
    forall i | 0 <= i < |f| ensures f[i] != c {
      if i < |p.key| {
        assert f[i] == p.key[i];
      } else if i > |p.key| {
        assert f[i] == p.value[i - |p.key| - 1];
      }
    }
  }

  /**
   * When no key or value contains `&`, splitting the signing string on `&`
   * gives back the `key=value` pairs in key order.
   */
  lemma SigningBaseSplitsIntoFields(ps: seq<Param>)
    requires |ps| >= 1
    requires forall p :: p in ps ==> '&' !in p.key && '&' !in p.value
    ensures Split(SigningBase(ps), '&') == Fields(OrderedParams(ps))
  {
    var r := OrderedParams(ps);
    var fs := Fields(r);
    forall k | 0 <= k < |fs| ensures '&' !in fs[k] {
      assert r[k] in multiset(r);
      FieldKeepsOut(r[k], '&');
    }
    SplitJoin(fs, '&');
  }

  // ---------------------------------------------------------------------
  // Creating a payment link

  /** The deployment settings the handler reads from its environment. */
  datatype PaymentConfig = PaymentConfig(apiKey: string, backendUrl: string, frontendUrl: string)

  function ConfirmationUrl(cfg: PaymentConfig): string {
    cfg.backendUrl + "/api/payments/confirm-payment"
  }

  function ReturnUrl(cfg: PaymentConfig): string {
    cfg.frontendUrl + "/payment-success"
  }

  lemma SecureBaseGivesSecureUrls(cfg: PaymentConfig)
    ensures StartsWith(cfg.backendUrl, "https://") ==> StartsWith(ConfirmationUrl(cfg), "https://")
    ensures StartsWith(cfg.frontendUrl, "https://") ==> StartsWith(ReturnUrl(cfg), "https://")
  {
    var https := "https://";
    if StartsWith(cfg.backendUrl, https) {
      assert ConfirmationUrl(cfg)[..|https|] == cfg.backendUrl[..|https|];
    }
    if StartsWith(cfg.frontendUrl, https) {
      assert ReturnUrl(cfg)[..|https|] == cfg.frontendUrl[..|https|];
    }
  }

  /** A non-negative amount of cents with two decimals. */
  function UnsignedAmount(cents: nat): string {
    Decimal(cents / 100) + "." + [DigitChar(cents % 100 / 10), DigitChar(cents % 10)]
  }

  /**
   * An amount of cents with two decimals, as `toFixed(2)` writes it: a
   * minus sign in front of a negative amount.  Nothing in the core keeps a
   * price from being negative.
   */
  function Amount(cents: int): string {
    if cents < 0 then "-" + UnsignedAmount(-cents) else UnsignedAmount(cents)
  }

  /** Reading a non-negative amount back: whole units, a point, and the cents. */
  function ParseUnsignedAmount(s: string): Option<nat> {
    var parts := Split(s, '.');
    if |parts| == 2 && |parts[1]| == 2 && ParseDecimal(parts[0]).Some? && ParseDecimal(parts[1]).Some? then
      Some(ParseDecimal(parts[0]).value * 100 + ParseDecimal(parts[1]).value)
    else None
  }

  /** Reading an amount back, with an optional minus sign. */
  function ParseAmount(s: string): Option<int> {
    if s != [] && s[0] == '-' then
      match ParseUnsignedAmount(s[1..])
      case Some(n) => Some(-(n as int))
      case None => None
    else
      match ParseUnsignedAmount(s)
      case Some(n) => Some(n)
      case None => None
  }

  lemma UnsignedAmountRoundTrip(cents: nat)
    ensures ParseUnsignedAmount(UnsignedAmount(cents)) == Some(cents)
    ensures UnsignedAmount(cents) != [] && IsDigit(UnsignedAmount(cents)[0])
  {
    var whole, frac := Decimal(cents / 100), [DigitChar(cents % 100 / 10), DigitChar(cents % 10)];
    assert forall k :: 0 <= k < |whole| ==> IsDigit(whole[k]);
    assert '.' !in whole;
    assert '.' !in frac;
    assert Join([whole, frac], '.') == UnsignedAmount(cents);
    SplitJoin([whole, frac], '.');
    ParseDecimalOfDecimal(cents / 100);
    TwoDigitsValue(cents % 100 / 10, cents % 10);
    assert (cents / 100) * 100 + (cents % 100 / 10) * 10 + cents % 10 == cents;
    assert UnsignedAmount(cents)[0] == whole[0];
  }

  /** The amount sent to the gateway and stored is the appointment's price, to the cent, sign included. */
  lemma AmountRoundTrip(cents: int)
    ensures ParseAmount(Amount(cents)) == Some(cents)
  {
    if cents < 0 {
      UnsignedAmountRoundTrip(-cents);
      assert ("-" + UnsignedAmount(-cents))[1..] == UnsignedAmount(-cents);
    } else {
      UnsignedAmountRoundTrip(cents);
    }
  }

  /** A negative price of five units goes to the gateway as "-5.00". */
  lemma NegativeAmountIsSigned()
    ensures Amount(-500) == "-5.00"
  {
    assert Decimal(5) == "5";
    assert UnsignedAmount(500) == "5.00";
  }

  lemma TwoDigitsValue(tens: nat, units: nat)
    requires tens < 10 && units < 10
    ensures ParseDecimal([DigitChar(tens), DigitChar(units)]) == Some(tens * 10 + units)
  {
    var s := [DigitChar(tens), DigitChar(units)];
    assert s[..1] == [DigitChar(tens)] && s[..1][..0] == [];
    assert DigitsValue(s[..1]) == tens;
    assert DigitsValue(s) == tens * 10 + units;
  }

  /** The parameters sent to the gateway, in the order the handler lists them. */
  function FlowParams(cfg: PaymentConfig, appointmentId: nat, totalPrice: int, email: string, now: nat): (r: seq<Param>)
    ensures |r| == 7
  {
    [ Param("apiKey", cfg.apiKey),
      Param("commerceOrder", CommerceOrder(appointmentId, now)),
      Param("subject", "Pago por cita médica - ID " + Decimal(appointmentId)),
      Param("amount", Amount(totalPrice)),
      Param("email", email),
      Param("urlConfirmation", ConfirmationUrl(cfg)),
      Param("urlReturn", ReturnUrl(cfg)) ]
  }

  /** The seven keys differ, so the signing string holds each parameter exactly once. */
  lemma FlowParamsHaveDistinctKeys(cfg: PaymentConfig, appointmentId: nat, totalPrice: int, email: string, now: nat)
    ensures DistinctKeys(FlowParams(cfg, appointmentId, totalPrice, email, now))
  {
    var ps := FlowParams(cfg, appointmentId, totalPrice, email, now);
    forall i, j | 0 <= i < j < |ps| ensures ps[i].key != ps[j].key {
      if |ps[i].key| == |ps[j].key| {
        assert ps[i].key[1] != ps[j].key[1];
      }
    }
  }

  /** What the gateway call gives back: it throws, or it replies with a link or without one. */
  datatype GatewayReply = Threw | Replied(url: Option<string>)

  datatype LinkError =
    | NoAppointmentId
    | LinkAppointmentNotFound
    | InsecureConfirmationUrl
    | InsecureReturnUrl
    | GatewayFailed
    | NoPaymentUrl
  {
    function Code(): int {
      match this
      case NoAppointmentId => 400
      case LinkAppointmentNotFound => 404
      case InsecureConfirmationUrl => 400
      case InsecureReturnUrl => 400
      case GatewayFailed => 500
      case NoPaymentUrl => 500
    }
  }

  /** createPaymentLink's checks before the gateway call, in order; Ok gives the appointment's position. */
  function CheckPaymentLink(apps: seq<Appointment>, appointmentId: Option<int>, cfg: PaymentConfig)
    : (r: Result<nat, LinkError>)
    ensures r == Err(NoAppointmentId) <==> !Truthy(appointmentId)
    ensures r == Err(LinkAppointmentNotFound) <==> Truthy(appointmentId) && AppointmentIndex(apps, appointmentId.value).None?
    ensures r == Err(InsecureConfirmationUrl) <==>
      && Truthy(appointmentId) && AppointmentIndex(apps, appointmentId.value).Some?
      && !StartsWith(ConfirmationUrl(cfg), "https://")
    ensures r == Err(InsecureReturnUrl) <==>
      && Truthy(appointmentId) && AppointmentIndex(apps, appointmentId.value).Some?
      && StartsWith(ConfirmationUrl(cfg), "https://") && !StartsWith(ReturnUrl(cfg), "https://")
    ensures r.Ok? ==>
      && Truthy(appointmentId) && r.value < |apps| && apps[r.value].id == appointmentId.value
      && StartsWith(ConfirmationUrl(cfg), "https://") && StartsWith(ReturnUrl(cfg), "https://")
    ensures r != Err(GatewayFailed) && r != Err(NoPaymentUrl)
  {
    if !Truthy(appointmentId) then Err(NoAppointmentId)
    else match AppointmentIndex(apps, appointmentId.value)
      case None => Err(LinkAppointmentNotFound)
      case Some(k) =>
        if !StartsWith(ConfirmationUrl(cfg), "https://") then Err(InsecureConfirmationUrl)
        else if !StartsWith(ReturnUrl(cfg), "https://") then Err(InsecureReturnUrl)
        else Ok(k)
  }

  /** The gateway's answer to the request the handler sends for appointment a. */
  function GatewayAnswer(gateway: (seq<Param>, string) -> GatewayReply, cfg: PaymentConfig, a: Appointment,
                         email: string, now: nat): GatewayReply
    requires a.id >= 0
  {
    var ps := FlowParams(cfg, a.id, a.totalPrice, email, now);
    gateway(ps, SigningBase(ps))
  }

  /**
   * createPaymentLink.  The gateway is a parameter: it receives the
   * parameters and the string the signature is computed over.  A pending
   * Flow payment for the price is recorded only once the gateway has replied.
   */
  method CreatePaymentLink(db: Database, appointmentId: Option<int>, email: string, cfg: PaymentConfig,
                           now: nat, gateway: (seq<Param>, string) -> GatewayReply)
    returns (r: Result<string, LinkError>)
    requires db.Valid()
    modifies db`payments, db`nextPaymentId
    ensures db.Valid()
    ensures var c := CheckPaymentLink(old(db.appointments), appointmentId, cfg);
      c.Err? ==> r == Err(c.error) && db.payments == old(db.payments) && db.nextPaymentId == old(db.nextPaymentId)
    ensures var c := CheckPaymentLink(old(db.appointments), appointmentId, cfg);
      c.Ok? ==> old(db.appointments)[c.value].id > 0
    ensures var c := CheckPaymentLink(old(db.appointments), appointmentId, cfg);
      c.Ok? && old(db.appointments)[c.value].id > 0 ==>
        var a := old(db.appointments)[c.value];
        var reply := GatewayAnswer(gateway, cfg, a, email, now);
        && (reply.Threw? ==>
              r == Err(GatewayFailed) && db.payments == old(db.payments) && db.nextPaymentId == old(db.nextPaymentId))
        && (reply.Replied? ==>
              && db.payments == old(db.payments) + [Payment(old(db.nextPaymentId), a.id, "Flow", PaymentPending, now, a.totalPrice)]
              && db.nextPaymentId == old(db.nextPaymentId) + 1
              && r == (if TruthyText(reply.url) then Ok(reply.url.value) else Err(NoPaymentUrl)))
  {
    var c := CheckPaymentLink(db.appointments, appointmentId, cfg);
    if c.Err? {
      return Err(c.error);
    }
    var a := db.appointments[c.value];
    assert a.id > 0;
    var reply := GatewayAnswer(gateway, cfg, a, email, now);
    if reply.Threw? {
      return Err(GatewayFailed);
    }
    var row := db.InsertPayment(a.id, "Flow", PaymentPending, now, a.totalPrice);
    if TruthyText(reply.url) {
      r := Ok(reply.url.value);
    } else {
      r := Err(NoPaymentUrl);
    }
  }

  // ---------------------------------------------------------------------
  // The confirmation callback

  /** The `status` field of the callback, as a JSON value. */
  datatype StatusField = NumberField(n: int) | StringField(s: string) | NoField

  /** Only the number 1 means paid. */
  predicate Paid(status: StatusField) {
    status == NumberField(1)
  }

  datatype ConfirmError =
    | NoOrder           // commerceOrder absent or empty
    | OrderNotFound     // no such appointment, or the order has no second field
    | StoreRejectedKey  // the second field is not an integer
  {
    function Code(): int {
      match this
      case NoOrder => 400
      case OrderNotFound => 404
      case StoreRejectedKey => 500
    }
  }

  /** confirmPayment's lookup of the appointment named by the order; Ok gives its position. */
  function CheckConfirmation(apps: seq<Appointment>, order: Option<string>): (r: Result<nat, ConfirmError>)
    ensures r == Err(NoOrder) <==> !TruthyText(order)
    ensures r == Err(OrderNotFound) <==>
      && TruthyText(order)
      && (|| OrderKeyField(order.value).None?
          || (&& ParseDecimal(OrderKeyField(order.value).value).Some?
              && AppointmentIndex(apps, ParseDecimal(OrderKeyField(order.value).value).value).None?))
    ensures r == Err(StoreRejectedKey) <==>
      TruthyText(order) && OrderKeyField(order.value).Some? && ParseDecimal(OrderKeyField(order.value).value).None?
    ensures r.Ok? ==>
      && TruthyText(order) && OrderKeyField(order.value).Some?
      && ParseDecimal(OrderKeyField(order.value).value).Some?
      && r.value < |apps| && apps[r.value].id == ParseDecimal(OrderKeyField(order.value).value).value
  {
    if !TruthyText(order) then Err(NoOrder)
    else match OrderKeyField(order.value)
      case None => Err(OrderNotFound)
      case Some(key) =>
        match ParseDecimal(key)
        case None => Err(StoreRejectedKey)
        case Some(id) =>
          match AppointmentIndex(apps, id)
          case None => Err(OrderNotFound)
          case Some(k) => Ok(k)
  }

  /** The order identifier of a payment link leads the callback to that link's appointment. */
  lemma CallbackFindsOrderedAppointment(apps: seq<Appointment>, k: nat, now: nat)
    requires k < |apps| && apps[k].id >= 0
    requires forall i, j :: 0 <= i < j < |apps| ==> apps[i].id != apps[j].id
    ensures CheckConfirmation(apps, Some(CommerceOrder(apps[k].id, now))) == Ok(k)
  {
    CommerceOrderRoundTrip(apps[k].id, now);
    IndexOfDistinctIds(apps, k);
  }

  /** Every payment of the appointment gets the new status; the others are untouched. */
  function SettlePayments(payments: seq<Payment>, appointmentId: int, status: PaymentStatus): (r: seq<Payment>)
    ensures |r| == |payments|
    ensures forall i :: 0 <= i < |r| ==>
      r[i] == if payments[i].appointmentId == appointmentId then payments[i].(paymentStatus := status) else payments[i]
  {
    if payments == [] then []
    else
      [if payments[0].appointmentId == appointmentId then payments[0].(paymentStatus := status) else payments[0]]
      + SettlePayments(payments[1..], appointmentId, status)
  }

  /**
   * confirmPayment: with status 1 the appointment is confirmed and its
   * payments completed; with any other status, the string "1" included, it
   * is cancelled and its payments failed.  The appointment's current status
   * is not consulted.
   */
  method ConfirmPayment(db: Database, order: Option<string>, status: StatusField) returns (r: Result<Appointment, ConfirmError>)
    requires db.Valid()
    modifies db`appointments, db`payments
    ensures db.Valid()
    ensures var c := CheckConfirmation(old(db.appointments), order);
      c.Err? ==> r == Err(c.error) && db.appointments == old(db.appointments) && db.payments == old(db.payments)
    ensures var c := CheckConfirmation(old(db.appointments), order);
      c.Ok? ==>
        var a := old(db.appointments)[c.value];
        && db.appointments == old(db.appointments)[c.value := a.(status := if Paid(status) then Confirmed else Cancelled)]
        && db.payments == SettlePayments(old(db.payments), a.id, if Paid(status) then PaymentCompleted else PaymentFailed)
        && r == Ok(db.appointments[c.value])
  {
    var c := CheckConfirmation(db.appointments, order);
    if c.Err? {
      return Err(c.error);
    }
    var k := c.value;
    var a := db.appointments[k];
    if Paid(status) {
      db.payments := SettlePayments(db.payments, a.id, PaymentCompleted);
      a := a.(status := Confirmed);
    } else {
      db.payments := SettlePayments(db.payments, a.id, PaymentFailed);
      a := a.(status := Cancelled);
    }
    db.appointments := db.appointments[k := a];
    r := Ok(a);
  }

  /** The string "1" is not the number 1: such a callback cancels. */
  lemma StringStatusCancels()
    ensures !Paid(StringField("1")) && !Paid(NoField) && Paid(NumberField(1))
  {
  }
}
