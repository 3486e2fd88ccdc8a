/**
 * `POST /api/payments`: an admin records a payment. Amounts are numbers in
 * cents; `None` is an absent JSON field. `new Date(x).toISOString()` is the
 * parameter `toIso`, which gives `None` where it throws a RangeError on an
 * invalid date; what it gives for an absent date (`None`) is left open.
 */
module PaymentsRoute {
  import opened Wrappers
  import opened Js
  import opened Text
  import opened Db
  import opened Auth

  /** The JSON body of the request. */
  datatype PaymentRequest = PaymentRequest(
    customerId: Option<string>,
    parcelId: Option<string>,
    amountDue: Option<int>,
    amountPaid: Option<int>,
    balance: Option<int>,
    date: Option<string>,
    paidDate: Option<string>,
    payMethod: Option<string>,
    status: Option<string>)

  /** A reply and the `payments` table after the request. */
  datatype Outcome = Outcome(reply: Reply, payments: seq<PaymentRow>)

  const MissingFields: Reply := Reply(400, "Missing required fields")
  const PaymentCreated: Reply := Reply(201, "Payment created successfully")

  /** The required-field test: a falsy customer, amount, method or status; an amount of 0 is falsy. */
  predicate MissingRequired(req: PaymentRequest) {
    !Truthy(req.customerId) || !TruthyNum(req.amountDue) || !TruthyNum(req.amountPaid)
    || !Truthy(req.payMethod) || !Truthy(req.status)
  }

  /**
   * `iso.slice(0, 19).replace("T", " ")`: the first 19 characters of `iso`,
   * where the first `T` among them, and only that one, becomes a space.
   */
  function FormatTimestamp(iso: string): (r: string)
    ensures |r| == if |iso| < 19 then |iso| else 19
    ensures forall i :: 0 <= i < |r| ==> r[i] == if iso[i] == 'T' && 'T' !in iso[..i] then ' ' else iso[i]
  {
    var p := Prefix(iso, 19);
    assert forall i :: 0 <= i <= |p| ==> p[..i] == iso[..i];
    ReplaceFirst(p, 'T', ' ')
  }

  /**
   * On an ISO 8601 timestamp (`YYYY-MM-DDTHH:mm:ss.sssZ`) the result is the
   * date, one space and the time to the second: MySQL's DATETIME text.
   */
  lemma FormatIsoTimestamp(iso: string)
    requires |iso| >= 19 && iso[10] == 'T'
    requires forall i :: 0 <= i < 10 ==> IsDigit(iso[i]) || iso[i] == '-'
    ensures FormatTimestamp(iso) == iso[..10] + " " + iso[11..19]
  {
    var p := Prefix(iso, 19);
    assert p[10] == 'T' && 'T' !in p[..10];
    ReplaceFirstAt(p, 'T', ' ');
    var r := FormatTimestamp(iso);
    assert r[..10] == iso[..10] && r[11..] == iso[11..19];
    assert r == r[..10] + [r[10]] + r[11..];
  }

  /** `formattedPaidDate`: a time only for a "paid" payment with a truthy `paid_date`; `None` inside `Some` is a throwing conversion. */
  function PaidDateOf(req: PaymentRequest, toIso: Option<string> -> Option<string>): (d: Option<Option<string>>)
    ensures d.None? <==> req.status == Some("paid") && Truthy(req.paidDate) && toIso(req.paidDate).None?
    ensures req.status == Some("paid") && Truthy(req.paidDate) && toIso(req.paidDate).Some? ==>
              d == Some(Some(FormatTimestamp(toIso(req.paidDate).value)))
    ensures d.Some? && d.value.Some? ==> req.status == Some("paid") && Truthy(req.paidDate)
    ensures req.status != Some("paid") || !Truthy(req.paidDate) ==> d == Some(None)
  {
    if req.status == Some("paid") && Truthy(req.paidDate) then
      match toIso(req.paidDate)
      case None => None
      case Some(iso) => Some(Some(FormatTimestamp(iso)))
    else Some(None)
  }

  /** The inserted row: the request's own values, balance included, with the two dates formatted. */
  function RowOf(req: PaymentRequest, date: string, paidDate: Option<string>): (row: PaymentRow)
    requires !MissingRequired(req)
    ensures Some(row.customerId) == req.customerId && row.parcelId == req.parcelId && row.balance == req.balance
    ensures Some(row.amountDue) == req.amountDue && Some(row.amountPaid) == req.amountPaid
    ensures Some(row.payMethod) == req.payMethod && Some(row.status) == req.status
    ensures row.date == date && row.paidDate == paidDate
  {
    PaymentRow(req.customerId.value, req.parcelId, req.amountDue.value, req.amountPaid.value, req.balance,
               date, paidDate, req.payMethod.value, req.status.value)
  }

  /**
   * The request's effect: anyone but an admin gets 401 and a missing field
   * 400, with no row written; an invalid date is a 500; otherwise exactly one
   * row is appended and the reply is 201.
   */
  function CreatePayment(user: Option<Identity>, payments: seq<PaymentRow>, req: PaymentRequest,
                         toIso: Option<string> -> Option<string>): (o: Outcome)
    ensures !IsAdmin(user) ==> o == Outcome(Unauthorized, payments)
    ensures IsAdmin(user) && MissingRequired(req) ==> o == Outcome(MissingFields, payments)
    ensures o.reply != PaymentCreated ==> o.payments == payments
    ensures IsAdmin(user) && !MissingRequired(req) && (toIso(req.date).None? || PaidDateOf(req, toIso).None?) ==>
              o == Outcome(InternalError, payments)
    ensures o.reply == PaymentCreated <==>
              IsAdmin(user) && !MissingRequired(req) && toIso(req.date).Some? && PaidDateOf(req, toIso).Some?
    ensures o.reply == PaymentCreated ==>
              |o.payments| == |payments| + 1 && o.payments[..|payments|] == payments
              && var row := o.payments[|payments|];
              && row == RowOf(req, FormatTimestamp(toIso(req.date).value), PaidDateOf(req, toIso).value)
              && row.balance == req.balance
              && (row.paidDate.Some? ==> row.status == "paid")
    ensures o.reply in {Unauthorized, MissingFields, InternalError, PaymentCreated}
  {
    if !IsAdmin(user) then Outcome(Unauthorized, payments)
    else if MissingRequired(req) then Outcome(MissingFields, payments)
    else
      match toIso(req.date)
      case None => Outcome(InternalError, payments)
      case Some(iso) =>
        match PaidDateOf(req, toIso)
        case None => Outcome(InternalError, payments)
        case Some(paidDate) => Outcome(PaymentCreated, payments + [RowOf(req, FormatTimestamp(iso), paidDate)])
  }

  /** The handler, with `formattedPaidDate` as the `let` it reassigns. */
  method Post(user: Option<Identity>, payments: Table<PaymentRow>, req: PaymentRequest,
              toIso: Option<string> -> Option<string>) returns (reply: Reply)
    modifies payments
    ensures Outcome(reply, payments.rows) == CreatePayment(user, old(payments.rows), req, toIso)
  {
    if !IsAdmin(user) {
      return Unauthorized;
    }
    if MissingRequired(req) {
      return MissingFields;
    }
    var date := toIso(req.date);
    if date.None? {
      return InternalError;
    }
    var formattedDate := FormatTimestamp(date.value);
    var formattedPaidDate: Option<string> := None;
    if req.status == Some("paid") && Truthy(req.paidDate) {
      var paid := toIso(req.paidDate);
      if paid.None? {
        return InternalError;
      }
      formattedPaidDate := Some(FormatTimestamp(paid.value));
    }
    payments.Insert(RowOf(req, formattedDate, formattedPaidDate));
    return PaymentCreated;
  }

  /** An amount of 0 counts as missing, whatever the other fields say. */
  lemma ZeroAmountIsMissing(user: Option<Identity>, payments: seq<PaymentRow>, req: PaymentRequest,
                            toIso: Option<string> -> Option<string>)
    requires IsAdmin(user)
    requires req.amountDue == Some(0) || req.amountPaid == Some(0)
    ensures CreatePayment(user, payments, req, toIso) == Outcome(MissingFields, payments)
  {
  }

  /**
   * The server keeps the balance it is sent: a request whose balance
   * disagrees with its amounts is stored as it is.
   */
  lemma BalanceNotRecomputed(user: Option<Identity>, payments: seq<PaymentRow>, req: PaymentRequest,
                             toIso: Option<string> -> Option<string>)
    requires CreatePayment(user, payments, req, toIso).reply == PaymentCreated
    requires req.balance == Some(req.amountDue.value - req.amountPaid.value + 1)
    ensures var row := CreatePayment(user, payments, req, toIso).payments[|payments|];
            row.balance != Some(row.amountDue - row.amountPaid)
  {
  }
}
