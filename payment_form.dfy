/**
 * The client-side payment form: the balance effect and the submit guards.
 * An amount field holds `None` while its text input is empty and otherwise
 * the cents its text parses to; the balance is kept in cents.
 */
module PaymentFormModel {
  import opened Wrappers
  import opened Auth
  import opened Db
  import PaymentsRoute

  /** The statuses the form's select offers. */
  const SelectableStatuses: seq<string> := ["paid", "partially_paid", "not_paid", "past_due"]

  /** `Math.max(0, due - paid)`. */
  function ComputeBalance(due: int, paid: int): (b: int)
    ensures b >= 0
    ensures paid <= due ==> b == due - paid
    ensures paid > due ==> b == 0
  {
    if due - paid > 0 then due - paid else 0
  }

  class PaymentForm {
    var customerId: string
    var parcelId: string
    var amountDue: Option<int>
    var amountPaid: Option<int>
    var balance: int
    var date: string
    var paidDate: string
    var payMethod: string
    var status: string

    /** The initial state; `today` is the date part of the current ISO time. */
    constructor (today: string)
      ensures customerId == "" && parcelId == "" && amountDue == None && amountPaid == None
      ensures balance == 0 && date == today && paidDate == ""
      ensures payMethod == "credit_card" && status == "pending"
      ensures status !in SelectableStatuses
    {
      customerId := "";
      parcelId := "";
      amountDue := None;
      amountPaid := None;
      balance := 0;
      date := today;
      paidDate := "";
      payMethod := "credit_card";
      status := "pending";
    }

    /** The effect that runs after either amount changes: it recomputes only when both are filled in. */
    method RecomputeBalance()
      modifies this`balance
      ensures amountDue.Some? && amountPaid.Some? ==> balance == ComputeBalance(amountDue.value, amountPaid.value)
      ensures amountDue.None? || amountPaid.None? ==> balance == old(balance)
    {
      if amountDue.Some? && amountPaid.Some? {
        balance := ComputeBalance(amountDue.value, amountPaid.value);
      }
    }

    /** Typing into the amount-due input, then the effect. */
    method SetAmountDue(v: Option<int>)
      modifies this`amountDue, this`balance
      ensures amountDue == v
      ensures v.Some? && amountPaid.Some? ==> balance == ComputeBalance(v.value, amountPaid.value)
      ensures v.None? || amountPaid.None? ==> balance == old(balance)
    {
      amountDue := v;
      RecomputeBalance();
    }

    /** Typing into the amount-paid input, then the effect. */
    method SetAmountPaid(v: Option<int>)
      modifies this`amountPaid, this`balance
      ensures amountPaid == v
      ensures amountDue.Some? && v.Some? ==> balance == ComputeBalance(amountDue.value, v.value)
      ensures amountDue.None? || v.None? ==> balance == old(balance)
    {
      amountPaid := v;
      RecomputeBalance();
    }

    /** The body `handleSubmit` would post, or `None` when a guard returns first. */
    function Request(): (r: Option<PaymentsRoute.PaymentRequest>)
      reads this
      ensures r.None? <==> customerId == "" || amountDue.None? || amountPaid.None?
      ensures r.Some? ==> (r.value.paidDate.Some? <==> status == "paid")
      ensures r.Some? && status == "paid" ==> r.value.paidDate == Some(paidDate)
      ensures r.Some? ==> r.value.parcelId == Some(parcelId) && r.value.date == Some(date)
      ensures r.Some? ==> r.value.customerId == Some(customerId) && r.value.balance == Some(balance)
                          && r.value.amountDue == amountDue && r.value.amountPaid == amountPaid
                          && r.value.status == Some(status) && r.value.payMethod == Some(payMethod)
    {
      if customerId == "" || amountDue.None? || amountPaid.None? then None
      else Some(PaymentsRoute.PaymentRequest(
        Some(customerId), Some(parcelId), amountDue, amountPaid, Some(balance), Some(date),
        if status == "paid" then Some(paidDate) else None, Some(payMethod), Some(status)))
    }

    /** `handleSubmit`: two early-return guards, then the request body. */
    method Submit() returns (r: Option<PaymentsRoute.PaymentRequest>)
      ensures r == Request()
    {
      if customerId == "" {
        return None;
      }
      if amountDue.None? || amountPaid.None? {
        return None;
      }
      var paid := if status == "paid" then Some(paidDate) else None;
      r := Some(PaymentsRoute.PaymentRequest(
        Some(customerId), Some(parcelId), amountDue, amountPaid, Some(balance), Some(date),
        paid, Some(payMethod), Some(status)));
    }
  }

  /**
   * The form and the server disagree on a zero amount: the form sends an
   * amount field that holds 0, and the server refuses it as missing.
   */
  lemma ZeroAmountAcceptedThenRefused(form: PaymentForm, user: Option<Identity>, payments: seq<PaymentRow>,
                                      toIso: Option<string> -> Option<string>)
    requires form.customerId != "" && form.amountDue == Some(0) && form.amountPaid.Some?
    requires IsAdmin(user)
    ensures form.Request().Some?
    ensures PaymentsRoute.CreatePayment(user, payments, form.Request().value, toIso).reply == PaymentsRoute.MissingFields
  {
  }
}
