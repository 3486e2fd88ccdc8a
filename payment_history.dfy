/**
 * The customer's payment-history table: status badges, method icons and
 * labels, the shortened transaction id, and the empty-state row.
 */
module PaymentHistory {
  import opened Wrappers
  import opened Text

  /** The icon `getMethodIcon` picks. */
  datatype MethodIcon = CardIcon | PayPalIcon | BankIcon | DefaultIcon

  /** The statuses with a badge of their own, lower case, and their labels. */
  const StatusLabels := map["paid" := "Paid", "pending" := "Pending", "failed" := "Failed"]

  /** `getStatusBadge`: the label of a known status in any case, else the status as written. */
  function StatusLabel(status: string): (shown: string)
    ensures Lower(status) == "paid" ==> shown == "Paid"
    ensures Lower(status) == "pending" ==> shown == "Pending"
    ensures Lower(status) == "failed" ==> shown == "Failed"
    ensures Lower(status) !in {"paid", "pending", "failed"} ==> shown == status
  {
    LabelOf(StatusLabels, status)
  }

  /**
   * The other statuses a payment can hold (`partially_paid`, `not_paid`,
   * `past_due`) have no case of their own, so they are shown as stored.
   */
  lemma OtherStatusesShownRaw(status: string)
    requires Lower(status) in {"partially_paid", "not_paid", "past_due"}
    ensures StatusLabel(status) == status
  {
  }

  /** Case does not matter for a known status. */
  lemma StatusLabelIgnoresCase(status: string)
    requires Lower(status) in {"paid", "pending", "failed"}
    ensures StatusLabel(Lower(status)) == StatusLabel(status)
  {
    LabelIgnoresCase(StatusLabels, status);
  }

  /** `getMethodIcon`, on the lower-cased method. */
  function Icon(payMethod: string): (icon: MethodIcon)
    ensures icon == CardIcon <==> Lower(payMethod) == "credit_card"
    ensures icon == PayPalIcon <==> Lower(payMethod) == "paypal"
    ensures icon == BankIcon <==> Lower(payMethod) == "bank_transfer"
  {
    var m := Lower(payMethod);
    if m == "credit_card" then CardIcon
    else if m == "paypal" then PayPalIcon
    else if m == "bank_transfer" then BankIcon
    else DefaultIcon
  }

  /** Every method outside the three known ones gets the default icon. */
  lemma OtherMethodsDefaultIcon(payMethod: string)
    requires Lower(payMethod) !in {"credit_card", "paypal", "bank_transfer"}
    ensures Icon(payMethod) == DefaultIcon
  {
  }

  /** `method.replace("_", " ")`: a string pattern, so only the first underscore becomes a space. */
  function MethodLabel(payMethod: string): (r: string)
    ensures |r| == |payMethod|
    ensures forall i :: 0 <= i < |r| ==> r[i] == if payMethod[i] == '_' && '_' !in payMethod[..i] then ' ' else payMethod[i]
  {
    ReplaceFirst(payMethod, '_', ' ')
  }

  /**
   * The label differs from the method only at its first underscore, which
   * becomes a space; any later underscore stays.
   */
  lemma MethodLabelFirstUnderscoreOnly(payMethod: string, j: nat)
    requires j < |payMethod|
    ensures '_' !in payMethod ==> MethodLabel(payMethod) == payMethod
    ensures '_' in payMethod ==>
              MethodLabel(payMethod)[j] == (if j == IndexOf(payMethod, '_') then ' ' else payMethod[j])
    ensures '_' in payMethod && j > IndexOf(payMethod, '_') && payMethod[j] == '_' ==> MethodLabel(payMethod)[j] == '_'
  {
    ReplaceFirstAt(payMethod, '_', ' ');
    if '_' in payMethod {
      var k := IndexOf(payMethod, '_');
      var r := MethodLabel(payMethod);
      if j < k {
        assert r[..k][j] == payMethod[..k][j];
      } else if j > k {
        assert r[k + 1..][j - k - 1] == payMethod[k + 1..][j - k - 1];
      }
    }
  }

  /** `"#" + id.substring(0, 8)`. */
  function TransactionId(id: string): (r: string)
    ensures |r| == 1 + (if |id| < 8 then |id| else 8)
    ensures r[0] == '#' && r[1..] == id[..|r| - 1]
  {
    "#" + Prefix(id, 8)
  }

  /** An id of at most eight characters is shown whole. */
  lemma ShortIdShownWhole(id: string)
    requires |id| <= 8
    ensures TransactionId(id) == "#" + id
  {
  }

  /** Ids that agree on their first eight characters look the same. */
  lemma LongIdsMayCollide(a: string, b: string)
    requires |a| >= 8 && |b| >= 8 && a[..8] == b[..8]
    ensures TransactionId(a) == TransactionId(b)
  {
  }

  /**
   * A payment id as the page hands it to the table: `payments.id` is an
   * `INT AUTO_INCREMENT` column, which mysql2 returns as a JavaScript number,
   * although the component's interface declares a string.
   */
  datatype RowId = NumberId(n: nat) | TextId(s: string)

  /**
   * The cell as written: `payment.id.substring(0, 8)` on a number is a
   * TypeError (`None`), since numbers have no `substring`; only a text id
   * gets its label.
   */
  function TransactionCell(id: RowId): (r: Option<string>)
    ensures r.None? <==> id.NumberId?
    ensures id.TextId? ==> r == Some(TransactionId(id.s))
  {
    match id
    case NumberId(_) => None
    case TextId(s) => Some(TransactionId(s))
  }

  /** A numeric id makes the cell throw, for every id of a history whose ids are all numeric. */
  lemma StoredIdsThrow(ids: seq<nat>)
    ensures forall i :: 0 <= i < |ids| ==> TransactionCell(NumberId(ids[i])).None?
  {
  }

  /** The evidently intended cell: the id's decimal text, shortened as the source shortens it. */
  function TransactionIdOf(id: nat): (r: string)
    ensures |r| >= 2 && r[0] == '#' && AllDigits(r[1..])
    ensures |DecimalString(id)| <= 8 ==> r == "#" + DecimalString(id)
  {
    TransactionId(DecimalString(id))
  }

  /** With the corrected cell, ids of up to eight digits are told apart. */
  lemma CorrectedIdsDistinct(a: nat, b: nat)
    requires |DecimalString(a)| <= 8 && |DecimalString(b)| <= 8
    requires a != b
    ensures TransactionIdOf(a) != TransactionIdOf(b)
  {
    if TransactionIdOf(a) == TransactionIdOf(b) {
      assert DecimalString(a) == TransactionIdOf(a)[1..];
      assert DecimalString(b) == TransactionIdOf(b)[1..];
      DecimalInjective(a, b);
    }
  }

  const Header: seq<string> := ["Transaction ID", "Amount", "Date", "Method", "Status"]

  /** The `colSpan` of the "No payment history found" cell. */
  const EmptyColspan: nat := 5

  /** The empty-state row spans the whole header. */
  lemma EmptyRowSpansHeader()
    ensures EmptyColspan == |Header|
  {
  }
}
