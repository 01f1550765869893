/**
 * The payment-result page: the effect that reads the query string and sets
 * the stored status and the shown transaction id and message.
 */
module PaymentStatus {
  import opened Optional

  /** The query string's parameters, decoded, in their order (a `URLSearchParams`). */
  type Query = seq<(string, string)>

  /** `URLSearchParams.get`: the value of the first parameter named `key`, null if none. */
  function Get(q: Query, key: string): (r: Option<string>)
    ensures r.None? <==> forall i :: 0 <= i < |q| ==> q[i].0 != key
    ensures r.Some? ==> exists i :: 0 <= i < |q| && q[i] == (key, r.value) && forall j :: 0 <= j < i ==> q[j].0 != key
  {
    if q == [] then None
    else if q[0].0 == key then Some(q[0].1)
    else
      var r := Get(q[1..], key);
      assert r.Some? ==> exists i :: 0 <= i < |q[1..]| && q[1..][i] == (key, r.value) && forall j :: 0 <= j < i ==> q[1..][j].0 != key;
      assert forall i :: 0 <= i < |q[1..]| ==> q[1..][i] == q[i + 1];
      r
  }

  /** The page's three state values. */
  datatype PaymentView = PaymentView(status: Option<string>, txnId: Option<string>, message: string)

  const ProcessingMessage: string := "Processing payment..."
  const SuccessMessage: string := "Payment Successful"
  const FailedMessage: string := "Payment Failed"
  const UnknownMessage: string := "Unknown Payment Status"

  /** The state before the effect has run. */
  const Initial: PaymentView := PaymentView(None, None, ProcessingMessage)

  /**
   * The if/else chain on the status parameter: success for "Completed",
   * failure for "User cancelled", and unknown for anything else, including a
   * missing status. The result is never the processing message.
   */
  function MessageFor(status: Option<string>): (r: string)
    ensures r == SuccessMessage <==> status == Some("Completed")
    ensures r == FailedMessage <==> status == Some("User cancelled")
    ensures r == UnknownMessage <==> status != Some("Completed") && status != Some("User cancelled")
    ensures r != ProcessingMessage
  {
    if status == Some("Completed") then SuccessMessage
    else if status == Some("User cancelled") then FailedMessage
    else UnknownMessage
  }

  /**
   * `get('txnId') || get('transaction_id')`: `txnId` when present and
   * non-empty, otherwise `transaction_id` (possibly missing too).
   */
  function TxnId(q: Query): (r: Option<string>)
    ensures Get(q, "txnId").Some? && Get(q, "txnId").value != "" ==> r == Get(q, "txnId")
    ensures (Get(q, "txnId").None? || Get(q, "txnId") == Some("")) ==> r == Get(q, "transaction_id")
    ensures r.None? <==> (Get(q, "txnId").None? || Get(q, "txnId") == Some("")) && Get(q, "transaction_id").None?
  {
    var t := Get(q, "txnId");
    if t.Some? && t.value != "" then t else Get(q, "transaction_id")
  }

  /**
   * The effect: the state after the page has read the query string. The
   * stored status is the raw parameter; the message follows from it alone
   * and is no longer the processing message; there is no id exactly when
   * neither a non-empty `txnId` nor a `transaction_id` is given.
   */
  function OnQuery(q: Query): (r: PaymentView)
    ensures r.status == Get(q, "status")
    ensures r.message == SuccessMessage <==> Get(q, "status") == Some("Completed")
    ensures r.message == FailedMessage <==> Get(q, "status") == Some("User cancelled")
    ensures r.message == UnknownMessage <==>
      Get(q, "status") != Some("Completed") && Get(q, "status") != Some("User cancelled")
    ensures r.message != ProcessingMessage
    ensures r.txnId.None? <==>
      (Get(q, "txnId").None? || Get(q, "txnId") == Some("")) && Get(q, "transaction_id").None?
  {
    var status := Get(q, "status");
    PaymentView(status, TxnId(q), MessageFor(status))
  }

  /** The transaction line is rendered only for a non-empty id. */
  predicate ShowsTransactionLine(v: PaymentView) {
    v.txnId.Some? && v.txnId.value != ""
  }

  /** A scenario: a completed payment with its id in `transaction_id`. */
  lemma CompletedWithTransactionId()
    ensures OnQuery([("status", "Completed"), ("txnId", ""), ("transaction_id", "T1")])
      == PaymentView(Some("Completed"), Some("T1"), SuccessMessage)
    ensures ShowsTransactionLine(OnQuery([("status", "Completed"), ("transaction_id", "T1")]))
    ensures !ShowsTransactionLine(Initial)
  {
  }
}
