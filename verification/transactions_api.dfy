/**
 * The gateway (src/api/transactionsApi.ts). Only the list read goes to the
 * network; add, update and delete are local stubs that fabricate the
 * acknowledgement. The HTTP request and the JSON decoding are not modelled:
 * the store receives their outcome as a `FetchOutcome`.
 */
module TransactionsApi {
  import opened JsText
  import opened TransactionModel

  /** The decoded response body `{ status, data }`. */
  datatype Envelope = Envelope(status: string, data: seq<Transaction>)

  /** What awaiting `fetch` and `res.json()` produced: a body, or a thrown error. */
  datatype FetchOutcome = Responded(json: Envelope) | Failed

  /** `fetchTransactions`: the data when the status is exactly "success", otherwise an empty list. */
  function FetchTransactions(json: Envelope): (r: seq<Transaction>)
    ensures json.status == "success" ==> r == json.data
    ensures json.status != "success" ==> r == []
  {
    if json.status == "success" then json.data else []
  }

  /** `addTransaction`: a copy of `tx` whose id is the current time `Date.now()` in decimal. */
  function AddTransaction(tx: Transaction, nowMs: nat): (r: Transaction)
    ensures r.id == NatToString(nowMs)
    ensures r.date == tx.date && r.transactionType == tx.transactionType
    ensures r.transactionAmount == tx.transactionAmount
    ensures r.transactionCategory == tx.transactionCategory
  {
    tx.(id := NatToString(nowMs))
  }

  /** The fabricated id reads back as the creation time, which is what the screen sorts by. */
  lemma AddedIdIsCreationTime(tx: Transaction, nowMs: nat)
    ensures ParseNumber(AddTransaction(tx, nowMs).id) == Some(nowMs as real)
  {
    NumberOfNatToString(nowMs);
  }

  /** `updateTransaction`: acknowledges the transaction as given. */
  function UpdateTransaction(tx: Transaction): (r: Transaction)
    ensures r == tx
  {
    tx
  }

  /** `deleteTransaction`: acknowledges the id as given. */
  function DeleteTransaction(id: string): (r: string)
    ensures r == id
  {
    id
  }
}
