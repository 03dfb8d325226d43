/** The transaction record carried by blocks and by the pending pool. */
module Transactions {
  import opened Text

  /**
   * A transfer between two parties. Equality is whole-record value equality,
   * as for a Lombok `@Data` class. The amount is a whole number here.
   */
  datatype Transaction = Transaction(sender: string, recipient: string, amount: int, signature: string)

  /** Lombok's `toString` of a transaction, with the amount as an integer followed by `.0`. */
  function Render(tx: Transaction): string
  {
    "Transaction(sender=" + tx.sender + ", recipient=" + tx.recipient
      + ", amount=" + IntToString(tx.amount) + ".0, signature=" + tx.signature + ")"
  }

  /** The items' renderings separated by `, `, built from the front as Java's iterator appends them. */
  function RenderItems(txs: seq<Transaction>): string
  {
    if txs == [] then ""
    else if |txs| == 1 then Render(txs[0])
    else RenderItems(txs[..|txs| - 1]) + ", " + Render(txs[|txs| - 1])
  }

  /** `List.toString` of a transaction list: `[a, b, c]`. */
  function RenderList(txs: seq<Transaction>): string
  {
    "[" + RenderItems(txs) + "]"
  }

  /** The rendering names the record and its first field, and closes with `)`. */
  lemma RenderShape(tx: Transaction)
    ensures StartsWith(Render(tx), "Transaction(sender=" + tx.sender + ", recipient=")
    ensures |Render(tx)| > 0 && Render(tx)[|Render(tx)| - 1] == ')'
  {
    var head := "Transaction(sender=" + tx.sender + ", recipient=";
    var tail := tx.recipient + ", amount=" + IntToString(tx.amount) + ".0, signature=" + tx.signature + ")";
    assert Render(tx) == head + tail;
    assert (head + tail)[..|head|] == head;
  }

  /** `List.toString` of an empty list is `[]`. */
  lemma RenderListEmpty()
    ensures RenderList([]) == "[]"
  {
  }

  /** `List.toString` of a one-item list is the item between brackets. */
  lemma RenderListSingle(tx: Transaction)
    ensures RenderList([tx]) == "[" + Render(tx) + "]"
  {
  }

  /** Appending to a non-empty list adds `, ` and the new item's rendering at the end of the items. */
  lemma RenderItemsSnoc(txs: seq<Transaction>, tx: Transaction)
    requires txs != []
    ensures RenderItems(txs + [tx]) == RenderItems(txs) + ", " + Render(tx)
  {
    assert (txs + [tx])[..|txs|] == txs;
  }
}
